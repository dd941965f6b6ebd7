/** The y/n question loop shared by `_get_confirmation` in
    gitfu/standalone/remove_git_branch.py and `should_add_file` in gitfu/commands/check.py:
    ask, lower the answer, ask again until it is a substring of "yn", and say yes iff it is "y". */
module YesNo {
  import opened Text
  import opened Shell

  /** `value not in 'yn'` is false: the lowered answer is a substring of "yn". */
  predicate Settles(answer: string) {
    Contains("yn", Lower(answer))
  }

  /** Exactly four lowered answers end the loop, the empty one among them. */
  lemma SettlesExactly(answer: string)
    ensures Settles(answer) <==> Lower(answer) in {"", "y", "n", "yn"}
  {
    var w := Lower(answer);
    if Contains("yn", w) {
      var i :| 0 <= i <= 2 && StartsWith("yn"[i..], w);
      assert |w| <= 2 - i;
      if i == 0 {
        assert "yn"[0..] == "yn";
        if |w| == 2 { assert w == "yn"; } else if |w| == 1 { assert w == "y"; } else { assert w == ""; }
      } else if i == 1 {
        assert "yn"[1..] == "n";
        if |w| == 1 { assert w == "n"; } else { assert w == ""; }
      } else {
        assert w == "";
      }
    } else {
      if w == "" { ContainsEmpty("yn"); }
      else if w == "y" { ContainsAt("yn", w, 0); }
      else if w == "n" { ContainsAt("yn", w, 1); }
      else if w == "yn" { ContainsSelf("yn"); }
    }
  }

  /** `n` showings of the same prompt. */
  function Asks(prompt: string, n: nat): (evs: seq<Event>)
    ensures |evs| == n
  {
    if n == 0 then [] else [Asked(prompt)] + Asks(prompt, n - 1)
  }

  /** The loop, as a function: what it returns and the world after it. */
  function Ask(prompt: string, io: Io): Step<bool>
    decreases |io.input|
  {
    var r := Read(io, prompt);
    if r.result.Raised? then Step(Raised(r.result.exc), r.io)
    else if Settles(r.result.value) then Step(Ok(Lower(r.result.value) == "y"), r.io)
    else Ask(prompt, r.io)
  }

  /** What remains of the loop once one answer `r` has been read. */
  function Resume(prompt: string, r: Step<string>): Step<bool> {
    if r.result.Raised? then Step(Raised(r.result.exc), r.io)
    else if Settles(r.result.value) then Step(Ok(Lower(r.result.value) == "y"), r.io)
    else Ask(prompt, r.io)
  }

  /** The loop as the source writes it. */
  method AskLoop(prompt: string, io: Io) returns (s: Step<bool>)
    ensures s == Ask(prompt, io)
  {
    var r := Read(io, prompt);
    while r.result.Ok? && !Settles(r.result.value)
      invariant Resume(prompt, r) == Ask(prompt, io)
      decreases |r.io.input| + (if r.result.Ok? then 1 else 0)
    {
      r := Read(r.io, prompt);
    }
    if r.result.Raised? {
      s := Step(Raised(r.result.exc), r.io);
    } else {
      s := Step(Ok(Lower(r.result.value) == "y"), r.io);
    }
  }

  /** Position of the answer that ends the loop: the first Ctrl-C or settling line,
      or the number of answers when there is none. */
  function Decisive(answers: seq<Input>): (k: nat)
    ensures k <= |answers|
    ensures forall j :: 0 <= j < k ==> answers[j].Line? && !Settles(answers[j].text)
    ensures k < |answers| ==> answers[k].Interrupt? || Settles(answers[k].text)
  {
    if answers == [] then 0
    else if answers[0].Interrupt? || Settles(answers[0].text) then 0
    else 1 + Decisive(answers[1..])
  }

  /** The whole behaviour of the loop: it shows its prompt once more than the number of
      answers it rejects, consumes exactly the answers it read, and returns true iff the
      deciding answer lowers to "y"; Ctrl-C and running out of answers raise. */
  lemma {:induction false} AskOutcome(prompt: string, io: Io)
    ensures var k := Decisive(io.input);
            var s := Ask(prompt, io);
            && s.io.log == io.log + Asks(prompt, k + 1)
            && s.io.input == (if k < |io.input| then io.input[k + 1..] else [])
            && s.result == (if k == |io.input| then Raised(EofError)
                            else if io.input[k].Interrupt? then Raised(KeyboardInterrupt)
                            else Ok(Lower(io.input[k].text) == "y"))
    decreases |io.input|
  {
    var r := Read(io, prompt);
    if io.input != [] && io.input[0].Line? && !Settles(io.input[0].text) {
      var rest := io.input[1..];
      Rejected(prompt, io);
      AskOutcome(prompt, Io(rest, io.log + [Asked(prompt)]));
      var k1 := Decisive(rest);
      if k1 < |rest| {
        assert rest[k1 + 1..] == io.input[k1 + 2..];
      }
      AsksAfter(io.log, prompt, k1 + 1);
    }
  }

  /** A rejected first answer: the loop starts over on the rest. */
  lemma Rejected(prompt: string, io: Io)
    requires io.input != [] && io.input[0].Line? && !Settles(io.input[0].text)
    ensures Ask(prompt, io) == Ask(prompt, Io(io.input[1..], io.log + [Asked(prompt)]))
    ensures Decisive(io.input) == Decisive(io.input[1..]) + 1
    ensures Decisive(io.input) < |io.input| ==> io.input[Decisive(io.input)] == io.input[1..][Decisive(io.input[1..])]
  {
  }

  lemma AsksAfter(log: seq<Event>, prompt: string, n: nat)
    ensures log + [Asked(prompt)] + Asks(prompt, n) == log + Asks(prompt, n + 1)
  {
  }

  /** An empty answer ends the loop as a "no". */
  lemma EmptyAnswerIsNo(prompt: string, io: Io, rest: seq<Input>)
    requires io.input == [Line("")] + rest
    ensures Ask(prompt, io) == Step(Ok(false), Io(rest, io.log + [Asked(prompt)]))
  {
    SettlesExactly("");
    assert io.input[1..] == rest;
  }

  /** The answer "yn" ends the loop too, also as a "no". */
  lemma YnAnswerIsNo(prompt: string, io: Io, rest: seq<Input>)
    requires io.input == [Line("yn")] + rest
    ensures Ask(prompt, io) == Step(Ok(false), Io(rest, io.log + [Asked(prompt)]))
  {
    ContainsSelf("yn");
    assert Lower("yn") == "yn";
    assert io.input[1..] == rest;
  }
}
