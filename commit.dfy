/** gitfu/commands/commit.py, `git commit`: refuse to commit on top of a commit whose
    subject says WIP, otherwise hand the arguments to the real `git commit`. */
module Commit {
  import opened Text
  import opened Shell
  import opened Color

  /** `git log --pretty=format:"%s" -1`: the format string is passed with its quotes, so
      the output is the last subject wrapped in double quotes. */
  const LastSubject: Cmd := Plain(["log", "--pretty=format:\"%s\"", "-1"])

  /** `git commit *argv`, coloured and not captured. */
  function CommitCmd(argv: seq<string>): Cmd {
    Cmd(["commit"] + argv, true, false)
  }

  const WipMessage: string := Colorize("ERROR:", RED) + " Last commit was a WIP."

  /** The test in `prevent_wip_commits` on the log output. */
  function WipCheck(out: string): Result<()> {
    match FirstToken(out)
    case None => Raised(IndexError)
    case Some(t) => if Contains(Lower(t), "wip") then Raised(LastCommitWip(WipMessage)) else Ok(())
  }

  /** Blank output raises IndexError (and only blank output does); otherwise the commit
      is refused iff the lowered first token contains `wip`. */
  lemma WipCheckOutcome(out: string)
    ensures WipCheck(out) == Raised(IndexError) <==> forall i :: 0 <= i < |out| ==> IsSpace(out[i])
    ensures WipCheck(out) == Raised(LastCommitWip(WipMessage)) <==>
              exists t :: FirstToken(out) == Some(t) && Contains(Lower(t), "wip")
    ensures WipCheck(out).Raised? ==> WipCheck(out).exc in {IndexError, LastCommitWip(WipMessage)}
  {
  }

  /** `prevent_wip_commits()` */
  function PreventWip(git: Oracle, io: Io): Step<()> {
    var s := Run(git, io, LastSubject);
    if s.result.Raised? then Step(Raised(s.result.exc), s.io)
    else Step(WipCheck(s.result.value), s.io)
  }

  /** `run(*argv)` */
  function RunCommit(git: Oracle, io: Io, argv: seq<string>): Step<()> {
    var p := PreventWip(git, io);
    if p.result.Raised? then p
    else
      var c := Run(git, p.io, CommitCmd(argv));
      Step(if c.result.Raised? then Raised(c.result.exc) else Ok(()), c.io)
  }

  /** The check runs first and a refusal blocks the commit; the arguments reach
      `git commit` unchanged. */
  lemma CheckBeforeCommit(git: Oracle, io: Io, argv: seq<string>)
    ensures var passed := git(io.log, LastSubject).Completed? && WipCheck(git(io.log, LastSubject).stdout).Ok?;
            Commands(RunCommit(git, io, argv).io.log)
              == Commands(io.log) + [LastSubject] + (if passed then [CommitCmd(argv)] else [])
  {
    var log1 := io.log + [Ran(LastSubject)];
    CommandsAppend(io.log, [Ran(LastSubject)]);
    CommandsAppend(log1, [Ran(CommitCmd(argv))]);
  }

  // ---------------------------------------------------------------- the first token

  /** Only the first whitespace-separated token counts. */
  lemma FirstTokenOnly(t: string, rest: string)
    requires t != [] && forall i :: 0 <= i < |t| ==> !IsSpace(t[i])
    requires rest == [] || IsSpace(rest[0])
    ensures FirstToken(t + rest) == Some(t)
  {
    var s := t + rest;
    assert s[0] == t[0];
    assert SkipSpace(s) == s;
    TokenOfWord(t, rest);
    assert s[..|t|] == t;
  }

  lemma {:induction false} TokenOfWord(t: string, rest: string)
    requires forall i :: 0 <= i < |t| ==> !IsSpace(t[i])
    requires rest == [] || IsSpace(rest[0])
    ensures TokenLength(t + rest) == |t|
  {
    if t != [] {
      assert (t + rest)[1..] == t[1..] + rest;
      TokenOfWord(t[1..], rest);
    } else {
      assert t + rest == rest;
    }
  }

  /** The test ignores case: a subject in capitals is refused like one in lower case. */
  lemma WipIgnoresCase(out: string)
    ensures WipCheck(Upper(out)) == WipCheck(out)
  {
    UpperFirstToken(out);
    if FirstToken(out).Some? {
      LowerUpper(FirstToken(out).value);
    }
  }

  lemma UpperFirstToken(s: string)
    ensures FirstToken(Upper(s)) == match FirstToken(s) case None => None case Some(t) => Some(Upper(t))
  {
    UpperSkipSpace(s);
    var t := SkipSpace(s);
    if t != [] {
      UpperTokenLength(t);
      UpperTake(t, TokenLength(t));
    }
  }

  lemma UpperTake(t: string, n: nat)
    requires n <= |t|
    ensures Upper(t)[..n] == Upper(t[..n])
  {
  }

  lemma UpperKeepsSpace(c: char)
    ensures IsSpace(UpperChar(c)) == IsSpace(c)
  {
  }

  lemma {:induction false} UpperSkipSpace(s: string)
    ensures SkipSpace(Upper(s)) == Upper(SkipSpace(s))
  {
    if s != [] {
      UpperKeepsSpace(s[0]);
      assert Upper(s)[1..] == Upper(s[1..]);
      if IsSpace(s[0]) {
        UpperSkipSpace(s[1..]);
      }
    }
  }

  lemma {:induction false} UpperTokenLength(s: string)
    ensures TokenLength(Upper(s)) == TokenLength(s)
  {
    if s != [] {
      UpperKeepsSpace(s[0]);
      assert Upper(s)[1..] == Upper(s[1..]);
      if !IsSpace(s[0]) {
        UpperTokenLength(s[1..]);
      }
    }
  }

  lemma LowerUpper(s: string)
    ensures Lower(Upper(s)) == Lower(s)
  {
    assert forall i :: 0 <= i < |s| ==> Lower(Upper(s))[i] == LowerChar(UpperChar(s[i]));
  }

  // ---------------------------------------------------------------- the quoted subject

  /** The log output for a subject. */
  function Quoted(subject: string): string {
    "\"" + subject + "\""
  }

  /** `WIP: typo` is refused: its first token is `"WIP:`. */
  lemma WipSubjectRefused()
    ensures WipCheck(Quoted("WIP: typo")) == Raised(LastCommitWip(WipMessage))
  {
    assert Quoted("WIP: typo") == "\"WIP:" + " typo\"";
    FirstTokenOnly("\"WIP:", " typo\"");
    assert Lower("\"WIP:") == "\"wip:";
    ContainsAt("\"wip:", "wip", 1);
  }

  /** `fix wip test` passes: `wip` is not in the first token. */
  lemma LaterWipPasses()
    ensures WipCheck(Quoted("fix wip test")) == Ok(())
  {
    assert Quoted("fix wip test") == "\"fix" + " wip test\"";
    FirstTokenOnly("\"fix", " wip test\"");
    assert Lower("\"fix") == "\"fix";
    MissingFirstChar("\"fix", "wip");
  }

  /** An empty subject does not raise IndexError: the quotes make `""` a token. */
  lemma EmptySubjectPasses()
    ensures WipCheck(Quoted("")) == Ok(())
  {
    assert Quoted("") == "\"\"" + "";
    FirstTokenOnly("\"\"", "");
    assert Lower("\"\"") == "\"\"";
    MissingFirstChar("\"\"", "wip");
  }

  /** Blank output, which the quoted format never produces, raises IndexError. */
  lemma BlankOutputRaises()
    ensures WipCheck("") == Raised(IndexError)
    ensures WipCheck(" \n") == Raised(IndexError)
  {
    assert FirstToken("") == None;
    assert IsSpace(" \n"[0]) && IsSpace(" \n"[1]);
    assert FirstToken(" \n") == None;
  }
}
