/** gitfu/scripts/remove_branch.py, the legacy `rmb` script: resolve a query to one
    local branch, delete it after a strict y/n question, then delete the remote branch
    the same name resolves to. Outcomes travel as the exceptions `SuccessfulExecution`
    and `ErrorDuringExecution`. */
module RemoveBranchScript {
  import opened Text
  import opened Shell

  const ListLocal: Cmd := Plain(["branch"])
  const ListAll: Cmd := Plain(["branch", "-a"])
  const InvalidMessage: string := "error: Invalid input. Must be one of ['y', 'Y', 'n', 'N']"
  const Acceptable: set<string> := {"y", "Y", "n", "N"}

  function DeleteLocalCmd(branch: string, force: bool): Cmd {
    Plain(["branch", if force then "-D" else "-d", branch])
  }

  function PushDeleteCmd(remote: string, branch: string): Cmd {
    Plain(["push", remote, "--delete", branch])
  }

  // ---------------------------------------------------------------- listings

  /** `get_local_branches()`: every line of `git branch` without its first two characters
      (the marker column and its space). */
  function LocalBranches(lines: seq<string>): (r: seq<string>)
    ensures |r| == |lines|
    ensures forall i :: 0 <= i < |lines| ==> r[i] == Drop(lines[i], 2)
  {
    if lines == [] then [] else [Drop(lines[0], 2)] + LocalBranches(lines[1..])
  }

  /** `'* remotes/<remote>/'`, whose length is what is cut off a remote line. */
  function RemotePrefix(remote: string): string {
    "* remotes/" + remote + "/"
  }

  /** `re.match('^[* ] remotes/<remote>/', line)`, with the remote read literally. */
  predicate IsRemoteLine(line: string, remote: string) {
    line != [] && line[0] in Marker && StartsWith(line[1..], " remotes/" + remote + "/")
  }

  /** `get_remote_branches(remote)`: the matching lines of `git branch -a`, in order,
      each without the prefix. */
  function RemoteBranches(lines: seq<string>, remote: string): (r: seq<string>)
    ensures |r| <= |lines|
    ensures forall x :: x in r <==> exists l :: l in lines && IsRemoteLine(l, remote) && x == Drop(l, |RemotePrefix(remote)|)
  {
    if lines == [] then []
    else
      var rest := RemoteBranches(lines[1..], remote);
      assert forall l :: l in lines <==> l == lines[0] || l in lines[1..];
      (if IsRemoteLine(lines[0], remote) then [Drop(lines[0], |RemotePrefix(remote)|)] else []) + rest
  }

  /** A remote line is the prefix, with either marker, followed by the branch name. */
  lemma RemoteLineName(marker: char, remote: string, branch: string)
    requires marker in Marker
    ensures var line := [marker] + " remotes/" + remote + "/" + branch;
            IsRemoteLine(line, remote) && Drop(line, |RemotePrefix(remote)|) == branch
  {
    var line := [marker] + " remotes/" + remote + "/" + branch;
    assert line[1..] == " remotes/" + remote + "/" + branch;
    assert line == [marker] + " remotes/" + remote + "/" + branch;
    assert |RemotePrefix(remote)| == |[marker] + " remotes/" + remote + "/"|;
  }

  // ---------------------------------------------------------------- get_user_input

  /** The question with a trailing space added when it has none. */
  function Question(q: string): (r: string)
    ensures EndsWith(r, " ")
    ensures EndsWith(q, " ") ==> r == q
  {
    if EndsWith(q, " ") then q else q + " "
  }

  /** The loop of `get_user_input`, as a function: anything but y/Y/n/N is refused with
      an error line, and the question is asked again. */
  function UserInput(question: string, io: Io): Step<bool>
    decreases |io.input|
  {
    var r := Read(io, Question(question));
    if r.result.Raised? then Step(Raised(r.result.exc), r.io)
    else if r.result.value in Acceptable then Step(Ok(Lower(r.result.value) == "y"), r.io)
    else UserInput(question, PrintErr(r.io, InvalidMessage))
  }

  /** What remains of the loop once one answer `r` has been read. */
  function ResumeInput(question: string, r: Step<string>): Step<bool> {
    if r.result.Raised? then Step(Raised(r.result.exc), r.io)
    else if r.result.value in Acceptable then Step(Ok(Lower(r.result.value) == "y"), r.io)
    else UserInput(question, PrintErr(r.io, InvalidMessage))
  }

  /** `get_user_input(question)`, as the source writes it. */
  method UserInputLoop(question: string, io: Io) returns (s: Step<bool>)
    ensures s == UserInput(question, io)
  {
    var q := question;
    if !EndsWith(q, " ") {
      q := q + " ";
    }
    assert q == Question(question);
    var r := Read(io, q);
    assert ResumeInput(question, r) == UserInput(question, io);
    while r.result.Ok? && r.result.value !in Acceptable
      invariant q == Question(question)
      invariant ResumeInput(question, r) == UserInput(question, io)
      decreases |r.io.input| + (if r.result.Ok? then 1 else 0)
    {
      var next := PrintErr(r.io, InvalidMessage);
      assert UserInput(question, next) == ResumeInput(question, Read(next, q));
      r := Read(next, q);
    }
    if r.result.Raised? {
      s := Step(Raised(r.result.exc), r.io);
    } else {
      s := Step(Ok(Lower(r.result.value) == "y"), r.io);
    }
  }

  /** Position of the answer that ends the loop: the first Ctrl-C or acceptable line, or
      the number of answers when there is none. */
  function Decisive(answers: seq<Input>): (k: nat)
    ensures k <= |answers|
    ensures forall j :: 0 <= j < k ==> answers[j].Line? && answers[j].text !in Acceptable
    ensures k < |answers| ==> answers[k].Interrupt? || answers[k].text in Acceptable
  {
    if answers == [] then 0
    else if answers[0].Interrupt? || answers[0].text in Acceptable then 0
    else 1 + Decisive(answers[1..])
  }

  /** `n` refused answers: each shows the question and prints the error line. */
  function Refusals(q: string, n: nat): (evs: seq<Event>)
    ensures |evs| == 2 * n
  {
    if n == 0 then [] else [Asked(q), Err(InvalidMessage)] + Refusals(q, n - 1)
  }

  /** The closed form of the loop: one question and one error line per refused answer,
      then the question once more; the result is true iff the deciding answer is y or Y,
      and Ctrl-C or running out of answers raise. */
  function Outcome(q: string, io: Io): Step<bool> {
    var k := Decisive(io.input);
    Step(if k == |io.input| then Raised(EofError)
         else if io.input[k].Interrupt? then Raised(KeyboardInterrupt)
         else Ok(io.input[k].text in {"y", "Y"}),
         Io(if k < |io.input| then io.input[k + 1..] else [], io.log + Refusals(q, k) + [Asked(q)]))
  }

  /** The loop has that closed form. Only the four exact answers settle it, so an empty
      answer is refused. */
  lemma {:induction false} UserInputOutcome(question: string, io: Io)
    ensures UserInput(question, io) == Outcome(Question(question), io)
    decreases |io.input|
  {
    var q := Question(question);
    if io.input != [] && io.input[0].Line? && io.input[0].text !in Acceptable {
      var io' := Io(io.input[1..], io.log + [Asked(q), Err(InvalidMessage)]);
      RefusedAnswer(question, io);
      UserInputOutcome(question, io');
      OutcomeShift(q, io);
    } else {
      SettledAnswer(question, io);
    }
  }

  /** An interrupt, an accepted answer or no answer at all ends the loop at once. */
  lemma SettledAnswer(question: string, io: Io)
    requires !(io.input != [] && io.input[0].Line? && io.input[0].text !in Acceptable)
    ensures UserInput(question, io) == Outcome(Question(question), io)
  {
    if io.input != [] && io.input[0].Line? {
      AcceptedAnswer(io.input[0].text);
    }
  }

  /** Refusing the first answer shifts the closed form by one question and one error. */
  lemma OutcomeShift(q: string, io: Io)
    requires io.input != [] && io.input[0].Line? && io.input[0].text !in Acceptable
    ensures Outcome(q, io) == Outcome(q, Io(io.input[1..], io.log + [Asked(q), Err(InvalidMessage)]))
  {
    var k, k1 := Decisive(io.input), Decisive(io.input[1..]);
    assert k == k1 + 1;
    if k1 < |io.input[1..]| {
      assert io.input[1..][k1 + 1..] == io.input[k + 1..];
      assert io.input[1..][k1] == io.input[k];
    }
    assert Refusals(q, k) == [Asked(q), Err(InvalidMessage)] + Refusals(q, k1);
    assert io.log + Refusals(q, k) == io.log + [Asked(q), Err(InvalidMessage)] + Refusals(q, k1);
  }

  /** A refused answer costs one question and one error line, then the loop starts over. */
  lemma RefusedAnswer(question: string, io: Io)
    requires io.input != [] && io.input[0].Line? && io.input[0].text !in Acceptable
    ensures UserInput(question, io)
            == UserInput(question, Io(io.input[1..], io.log + [Asked(Question(question)), Err(InvalidMessage)]))
  {
    var r := Read(io, Question(question));
    assert PrintErr(r.io, InvalidMessage) == Io(io.input[1..], io.log + [Asked(Question(question)), Err(InvalidMessage)]);
  }

  /** Of the four accepted answers, `.lower() == 'y'` holds for y and Y only. */
  lemma AcceptedAnswer(t: string)
    requires t in Acceptable
    ensures Lower(t) == "y" <==> t in {"y", "Y"}
  {
    assert |t| == 1;
    assert Lower(t) == [LowerChar(t[0])];
  }

  // ---------------------------------------------------------------- get_branch_name

  datatype Descriptor = Local | Remote

  function Title(d: Descriptor): string {
    match d case Local => "Local" case Remote => "Remote"
  }

  function Lowered(d: Descriptor): string {
    match d case Local => "local" case Remote => "remote"
  }

  /** `print_error(message, *lines)`: "error: " and the message, then each line, all on
      standard error. */
  function PrintError(io: Io, message: string, lines: seq<string>): (io': Io)
    ensures io'.input == io.input
    ensures |io'.log| == |io.log| + 1 + |lines|
    ensures io'.log[..|io.log|] == io.log && io'.log[|io.log|] == Err("error: " + message)
    ensures forall i :: 0 <= i < |lines| ==> io'.log[|io.log| + 1 + i] == Err(lines[i])
    decreases |lines|
  {
    if lines == [] then PrintErr(io, "error: " + message)
    else
      var io1 := PrintError(io, message, lines[..|lines| - 1]);
      PrintErr(io1, lines[|lines| - 1])
  }

  /** `'* <branch>'` for each branch. */
  function Bullets(branches: seq<string>): (r: seq<string>)
    ensures |r| == |branches|
  {
    if branches == [] then [] else ["* " + branches[0]] + Bullets(branches[1..])
  }

  /** `get_branch_name(query, function, descriptor)` with the branches `function()`
      lists: the one branch containing the query; none is an error for remote branches
      and a question for local ones, whose "yes" keeps the query as it is. */
  function GetBranchName(io: Io, query: string, branches: seq<string>, d: Descriptor): (s: Step<string>)
    ensures |Filter(branches, query)| > 1 ==> s.result == Raised(ErrorDuringExecution)
    ensures |Filter(branches, query)| == 1 ==> s == Step(Ok(Filter(branches, query)[0]), io)
    ensures Filter(branches, query) == [] && d == Remote ==> s.result == Raised(ErrorDuringExecution)
    ensures Filter(branches, query) == [] && d == Local ==>
              (s.result.Ok? ==> s.result.value == query) &&
              (s.result.Raised? ==> s.result.exc in {SuccessfulExecution, EofError, KeyboardInterrupt})
    ensures Filter(branches, query) == [] && d == Local ==>
              var c := UserInput("Do you want to continue?",
                                 PrintError(io, "Unable to find \"" + query + "\" in " + Lowered(Local) + " branches!", []));
              && s.io == c.io
              && s.result == (if c.result.Raised? then Raised(c.result.exc)
                              else if c.result.value then Ok(query) else Raised(SuccessfulExecution))
  {
    var candidates := Filter(branches, query);
    if |candidates| > 1 then
      Step(Raised(ErrorDuringExecution),
           PrintError(io, "More than one branch found! Try using a more specific query.",
                      [Title(d) + " branches found:"] + Bullets(candidates)))
    else if candidates == [] then
      var io1 := PrintError(io, "Unable to find \"" + query + "\" in " + Lowered(d) + " branches!", []);
      if d == Remote then Step(Raised(ErrorDuringExecution), io1)
      else
        var c := UserInput("Do you want to continue?", io1);
        UserInputOutcome("Do you want to continue?", io1);
        match c.result
        case Raised(e) => Step(Raised(e), c.io)
        case Ok(yes) => if yes then Step(Ok(query), c.io) else Step(Raised(SuccessfulExecution), c.io)
    else Step(Ok(candidates[0]), io)
  }

  // ---------------------------------------------------------------- main

  /** The parsed command line. */
  datatype Args = Args(force: bool, remote: string, branch: string)

  /** The command line as `main` finds it: with no arguments `-h` is appended, and
      argparse prints the help and exits with status 0. */
  datatype Cli = NoArguments | Parsed(args: Args)

  /** `delete_local_branch(branch, force)`: a failure becomes `ErrorDuringExecution`. */
  function DeleteLocal(git: Oracle, io: Io, branch: string, force: bool): (s: Step<()>)
    ensures s.result.Raised? <==> git(io.log, DeleteLocalCmd(branch, force)).Failed?
    ensures s.result.Raised? ==> s.result.exc == ErrorDuringExecution
  {
    var r := Run(git, io, DeleteLocalCmd(branch, force));
    if r.result.Raised? then Step(Raised(ErrorDuringExecution), r.io)
    else Step(Ok(()), PrintErr(r.io, "Removed local branch \"" + branch + "\"."))
  }

  /** The first `try` of `main` after the branch was resolved: when it is a local branch,
      ask, then delete it. */
  function LocalStep(git: Oracle, io: Io, branch: string, found: bool, force: bool): Step<()> {
    if !found then Step(Ok(()), io)
    else
      var a := UserInput("Do you want to delete branch: " + branch + "?", io);
      match a.result
      case Raised(e) => Step(Raised(e), a.io)
      case Ok(yes) =>
        if !yes then Step(Raised(SuccessfulExecution), a.io)
        else DeleteLocal(git, a.io, branch, force)
  }

  /** The second `try` of `main`: the same name resolved among the remote branches, then
      pushed for deletion; a push failure is not caught. */
  function RemoteStep(git: Oracle, io: Io, branch: string, remote: string, found: bool): Step<int> {
    var l := Run(git, io, ListAll);
    match l.result
    case Raised(e) => Step(Raised(e), l.io)
    case Ok(listing) =>
      var g := GetBranchName(l.io, branch, RemoteBranches(SplitLines(listing), remote), Remote);
      match g.result
      case Raised(e) =>
        // `return not found_local_branch`
        if e == ErrorDuringExecution then Step(Ok(if found then 0 else 1), g.io) else Step(Raised(e), g.io)
      case Ok(name) =>
        var p := Run(git, g.io, PushDeleteCmd(remote, name));
        if p.result.Raised? then Step(Raised(p.result.exc), p.io)
        else Step(Ok(0), PrintErr(p.io, "Removed remote branch \"" + name + "\"."))
  }

  /** `main()`. The local listing is cached, so `git branch` runs once. */
  function Main(git: Oracle, io: Io, cli: Cli): Step<int> {
    match cli
    case NoArguments => Step(Raised(SystemExit(0)), io)
    case Parsed(args) =>
      var l := Run(git, io, ListLocal);
      match l.result
      case Raised(e) => Step(Raised(e), l.io)
      case Ok(listing) =>
        var locals := LocalBranches(SplitLines(listing));
        var g := GetBranchName(l.io, args.branch, locals, Local);
        match g.result
        case Raised(e) =>
          if e == SuccessfulExecution then Step(Ok(0), g.io)
          else if e == ErrorDuringExecution then Step(Ok(1), g.io)
          else Step(Raised(e), g.io)
        case Ok(name) =>
          var found := name in locals;
          var d := LocalStep(git, g.io, name, found, args.force);
          match d.result
          case Raised(e) =>
            if e == SuccessfulExecution then Step(Ok(0), d.io)
            else if e == ErrorDuringExecution then Step(Ok(1), d.io)
            else Step(Raised(e), d.io)
          case Ok(_) => RemoteStep(git, d.io, name, args.remote, found)
  }

  /** The `__main__` guard calls `main()` without `sys.exit`: the process status is 0
      whatever `main` returns, unless an exception escapes. */
  function ProcessStatus(r: Result<int>): (code: int)
    ensures r.Ok? ==> code == 0
    ensures r.Raised? ==> code == ExitStatus(r)
  {
    match r
    case Ok(_) => 0
    case Raised(_) => ExitStatus(r)
  }

  // ---------------------------------------------------------------- behaviour

  /** With no arguments the help is shown and no git command runs. */
  lemma NoArgumentsShowsHelp(git: Oracle, io: Io)
    ensures var s := Main(git, io, NoArguments);
            s.io == io && ExitStatus(s.result) == 0
  {
  }

  /** Declining the deletion of the one matching local branch returns 0, and the only git
      command is the listing. */
  lemma DeclineReturnsZero(git: Oracle, io: Io, args: Args)
    requires git(io.log, ListLocal).Completed?
    requires var locals := LocalBranches(SplitLines(git(io.log, ListLocal).stdout));
             var ms := Filter(locals, args.branch);
             |ms| == 1 &&
             UserInput("Do you want to delete branch: " + ms[0] + "?", Io(io.input, io.log + [Ran(ListLocal)])).result == Ok(false)
    ensures var s := Main(git, io, Parsed(args));
            s.result == Ok(0) && Commands(s.io.log) == Commands(io.log) + [ListLocal]
  {
    var io1 := Io(io.input, io.log + [Ran(ListLocal)]);
    var locals := LocalBranches(SplitLines(git(io.log, ListLocal).stdout));
    var ms := Filter(locals, args.branch);
    var question := "Do you want to delete branch: " + ms[0] + "?";
    assert ms[0] in locals;
    var a := UserInput(question, io1);
    assert Main(git, io, Parsed(args)) == Step(Ok(0), a.io);
    UserInputRunsNothing(question, io1);
    CommandsAppend(io.log, [Ran(ListLocal)]);
  }

  /** The question loop issues no git command. */
  lemma UserInputRunsNothing(question: string, io: Io)
    ensures Commands(UserInput(question, io).io.log) == Commands(io.log)
  {
    UserInputOutcome(question, io);
    var k := Decisive(io.input);
    RefusalsRunNothing(Question(question), k);
    CommandsAppend(io.log, Refusals(Question(question), k));
    CommandsAppend(io.log + Refusals(Question(question), k), [Asked(Question(question))]);
  }

  lemma {:induction false} RefusalsRunNothing(q: string, n: nat)
    ensures Commands(Refusals(q, n)) == []
  {
    if n > 0 {
      RefusalsRunNothing(q, n - 1);
      var r := Refusals(q, n);
      assert r[1..][1..] == Refusals(q, n - 1);
    }
  }

  /** A failed local delete (after a "yes") makes `main` return 1, yet the process exits
      0; the remote step is never reached. */
  lemma FailedLocalDeleteReturnsOne(git: Oracle, io: Io, args: Args)
    requires git(io.log, ListLocal).Completed?
    requires var locals := LocalBranches(SplitLines(git(io.log, ListLocal).stdout));
             var ms := Filter(locals, args.branch);
             |ms| == 1 &&
             var a := UserInput("Do you want to delete branch: " + ms[0] + "?", Io(io.input, io.log + [Ran(ListLocal)]));
             a.result == Ok(true) && git(a.io.log, DeleteLocalCmd(ms[0], args.force)).Failed?
    ensures var s := Main(git, io, Parsed(args));
            var ms := Filter(LocalBranches(SplitLines(git(io.log, ListLocal).stdout)), args.branch);
            && s.result == Ok(1) && ProcessStatus(s.result) == 0
            && Commands(s.io.log) == Commands(io.log) + [ListLocal, DeleteLocalCmd(ms[0], args.force)]
  {
    var io1 := Io(io.input, io.log + [Ran(ListLocal)]);
    var locals := LocalBranches(SplitLines(git(io.log, ListLocal).stdout));
    var ms := Filter(locals, args.branch);
    var question := "Do you want to delete branch: " + ms[0] + "?";
    assert ms[0] in locals;
    var a := UserInput(question, io1);
    var del := DeleteLocalCmd(ms[0], args.force);
    var d := DeleteLocal(git, a.io, ms[0], args.force);
    assert d.io.log == a.io.log + [Ran(del)];
    assert Main(git, io, Parsed(args)) == Step(Ok(1), d.io);
    UserInputRunsNothing(question, io1);
    CommandsAppend(io.log, [Ran(ListLocal)]);
    CommandsAppend(a.io.log, [Ran(del)]);
  }

  /** A remote query that resolves to no branch or several returns 0 when a local
      branch was found and 1 otherwise, and pushes nothing. */
  lemma RemoteMissReturnsNotFound(git: Oracle, io: Io, branch: string, remote: string, found: bool)
    requires git(io.log, ListAll).Completed?
    requires |Filter(RemoteBranches(SplitLines(git(io.log, ListAll).stdout), remote), branch)| != 1
    ensures var s := RemoteStep(git, io, branch, remote, found);
            s.result == Ok(if found then 0 else 1) && Commands(s.io.log) == Commands(io.log) + [ListAll]
  {
    var l := Run(git, io, ListAll);
    CommandsAppend(io.log, [Ran(ListAll)]);
    RemoteMissRunsNothing(l.io, branch, RemoteBranches(SplitLines(git(io.log, ListAll).stdout), remote));
  }

  /** A remote query matching no branch or several raises `ErrorDuringExecution` after
      printing, without running anything. */
  lemma RemoteMissRunsNothing(io: Io, query: string, branches: seq<string>)
    requires |Filter(branches, query)| != 1
    ensures var g := GetBranchName(io, query, branches, Remote);
            g.result == Raised(ErrorDuringExecution) && Commands(g.io.log) == Commands(io.log)
  {
    var candidates := Filter(branches, query);
    if |candidates| > 1 {
      PrintErrorRunsNothing(io, "More than one branch found! Try using a more specific query.",
                            [Title(Remote) + " branches found:"] + Bullets(candidates));
    } else {
      PrintErrorRunsNothing(io, "Unable to find \"" + query + "\" in " + Lowered(Remote) + " branches!", []);
    }
  }

  lemma {:induction false} PrintErrorRunsNothing(io: Io, message: string, lines: seq<string>)
    ensures Commands(PrintError(io, message, lines).log) == Commands(io.log)
    decreases |lines|
  {
    if lines == [] {
      CommandsAppend(io.log, [Err("error: " + message)]);
    } else {
      var io1 := PrintError(io, message, lines[..|lines| - 1]);
      PrintErrorRunsNothing(io, message, lines[..|lines| - 1]);
      CommandsAppend(io1.log, [Err(lines[|lines| - 1])]);
    }
  }
}
