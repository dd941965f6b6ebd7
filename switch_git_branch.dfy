/** gitfu/standalone/switch_git_branch.py: switch to the one branch matching a query,
    resolving a blocked checkout with the strategy its flags choose. */
module SwitchGitBranch {
  import opened Text
  import opened Shell
  import opened Color

  /** `BranchChangeStrategy` */
  datatype Strategy = Discard | OverwriteDest | Save

  const ListBranches: Cmd := Plain(["branch"])
  const ShowBranches: Cmd := Git(["branch"])
  const LogCmd: Cmd := Plain(["log", "--pretty=format:\"%s\"", "-1"])
  const ResetCmd: Cmd := Git(["reset", "HEAD~1"])
  const WipMessage: string := "WIP: switch-branch-cache"
  const CommitWip: Cmd := Git(["commit", "-m", WipMessage])

  const TrackedHeader: string :=
    "error: Your local changes to the following files would be overwritten by checkout:"
  const UntrackedHeader: string :=
    "error: The following untracked working tree files would be overwritten by checkout:"
  const Boilerplate: set<string> := {
    "Please commit your changes or stash them before you switch branches.",
    "Please move or remove them before you switch branches.",
    "Aborting"
  }

  function CheckoutCmd(name: string): Cmd {
    Git(["checkout", name])
  }

  function AddCmd(files: seq<string>): Cmd {
    Git(["add"] + files)
  }

  // ---------------------------------------------------------------- get_branch

  /** `get_branch(name)` on the lines of `git branch`: the query is tested against the
      raw line, marker and padding included, and only the matches are stripped. */
  function GetBranch(lines: seq<string>, name: string): (r: Result<string>)
    ensures r == Raised(BranchNotFound) <==> Filter(lines, name) == []
    ensures r.Ok? <==> |Filter(lines, name)| == 1
    ensures r.Ok? ==> r.value == Strip(Filter(lines, name)[0], Marker)
    ensures r.Raised? && r.exc != BranchNotFound ==>
              r.exc == ExcessivelyBroadQuery(StripEach(Filter(lines, name), Marker))
  {
    var branches := StripEach(Filter(lines, name), Marker);
    if branches == [] then Raised(BranchNotFound)
    else if |branches| > 1 then Raised(ExcessivelyBroadQuery(branches))
    else Ok(branches[0])
  }

  /** A query can match the current-branch marker itself. */
  lemma MarkerMatches()
    ensures GetBranch(["* main", "  dev"], "*") == Ok("main")
  {
    var lines := ["* main", "  dev"];
    ContainsAt(lines[0], "*", 0);
    forall i | 0 <= i <= |lines[1]| ensures !StartsWith(lines[1][i..], "*") {
      if i < |lines[1]| {
        assert lines[1][i..][0] == lines[1][i] != '*';
      }
    }
    assert lines[1..][1..] == [];
    assert Filter(lines, "*") == [lines[0]];
    assert Strip("* main", Marker) == "main" by {
      assert "* main"[1..][1..] == "main";
      assert StripStart("* main", Marker) == "main";
    }
  }

  // ---------------------------------------------------------------- strategy

  /** The strategy of `main`: `--force` beats `--stash`, which beats `--commit`. */
  function StrategyOf(force: bool, stash: bool, commit: bool): (r: Option<Strategy>)
    ensures r.None? <==> !force && !stash && !commit
    ensures force ==> r == Some(Discard)
    ensures r == Some(OverwriteDest) <==> !force && stash
    ensures r == Some(Save) <==> !force && !stash && commit
  {
    if force then Some(Discard)
    else if stash then Some(OverwriteDest)
    else if commit then Some(Save)
    else None
  }

  // ---------------------------------------------------------------- _get_blocking_files

  /** Which list `collection` refers to. */
  datatype Bucket = NoBucket | Tracked | Untracked

  /** The two lists being built, and which one `collection` aliases. */
  datatype Blocking = Blocking(active: Bucket, tracked: seq<string>, untracked: seq<string>)

  predicate IsHeader(line: string) {
    line == TrackedHeader || line == UntrackedHeader
  }

  /** A line that is appended to the active list. */
  predicate IsContent(line: string) {
    !IsHeader(line) && line !in Boilerplate
  }

  /** One iteration of the loop: a header switches the list, boilerplate is skipped, and
      anything else is stripped and appended to the active list; with none, the append
      is an attribute lookup on `None`. */
  function ScanLine(b: Blocking, line: string): (r: Result<Blocking>)
    ensures r.Raised? <==> IsContent(line) && b.active == NoBucket
  {
    if line == TrackedHeader then Ok(b.(active := Tracked))
    else if line == UntrackedHeader then Ok(b.(active := Untracked))
    else if line in Boilerplate then Ok(b)
    else match b.active
      case NoBucket => Raised(AttributeError("append"))
      case Tracked => Ok(b.(tracked := b.tracked + [StripSpace(line)]))
      case Untracked => Ok(b.(untracked := b.untracked + [StripSpace(line)]))
  }

  /** The rest of the loop from state `b`. */
  function Scan(lines: seq<string>, b: Blocking): Result<Blocking> {
    if lines == [] then Ok(b)
    else match ScanLine(b, lines[0])
      case Raised(e) => Raised(e)
      case Ok(b') => Scan(lines[1..], b')
  }

  const Start: Blocking := Blocking(NoBucket, [], [])

  /** `_get_blocking_files(error)`, as the source writes it. */
  method BlockingFiles(error: string) returns (r: Result<(seq<string>, seq<string>)>)
    ensures var s := Scan(SplitLines(error), Start);
            r == (match s case Ok(b) => Ok((b.tracked, b.untracked)) case Raised(e) => Raised(e))
  {
    var lines := SplitLines(error);
    var tracked: seq<string> := [];
    var untracked: seq<string> := [];
    var collection := NoBucket;
    var i := 0;
    while i < |lines|
      invariant 0 <= i <= |lines|
      invariant Scan(lines[i..], Blocking(collection, tracked, untracked)) == Scan(lines, Start)
    {
      var line := lines[i];
      assert lines[i..][1..] == lines[i + 1..];
      if line == TrackedHeader {
        collection := Tracked;
      } else if line == UntrackedHeader {
        collection := Untracked;
      } else if line !in Boilerplate {
        match collection
        case NoBucket =>
          return Raised(AttributeError("append"));
        case Tracked =>
          tracked := tracked + [StripSpace(line)];
        case Untracked =>
          untracked := untracked + [StripSpace(line)];
      }
      i := i + 1;
    }
    r := Ok((tracked, untracked));
  }

  /** The content lines that land in list `which` when the active list is `active`:
      an independent, line-by-line statement of where every line goes. */
  function Routed(lines: seq<string>, active: Bucket, which: Bucket): seq<string> {
    if lines == [] then []
    else if lines[0] == TrackedHeader then Routed(lines[1..], Tracked, which)
    else if lines[0] == UntrackedHeader then Routed(lines[1..], Untracked, which)
    else if lines[0] in Boilerplate then Routed(lines[1..], active, which)
    else (if active == which then [StripSpace(lines[0])] else []) + Routed(lines[1..], active, which)
  }

  /** Once a list is active the scan cannot fail, and each list receives, in order, the
      stripped content lines routed to it; headers and boilerplate are never collected. */
  lemma {:induction false} ScanRoutes(lines: seq<string>, b: Blocking)
    requires b.active != NoBucket
    ensures Scan(lines, b).Ok?
    ensures Scan(lines, b).value.tracked == b.tracked + Routed(lines, b.active, Tracked)
    ensures Scan(lines, b).value.untracked == b.untracked + Routed(lines, b.active, Untracked)
  {
    if lines != [] {
      var b' := ScanLine(b, lines[0]).value;
      ScanRoutes(lines[1..], b');
      if !IsContent(lines[0]) {
        assert b'.tracked == b.tracked && b'.untracked == b.untracked;
      }
    }
  }

  /** Before any header, the scan fails exactly when a content line comes first among
      the non-boilerplate lines; otherwise it fails nowhere. */
  lemma {:induction false} ScanFromStart(lines: seq<string>, b: Blocking)
    requires b.active == NoBucket
    ensures Scan(lines, b).Raised? <==>
              exists i :: 0 <= i < |lines| && IsContent(lines[i]) && forall j :: 0 <= j < i ==> !IsHeader(lines[j])
    ensures Scan(lines, b).Raised? ==> Scan(lines, b).exc == AttributeError("append")
  {
    if lines != [] {
      if IsHeader(lines[0]) {
        ScanRoutes(lines[1..], ScanLine(b, lines[0]).value);
      } else if !IsContent(lines[0]) {
        ScanFromStart(lines[1..], b);
        if Scan(lines, b).Raised? {
          var i :| 0 <= i < |lines[1..]| && IsContent(lines[1..][i]) && forall j :: 0 <= j < i ==> !IsHeader(lines[1..][j]);
          assert IsContent(lines[i + 1]);
          assert forall j :: 0 <= j < i + 1 ==> !IsHeader(lines[j]) by {
            forall j | 0 <= j < i + 1 ensures !IsHeader(lines[j]) {
              if j > 0 { assert lines[j] == lines[1..][j - 1]; }
            }
          }
        } else {
          forall i | 0 <= i < |lines| && IsContent(lines[i])
            ensures exists j :: 0 <= j < i && IsHeader(lines[j])
          {
            assert i > 0;
            assert IsContent(lines[1..][i - 1]);
            var j :| 0 <= j < i - 1 && IsHeader(lines[1..][j]);
            assert IsHeader(lines[j + 1]);
          }
        }
      } else {
        assert IsContent(lines[0]);
      }
    }
  }

  /** An error text with a content line before any header makes `_get_blocking_files`
      raise. */
  lemma OrphanLineRaises(rest: seq<string>)
    ensures Scan(["src/a.py"] + rest, Start) == Raised(AttributeError("append"))
  {
    assert ("src/a.py" + "")[0] == 's';
    assert IsContent("src/a.py");
  }

  // ---------------------------------------------------------------- switch_branch

  /** What a strategy's handler runs before it yields: SAVE stages the blocking files and
      commits them as the WIP commit; the others run nothing. */
  function HandlerCmds(strategy: Strategy, b: Blocking): seq<Cmd> {
    if strategy == Save then [AddCmd(b.tracked + b.untracked), CommitWip] else []
  }

  /** `with handler(error): git.run('checkout', name)`. Every handler parses the error
      first; an exception inside the `with` passes through the generator unchanged. */
  function Handle(git: Oracle, io: Io, strategy: Strategy, error: string, name: string): Step<()> {
    match Scan(SplitLines(error), Start)
    case Raised(e) => Step(Raised(e), io)
    case Ok(b) => Retry(git, io, strategy, b, name)
  }

  /** The handler's work up to its `yield`. */
  function Prepare(git: Oracle, io: Io, strategy: Strategy, b: Blocking): Step<()> {
    if strategy == Save then SaveHandler(git, io, b) else Step(Ok(()), io)
  }

  /** The parsed handler's work, then the checkout once more. */
  function Retry(git: Oracle, io: Io, strategy: Strategy, b: Blocking, name: string): Step<()> {
    var h := Prepare(git, io, strategy, b);
    if h.result.Raised? then h
    else
      var r := Run(git, h.io, CheckoutCmd(name));
      Step(if r.result.Raised? then Raised(r.result.exc) else Ok(()), r.io)
  }

  /** The body of `resolve_errors_through_commit` up to its `yield`. */
  function SaveHandler(git: Oracle, io: Io, b: Blocking): Step<()> {
    var a := Run(git, io, AddCmd(b.tracked + b.untracked));
    if a.result.Raised? then Step(Raised(a.result.exc), a.io)
    else
      var c := Run(git, a.io, CommitWip);
      Step(if c.result.Raised? then Raised(c.result.exc) else Ok(()), c.io)
  }

  /** After the checkout: the last commit's subject is read, and the WIP commit is undone
      when it is exactly the WIP message. */
  function WipCleanup(git: Oracle, io: Io): Step<()> {
    var l := Run(git, io, LogCmd);
    match l.result
    case Raised(e) => Step(Raised(e), l.io)
    case Ok(subject) =>
      if subject == WipMessage then
        var r := Run(git, l.io, ResetCmd);
        Step(if r.result.Raised? then Raised(r.result.exc) else Ok(()), r.io)
      else Step(Ok(()), l.io)
  }

  /** `switch_branch(name, strategy=…)` */
  function SwitchBranch(git: Oracle, io: Io, name: string, strategy: Option<Strategy>): Step<()> {
    var c := Run(git, io, CheckoutCmd(name));
    var after :=
      if c.result.Ok? then Step(Ok(()), c.io)
      else if strategy.None? then Step(Raised(c.result.exc), c.io)
      else Handle(git, c.io, strategy.value, c.result.exc.stderr, name);
    if after.result.Raised? then after else WipCleanup(git, after.io)
  }

  predicate IsPrefix(a: seq<Cmd>, b: seq<Cmd>) {
    |a| <= |b| && b[..|a|] == a
  }

  /** A failed checkout with no strategy re-raises at once. */
  lemma NoStrategyReraises(git: Oracle, io: Io, name: string)
    requires git(io.log, CheckoutCmd(name)).Failed?
    ensures SwitchBranch(git, io, name, None) ==
              Step(Raised(ProcessError(git(io.log, CheckoutCmd(name)).stderr)), Io(io.input, io.log + [Ran(CheckoutCmd(name))]))
  {
  }

  /** The SAVE handler issues the `add`, then the commit unless the `add` failed, and
      reaches its `yield` when both succeed. */
  lemma SaveHandlerCommands(git: Oracle, io: Io, b: Blocking)
    ensures var h := SaveHandler(git, io, b);
            var add := AddCmd(b.tracked + b.untracked);
            && h.io.input == io.input
            && (h.result.Ok? ==> Commands(h.io.log) == Commands(io.log) + [add, CommitWip])
            && (h.result.Raised? ==> IsPrefix(Commands(h.io.log), Commands(io.log) + [add, CommitWip]))
  {
    var add := AddCmd(b.tracked + b.untracked);
    var a := Run(git, io, add);
    CommandsAppend(io.log, [Ran(add)]);
    if a.result.Ok? {
      CommandsAppend(a.io.log, [Ran(CommitWip)]);
    } else {
      assert (Commands(io.log) + [add, CommitWip])[..|Commands(io.log) + [add]|] == Commands(io.log) + [add];
    }
  }

  /** With a strategy, the handler's commands run and the checkout is retried once: the
      commands issued are a prefix of the handler's followed by one checkout, all of them
      when the retry succeeds. A failing handler ends it with its own error; otherwise the
      result is the retried checkout's, whose failure propagates. */
  lemma HandleRetriesOnce(git: Oracle, io: Io, strategy: Strategy, error: string, name: string)
    requires Scan(SplitLines(error), Start).Ok?
    ensures var s := Handle(git, io, strategy, error, name);
            var planned := HandlerCmds(strategy, Scan(SplitLines(error), Start).value) + [CheckoutCmd(name)];
            var h := Prepare(git, io, strategy, Scan(SplitLines(error), Start).value);
            var retry := git(h.io.log, CheckoutCmd(name));
            && s.io.input == io.input
            && IsPrefix(Commands(s.io.log), Commands(io.log) + planned)
            && (s.result.Ok? ==> Commands(s.io.log) == Commands(io.log) + planned)
            && (h.result.Raised? ==> s == h)
            && (h.result.Ok? ==> s.result == if retry.Completed? then Ok(()) else Raised(ProcessError(retry.stderr)))
  {
    RetryOnce(git, io, strategy, Scan(SplitLines(error), Start).value, name);
  }

  /** An error text that does not parse ends the handling before the retry. */
  lemma HandleUnparsed(git: Oracle, io: Io, strategy: Strategy, error: string, name: string)
    requires Scan(SplitLines(error), Start).Raised?
    ensures Handle(git, io, strategy, error, name) == Step(Raised(Scan(SplitLines(error), Start).exc), io)
  {
  }

  lemma RetryOnce(git: Oracle, io: Io, strategy: Strategy, b: Blocking, name: string)
    ensures var s := Retry(git, io, strategy, b, name);
            var planned := HandlerCmds(strategy, b) + [CheckoutCmd(name)];
            var h := Prepare(git, io, strategy, b);
            var retry := git(h.io.log, CheckoutCmd(name));
            && s.io.input == io.input
            && IsPrefix(Commands(s.io.log), Commands(io.log) + planned)
            && (s.result.Ok? ==> Commands(s.io.log) == Commands(io.log) + planned)
            && (h.result.Raised? ==> s == h)
            && (h.result.Ok? ==> s.result == if retry.Completed? then Ok(()) else Raised(ProcessError(retry.stderr)))
  {
    var hs := HandlerCmds(strategy, b);
    var h := Prepare(git, io, strategy, b);
    var co := CheckoutCmd(name);
    if strategy == Save {
      SaveHandlerCommands(git, io, b);
    }
    var s := Retry(git, io, strategy, b, name);
    if h.result.Ok? {
      assert s.io.log == h.io.log + [Ran(co)];
      CommandsAppend(h.io.log, [Ran(co)]);
      assert Commands([Ran(co)]) == [co];
      assert Commands(io.log) + hs + [co] == Commands(io.log) + (hs + [co]);
    } else {
      assert s == h;
      PrefixExtends(Commands(h.io.log), Commands(io.log), hs, [co]);
    }
  }

  lemma PrefixExtends(a: seq<Cmd>, b: seq<Cmd>, c: seq<Cmd>, d: seq<Cmd>)
    requires IsPrefix(a, b + c)
    ensures IsPrefix(a, b + (c + d))
  {
    assert (b + (c + d))[..|a|] == (b + c)[..|a|];
  }

  /** The log format wraps the subject in double quotes, so the output is never the bare
      WIP message and the WIP commit is never reset. */
  lemma QuotedSubjectNeverResets(git: Oracle, io: Io, subject: string)
    requires git(io.log, LogCmd) == Completed("\"" + subject + "\"")
    ensures WipCleanup(git, io) == Step(Ok(()), Io(io.input, io.log + [Ran(LogCmd)]))
  {
    assert ("\"" + subject + "\"")[0] != WipMessage[0];
  }

  /** After a completed log, `git reset HEAD~1` follows exactly when the output is the
      bare WIP message. */
  lemma BareSubjectResets(git: Oracle, io: Io)
    requires git(io.log, LogCmd).Completed?
    ensures Commands(WipCleanup(git, io).io.log)
              == Commands(io.log) + [LogCmd] + (if git(io.log, LogCmd) == Completed(WipMessage) then [ResetCmd] else [])
  {
    CommandsAppend(io.log, [Ran(LogCmd)]);
    CommandsAppend(io.log + [Ran(LogCmd)], [Ran(ResetCmd)]);
  }

  // ---------------------------------------------------------------- main

  /** The parsed command line; only one flag can be given, but the model takes any. */
  datatype Args = Args(name: Option<string>, force: bool, stash: bool, commit: bool)

  const ShowHeader: string := "These are the branches you can switch to:\n"

  function NotFoundMessage(): string {
    Colorize("ERROR", RED) + ": No branch found with that query."
  }

  function BroadMessage(names: seq<string>): string {
    Colorize("ERROR", RED) + ": Multiple git branches found:\n - " + Join(names, "\n - ") + "\n\nTry a different query."
  }

  /** `main(*argv)` */
  function Main(git: Oracle, io: Io, args: Args): Step<int> {
    if args.name.None? || args.name.value == "" then
      var r := Run(git, io, ShowBranches);
      if r.result.Raised? then Step(Raised(r.result.exc), r.io)
      else Step(Ok(0), Print(r.io, ShowHeader + r.result.value))
    else
      var l := Run(git, io, ListBranches);
      match l.result
      case Raised(e) => Step(Raised(e), l.io)
      case Ok(listing) =>
        match GetBranch(SplitLines(listing), args.name.value)
        case Raised(e) =>
          if e == BranchNotFound then Step(Ok(1), PrintErr(l.io, NotFoundMessage()))
          else if e.ExcessivelyBroadQuery? then Step(Ok(1), PrintErr(l.io, BroadMessage(e.names)))
          else Step(Raised(e), l.io)
        case Ok(dest) =>
          var s := SwitchBranch(git, l.io, dest, StrategyOf(args.force, args.stash, args.commit));
          match s.result
          case Ok(_) => Step(Ok(0), s.io)
          case Raised(e) =>
            if e.ProcessError? then Step(Ok(1), PrintErr(s.io, e.stderr)) else Step(Raised(e), s.io)
  }

  /** A query that resolves to no branch, or to several, stops before any checkout with
      status 1 and the matching message; several matches are listed stripped. */
  lemma UnresolvedQueryExitsOne(git: Oracle, io: Io, args: Args)
    requires args.name.Some? && args.name.value != "" && git(io.log, ListBranches).Completed?
    requires |Filter(SplitLines(git(io.log, ListBranches).stdout), args.name.value)| != 1
    ensures var ms := Filter(SplitLines(git(io.log, ListBranches).stdout), args.name.value);
            Main(git, io, args) == Step(Ok(1), Io(io.input, io.log + [Ran(ListBranches),
              Err(if ms == [] then NotFoundMessage() else BroadMessage(StripEach(ms, Marker)))]))
  {
  }
}
