/** gitfu/standalone/remove_git_branch.py: delete a branch locally and on the remote
    after one confirmation, or prune every branch already merged. */
module RemoveGitBranch {
  import opened Text
  import opened Shell
  import opened Color
  import opened Sorting
  import YesNo

  const ListLocal: Cmd := Plain(["branch"])
  const ListRemote: Cmd := Plain(["branch", "-r"])
  const ListMerged: Cmd := Plain(["branch", "--merged"])
  const ListMergedRemote: Cmd := Plain(["branch", "-r", "--merged"])

  const ConfirmPrompt: string := "Are you sure you want to continue? (y/n) "
  const AmbiguousText: string := "More than one branch found! Try using a more specific query.\n - "
  const WarningText: string := "Unable to find any local branches. Searching remote-only branches..."

  function DeleteLocalCmd(names: seq<string>, force: bool): Cmd {
    Git(["branch", if force then "-D" else "-d"] + names)
  }

  function PushDeleteCmd(remote: string, name: string): Cmd {
    Git(["push", remote, "--delete", name])
  }

  /** One `git push <remote> --delete <name>` per name, in order. */
  function Pushes(remote: string, names: seq<string>): (cmds: seq<Cmd>)
    ensures |cmds| == |names|
  {
    if names == [] then [] else [PushDeleteCmd(remote, names[0])] + Pushes(remote, names[1..])
  }

  // ---------------------------------------------------------------- listings

  /** The set `local_branches`. */
  function LocalNames(lines: seq<string>): set<string> {
    set l | l in lines :: Strip(l, Marker)
  }

  /** The local branches containing the query, each once; Python iterates a set in
      an order of its own, which the model fixes as order of first appearance. */
  function Candidates(lines: seq<string>, query: string): (r: seq<string>)
    ensures forall x :: x in r <==> x in LocalNames(lines) && Contains(x, query)
    ensures NoDuplicates(r)
  {
    var stripped := StripEach(lines, Marker);
    assert forall x :: x in stripped <==> x in LocalNames(lines) by {
      forall x ensures x in stripped <==> x in LocalNames(lines) {
        if x in stripped {
          var i :| 0 <= i < |stripped| && stripped[i] == x;
          assert lines[i] in lines;
        }
        if x in LocalNames(lines) {
          var l :| l in lines && Strip(l, Marker) == x;
          var i :| 0 <= i < |lines| && lines[i] == l;
          assert stripped[i] == x;
        }
      }
    }
    Distinct(Filter(stripped, query))
  }

  /** The number of candidates is the number of distinct matching local names. */
  lemma CandidateCount(lines: seq<string>, query: string)
    ensures |Candidates(lines, query)| == |set x | x in LocalNames(lines) && Contains(x, query)|
  {
    var r := Candidates(lines, query);
    assert (set x | x in r) == (set x | x in LocalNames(lines) && Contains(x, query));
    DistinctCard(r);
  }

  /** The remote branch names of a `git branch -r` listing:
      `{item.split()[0][len(f'{remote}/'):] for item in lines} - {'HEAD'}`, in listing
      order. The prefix is dropped by length only, whatever the line's remote is; a
      blank line raises IndexError. */
  function RemoteNames(lines: seq<string>, remote: string): (r: Result<seq<string>>)
    ensures r.Raised? <==> exists i :: 0 <= i < |lines| && FirstToken(lines[i]).None?
    ensures r.Raised? ==> r.exc == IndexError
    ensures r.Ok? ==> FirstTokens(lines).Some? && forall x :: x in r.value <==>
              x != "HEAD" && exists i :: 0 <= i < |lines| && x == Drop(FirstTokens(lines).value[i], |remote| + 1)
  {
    match FirstTokens(lines)
    case None => Raised(IndexError)
    case Some(tokens) =>
      DropEachMembers(tokens, |remote| + 1);
      Ok(Without(DropEach(tokens, |remote| + 1), "HEAD"))
  }

  lemma DropEachMembers(tokens: seq<string>, k: nat)
    ensures forall x :: x in DropEach(tokens, k) <==> exists i :: 0 <= i < |tokens| && x == Drop(tokens[i], k)
  {
    var names := DropEach(tokens, k);
    forall x ensures x in names <==> exists i :: 0 <= i < |tokens| && x == Drop(tokens[i], k) {
      if x in names {
        var i :| 0 <= i < |names| && names[i] == x;
      }
      if exists i :: 0 <= i < |tokens| && x == Drop(tokens[i], k) {
        var i :| 0 <= i < |tokens| && x == Drop(tokens[i], k);
        assert names[i] == x;
      }
    }
  }

  // ---------------------------------------------------------------- printing

  /** `_print_error(message)`: "ERROR" in red, a colon, the message, on standard error. */
  function PrintError(io: Io, message: string): (io': Io)
    ensures io'.input == io.input
    ensures io'.log == io.log + [Err(Colorize("ERROR", RED) + ": " + message)]
  {
    PrintErr(io, Colorize("ERROR", RED) + ": " + message)
  }

  /** `_print_warning(message)`: its colour `AnsiColor.YELLOW` is looked up first, and
      there is no such member. */
  function PrintWarning(io: Io, message: string): Step<()> {
    match Attr("YELLOW")
    case None => Step(Raised(AttributeError("YELLOW")), io)
    case Some(c) => Step(Ok(()), PrintErr(io, Colorize("WARNING", c) + ": " + message))
  }

  lemma PrintWarningRaises(io: Io, message: string)
    ensures PrintWarning(io, message) == Step(Raised(AttributeError("YELLOW")), io)
  {
    NoYellow();
  }

  // ---------------------------------------------------------------- confirmation

  function ConfirmHeader(names: seq<string>): string {
    "This will delete the following branch" + (if |names| > 1 then "es" else "") + ":"
  }

  /** What `_get_confirmation(*names)` prints before asking: a header, the names sorted
      one per line, an empty line. */
  function Shown(names: seq<string>): seq<Event> {
    [Out(ConfirmHeader(names)), Out(" - " + Join(Sort(names), "\n - ")), Out("")]
  }

  /** `_get_confirmation(*names)`: the listing, then the y/n question until it settles. */
  function Confirm(io: Io, names: seq<string>): Step<bool> {
    YesNo.Ask(ConfirmPrompt, Io(io.input, io.log + Shown(names)))
  }

  /** The confirmation never issues a git command, and shows its question once per
      answer it reads. */
  lemma ConfirmRunsNothing(io: Io, names: seq<string>)
    ensures var s := Confirm(io, names);
            Commands(s.io.log) == Commands(io.log) && Prompts(s.io.log) == Prompts(io.log) + YesNo.Decisive(io.input) + 1
  {
    var shown := Shown(names);
    PrintsRunNothing(shown);
    CommandsAppend(io.log, shown);
    PromptsAppend(io.log, shown);
    AskRunsNothing(ConfirmPrompt, Io(io.input, io.log + shown));
  }

  /** The y/n loop issues no git command and shows its prompt once per answer it reads. */
  lemma AskRunsNothing(prompt: string, io: Io)
    ensures var s := YesNo.Ask(prompt, io);
            Commands(s.io.log) == Commands(io.log) && Prompts(s.io.log) == Prompts(io.log) + YesNo.Decisive(io.input) + 1
  {
    YesNo.AskOutcome(prompt, io);
    var k := YesNo.Decisive(io.input);
    AsksRunNothing(prompt, k + 1);
    CommandsAppend(io.log, YesNo.Asks(prompt, k + 1));
    PromptsAppend(io.log, YesNo.Asks(prompt, k + 1));
  }

  lemma {:induction false} PrintsRunNothing(evs: seq<Event>)
    requires forall i :: 0 <= i < |evs| ==> evs[i].Out?
    ensures Commands(evs) == [] && Prompts(evs) == 0
  {
    if evs != [] {
      PrintsRunNothing(evs[1..]);
    }
  }

  lemma {:induction false} AsksRunNothing(prompt: string, n: nat)
    ensures Commands(YesNo.Asks(prompt, n)) == [] && Prompts(YesNo.Asks(prompt, n)) == n
  {
    if n > 0 {
      AsksRunNothing(prompt, n - 1);
      assert YesNo.Asks(prompt, n)[1..] == YesNo.Asks(prompt, n - 1);
    }
  }

  // ---------------------------------------------------------------- deletions

  /** `delete_local_branch(*names, force=…)`: nothing for no names, otherwise one
      `git branch -d|-D` with all of them; a failure prints git's error and re-raises. */
  function DeleteLocal(git: Oracle, io: Io, names: seq<string>, force: bool): (s: Step<()>)
    ensures names == [] ==> s == Step(Ok(()), io)
    ensures s.io.input == io.input
    ensures names != [] ==> Commands(s.io.log) == Commands(io.log) + [DeleteLocalCmd(names, force)]
    ensures s.result.Raised? <==> names != [] && git(io.log, DeleteLocalCmd(names, force)).Failed?
    ensures s.result.Raised? ==> s.result.exc.ProcessError?
  {
    if names == [] then Step(Ok(()), io)
    else
      var r := Run(git, io, DeleteLocalCmd(names, force));
      CommandsAppend(io.log, [Ran(DeleteLocalCmd(names, force))]);
      match r.result
      case Raised(e) =>
        CommandsAppend(r.io.log, [Err(e.stderr)]);
        Step(Raised(e), PrintErr(r.io, e.stderr))
      case Ok(_) => Step(Ok(()), r.io)
  }

  /** `delete_remote_branch(*names, remote=…)`: one push per name until the first failure,
      which prints git's error and re-raises. */
  function DeleteRemote(git: Oracle, io: Io, names: seq<string>, remote: string): (s: Step<()>)
    ensures s.io.input == io.input
    ensures s.result.Raised? ==> s.result.exc.ProcessError?
    decreases |names|
  {
    if names == [] then Step(Ok(()), io)
    else
      var r := Run(git, io, PushDeleteCmd(remote, names[0]));
      match r.result
      case Raised(e) => Step(Raised(e), PrintErr(r.io, e.stderr))
      case Ok(_) => DeleteRemote(git, r.io, names[1..], remote)
  }

  /** The loop of `delete_remote_branch`. */
  method DeleteRemoteLoop(git: Oracle, io: Io, names: seq<string>, remote: string) returns (s: Step<()>)
    ensures s == DeleteRemote(git, io, names, remote)
  {
    var cur := io;
    var i := 0;
    while i < |names|
      invariant 0 <= i <= |names|
      invariant DeleteRemote(git, cur, names[i..], remote) == DeleteRemote(git, io, names, remote)
    {
      var r := Run(git, cur, PushDeleteCmd(remote, names[i]));
      assert names[i..][1..] == names[i + 1..];
      if r.result.Raised? {
        return Step(Raised(r.result.exc), PrintErr(r.io, r.result.exc.stderr));
      }
      cur := r.io;
      i := i + 1;
    }
    s := Step(Ok(()), cur);
  }

  /** Either every push is issued and succeeds, or the pushes stop at the first one that
      fails: a non-empty prefix of them is issued and the last of that prefix failed. */
  lemma DeleteRemoteStops(git: Oracle, io: Io, names: seq<string>, remote: string)
    ensures var s := DeleteRemote(git, io, names, remote);
            && (s.result.Ok? ==> Commands(s.io.log) == Commands(io.log) + Pushes(remote, names))
            && (s.result.Raised? ==>
                  exists k :: 1 <= k <= |names| && Commands(s.io.log) == Commands(io.log) + Pushes(remote, names[..k]))
  {
    DeleteRemoteAll(git, io, names, remote);
    var k := DeleteRemoteFailed(git, io, names, remote);
  }

  lemma {:induction false} DeleteRemoteAll(git: Oracle, io: Io, names: seq<string>, remote: string)
    ensures var s := DeleteRemote(git, io, names, remote);
            s.result.Ok? ==> Commands(s.io.log) == Commands(io.log) + Pushes(remote, names)
    decreases |names|
  {
    if names != [] {
      var c := PushDeleteCmd(remote, names[0]);
      var r := Run(git, io, c);
      if r.result.Ok? {
        CommandsAppend(io.log, [Ran(c)]);
        DeleteRemoteAll(git, r.io, names[1..], remote);
        assert Pushes(remote, names) == [c] + Pushes(remote, names[1..]);
      }
    }
  }

  /** The failing case with its witness: `k` pushes were issued, the last of them failed. */
  lemma {:induction false} DeleteRemoteFailed(git: Oracle, io: Io, names: seq<string>, remote: string)
    returns (k: nat)
    ensures var s := DeleteRemote(git, io, names, remote);
            s.result.Raised? ==>
              1 <= k <= |names| && Commands(s.io.log) == Commands(io.log) + Pushes(remote, names[..k])
    decreases |names|
  {
    k := 0;
    if names != [] {
      var c := PushDeleteCmd(remote, names[0]);
      var r := Run(git, io, c);
      CommandsAppend(io.log, [Ran(c)]);
      if r.result.Raised? {
        CommandsAppend(r.io.log, [Err(r.result.exc.stderr)]);
        assert Pushes(remote, names[..1]) == [c];
        k := 1;
      } else {
        var j := DeleteRemoteFailed(git, r.io, names[1..], remote);
        if 1 <= j <= |names[1..]| {
          PushesCons(remote, names, j + 1);
        }
        k := j + 1;
      }
    }
  }

  lemma PushesCons(remote: string, names: seq<string>, k: nat)
    requires 1 <= k <= |names|
    ensures Pushes(remote, names[..k]) == [PushDeleteCmd(remote, names[0])] + Pushes(remote, names[1..][..k - 1])
  {
    assert names[..k][1..] == names[1..][..k - 1];
  }

  // ---------------------------------------------------------------- delete_branch

  function AmbiguousMessage(names: seq<string>): string {
    AmbiguousText + Join(names, "\n - ")
  }

  /** `delete_branch(name, remote, should_force)`. */
  function DeleteBranch(git: Oracle, io: Io, name: string, remote: string, force: bool): Step<()> {
    var l := Run(git, io, ListLocal);
    match l.result
    case Raised(e) => Step(Raised(e), l.io)
    case Ok(listing) =>
      var candidates := Candidates(SplitLines(listing), name);
      if |candidates| > 1 then Step(Ok(()), PrintError(l.io, AmbiguousMessage(candidates)))
      else if |candidates| == 1 then
        var c := Confirm(l.io, candidates);
        match c.result
        case Raised(e) => Step(Raised(e), c.io)
        case Ok(yes) =>
          if !yes then Step(Ok(()), Print(c.io, "Aborting"))
          else
            var d := DeleteLocal(git, c.io, candidates, force);
            if d.result.Raised? then d
            else AlsoRemote(git, d.io, candidates[0], remote)
      else
        var w := PrintWarning(l.io, WarningText);
        match w.result
        case Raised(e) => Step(Raised(e), w.io)
        case Ok(_) => RemoteOnly(git, w.io, name, remote)
  }

  /** After a confirmed local delete: the remote branch of the same name is deleted too,
      without asking again, when the remote listing has it. */
  function AlsoRemote(git: Oracle, io: Io, branch: string, remote: string): Step<()> {
    var r := Run(git, io, ListRemote);
    match r.result
    case Raised(e) => Step(Raised(e), r.io)
    case Ok(listing) =>
      match RemoteNames(SplitLines(listing), remote)
      case Raised(e) => Step(Raised(e), r.io)
      case Ok(remotes) =>
        if branch !in remotes then Step(Ok(()), r.io)
        else DeleteRemote(git, r.io, [branch], remote)
  }

  /** The remote-only search, taken when no local branch matched. */
  function RemoteOnly(git: Oracle, io: Io, name: string, remote: string): Step<()> {
    var r := Run(git, io, ListRemote);
    match r.result
    case Raised(e) => Step(Raised(e), r.io)
    case Ok(listing) =>
      match RemoteNames(SplitLines(listing), remote)
      case Raised(e) => Step(Raised(e), r.io)
      case Ok(remotes) =>
        var candidates := Distinct(Filter(remotes, name));
        if |candidates| > 1 then Step(Ok(()), PrintError(r.io, AmbiguousMessage(candidates)))
        else if candidates == [] then Step(Ok(()), PrintError(r.io, "No candidates found!"))
        else
          var c := Confirm(r.io, candidates);
          match c.result
          case Raised(e) => Step(Raised(e), c.io)
          case Ok(yes) =>
            if !yes then Step(Ok(()), Print(c.io, "Aborting"))
            else DeleteRemote(git, c.io, [candidates[0]], remote)
  }

  // ---------------------------------------------------------------- prune_branches

  /** What the scan of `git branch --merged` gathers: the current branch, if any line
      is starred, and the other merged branches except `master`, in order. */
  datatype Merged = Merged(current: Option<string>, locals: seq<string>)

  /** One iteration of the scan. */
  function ScanLine(m: Merged, line: string): Merged {
    if StartsWith(line, "*") then Merged(Some(Strip(line, Marker)), m.locals)
    else if Strip(line, Marker) == "master" then m
    else Merged(m.current, m.locals + [Strip(line, Marker)])
  }

  /** The scan after the lines seen so far. */
  function ScanMerged(lines: seq<string>): Merged
    decreases |lines|
  {
    if lines == [] then Merged(None, [])
    else ScanLine(ScanMerged(lines[..|lines| - 1]), lines[|lines| - 1])
  }

  /** The loop of `prune_branches` over the merged local branches. */
  method ScanMergedLoop(lines: seq<string>) returns (m: Merged)
    ensures m == ScanMerged(lines)
  {
    var current: Option<string> := None;
    var merged: seq<string> := [];
    var i := 0;
    while i < |lines|
      invariant 0 <= i <= |lines|
      invariant Merged(current, merged) == ScanMerged(lines[..i])
    {
      assert lines[..i + 1][..i] == lines[..i];
      var line := lines[i];
      i := i + 1;
      if StartsWith(line, "*") {
        current := Some(Strip(line, Marker));
        continue;
      }
      var name := Strip(line, Marker);
      if name == "master" {
        continue;
      }
      merged := merged + [name];
    }
    assert lines[..i] == lines;
    m := Merged(current, merged);
  }

  /** What one line contributes to the merged branches to delete. */
  function Unstarred1(line: string): seq<string> {
    if StartsWith(line, "*") || Strip(line, Marker) == "master" then [] else [Strip(line, Marker)]
  }

  /** The merged branches to delete, as an independent definition: every unstarred line,
      stripped, other than `master`. */
  function Unstarred(lines: seq<string>): seq<string> {
    if lines == [] then [] else Unstarred1(lines[0]) + Unstarred(lines[1..])
  }

  lemma {:induction false} UnstarredSnoc(lines: seq<string>, line: string)
    ensures Unstarred(lines + [line]) == Unstarred(lines) + Unstarred1(line)
  {
    if lines == [] {
      assert lines + [line] == [line];
      assert [line][1..] == [];
    } else {
      assert (lines + [line])[1..] == lines[1..] + [line];
      UnstarredSnoc(lines[1..], line);
    }
  }

  lemma ScanLineLocals(m: Merged, line: string)
    ensures ScanLine(m, line).locals == m.locals + Unstarred1(line)
  {
    if Unstarred1(line) == [] {
      assert m.locals + [] == m.locals;
    }
  }

  /** The scan collects exactly the unstarred branches other than `master`, in order;
      so neither `master` nor the current branch is ever pruned locally. */
  lemma {:induction false} ScanMergedLocals(lines: seq<string>)
    ensures ScanMerged(lines).locals == Unstarred(lines)
    decreases |lines|
  {
    if lines != [] {
      var n := |lines| - 1;
      var init := lines[..n];
      ScanMergedLocals(init);
      ScanLineLocals(ScanMerged(init), lines[n]);
      UnstarredSnoc(init, lines[n]);
      assert init + [lines[n]] == lines;
    }
  }

  /** `master` is never among the merged branches to delete. */
  lemma {:induction false} MasterNeverPruned(lines: seq<string>)
    ensures "master" !in ScanMerged(lines).locals
  {
    ScanMergedLocals(lines);
    UnstarredNoMaster(lines);
  }

  lemma {:induction false} UnstarredNoMaster(lines: seq<string>)
    ensures "master" !in Unstarred(lines)
  {
    if lines != [] {
      UnstarredNoMaster(lines[1..]);
      assert "master" !in Unstarred1(lines[0]);
    }
  }

  lemma ScanLineCurrent(m: Merged, line: string)
    ensures ScanLine(m, line).current.None? <==> m.current.None? && !StartsWith(line, "*")
  {
  }

  /** There is a current branch exactly when some line is starred. */
  lemma {:induction false} ScanMergedHasCurrent(lines: seq<string>)
    ensures ScanMerged(lines).current.None? <==> forall i :: 0 <= i < |lines| ==> !StartsWith(lines[i], "*")
    decreases |lines|
  {
    if lines != [] {
      var n := |lines| - 1;
      var init := lines[..n];
      ScanMergedHasCurrent(init);
      ScanLineCurrent(ScanMerged(init), lines[n]);
      if ScanMerged(lines).current.Some? {
        if ScanMerged(init).current.Some? {
          var i :| 0 <= i < n && StartsWith(init[i], "*");
          assert StartsWith(lines[i], "*");
        }
      } else {
        forall i | 0 <= i < |lines| ensures !StartsWith(lines[i], "*") {
          if i < n { assert lines[i] == init[i]; }
        }
      }
    }
  }

  /** The current branch is the last starred line, stripped. */
  lemma {:induction false} ScanMergedCurrent(lines: seq<string>, i: nat)
    requires i < |lines| && StartsWith(lines[i], "*")
    requires forall j :: i < j < |lines| ==> !StartsWith(lines[j], "*")
    ensures ScanMerged(lines).current == Some(Strip(lines[i], Marker))
    decreases |lines|
  {
    var n := |lines| - 1;
    if i < n {
      ScanMergedCurrent(lines[..n], i);
      assert forall j :: i < j < n ==> lines[..n][j] == lines[j];
    }
  }

  /** `remote/<current>` with Python's rendering of `None`. */
  function CurrentRef(remote: string, current: Option<string>): string {
    remote + "/" + (match current case Some(c) => c case None => "None")
  }

  /** Whether a remote merged line is kept: its first token is neither `remote/<current>`
      nor `remote/HEAD`. */
  predicate KeepsRemote(t: string, remote: string, current: Option<string>) {
    t != CurrentRef(remote, current) && t != remote + "/HEAD"
  }

  /** The remote merged branches to delete, in listing order, from the lines' first
      tokens: each kept token with the remote prefix dropped by length. */
  function Pruned(tokens: seq<string>, remote: string, current: Option<string>): (r: seq<string>)
    ensures forall x :: x in r <==>
              exists i :: 0 <= i < |tokens| && KeepsRemote(tokens[i], remote, current) && x == Drop(tokens[i], |remote| + 1)
  {
    if tokens == [] then []
    else
      var rest := Pruned(tokens[1..], remote, current);
      assert forall i :: 0 < i < |tokens| ==> tokens[i] == tokens[1..][i - 1];
      forall x | x in rest
        ensures exists i :: 0 <= i < |tokens| && KeepsRemote(tokens[i], remote, current) && x == Drop(tokens[i], |remote| + 1)
      {
        var i :| 0 <= i < |tokens[1..]| && KeepsRemote(tokens[1..][i], remote, current) && x == Drop(tokens[1..][i], |remote| + 1);
        assert tokens[i + 1] == tokens[1..][i];
      }
      (if KeepsRemote(tokens[0], remote, current) then [Drop(tokens[0], |remote| + 1)] else []) + rest
  }

  /** The remote merged listing: a blank line raises IndexError, as the test
      `line.split()[0]` runs first on every line. */
  function MergedRemotes(lines: seq<string>, remote: string, current: Option<string>): (r: Result<seq<string>>)
    ensures r.Raised? <==> exists i :: 0 <= i < |lines| && FirstToken(lines[i]).None?
    ensures r.Raised? ==> r.exc == IndexError
  {
    match FirstTokens(lines)
    case None => Raised(IndexError)
    case Some(tokens) => Ok(Pruned(tokens, remote, current))
  }

  /** Whether `x` is the branch a remote merged line contributes. */
  predicate PrunesRemote(line: string, remote: string, current: Option<string>, x: string) {
    FirstToken(line).Some? && KeepsRemote(FirstToken(line).value, remote, current)
    && x == Drop(FirstToken(line).value, |remote| + 1)
  }

  /** The remote merged branches are those of the lines whose first token is neither the
      current branch's remote ref nor `remote/HEAD`. */
  lemma MergedRemotesMembers(lines: seq<string>, remote: string, current: Option<string>)
    requires MergedRemotes(lines, remote, current).Ok?
    ensures forall x :: x in MergedRemotes(lines, remote, current).value <==>
              exists i :: 0 <= i < |lines| && PrunesRemote(lines[i], remote, current, x)
  {
    var tokens := FirstTokens(lines).value;
    forall x ensures x in Pruned(tokens, remote, current) <==> exists i :: 0 <= i < |lines| && PrunesRemote(lines[i], remote, current, x) {
      if x in Pruned(tokens, remote, current) {
        var i :| 0 <= i < |tokens| && KeepsRemote(tokens[i], remote, current) && x == Drop(tokens[i], |remote| + 1);
        assert PrunesRemote(lines[i], remote, current, x);
      }
      if exists i :: 0 <= i < |lines| && PrunesRemote(lines[i], remote, current, x) {
        var i :| 0 <= i < |lines| && PrunesRemote(lines[i], remote, current, x);
        assert Some(tokens[i]) == FirstToken(lines[i]);
      }
    }
  }

  /** The `try … except CalledProcessError: pass` around the prune deletions. */
  function Swallow(s: Step<()>): (s': Step<()>)
    requires s.result.Raised? ==> s.result.exc.ProcessError?
    ensures s'.result == Ok(()) && s'.io == s.io
  {
    Step(Ok(()), s.io)
  }

  /** The prune deletions: the local batch, then the remote pushes; a failure anywhere
      skips the rest and is swallowed. */
  function PruneDeletions(git: Oracle, io: Io, locals: seq<string>, remotes: seq<string>, remote: string): (s: Step<()>)
    ensures s.result == Ok(())
    ensures locals != [] && git(io.log, DeleteLocalCmd(locals, false)).Failed? ==>
              Commands(s.io.log) == Commands(io.log) + [DeleteLocalCmd(locals, false)]
  {
    var d := DeleteLocal(git, io, locals, false);
    if d.result.Raised? then Swallow(d)
    else Swallow(DeleteRemote(git, d.io, remotes, remote))
  }

  /** `prune_branches(remote)`. */
  function Prune(git: Oracle, io: Io, remote: string): Step<()> {
    var a := Run(git, io, ListMerged);
    match a.result
    case Raised(e) => Step(Raised(e), a.io)
    case Ok(merged) =>
      var m := ScanMerged(SplitLines(merged));
      var b := Run(git, a.io, ListMergedRemote);
      match b.result
      case Raised(e) => Step(Raised(e), b.io)
      case Ok(mergedRemote) =>
        match MergedRemotes(SplitLines(mergedRemote), remote, m.current)
        case Raised(e) => Step(Raised(e), b.io)
        case Ok(remotes) =>
          if m.locals == [] && remotes == [] then Step(Ok(()), Print(b.io, "No branches to delete!"))
          else
            var c := Confirm(b.io, m.locals + remotes);
            match c.result
            case Raised(e) => Step(Raised(e), c.io)
            case Ok(yes) =>
              if !yes then Step(Ok(()), Print(c.io, "Aborting"))
              else PruneDeletions(git, c.io, m.locals, remotes, remote)
  }

  // ---------------------------------------------------------------- main

  /** The parsed command line. */
  datatype Args = Args(prune: bool, branch: Option<string>, remote: string, force: bool)

  /** `main()`: a git failure becomes exit status 1; other exceptions escape. */
  function ExitOnGitFailure(s: Step<()>): (r: Step<int>)
    ensures r.io == s.io
    ensures s.result.Ok? ==> r.result == Ok(0)
    ensures s.result.Raised? && s.result.exc.ProcessError? ==> r.result == Ok(1)
    ensures s.result.Raised? && !s.result.exc.ProcessError? ==> r.result == Raised(s.result.exc)
  {
    match s.result
    case Ok(_) => Step(Ok(0), s.io)
    case Raised(e) => if e.ProcessError? then Step(Ok(1), s.io) else Step(Raised(e), s.io)
  }

  function Main(git: Oracle, io: Io, args: Args): Step<int> {
    if args.prune then ExitOnGitFailure(Prune(git, io, args.remote))
    else if args.branch.None? || args.branch.value == "" then
      Step(Ok(1), PrintError(io, "Branch name required."))
    else ExitOnGitFailure(DeleteBranch(git, io, args.branch.value, args.remote, args.force))
  }

  // ---------------------------------------------------------------- behaviour

  /** An ambiguous query prints the matches and returns normally: status 0, nothing
      asked, nothing deleted. */
  lemma AmbiguousExitsZero(git: Oracle, io: Io, query: string, remote: string, force: bool)
    requires query != [] && git(io.log, ListLocal).Completed?
    requires |Candidates(SplitLines(git(io.log, ListLocal).stdout), query)| > 1
    ensures var cs := Candidates(SplitLines(git(io.log, ListLocal).stdout), query);
            Main(git, io, Args(false, Some(query), remote, force))
              == Step(Ok(0), Io(io.input, io.log + [Ran(ListLocal), Err(Colorize("ERROR", RED) + ": " + AmbiguousMessage(cs))]))
  {
  }

  /** A single local match the user declines: "Aborting", and the only git command is
      the listing. */
  lemma DeclineAborts(git: Oracle, io: Io, query: string, remote: string, force: bool)
    requires query != [] && git(io.log, ListLocal).Completed?
    requires var cs := Candidates(SplitLines(git(io.log, ListLocal).stdout), query);
             |cs| == 1 && Confirm(Io(io.input, io.log + [Ran(ListLocal)]), cs).result == Ok(false)
    ensures var s := Main(git, io, Args(false, Some(query), remote, force));
            s.result == Ok(0) && Commands(s.io.log) == Commands(io.log) + [ListLocal]
            && s.io.log[|s.io.log| - 1] == Out("Aborting")
  {
    var io1 := Io(io.input, io.log + [Ran(ListLocal)]);
    var cs := Candidates(SplitLines(git(io.log, ListLocal).stdout), query);
    var c := Confirm(io1, cs);
    ConfirmRunsNothing(io1, cs);
    CommandsAppend(io.log, [Ran(ListLocal)]);
    CommandsAppend(c.io.log, [Out("Aborting")]);
  }

  /** No local match: the warning's missing colour raises before the remote listing is
      read, so the process dies with a traceback and status 1. */
  lemma NoLocalMatchRaises(git: Oracle, io: Io, query: string, remote: string, force: bool)
    requires query != [] && git(io.log, ListLocal).Completed?
    requires Candidates(SplitLines(git(io.log, ListLocal).stdout), query) == []
    ensures var s := Main(git, io, Args(false, Some(query), remote, force));
            s == Step(Raised(AttributeError("YELLOW")), Io(io.input, io.log + [Ran(ListLocal)]))
            && ExitStatus(s.result) == 1
  {
    PrintWarningRaises(Io(io.input, io.log + [Ran(ListLocal)]), WarningText);
  }

  /** A confirmed, successful local delete of the one match `b`: the remote listing is
      read, and `b` is pushed for deletion exactly when the listing has it, with no
      second question. */
  lemma ConfirmedDeleteReachesRemote(git: Oracle, io: Io, query: string, remote: string, force: bool)
    requires query != [] && git(io.log, ListLocal).Completed?
    requires var cs := Candidates(SplitLines(git(io.log, ListLocal).stdout), query);
             var c := Confirm(Io(io.input, io.log + [Ran(ListLocal)]), cs);
             |cs| == 1 && c.result == Ok(true) && git(c.io.log, DeleteLocalCmd(cs, force)).Completed?
    ensures var cs := Candidates(SplitLines(git(io.log, ListLocal).stdout), query);
            var c := Confirm(Io(io.input, io.log + [Ran(ListLocal)]), cs);
            var s := DeleteBranch(git, io, query, remote, force);
            var d := c.io.log + [Ran(DeleteLocalCmd(cs, force))];
            s == AlsoRemote(git, Io(c.io.input, d), cs[0], remote)
            && Commands(d) == Commands(io.log) + [ListLocal, DeleteLocalCmd(cs, force)]
  {
    var io1 := Io(io.input, io.log + [Ran(ListLocal)]);
    var cs := Candidates(SplitLines(git(io.log, ListLocal).stdout), query);
    var c := Confirm(io1, cs);
    ConfirmRunsNothing(io1, cs);
    CommandsAppend(io.log, [Ran(ListLocal)]);
    CommandsAppend(c.io.log, [Ran(DeleteLocalCmd(cs, force))]);
  }

  /** Deleting one remote branch issues exactly its push and asks nothing. */
  lemma DeleteOneRemote(git: Oracle, io: Io, branch: string, remote: string)
    ensures var s := DeleteRemote(git, io, [branch], remote);
            && Commands(s.io.log) == Commands(io.log) + [PushDeleteCmd(remote, branch)]
            && Prompts(s.io.log) == Prompts(io.log)
  {
    var c := PushDeleteCmd(remote, branch);
    var r := Run(git, io, c);
    assert [branch][1..] == [];
    CommandsAppend(io.log, [Ran(c)]);
    PromptsAppend(io.log, [Ran(c)]);
    if r.result.Raised? {
      CommandsAppend(r.io.log, [Err(r.result.exc.stderr)]);
      PromptsAppend(r.io.log, [Err(r.result.exc.stderr)]);
    }
  }

  /** The remote step after a local delete: a push for `b` iff the remote listing has it,
      and never another question. */
  lemma AlsoRemoteOutcome(git: Oracle, io: Io, branch: string, remote: string)
    requires git(io.log, ListRemote).Completed?
    requires RemoteNames(SplitLines(git(io.log, ListRemote).stdout), remote).Ok?
    ensures var s := AlsoRemote(git, io, branch, remote);
            var remotes := RemoteNames(SplitLines(git(io.log, ListRemote).stdout), remote).value;
            && s.io.input == io.input
            && Prompts(s.io.log) == Prompts(io.log)
            && (branch !in remotes ==> s == Step(Ok(()), Io(io.input, io.log + [Ran(ListRemote)])))
            && (branch in remotes ==>
                  Commands(s.io.log) == Commands(io.log) + [ListRemote, PushDeleteCmd(remote, branch)])
  {
    var r := Run(git, io, ListRemote);
    var remotes := RemoteNames(SplitLines(git(io.log, ListRemote).stdout), remote).value;
    CommandsAppend(io.log, [Ran(ListRemote)]);
    PromptsAppend(io.log, [Ran(ListRemote)]);
    assert [Ran(ListRemote)][1..] == [];
    assert Prompts(r.io.log) == Prompts(io.log);
    if branch in remotes {
      assert AlsoRemote(git, io, branch, remote) == DeleteRemote(git, r.io, [branch], remote);
      PushAfterListing(git, io, branch, remote);
    }
  }

  lemma PushAfterListing(git: Oracle, io: Io, branch: string, remote: string)
    ensures var s := DeleteRemote(git, Io(io.input, io.log + [Ran(ListRemote)]), [branch], remote);
            && Prompts(s.io.log) == Prompts(io.log + [Ran(ListRemote)])
            && Commands(s.io.log) == Commands(io.log) + [ListRemote, PushDeleteCmd(remote, branch)]
  {
    DeleteOneRemote(git, Io(io.input, io.log + [Ran(ListRemote)]), branch, remote);
    CommandsAppend(io.log, [Ran(ListRemote)]);
    assert Commands([Ran(ListRemote)]) == [ListRemote];
    assert Commands(io.log) + [ListRemote] + [PushDeleteCmd(remote, branch)]
        == Commands(io.log) + [ListRemote, PushDeleteCmd(remote, branch)];
  }

  /** Nothing merged to prune: a message, and no question. */
  lemma NothingToPrune(git: Oracle, io: Io, remote: string)
    requires git(io.log, ListMerged).Completed?
    requires var log1 := io.log + [Ran(ListMerged)];
             var m := ScanMerged(SplitLines(git(io.log, ListMerged).stdout));
             && git(log1, ListMergedRemote).Completed?
             && m.locals == []
             && MergedRemotes(SplitLines(git(log1, ListMergedRemote).stdout), remote, m.current) == Ok([])
    ensures Main(git, io, Args(true, None, remote, false)) ==
              Step(Ok(0), Io(io.input, io.log + [Ran(ListMerged), Ran(ListMergedRemote), Out("No branches to delete!")]))
  {
  }
}
