/** gitfu/standalone/add_git_staged_files.py: stage again every file that is already
    staged (added, renamed or modified), or every tracked file when nothing is staged. */
module AddGitStagedFiles {
  import opened Text
  import opened Shell

  const ListStaged: Cmd := Git(["diff", "--staged", "--name-only", "--diff-filter=ARM"])
  const AddTracked: Cmd := Git(["add", "-u"])
  const ShowTopLevel: Cmd := Git(["rev-parse", "--show-toplevel"])

  /** `realpath --relative-to <root> .`, answered like a git command: its right-stripped
      output, or a failure. It is not a git invocation and is not logged. */
  type RelativePath = string -> Response

  /** The prefix of the working directory below the top level; `.` means none. */
  function Prefix(relative: string): string {
    if relative == "." then "" else relative
  }

  /** `[filename[len(prefix):] for filename in staged_files]` */
  function Relocated(staged: seq<string>, relative: string): (names: seq<string>)
    ensures |names| == |staged|
    ensures forall i :: 0 <= i < |staged| ==> names[i] == Drop(staged[i], if relative == "." then 0 else |relative|)
  {
    DropEach(staged, |Prefix(relative)|)
  }

  /** `main()`. */
  function AddStaged(git: Oracle, io: Io, realpath: RelativePath): Step<()> {
    var s := Run(git, io, ListStaged);
    if s.result.Raised? then Step(Raised(s.result.exc), s.io)
    else
      var staged := SplitLines(s.result.value);
      if staged == [] then
        var a := Run(git, s.io, AddTracked);
        Step(if a.result.Raised? then Raised(a.result.exc) else Ok(()), a.io)
      else
        var root := Run(git, s.io, ShowTopLevel);
        if root.result.Raised? then Step(Raised(root.result.exc), root.io)
        else match realpath(root.result.value)
          case Failed(_) => Step(Raised(ProcessError("None")), root.io)
          case Completed(relative) =>
            var a := Run(git, root.io, Git(["add"] + Relocated(staged, relative)));
            Step(if a.result.Raised? then Raised(a.result.exc) else Ok(()), a.io)
  }

  /** The script's `__main__` block: status 0, or the failure's standard error printed and
      status 1. `realpath` does not capture its standard error, so its failure prints
      `None`. */
  function Main(git: Oracle, io: Io, realpath: RelativePath): (r: Step<int>)
    ensures r.result.Ok? && (r.result.value == 0 || r.result.value == 1)
    ensures r.result.value == 0 <==> AddStaged(git, io, realpath).result.Ok?
  {
    var s := AddStaged(git, io, realpath);
    match s.result
    case Ok(_) => Step(Ok(0), s.io)
    case Raised(e) => Step(Ok(1), PrintErr(s.io, if e.ProcessError? then e.stderr else []))
  }

  /** With nothing staged exactly one `git add -u` follows the listing, and nothing else runs. */
  lemma NothingStagedAddsTracked(git: Oracle, io: Io, realpath: RelativePath)
    requires git(io.log, ListStaged).Completed?
    requires SplitLines(git(io.log, ListStaged).stdout) == []
    ensures Commands(AddStaged(git, io, realpath).io.log) == Commands(io.log) + [ListStaged, AddTracked]
  {
    CommandsAppend(io.log, [Ran(ListStaged)]);
    CommandsAppend(io.log + [Ran(ListStaged)], [Ran(AddTracked)]);
  }

  /** Otherwise every staged name goes to one `git add`, after the top-level lookup,
      relocated by the prefix. */
  lemma StagedAddedTogether(git: Oracle, io: Io, realpath: RelativePath)
    requires git(io.log, ListStaged).Completed?
    requires SplitLines(git(io.log, ListStaged).stdout) != []
    requires git(io.log + [Ran(ListStaged)], ShowTopLevel).Completed?
    requires realpath(git(io.log + [Ran(ListStaged)], ShowTopLevel).stdout).Completed?
    ensures var staged := SplitLines(git(io.log, ListStaged).stdout);
            var relative := realpath(git(io.log + [Ran(ListStaged)], ShowTopLevel).stdout).stdout;
            Commands(AddStaged(git, io, realpath).io.log)
              == Commands(io.log) + [ListStaged, ShowTopLevel, Git(["add"] + Relocated(staged, relative))]
  {
    var staged := SplitLines(git(io.log, ListStaged).stdout);
    var root := git(io.log + [Ran(ListStaged)], ShowTopLevel).stdout;
    var relative := realpath(root).stdout;
    var add := Git(["add"] + Relocated(staged, relative));
    var log1 := io.log + [Ran(ListStaged)];
    var log2 := log1 + [Ran(ShowTopLevel)];
    assert Run(git, io, ListStaged) == Step(Ok(git(io.log, ListStaged).stdout), Io(io.input, log1));
    assert Run(git, Io(io.input, log1), ShowTopLevel) == Step(Ok(root), Io(io.input, log2));
    assert AddStaged(git, io, realpath).io.log == log2 + [Ran(add)];
    CommandsAppend(io.log, [Ran(ListStaged)]);
    CommandsAppend(log1, [Ran(ShowTopLevel)]);
    CommandsAppend(log2, [Ran(add)]);
  }

  /** Cutting a prefix the name really starts with gives the rest of the name back. */
  lemma DropPrefix(prefix: string, rest: string)
    ensures Drop(prefix + rest, |prefix|) == rest
  {
    assert (prefix + rest)[|prefix|..] == rest;
  }

  /** The cut checks nothing: `realpath` prints the prefix without a trailing '/', so a
      staged file of the current directory keeps a leading '/', and a file elsewhere
      loses as many characters of its own name. */
  lemma NoPrefixCheck()
    ensures Relocated(["sub/a.py", "top.py"], "sub") == ["/a.py", ".py"]
  {
    DropPrefix("sub", "/a.py");
    assert "sub" + "/a.py" == "sub/a.py";
    DropPrefix("top", ".py");
    assert "top" + ".py" == "top.py";
  }
}
