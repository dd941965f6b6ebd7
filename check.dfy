/** gitfu/commands/check.py, `git check`: the diff of each changed file is shown (a
    deleted file as a hand-built diff of its HEAD content) and the user is asked whether
    to stage it. */
module Check {
  import opened Text
  import opened Shell
  import opened Color
  import opened YesNo

  // ---------------------------------------------------------------- hydrate_filenames

  /** The known diff files whose path starts with `dir`, in listing order. */
  function Under(known: seq<string>, dir: string): (r: seq<string>)
    ensures |r| <= |known|
    ensures forall x :: x in r <==> x in known && StartsWith(x, dir)
  {
    if known == [] then []
    else (if StartsWith(known[0], dir) then [known[0]] else []) + Under(known[1..], dir)
  }

  /** What one command-line name yields: a directory expands to the known files under
      it, anything else is yielded as given, whether git knows it or not. */
  function Expand(name: string, known: seq<string>, isDir: string -> bool): (r: seq<string>)
    ensures forall x :: x in r <==> if isDir(name) then x in known && StartsWith(x, name) else x == name
  {
    if isDir(name) then Under(known, name) else [name]
  }

  function ExpandEach(names: seq<string>, known: seq<string>, isDir: string -> bool): seq<string> {
    if names == [] then [] else Expand(names[0], known, isDir) + ExpandEach(names[1..], known, isDir)
  }

  /** `hydrate_filenames(*filenames)` with `known` the lines of `git diff --name-only`
      and `isDir` standing for `os.path.isdir`. */
  function Hydrate(names: seq<string>, known: seq<string>, isDir: string -> bool): seq<string> {
    if names == [] then known else ExpandEach(names, known, isDir)
  }

  /** A file is yielded iff one of the given names yields it. */
  lemma {:induction false} ExpandEachMembers(names: seq<string>, known: seq<string>, isDir: string -> bool, x: string)
    ensures x in ExpandEach(names, known, isDir) <==>
            exists i :: 0 <= i < |names| && x in Expand(names[i], known, isDir)
  {
    if names != [] {
      ExpandEachMembers(names[1..], known, isDir, x);
      if x in ExpandEach(names[1..], known, isDir) {
        var i :| 0 <= i < |names[1..]| && x in Expand(names[1..][i], known, isDir);
        assert names[i + 1] == names[1..][i];
      }
      if exists i :: 0 <= i < |names| && x in Expand(names[i], known, isDir) {
        var i :| 0 <= i < |names| && x in Expand(names[i], known, isDir);
        if i > 0 {
          assert names[1..][i - 1] == names[i];
        }
      }
    }
  }

  /** Without names every known diff file comes out; otherwise a file comes out iff it is
      a non-directory name given, or a known file under a directory name given. */
  lemma HydrateMembers(names: seq<string>, known: seq<string>, isDir: string -> bool, x: string)
    ensures names == [] ==> Hydrate(names, known, isDir) == known
    ensures names != [] ==>
              (x in Hydrate(names, known, isDir) <==>
                 exists i :: 0 <= i < |names| &&
                   (if isDir(names[i]) then x in known && StartsWith(x, names[i]) else x == names[i]))
  {
    ExpandEachMembers(names, known, isDir, x);
  }

  /** The names are expanded one after the other, in the order given. */
  lemma {:induction false} HydrateAppend(a: seq<string>, b: seq<string>, known: seq<string>, isDir: string -> bool)
    ensures ExpandEach(a + b, known, isDir) == ExpandEach(a, known, isDir) + ExpandEach(b, known, isDir)
  {
    if a == [] {
      assert a + b == b;
    } else {
      assert (a + b)[1..] == a[1..] + b;
      HydrateAppend(a[1..], b, known, isDir);
    }
  }

  // ---------------------------------------------------------------- verify_deletion

  /** The lines of the deletion header, as the dedented template renders them. */
  function HeaderLines(name: string, sha: string, count: nat): seq<string> {
    [ "diff --git a/" + name + " b/" + name,
      "index " + Take(sha, 7) + "..0000000",
      "--- a/" + name,
      "+++ /dev/null",
      "@@ -0,0 +1," + Decimal(count) + " @@" ]
  }

  function Header(name: string, sha: string, count: nat): string {
    Join(HeaderLines(name, sha, count), "\n")
  }

  /** The header reads back as its five lines: the sha shortened to its first seven
      characters, and the hunk size `count`. */
  lemma HeaderParses(name: string, sha: string, count: nat)
    requires '\n' !in name && '\n' !in sha
    ensures SplitLines(Header(name, sha, count)) == HeaderLines(name, sha, count)
    ensures |Take(sha, 7)| == if |sha| < 7 then |sha| else 7
  {
    var ls := HeaderLines(name, sha, count);
    var short := Take(sha, 7);
    assert short == sha[..|short|];
    assert '\n' !in short;
    var digits := Decimal(count);
    assert '\n' !in digits;
    assert '\n' !in ls[0] && '\n' !in ls[1] && '\n' !in ls[2] && '\n' !in ls[3] && '\n' !in ls[4];
    SplitLinesJoin(ls);
  }

  /** Each HEAD line of a deleted file, shown red with a leading '-'. */
  function Removals(lines: seq<string>): (r: seq<string>)
    ensures |r| == |lines|
    ensures forall i :: 0 <= i < |lines| ==> r[i] == Colorize("-" + lines[i], RED)
  {
    if lines == [] then [] else [Colorize("-" + lines[0], RED)] + Removals(lines[1..])
  }

  /** The printed body reads back as exactly one line per HEAD line, so the hunk size in
      the header is the number of lines shown. */
  lemma RemovalsParse(content: string)
    ensures var shown := Removals(SplitLines(content));
            |shown| == |SplitLines(content)| && SplitLines(Join(shown, "\n")) == shown
  {
    var lines := SplitLines(content);
    var shown := Removals(lines);
    forall k | 0 <= k < |shown| ensures '\n' !in shown[k] && shown[k] != [] {
      assert shown[k] == [Esc] + "[91m" + ("-" + lines[k]) + [Esc] + "[0m";
    }
    SplitLinesJoin(shown);
  }

  const Prompt: string := "Do you want to add this file? (y/n) "

  /** `should_add_file()` and the `git add` that follows a yes. The answer is the value. */
  function AddIfWanted(git: Oracle, io: Io, name: string): Step<bool> {
    var a := Ask(Prompt, io);
    if a.result.Raised? then Step(Raised(a.result.exc), a.io)
    else if !a.result.value then Step(Ok(false), a.io)
    else
      var r := Run(git, a.io, Git(["add", name]));
      Step(if r.result.Raised? then Raised(r.result.exc) else Ok(true), r.io)
  }

  const RevParse: Cmd := Plain(["rev-parse", "HEAD"])

  /** `_get_current_sha()`: `lru_cache` keeps the first answer for the rest of the run. */
  function CurrentSha(git: Oracle, io: Io, cache: Option<string>): Step<string> {
    if cache.Some? then Step(Ok(cache.value), io) else Run(git, io, RevParse)
  }

  /** `verify_deletion(name)`; the value is the sha cache afterwards. */
  function VerifyDeletion(git: Oracle, io: Io, name: string, cache: Option<string>): Step<Option<string>> {
    var shown := Run(git, io, Plain(["show", "HEAD:" + name]));
    if shown.result.Raised? then Step(Raised(shown.result.exc), shown.io)
    else
      var lines := Removals(SplitLines(shown.result.value));
      var sha := CurrentSha(git, shown.io, cache);
      if sha.result.Raised? then Step(Raised(sha.result.exc), sha.io)
      else
        var io' := Print(Print(Print(sha.io, Header(name, sha.result.value, |lines|)), Join(lines, "\n")), "");
        var a := AddIfWanted(git, io', name);
        Step(if a.result.Raised? then Raised(a.result.exc) else Ok(Some(sha.result.value)), a.io)
  }

  /** `check_and_prompt(name)`: the coloured diff, a blank line, the question. */
  function CheckAndPrompt(git: Oracle, io: Io, name: string): Step<bool> {
    var d := Run(git, io, Git(["diff", name]));
    if d.result.Raised? then Step(Raised(d.result.exc), d.io)
    else AddIfWanted(git, Print(Print(d.io, d.result.value), ""), name)
  }

  /** One file of the loop in `run`, by whether git lists it as deleted. */
  function CheckFile(git: Oracle, io: Io, name: string, deleted: seq<string>, cache: Option<string>): Step<Option<string>> {
    if name in deleted then VerifyDeletion(git, io, name, cache)
    else
      var s := CheckAndPrompt(git, io, name);
      Step(if s.result.Raised? then Raised(s.result.exc) else Ok(cache), s.io)
  }

  function Clear(io: Io): Io {
    Io(io.input, io.log + [Cleared])
  }

  /** The loop of `run` from some file on; `first` is `is_first_file`. */
  function CheckAll(git: Oracle, io: Io, files: seq<string>, deleted: seq<string>, cache: Option<string>, first: bool): Step<()>
    decreases |files|
  {
    if files == [] then Step(Ok(()), io)
    else
      var s := CheckFile(git, if first then io else Clear(io), files[0], deleted, cache);
      if s.result.Raised? then Step(Raised(s.result.exc), s.io)
      else CheckAll(git, s.io, files[1..], deleted, s.result.value, false)
  }

  const ListDeleted: Cmd := Plain(["diff", "--name-only", "--diff-filter=D"])
  const ListChanged: Cmd := Plain(["diff", "--name-only"])

  /** `run(*names)`: a KeyboardInterrupt anywhere in the loop ends the command normally;
      any other exception escapes. */
  function Checked(git: Oracle, io: Io, names: seq<string>, isDir: string -> bool): Step<()> {
    var d := Run(git, io, ListDeleted);
    if d.result.Raised? then Step(Raised(d.result.exc), d.io)
    else
      var k := Run(git, d.io, ListChanged);
      if k.result.Raised? then Step(Raised(k.result.exc), k.io)
      else
        var files := Hydrate(names, SplitLines(k.result.value), isDir);
        var s := CheckAll(git, k.io, files, SplitLines(d.result.value), None, true);
        if s.result == Raised(KeyboardInterrupt) then Step(Ok(()), s.io) else s
  }

  /** `run(*names)` as the source writes it, with its `is_first_file` loop. */
  method RunCheck(git: Oracle, io: Io, names: seq<string>, isDir: string -> bool) returns (s: Step<()>)
    ensures s == Checked(git, io, names, isDir)
  {
    var d := Run(git, io, ListDeleted);
    if d.result.Raised? {
      return Step(Raised(d.result.exc), d.io);
    }
    var deleted := SplitLines(d.result.value);
    var k := Run(git, d.io, ListChanged);
    if k.result.Raised? {
      return Step(Raised(k.result.exc), k.io);
    }
    var files := Hydrate(names, SplitLines(k.result.value), isDir);
    var cur, cache, isFirst := k.io, None, true;
    for i := 0 to |files|
      invariant isFirst <==> i == 0
      invariant CheckAll(git, k.io, files, deleted, None, true) == CheckAll(git, cur, files[i..], deleted, cache, isFirst)
    {
      if !isFirst {
        cur := Clear(cur);
      }
      assert files[i..][1..] == files[i + 1..];
      var f := CheckFile(git, cur, files[i], deleted, cache);
      if f.result.Raised? {
        if f.result.exc == KeyboardInterrupt {
          return Step(Ok(()), f.io);
        }
        return Step(Raised(f.result.exc), f.io);
      }
      cur, cache, isFirst := f.io, f.result.value, false;
    }
    assert files[|files|..] == [];
    s := Step(Ok(()), cur);
  }

  // ---------------------------------------------------------------- what the loop does

  /** The number of screen clears in a stretch of log. */
  function Clears(log: seq<Event>): nat {
    if log == [] then 0 else (if log[0].Cleared? then 1 else 0) + Clears(log[1..])
  }

  lemma {:induction false} ClearsAppend(a: seq<Event>, b: seq<Event>)
    ensures Clears(a + b) == Clears(a) + Clears(b)
  {
    if a != [] {
      assert (a + b)[1..] == a[1..] + b;
      ClearsAppend(a[1..], b);
    } else {
      assert a + b == b;
    }
  }

  lemma {:induction false} AsksQuiet(prompt: string, n: nat)
    ensures Clears(Asks(prompt, n)) == 0 && Commands(Asks(prompt, n)) == []
  {
    if n > 0 {
      AsksQuiet(prompt, n - 1);
    }
  }

  /** The question issues no command of its own, `git add` is issued iff the answer is
      yes, and the screen is left alone. */
  lemma AddIfWantedEffects(git: Oracle, io: Io, name: string)
    ensures var s := AddIfWanted(git, io, name);
            var yes := Ask(Prompt, io).result == Ok(true);
            && Commands(s.io.log) == Commands(io.log) + (if yes then [Git(["add", name])] else [])
            && Clears(s.io.log) == Clears(io.log)
            && |io.log| <= |s.io.log| && s.io.log[..|io.log|] == io.log
            && (s.result == Ok(true) <==> yes && git(Ask(Prompt, io).io.log, Git(["add", name])).Completed?)
  {
    var a := Ask(Prompt, io);
    AskQuietly(io);
    if a.result == Ok(true) {
      var ran := [Ran(Git(["add", name]))];
      assert AddIfWanted(git, io, name).io.log == a.io.log + ran;
      CommandsAppend(a.io.log, ran);
      ClearsAppend(a.io.log, ran);
      assert (a.io.log + ran)[..|io.log|] == a.io.log[..|io.log|];
    }
  }

  /** The question itself issues nothing and clears nothing; it only appends. */
  lemma AskQuietly(io: Io)
    ensures var a := Ask(Prompt, io);
            && Commands(a.io.log) == Commands(io.log)
            && Clears(a.io.log) == Clears(io.log)
            && |io.log| <= |a.io.log| && a.io.log[..|io.log|] == io.log
  {
    AskOutcome(Prompt, io);
    var k := Decisive(io.input);
    var asks := Asks(Prompt, k + 1);
    AsksQuiet(Prompt, k + 1);
    CommandsAppend(io.log, asks);
    ClearsAppend(io.log, asks);
    assert (io.log + asks)[..|io.log|] == io.log;
  }

  /** Events that neither clear the screen nor look up the sha. */
  predicate Calm(evs: seq<Event>) {
    forall j :: 0 <= j < |evs| ==> !evs[j].Cleared? && evs[j] != Ran(RevParse)
  }

  /** `b` continues `a` with calm events only. */
  predicate Grows(a: seq<Event>, b: seq<Event>) {
    |a| <= |b| && b[..|a|] == a && Calm(b[|a|..])
  }

  lemma GrowsBy(a: seq<Event>, evs: seq<Event>)
    requires Calm(evs)
    ensures Grows(a, a + evs)
  {
    assert (a + evs)[|a|..] == evs;
  }

  lemma GrowsTrans(a: seq<Event>, b: seq<Event>, c: seq<Event>)
    requires Grows(a, b) && Grows(b, c)
    ensures Grows(a, c)
  {
    assert c[..|a|] == c[..|b|][..|a|];
    forall j | |a| <= j < |c| ensures !c[j].Cleared? && c[j] != Ran(RevParse) {
      if j < |b| {
        assert c[j] == b[|a|..][j - |a|];
      } else {
        assert c[j] == c[|b|..][j - |b|];
      }
    }
  }

  /** How many times a command occurs in the log. */
  function Issued(log: seq<Event>, c: Cmd): nat {
    multiset(Commands(log))[c]
  }

  lemma IssuedAppend(a: seq<Event>, b: seq<Event>, c: Cmd)
    ensures Issued(a + b, c) == Issued(a, c) + Issued(b, c)
  {
    CommandsAppend(a, b);
  }

  lemma {:induction false} CalmCounts(evs: seq<Event>)
    requires Calm(evs)
    ensures Clears(evs) == 0 && Issued(evs, RevParse) == 0
  {
    if evs != [] {
      CalmCounts(evs[1..]);
      assert evs == [evs[0]] + evs[1..];
      IssuedAppend([evs[0]], evs[1..], RevParse);
    }
  }

  /** Calm events change neither count. */
  lemma GrowsCounts(a: seq<Event>, b: seq<Event>)
    requires Grows(a, b)
    ensures Clears(b) == Clears(a) && Issued(b, RevParse) == Issued(a, RevParse)
  {
    assert b == a + b[|a|..];
    CalmCounts(b[|a|..]);
    ClearsAppend(a, b[|a|..]);
    IssuedAppend(a, b[|a|..], RevParse);
  }

  lemma {:induction false} AsksCalm(prompt: string, n: nat)
    ensures Calm(Asks(prompt, n))
  {
    if n > 0 {
      AsksCalm(prompt, n - 1);
      assert forall j :: 0 < j < n ==> Asks(prompt, n)[j] == Asks(prompt, n - 1)[j - 1];
    }
  }

  /** The command a file starts with: `git show HEAD:<name>` for a deleted file, the
      coloured `git diff <name>` otherwise. */
  function FirstCommand(name: string, deleted: seq<string>): Cmd {
    if name in deleted then Plain(["show", "HEAD:" + name]) else Git(["diff", name])
  }

  /** The question and the possible `git add` are calm. */
  lemma AddIfWantedCalm(git: Oracle, io: Io, name: string)
    ensures Grows(io.log, AddIfWanted(git, io, name).io.log)
  {
    AskOutcome(Prompt, io);
    var a := Ask(Prompt, io);
    AsksCalm(Prompt, Decisive(io.input) + 1);
    GrowsBy(io.log, Asks(Prompt, Decisive(io.input) + 1));
    if a.result == Ok(true) {
      GrowsBy(a.io.log, [Ran(Git(["add", name]))]);
      GrowsTrans(io.log, a.io.log, AddIfWanted(git, io, name).io.log);
    }
  }

  /** A deleted file: `git show` first, then the sha lookup unless it is cached, then
      nothing but calm events; once looked up the sha is cached. */
  lemma DeletionEffects(git: Oracle, io: Io, name: string, cache: Option<string>)
    ensures var show := Plain(["show", "HEAD:" + name]);
            var s := VerifyDeletion(git, io, name, cache);
            var lookup := if cache.None? && git(io.log, show).Completed? then [Ran(RevParse)] else [];
            && Grows(io.log + [Ran(show)] + lookup, s.io.log)
            && (s.result.Ok? ==> s.result.value.Some? && (cache.Some? ==> s.result.value == cache))
  {
    var show := Plain(["show", "HEAD:" + name]);
    var shown := Run(git, io, show);
    var lookup := if cache.None? && git(io.log, show).Completed? then [Ran(RevParse)] else [];
    if shown.result.Ok? {
      var lines := Removals(SplitLines(shown.result.value));
      var sha := CurrentSha(git, shown.io, cache);
      assert sha.io.log == io.log + [Ran(show)] + lookup;
      if sha.result.Ok? {
        var header := Header(name, sha.result.value, |lines|);
        var outs := [Out(header), Out(Join(lines, "\n")), Out("")];
        var io' := Print(Print(Print(sha.io, header), Join(lines, "\n")), "");
        assert io'.log == sha.io.log + outs;
        GrowsBy(sha.io.log, outs);
        AddIfWantedCalm(git, io', name);
        GrowsTrans(sha.io.log, io'.log, AddIfWanted(git, io', name).io.log);
      } else {
        GrowsBy(sha.io.log, []);
      }
    } else {
      assert shown.io.log == io.log + [Ran(show)] + lookup;
      GrowsBy(shown.io.log, []);
    }
  }

  /** Any other file: `git diff` first, then nothing but calm events. */
  lemma PromptEffects(git: Oracle, io: Io, name: string)
    ensures Grows(io.log + [Ran(Git(["diff", name]))], CheckAndPrompt(git, io, name).io.log)
  {
    var d := Run(git, io, Git(["diff", name]));
    if d.result.Ok? {
      var outs := [Out(d.result.value), Out("")];
      var io' := Print(Print(d.io, d.result.value), "");
      assert io'.log == d.io.log + outs;
      GrowsBy(d.io.log, outs);
      AddIfWantedCalm(git, io', name);
      GrowsTrans(d.io.log, io'.log, AddIfWanted(git, io', name).io.log);
    } else {
      GrowsBy(d.io.log, []);
    }
  }

  /** One file: it starts with the command its kind calls for, clears nothing, and looks
      the sha up at most once, only when it is not cached, and caches it. */
  lemma FileEffects(git: Oracle, io: Io, name: string, deleted: seq<string>, cache: Option<string>)
    ensures var s := CheckFile(git, io, name, deleted, cache);
            var added := Issued(s.io.log, RevParse) - Issued(io.log, RevParse);
            && |io.log| < |s.io.log| && s.io.log[..|io.log|] == io.log
            && s.io.log[|io.log|] == Ran(FirstCommand(name, deleted))
            && Clears(s.io.log) == Clears(io.log)
            && 0 <= added <= (if cache.None? then 1 else 0)
            && (s.result.Ok? && cache.Some? ==> s.result.value == cache)
            && (s.result.Ok? && added == 1 ==> s.result.value.Some?)
  {
    var s := CheckFile(git, io, name, deleted, cache);
    var first := Ran(FirstCommand(name, deleted));
    if name in deleted {
      DeletionEffects(git, io, name, cache);
      var lookup := if cache.None? && git(io.log, FirstCommand(name, deleted)).Completed? then [Ran(RevParse)] else [];
      Counted(io.log, first, lookup, s.io.log);
    } else {
      PromptEffects(git, io, name);
      assert io.log + [first] + [] == io.log + [first];
      Counted(io.log, first, [], s.io.log);
    }
  }

  /** The counts after a first event and an optional sha lookup followed by calm events. */
  lemma Counted(log: seq<Event>, ev: Event, lookup: seq<Event>, final: seq<Event>)
    requires Grows(log + [ev] + lookup, final)
    requires ev != Ran(RevParse) && !ev.Cleared?
    requires lookup == [] || lookup == [Ran(RevParse)]
    ensures |log| < |final| && final[..|log|] == log && final[|log|] == ev
    ensures Clears(final) == Clears(log)
    ensures Issued(final, RevParse) == Issued(log, RevParse) + |lookup|
  {
    var pre := log + [ev] + lookup;
    GrowsCounts(pre, final);
    IssuedAppend(log + [ev], lookup, RevParse);
    IssuedAppend(log, [ev], RevParse);
    ClearsAppend(log + [ev], lookup);
    ClearsAppend(log, [ev]);
    assert final[..|log|] == pre[..|log|];
    assert final[|log|] == pre[|log|];
  }

  /** The loop clears the screen before every file but the first, and starts each file
      with the command its kind calls for. */
  lemma {:induction false} ClearsBetweenFiles(git: Oracle, io: Io, files: seq<string>, deleted: seq<string>, cache: Option<string>, first: bool)
    ensures var s := CheckAll(git, io, files, deleted, cache, first);
            && |io.log| <= |s.io.log| && s.io.log[..|io.log|] == io.log
            && (files != [] ==>
                  && |io.log| < |s.io.log|
                  && s.io.log[|io.log|] == if first then Ran(FirstCommand(files[0], deleted)) else Cleared)
            && (s.result.Ok? && files != [] ==> Clears(s.io.log) == Clears(io.log) + |files| - (if first then 1 else 0))
    decreases |files|
  {
    if files != [] {
      var io0 := if first then io else Clear(io);
      ClearsAppend(io.log, if first then [] else [Cleared]);
      assert io0.log == io.log + if first then [] else [Cleared];
      FileEffects(git, io0, files[0], deleted, cache);
      var f := CheckFile(git, io0, files[0], deleted, cache);
      if f.result.Ok? {
        ClearsBetweenFiles(git, f.io, files[1..], deleted, f.result.value, false);
        var s := CheckAll(git, f.io, files[1..], deleted, f.result.value, false);
        assert s.io.log[..|io0.log|] == s.io.log[..|f.io.log|][..|io0.log|];
      }
      assert io0.log[..|io.log|] == io.log;
    }
  }

  /** From any point of the loop the sha is looked up at most once, and never again once
      it is cached. */
  lemma {:induction false} ShaLookedUpOnce(git: Oracle, io: Io, files: seq<string>, deleted: seq<string>, cache: Option<string>, first: bool)
    ensures var s := CheckAll(git, io, files, deleted, cache, first);
            Issued(io.log, RevParse) <= Issued(s.io.log, RevParse) <= Issued(io.log, RevParse) + (if cache.None? then 1 else 0)
    decreases |files|
  {
    if files != [] {
      var io0 := if first then io else Clear(io);
      IssuedAppend(io.log, if first then [] else [Cleared], RevParse);
      assert io0.log == io.log + if first then [] else [Cleared];
      FileEffects(git, io0, files[0], deleted, cache);
      var f := CheckFile(git, io0, files[0], deleted, cache);
      if f.result.Ok? {
        ShaLookedUpOnce(git, f.io, files[1..], deleted, f.result.value, false);
      }
    }
  }

  /** A whole `git check` runs `git rev-parse HEAD` at most once. */
  lemma CheckLooksUpShaOnce(git: Oracle, io: Io, names: seq<string>, isDir: string -> bool)
    ensures Issued(Checked(git, io, names, isDir).io.log, RevParse) <= Issued(io.log, RevParse) + 1
  {
    var d := Run(git, io, ListDeleted);
    IssuedAppend(io.log, [Ran(ListDeleted)], RevParse);
    if d.result.Ok? {
      var k := Run(git, d.io, ListChanged);
      IssuedAppend(d.io.log, [Ran(ListChanged)], RevParse);
      if k.result.Ok? {
        var files := Hydrate(names, SplitLines(k.result.value), isDir);
        ShaLookedUpOnce(git, k.io, files, SplitLines(d.result.value), None, true);
      }
    }
  }

  /** `git check` with one changed file and Ctrl-C at the question: the command ends
      normally and nothing is staged. */
  lemma InterruptEndsQuietly(git: Oracle, isDir: string -> bool, name: string, diff: string)
    requires name != [] && '\n' !in name
    requires git([], ListDeleted) == Completed("")
    requires git([Ran(ListDeleted)], ListChanged) == Completed(name)
    requires git([Ran(ListDeleted), Ran(ListChanged)], Git(["diff", name])) == Completed(diff)
    ensures Checked(git, Io([Interrupt], []), [], isDir)
            == Step(Ok(()), Io([], [Ran(ListDeleted), Ran(ListChanged), Ran(Git(["diff", name])),
                                    Out(diff), Out(""), Asked(Prompt)]))
  {
    SplitLinesOne(name);
    var io := Io([Interrupt], []);
    var log1 := [Ran(ListDeleted)];
    var log2 := log1 + [Ran(ListChanged)];
    assert log2 == [Ran(ListDeleted), Ran(ListChanged)];
    assert io.log + [Ran(ListDeleted)] == log1;
    assert Run(git, io, ListDeleted) == Step(Ok(""), Io([Interrupt], log1));
    assert Run(git, Io([Interrupt], log1), ListChanged) == Step(Ok(name), Io([Interrupt], log2));
    assert Hydrate([], SplitLines(name), isDir) == [name];
    var d := Run(git, Io([Interrupt], log2), Git(["diff", name]));
    var log3 := log2 + [Ran(Git(["diff", name]))];
    assert d == Step(Ok(diff), Io([Interrupt], log3));
    var io' := Print(Print(d.io, diff), "");
    assert Ask(Prompt, io') == Step(Raised(KeyboardInterrupt), Io([], io'.log + [Asked(Prompt)]));
    assert CheckFile(git, Io([Interrupt], log2), name, [], None)
        == Step(Raised(KeyboardInterrupt), Io([], io'.log + [Asked(Prompt)]));
  }

  /** The same run with no answer at all: the EOFError is not caught. */
  lemma EndOfInputEscapes(git: Oracle, isDir: string -> bool, name: string, diff: string)
    requires name != [] && '\n' !in name
    requires git([], ListDeleted) == Completed("")
    requires git([Ran(ListDeleted)], ListChanged) == Completed(name)
    requires git([Ran(ListDeleted), Ran(ListChanged)], Git(["diff", name])) == Completed(diff)
    ensures Checked(git, Io([], []), [], isDir).result == Raised(EofError)
  {
    SplitLinesOne(name);
    var io := Io([], []);
    var log1 := [Ran(ListDeleted)];
    var log2 := log1 + [Ran(ListChanged)];
    assert log2 == [Ran(ListDeleted), Ran(ListChanged)];
    assert io.log + [Ran(ListDeleted)] == log1;
    assert Run(git, io, ListDeleted) == Step(Ok(""), Io([], log1));
    assert Run(git, Io([], log1), ListChanged) == Step(Ok(name), Io([], log2));
    assert Hydrate([], SplitLines(name), isDir) == [name];
    var d := Run(git, Io([], log2), Git(["diff", name]));
    assert d.result == Ok(diff);
    assert Ask(Prompt, Print(Print(d.io, diff), "")).result == Raised(EofError);
  }
}
