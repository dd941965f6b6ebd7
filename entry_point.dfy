/** gitfu/__main__.py, the `gitfu` entry point. Help flags given after the mode are taken
    out of the command line before argparse sees it and merged back into the leftover
    arguments by their original positions; `init` prints the shell shim, anything else
    is handed on with the merged leftover. */
module EntryPoint {
  import opened Text
  import opened Shell

  // ---------------------------------------------------------------- help flags

  predicate IsHelpFlag(item: string) {
    item == "-h" || item == "--help"
  }

  /** Whether the loop of `parse_args` keeps `argv[i]` for argparse: anything but a help
      flag, and anything at index 0 or 1. */
  predicate KeptAt(argv: seq<string>, i: nat)
    requires i < |argv|
  {
    !IsHelpFlag(argv[i]) || i < 2
  }

  /** `new_argv` once the first `n` items have been looked at. */
  function Kept(argv: seq<string>, n: nat): seq<string>
    requires n <= |argv|
  {
    if n == 0 then [] else Kept(argv, n - 1) + (if KeptAt(argv, n - 1) then [argv[n - 1]] else [])
  }

  /** `help_flags_index` once the first `n` items have been looked at. */
  function HelpIndexes(argv: seq<string>, n: nat): (h: seq<nat>)
    requires n <= |argv|
    ensures forall j :: 0 <= j < |h| ==> h[j] < n
  {
    if n == 0 then [] else HelpIndexes(argv, n - 1) + (if KeptAt(argv, n - 1) then [] else [n - 1])
  }

  predicate Increasing(ps: seq<nat>) {
    forall j, k :: 0 <= j < k < |ps| ==> ps[j] < ps[k]
  }

  /** `[argv[p] for p in ps]` */
  function Flags(argv: seq<string>, ps: seq<nat>): (r: seq<string>)
    requires forall j :: 0 <= j < |ps| ==> ps[j] < |argv|
    ensures |r| == |ps|
    ensures forall j :: 0 <= j < |ps| ==> r[j] == argv[ps[j]]
  {
    if ps == [] then [] else [argv[ps[0]]] + Flags(argv, ps[1..])
  }

  /** The first loop of `parse_args`. */
  method StripHelpFlags(argv: seq<string>) returns (newArgv: seq<string>, help: seq<nat>)
    ensures newArgv == Kept(argv, |argv|)
    ensures help == HelpIndexes(argv, |argv|)
  {
    newArgv, help := [], [];
    for i := 0 to |argv|
      invariant newArgv == Kept(argv, i)
      invariant help == HelpIndexes(argv, i)
    {
      if !IsHelpFlag(argv[i]) || i < 2 {
        newArgv := newArgv + [argv[i]];
      } else {
        help := help + [i];
      }
    }
  }

  /** The recorded indexes are, in ascending order, exactly those from 2 on that hold a
      help flag. */
  lemma {:induction false} HelpIndexesSpec(argv: seq<string>, n: nat)
    requires n <= |argv|
    ensures var h := HelpIndexes(argv, n);
            && Increasing(h)
            && (forall j :: 0 <= j < |h| ==> 2 <= h[j] < n && IsHelpFlag(argv[h[j]]))
            && (forall i :: 2 <= i < n && IsHelpFlag(argv[i]) ==> i in h)
  {
    if n > 0 {
      HelpIndexesSpec(argv, n - 1);
    }
  }

  /** Without help flags every item is kept. */
  lemma {:induction false} KeptAll(argv: seq<string>, n: nat)
    requires n <= |argv|
    requires HelpIndexes(argv, n) == []
    ensures Kept(argv, n) == argv[..n]
  {
    if n > 0 {
      KeptAll(argv, n - 1);
      assert argv[..n] == argv[..n - 1] + [argv[n - 1]];
    }
  }

  /** The help flags removed from the first `n` items, in order. */
  function Removed(argv: seq<string>, n: nat): seq<string>
    requires n <= |argv|
  {
    if n == 0 then [] else Removed(argv, n - 1) + (if KeptAt(argv, n - 1) then [] else [argv[n - 1]])
  }

  lemma {:induction false} RemovedFlags(argv: seq<string>, n: nat)
    requires n <= |argv|
    ensures Removed(argv, n) == Flags(argv, HelpIndexes(argv, n))
  {
    if n > 0 {
      RemovedFlags(argv, n - 1);
      if !KeptAt(argv, n - 1) {
        FlagsAppend(argv, HelpIndexes(argv, n - 1), [n - 1]);
      }
    }
  }

  /** The multiset of the first `n` items. */
  function Items(argv: seq<string>, n: nat): multiset<string>
    requires n <= |argv|
  {
    if n == 0 then multiset{} else Items(argv, n - 1) + multiset{argv[n - 1]}
  }

  lemma {:induction false} ItemsPrefix(argv: seq<string>, n: nat)
    requires n <= |argv|
    ensures Items(argv, n) == multiset(argv[..n])
  {
    if n > 0 {
      ItemsPrefix(argv, n - 1);
      assert argv[..n] == argv[..n - 1] + [argv[n - 1]];
    }
  }

  lemma {:induction false} KeptRemoved(argv: seq<string>, n: nat)
    requires n <= |argv|
    ensures multiset(Kept(argv, n)) + multiset(Removed(argv, n)) == Items(argv, n)
  {
    if n > 0 {
      KeptRemoved(argv, n - 1);
    }
  }

  /** Nothing is lost: the kept items and the flags at the recorded indexes make up the
      command line. */
  lemma KeptAndFlags(argv: seq<string>)
    ensures multiset(Kept(argv, |argv|)) + multiset(Flags(argv, HelpIndexes(argv, |argv|))) == multiset(argv)
  {
    KeptRemoved(argv, |argv|);
    RemovedFlags(argv, |argv|);
    ItemsPrefix(argv, |argv|);
    assert argv[..|argv|] == argv;
  }

  /** The program name and the mode are always kept. */
  lemma {:induction false} KeptHead(argv: seq<string>, n: nat)
    requires 2 <= n <= |argv|
    ensures |Kept(argv, n)| >= 2 && Kept(argv, n)[..2] == argv[..2]
  {
    if n > 2 {
      KeptHead(argv, n - 1);
      assert Kept(argv, n)[..2] == Kept(argv, n - 1)[..2];
    } else {
      assert Kept(argv, 1) == [argv[0]];
    }
  }

  // ---------------------------------------------------------------- reinsertion

  /** `argv_indexes` over the first `n` items: a later occurrence overwrites an earlier one. */
  function ArgvIndexes(argv: seq<string>, n: nat): map<string, nat>
    requires n <= |argv|
  {
    if n == 0 then map[] else ArgvIndexes(argv, n - 1)[argv[n - 1] := n - 1]
  }

  /** Each item is mapped to the index of its last occurrence. */
  lemma {:induction false} ArgvIndexesLast(argv: seq<string>, n: nat)
    requires n <= |argv|
    ensures var m := ArgvIndexes(argv, n);
            && (forall i :: 0 <= i < n ==> argv[i] in m)
            && (forall x :: x in m ==> m[x] < n && argv[m[x]] == x && forall j :: m[x] < j < n ==> argv[j] != x)
  {
    if n > 0 {
      ArgvIndexesLast(argv, n - 1);
      var m, x := ArgvIndexes(argv, n - 1), argv[n - 1];
      var m' := ArgvIndexes(argv, n);
      assert m' == m[x := n - 1];
      forall y | y in m'
        ensures m'[y] < n && argv[m'[y]] == y && forall j :: m'[y] < j < n ==> argv[j] != y
      {
        if y != x {
          assert m'[y] == m[y];
        }
      }
    }
  }

  /** `Ok(xs + r)`, or the exception `r` carries. */
  function Prepend(xs: seq<string>, r: Result<seq<string>>): Result<seq<string>> {
    match r
    case Ok(v) => Ok(xs + v)
    case Raised(e) => Raised(e)
  }

  lemma PrependNil(r: Result<seq<string>>)
    ensures Prepend([], r) == r
  {
    if r.Ok? {
      assert [] + r.value == r.value;
    }
  }

  lemma PrependPrepend(xs: seq<string>, ys: seq<string>, r: Result<seq<string>>)
    ensures Prepend(xs, Prepend(ys, r)) == Prepend(xs + ys, r)
  {
    if r.Ok? {
      assert xs + (ys + r.value) == xs + ys + r.value;
    }
  }

  /** The second half of `parse_args`, one step at a time, with `pending` the help-flag
      indexes not yet placed: a flag whose index is below the current item's goes first;
      reading `argv_indexes` for an unknown item is a KeyError and reading past the last
      flag an IndexError. */
  function Place(m: map<string, nat>, argv: seq<string>, leftover: seq<string>, pending: seq<nat>): Result<seq<string>>
    requires forall j :: 0 <= j < |pending| ==> pending[j] < |argv|
    decreases |leftover| + |pending|
  {
    if leftover == [] then Ok(Flags(argv, pending))
    else if leftover[0] !in m then Raised(KeyError(leftover[0]))
    else if pending == [] then Raised(IndexError)
    else if m[leftover[0]] > pending[0] then Prepend([argv[pending[0]]], Place(m, argv, leftover, pending[1..]))
    else Prepend([leftover[0]], Place(m, argv, leftover[1..], pending))
  }

  /** The reinsertion loops of `parse_args`. */
  method Reinsert(m: map<string, nat>, argv: seq<string>, leftover: seq<string>, help: seq<nat>)
    returns (r: Result<seq<string>>)
    requires forall j :: 0 <= j < |help| ==> help[j] < |argv|
    ensures r == Place(m, argv, leftover, help)
  {
    var index := 0;
    var out := [];
    assert leftover[0..] == leftover && help[0..] == help;
    PrependNil(Place(m, argv, leftover, help));
    for i := 0 to |leftover|
      invariant index <= |help|
      invariant Place(m, argv, leftover, help) == Prepend(out, Place(m, argv, leftover[i..], help[index..]))
    {
      var item := leftover[i];
      if item !in m {
        KeyMissing(m, argv, leftover[i..], help[index..]);
        return Raised(KeyError(item));
      }
      out, index := PullFlags(m, argv, leftover[i..], help, out, index);
      if index == |help| {
        FlagsExhausted(m, argv, leftover[i..], help[index..]);
        return Raised(IndexError);
      }
      PlaceItem(m, argv, leftover, i, help[index..]);
      PrependPrepend(out, [item], Place(m, argv, leftover[i + 1..], help[index..]));
      out := out + [item];
    }
    assert leftover[|leftover|..] == [];
    r := AppendFlags(argv, out, help, index);
  }

  /** The inner loop of the reinsertion: the flags below the current item go first. */
  method PullFlags(m: map<string, nat>, argv: seq<string>, rest: seq<string>, help: seq<nat>, out: seq<string>, index: nat)
    returns (out': seq<string>, index': nat)
    requires forall j :: 0 <= j < |help| ==> help[j] < |argv|
    requires rest != [] && rest[0] in m && index <= |help|
    ensures index <= index' <= |help|
    ensures index' == |help| || m[rest[0]] <= help[index']
    ensures Prepend(out, Place(m, argv, rest, help[index..])) == Prepend(out', Place(m, argv, rest, help[index'..]))
  {
    out', index' := out, index;
    while index' < |help| && m[rest[0]] > help[index']
      invariant index <= index' <= |help|
      invariant Prepend(out, Place(m, argv, rest, help[index..])) == Prepend(out', Place(m, argv, rest, help[index'..]))
    {
      PullFlag(m, argv, rest, help, index');
      PrependPrepend(out', [argv[help[index']]], Place(m, argv, rest, help[index' + 1..]));
      out' := out' + [argv[help[index']]];
      index' := index' + 1;
    }
  }

  /** The last loop of the reinsertion: the flags after the last item. */
  method AppendFlags(argv: seq<string>, out: seq<string>, help: seq<nat>, index: nat) returns (r: Result<seq<string>>)
    requires forall j :: 0 <= j < |help| ==> help[j] < |argv|
    requires index <= |help|
    ensures r == Ok(out + Flags(argv, help[index..]))
  {
    var out', index' := out, index;
    while index' < |help|
      invariant index <= index' <= |help|
      invariant out + Flags(argv, help[index..]) == out' + Flags(argv, help[index'..])
    {
      FlagsStep(argv, out', help, index');
      out' := out' + [argv[help[index']]];
      index' := index' + 1;
    }
    assert help[index'..] == [] && out' + [] == out';
    r := Ok(out');
  }

  lemma KeyMissing(m: map<string, nat>, argv: seq<string>, rest: seq<string>, pending: seq<nat>)
    requires forall j :: 0 <= j < |pending| ==> pending[j] < |argv|
    requires rest != [] && rest[0] !in m
    ensures forall out :: Prepend(out, Place(m, argv, rest, pending)) == Raised(KeyError(rest[0]))
  {
  }

  lemma FlagsExhausted(m: map<string, nat>, argv: seq<string>, rest: seq<string>, pending: seq<nat>)
    requires rest != [] && rest[0] in m && pending == []
    ensures forall out :: Prepend(out, Place(m, argv, rest, pending)) == Raised(IndexError)
  {
  }

  lemma PullFlag(m: map<string, nat>, argv: seq<string>, rest: seq<string>, help: seq<nat>, index: nat)
    requires forall j :: 0 <= j < |help| ==> help[j] < |argv|
    requires rest != [] && rest[0] in m && index < |help| && m[rest[0]] > help[index]
    ensures Place(m, argv, rest, help[index..]) == Prepend([argv[help[index]]], Place(m, argv, rest, help[index + 1..]))
  {
    assert help[index..][1..] == help[index + 1..];
  }

  lemma PlaceItem(m: map<string, nat>, argv: seq<string>, leftover: seq<string>, i: nat, pending: seq<nat>)
    requires forall j :: 0 <= j < |pending| ==> pending[j] < |argv|
    requires i < |leftover| && leftover[i] in m && pending != [] && m[leftover[i]] <= pending[0]
    ensures Place(m, argv, leftover[i..], pending) == Prepend([leftover[i]], Place(m, argv, leftover[i + 1..], pending))
  {
    assert leftover[i..][1..] == leftover[i + 1..];
  }

  lemma FlagsStep(argv: seq<string>, out: seq<string>, help: seq<nat>, index: nat)
    requires forall j :: 0 <= j < |help| ==> help[j] < |argv|
    requires index < |help|
    ensures out + Flags(argv, help[index..]) == (out + [argv[help[index]]]) + Flags(argv, help[index + 1..])
  {
    assert help[index..][1..] == help[index + 1..];
    var f := Flags(argv, help[index + 1..]);
    var x := argv[help[index]];
    assert Flags(argv, help[index..]) == [x] + f;
    assert out + ([x] + f) == (out + [x]) + f;
  }

  /** With the flags in ascending order and every item known, the merge succeeds iff no
      item comes after the last help flag. */
  lemma {:induction false} PlaceOk(m: map<string, nat>, argv: seq<string>, leftover: seq<string>, pending: seq<nat>)
    requires forall j :: 0 <= j < |pending| ==> pending[j] < |argv|
    requires Increasing(pending)
    requires forall i :: 0 <= i < |leftover| ==> leftover[i] in m
    requires pending != []
    ensures Place(m, argv, leftover, pending).Ok? <==>
            forall i :: 0 <= i < |leftover| ==> m[leftover[i]] <= pending[|pending| - 1]
    decreases |leftover| + |pending|
  {
    if leftover != [] {
      var last := pending[|pending| - 1];
      if m[leftover[0]] > pending[0] {
        if |pending| == 1 {
          assert !(m[leftover[0]] <= last);
        } else {
          assert pending[1..][|pending| - 2] == last;
          PlaceOk(m, argv, leftover, pending[1..]);
        }
      } else {
        assert pending[0] <= last;
        assert forall i :: 0 < i < |leftover| ==> leftover[i] == leftover[1..][i - 1];
        if leftover[1..] != [] {
          PlaceOk(m, argv, leftover[1..], pending);
        }
      }
    }
  }

  /** A successful merge is a permutation of the leftover items and the flags. */
  lemma {:induction false} PlacePermutation(m: map<string, nat>, argv: seq<string>, leftover: seq<string>, pending: seq<nat>)
    requires forall j :: 0 <= j < |pending| ==> pending[j] < |argv|
    requires Place(m, argv, leftover, pending).Ok?
    ensures multiset(Place(m, argv, leftover, pending).value) == multiset(leftover) + multiset(Flags(argv, pending))
    decreases |leftover| + |pending|
  {
    if leftover != [] {
      var v := Place(m, argv, leftover, pending).value;
      if m[leftover[0]] > pending[0] {
        var v' := Place(m, argv, leftover, pending[1..]).value;
        PlacePermutation(m, argv, leftover, pending[1..]);
        ConsMultiset(argv[pending[0]], v', multiset(leftover), Flags(argv, pending[1..]));
      } else {
        var v' := Place(m, argv, leftover[1..], pending).value;
        PlacePermutation(m, argv, leftover[1..], pending);
        MultisetCons(leftover);
        assert v == [leftover[0]] + v';
        assert multiset(v) == multiset{leftover[0]} + multiset(v');
      }
    }
  }

  lemma ConsMultiset(x: string, v: seq<string>, items: multiset<string>, flags: seq<string>)
    requires multiset(v) == items + multiset(flags)
    ensures multiset([x] + v) == items + multiset([x] + flags)
  {
  }

  lemma MultisetCons(s: seq<string>)
    requires s != []
    ensures multiset(s) == multiset{s[0]} + multiset(s[1..])
  {
    assert s == [s[0]] + s[1..];
  }

  lemma FlagsAppend(argv: seq<string>, a: seq<nat>, b: seq<nat>)
    requires forall j :: 0 <= j < |a| ==> a[j] < |argv|
    requires forall j :: 0 <= j < |b| ==> b[j] < |argv|
    ensures Flags(argv, a + b) == Flags(argv, a) + Flags(argv, b)
  {
    var l, r := Flags(argv, a + b), Flags(argv, a) + Flags(argv, b);
    forall j | 0 <= j < |l| ensures l[j] == r[j] {
      if j < |a| {
        assert (a + b)[j] == a[j];
      } else {
        assert (a + b)[j] == b[j - |a|];
      }
    }
  }


  // ---------------------------------------------------------------- parse_args

  /** What argparse makes of the mode and its option. */
  datatype Namespace = Namespace(mode: Option<string>, directory: Option<string>)

  /** `parser.parse_known_args()` on the command line it is given: the namespace and
      the leftover items, or an exception such as the `SystemExit` after printing help. */
  type ArgParser = seq<string> -> Result<(Namespace, seq<string>)>

  /** `parse_args()` on the command line `argv`. */
  function ParsedArgs(argv: seq<string>, parser: ArgParser): Result<(Namespace, seq<string>)> {
    var help := HelpIndexes(argv, |argv|);
    HelpIndexesSpec(argv, |argv|);
    match parser(Kept(argv, |argv|))
    case Raised(e) => Raised(e)
    case Ok(parsed) =>
      if help == [] then Ok(parsed)
      else match Place(ArgvIndexes(argv, |argv|), argv, parsed.1, help)
        case Raised(e) => Raised(e)
        case Ok(leftover) => Ok((parsed.0, leftover))
  }

  /** `parse_args()`, as the source writes it. */
  method ParseArgs(argv: seq<string>, parser: ArgParser) returns (r: Result<(Namespace, seq<string>)>)
    ensures r == ParsedArgs(argv, parser)
  {
    var argvIndexes := ArgvIndexes(argv, |argv|);
    var newArgv, help := StripHelpFlags(argv);
    HelpIndexesSpec(argv, |argv|);
    var parsed := parser(newArgv);
    if parsed.Raised? {
      return Raised(parsed.exc);
    }
    if help == [] {
      return parsed;
    }
    var leftover := Reinsert(argvIndexes, argv, parsed.value.1, help);
    if leftover.Raised? {
      return Raised(leftover.exc);
    }
    r := Ok((parsed.value.0, leftover.value));
  }

  /** Without help flags argparse sees the whole command line and its answer is passed on. */
  lemma NoHelpFlagsPassThrough(argv: seq<string>, parser: ArgParser)
    requires HelpIndexes(argv, |argv|) == []
    ensures ParsedArgs(argv, parser) == parser(argv)
  {
    KeptAll(argv, |argv|);
    assert argv[..|argv|] == argv;
  }

  /** With the help flags after the mode and every leftover item taken from the command
      line, the result is Ok iff no leftover item comes after the last help flag, and
      then it is the leftover with the flags put back. */
  lemma HelpFlagsPutBack(argv: seq<string>, parser: ArgParser)
    requires HelpIndexes(argv, |argv|) != []
    requires parser(Kept(argv, |argv|)).Ok?
    requires var leftover := parser(Kept(argv, |argv|)).value.1;
             forall i :: 0 <= i < |leftover| ==> leftover[i] in argv
    ensures var help := HelpIndexes(argv, |argv|);
            var leftover := parser(Kept(argv, |argv|)).value.1;
            var m := ArgvIndexes(argv, |argv|);
            && (ParsedArgs(argv, parser).Ok? <==>
                  forall i :: 0 <= i < |leftover| ==> leftover[i] in m && m[leftover[i]] <= help[|help| - 1])
            && (ParsedArgs(argv, parser).Ok? ==>
                  multiset(ParsedArgs(argv, parser).value.1) == multiset(leftover) + multiset(Flags(argv, help)))
  {
    var help := HelpIndexes(argv, |argv|);
    var leftover := parser(Kept(argv, |argv|)).value.1;
    var m := ArgvIndexes(argv, |argv|);
    HelpIncreasing(argv);
    LeftoverKnown(argv, leftover);
    ParsedPlaced(argv, parser);
    PlaceOk(m, argv, leftover, help);
    if Place(m, argv, leftover, help).Ok? {
      PlacePermutation(m, argv, leftover, help);
    }
  }

  lemma HelpIncreasing(argv: seq<string>)
    ensures Increasing(HelpIndexes(argv, |argv|))
  {
    HelpIndexesSpec(argv, |argv|);
  }

  lemma LeftoverKnown(argv: seq<string>, leftover: seq<string>)
    requires forall i :: 0 <= i < |leftover| ==> leftover[i] in argv
    ensures forall i :: 0 <= i < |leftover| ==> leftover[i] in ArgvIndexes(argv, |argv|)
  {
    ArgvIndexesLast(argv, |argv|);
    forall i | 0 <= i < |leftover| ensures leftover[i] in ArgvIndexes(argv, |argv|) {
      var j :| 0 <= j < |argv| && argv[j] == leftover[i];
    }
  }

  lemma ParsedPlaced(argv: seq<string>, parser: ArgParser)
    requires HelpIndexes(argv, |argv|) != []
    requires parser(Kept(argv, |argv|)).Ok?
    ensures var p := Place(ArgvIndexes(argv, |argv|), argv, parser(Kept(argv, |argv|)).value.1, HelpIndexes(argv, |argv|));
            && (ParsedArgs(argv, parser).Ok? <==> p.Ok?)
            && (p.Ok? ==> ParsedArgs(argv, parser).value.1 == p.value)
  {
  }

  /** `gitfu run status -h`: the flag comes back after `status`. */
  lemma TrailingHelpFlag(parser: ArgParser, ns: Namespace)
    requires parser(["gitfu", "run", "status"]) == Ok((ns, ["status"]))
    ensures ParsedArgs(["gitfu", "run", "status", "-h"], parser) == Ok((ns, ["status", "-h"]))
  {
    var argv := ["gitfu", "run", "status", "-h"];
    assert Kept(argv, 4) == ["gitfu", "run", "status"];
    assert HelpIndexes(argv, 4) == [3];
    var m := ArgvIndexes(argv, 4);
    assert ArgvIndexes(argv, 3)["status"] == 2;
    assert "status" in m && m["status"] == 2;
    assert Flags(argv, [3]) == ["-h"];
    assert Place(m, argv, ["status"][1..], [3]) == Ok(["-h"]);
    assert Place(m, argv, ["status"], [3]) == Prepend(["status"], Place(m, argv, ["status"][1..], [3]));
    assert ["status"] + ["-h"] == ["status", "-h"];
  }

  /** `gitfu run -h status`: `status` comes after the last flag, so the inner loop reads
      past the end of `help_flags_index`. */
  lemma LeadingHelpFlagRaises(parser: ArgParser, ns: Namespace)
    requires parser(["gitfu", "run", "status"]) == Ok((ns, ["status"]))
    ensures ParsedArgs(["gitfu", "run", "-h", "status"], parser) == Raised(IndexError)
  {
    var argv := ["gitfu", "run", "-h", "status"];
    assert Kept(argv, 4) == ["gitfu", "run", "status"];
    assert HelpIndexes(argv, 4) == [2];
    var m := ArgvIndexes(argv, 4);
    assert "status" in m && m["status"] == 3;
    assert [2][1..] == [];
    assert Place(m, argv, ["status"], [2]) == Prepend(["-h"], Place(m, argv, ["status"], []));
  }

  // ---------------------------------------------------------------- the shell shim

  /** `os.path.splitext(p)[0]` for a directory entry: the name without its last dot
      suffix, unless the dots are all leading. */
  function SplitExtRoot(p: string): (root: string)
    ensures |root| <= |p| && StartsWith(p, root)
  {
    var sep := SlashEnd(p);
    var dot := DotIndex(p);
    if dot >= sep && exists i :: sep <= i < dot && p[i] != '.' then p[..dot] else p
  }

  /** One past the last '/' in `p`, or 0: `p.rfind('/') + 1`. */
  function SlashEnd(p: string): (i: nat)
    ensures i <= |p|
    ensures 0 < i ==> p[i - 1] == '/'
    ensures forall j :: i <= j < |p| ==> p[j] != '/'
  {
    if p == [] then 0 else if p[|p| - 1] == '/' then |p| else SlashEnd(p[..|p| - 1])
  }

  /** The index of the last '.' in `p`, or `|p|` when there is none. */
  function DotIndex(p: string): (i: nat)
    ensures i <= |p|
    ensures i < |p| ==> p[i] == '.' && forall j :: i < j < |p| ==> p[j] != '.'
    ensures i == |p| ==> forall j :: 0 <= j < |p| ==> p[j] != '.'
  {
    if p == [] then 0
    else if p[|p| - 1] == '.' then |p| - 1
    else
      var i := DotIndex(p[..|p| - 1]);
      if i == |p| - 1 then |p| else i
  }

  /** `standalone_script_names`: the entries not starting with '_', without extension,
      with '_' replaced by '-'. */
  function ShimNames(entries: seq<string>): (names: seq<string>)
    ensures |names| <= |entries|
    ensures forall j :: 0 <= j < |names| ==> '_' !in names[j]
  {
    if entries == [] then []
    else
      var rest := ShimNames(entries[1..]);
      if StartsWith(entries[0], "_") then rest
      else
        var name := ReplaceChar(SplitExtRoot(entries[0]), '_', '-');
        [name] + rest
  }

  /** The names come from the entries that do not start with '_'. */
  lemma {:induction false} ShimNamesFrom(entries: seq<string>)
    ensures forall x :: x in ShimNames(entries) <==>
              exists i :: 0 <= i < |entries| && !StartsWith(entries[i], "_") && x == ReplaceChar(SplitExtRoot(entries[i]), '_', '-')
  {
    if entries != [] {
      ShimNamesFrom(entries[1..]);
      assert forall i :: 0 < i < |entries| ==> entries[i] == entries[1..][i - 1];
      forall x | x in ShimNames(entries[1..])
        ensures exists i :: 0 <= i < |entries| && !StartsWith(entries[i], "_") && x == ReplaceChar(SplitExtRoot(entries[i]), '_', '-')
      {
        var i :| 0 <= i < |entries[1..]| && !StartsWith(entries[1..][i], "_") && x == ReplaceChar(SplitExtRoot(entries[1..][i]), '_', '-');
        assert entries[i + 1] == entries[1..][i];
      }
    }
  }

  /** A plain `base.ext` entry loses exactly its extension. */
  lemma SplitExtPlain(base: string, ext: string)
    requires base != [] && '.' !in base && '/' !in base
    requires '.' !in ext && '/' !in ext
    ensures SplitExtRoot(base + "." + ext) == base
  {
    var p := base + "." + ext;
    assert forall j :: 0 <= j < |p| ==> p[j] != '/' by {
      forall j | 0 <= j < |p| ensures p[j] != '/' {
        if j < |base| { assert p[j] == base[j]; } else if j > |base| { assert p[j] == ext[j - |base| - 1]; }
      }
    }
    assert SlashEnd(p) == 0;
    DotOfPlain(base, ext);
    assert p[0] == base[0] != '.';
    assert p[..|base|] == base;
  }

  lemma DotOfPlain(base: string, ext: string)
    requires '.' !in ext
    ensures DotIndex(base + "." + ext) == |base|
  {
    var p := base + "." + ext;
    NoDotAfter(base, ext);
    assert p[|base|] == '.';
  }

  lemma NoDotAfter(base: string, ext: string)
    requires '.' !in ext
    ensures forall j :: |base| < j < |base + "." + ext| ==> (base + "." + ext)[j] != '.'
  {
    forall j | |base| < j < |base + "." + ext| ensures (base + "." + ext)[j] != '.' {
      assert (base + "." + ext)[j] == ext[j - |base| - 1];
    }
  }

  /** One shim block, as the dedented template renders it: a shell function `name`
      running `<bin>/<command> "$@"`. */
  function Block(name: string, bin: string, command: string): string {
    "function " + name + " {\n    " + bin + "/" + command + " \"$@\"\n}"
  }

  /** `get_bash_shim(bin)` once the directory is known: the `git` function, then one
      function per script, separated by blank lines. */
  function Shim(bin: string, entries: seq<string>): string {
    Join([Block("git", bin, "gitfu run")] + Blocks(bin, ShimNames(entries)), "\n\n")
  }

  function Blocks(bin: string, names: seq<string>): (r: seq<string>)
    ensures |r| == |names|
    ensures forall j :: 0 <= j < |names| ==> r[j] == Block(names[j], bin, names[j])
  {
    if names == [] then [] else [Block(names[0], bin, names[0])] + Blocks(bin, names[1..])
  }

  /** The `git` function comes first, and with no scripts it is the whole shim. */
  lemma ShimStartsWithGit(bin: string, entries: seq<string>)
    ensures StartsWith(Shim(bin, entries), Block("git", bin, "gitfu run"))
    ensures ShimNames(entries) == [] ==> Shim(bin, entries) == Block("git", bin, "gitfu run")
  {
    var parts := [Block("git", bin, "gitfu run")] + Blocks(bin, ShimNames(entries));
    if |parts| > 1 {
      assert Join(parts, "\n\n") == parts[0] + "\n\n" + Join(parts[1..], "\n\n");
      assert (parts[0] + "\n\n" + Join(parts[1..], "\n\n"))[..|parts[0]|] == parts[0];
    }
  }

  // ---------------------------------------------------------------- _get_binary_directory

  /** `os.path.split(p)[0]`: everything up to the last '/', without trailing slashes
      unless it is all slashes. */
  function PathHead(p: string): string {
    var head := p[..SlashEnd(p)];
    if head != [] && exists j :: 0 <= j < |head| && head[j] != '/' then StripEnd(head, {'/'}) else head
  }

  /** The head is a prefix of the path and shorter than it, unless it is the path itself. */
  lemma PathHeadShrinks(p: string)
    ensures var h := PathHead(p);
            |h| <= |p| && p[..|h|] == h && (|h| == |p| ==> h == p)
  {
    var i := SlashEnd(p);
    var head := p[..i];
    if head != [] && exists j :: 0 <= j < |head| && head[j] != '/' {
      StripEndSpec(head, {'/'});
      var r := StripEnd(head, {'/'});
      if i == |p| {
        assert head[|head| - 1] == '/';
      }
      assert p[..|r|] == head[..|r|];
    }
  }

  /** `python_regex.match(directory)` for `(?P<prefix>.*?)\/python3\.\d+$`: the path
      ends in `/python3.` followed by one or more digits. */
  predicate IsPythonDir(d: string) {
    var n := TrailingDigits(d);
    n > 0 && EndsWith(d[..|d| - n], "/python3.")
  }

  function TrailingDigits(s: string): (n: nat)
    ensures n <= |s|
    ensures forall j :: |s| - n <= j < |s| ==> '0' <= s[j] <= '9'
    ensures n < |s| ==> !('0' <= s[|s| - n - 1] <= '9')
  {
    if s != [] && '0' <= s[|s| - 1] <= '9' then 1 + TrailingDigits(s[..|s| - 1]) else 0
  }

  /** Where the ascent from `d` stops: the first `python3.N` directory, or the top. */
  function Ascend(d: string): string
    decreases |d|
  {
    if IsPythonDir(d) then d
    else
      var h := PathHead(d);
      PathHeadShrinks(d);
      if h == d then d else Ascend(h)
  }

  /** The loop of `_get_binary_directory`, from the package directory. */
  method AscendLoop(start: string) returns (directory: string)
    ensures directory == Ascend(start)
  {
    directory := start;
    while !IsPythonDir(directory)
      invariant Ascend(directory) == Ascend(start)
      decreases |directory|
    {
      var h := PathHead(directory);
      PathHeadShrinks(directory);
      if h == directory {
        break;
      }
      directory := h;
    }
  }

  /** The ascent ends at an ancestor of the start that is a `python3.N` directory or has
      no parent. */
  lemma {:induction false} AscendSpec(d: string)
    ensures var r := Ascend(d);
            StartsWith(d, r) && (IsPythonDir(r) || PathHead(r) == r)
    decreases |d|
  {
    if !IsPythonDir(d) {
      var h := PathHead(d);
      PathHeadShrinks(d);
      if h != d {
        AscendSpec(h);
        var r := Ascend(h);
        assert d[..|r|] == h[..|r|];
      }
    }
  }

  /** The environment `get_bash_shim` looks at: the directory of the package source,
      the entries of its `standalone` directory, and `os.path.realpath`. */
  datatype Install = Install(packageDir: string, standalone: seq<string>, realpath: string -> string)

  /** `os.path.join(d, tail)` */
  function PathJoin(d: string, tail: string): string {
    if d == [] || EndsWith(d, "/") then d + tail else d + "/" + tail
  }

  const Unconventional: string :=
    "This python install does not follow regular conventions. Are you using an editable installation? (e.g. `pip install -e`)"

  /** `_get_binary_directory()`: the `bin` directory two levels above the `python3.N`
      directory; a directory that never matched and ends at `/` is unsupported. */
  function BinaryDirectory(install: Install): (r: Result<string>)
    ensures r.Raised? <==> Ascend(install.packageDir) == "/"
    ensures r.Raised? ==> r.exc == NotImplementedError(Unconventional)
    ensures r.Ok? ==> r.value == install.realpath(PathJoin(Ascend(install.packageDir), "../../bin"))
  {
    var d := Ascend(install.packageDir);
    if d == "/" then Raised(NotImplementedError(Unconventional))
    else Ok(install.realpath(PathJoin(d, "../../bin")))
  }

  /** `get_bash_shim(bin_directory)`; a missing or empty directory is looked up. */
  function BashShim(directory: Option<string>, install: Install): (r: Result<string>)
    ensures directory.Some? && directory.value != [] ==> r == Ok(Shim(directory.value, install.standalone))
    ensures (directory.None? || directory.value == []) && Ascend(install.packageDir) == "/" ==>
              r == Raised(NotImplementedError(Unconventional))
    ensures directory.None? || directory.value == [] ==>
              && (r.Ok? <==> BinaryDirectory(install).Ok?)
              && (r.Ok? ==> r.value == Shim(BinaryDirectory(install).value, install.standalone))
  {
    if directory.Some? && directory.value != [] then Ok(Shim(directory.value, install.standalone))
    else match BinaryDirectory(install)
      case Raised(e) => Raised(e)
      case Ok(bin) => Ok(Shim(bin, install.standalone))
  }

  // ---------------------------------------------------------------- run

  /** What `run()` ends in: the shim printed (status 0), or `main()` called with
      `sys.argv` replaced. */
  datatype Dispatch = ShowShim(shim: string) | Delegate(argv: seq<string>)

  /** `run()`. `sys.argv` always holds the program name. */
  function RunEntry(argv: seq<string>, parser: ArgParser, install: Install): (r: Result<Dispatch>)
    requires argv != []
    ensures ParsedArgs(argv, parser).Raised? ==> r == Raised(ParsedArgs(argv, parser).exc)
    ensures r.Ok? && r.value.ShowShim? ==>
              && ParsedArgs(argv, parser).Ok? && ParsedArgs(argv, parser).value.0.mode == Some("init")
              && BashShim(ParsedArgs(argv, parser).value.0.directory, install) == Ok(r.value.shim)
    ensures ParsedArgs(argv, parser).Ok? && ParsedArgs(argv, parser).value.0.mode != Some("init") ==>
              r == Ok(Delegate([argv[0]] + ParsedArgs(argv, parser).value.1))
    ensures ParsedArgs(argv, parser).Ok? && ParsedArgs(argv, parser).value.0.mode == Some("init") ==>
              var shim := BashShim(ParsedArgs(argv, parser).value.0.directory, install);
              && (r.Ok? <==> shim.Ok?)
              && (r.Ok? ==> r.value == ShowShim(shim.value))
              && (r.Raised? ==> r.exc == shim.exc)
  {
    match ParsedArgs(argv, parser)
    case Raised(e) => Raised(e)
    case Ok(parsed) =>
      if parsed.0.mode == Some("init") then
        match BashShim(parsed.0.directory, install)
        case Raised(e) => Raised(e)
        case Ok(shim) => Ok(ShowShim(shim))
      else Ok(Delegate([argv[0]] + parsed.1))
  }
}
