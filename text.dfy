/** The handful of Python `str` operations the commands rely on, over `seq<char>`.
    Whitespace and case are ASCII only; line splitting is on '\n' only. */
module Text {

  datatype Option<T> = None | Some(value: T)

  /** `s.startswith(p)` */
  predicate StartsWith(s: string, p: string) {
    |p| <= |s| && s[..|p|] == p
  }

  /** `s.endswith(p)` */
  predicate EndsWith(s: string, p: string) {
    |p| <= |s| && s[|s| - |p|..] == p
  }

  /** `sub in s`: `sub` occurs in `s` at some offset. */
  predicate Contains(s: string, sub: string) {
    exists i | 0 <= i <= |s| :: StartsWith(s[i..], sub)
  }

  lemma ContainsAt(s: string, sub: string, i: nat)
    requires i + |sub| <= |s| && s[i..i + |sub|] == sub
    ensures Contains(s, sub)
  {
    assert StartsWith(s[i..], sub);
  }

  lemma ContainsEmpty(s: string)
    ensures Contains(s, "")
  {
    assert StartsWith(s[0..], "");
  }

  lemma ContainsSelf(s: string)
    ensures Contains(s, s)
  {
    assert s[0..] == s;
    assert StartsWith(s[0..], s);
  }

  lemma {:induction false} ContainsLength(s: string, sub: string)
    requires Contains(s, sub)
    ensures |sub| <= |s|
  {
    var i :| 0 <= i <= |s| && StartsWith(s[i..], sub);
  }

  /** A text without the first character of `sub` does not contain `sub`. */
  lemma MissingFirstChar(s: string, sub: string)
    requires sub != [] && sub[0] !in s
    ensures !Contains(s, sub)
  {
    forall i | 0 <= i <= |s| ensures !StartsWith(s[i..], sub) {
      if i < |s| && |sub| <= |s[i..]| {
        assert s[i..][..|sub|][0] == s[i];
      }
    }
  }

  /** `s[k:]` for a non-negative `k`: Python slicing never fails. */
  function Drop(s: string, k: nat): (r: string)
    ensures |r| == if k <= |s| then |s| - k else 0
  {
    if k <= |s| then s[k..] else []
  }

  /** `s[:k]` for a non-negative `k`. */
  function Take(s: string, k: nat): (r: string)
    ensures |r| == if k <= |s| then k else |s|
    ensures StartsWith(s, r)
  {
    if k <= |s| then s[..k] else s
  }

  /** `c.isspace()` restricted to ASCII. */
  predicate IsSpace(c: char) {
    c == ' ' || ('\t' <= c <= '\r') || ('\U{1C}' <= c <= '\U{1F}')
  }

  function LowerChar(c: char): char {
    if 'A' <= c <= 'Z' then (c as int + 32) as char else c
  }

  function UpperChar(c: char): char {
    if 'a' <= c <= 'z' then (c as int - 32) as char else c
  }

  /** `s.lower()` */
  function Lower(s: string): (r: string)
    ensures |r| == |s|
    ensures forall i :: 0 <= i < |s| ==> r[i] == LowerChar(s[i])
  {
    if s == [] then [] else [LowerChar(s[0])] + Lower(s[1..])
  }

  /** `s.upper()` */
  function Upper(s: string): (r: string)
    ensures |r| == |s|
    ensures forall i :: 0 <= i < |s| ==> r[i] == UpperChar(s[i])
  {
    if s == [] then [] else [UpperChar(s[0])] + Upper(s[1..])
  }

  /** Case folding only changes letters, never whitespace. */
  lemma LowerKeepsSpace(c: char)
    ensures IsSpace(LowerChar(c)) == IsSpace(c)
  {
  }

  /** Leading characters from `cs` removed. */
  function StripStart(s: string, cs: set<char>): string {
    if s != [] && s[0] in cs then StripStart(s[1..], cs) else s
  }

  /** Trailing characters from `cs` removed. */
  function StripEnd(s: string, cs: set<char>): string {
    if s != [] && s[|s| - 1] in cs then StripEnd(s[..|s| - 1], cs) else s
  }

  /** What `StripStart` removes is a run of characters of `cs`, and what it keeps is a
      suffix that does not begin with one. */
  lemma {:induction false} StripStartSpec(s: string, cs: set<char>)
    ensures var r := StripStart(s, cs);
            && |r| <= |s| && s[|s| - |r|..] == r
            && (r == [] || r[0] !in cs)
            && forall i :: 0 <= i < |s| - |r| ==> s[i] in cs
  {
    if s != [] && s[0] in cs {
      StripStartSpec(s[1..], cs);
    }
  }

  /** What `StripEnd` removes is a run of characters of `cs`, and what it keeps is a
      prefix that does not end with one. */
  lemma {:induction false} StripEndSpec(s: string, cs: set<char>)
    ensures var r := StripEnd(s, cs);
            && |r| <= |s| && s[..|r|] == r
            && (r == [] || r[|r| - 1] !in cs)
            && forall i :: |r| <= i < |s| ==> s[i] in cs
  {
    if s != [] && s[|s| - 1] in cs {
      StripEndSpec(s[..|s| - 1], cs);
    }
  }

  /** `s.strip(chars)` */
  function Strip(s: string, cs: set<char>): string {
    StripEnd(StripStart(s, cs), cs)
  }

  /** The characters `s.strip('* ')` removes: a branch listing's marker and padding. */
  const Marker: set<char> := {'*', ' '}

  /** `[l.strip(cs) for l in lines]` */
  function StripEach(lines: seq<string>, cs: set<char>): (r: seq<string>)
    ensures |r| == |lines|
    ensures forall i :: 0 <= i < |lines| ==> r[i] == Strip(lines[i], cs)
  {
    if lines == [] then [] else [Strip(lines[0], cs)] + StripEach(lines[1..], cs)
  }

  const Whitespace: set<char> :=
    {' ', '\t', '\n', '\U{B}', '\U{C}', '\r', '\U{1C}', '\U{1D}', '\U{1E}', '\U{1F}'}

  lemma WhitespaceIsSpace(c: char)
    ensures c in Whitespace <==> IsSpace(c)
  {
  }

  /** `s.strip()` */
  function StripSpace(s: string): string {
    Strip(s, Whitespace)
  }

  /** `s.rstrip()` */
  function RStripSpace(s: string): string {
    StripEnd(s, Whitespace)
  }

  /** Length of the leading run of non-whitespace characters. */
  function TokenLength(s: string): (n: nat)
    ensures n <= |s|
    ensures forall i :: 0 <= i < n ==> !IsSpace(s[i])
    ensures n < |s| ==> IsSpace(s[n])
  {
    if s == [] || IsSpace(s[0]) then 0 else 1 + TokenLength(s[1..])
  }

  /** `s.split()[0]`, or `None` where Python raises IndexError (`s` is blank). */
  function FirstToken(s: string): (r: Option<string>)
    ensures r.Some? ==> r.value != [] && forall i :: 0 <= i < |r.value| ==> !IsSpace(r.value[i])
    ensures r.None? <==> forall i :: 0 <= i < |s| ==> IsSpace(s[i])
  {
    var t := SkipSpace(s);
    if t == [] then None else Some(t[..TokenLength(t)])
  }

  /** Leading whitespace removed. */
  function SkipSpace(s: string): (r: string)
    ensures |r| <= |s| && s[|s| - |r|..] == r
    ensures r == [] || !IsSpace(r[0])
    ensures forall i :: 0 <= i < |s| - |r| ==> IsSpace(s[i])
  {
    if s != [] && IsSpace(s[0]) then SkipSpace(s[1..]) else s
  }

  /** `[l.split()[0] for l in lines]`; `None` where a blank line makes it raise
      IndexError. */
  function FirstTokens(lines: seq<string>): (r: Option<seq<string>>)
    ensures r.None? <==> exists i :: 0 <= i < |lines| && FirstToken(lines[i]).None?
    ensures r.Some? ==> |r.value| == |lines| && forall i :: 0 <= i < |lines| ==> Some(r.value[i]) == FirstToken(lines[i])
  {
    if lines == [] then Some([])
    else match FirstToken(lines[0])
      case None => None
      case Some(t) =>
        match FirstTokens(lines[1..])
        case None =>
          var i :| 0 <= i < |lines[1..]| && FirstToken(lines[1..][i]).None?;
          assert FirstToken(lines[i + 1]).None?;
          None
        case Some(ts) =>
          assert forall i :: 0 < i < |lines| ==> lines[i] == lines[1..][i - 1];
          Some([t] + ts)
  }

  /** `[s[k:] for s in strings]` */
  function DropEach(strings: seq<string>, k: nat): (r: seq<string>)
    ensures |r| == |strings|
    ensures forall i :: 0 <= i < |strings| ==> r[i] == Drop(strings[i], k)
  {
    if strings == [] then [] else [Drop(strings[0], k)] + DropEach(strings[1..], k)
  }

  /** `s.replace(a, b)` for single characters. */
  function ReplaceChar(s: string, a: char, b: char): (r: string)
    ensures |r| == |s|
    ensures forall i :: 0 <= i < |s| ==> r[i] == if s[i] == a then b else s[i]
  {
    if s == [] then [] else [if s[0] == a then b else s[0]] + ReplaceChar(s[1..], a, b)
  }

  /** Index of the first `c` in `s`, or `|s|`. */
  function IndexOf(s: string, c: char): (i: nat)
    ensures i <= |s|
    ensures i < |s| ==> s[i] == c
    ensures forall j :: 0 <= j < i ==> s[j] != c
  {
    if s == [] then 0 else if s[0] == c then 0 else 1 + IndexOf(s[1..], c)
  }

  /** `s.splitlines()` with '\n' as the only line boundary: a final '\n' does
      not open an empty last line, and the empty string has no lines. */
  function SplitLines(s: string): (lines: seq<string>)
    ensures forall k :: 0 <= k < |lines| ==> '\n' !in lines[k]
    decreases |s|
  {
    if s == [] then []
    else
      var i := IndexOf(s, '\n');
      if i == |s| then [s] else [s[..i]] + SplitLines(s[i + 1..])
  }

  /** `sep.join(parts)` */
  function Join(parts: seq<string>, sep: string): string {
    if parts == [] then [] else if |parts| == 1 then parts[0] else parts[0] + sep + Join(parts[1..], sep)
  }

  /** Splitting at a line that has no '\n' peels that line off. */
  lemma SplitLinesCons(a: string, rest: string)
    requires '\n' !in a
    ensures SplitLines(a + "\n" + rest) == [a] + SplitLines(rest)
  {
    var s := a + "\n" + rest;
    var i := IndexOf(s, '\n');
    assert s[|a|] == '\n';
    assert forall j :: 0 <= j < |a| ==> s[j] == a[j];
    assert i == |a|;
    assert s[..i] == a;
    assert s[i + 1..] == rest;
  }

  /** A single line without '\n' is its own splitting. */
  lemma SplitLinesOne(a: string)
    requires '\n' !in a && a != []
    ensures SplitLines(a) == [a]
  {
    assert IndexOf(a, '\n') == |a|;
  }

  /** Splitting and joining with '\n' round-trips every text that does not end in '\n'. */
  lemma {:induction false} JoinSplitLines(s: string)
    requires s == [] || s[|s| - 1] != '\n'
    ensures Join(SplitLines(s), "\n") == s
    decreases |s|
  {
    if s != [] {
      var i := IndexOf(s, '\n');
      if i < |s| {
        var rest := s[i + 1..];
        assert rest != [] by { assert s[i] != s[|s| - 1]; }
        JoinSplitLines(rest);
        assert s == s[..i] + "\n" + rest;
      }
    }
  }

  /** Joining lines that hold no '\n' with '\n' and splitting again gives them back,
      provided no line is empty (an empty last line would vanish). */
  lemma {:induction false} SplitLinesJoin(lines: seq<string>)
    requires forall k :: 0 <= k < |lines| ==> '\n' !in lines[k] && lines[k] != []
    ensures SplitLines(Join(lines, "\n")) == lines
  {
    if |lines| == 1 {
      SplitLinesOne(lines[0]);
    } else if |lines| > 1 {
      SplitLinesJoin(lines[1..]);
      SplitLinesCons(lines[0], Join(lines[1..], "\n"));
      assert lines == [lines[0]] + lines[1..];
    }
  }

  /** Decimal digits of a natural number, as `str(n)` prints it. */
  function Decimal(n: nat): (r: string)
    ensures r != [] && forall i :: 0 <= i < |r| ==> '0' <= r[i] <= '9'
  {
    var d := ['0' + (n % 10) as char];
    if n < 10 then d else Decimal(n / 10) + d
  }

  /** Python's code-point ordering of strings. */
  predicate LessEq(a: string, b: string)
    decreases |a|
  {
    a == [] || (b != [] && (a[0] < b[0] || (a[0] == b[0] && LessEq(a[1..], b[1..]))))
  }

  lemma {:induction false} LessEqTotal(a: string, b: string)
    ensures LessEq(a, b) || LessEq(b, a)
    decreases |a|
  {
    if a != [] && b != [] && a[0] == b[0] {
      LessEqTotal(a[1..], b[1..]);
    }
  }

  lemma {:induction false} LessEqReflexive(a: string)
    ensures LessEq(a, a)
    decreases |a|
  {
    if a != [] {
      LessEqReflexive(a[1..]);
    }
  }

  lemma {:induction false} LessEqTransitive(a: string, b: string, c: string)
    requires LessEq(a, b) && LessEq(b, c)
    ensures LessEq(a, c)
    decreases |a|
  {
    if a != [] && b != [] && c != [] && a[0] == b[0] && b[0] == c[0] {
      LessEqTransitive(a[1..], b[1..], c[1..]);
    }
  }

  lemma {:induction false} LessEqAntisymmetric(a: string, b: string)
    requires LessEq(a, b) && LessEq(b, a)
    ensures a == b
    decreases |a|
  {
    if a != [] && b != [] {
      LessEqAntisymmetric(a[1..], b[1..]);
      assert a == [a[0]] + a[1..] && b == [b[0]] + b[1..];
    }
  }

  /** `[x for x in s if sub in x]` */
  function Filter(s: seq<string>, sub: string): (r: seq<string>)
    ensures forall x :: x in r <==> x in s && Contains(x, sub)
    ensures |r| <= |s|
  {
    if s == [] then []
    else (if Contains(s[0], sub) then [s[0]] else []) + Filter(s[1..], sub)
  }

  /** Filtering keeps the order: it distributes over concatenation. */
  lemma {:induction false} FilterAppend(a: seq<string>, b: seq<string>, sub: string)
    ensures Filter(a + b, sub) == Filter(a, sub) + Filter(b, sub)
  {
    if a == [] {
      assert a + b == b;
    } else {
      assert (a + b)[1..] == a[1..] + b;
      FilterAppend(a[1..], b, sub);
    }
  }

  /** `s` without the occurrences of `x`: a set difference with `{x}`, order kept. */
  function Without(s: seq<string>, x: string): (r: seq<string>)
    ensures forall y :: y in r <==> y in s && y != x
  {
    if s == [] then []
    else (if s[0] == x then [] else [s[0]]) + Without(s[1..], x)
  }

  /** No element occurs twice. */
  predicate NoDuplicates(s: seq<string>) {
    forall i, j :: 0 <= i < j < |s| ==> s[i] != s[j]
  }

  /** The elements of `s`, each once, in order of first appearance. */
  function Distinct(s: seq<string>): (r: seq<string>)
    ensures forall x :: x in r <==> x in s
    ensures NoDuplicates(r)
  {
    if s == [] then []
    else
      var r := Distinct(s[..|s| - 1]);
      assert forall x :: x in s <==> x in s[..|s| - 1] || x == s[|s| - 1] by {
        assert s == s[..|s| - 1] + [s[|s| - 1]];
      }
      if s[|s| - 1] in r then r else r + [s[|s| - 1]]
  }

  /** A list without duplicates has as many elements as the set of them. */
  lemma {:induction false} DistinctCard(r: seq<string>)
    requires NoDuplicates(r)
    ensures |set x | x in r| == |r|
  {
    if r != [] {
      DistinctCard(r[1..]);
      assert (set x | x in r) == (set x | x in r[1..]) + {r[0]} by {
        assert r == [r[0]] + r[1..];
      }
      assert r[0] !in (set x | x in r[1..]);
    }
  }
}
