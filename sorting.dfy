/** `sorted(names)` on strings, as an insertion sort under the code-point order. */
module Sorting {
  import opened Text

  predicate Sorted(s: seq<string>) {
    forall i, j :: 0 <= i < j < |s| ==> LessEq(s[i], s[j])
  }

  lemma PrependSorted(a: string, t: seq<string>)
    requires Sorted(t)
    requires forall e :: e in t ==> LessEq(a, e)
    ensures Sorted([a] + t)
  {
    forall i, j | 0 <= i < j < |[a] + t| ensures LessEq(([a] + t)[i], ([a] + t)[j]) {
      if i == 0 {
        assert ([a] + t)[j] == t[j - 1];
        assert t[j - 1] in t;
      } else {
        assert ([a] + t)[i] == t[i - 1] && ([a] + t)[j] == t[j - 1];
      }
    }
  }

  lemma LowerBound(y: string, t: seq<string>, s: seq<string>, x: string)
    requires multiset(t) == multiset(s) + multiset{x}
    requires LessEq(y, x)
    requires forall e :: e in s ==> LessEq(y, e)
    ensures forall e :: e in t ==> LessEq(y, e)
  {
    forall e | e in t ensures LessEq(y, e) {
      assert e in multiset(t);
      if e != x {
        assert e in multiset(s);
      }
    }
  }

  lemma HeadBound(s: seq<string>)
    requires Sorted(s) && s != []
    ensures forall e :: e in s[1..] ==> LessEq(s[0], e)
  {
    forall e | e in s[1..] ensures LessEq(s[0], e) {
      var k :| 0 <= k < |s[1..]| && s[1..][k] == e;
      assert s[k + 1] == e;
    }
  }

  /** Inserts `x` into a sorted list at its place. */
  function Insert(x: string, s: seq<string>): (r: seq<string>)
    requires Sorted(s)
    ensures multiset(r) == multiset(s) + multiset{x}
    ensures Sorted(r)
  {
    if s == [] then [x]
    else if LessEq(x, s[0]) then
      HeadBound(s);
      assert forall e :: e in s ==> e == s[0] || e in s[1..] by {
        forall e | e in s ensures e == s[0] || e in s[1..] {
          var k :| 0 <= k < |s| && s[k] == e;
          if k > 0 { assert s[1..][k - 1] == e; }
        }
      }
      forall e | e in s ensures LessEq(x, e) {
        if e != s[0] { LessEqTransitive(x, s[0], e); }
      }
      PrependSorted(x, s);
      [x] + s
    else
      LessEqTotal(x, s[0]);
      HeadBound(s);
      var t := Insert(x, s[1..]);
      LowerBound(s[0], t, s[1..], x);
      PrependSorted(s[0], t);
      assert s == [s[0]] + s[1..];
      [s[0]] + t
  }

  /** `sorted(s)`: the same strings, in ascending order. */
  function Sort(s: seq<string>): (r: seq<string>)
    ensures multiset(r) == multiset(s)
    ensures Sorted(r)
  {
    if s == [] then []
    else
      assert s == [s[0]] + s[1..];
      Insert(s[0], Sort(s[1..]))
  }

  /** The first element of a non-empty sorted list is below every element of it. */
  lemma HeadIsLeast(s: seq<string>, e: string)
    requires Sorted(s) && e in s
    ensures LessEq(s[0], e)
  {
    var k :| 0 <= k < |s| && s[k] == e;
    if k == 0 { LessEqReflexive(e); }
  }

  lemma SameHeads(a: seq<string>, b: seq<string>)
    requires Sorted(a) && Sorted(b) && multiset(a) == multiset(b) && a != []
    ensures b != [] && a[0] == b[0]
  {
    assert a[0] in multiset(b);
    assert b[0] in multiset(a);
    HeadIsLeast(b, a[0]);
    HeadIsLeast(a, b[0]);
    LessEqAntisymmetric(a[0], b[0]);
  }

  lemma TailMultiset(a: seq<string>)
    requires a != []
    ensures multiset(a[1..]) == multiset(a) - multiset{a[0]}
  {
    assert a == [a[0]] + a[1..];
  }

  /** Only one ordering is sorted, so the sort agrees with Python's `sorted(…)` whatever
      its algorithm. */
  lemma {:induction false} SortedUnique(a: seq<string>, b: seq<string>)
    requires Sorted(a) && Sorted(b) && multiset(a) == multiset(b)
    ensures a == b
    decreases |a|
  {
    if a != [] {
      SameHeads(a, b);
      TailMultiset(a);
      TailMultiset(b);
      SortedUnique(a[1..], b[1..]);
      assert a == [a[0]] + a[1..] && b == [b[0]] + b[1..];
    } else {
      assert |b| == |multiset(b)|;
    }
  }
}
