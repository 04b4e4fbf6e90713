/**
 * Sequence helpers shared by every store and filter of the shop: the
 * order-preserving filter behind `Array.prototype.filter` and the
 * first-match search behind `Array.prototype.find`.
 */
module Seqs {
  import opened Wrappers

  /** `r` can be obtained from `s` by deleting elements, the rest kept in order. */
  predicate IsSubsequence<T(==)>(r: seq<T>, s: seq<T>)
    decreases |s|
  {
    if |r| == 0 then true
    else if |s| == 0 then false
    else (r[0] == s[0] && IsSubsequence(r[1..], s[1..])) || IsSubsequence(r, s[1..])
  }

  /**
   * The elements of `s` that satisfy `keep`, in their original order.
   * See FilterCounts for multiplicities.
   */
  function Filter<T(==,!new)>(s: seq<T>, keep: T -> bool): (r: seq<T>)
    ensures |r| <= |s|
    ensures forall x :: x in r <==> x in s && keep(x)
    ensures IsSubsequence(r, s)
    ensures (forall i :: 0 <= i < |s| ==> keep(s[i])) ==> r == s
  {
    if |s| == 0 then []
    else
      var rest := Filter(s[1..], keep);
      assert s == [s[0]] + s[1..];
      if keep(s[0]) then
        var r := [s[0]] + rest;
        assert r[1..] == rest;
        r
      else rest
  }

  /**
   * Every kept element keeps all of its occurrences, every dropped one
   * loses all of them; with order, this pins the filter down.
   */
  lemma {:induction false} FilterCounts<T(!new)>(s: seq<T>, keep: T -> bool)
    ensures forall x :: multiset(Filter(s, keep))[x] == if keep(x) then multiset(s)[x] else 0
  {
    if |s| > 0 {
      FilterCounts(s[1..], keep);
      assert s == [s[0]] + s[1..];
    }
  }

  /** Filtering a sequence with a known head. */
  lemma FilterCons<T(!new)>(x: T, s: seq<T>, keep: T -> bool)
    ensures Filter([x] + s, keep) == (if keep(x) then [x] else []) + Filter(s, keep)
  {
    assert ([x] + s)[1..] == s;
  }

  /** Filtering a three-element sequence, spelled out. */
  lemma FilterOfThree<T(!new)>(a: T, b: T, c: T, keep: T -> bool)
    ensures Filter([a, b, c], keep)
         == (if keep(a) then [a] else []) + (if keep(b) then [b] else []) + (if keep(c) then [c] else [])
  {
    var ka, kb, kc := if keep(a) then [a] else [], if keep(b) then [b] else [], if keep(c) then [c] else [];
    calc {
      Filter([a, b, c], keep);
    == { assert [a, b, c] == [a] + [b, c]; FilterCons(a, [b, c], keep); }
      ka + Filter([b, c], keep);
    == { assert [b, c] == [b] + [c]; FilterCons(b, [c], keep); }
      ka + (kb + Filter([c], keep));
    == { assert [c] == [c] + []; FilterCons(c, [], keep); }
      ka + (kb + kc);
    }
  }

  /** Filtering distributes over concatenation. */
  lemma {:induction false} FilterAppend<T(!new)>(a: seq<T>, b: seq<T>, keep: T -> bool)
    ensures Filter(a + b, keep) == Filter(a, keep) + Filter(b, keep)
  {
    if |a| == 0 {
      assert a + b == b;
    } else {
      assert (a + b)[1..] == a[1..] + b;
      FilterAppend(a[1..], b, keep);
    }
  }

  /** Index of the first element of `s` that passes `test`, if any. */
  function Find<T>(s: seq<T>, test: T -> bool): (r: Option<nat>)
    ensures r.Some? ==> r.value < |s| && test(s[r.value])
    ensures r.Some? ==> forall j :: 0 <= j < r.value ==> !test(s[j])
    ensures r.None? <==> forall j :: 0 <= j < |s| ==> !test(s[j])
  {
    if |s| == 0 then None
    else if test(s[0]) then Some(0)
    else
      match Find(s[1..], test)
      case None => None
      case Some(i) => Some(i + 1)
  }

  /**
   * A subsequence keeps every pairwise property of the sequence it was cut
   * from, and only holds elements of it.
   */
  lemma {:induction false} SubsequencePairwise<T>(r: seq<T>, s: seq<T>, ok: (T, T) -> bool)
    requires IsSubsequence(r, s)
    requires forall i, j :: 0 <= i < j < |s| ==> ok(s[i], s[j])
    ensures forall i, j :: 0 <= i < j < |r| ==> ok(r[i], r[j])
    ensures forall i :: 0 <= i < |r| ==> r[i] in s
    decreases |s|
  {
    if |r| == 0 {
    } else if r[0] == s[0] && IsSubsequence(r[1..], s[1..]) {
      SubsequencePairwise(r[1..], s[1..], ok);
      forall i, j | 0 <= i < j < |r|
        ensures ok(r[i], r[j])
      {
        if i == 0 {
          assert r[j] == r[1..][j - 1];
          var k :| 0 <= k < |s[1..]| && s[1..][k] == r[j];
          assert s[k + 1] == r[j];
        } else {
          assert r[i] == r[1..][i - 1] && r[j] == r[1..][j - 1];
        }
      }
      forall i | 0 <= i < |r|
        ensures r[i] in s
      {
        if i > 0 {
          assert r[i] == r[1..][i - 1];
        }
      }
    } else {
      assert forall i, j :: 0 <= i < j < |s[1..]| ==> s[1..][i] == s[i + 1] && s[1..][j] == s[j + 1];
      SubsequencePairwise(r, s[1..], ok);
    }
  }

  /** Cutting out position `i > 0` commutes with taking the head off. */
  lemma CutAfterHead<T>(s: seq<T>, i: nat)
    requires 0 < i < |s|
    ensures s[..i] + s[i + 1..] == [s[0]] + (s[1..][..i - 1] + s[1..][i..])
  {
  }

  /** Filters with pointwise-equal tests give the same result. */
  lemma {:induction false} FilterCongruent<T(!new)>(s: seq<T>, f: T -> bool, g: T -> bool)
    requires forall i :: 0 <= i < |s| ==> f(s[i]) == g(s[i])
    ensures Filter(s, f) == Filter(s, g)
  {
    if |s| > 0 {
      FilterCongruent(s[1..], f, g);
    }
  }
}
