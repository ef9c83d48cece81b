/**
 * JavaScript's `array.filter(p)` described by the indices it keeps: the
 * kept elements are exactly those satisfying `p`, each once, in their
 * original order.
 */
module Sequences {

  /** Every index of `idx` is an index of `s` whose element satisfies `p`. */
  predicate OnlyMatches<T>(idx: seq<int>, s: seq<T>, p: T -> bool) {
    forall k :: 0 <= k < |idx| ==> 0 <= idx[k] < |s| && p(s[idx[k]])
  }

  predicate Increasing(idx: seq<int>) {
    forall k, l :: 0 <= k < l < |idx| ==> idx[k] < idx[l]
  }

  /** Every index of `s` whose element satisfies `p` is in `idx`. */
  predicate AllMatches<T>(idx: seq<int>, s: seq<T>, p: T -> bool) {
    forall i :: 0 <= i < |s| && p(s[i]) ==> i in idx
  }

  /** `idx` lists, in increasing order, exactly the indices of `s` whose element satisfies `p`. */
  predicate EnumeratesMatches<T>(idx: seq<int>, s: seq<T>, p: T -> bool) {
    OnlyMatches(idx, s, p) && Increasing(idx) && AllMatches(idx, s, p)
  }

  /** Every index moved one place to the right. */
  function Shift(idx: seq<int>): (r: seq<int>)
    ensures |r| == |idx| && forall k :: 0 <= k < |idx| ==> r[k] == idx[k] + 1
  {
    seq(|idx|, k requires 0 <= k < |idx| => idx[k] + 1)
  }

  /** The indices of the elements of `s` that satisfy `p`, in increasing order. */
  function Matches<T>(s: seq<T>, p: T -> bool): (idx: seq<int>)
    ensures EnumeratesMatches(idx, s, p)
  {
    if |s| == 0 then []
    else
      var rest := Matches(s[1..], p);
      OnlyMatchesStep(s, p, rest);
      AllMatchesStep(s, p, rest);
      (if p(s[0]) then [0] else []) + Shift(rest)
  }

  lemma OnlyMatchesStep<T>(s: seq<T>, p: T -> bool, rest: seq<int>)
    requires |s| > 0 && OnlyMatches(rest, s[1..], p) && Increasing(rest)
    ensures var idx := (if p(s[0]) then [0] else []) + Shift(rest);
      OnlyMatches(idx, s, p) && Increasing(idx)
  {
    var head: seq<int> := if p(s[0]) then [0] else [];
    var idx := head + Shift(rest);
    forall k | 0 <= k < |idx| ensures 0 <= idx[k] < |s| && p(s[idx[k]]) {
      if k >= |head| {
        var j := rest[k - |head|];
        assert idx[k] == j + 1;
        assert s[j + 1] == s[1..][j];
      }
    }
  }

  lemma AllMatchesStep<T>(s: seq<T>, p: T -> bool, rest: seq<int>)
    requires |s| > 0 && AllMatches(rest, s[1..], p)
    ensures AllMatches((if p(s[0]) then [0] else []) + Shift(rest), s, p)
  {
    var head: seq<int> := if p(s[0]) then [0] else [];
    var idx := head + Shift(rest);
    forall i | 0 <= i < |s| && p(s[i]) ensures i in idx {
      if i == 0 {
        assert idx[0] == 0;
      } else {
        assert s[1..][i - 1] == s[i];
        assert i - 1 in rest;
        var k :| 0 <= k < |rest| && rest[k] == i - 1;
        assert idx[|head| + k] == i;
      }
    }
  }

  /**
   * `s.filter(p)`: exactly the elements satisfying `p`, never more of them
   * than `s` has, and all of `s` when every element satisfies `p`.
   * `FilterIndices` fixes the order and the number of each.
   */
  function Filter<T(!new)>(s: seq<T>, p: T -> bool): (r: seq<T>)
    ensures forall x :: x in r <==> x in s && p(x)
    ensures |r| <= |s|
    ensures (forall k :: 0 <= k < |s| ==> p(s[k])) ==> r == s
  {
    if |s| == 0 then []
    else (if p(s[0]) then [s[0]] else []) + Filter(s[1..], p)
  }

  /** The filter keeps the elements at the matching indices, in order. */
  lemma {:induction false} FilterIndices<T(!new)>(s: seq<T>, p: T -> bool)
    ensures |Filter(s, p)| == |Matches(s, p)|
    ensures forall k :: 0 <= k < |Filter(s, p)| ==> Filter(s, p)[k] == s[Matches(s, p)[k]]
  {
    if |s| > 0 {
      FilterIndices(s[1..], p);
      FilterStep(s, p(s[0]), Filter(s[1..], p), Matches(s[1..], p));
    }
  }

  /** Picking index 0 or not, then the shifted picks of the tail, picks the same elements. */
  lemma FilterStep<T>(s: seq<T>, keep: bool, rest: seq<T>, tail: seq<int>)
    requires |s| > 0 && |rest| == |tail|
    requires forall k :: 0 <= k < |tail| ==> 0 <= tail[k] < |s| - 1 && rest[k] == s[1..][tail[k]]
    ensures var r := (if keep then [s[0]] else []) + rest;
      var idx := (if keep then [0] else []) + Shift(tail);
      |r| == |idx| && forall k :: 0 <= k < |r| ==> r[k] == s[idx[k]]
  {
    var head: seq<T> := if keep then [s[0]] else [];
    var idx := (if keep then [0] else []) + Shift(tail);
    var r := head + rest;
    forall k | 0 <= k < |r| ensures r[k] == s[idx[k]] {
      if k >= |head| {
        var j := tail[k - |head|];
        assert idx[k] == j + 1;
        assert s[1..][j] == s[j + 1];
      }
    }
  }

  /** Two enumerations of the same matches start with the same, smallest, matching index. */
  lemma FirstMatchesAgree<T>(a: seq<int>, b: seq<int>, s: seq<T>, p: T -> bool)
    requires EnumeratesMatches(a, s, p) && EnumeratesMatches(b, s, p)
    requires |a| > 0
    ensures |b| > 0 && a[0] == b[0]
  {
    assert a[0] in b;
    var kb :| 0 <= kb < |b| && b[kb] == a[0];
    assert b[0] in a;
    var ka :| 0 <= ka < |a| && a[ka] == b[0];
    assert a[0] <= a[ka] && b[0] <= b[kb];
  }

  /** An increasing enumeration of the matching indices is unique, so `Matches` is the only one. */
  lemma {:induction false} EnumerationIsUnique<T>(a: seq<int>, b: seq<int>, s: seq<T>, p: T -> bool)
    requires EnumeratesMatches(a, s, p) && EnumeratesMatches(b, s, p)
    ensures a == b
    decreases |a|
  {
    if |a| > 0 {
      FirstMatchesAgree(a, b, s, p);
      var sa := RestOf(a, s, p);
      var sb := RestOf(b, s, p);
      EnumerationIsUnique(sa, sb, s[a[0] + 1..], p);
      SameFirstAndRest(a, b, sa);
    } else if |b| > 0 {
      FirstMatchesAgree(b, a, s, p);
    }
  }

  /** Two sequences with the same first element and the same re-based rest are equal. */
  lemma SameFirstAndRest(a: seq<int>, b: seq<int>, rest: seq<int>)
    requires |a| > 0 && |b| > 0 && a[0] == b[0] && |a| == |b| == |rest| + 1
    requires forall k :: 0 < k < |a| ==> a[k] == rest[k - 1] + a[0] + 1
    requires forall k :: 0 < k < |b| ==> b[k] == rest[k - 1] + b[0] + 1
    ensures a == b
  {
  }

  /** Dropping the first matching index and re-basing the others after it enumerates the rest. */
  lemma RestOf<T>(a: seq<int>, s: seq<T>, p: T -> bool) returns (sa: seq<int>)
    requires EnumeratesMatches(a, s, p) && |a| > 0
    ensures |sa| == |a| - 1 && forall k :: 0 < k < |a| ==> a[k] == sa[k - 1] + a[0] + 1
    ensures EnumeratesMatches(sa, s[a[0] + 1..], p)
  {
    sa := seq(|a| - 1, k requires 0 <= k < |a| - 1 => a[k + 1] - a[0] - 1);
    RestOnlyMatches(a, s, p, sa);
    RestAllMatches(a, s, p, sa);
  }

  lemma RestOnlyMatches<T>(a: seq<int>, s: seq<T>, p: T -> bool, sa: seq<int>)
    requires OnlyMatches(a, s, p) && Increasing(a) && |a| > 0
    requires |sa| == |a| - 1 && forall k :: 0 <= k < |sa| ==> sa[k] == a[k + 1] - a[0] - 1
    ensures OnlyMatches(sa, s[a[0] + 1..], p) && Increasing(sa)
  {
    var s' := s[a[0] + 1..];
    forall k | 0 <= k < |sa| ensures 0 <= sa[k] < |s'| && p(s'[sa[k]]) {
      var j := a[k + 1];
      assert a[0] < j;
      assert s'[j - a[0] - 1] == s[j];
    }
  }

  lemma RestAllMatches<T>(a: seq<int>, s: seq<T>, p: T -> bool, sa: seq<int>)
    requires AllMatches(a, s, p) && Increasing(a) && |a| > 0 && 0 <= a[0] < |s|
    requires |sa| == |a| - 1 && forall k :: 0 <= k < |sa| ==> sa[k] == a[k + 1] - a[0] - 1
    ensures AllMatches(sa, s[a[0] + 1..], p)
  {
    var s' := s[a[0] + 1..];
    forall i | 0 <= i < |s'| && p(s'[i]) ensures i in sa {
      var j := i + a[0] + 1;
      assert s'[i] == s[j];
      assert j in a;
      var k :| 0 <= k < |a| && a[k] == j;
      assert k > 0 && sa[k - 1] == i;
    }
  }
}
