/** Generic sequence helpers shared by the modules below: Option, an
    order-preserving filter (JavaScript's `Array.prototype.filter`), counting,
    and an in-place insertion sort standing for `Array.prototype.sort`. */
module Seqs {

  datatype Option<+T> = None | Some(value: T)

  /** The order-preserving subsequence of `s` whose elements satisfy `p`. */
  function Filter<T>(s: seq<T>, p: T -> bool): (r: seq<T>)
    ensures |r| <= |s|
    ensures forall i :: 0 <= i < |r| ==> r[i] in s && p(r[i])
    ensures forall i :: 0 <= i < |s| && p(s[i]) ==> s[i] in r
  {
    if s == [] then []
    else if p(s[0]) then [s[0]] + Filter(s[1..], p)
    else Filter(s[1..], p)
  }

  /** The first position whose element satisfies `p` (`findIndex`), if any. */
  function FirstIndex<T>(s: seq<T>, p: T -> bool): (r: Option<nat>)
    ensures r.Some? ==> r.value < |s| && p(s[r.value])
    ensures r.Some? ==> forall j :: 0 <= j < r.value ==> !p(s[j])
    ensures r.None? ==> forall j :: 0 <= j < |s| ==> !p(s[j])
  {
    if s == [] then None
    else if p(s[0]) then Some(0)
    else
      var rest := s[1..];
      assert forall j :: 0 <= j < |rest| ==> rest[j] == s[j + 1];
      match FirstIndex(rest, p)
      case None => None
      case Some(k) => Some(k + 1)
  }

  /** Filtering distributes over concatenation. */
  lemma {:induction false} FilterAppend<T>(a: seq<T>, b: seq<T>, p: T -> bool)
    ensures Filter(a + b, p) == Filter(a, p) + Filter(b, p)
  {
    if a == [] {
      assert a + b == b;
    } else {
      assert (a + b)[1..] == a[1..] + b;
      FilterAppend(a[1..], b, p);
    }
  }

  /** Two predicates that agree on every element select the same subsequence. */
  lemma {:induction false} FilterExt<T>(s: seq<T>, p: T -> bool, q: T -> bool)
    requires forall x :: x in s ==> p(x) == q(x)
    ensures Filter(s, p) == Filter(s, q)
  {
    if s != [] {
      FilterExt(s[1..], p, q);
    }
  }

  /** Splitting by a second predicate: the elements kept by `p` are those kept
      by `p` and `q` plus those kept by `p` and not `q`. */
  lemma {:induction false} FilterSplitCount<T>(s: seq<T>, p: T -> bool, q: T -> bool)
    ensures |Filter(s, p)| == |Filter(s, x => p(x) && q(x))| + |Filter(s, x => p(x) && !q(x))|
  {
    if s != [] {
      FilterSplitCount(s[1..], p, q);
    }
  }

  /** Filtering twice is filtering once by the conjunction. */
  lemma {:induction false} FilterFilter<T>(s: seq<T>, p: T -> bool, q: T -> bool)
    ensures Filter(Filter(s, p), q) == Filter(s, x => p(x) && q(x))
  {
    if s != [] {
      FilterFilter(s[1..], p, q);
    }
  }

  /** `idx` picks the elements of `r` out of `s` at strictly increasing
      positions. */
  predicate Embeds<T(==)>(idx: seq<nat>, r: seq<T>, s: seq<T>)
  {
    && |idx| == |r|
    && (forall i :: 0 <= i < |idx| ==> idx[i] < |s| && s[idx[i]] == r[i])
    && (forall i, j :: 0 <= i < j < |idx| ==> idx[i] < idx[j])
  }

  /** `r` is `s` with some elements left out, the rest in their order. */
  ghost predicate IsSubseq<T>(r: seq<T>, s: seq<T>)
  {
    exists idx :: Embeds(idx, r, s)
  }

  /** An embedding into `s` is one into `s` with an element appended, and
      picking that element too embeds the longer sequence. */
  lemma EmbedsSnoc<T>(idx: seq<nat>, r: seq<T>, s: seq<T>, x: T)
    requires Embeds(idx, r, s)
    ensures Embeds(idx, r, s + [x])
    ensures Embeds(idx + [|s|], r + [x], s + [x])
  {
    assert forall i :: 0 <= i < |idx| ==> (s + [x])[idx[i]] == s[idx[i]];
  }

  /** No two elements of `s` share a key. */
  ghost predicate DistinctKeys<T, K>(s: seq<T>, key: T -> K)
  {
    forall i, j :: 0 <= i < j < |s| ==> key(s[i]) != key(s[j])
  }

  /** A subsequence chosen by a filter keeps keys distinct. */
  lemma {:induction false} FilterDistinct<T, K>(s: seq<T>, p: T -> bool, key: T -> K)
    requires DistinctKeys(s, key)
    ensures DistinctKeys(Filter(s, p), key)
  {
    if s != [] {
      var rest := Filter(s[1..], p);
      FilterDistinct(s[1..], p, key);
      if p(s[0]) {
        var r := [s[0]] + rest;
        forall i, j | 0 <= i < j < |r| ensures key(r[i]) != key(r[j]) {
          if i == 0 {
            assert r[j] in s[1..];
            var k :| 0 <= k < |s[1..]| && s[1..][k] == r[j];
            assert s[k + 1] == r[j];
          } else {
            assert r[i] == rest[i - 1] && r[j] == rest[j - 1];
          }
        }
      }
    }
  }

  /** Two elements with the same key in a key-distinct sequence are equal. */
  lemma SameKeySameElement<T, K>(s: seq<T>, key: T -> K, x: T, y: T)
    requires DistinctKeys(s, key) && x in s && y in s && key(x) == key(y)
    ensures x == y
  {
    var i :| 0 <= i < |s| && s[i] == x;
    var j :| 0 <= j < |s| && s[j] == y;
    assert key(s[i]) == key(s[j]);
    assert !(i < j) && !(j < i);
  }

  /** Nothing is kept when no element carries the key. */
  lemma {:induction false} NoneWithKey<T, K>(s: seq<T>, key: T -> K, k: K)
    requires forall x :: x in s ==> key(x) != k
    ensures Filter(s, x => key(x) == k) == []
  {
    if s != [] {
      NoneWithKey(s[1..], key, k);
    }
  }

  /** In a key-distinct sequence at most one element carries a given key. */
  lemma {:induction false} AtMostOneWithKey<T, K>(s: seq<T>, key: T -> K, k: K)
    requires DistinctKeys(s, key)
    ensures |Filter(s, x => key(x) == k)| <= 1
  {
    if s != [] {
      var tail := s[1..];
      assert DistinctKeys(tail, key) by {
        forall i, j | 0 <= i < j < |tail| ensures key(tail[i]) != key(tail[j]) {
          assert tail[i] == s[i + 1] && tail[j] == s[j + 1];
        }
      }
      AtMostOneWithKey(tail, key, k);
      if key(s[0]) == k {
        forall x | x in tail ensures key(x) != k {
          var j :| 0 <= j < |tail| && tail[j] == x;
          assert s[j + 1] == x;
        }
        NoneWithKey(tail, key, k);
      }
    }
  }

  /** `s` is ordered by the strict relation `before` on neighbouring elements:
      no element is strictly before its predecessor. */
  ghost predicate AdjacentSorted<T>(s: seq<T>, before: (T, T) -> bool)
  {
    forall k :: 0 < k < |s| ==> !before(s[k], s[k - 1])
  }

  /** `before` never holds both ways round. */
  ghost predicate Asymmetric<T(!new)>(before: (T, T) -> bool)
  {
    forall x, y :: before(x, y) ==> !before(y, x)
  }

  /** Exchanges the neighbours at `j - 1` and `j`. */
  method SwapAdjacent<T>(a: array<T>, j: int)
    requires 0 < j < a.Length
    modifies a
    ensures a[..] == old(a[..])[j := old(a[j - 1])][j - 1 := old(a[j])]
    ensures multiset(a[..]) == old(multiset(a[..]))
  {
    a[j], a[j - 1] := a[j - 1], a[j];
  }

  /** Moves `a[i]` left past every element it is strictly before, so that the
      neighbour-sorted prefix `a[..i]` grows to `a[..i + 1]`. */
  method InsertLast<T(!new)>(a: array<T>, i: int, before: (T, T) -> bool)
    requires Asymmetric(before)
    requires 0 <= i < a.Length
    requires forall k :: 0 < k < i ==> !before(a[k], a[k - 1])
    modifies a
    ensures multiset(a[..]) == old(multiset(a[..]))
    ensures forall k :: 0 < k <= i ==> !before(a[k], a[k - 1])
  {
    var j := i;
    while 0 < j && before(a[j], a[j - 1])
      invariant 0 <= j <= i
      invariant multiset(a[..]) == old(multiset(a[..]))
      invariant forall k :: 0 < k <= i && k != j ==> !before(a[k], a[k - 1])
      invariant 0 < j < i ==> !before(a[j + 1], a[j - 1])
    {
      SwapAdjacent(a, j);
      j := j - 1;
    }
  }

  /** In-place insertion sort: the array ends as a permutation of its old
      contents in which no element is before its left neighbour. */
  method InsertionSort<T(!new)>(a: array<T>, before: (T, T) -> bool)
    requires Asymmetric(before)
    modifies a
    ensures multiset(a[..]) == old(multiset(a[..]))
    ensures AdjacentSorted(a[..], before)
  {
    var i := 0;
    while i < a.Length
      invariant 0 <= i <= a.Length
      invariant multiset(a[..]) == old(multiset(a[..]))
      invariant forall k :: 0 < k < i ==> !before(a[k], a[k - 1])
    {
      InsertLast(a, i, before);
      i := i + 1;
    }
  }
}
