/**
 * The bar records both sorting modules animate, their random generation and
 * the facts about them that the two sorts share. A record is
 * `{value, index, state}`; the state vocabulary differs between the two
 * sorts, so it is a type parameter here.
 */
module Bars {

  datatype Bar<S> = Bar(value: int, index: int, state: S)

  /** `Math.floor(u * 100) + 1` for a draw `u` of `Math.random()`. */
  function RandomValue(u: real): (v: int)
    requires 0.0 <= u < 1.0
    ensures 1 <= v <= 100
    ensures v as real - 1.0 <= u * 100.0 < v as real
  {
    (u * 100.0).Floor + 1
  }

  ghost predicate ValidDraws(draws: seq<real>)
  {
    forall k :: 0 <= k < |draws| ==> 0.0 <= draws[k] < 1.0
  }

  /**
   * `generateRandomArray(size)` with the draws of `Math.random()` given as
   * `draws` (one per record, so `size == |draws|`).
   */
  function GenerateRandomArray<S>(draws: seq<real>, initial: S): (r: seq<Bar<S>>)
    requires ValidDraws(draws)
    ensures |r| == |draws|
    ensures forall k :: 0 <= k < |r| ==> r[k].index == k && r[k].state == initial
    ensures forall k :: 0 <= k < |r| ==> 1 <= r[k].value <= 100
  {
    seq(|draws|, k requires 0 <= k < |draws| => Bar(RandomValue(draws[k]), k, initial))
  }

  /** What a record is apart from its animation tag: its value and the index it was generated with. */
  function Item<S>(b: Bar<S>): (int, int)
  {
    (b.value, b.index)
  }

  function Items<S>(s: seq<Bar<S>>): (r: seq<(int, int)>)
    ensures |r| == |s|
    ensures forall k :: 0 <= k < |s| ==> r[k] == Item(s[k])
  {
    seq(|s|, k requires 0 <= k < |s| => Item(s[k]))
  }

  /** `s` holds the records of `t`, each with its value and index, in some order and whatever their tags. */
  ghost predicate SameItems<S>(s: seq<Bar<S>>, t: seq<Bar<S>>)
  {
    multiset(Items(s)) == multiset(Items(t))
  }

  /** Non-decreasing values on the index range [lo, hi). */
  ghost predicate SortedBetween<S>(s: seq<Bar<S>>, lo: int, hi: int)
  {
    forall p, q :: 0 <= lo <= p < q < hi <= |s| ==> s[p].value <= s[q].value
  }

  /** Each value on [lo, hi) is at most the next one. */
  ghost predicate Ascending<S>(s: seq<Bar<S>>, lo: int, hi: int)
  {
    forall k :: 0 <= lo <= k && k + 1 < hi <= |s| ==> s[k].value <= s[k + 1].value
  }

  /** Neighbouring pairs in order make the whole range sorted. */
  lemma {:induction false} AscendingSorted<S>(s: seq<Bar<S>>, lo: int, hi: int)
    requires 0 <= lo <= hi <= |s|
    requires Ascending(s, lo, hi)
    ensures SortedBetween(s, lo, hi)
    decreases hi - lo
  {
    if lo + 1 < hi {
      AscendingSorted(s, lo + 1, hi);
      forall q | lo < q < hi
        ensures s[lo].value <= s[q].value
      {
        assert s[lo].value <= s[lo + 1].value <= s[q].value;
      }
    }
  }

  ghost predicate AllBelow<S>(s: seq<Bar<S>>, bound: int)
  {
    forall k :: 0 <= k < |s| ==> s[k].value < bound
  }

  ghost predicate NoneBelow<S>(s: seq<Bar<S>>, bound: int)
  {
    forall k :: 0 <= k < |s| ==> bound <= s[k].value
  }

  /** Changing a tag changes no item. */
  lemma RetagKeepsItems<S>(s: seq<Bar<S>>, k: int, tag: S)
    requires 0 <= k < |s|
    ensures Items(s[k := s[k].(state := tag)]) == Items(s)
  {
  }

  /**
   * Exchanging two records, whatever tags they are given on the way, moves whole
   * items: the multiset of items is unchanged.
   */
  lemma ExchangeKeepsItems<S>(s: seq<Bar<S>>, i: int, j: int, a: S, b: S)
    requires 0 <= i < |s| && 0 <= j < |s|
    ensures SameItems(s[i := s[j].(state := a)][j := s[i].(state := b)], s)
  {
    var t := s[i := s[j].(state := a)][j := s[i].(state := b)];
    assert Items(t) == Items(s)[i := Item(s[j])][j := Item(s[i])];
  }

  /**
   * When two arrays hold the same items and agree outside [lo, hi), the
   * segments [lo, hi) hold the same items too.
   */
  lemma SegmentItems<S>(a: seq<Bar<S>>, b: seq<Bar<S>>, lo: int, hi: int)
    requires 0 <= lo <= hi <= |a| == |b|
    requires SameItems(a, b)
    requires forall k :: 0 <= k < |a| && !(lo <= k < hi) ==> a[k] == b[k]
    ensures SameItems(a[lo..hi], b[lo..hi])
  {
    var A, B := Items(a), Items(b);
    assert Items(a[lo..hi]) == A[lo..hi];
    assert Items(b[lo..hi]) == B[lo..hi];
    assert A[..lo] == B[..lo] by {
      forall k | 0 <= k < lo ensures A[k] == B[k] { assert a[k] == b[k]; }
    }
    assert A[hi..] == B[hi..] by {
      forall k | hi <= k < |a| ensures A[k] == B[k] { assert a[k] == b[k]; }
    }
    MiddleMultiset(A, B, lo, hi);
  }

  /** Cancelling equal ends of two sequences with equal multisets leaves equal multisets. */
  lemma MiddleMultiset<T>(A: seq<T>, B: seq<T>, lo: int, hi: int)
    requires 0 <= lo <= hi <= |A| == |B|
    requires multiset(A) == multiset(B)
    requires A[..lo] == B[..lo] && A[hi..] == B[hi..]
    ensures multiset(A[lo..hi]) == multiset(B[lo..hi])
  {
    assert A == A[..lo] + A[lo..hi] + A[hi..];
    assert B == B[..lo] + B[lo..hi] + B[hi..];
    var outside := multiset(A[..lo]) + multiset(A[hi..]);
    assert multiset(A[lo..hi]) == multiset(A) - outside;
    assert multiset(B[lo..hi]) == multiset(B) - outside;
  }

  /** A bound on every value carries over to any arrangement of the same items. */
  lemma BoundsCarryOver<S>(s: seq<Bar<S>>, t: seq<Bar<S>>, bound: int)
    requires SameItems(s, t)
    ensures AllBelow(t, bound) ==> AllBelow(s, bound)
    ensures NoneBelow(t, bound) ==> NoneBelow(s, bound)
  {
    forall k | 0 <= k < |s|
      ensures exists m :: 0 <= m < |t| && t[m].value == s[k].value
    {
      assert Items(s)[k] in multiset(Items(t));
      var m :| 0 <= m < |t| && Items(t)[m] == Items(s)[k];
      assert t[m].value == s[k].value;
    }
  }

  /** The records after `[arr[a], arr[b]] = [arr[b], arr[a]]`. */
  function Swap<S>(s: seq<Bar<S>>, a: int, b: int): (r: seq<Bar<S>>)
    requires 0 <= a < |s| && 0 <= b < |s|
    ensures |r| == |s| && r[a] == s[b] && r[b] == s[a]
    ensures forall k :: 0 <= k < |s| && k != a && k != b ==> r[k] == s[k]
  {
    s[a := s[b]][b := s[a]]
  }

  /** A swap moves whole items. */
  lemma SwapKeepsItems<S>(s: seq<Bar<S>>, a: int, b: int)
    requires 0 <= a < |s| && 0 <= b < |s|
    ensures SameItems(Swap(s, a, b), s)
  {
    ExchangeKeepsItems(s, a, b, s[b].state, s[a].state);
    assert s[a := s[b].(state := s[b].state)][b := s[a].(state := s[a].state)] == Swap(s, a, b);
  }

  /** `after` holds the items of `before`, and every position outside [lo, hi) holds the same record. */
  ghost predicate Rearranged<S>(before: seq<Bar<S>>, after: seq<Bar<S>>, lo: int, hi: int)
  {
    |after| == |before| && SameItems(after, before) &&
    forall k :: 0 <= k < |after| && !(lo <= k < hi) ==> after[k] == before[k]
  }

  /** A rearrangement within a sub-range, after one within [lo, hi), is one within [lo, hi). */
  lemma RearrangedThen<S>(a: seq<Bar<S>>, b: seq<Bar<S>>, c: seq<Bar<S>>, lo: int, hi: int, lo': int, hi': int)
    requires Rearranged(a, b, lo, hi) && Rearranged(b, c, lo', hi')
    requires lo <= lo' && hi' <= hi
    ensures Rearranged(a, c, lo, hi)
  {
  }

  /**
   * A bound that holds on [lo, hi) before a rearrangement within [lo, hi) holds
   * there after it.
   */
  lemma RearrangedBounds<S>(before: seq<Bar<S>>, after: seq<Bar<S>>, lo: int, hi: int, bound: int)
    requires 0 <= lo <= hi <= |before|
    requires Rearranged(before, after, lo, hi)
    ensures (forall k :: lo <= k < hi ==> before[k].value < bound) ==> forall k :: lo <= k < hi ==> after[k].value < bound
    ensures (forall k :: lo <= k < hi ==> bound <= before[k].value) ==> forall k :: lo <= k < hi ==> bound <= after[k].value
  {
    SegmentItems(after, before, lo, hi);
    BoundsCarryOver(after[lo..hi], before[lo..hi], bound);
    if forall k :: lo <= k < hi ==> before[k].value < bound {
      assert AllBelow(before[lo..hi], bound);
      forall k | lo <= k < hi
        ensures after[k].value < bound
      {
        assert after[k] == after[lo..hi][k - lo];
      }
    }
    if forall k :: lo <= k < hi ==> bound <= before[k].value {
      assert NoneBelow(before[lo..hi], bound);
      forall k | lo <= k < hi
        ensures bound <= after[k].value
      {
        assert after[k] == after[lo..hi][k - lo];
      }
    }
  }
}
