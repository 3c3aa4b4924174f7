/**
 * The bubble-sort animation: an optimised bubble sort with an early-exit
 * flag over an array of bar records, tagging the compared and swapped pair
 * and the sorted suffix, with a suspension after every step.
 */
module BubbleSort {
  import opened Steps
  import opened Bars

  datatype BarState = Default | Comparing | Sorted | Swapping

  type Record = Bar<BarState>

  /** The number of bars `initialize` generates. */
  const Size: nat := 15

  ghost predicate AllTagged(s: seq<Record>, tag: BarState)
  {
    forall k :: 0 <= k < |s| ==> s[k].state == tag
  }

  /** The records with the pair (i, i + 1) re-tagged. */
  function Tag2(s: seq<Record>, i: int, tag: BarState): (r: seq<Record>)
    requires 0 <= i && i + 1 < |s|
    ensures |r| == |s| && r[i].state == tag && r[i + 1].state == tag
    ensures Item(r[i]) == Item(s[i]) && Item(r[i + 1]) == Item(s[i + 1])
    ensures forall k :: 0 <= k < |s| && k != i && k != i + 1 ==> r[k] == s[k]
  {
    s[i := s[i].(state := tag)][i + 1 := s[i + 1].(state := tag)]
  }

  /** The records with the pair (i, i + 1) exchanged. */
  function Exchanged(s: seq<Record>, i: int): (r: seq<Record>)
    requires 0 <= i && i + 1 < |s|
    ensures |r| == |s| && r[i] == s[i + 1] && r[i + 1] == s[i]
    ensures forall k :: 0 <= k < |s| && k != i && k != i + 1 ==> r[k] == s[k]
  {
    s[i := s[i + 1]][i + 1 := s[i]]
  }

  /**
   * The records after one completed step of the inner loop on the pair (i, i + 1):
   * the pair is in order and both are tagged `default` again.
   */
  function ComparePair(s: seq<Record>, i: int): (r: seq<Record>)
    requires 0 <= i && i + 1 < |s|
    ensures |r| == |s|
    ensures r[i].value <= r[i + 1].value
    ensures r[i].state == Default && r[i + 1].state == Default
    ensures forall k :: 0 <= k < |s| && k != i && k != i + 1 ==> r[k] == s[k]
  {
    if s[i].value > s[i + 1].value then Tag2(Exchanged(s, i), i, Default) else Tag2(s, i, Default)
  }

  /** Both ways through a comparison step end in `ComparePair`, whatever tags the pair had on the way. */
  lemma CompareStages(s: seq<Record>, i: int)
    requires 0 <= i && i + 1 < |s|
    ensures s[i].value > s[i + 1].value ==>
      Tag2(Exchanged(Tag2(Tag2(s, i, Comparing), i, Swapping), i), i, Default) == ComparePair(s, i)
    ensures s[i].value <= s[i + 1].value ==> Tag2(Tag2(s, i, Comparing), i, Default) == ComparePair(s, i)
  {
    var t := Tag2(Exchanged(Tag2(Tag2(s, i, Comparing), i, Swapping), i), i, Default);
    if s[i].value > s[i + 1].value {
      assert t == Tag2(Exchanged(s, i), i, Default);
    } else {
      assert Tag2(Tag2(s, i, Comparing), i, Default) == Tag2(s, i, Default);
    }
  }

  /** A comparison step only moves whole records. */
  lemma ComparePairItems(s: seq<Record>, i: int)
    requires 0 <= i && i + 1 < |s|
    ensures SameItems(ComparePair(s, i), s)
  {
    var t := Exchanged(s, i);
    RetagKeepsItems(s, i, Default);
    RetagKeepsItems(s[i := s[i].(state := Default)], i + 1, Default);
    RetagKeepsItems(t, i, Default);
    RetagKeepsItems(t[i := t[i].(state := Default)], i + 1, Default);
    ExchangeKeepsItems(s, i, i + 1, s[i + 1].state, s[i].state);
    assert s[i := s[i + 1].(state := s[i + 1].state)][i + 1 := s[i].(state := s[i].state)] == t;
  }

  /**
   * What a stopped run leaves behind. Stopped between the two assignments of a
   * swap, the record at `tornAt` also sits at `tornAt + 1` and `torn`, the record
   * that was there, is gone: putting it back restores a rearrangement of `before`.
   * Stopped anywhere else, the records are a rearrangement of `before`.
   */
  ghost predicate Interrupted(now: seq<Record>, before: seq<Record>, tornAt: int, torn: Record)
  {
    if 0 <= tornAt < |now| - 1 then
      now[tornAt] == now[tornAt + 1] && SameItems(now[tornAt + 1 := torn], before)
    else
      SameItems(now, before)
  }

  /**
   * The states a stop can leave inside the exchange of the pair (i, i + 1), tagged
   * `tag` first: after the tagging and after the exchange the records are a
   * rearrangement of `s`; between the two assignments the right record is doubled
   * and the left one is lost.
   */
  lemma SwapStages(s: seq<Record>, i: int, tag: BarState)
    requires 0 <= i && i + 1 < |s|
    ensures Interrupted(Tag2(s, i, tag), s, -1, s[i])
    ensures Interrupted(Tag2(s, i, tag)[i := Tag2(s, i, tag)[i + 1]], s, i, Tag2(s, i, tag)[i])
    ensures Interrupted(Exchanged(Tag2(s, i, tag), i), s, -1, s[i])
  {
    var t := Tag2(s, i, tag);
    RetagKeepsItems(s, i, tag);
    RetagKeepsItems(s[i := s[i].(state := tag)], i + 1, tag);
    ExchangeKeepsItems(t, i, i + 1, tag, tag);
    assert t[i := t[i + 1]][i + 1 := t[i]] == t[i := t[i + 1].(state := tag)][i + 1 := t[i].(state := tag)];
    assert t[i := t[i + 1]][i + 1 := t[i]] == Exchanged(t, i);
  }

  lemma InterruptedThen(now: seq<Record>, mid: seq<Record>, before: seq<Record>, tornAt: int, torn: Record)
    requires Interrupted(now, mid, tornAt, torn) && SameItems(mid, before)
    ensures Interrupted(now, before, tornAt, torn)
  {
  }

  /**
   * The invariant of the inner `for` loop after i steps on [0, n): only [0, n) has
   * moved, `s[i]` is a largest value of [0, i], and without an exchange so far the
   * prefix [0, i] is sorted.
   */
  ghost predicate PassSoFar(initial: seq<Record>, s: seq<Record>, n: int, i: int, swapped: bool)
  {
    |s| == |initial| && 0 <= i && (i <= n - 1 || i == 0) && 0 <= n <= |s| &&
    (forall q :: n <= q < |s| ==> s[q] == initial[q]) && SameItems(s, initial) &&
    (forall p :: 0 <= p <= i && p < n ==> s[p].value <= s[i].value) &&
    (!swapped ==> Ascending(s, 0, i + 1)) &&
    (swapped ==> n >= 2)
  }

  /**
   * What a completed inner loop on [0, n) leaves: [n, |after|) untouched, [0, n)
   * rearranged with a largest value at n - 1, and [0, n) sorted when nothing was
   * exchanged.
   */
  ghost predicate PassDone(before: seq<Record>, after: seq<Record>, n: int, swapped: bool)
  {
    |after| == |before| && 0 <= n <= |before| &&
    (forall q :: n <= q < |after| ==> after[q] == before[q]) &&
    SameItems(after, before) && SameItems(after[..n], before[..n]) &&
    (0 < n ==> forall p :: 0 <= p < n ==> after[p].value <= after[n - 1].value) &&
    (!swapped ==> Ascending(after, 0, n)) &&
    (swapped ==> n >= 2)
  }

  lemma PassStart(s: seq<Record>, n: int)
    requires 0 <= n <= |s|
    ensures PassSoFar(s, s, n, 0, false)
  {
  }

  /** One comparison step keeps the inner loop's invariant, one position further. */
  lemma PassStep(initial: seq<Record>, s: seq<Record>, n: int, i: int, swapped: bool)
    requires PassSoFar(initial, s, n, i, swapped) && i < n - 1
    ensures PassSoFar(initial, ComparePair(s, i), n, i + 1, swapped || s[i].value > s[i + 1].value)
  {
    var t := ComparePair(s, i);
    ComparePairItems(s, i);
    forall p | 0 <= p <= i + 1
      ensures t[p].value <= t[i + 1].value
    {
      if p < i {
        assert t[p] == s[p];
      }
    }
    if !(swapped || s[i].value > s[i + 1].value) {
      forall k | 0 <= k && k + 1 < i + 2
        ensures t[k].value <= t[k + 1].value
      {
        if k + 1 < i {
          assert t[k] == s[k] && t[k + 1] == s[k + 1];
        } else if k < i {
          assert t[k] == s[k];
        }
      }
    }
  }

  /** When the inner loop's condition fails, the pass is complete. */
  lemma PassEnd(initial: seq<Record>, s: seq<Record>, n: int, i: int, swapped: bool)
    requires PassSoFar(initial, s, n, i, swapped) && !(i < n - 1) && 0 <= n
    ensures PassDone(initial, s, n, swapped)
  {
    SegmentItems(s, initial, 0, n);
  }

  /**
   * The outer loop's invariant: the records are a rearrangement of `initial`,
   * and the suffix [n, |s|) holds the largest values, in order, tagged `sorted`.
   */
  ghost predicate Settled(initial: seq<Record>, s: seq<Record>, n: int)
  {
    |s| == |initial| && 0 <= n <= |s| && SameItems(s, initial) &&
    Ascending(s, n, |s|) &&
    (n < |s| ==> forall p :: 0 <= p < n ==> s[p].value <= s[n].value) &&
    (forall q :: n <= q < |s| ==> s[q].state == Sorted)
  }

  lemma SettledStart(s: seq<Record>)
    ensures Settled(s, s, |s|)
  {
  }

  /**
   * A pass only rearranges [0, n), so the records there stay below every record of
   * the settled suffix.
   */
  lemma PassKeepsSuffix(initial: seq<Record>, s: seq<Record>, t: seq<Record>, n: int, swapped: bool)
    requires Settled(initial, s, n) && PassDone(s, t, n, swapped)
    ensures Settled(initial, t, n)
  {
    if n < |t| {
      assert AllBelow(s[..n], s[n].value + 1);
      BoundsCarryOver(t[..n], s[..n], s[n].value + 1);
      assert AllBelow(t[..n], s[n].value + 1);
    }
  }

  /** A largest value of [0, n) at n - 1 joins the sorted suffix. */
  lemma SettleLast(initial: seq<Record>, t: seq<Record>, n: int)
    requires Settled(initial, t, n) && 0 < n
    requires forall p :: 0 <= p < n ==> t[p].value <= t[n - 1].value
    ensures Settled(initial, t[n - 1 := t[n - 1].(state := Sorted)], n - 1)
  {
    var u := t[n - 1 := t[n - 1].(state := Sorted)];
    RetagKeepsItems(t, n - 1, Sorted);
    forall p | 0 <= p < n - 1
      ensures u[p].value <= u[n - 1].value
    {
      assert u[p] == t[p];
    }
  }

  /**
   * A pass without exchanges leaves [0, n) sorted; with the settled suffix after it
   * the whole array is sorted, and tagging [0, n) `sorted` completes the tags.
   */
  lemma FinalSorted(initial: seq<Record>, t: seq<Record>, u: seq<Record>, n: int)
    requires Settled(initial, t, n) && Ascending(t, 0, n) && |u| == |t|
    requires forall p :: 0 <= p < |u| ==> Item(u[p]) == Item(t[p])
    requires forall p :: 0 <= p < n ==> u[p].state == Sorted
    requires forall p :: n <= p < |u| ==> u[p] == t[p]
    ensures SameItems(u, initial) && SortedBetween(u, 0, |u|) && AllTagged(u, Sorted)
  {
    assert Items(u) == Items(t);
    forall k | 0 <= k && k + 1 < |u|
      ensures u[k].value <= u[k + 1].value
    {
      assert u[k].value == t[k].value && u[k + 1].value == t[k + 1].value;
    }
    AscendingSorted(u, 0, |u|);
  }

  /** The module state of the bubble-sort file. */
  class BubbleSortAnimation {
    var data: array<Record>
    const ctl: Runner

    /** The state of the module when it is loaded, before any `initialize`. */
    constructor ()
      ensures fresh(ctl) && fresh(data) && data.Length == 0
      ensures !ctl.isRunning && !ctl.hasSink && !ctl.timerSet && ctl.lines == []
    {
      data := new Record[0];
      ctl := new Runner();
    }

    /** `initialize`: set the running flag, register the sink and generate a fresh dataset of 15 bars. */
    method Initialize(draws: seq<real>, sink: bool)
      requires |draws| == Size && ValidDraws(draws)
      modifies this, ctl
      ensures fresh(data) && data[..] == GenerateRandomArray(draws, Default)
      ensures ctl.isRunning && ctl.hasSink == sink
      ensures ctl.timerSet == old(ctl.timerSet) && ctl.lines == old(ctl.lines)
    {
      ctl.Attach(sink, true);
      var records := GenerateRandomArray(draws, Default);
      data := new Record[|records|](k requires 0 <= k < |records| => records[k]);
    }

    /** `animate`: set the running flag and run the sort on the current dataset, in place. */
    method Animate(stops: StopOracle) returns (outcome: Outcome, ghost tornAt: int, ghost torn: Record)
      modifies ctl, data
      ensures ctl.hasSink == old(ctl.hasSink) && ctl.stops == stops
      ensures !ctl.hasSink ==> outcome == Finished && data[..] == old(data[..])
      ensures ctl.hasSink && stops == 0 ==> outcome == Stopped && data[..] == old(data[..])
      ensures NeverStops(stops) && data.Length > 0 ==> outcome == Finished
      ensures outcome == Failed ==> data.Length == 0
      ensures outcome == Stopped ==> Interrupted(data[..], old(data[..]), tornAt, torn)
      ensures outcome != Stopped ==> SameItems(data[..], old(data[..]))
      ensures 0 <= tornAt ==> outcome == Stopped && tornAt + 1 < data.Length
      ensures outcome == Finished && ctl.hasSink ==>
        SortedBetween(data[..], 0, data.Length) && AllTagged(data[..], Sorted) &&
        |ctl.lines| >= 2 && ctl.lines[|ctl.lines| - 2] == 21 && ctl.lines[|ctl.lines| - 1] == IdleLine
    {
      ctl.Start(stops);
      outcome, tornAt, torn := BubbleSortAlgorithm();
    }

    /** `cleanup`: stop the run, cancel the pending timer, send the idle line. */
    method Cleanup()
      modifies ctl
      ensures !ctl.isRunning && !ctl.timerSet && ctl.hasSink == old(ctl.hasSink)
      ensures ctl.lines == old(ctl.lines) + (if ctl.hasSink then [IdleLine] else [])
    {
      ctl.Cleanup();
    }

    /** Re-tag one record. */
    method Retag(k: int, tag: BarState)
      requires 0 <= k < data.Length
      modifies data
      ensures data[..] == old(data[..])[k := old(data[k]).(state := tag)]
    {
      data[k] := data[k].(state := tag);
    }

    /**
     * The exchange of the pair (i, i + 1): tag both `swapping`, then move the right
     * record left and the saved left record right, with a suspension between the two
     * assignments.
     */
    method SwapPair(i: int) returns (outcome: Outcome, ghost tornAt: int, ghost torn: Record)
      requires 0 <= i && i + 1 < data.Length
      requires ctl.hasSink && ctl.isRunning
      modifies ctl, data
      ensures ctl.hasSink && ctl.stops == old(ctl.stops)
      ensures outcome != Failed
      ensures outcome == Finished ==> ctl.isRunning
      ensures outcome == Stopped ==> ctl.stops == ctl.resumed
      ensures outcome == Stopped ==> Interrupted(data[..], old(data[..]), tornAt, torn)
      ensures 0 <= tornAt ==> outcome == Stopped && tornAt == i
      ensures outcome == Finished ==> data[..] == Exchanged(Tag2(old(data[..]), i, Swapping), i)
    {
      tornAt, torn := -1, Bar(0, 0, Default);
      ghost var s0 := data[..];
      ctl.Emit(11);
      data[i] := data[i].(state := Swapping);
      data[i + 1] := data[i + 1].(state := Swapping);
      ghost var s1 := data[..];
      assert s1 == Tag2(s0, i, Swapping);
      var slept := ctl.Sleep();
      if slept != Finished {
        SwapStages(s0, i, Swapping);
        return slept, tornAt, torn;
      }

      var temp := data[i];
      ctl.Emit(12);
      data[i] := data[i + 1];
      assert data[..] == s1[i := s1[i + 1]];
      slept := ctl.Sleep();
      if slept != Finished {
        SwapStages(s0, i, Swapping);
        tornAt, torn := i, temp;
        return slept, tornAt, torn;
      }

      ctl.Emit(13);
      data[i + 1] := temp;
      assert data[..] == Exchanged(s1, i);
      slept := ctl.Sleep();
      if slept != Finished {
        SwapStages(s0, i, Swapping);
        return slept, tornAt, torn;
      }
      return Finished, tornAt, torn;
    }

    /**
     * One iteration of the inner `for` loop: tag the pair (i, i + 1) `comparing`,
     * exchange it when the left value is larger, then reset both tags to `default`.
     */
    method CompareStep(i: int) returns (outcome: Outcome, swapped: bool, ghost tornAt: int, ghost torn: Record)
      requires 0 <= i && i + 1 < data.Length
      requires ctl.hasSink && ctl.isRunning
      modifies ctl, data
      ensures ctl.hasSink && ctl.stops == old(ctl.stops)
      ensures outcome != Failed
      ensures outcome == Finished ==> ctl.isRunning
      ensures outcome == Stopped ==> ctl.stops == ctl.resumed
      ensures outcome == Stopped ==> Interrupted(data[..], old(data[..]), tornAt, torn)
      ensures 0 <= tornAt ==> outcome == Stopped && tornAt == i
      ensures outcome == Finished ==>
        data[..] == ComparePair(old(data[..]), i) && swapped == (old(data[i]).value > old(data[i + 1]).value)
    {
      tornAt, torn := -1, Bar(0, 0, Default);
      swapped := false;
      ghost var s0 := data[..];
      ctl.Emit(9);
      data[i] := data[i].(state := Comparing);
      data[i + 1] := data[i + 1].(state := Comparing);
      ghost var s1 := data[..];
      assert s1 == Tag2(s0, i, Comparing);
      var slept := ctl.Sleep();
      if slept != Finished {
        SwapStages(s0, i, Comparing);
        return slept, swapped, tornAt, torn;
      }

      if data[i].value > data[i + 1].value {
        outcome, tornAt, torn := SwapPair(i);
        if outcome != Finished {
          SwapStages(s0, i, Comparing);
          InterruptedThen(data[..], s1, s0, tornAt, torn);
          return outcome, swapped, tornAt, torn;
        }
        ctl.Emit(14);
        swapped := true;
        slept := ctl.Sleep();
        if slept != Finished {
          SwapStages(s0, i, Comparing);
          SwapStages(s1, i, Swapping);
          return slept, swapped, tornAt, torn;
        }
      }

      ghost var s2 := data[..];
      data[i] := data[i].(state := Default);
      data[i + 1] := data[i + 1].(state := Default);
      assert data[..] == Tag2(s2, i, Default);
      CompareStages(s0, i);
      return Finished, swapped, tornAt, torn;
    }

    /**
     * One round of the `do` loop up to the end of the inner `for` loop (lines 5 to 16):
     * records at n and beyond are not touched, `arr[n - 1]` ends up holding a largest
     * value of [0, n), and when no pair was exchanged [0, n) is sorted.
     */
    method Pass(n: int) returns (outcome: Outcome, swapped: bool, ghost tornAt: int, ghost torn: Record)
      requires 0 <= n <= data.Length
      requires ctl.hasSink && ctl.isRunning
      modifies ctl, data
      ensures ctl.hasSink && ctl.stops == old(ctl.stops)
      ensures outcome != Failed
      ensures outcome == Finished ==> ctl.isRunning
      ensures outcome == Stopped ==> ctl.stops == ctl.resumed
      ensures outcome == Stopped ==> Interrupted(data[..], old(data[..]), tornAt, torn)
      ensures 0 <= tornAt ==> outcome == Stopped && tornAt + 1 < n
      ensures outcome == Finished ==> PassDone(old(data[..]), data[..], n, swapped)
    {
      tornAt, torn := -1, Bar(0, 0, Default);
      swapped := false;
      var slept := ctl.Announce(5);
      if slept != Finished { return slept, swapped, tornAt, torn; }

      swapped := false;
      slept := ctl.Announce(6);
      if slept != Finished { return slept, swapped, tornAt, torn; }

      slept := ctl.Announce(8);
      if slept != Finished { return slept, swapped, tornAt, torn; }

      outcome, swapped, tornAt, torn := Sweep(n);
    }

    /**
     * The inner `for (let i = 0; i < n - 1 && isRunning; i++)` loop of lines 8 to 16:
     * compare, and exchange when out of order, each neighbouring pair of [0, n).
     */
    method Sweep(n: int) returns (outcome: Outcome, swapped: bool, ghost tornAt: int, ghost torn: Record)
      requires 0 <= n <= data.Length
      requires ctl.hasSink && ctl.isRunning
      modifies ctl, data
      ensures ctl.hasSink && ctl.stops == old(ctl.stops)
      ensures outcome != Failed
      ensures outcome == Finished ==> ctl.isRunning
      ensures outcome == Stopped ==> ctl.stops == ctl.resumed
      ensures outcome == Stopped ==> Interrupted(data[..], old(data[..]), tornAt, torn)
      ensures 0 <= tornAt ==> outcome == Stopped && tornAt + 1 < n
      ensures outcome == Finished ==> PassDone(old(data[..]), data[..], n, swapped)
    {
      ghost var initial := data[..];
      swapped := false;
      PassStart(initial, n);
      var i := 0;
      while i < n - 1 && ctl.isRunning
        invariant PassSoFar(initial, data[..], n, i, swapped)
        invariant ctl.hasSink && ctl.isRunning && ctl.stops == old(ctl.stops)
      {
        var stepped, exchanged;
        ghost var at: int, lost: Record;
        ghost var before := data[..];
        stepped, exchanged, at, lost := CompareStep(i);
        if stepped != Finished {
          InterruptedThen(data[..], before, initial, at, lost);
          return stepped, swapped, at, lost;
        }
        PassStep(initial, before, n, i, swapped);
        swapped := swapped || exchanged;
        i := i + 1;
      }
      PassEnd(initial, data[..], n, i, swapped);
      return Finished, swapped, -1, Bar(0, 0, Default);
    }

    /** The loop of lines 186-190: tag every record of [0, n) `sorted`. */
    method MarkSorted(n: int)
      requires 0 <= n <= data.Length
      modifies data
      ensures forall p :: 0 <= p < data.Length ==> Item(data[p]) == Item(old(data[p]))
      ensures forall p :: 0 <= p < n ==> data[p].state == Sorted
      ensures forall p :: n <= p < data.Length ==> data[p] == old(data[p])
    {
      for k := 0 to n
        invariant forall p :: 0 <= p < data.Length ==> Item(data[p]) == Item(old(data[p]))
        invariant forall p :: 0 <= p < k ==> data[p].state == Sorted
        invariant forall p :: k <= p < data.Length ==> data[p] == old(data[p])
      {
        if data[k].state != Sorted {
          data[k] := data[k].(state := Sorted);
        }
      }
    }

    /**
     * The rest of a round (lines 18 to 19): tag `arr[n - 1]` `sorted`; without an
     * exchange tag all of [0, n - 1) `sorted` as well and leave the loop (`done`).
     * With n == 0 there is no `arr[n - 1]` and setting its state throws.
     */
    method EndRound(n: int, swapped: bool) returns (outcome: Outcome, done: bool)
      requires 0 <= n <= data.Length
      requires ctl.hasSink && ctl.isRunning
      modifies ctl, data
      ensures ctl.hasSink && ctl.stops == old(ctl.stops)
      ensures outcome == Finished ==> ctl.isRunning
      ensures outcome == Stopped ==> ctl.stops == ctl.resumed
      ensures outcome == Failed ==> n == 0
      ensures n == 0 ==> outcome != Finished
      ensures outcome != Finished ==> SameItems(data[..], old(data[..]))
      ensures outcome == Finished ==> done == !swapped
      ensures outcome == Finished && swapped ==> data[..] == old(data[..])[n - 1 := old(data[n - 1]).(state := Sorted)]
      ensures outcome == Finished && !swapped ==>
        (forall p :: 0 <= p < data.Length ==> Item(data[p]) == Item(old(data[p]))) &&
        (forall p :: 0 <= p < n ==> data[p].state == Sorted) &&
        (forall p :: n <= p < data.Length ==> data[p] == old(data[p]))
    {
      done := false;
      var slept := ctl.Announce(18);
      if slept != Finished { return slept, done; }
      if n == 0 {
        // arr[-1] is undefined: setting its state throws
        return Failed, done;
      }
      Retag(n - 1, Sorted);
      RetagKeepsItems(old(data[..]), n - 1, Sorted);

      if !swapped {
        MarkSorted(n - 1);
        return Finished, true;
      }

      slept := ctl.Announce(19);
      if slept != Finished { return slept, done; }
      return Finished, done;
    }

    /**
     * One round of the `do` loop (lines 5 to 19) with [n, |data|) already settled.
     * Without an exchange the round ends the sort: the records are sorted and all
     * tagged `sorted`. With one, `arr[n - 1]` joins the settled suffix.
     */
    method Round(ghost initial: seq<Record>, n: int) returns (outcome: Outcome, swapped: bool, ghost tornAt: int, ghost torn: Record)
      requires Settled(initial, data[..], n)
      requires ctl.hasSink && ctl.isRunning
      modifies ctl, data
      ensures ctl.hasSink && ctl.stops == old(ctl.stops)
      ensures outcome == Finished ==> ctl.isRunning
      ensures outcome == Stopped ==> ctl.stops == ctl.resumed
      ensures outcome == Failed ==> n == 0
      ensures outcome == Stopped ==> Interrupted(data[..], initial, tornAt, torn)
      ensures outcome != Stopped ==> SameItems(data[..], initial)
      ensures 0 <= tornAt ==> outcome == Stopped && tornAt + 1 < data.Length
      ensures outcome == Finished && !swapped ==> SortedBetween(data[..], 0, data.Length) && AllTagged(data[..], Sorted)
      ensures outcome == Finished && swapped ==> 2 <= n && Settled(initial, data[..], n - 1)
    {
      ghost var before := data[..];
      outcome, swapped, tornAt, torn := Pass(n);
      if outcome != Finished {
        InterruptedThen(data[..], before, initial, tornAt, torn);
        return;
      }
      ghost var after := data[..];
      PassKeepsSuffix(initial, before, after, n, swapped);

      if !ctl.isRunning {
        // the `break` of line 175: a round that completed leaves the flag set
        assert false;
      }

      var done;
      outcome, done := EndRound(n, swapped);
      if outcome != Finished {
        return;
      }
      if done {
        FinalSorted(initial, after, data[..], n);
        return;
      }
      SettleLast(initial, after, n);
    }

    /**
     * The `do ... while (swapped && isRunning)` loop of lines 5 to 19 on the whole
     * array: a completed run of it leaves the records sorted by value and all tagged
     * `sorted`.
     */
    method Rounds() returns (outcome: Outcome, ghost tornAt: int, ghost torn: Record)
      requires ctl.hasSink && ctl.isRunning
      modifies ctl, data
      ensures ctl.hasSink && ctl.stops == old(ctl.stops)
      ensures outcome == Finished ==> ctl.isRunning
      ensures outcome == Stopped ==> ctl.stops == ctl.resumed
      ensures outcome == Failed ==> data.Length == 0
      ensures outcome == Stopped ==> Interrupted(data[..], old(data[..]), tornAt, torn)
      ensures outcome != Stopped ==> SameItems(data[..], old(data[..]))
      ensures 0 <= tornAt ==> outcome == Stopped && tornAt + 1 < data.Length
      ensures outcome == Finished ==> SortedBetween(data[..], 0, data.Length) && AllTagged(data[..], Sorted)
    {
      ghost var initial := data[..];
      var n := data.Length;
      SettledStart(initial);
      while true
        invariant Settled(initial, data[..], n)
        invariant data.Length > 0 ==> n > 0
        invariant ctl.hasSink && ctl.isRunning && ctl.stops == old(ctl.stops)
        decreases n
      {
        var swapped;
        outcome, swapped, tornAt, torn := Round(initial, n);
        if outcome != Finished || !swapped {
          // a stop, a throw, or the `break` of line 192 after the last round
          return;
        }
        n := n - 1;
        if !(swapped && ctl.isRunning) {
          // the loop condition of line 197: a round that completed leaves the flag set
          break;
        }
      }
      assert false;
    }

    /**
     * `bubbleSortAlgorithm(data, delay)`. Every `await sleep` may be where the run
     * stops; a completed run leaves the records sorted by value and all tagged
     * `sorted` and ends the line trace with 21 and the idle line; an empty array
     * makes the run throw.
     */
    method BubbleSortAlgorithm() returns (outcome: Outcome, ghost tornAt: int, ghost torn: Record)
      modifies ctl, data
      ensures ctl.hasSink == old(ctl.hasSink) && ctl.stops == old(ctl.stops)
      ensures !ctl.hasSink ==> outcome == Finished && data[..] == old(data[..]) && ctl.lines == old(ctl.lines)
      ensures ctl.hasSink && old(ctl.isRunning) && ctl.stops == old(ctl.resumed) ==> outcome == Stopped && data[..] == old(data[..])
      ensures old(ctl.isRunning) && NeverStops(ctl.stops) && data.Length > 0 ==> outcome == Finished
      ensures ctl.hasSink && !old(ctl.isRunning) ==> outcome == Failed && data[..] == old(data[..])
      ensures outcome == Failed ==> data.Length == 0 || !old(ctl.isRunning)
      ensures outcome == Stopped ==> Interrupted(data[..], old(data[..]), tornAt, torn)
      ensures outcome != Stopped ==> SameItems(data[..], old(data[..]))
      ensures 0 <= tornAt ==> outcome == Stopped && tornAt + 1 < data.Length
      ensures outcome == Finished && ctl.hasSink ==>
        SortedBetween(data[..], 0, data.Length) && AllTagged(data[..], Sorted) &&
        |ctl.lines| >= 2 && ctl.lines[|ctl.lines| - 2] == 21 && ctl.lines[|ctl.lines| - 1] == IdleLine
    {
      tornAt, torn := -1, Bar(0, 0, Default);
      if !ctl.hasSink {
        return Finished, tornAt, torn;
      }
      outcome := ctl.Announce(1);
      if outcome != Finished { return outcome, tornAt, torn; }

      outcome := ctl.Announce(2);
      if outcome != Finished { return outcome, tornAt, torn; }

      outcome := ctl.Announce(3);
      if outcome != Finished { return outcome, tornAt, torn; }

      outcome, tornAt, torn := Rounds();
      if outcome != Finished {
        return outcome, tornAt, torn;
      }

      outcome := ctl.Announce(21);
      if outcome != Finished { return outcome, tornAt, torn; }
      ctl.Emit(IdleLine);
      return Finished, tornAt, torn;
    }
  }
}
