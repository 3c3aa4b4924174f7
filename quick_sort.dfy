/**
 * The quicksort animation: Lomuto partition with the pivot at `end`, then
 * recursion on the two sides, over an array of bar records, tagging the
 * pivot, the record under comparison and each placed pivot, with a
 * suspension after every step.
 */
module QuickSort {
  import opened Steps
  import opened Bars

  datatype BarState = Default | Comparing | Sorted | Pivot

  type Record = Bar<BarState>

  /** The number of bars `initialize` generates. */
  const Size: nat := 15

  /**
   * One iteration of the partition loop at j, with [start, i] holding the records
   * found below the pivot so far: tag `arr[j]` `comparing`; when its value is below
   * the pivot, grow the low side by one and swap it in; then tag whatever record is
   * at j by now `default`. The result is the new i and the records.
   *
   * The reset tags the record found at j after the swap, so a record that was
   * swapped to i + 1 (i + 1 < j) keeps its `comparing` tag.
   */
  function ProbeStep(s: seq<Record>, i: int, j: int, pivot: int): (r: (int, seq<Record>))
    requires -1 <= i < j < |s|
    ensures |r.1| == |s| && r.1[j].state == Default
    ensures s[j].value < pivot ==>
      r.0 == i + 1 && Item(r.1[i + 1]) == Item(s[j]) && Item(r.1[j]) == Item(s[i + 1])
    ensures s[j].value < pivot && i + 1 < j ==> r.1[i + 1].state == Comparing
    ensures !(s[j].value < pivot) ==> r.0 == i && Item(r.1[j]) == Item(s[j])
    ensures forall k :: 0 <= k < |s| && k != i + 1 && k != j ==> r.1[k] == s[k]
  {
    var c := s[j := s[j].(state := Comparing)];
    if c[j].value < pivot then
      var t := Swap(c, i + 1, j);
      (i + 1, t[j := t[j].(state := Default)])
    else
      (i, c[j := c[j].(state := Default)])
  }

  /** A probe only moves whole records, and only at i + 1 and j. */
  lemma ProbeItems(s: seq<Record>, i: int, j: int, pivot: int)
    requires -1 <= i < j < |s|
    ensures Rearranged(s, ProbeStep(s, i, j, pivot).1, i + 1, j + 1)
  {
    var c := s[j := s[j].(state := Comparing)];
    RetagKeepsItems(s, j, Comparing);
    if c[j].value < pivot {
      var t := Swap(c, i + 1, j);
      SwapKeepsItems(c, i + 1, j);
      RetagKeepsItems(t, j, Default);
    } else {
      RetagKeepsItems(c, j, Default);
    }
  }

  /**
   * The invariant of the partition loop before iteration j, with the pivot at
   * `end`: only [start, end) has moved, [start, i] is below the pivot and
   * (i, j) is not.
   */
  ghost predicate PartSoFar(initial: seq<Record>, s: seq<Record>, start: int, end: int, i: int, j: int)
  {
    |s| == |initial| && 0 <= start <= j <= end < |s| && start - 1 <= i < j &&
    Rearranged(initial, s, start, end) &&
    (forall k :: start <= k <= i ==> s[k].value < s[end].value) &&
    (forall k :: i < k < j ==> s[end].value <= s[k].value)
  }

  lemma PartStart(s: seq<Record>, start: int, end: int)
    requires 0 <= start <= end < |s|
    ensures PartSoFar(s, s, start, end, start - 1, start)
  {
  }

  /** One probe keeps the partition invariant, one position further. */
  lemma PartStep(initial: seq<Record>, s: seq<Record>, start: int, end: int, i: int, j: int)
    requires PartSoFar(initial, s, start, end, i, j) && j < end
    ensures PartSoFar(initial, ProbeStep(s, i, j, s[end].value).1, start, end, ProbeStep(s, i, j, s[end].value).0, j + 1)
  {
    var r := ProbeStep(s, i, j, s[end].value);
    var t := r.1;
    ProbeItems(s, i, j, s[end].value);
    assert t[end] == s[end];
    forall k | 0 <= k < |t| && !(start <= k < end)
      ensures t[k] == initial[k]
    {
      assert t[k] == s[k];
    }
    forall k | start <= k <= r.0
      ensures t[k].value < t[end].value
    {
      if k <= i {
        assert t[k] == s[k];
      }
    }
    forall k | r.0 < k < j + 1
      ensures t[end].value <= t[k].value
    {
      if k < j && k != i + 1 {
        assert t[k] == s[k];
      }
    }
  }

  /** The three facts a partition establishes around the pivot it placed at p. */
  ghost predicate PivotAt(s: seq<Record>, start: int, p: int, end: int)
  {
    0 <= start <= p <= end < |s| &&
    (forall k :: start <= k < p ==> s[k].value < s[p].value) &&
    (forall k :: p < k <= end ==> s[p].value <= s[k].value)
  }

  /**
   * The pivot placement of lines 146 to 150: swap the pivot at `end` with the
   * record at p, and tag the pivot, now at p, `sorted`.
   */
  function PlacePivot(s: seq<Record>, p: int, end: int): (r: seq<Record>)
    requires 0 <= p <= end < |s|
    ensures |r| == |s| && Item(r[p]) == Item(s[end]) && r[p].state == Sorted
    ensures p < end ==> r[end] == s[p]
    ensures forall k :: 0 <= k < |s| && k != p && k != end ==> r[k] == s[k]
  {
    var t := Swap(s, p, end);
    t[p := t[p].(state := Sorted)]
  }

  /** A finished partition loop and the pivot placement leave the pivot between the two sides. */
  lemma Placed(initial: seq<Record>, s: seq<Record>, start: int, end: int, i: int)
    requires PartSoFar(initial, s, start, end, i, end)
    ensures PivotAt(PlacePivot(s, i + 1, end), start, i + 1, end)
    ensures Rearranged(initial, PlacePivot(s, i + 1, end), start, end + 1)
  {
    var u := PlacePivot(s, i + 1, end);
    SwapKeepsItems(s, i + 1, end);
    RetagKeepsItems(Swap(s, i + 1, end), i + 1, Sorted);
    forall k | start <= k < i + 1
      ensures u[k].value < u[i + 1].value
    {
      assert u[k] == s[k];
    }
    forall k | i + 1 < k <= end
      ensures u[i + 1].value <= u[k].value
    {
      if k < end {
        assert u[k] == s[k];
      }
    }
  }

  /**
   * Sorting both sides of a placed pivot, each within its own range, sorts the
   * whole range.
   */
  lemma SidesSorted(s1: seq<Record>, s2: seq<Record>, s3: seq<Record>, start: int, p: int, end: int)
    requires PivotAt(s1, start, p, end)
    requires Rearranged(s1, s2, start, p) && SortedBetween(s2, start, p)
    requires Rearranged(s2, s3, p + 1, end + 1) && SortedBetween(s3, p + 1, end + 1)
    ensures Rearranged(s1, s3, start, end + 1) && SortedBetween(s3, start, end + 1)
  {
    RearrangedBounds(s1, s2, start, p, s1[p].value);
    assert s2[p] == s1[p];
    forall k | p + 1 <= k < end + 1
      ensures s2[k] == s1[k]
    {
    }
    RearrangedBounds(s2, s3, p + 1, end + 1, s2[p].value);
    forall k | start <= k < p
      ensures s3[k] == s2[k]
    {
    }
    assert s3[p] == s2[p];
    forall a, b | start <= a < b < end + 1
      ensures s3[a].value <= s3[b].value
    {
      if a < p && p < b {
        assert s3[a].value < s3[p].value <= s3[b].value;
      }
    }
  }

  /** The module state of the quicksort file. */
  class QuickSortAnimation {
    var data: array<Record>
    var loaded: bool  // `data` holds an array; before the first `initialize` it is undefined
    const ctl: Runner

    /** The state of the module when it is loaded, before any `initialize`: no dataset yet. */
    constructor ()
      ensures fresh(ctl) && fresh(data) && data.Length == 0 && !loaded
      ensures !ctl.isRunning && !ctl.hasSink && !ctl.timerSet && ctl.lines == []
    {
      data := new Record[0];
      loaded := false;
      ctl := new Runner();
    }

    /**
     * `initialize`: generate a fresh dataset of 15 bars, clear the running flag
     * (unlike the other three algorithms) and register the sink.
     */
    method Initialize(draws: seq<real>, sink: bool)
      requires |draws| == Size && ValidDraws(draws)
      modifies this, ctl
      ensures fresh(data) && data[..] == GenerateRandomArray(draws, Default) && loaded
      ensures !ctl.isRunning && ctl.hasSink == sink
      ensures ctl.timerSet == old(ctl.timerSet) && ctl.lines == old(ctl.lines)
    {
      var records := GenerateRandomArray(draws, Default);
      data := new Record[|records|](k requires 0 <= k < |records| => records[k]);
      loaded := true;
      ctl.Attach(sink, false);
    }

    /**
     * `animate`: set the running flag and sort the whole current dataset in place.
     * Before any `initialize` the dataset is undefined and reading its length throws.
     * A stop at the first suspension leaves only the pivot `arr[end]` re-tagged.
     */
    method Animate(stops: StopOracle) returns (outcome: Outcome)
      modifies ctl, data
      ensures ctl.hasSink == old(ctl.hasSink) && ctl.stops == stops
      ensures !loaded ==> outcome == Failed && data[..] == old(data[..]) && ctl.lines == old(ctl.lines)
      ensures loaded ==> outcome != Failed
      ensures loaded && NeverStops(stops) ==> outcome == Finished
      ensures SameItems(data[..], old(data[..]))
      ensures outcome == Finished ==> SortedBetween(data[..], 0, data.Length)
      ensures loaded && data.Length <= 1 ==> outcome == Finished && data[..] == old(data[..]) && ctl.lines == old(ctl.lines)
      ensures loaded && data.Length > 1 && stops == 0 ==>
        outcome == Stopped && data[..] == old(data[..])[data.Length - 1 := old(data[data.Length - 1]).(state := Pivot)]
      ensures outcome == Finished && ctl.hasSink && data.Length > 1 ==>
        |ctl.lines| > 0 && ctl.lines[|ctl.lines| - 1] == IdleLine
    {
      ctl.Start(stops);
      if !loaded {
        // `data.length` on an undefined dataset throws
        return Failed;
      }
      outcome := QuickSortAlgorithm(0, data.Length - 1);
    }

    /** `cleanup`: stop the run, cancel the pending timer, send the idle line. */
    method Cleanup()
      modifies ctl
      ensures !ctl.isRunning && !ctl.timerSet && ctl.hasSink == old(ctl.hasSink)
      ensures ctl.lines == old(ctl.lines) + (if ctl.hasSink then [IdleLine] else [])
    {
      ctl.Cleanup();
    }

    /** Lines 117 to 121: take `arr[end]` as the pivot, tag it `pivot`, and suspend. */
    method TagPivot(end: int) returns (outcome: Outcome, pivot: Record)
      requires 0 <= end < data.Length
      requires ctl.isRunning
      modifies ctl, data
      ensures ctl.hasSink == old(ctl.hasSink) && ctl.stops == old(ctl.stops)
      ensures outcome != Failed
      ensures outcome == Finished ==> ctl.isRunning
      ensures outcome == Stopped ==> !ctl.isRunning && ctl.stops == ctl.resumed
      ensures outcome == Stopped <==> old(ctl.resumed) == ctl.stops
      ensures pivot == old(data[end])
      ensures data[..] == old(data[..])[end := pivot.(state := Pivot)]
      ensures Rearranged(old(data[..]), data[..], end, end + 1)
    {
      ctl.Emit(2);
      pivot := data[end];
      data[end] := data[end].(state := Pivot);
      RetagKeepsItems(old(data[..]), end, Pivot);
      outcome := ctl.Sleep();
    }

    /**
     * Lines 128 to 141, one iteration of the partition loop: compare `arr[j]` with
     * the pivot value and swap it to i + 1 when it is smaller.
     */
    method Probe(i: int, j: int, pivot: int) returns (outcome: Outcome, i': int)
      requires -1 <= i < j < data.Length
      requires ctl.isRunning
      modifies ctl, data
      ensures ctl.hasSink == old(ctl.hasSink) && ctl.stops == old(ctl.stops)
      ensures outcome != Failed
      ensures outcome == Finished ==> ctl.isRunning
      ensures outcome == Stopped ==> !ctl.isRunning && ctl.stops == ctl.resumed
      ensures outcome == Stopped ==> Rearranged(old(data[..]), data[..], i + 1, j + 1)
      ensures outcome == Finished ==> (i', data[..]) == ProbeStep(old(data[..]), i, j, pivot)
    {
      ghost var s0 := data[..];
      i' := i;
      data[j] := data[j].(state := Comparing);
      var slept := ctl.Sleep();
      if slept != Finished {
        RetagKeepsItems(s0, j, Comparing);
        return slept, i';
      }

      ctl.Emit(14);
      if data[j].value < pivot {
        i' := i + 1;
        ctl.Emit(17);
        ghost var s1 := data[..];
        var moved := data[i'];
        data[i'] := data[j];
        data[j] := moved;
        assert data[..] == Swap(s1, i', j);
        slept := ctl.Sleep();
        if slept != Finished {
          RetagKeepsItems(s0, j, Comparing);
          SwapKeepsItems(s1, i', j);
          return slept, i';
        }
      }

      data[j] := data[j].(state := Default);
      return Finished, i';
    }

    /**
     * The partition loop of lines 123 to 142, with the pivot at `end` and its value
     * `pivot`: on completion [start, i] is below the pivot and (i, end) is not.
     */
    method PartitionLoop(start: int, end: int, pivot: int) returns (outcome: Outcome, i: int)
      requires 0 <= start < end < data.Length && data[end].value == pivot
      requires ctl.isRunning
      modifies ctl, data
      ensures ctl.hasSink == old(ctl.hasSink) && ctl.stops == old(ctl.stops)
      ensures outcome != Failed
      ensures outcome == Finished ==> ctl.isRunning
      ensures outcome == Stopped ==> !ctl.isRunning && ctl.stops == ctl.resumed
      ensures outcome == Stopped ==> Rearranged(old(data[..]), data[..], start, end)
      ensures outcome == Finished ==> PartSoFar(old(data[..]), data[..], start, end, i, end)
    {
      ghost var initial := data[..];
      ctl.Emit(3);
      i := start - 1;
      ctl.Emit(13);
      PartStart(initial, start, end);
      var j := start;
      while j < end && ctl.isRunning
        invariant PartSoFar(initial, data[..], start, end, i, j)
        invariant ctl.hasSink == old(ctl.hasSink) && ctl.isRunning && ctl.stops == old(ctl.stops)
      {
        ghost var before := data[..];
        var probed, next := Probe(i, j, pivot);
        if probed != Finished {
          return probed, i;
        }
        PartStep(initial, before, start, end, i, j);
        i := next;
        j := j + 1;
      }
      return Finished, i;
    }

    /**
     * Lines 117 to 151 for start < end: tag the pivot `arr[end]`, partition around
     * its value, and place it at p with everything below it on the left.
     */
    method Partition(start: int, end: int) returns (outcome: Outcome, p: int)
      requires 0 <= start < end < data.Length
      requires ctl.isRunning
      modifies ctl, data
      ensures ctl.hasSink == old(ctl.hasSink) && ctl.stops == old(ctl.stops)
      ensures outcome != Failed
      ensures outcome == Finished ==> ctl.isRunning
      ensures outcome == Stopped ==> !ctl.isRunning && ctl.stops == ctl.resumed
      ensures Rearranged(old(data[..]), data[..], start, end + 1)
      ensures old(ctl.resumed) == ctl.stops ==>
        outcome == Stopped && data[..] == old(data[..])[end := old(data[end]).(state := Pivot)]
      ensures outcome == Finished ==>
        PivotAt(data[..], start, p, end) && Item(data[p]) == Item(old(data[end])) && data[p].state == Sorted
    {
      p := end;
      ghost var s0 := data[..];
      var pivot;
      outcome, pivot := TagPivot(end);
      if outcome != Finished {
        return;
      }
      ghost var s1 := data[..];
      var i;
      outcome, i := PartitionLoop(start, end, pivot.value);
      if outcome != Finished {
        RearrangedThen(s0, s1, data[..], start, end + 1, start, end);
        return;
      }
      if !ctl.isRunning {
        // the `return` of line 144: a loop that completed leaves the flag set
        assert false;
      }

      outcome := PlacePivotAt(s1, start, end, i);
      RearrangedThen(s0, s1, data[..], start, end + 1, start, end + 1);
      p := i + 1;
    }

    /**
     * Lines 146 to 151, after the partition loop left [start, i] below the pivot at
     * `end` and (i, end) not below it: swap the pivot into i + 1, tag it `sorted`,
     * and suspend. The records are placed before the suspension, so a stop there
     * leaves them placed.
     */
    method PlacePivotAt(ghost initial: seq<Record>, start: int, end: int, i: int) returns (outcome: Outcome)
      requires PartSoFar(initial, data[..], start, end, i, end)
      requires ctl.isRunning
      modifies ctl, data
      ensures ctl.hasSink == old(ctl.hasSink) && ctl.stops == old(ctl.stops)
      ensures outcome != Failed
      ensures outcome == Finished ==> ctl.isRunning
      ensures outcome == Stopped ==> !ctl.isRunning && ctl.stops == ctl.resumed
      ensures data[..] == PlacePivot(old(data[..]), i + 1, end)
      ensures PivotAt(data[..], start, i + 1, end) && Rearranged(initial, data[..], start, end + 1)
    {
      ctl.Emit(24);
      ghost var s0 := data[..];
      var p := i + 1;
      var moved := data[p];
      data[p] := data[end];
      data[end] := moved;
      // `pivot` is the record now at p
      data[p] := data[p].(state := Default);
      data[p] := data[p].(state := Sorted);
      assert data[..] == PlacePivot(s0, p, end);
      Placed(initial, s0, start, end, i);
      outcome := ctl.Sleep();
    }

    /**
     * `quickSortAlgorithm(arr, start, end, delay)`: sort [start, end] in place. Only
     * records in [start, end] move, and a stopped run still holds the same records.
     * A call with start >= end or with the flag clear returns at once.
     */
    method QuickSortAlgorithm(start: int, end: int) returns (outcome: Outcome)
      requires start < end ==> 0 <= start && end < data.Length
      modifies ctl, data
      ensures ctl.hasSink == old(ctl.hasSink) && ctl.stops == old(ctl.stops)
      ensures outcome != Failed
      ensures outcome == Finished ==> ctl.isRunning == old(ctl.isRunning)
      ensures outcome == Stopped ==> !ctl.isRunning && ctl.stops == ctl.resumed
      ensures Rearranged(old(data[..]), data[..], start, end + 1)
      ensures outcome == Finished && old(ctl.isRunning) ==> SortedBetween(data[..], start, end + 1)
      ensures start < end && old(ctl.isRunning) && old(ctl.resumed) == ctl.stops ==>
        outcome == Stopped && data[..] == old(data[..])[end := old(data[end]).(state := Pivot)]
      ensures start >= end || !old(ctl.isRunning) ==>
        outcome == Finished && data[..] == old(data[..]) && ctl.lines == old(ctl.lines)
      ensures outcome == Finished && ctl.hasSink && start < end && old(ctl.isRunning) ==>
        |ctl.lines| > 0 && ctl.lines[|ctl.lines| - 1] == IdleLine
      decreases end - start, 1
    {
      if start >= end || !ctl.isRunning {
        return Finished;
      }
      ghost var s0 := data[..];
      var p;
      outcome, p := Partition(start, end);
      if outcome != Finished {
        return;
      }
      ghost var s1 := data[..];
      outcome := SortSides(start, p, end);
      RearrangedThen(s0, s1, data[..], start, end + 1, start, end + 1);
    }

    /**
     * Lines 153 to 157, after the pivot was placed at p: sort [start, p - 1], then
     * [p + 1, end], then send the idle line.
     */
    method SortSides(start: int, p: int, end: int) returns (outcome: Outcome)
      requires PivotAt(data[..], start, p, end)
      requires ctl.isRunning
      modifies ctl, data
      ensures ctl.hasSink == old(ctl.hasSink) && ctl.stops == old(ctl.stops)
      ensures outcome != Failed
      ensures outcome == Finished ==> ctl.isRunning
      ensures outcome == Stopped ==> !ctl.isRunning && ctl.stops == ctl.resumed
      ensures Rearranged(old(data[..]), data[..], start, end + 1)
      ensures data[p] == old(data[p])
      ensures outcome == Finished ==> SortedBetween(data[..], start, end + 1)
      ensures outcome == Finished && ctl.hasSink ==> |ctl.lines| > 0 && ctl.lines[|ctl.lines| - 1] == IdleLine
      decreases end - start, 0
    {
      ghost var s1 := data[..];
      ctl.Emit(6);
      outcome := QuickSortAlgorithm(start, p - 1);
      if outcome != Finished {
        RearrangedThen(s1, s1, data[..], start, end + 1, start, p);
        return;
      }
      ghost var s2 := data[..];
      outcome := QuickSortAlgorithm(p + 1, end);
      if outcome != Finished {
        RearrangedThen(s1, s2, data[..], start, end + 1, p + 1, end + 1);
        return;
      }
      SidesSorted(s1, s2, data[..], start, p, end);
      ctl.Emit(IdleLine);
    }
  }
}
