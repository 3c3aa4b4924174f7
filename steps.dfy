/**
 * The step machinery every algorithm module of the visualizer repeats:
 * the running flag, the optional line sink, the pending timer, the
 * cancellable `sleep` that separates two steps, and `cleanup`.
 *
 * Timing is not modelled. A suspension either resumes (its timer fired)
 * or is cancelled because `cleanup` ran while it was pending; which one
 * happens is decided by a stop oracle supplied with the run.
 */
module Steps {

  /** How the promise returned by `animate` ends. */
  datatype Outcome =
    | Finished   // the algorithm returned normally and the promise resolved
    | Stopped    // a suspension was cancelled: the run never continues
    | Failed     // the algorithm threw (the promise rejected)

  /**
   * When `cleanup` interrupts a run: at the suspension with this number (counting
   * from 0), or never when it is negative. Only the first interruption matters,
   * since the run does not continue after it.
   */
  type StopOracle = int

  /** The line id that means "no line active". */
  const IdleLine: int := -1

  predicate NeverStops(stops: StopOracle)
  {
    stops < 0
  }

  /** The module-level flags of one algorithm file, and what its line sink has received. */
  class Runner {
    var isRunning: bool
    var hasSink: bool          // onLineChange != null
    var timerSet: bool         // animationTimeout != null
    ghost var lines: seq<int>  // every line id sent to the sink, in order
    var stops: StopOracle      // when cleanup interrupts the current run
    var resumed: nat           // suspensions of the current run that have resumed

    /** The state of the module when it is loaded. */
    constructor ()
      ensures !isRunning && !hasSink && !timerSet
      ensures lines == [] && resumed == 0
    {
      isRunning := false;
      hasSink := false;
      timerSet := false;
      lines := [];
      stops := -1;
      resumed := 0;
    }

    /** The flag part of `initialize`: register the sink (or none) and set the running flag. */
    method Attach(sink: bool, running: bool)
      modifies this
      ensures hasSink == sink && isRunning == running
      ensures timerSet == old(timerSet) && lines == old(lines)
      ensures stops == old(stops) && resumed == old(resumed)
    {
      hasSink := sink;
      isRunning := running;
    }

    /** The flag part of `animate`: mark the controller running and begin a new run. */
    method Start(stops: StopOracle)
      modifies this
      ensures isRunning && this.stops == stops && resumed == 0
      ensures hasSink == old(hasSink) && timerSet == old(timerSet) && lines == old(lines)
    {
      isRunning := true;
      this.stops := stops;
      resumed := 0;
    }

    /** `onLineChange(line)`, sent only when a sink is registered. */
    method Emit(line: int)
      modifies this`lines
      ensures lines == old(lines) + (if hasSink then [line] else [])
    {
      if hasSink {
        lines := lines + [line];
      }
    }

    /**
     * `cleanup`: clear the running flag, cancel the pending timer and send the
     * idle line. A second call leaves the flags as the first did; the sink
     * receives the idle line again.
     */
    method Cleanup()
      modifies this
      ensures !isRunning && !timerSet
      ensures lines == old(lines) + (if hasSink then [IdleLine] else [])
      ensures hasSink == old(hasSink) && stops == old(stops) && resumed == old(resumed)
    {
      isRunning := false;
      if timerSet {
        timerSet := false;
      }
      if hasSink {
        lines := lines + [IdleLine];
      }
    }

    /**
     * `await sleep(delay)`. When the flag is already clear the promise rejects
     * ('Animation stopped') and the awaiting run throws. Otherwise a timer is
     * scheduled; if cleanup runs before it fires, the timer is cleared and the
     * awaiting code never resumes.
     */
    method Sleep() returns (outcome: Outcome)
      modifies this
      ensures outcome == (if !old(isRunning) then Failed else if old(resumed) == stops then Stopped else Finished)
      ensures hasSink == old(hasSink) && stops == old(stops)
      ensures outcome == Finished ==> isRunning && timerSet && resumed == old(resumed) + 1 && lines == old(lines)
      ensures outcome != Finished ==> !isRunning && resumed == old(resumed)
      ensures outcome == Stopped ==> !timerSet && lines == old(lines) + (if hasSink then [IdleLine] else [])
      ensures outcome == Failed ==> timerSet == old(timerSet) && lines == old(lines)
    {
      if !isRunning {
        return Failed;
      }
      timerSet := true;
      if resumed == stops {
        Cleanup();
        return Stopped;
      }
      resumed := resumed + 1;
      return Finished;
    }

    /** `onLineChange(line); await sleep(delay)`: announce a line, then suspend. */
    method Announce(line: int) returns (outcome: Outcome)
      modifies this
      ensures outcome == (if !old(isRunning) then Failed else if old(resumed) == stops then Stopped else Finished)
      ensures hasSink == old(hasSink) && stops == old(stops)
      ensures outcome == Finished ==>
        isRunning && resumed == old(resumed) + 1 && lines == old(lines) + (if hasSink then [line] else [])
      ensures outcome != Finished ==> !isRunning && resumed == old(resumed)
    {
      Emit(line);
      outcome := Sleep();
    }
  }
}
