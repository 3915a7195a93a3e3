/**
 * The process record of the simulator (process_scheduler/process.py): four fixed inputs,
 * the simulation fields a scheduling policy fills in, and the small state machine
 * `Execute` / `IsCompleted` / `Reset`.
 */
module ProcessModel {
  import opened Wrappers

  /** Life-cycle states. `Waiting` exists in the source but no policy uses it. */
  datatype ProcessState = New | Ready | Running | Waiting | Terminated

  /** Every field of a process, as a value. It is what a deep copy of a process holds. */
  datatype Record = Record(
    pid: int,
    arrivalTime: int,
    burstTime: int,
    priority: int,
    remainingTime: int,
    state: ProcessState,
    waitingTime: int,
    turnaroundTime: int,
    responseTime: Option<int>,
    completionTime: int,
    startTime: Option<int>)
  {
    /** A process is done when nothing remains to run or it has been terminated. */
    predicate IsCompleted() {
      remainingTime == 0 || state == Terminated
    }

    /** The record `reset()` leaves behind: the inputs kept, every simulation field initial. */
    function Reset(): Record {
      Fresh(pid, arrivalTime, burstTime, priority, None)
    }

    /**
     * Running for `units`: only a RUNNING process consumes time; it consumes at most what
     * remains and terminates when nothing remains. Returns the new record and the time used.
     */
    function Execute(units: int): (Record, int) {
      if state != Running then (this, 0)
      else
        var executed := if units < remainingTime then units else remainingTime;
        var left := remainingTime - executed;
        (this.(remainingTime := left, state := if left == 0 then Terminated else state), executed)
    }

    /** `p < q` compares the priorities and nothing else. */
    predicate Less(other: Record) {
      priority < other.priority
    }

    /** The fixed inputs, which no operation of the simulator changes. */
    function Inputs(): (int, int, int, int) {
      (pid, arrivalTime, burstTime, priority)
    }
  }

  /**
   * A newly created process: `remainingTime` is the burst unless one is given, the state
   * is NEW and every timestamp and metric is at its initial value.
   */
  function Fresh(pid: int, arrivalTime: int, burstTime: int, priority: int, remainingTime: Option<int>): (r: Record)
    ensures r.Inputs() == (pid, arrivalTime, burstTime, priority)
    ensures r.remainingTime == if remainingTime.Some? then remainingTime.value else burstTime
    ensures r.state == New && r.startTime == None && r.responseTime == None
  {
    Record(pid, arrivalTime, burstTime, priority, remainingTime.GetOr(burstTime), New, 0, 0, None, 0, None)
  }

  /** A process with its simulation fields updated in place. */
  class Process {
    const pid: int
    const arrivalTime: int
    const burstTime: int
    const priority: int
    var remainingTime: int
    var state: ProcessState
    var waitingTime: int
    var turnaroundTime: int
    var responseTime: Option<int>
    var completionTime: int
    var startTime: Option<int>

    /** The current value of every field. */
    function Snapshot(): (r: Record)
      reads this
      ensures r.Inputs() == (pid, arrivalTime, burstTime, priority)
    {
      Record(pid, arrivalTime, burstTime, priority, remainingTime, state, waitingTime,
             turnaroundTime, responseTime, completionTime, startTime)
    }

    /** The record this process has right after creation without a remaining time, or after `Reset`. */
    function Initial(): Record {
      Fresh(pid, arrivalTime, burstTime, priority, None)
    }

    /** Creation with the source's defaults; a missing remaining time becomes the burst. */
    constructor (pid: int, arrivalTime: int := 0, burstTime: int := 1, priority: int := 0,
                 remainingTime: Option<int> := None)
      ensures Snapshot() == Fresh(pid, arrivalTime, burstTime, priority, remainingTime)
    {
      this.pid := pid;
      this.arrivalTime := arrivalTime;
      this.burstTime := burstTime;
      this.priority := priority;
      this.remainingTime := if remainingTime.None? then burstTime else remainingTime.value;
      this.state := New;
      this.waitingTime := 0;
      this.turnaroundTime := 0;
      this.responseTime := None;
      this.completionTime := 0;
      this.startTime := None;
    }

    method Execute(timeUnits: int := 1) returns (executed: int)
      modifies this
      ensures (Snapshot(), executed) == old(Snapshot()).Execute(timeUnits)
    {
      if state != Running {
        return 0;
      }
      executed := if timeUnits < remainingTime then timeUnits else remainingTime;
      remainingTime := remainingTime - executed;
      if remainingTime == 0 {
        state := Terminated;
      }
    }

    predicate IsCompleted()
      reads this
    {
      remainingTime == 0 || state == Terminated
    }

    method Reset()
      modifies this
      ensures Snapshot() == old(Snapshot()).Reset() == Initial()
    {
      remainingTime := burstTime;
      state := New;
      waitingTime := 0;
      turnaroundTime := 0;
      responseTime := None;
      completionTime := 0;
      startTime := None;
    }

    predicate Less(other: Process) {
      priority < other.priority
    }
  }

  /** `IsCompleted` on the object agrees with `IsCompleted` on its snapshot. */
  lemma IsCompletedOfSnapshot(p: Process)
    ensures p.IsCompleted() <==> p.Snapshot().IsCompleted()
  {
  }

  /** A process that is not RUNNING consumes nothing and is left as it was. */
  lemma ExecuteWhenNotRunning(r: Record, units: int)
    requires r.state != Running
    ensures r.Execute(units) == (r, 0)
  {
  }

  /**
   * For a non-negative request, a RUNNING process consumes `min(units, remainingTime)`,
   * keeps its remaining time within `[0, old remaining]`, terminates exactly when nothing
   * remains, and changes no other field.
   */
  lemma ExecuteConsumes(r: Record, units: int)
    requires r.state == Running && units >= 0 && r.remainingTime >= 0
    ensures var (r', used) := r.Execute(units);
      && used == (if units <= r.remainingTime then units else r.remainingTime)
      && r'.remainingTime == r.remainingTime - used
      && 0 <= r'.remainingTime <= r.remainingTime
      && (r'.state == Terminated <==> r'.remainingTime == 0)
      && (r'.state == Running <==> r'.remainingTime > 0)
      && r' == r.(remainingTime := r'.remainingTime, state := r'.state)
  {
  }

  /**
   * Executing `a` units and then `b` units ends in the same record, and consumes the same
   * total time, as executing `a + b` units at once.
   */
  lemma ExecuteSplits(r: Record, a: int, b: int)
    requires a >= 0 && b >= 0 && r.remainingTime >= 0
    ensures var (r1, u1) := r.Execute(a);
            var (r2, u2) := r1.Execute(b);
            (r2, u1 + u2) == r.Execute(a + b)
  {
  }

  /** After any execution, resetting gives back the same record as resetting beforehand. */
  lemma ResetForgetsExecution(r: Record, units: int)
    ensures r.Execute(units).0.Reset() == r.Reset()
  {
  }

  /** Resetting keeps the inputs, leaves a NEW process with its whole burst to run, and is idempotent. */
  lemma ResetIsIdempotent(r: Record)
    ensures r.Reset().Inputs() == r.Inputs()
    ensures r.Reset().remainingTime == r.burstTime && r.Reset().state == New
    ensures r.Reset().Reset() == r.Reset()
    ensures r.Reset().IsCompleted() <==> r.burstTime == 0
  {
  }

  /** `Less` orders by priority alone: two processes of equal priority are unordered, whatever their other fields. */
  lemma LessIsPriorityOnly(p: Record, q: Record)
    ensures p.Less(q) <==> p.priority < q.priority
    ensures p.priority == q.priority ==> !p.Less(q) && !q.Less(p)
    ensures !(p.Less(q) && q.Less(p))
  {
  }
}
