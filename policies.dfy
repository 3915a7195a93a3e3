/** What the six policies share: the loop state, first dispatch, completion and the selection keys. */
module Policies {
  import opened Wrappers
  import opened ProcessModel
  import opened Aggregates
  import opened Timeline
  import opened Sorting

  /**
   * The state of a policy's loop: the clock, the records being simulated, the Gantt list,
   * the ready queue (indices into the records), the next position in the arrival order
   * (Round Robin only) and the number of completed processes.
   */
  datatype Sim = Sim(clock: int, work: seq<Record>, gantt: seq<Interval>, ready: seq<nat>, next: nat, completed: nat)

  /** The state after `reset()`: clock 0, empty Gantt list, nothing ready or completed. */
  function Start(init: seq<Record>): Sim {
    Sim(0, init, [], [], 0, 0)
  }

  /** Records as `reset()` leaves them. */
  predicate AllReset(init: seq<Record>) {
    forall i | 0 <= i < |init| :: init[i] == init[i].Reset()
  }

  /** Every process needs at least one unit of CPU. */
  predicate Runnable(init: seq<Record>) {
    forall i | 0 <= i < |init| :: init[i].burstTime >= 1
  }

  /** The inputs of two record lists agree position by position. */
  predicate SameInputs(a: seq<Record>, b: seq<Record>) {
    |a| == |b| && forall i | 0 <= i < |a| :: a[i].Inputs() == b[i].Inputs()
  }

  /** Dispatch at `clock`: the start and response times are recorded the first time only; the process is RUNNING. */
  function Dispatch(r: Record, clock: int): (r': Record)
    ensures r'.Inputs() == r.Inputs() && r'.remainingTime == r.remainingTime
  {
    var first := if r.startTime.None?
      then r.(startTime := Some(clock), responseTime := Some(clock - r.arrivalTime))
      else r;
    first.(state := Running)
  }

  /**
   * Dispatch makes the process RUNNING and records its start and response times at its first
   * dispatch only: a second dispatch, at any later clock, changes nothing more.
   */
  lemma DispatchFirstOnly(r: Record, clock: int, later: int)
    ensures var r' := Dispatch(r, clock);
      && r'.state == Running
      && (r.startTime.None? ==> r'.startTime == Some(clock) && r'.responseTime == Some(clock - r.arrivalTime))
      && (r.startTime.Some? ==> r'.startTime == r.startTime && r'.responseTime == r.responseTime)
      && r'.completionTime == r.completionTime && r'.turnaroundTime == r.turnaroundTime
      && r'.waitingTime == r.waitingTime
      && Dispatch(r', later) == r'
  {
  }

  /** Completion at `clock`: turnaround = completion - arrival, waiting = turnaround - burst. */
  function Finish(r: Record, clock: int): (r': Record)
    ensures r'.Inputs() == r.Inputs() && r'.remainingTime == r.remainingTime && r'.startTime == r.startTime
  {
    var turnaround := clock - r.arrivalTime;
    r.(completionTime := clock, turnaroundTime := turnaround, waitingTime := turnaround - r.burstTime,
       state := Terminated)
  }

  /** The first field of a selection key. */
  datatype Criterion = Burst | Remaining | Priority

  /** The key `(criterion, arrival_time, pid)` of record `i`. */
  function SelectionKey(work: seq<Record>, c: Criterion, i: nat): Key {
    if i < |work| then
      var r := work[i];
      (match c
       case Burst => r.burstTime
       case Remaining => r.remainingTime
       case Priority => r.priority,
       r.arrivalTime, r.pid)
    else (0, 0, 0)
  }

  /** The selection key of the criterion on positions of `work`. */
  function KeyOf(work: seq<Record>, c: Criterion): nat -> Key {
    (j: nat) => SelectionKey(work, c, j)
  }

  /** The key `arrival_time` of record `i`. */
  function ArrivalKey(work: seq<Record>, i: nat): Key {
    if i < |work| then (work[i].arrivalTime, 0, 0) else (0, 0, 0)
  }

  /** The key `(arrival_time, pid)` of record `i`. */
  function ArrivalPidKey(work: seq<Record>, i: nat): Key {
    if i < |work| then (work[i].arrivalTime, work[i].pid, 0) else (0, 0, 0)
  }

  /** The positions of the records sorted by `(arrival_time, pid)`. */
  function ArrivalPidOrder(work: seq<Record>): seq<nat> {
    SortBy(Range(|work|), (i: nat) => ArrivalPidKey(work, i))
  }

  /** The positions of the records sorted by `arrival_time` alone. */
  function ArrivalOrder(work: seq<Record>): seq<nat> {
    SortBy(Range(|work|), (i: nat) => ArrivalKey(work, i))
  }

  /** An order lists every position exactly once. */
  predicate IsOrder(order: seq<nat>, n: nat) {
    && |order| == n
    && (forall j | 0 <= j < |order| :: order[j] < n)
    && (forall i | 0 <= i < n :: i in order)
    && NoDup(order)
  }

  /** A rearrangement of `Range(n)` lists every position exactly once. */
  lemma PermutedRangeIsOrder(s: seq<nat>, n: nat)
    requires multiset(s) == multiset(Range(n))
    ensures IsOrder(s, n)
  {
    var r := Range(n);
    forall j | 0 <= j < |s| ensures s[j] < n {
      assert s[j] in multiset(r);
    }
    forall i | 0 <= i < n ensures i in s {
      assert r[i] in multiset(s);
    }
    assert NoDup(r);
    NoDupPermutation(r, s);
  }

  /** A sort of `Range(n)` lists every position exactly once. */
  lemma SortedRangeIsOrder(n: nat, key: nat -> Key)
    ensures IsOrder(SortBy(Range(n), key), n)
  {
    PermutedRangeIsOrder(SortBy(Range(n), key), n);
  }

  /** Both arrival orders list every position exactly once. */
  lemma ArrivalOrdersAreOrders(work: seq<Record>)
    ensures IsOrder(ArrivalPidOrder(work), |work|)
    ensures IsOrder(ArrivalOrder(work), |work|)
  {
    SortedRangeIsOrder(|work|, (i: nat) => ArrivalPidKey(work, i));
    SortedRangeIsOrder(|work|, (i: nat) => ArrivalKey(work, i));
  }

  /** Burst of a terminated record, 0 otherwise: the CPU time a non-preemptive run has handed out. */
  function DoneBurst(r: Record): int {
    if r.state == Terminated then r.burstTime else 0
  }

  /** CPU time a preemptive run has handed out to a record. */
  function Executed(r: Record): int {
    r.burstTime - r.remainingTime
  }

  /**
   * A record a non-preemptive policy has served: terminated, dispatched once at or after its
   * arrival and run for its whole burst from there, so its response time equals its waiting time.
   */
  predicate RanOnce(r: Record) {
    && r.state == Terminated
    && r.startTime.Some?
    && r.arrivalTime <= r.startTime.value
    && r.completionTime == r.startTime.value + r.burstTime
    && Settled(r)
    && r.responseTime.value == r.waitingTime
  }

  /** A record never dispatched before, dispatched at or after its arrival and run for its whole burst, has run once. */
  lemma DispatchFinishRanOnce(r: Record, start: int)
    requires r.startTime.None? && r.arrivalTime <= start
    ensures RanOnce(Finish(Dispatch(r, start), start + r.burstTime))
  {
  }

  /**
   * A record of a preemptive or Round Robin run at time `clock`, against its reset state `init`:
   * untouched until its first dispatch; once dispatched, its response time is fixed and it has not
   * run longer than the time since its start; once terminated (exactly when nothing remains), its
   * completion lies after start + burst and its turnaround and waiting times are derived from it.
   */
  predicate Accounted(r: Record, init: Record, clock: int) {
    && r.Inputs() == init.Inputs()
    && 0 <= r.remainingTime <= r.burstTime
    && (r.state == Terminated <==> r.remainingTime == 0)
    && (r.startTime.None? ==> r == init && r.remainingTime == r.burstTime)
    && (r.startTime.Some? ==>
          && r.arrivalTime <= r.startTime.value
          && r.responseTime == Some(r.startTime.value - r.arrivalTime)
          && r.startTime.value + Executed(r) <= clock)
    && (r.state == Terminated ==>
          && r.startTime.Some?
          && r.completionTime <= clock
          && r.turnaroundTime == r.completionTime - r.arrivalTime
          && r.waitingTime == r.turnaroundTime - r.burstTime
          && r.startTime.value + r.burstTime <= r.completionTime)
  }

  /** A record as `reset()` leaves it, with a burst of 1 or more, is accounted for at any time. */
  lemma ResetAccounted(r: Record, clock: int)
    requires r == r.Reset() && r.burstTime >= 1
    ensures Accounted(r, r, clock) && !r.IsCompleted()
  {
  }

  /** Accounting holds on as the clock moves on. */
  lemma AccountedLater(r: Record, init: Record, clock: int, clock': int)
    requires Accounted(r, init, clock) && clock <= clock'
    ensures Accounted(r, init, clock')
  {
  }

  /** A terminated, accounted record has settled metrics. */
  lemma AccountedSettled(r: Record, init: Record, clock: int)
    requires Accounted(r, init, clock) && r.state == Terminated
    ensures Settled(r)
  {
  }

  /**
   * Dispatching an arrived, unfinished record at `clock` and running it for `units` (between 1 and
   * what remains) keeps it accounted for at `clock + units`, finished or not.
   */
  lemma RunAccounted(r: Record, init: Record, clock: int, units: int)
    requires Accounted(r, init, clock) && r.state != Terminated && r.arrivalTime <= clock
    requires 1 <= units <= r.remainingTime
    ensures var r' := Dispatch(r, clock).(remainingTime := r.remainingTime - units);
      && r'.state != Terminated
      && (r'.remainingTime > 0 ==> Accounted(r', init, clock + units))
      && (r'.remainingTime == 0 ==> Accounted(Finish(r', clock + units), init, clock + units))
  {
  }

  /**
   * A record of a preemptive or Round Robin run against the Gantt list so far: its entries add up
   * to the CPU time it has had; it has entries exactly once it has been dispatched, the first one
   * starting at its start time; once terminated, its last entry ends at its completion.
   */
  predicate Traced(r: Record, g: seq<Interval>) {
    var s := Slices(g, r.pid);
    && BusyTime(s) == Executed(r)
    && (r.startTime.None? ==> s == [])
    && (r.startTime.Some? ==> |s| > 0 && s[0].start == r.startTime.value)
    && (r.state == Terminated ==> |s| > 0 && LastEnd(s) == r.completionTime)
  }

  /** Every record is traced, and pids tell the records apart. */
  predicate Tracing(s: Sim) {
    DistinctPids(s.work) && forall i | 0 <= i < |s.work| :: Traced(s.work[i], s.gantt)
  }

  /** Records as `reset()` leaves them, before anything has run, are traced. */
  lemma StartTracing(init: seq<Record>)
    requires AllReset(init) && DistinctPids(init)
    ensures Tracing(Start(init))
  {
    forall i | 0 <= i < |init| ensures Traced(init[i], []) {
      assert init[i] == init[i].Reset();
    }
  }

  /** A traced record that has run its whole burst and terminated agrees with its entries. */
  lemma TracedFinished(r: Record, g: seq<Interval>)
    requires Traced(r, g) && r.state == Terminated && r.startTime.Some? && r.remainingTime == 0
    ensures MatchesSlices(r, g)
  {
  }

  /** Replacing record `i` by one with the same inputs keeps the pids apart. */
  lemma DistinctPidsUpdate(rs: seq<Record>, i: nat, r: Record)
    requires DistinctPids(rs) && i < |rs| && r.Inputs() == rs[i].Inputs()
    ensures DistinctPids(rs[i := r])
  {
    assert forall j | 0 <= j < |rs| :: rs[i := r][j].pid == rs[j].pid;
  }
}
