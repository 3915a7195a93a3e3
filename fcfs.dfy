/**
 * First Come First Served (FCFSScheduler.schedule): processes in `(arrival_time, pid)` order,
 * the clock jumping to an arrival when the CPU would be idle, each run to completion.
 */
module FcfsPolicy {
  import opened Wrappers
  import opened ProcessModel
  import opened Aggregates
  import opened Timeline
  import opened Sorting
  import opened Policies

  /** One pass of the loop for record `i`: wait for its arrival, run its whole burst, record its metrics. */
  function Step(s: Sim, i: nat): (s': Sim)
    requires i < |s.work|
    ensures |s'.work| == |s.work|
  {
    var r := s.work[i];
    var start := Max(s.clock, r.arrivalTime);
    var end := start + r.burstTime;
    s.(clock := end,
       work := s.work[i := Finish(Dispatch(r, start), end)],
       gantt := s.gantt + [Interval(r.pid, start, end)])
  }

  /** The pass for record `i`, spelled out. */
  lemma StepIs(s: Sim, i: nat)
    requires i < |s.work|
    ensures var r := s.work[i]; var start := Max(s.clock, r.arrivalTime);
      && Step(s, i).work == s.work[i := Finish(Dispatch(r, start), start + r.burstTime)]
      && Step(s, i).gantt == s.gantt + [Interval(r.pid, start, start + r.burstTime)]
      && Step(s, i).clock == start + r.burstTime
  {
  }

  /** The loop from position `k` of the order on. */
  function RunFrom(order: seq<nat>, k: nat, s: Sim): (s': Sim)
    requires forall j | 0 <= j < |order| :: order[j] < |s.work|
    ensures |s'.work| == |s.work|
    decreases |order| - k
  {
    if k >= |order| then s else RunFrom(order, k + 1, Step(s, order[k]))
  }

  /** The whole run on records as `reset()` leaves them. */
  function Run(init: seq<Record>): Sim {
    ArrivalOrdersAreOrders(init);
    RunFrom(ArrivalPidOrder(init), 0, Start(init))
  }

  function Max(a: int, b: int): int {
    if a < b then b else a
  }

  /** Where the interval at position `j` of an FCFS timeline may start: at the previous end, or 0 for the first. */
  function PreviousEnd(g: seq<Interval>, j: nat): int
    requires j <= |g|
  {
    if j == 0 then 0 else g[j - 1].end
  }

  /** A served process and its one interval `[start, start + burst)`. */
  predicate Served(r: Record, iv: Interval) {
    RanOnce(r) && iv == Interval(r.pid, r.startTime.value, r.completionTime)
  }

  /** The shape of the state after `k` processes of the order have run. */
  predicate Shape(init: seq<Record>, order: seq<nat>, k: nat, s: Sim) {
    && |order| == |init| && (forall j | 0 <= j < |order| :: order[j] < |init|) && NoDup(order)
    && AllReset(init) && Runnable(init)
    && k <= |order|
    && SameInputs(s.work, init)
    && |s.gantt| == k
    && (forall j | k <= j < |order| :: s.work[order[j]] == init[order[j]])
  }

  /** The processes run so far are served, each one at the later of the previous end and its arrival. */
  predicate ServedSoFar(init: seq<Record>, order: seq<nat>, k: nat, s: Sim)
    requires Shape(init, order, k, s)
  {
    && (forall j | 0 <= j < k :: Served(s.work[order[j]], s.gantt[j]))
    && (forall j | 0 <= j < k ::
          s.gantt[j].start == Max(PreviousEnd(s.gantt, j), init[order[j]].arrivalTime))
  }

  /** The loop's invariant after `k` processes of the order have run. */
  predicate Good(init: seq<Record>, order: seq<nat>, k: nat, s: Sim) {
    && Shape(init, order, k, s)
    && ServedSoFar(init, order, k, s)
    && s.clock == PreviousEnd(s.gantt, k)
    && Ordered(s.gantt)
    && BusyTime(s.gantt) == SumBy(s.work, DoneBurst)
  }

  /** The position run at step `k` is run at no other step. */
  lemma OrderDistinct(order: seq<nat>, k: nat)
    requires NoDup(order) && k < |order|
    ensures forall j | 0 <= j < |order| && j != k :: order[j] != order[k]
  {
  }

  lemma StepShape(init: seq<Record>, order: seq<nat>, k: nat, s: Sim)
    requires Shape(init, order, k, s) && k < |order|
    ensures Shape(init, order, k + 1, Step(s, order[k]))
  {
    OrderDistinct(order, k);
  }

  /** Updating a record not yet run and appending an interval leave the earlier services as they were. */
  lemma ServedKept(init: seq<Record>, order: seq<nat>, k: nat, work: seq<Record>, gantt: seq<Interval>,
                   i: nat, r: Record, iv: Interval)
    requires |gantt| == k <= |order| && i < |work|
    requires forall j | 0 <= j < k :: order[j] < |work| && order[j] != i
    requires forall j | 0 <= j < k :: Served(work[order[j]], gantt[j])
    requires forall j | 0 <= j < k ::
      order[j] < |init| && gantt[j].start == Max(PreviousEnd(gantt, j), init[order[j]].arrivalTime)
    ensures forall j | 0 <= j < k :: Served(work[i := r][order[j]], (gantt + [iv])[j])
    ensures forall j | 0 <= j < k ::
      (gantt + [iv])[j].start == Max(PreviousEnd(gantt + [iv], j), init[order[j]].arrivalTime)
  {
    var g := gantt + [iv];
    forall j | 0 <= j < k
      ensures Served(work[i := r][order[j]], g[j])
      ensures g[j].start == Max(PreviousEnd(g, j), init[order[j]].arrivalTime)
    {
      assert work[i := r][order[j]] == work[order[j]];
      assert g[j] == gantt[j];
      assert PreviousEnd(g, j) == PreviousEnd(gantt, j);
    }
  }

  lemma StepServed(init: seq<Record>, order: seq<nat>, k: nat, s: Sim)
    requires Shape(init, order, k, s) && ServedSoFar(init, order, k, s) && k < |order|
    requires s.clock == PreviousEnd(s.gantt, k)
    ensures Shape(init, order, k + 1, Step(s, order[k]))
    ensures ServedSoFar(init, order, k + 1, Step(s, order[k]))
  {
    StepShape(init, order, k, s);
    OrderDistinct(order, k);
    var i := order[k];
    var s' := Step(s, i);
    var r := s.work[i];
    assert r == init[i];
    var start := Max(s.clock, r.arrivalTime);
    var r' := Finish(Dispatch(r, start), start + r.burstTime);
    var iv := Interval(r.pid, start, start + r.burstTime);
    DispatchFinishRanOnce(r, start);
    StepIs(s, i);
    ServedKept(init, order, k, s.work, s.gantt, i, r', iv);
    assert Served(s'.work[order[k]], s'.gantt[k]);
    assert s'.gantt[k].start == Max(PreviousEnd(s'.gantt, k), init[order[k]].arrivalTime);
  }

  lemma StepTimeline(s: Sim, i: nat)
    requires i < |s.work| && s.work[i].burstTime >= 1 && s.work[i].state != Terminated
    requires s.clock == PreviousEnd(s.gantt, |s.gantt|)
    requires Ordered(s.gantt)
    requires BusyTime(s.gantt) == SumBy(s.work, DoneBurst)
    ensures var s' := Step(s, i);
      && s'.clock == PreviousEnd(s'.gantt, |s'.gantt|)
      && Ordered(s'.gantt)
      && BusyTime(s'.gantt) == SumBy(s'.work, DoneBurst)
  {
    var s' := Step(s, i);
    var iv := s'.gantt[|s.gantt|];
    assert s'.gantt == s.gantt + [iv];
    BusyTimeAppend(s.gantt, iv);
    OrderedAppend(s.gantt, iv);
    SumByUpdate(s.work, i, s'.work[i], DoneBurst);
  }

  lemma StepGood(init: seq<Record>, order: seq<nat>, k: nat, s: Sim)
    requires Good(init, order, k, s) && k < |order|
    ensures Good(init, order, k + 1, Step(s, order[k]))
  {
    StepServed(init, order, k, s);
    assert s.work[order[k]] == init[order[k]];
    StepTimeline(s, order[k]);
  }

  lemma {:induction false} RunFromGood(init: seq<Record>, order: seq<nat>, k: nat, s: Sim)
    requires Good(init, order, k, s)
    ensures Good(init, order, |order|, RunFrom(order, k, s))
    decreases |order| - k
  {
    if k < |order| {
      var s' := Step(s, order[k]);
      StepGood(init, order, k, s);
      RunFromGood(init, order, k + 1, s');
      assert RunFrom(order, k, s) == RunFrom(order, k + 1, s');
    } else {
      assert RunFrom(order, k, s) == s;
    }
  }

  /** The invariant holds before the first pass. */
  lemma StartGood(init: seq<Record>)
    requires AllReset(init) && Runnable(init)
    ensures Good(init, ArrivalPidOrder(init), 0, Start(init))
  {
    ArrivalOrdersAreOrders(init);
    SumByPointwise(init, DoneBurst, _ => 0);
    SumByConstant(init, 0);
  }

  /** After the whole run every process of the order has been served. */
  lemma RunGood(init: seq<Record>)
    requires AllReset(init) && Runnable(init)
    ensures Good(init, ArrivalPidOrder(init), |init|, Run(init))
  {
    var order := ArrivalPidOrder(init);
    ArrivalOrdersAreOrders(init);
    StartGood(init);
    RunFromGood(init, order, 0, Start(init));
    assert Run(init) == RunFrom(order, 0, Start(init));
  }

  /** Records with the same inputs have the same total burst. */
  lemma {:induction false} SumByInputs(a: seq<Record>, b: seq<Record>)
    requires SameInputs(a, b)
    ensures SumBy(a, BurstOf) == SumBy(b, BurstOf)
  {
    if a != [] {
      SumByInputs(a[1..], b[1..]);
    }
  }

  /** Where in the order a position was served. */
  lemma ServedAt(order: seq<nat>, work: seq<Record>, gantt: seq<Interval>, i: nat) returns (j: nat)
    requires |gantt| == |order| && (forall j | 0 <= j < |order| :: order[j] < |work|)
    requires forall j | 0 <= j < |order| :: Served(work[order[j]], gantt[j])
    requires i in order
    ensures j < |order| && order[j] == i && Served(work[i], gantt[j])
  {
    j :| 0 <= j < |order| && order[j] == i;
  }

  /** No served process completes after the timeline ends. */
  lemma CompletionsWithinLastEnd(order: seq<nat>, work: seq<Record>, gantt: seq<Interval>)
    requires |gantt| == |order| > 0 && (forall j | 0 <= j < |order| :: order[j] < |work|)
    requires forall j | 0 <= j < |order| :: Served(work[order[j]], gantt[j])
    requires forall i | 0 <= i < |work| :: i in order
    requires Ordered(gantt)
    ensures forall i | 0 <= i < |work| :: work[i].completionTime <= LastEnd(gantt)
  {
    EndsBeforeLast(gantt);
    forall i | 0 <= i < |work| ensures work[i].completionTime <= LastEnd(gantt) {
      var j := ServedAt(order, work, gantt, i);
    }
  }

  /** Every position served once, in an ordered timeline: the run is well formed. */
  lemma ServedRun(order: seq<nat>, work: seq<Record>, gantt: seq<Interval>)
    requires |gantt| == |order| == |work| && (forall j | 0 <= j < |order| :: order[j] < |work|)
    requires forall j | 0 <= j < |order| :: Served(work[order[j]], gantt[j])
    requires forall i | 0 <= i < |work| :: i in order
    requires Ordered(gantt) && BusyTime(gantt) == SumBy(work, DoneBurst)
    ensures forall i | 0 <= i < |work| ::
      work[i].state == Terminated && work[i].responseTime == Some(work[i].waitingTime)
    ensures WellFormedRun(work, gantt)
  {
    forall i | 0 <= i < |work|
      ensures work[i].state == Terminated && Settled(work[i])
      ensures work[i].responseTime == Some(work[i].waitingTime)
    {
      var j := ServedAt(order, work, gantt, i);
    }
    SumByPointwise(work, DoneBurst, BurstOf);
    if |work| > 0 {
      CompletionsWithinLastEnd(order, work, gantt);
      var last := |order| - 1;
      assert Served(work[order[last]], gantt[last]);
      LastEndIsMaxCompletion(work, gantt, order[last]);
    }
  }

  /** The final state of the loop: every record served, the timeline in order, the run well formed. */
  lemma Finished(init: seq<Record>, order: seq<nat>, s: Sim)
    requires Good(init, order, |order|, s) && IsOrder(order, |init|)
    ensures forall i | 0 <= i < |init| ::
      s.work[i].state == Terminated && s.work[i].responseTime == Some(s.work[i].waitingTime)
    ensures WellFormedRun(s.work, s.gantt)
  {
    ServedRun(order, s.work, s.gantt);
  }

  /**
   * FCFS on records of burst 1 or more: one interval per process, taken in `(arrival_time, pid)`
   * order, each starting at the later of the previous end and the arrival and lasting one burst;
   * every record terminated with its response time equal to its waiting time, and its start and
   * completion times are the start and end of its own interval; the run well formed.
   */
  lemma RunProperties(init: seq<Record>)
    requires AllReset(init) && Runnable(init)
    ensures var s := Run(init); var order := ArrivalPidOrder(init);
      && IsOrder(order, |init|)
      && |s.gantt| == |init|
      && (forall j | 0 <= j < |init| ::
            && s.gantt[j].pid == init[order[j]].pid
            && s.gantt[j].start == Max(PreviousEnd(s.gantt, j), init[order[j]].arrivalTime)
            && s.gantt[j].end == s.gantt[j].start + init[order[j]].burstTime)
      && (forall i | 0 <= i < |init| ::
            s.work[i].state == Terminated && s.work[i].responseTime == Some(s.work[i].waitingTime))
      && SameInputs(s.work, init)
      && (forall j | 0 <= j < |init| :: Served(s.work[order[j]], s.gantt[j]))
      && WellFormedRun(s.work, s.gantt)
  {
    ArrivalOrdersAreOrders(init);
    RunGood(init);
    Finished(init, ArrivalPidOrder(init), Run(init));
  }
}
