/**
 * The preemptive loop shared by SRTF (`SJFScheduler._schedule_preemptive`, key
 * `(remaining_time, arrival_time, pid)`) and preemptive Priority
 * (`PriorityScheduler._schedule_preemptive`, key `(priority, arrival_time, pid)`), on the deep
 * copy of the records: each pass runs the available process of smallest key for one time unit,
 * extending the last Gantt interval when it continues it.
 */
module PreemptivePolicy {
  import opened Wrappers
  import opened ProcessModel
  import opened Aggregates
  import opened Timeline
  import opened Sorting
  import opened Policies

  /** The positions below `n` of arrived, uncompleted records, in list order. */
  function Available(work: seq<Record>, clock: int, n: nat): (r: seq<nat>)
    requires n <= |work|
    ensures forall k | 0 <= k < |r| ::
      r[k] < n && work[r[k]].arrivalTime <= clock && !work[r[k]].IsCompleted()
    ensures forall i | 0 <= i < n && work[i].arrivalTime <= clock && !work[i].IsCompleted() :: i in r
  {
    if n == 0 then []
    else
      var i := n - 1;
      Available(work, clock, i) + (if work[i].arrivalTime <= clock && !work[i].IsCompleted() then [i] else [])
  }

  /**
   * The Gantt update of one time unit of `pid` at `clock`: extend the last interval when it belongs
   * to the same pid and ends at `clock`, otherwise append `[clock, clock + 1)`.
   */
  function Extend(g: seq<Interval>, pid: int, clock: int): (g': seq<Interval>)
    ensures |g'| > 0 && LastEnd(g') == clock + 1
  {
    if |g| > 0 && g[|g| - 1].pid == pid && g[|g| - 1].end == clock
    then g[..|g| - 1] + [g[|g| - 1].(end := clock + 1)]
    else g + [Interval(pid, clock, clock + 1)]
  }

  /** Run record `i` for one time unit at the current clock; record its completion if nothing remains. */
  function RunUnit(s: Sim, i: nat): (s': Sim)
    requires i < |s.work|
    ensures |s'.work| == |s.work|
  {
    var r := s.work[i];
    var r' := Dispatch(r, s.clock).(remainingTime := r.remainingTime - 1);
    var g := Extend(s.gantt, r.pid, s.clock);
    var t := s.clock + 1;
    if r'.IsCompleted()
    then s.(clock := t, work := s.work[i := Finish(r', t)], gantt := g, completed := s.completed + 1)
    else s.(clock := t, work := s.work[i := r'], gantt := g)
  }

  /** The available process `min(available, key=...)` picks: the first of smallest key. */
  function Choose(work: seq<Record>, c: Criterion, available: seq<nat>): (i: nat)
    requires |available| > 0
    ensures i in available
  {
    MinBy(available, KeyOf(work, c))
  }

  /** One pass of the `while completed < total` loop. */
  function Step(c: Criterion, s: Sim): (s': Sim)
    ensures |s'.work| == |s.work|
  {
    var available := Available(s.work, s.clock, |s.work|);
    if |available| == 0 then s.(clock := s.clock + 1)
    else RunUnit(s, Choose(s.work, c, available))
  }

  /** What the loop needs to terminate, kept by every pass. */
  predicate Inv(init: seq<Record>, s: Sim) {
    && AllReset(init) && Runnable(init)
    && |s.work| == |init|
    && (forall i | 0 <= i < |init| :: Accounted(s.work[i], init[i], s.clock))
    && s.completed == CountCompleted(s.work)
  }

  /** The CPU time still owed to the processes. */
  function Owed(s: Sim): int {
    SumBy(s.work, RemainingOf)
  }

  /** The loop from state `s` until every process is completed. */
  function RunFrom(init: seq<Record>, c: Criterion, s: Sim): (s': Sim)
    requires Inv(init, s)
    ensures Inv(init, s') && s'.completed == |init|
    decreases Owed(s), ArrivalBound(init) - s.clock
  {
    if s.completed >= |init| then s
    else
      StepInv(init, c, s);
      RunFrom(init, c, Step(c, s))
  }

  /** The whole run on the deep copy of records as `reset()` leaves them. */
  function Run(init: seq<Record>, c: Criterion): (s: Sim)
    requires AllReset(init) && Runnable(init)
  {
    StartInv(init);
    RunFrom(init, c, Start(init))
  }

  lemma StartInv(init: seq<Record>)
    requires AllReset(init) && Runnable(init)
    ensures Inv(init, Start(init))
  {
    forall i | 0 <= i < |init| ensures Accounted(init[i], init[i], 0) && !init[i].IsCompleted() {
      ResetAccounted(init[i], 0);
    }
    SumByPointwise(init, CompletedFlag, _ => 0);
    SumByConstant(init, 0);
  }

  /** No remaining time is negative, so the CPU time owed is not either. */
  lemma OwedNonNegative(init: seq<Record>, s: Sim)
    requires Inv(init, s)
    ensures Owed(s) >= 0
  {
    SumByMonotone(s.work, _ => 0, RemainingOf);
    SumByConstant(s.work, 0);
  }

  /** An idle pass keeps the invariant; it happens only before some arrival. */
  lemma IdleInv(init: seq<Record>, c: Criterion, s: Sim)
    requires Inv(init, s) && s.completed < |init|
    requires |Available(s.work, s.clock, |s.work|)| == 0
    ensures Inv(init, Step(c, s)) && Step(c, s) == s.(clock := s.clock + 1)
    ensures s.clock < ArrivalBound(init)
  {
    var u := SomeUncompleted(s.work);
    assert u !in Available(s.work, s.clock, |s.work|);
    assert s.work[u].arrivalTime == init[u].arrivalTime;
    forall i | 0 <= i < |init| ensures Accounted(s.work[i], init[i], s.clock + 1) {
      AccountedLater(s.work[i], init[i], s.clock, s.clock + 1);
    }
  }

  /** Running an available record for one unit keeps the invariant and lowers the CPU time owed by 1. */
  lemma RunUnitInv(init: seq<Record>, s: Sim, i: nat)
    requires Inv(init, s) && i < |s.work| && !s.work[i].IsCompleted() && s.work[i].arrivalTime <= s.clock
    ensures Inv(init, RunUnit(s, i)) && Owed(RunUnit(s, i)) == Owed(s) - 1
  {
    var r := s.work[i];
    var s' := RunUnit(s, i);
    RunAccounted(r, init[i], s.clock, 1);
    var r' := s'.work[i];
    assert s'.work == s.work[i := r'];
    SumByUpdate(s.work, i, r', RemainingOf);
    CountCompletedUpdate(s.work, i, r');
    forall j | 0 <= j < |init| ensures Accounted(s'.work[j], init[j], s'.clock) {
      if j != i {
        AccountedLater(s.work[j], init[j], s.clock, s'.clock);
      }
    }
  }

  lemma StepInv(init: seq<Record>, c: Criterion, s: Sim)
    requires Inv(init, s) && s.completed < |init|
    ensures Inv(init, Step(c, s))
    ensures Owed(s) >= 0
    ensures || Owed(Step(c, s)) < Owed(s)
            || (Owed(Step(c, s)) == Owed(s) && Step(c, s).clock == s.clock + 1 && s.clock < ArrivalBound(init))
  {
    OwedNonNegative(init, s);
    var available := Available(s.work, s.clock, |s.work|);
    if |available| == 0 {
      IdleInv(init, c, s);
    } else {
      var i := Choose(s.work, c, available);
      var k :| 0 <= k < |available| && available[k] == i;
      RunUnitInv(init, s, i);
    }
  }

  /** Extending keeps an ordered timeline ordered, when it ends by `clock`. */
  lemma ExtendOrdered(g: seq<Interval>, pid: int, clock: int)
    requires 0 <= clock && Ordered(g) && (|g| > 0 ==> LastEnd(g) <= clock)
    ensures Ordered(Extend(g, pid, clock))
  {
    var n := |g|;
    if n > 0 && g[n - 1].pid == pid && g[n - 1].end == clock {
      var g' := Extend(g, pid, clock);
      assert g' == g[..n - 1] + [g[n - 1].(end := clock + 1)];
      forall i, j | 0 <= i < j < |g'| ensures g'[i].end <= g'[j].start {
        assert g[i].end <= g[j].start;
      }
    } else {
      OrderedAppend(g, Interval(pid, clock, clock + 1));
    }
  }

  /** Extending never leaves two touching neighbours of the same process. */
  lemma ExtendCoalesced(g: seq<Interval>, pid: int, clock: int)
    requires Coalesced(g)
    ensures Coalesced(Extend(g, pid, clock))
  {
    var n := |g|;
    var g' := Extend(g, pid, clock);
    if n > 0 && g[n - 1].pid == pid && g[n - 1].end == clock {
      forall k | 0 <= k < |g'| - 1 ensures !(g'[k].pid == g'[k + 1].pid && g'[k].end == g'[k + 1].start) {
        assert g'[k] == g[k];
        assert g'[k + 1].pid == g[k + 1].pid && g'[k + 1].start == g[k + 1].start;
      }
    } else {
      forall k | 0 <= k < |g'| - 1 ensures !(g'[k].pid == g'[k + 1].pid && g'[k].end == g'[k + 1].start) {
        if k < n - 1 {
          assert g'[k] == g[k] && g'[k + 1] == g[k + 1];
        }
      }
    }
  }

  /** Extending accounts for exactly one more unit of CPU time. */
  lemma ExtendBusy(g: seq<Interval>, pid: int, clock: int)
    ensures BusyTime(Extend(g, pid, clock)) == BusyTime(g) + 1
  {
    var n := |g|;
    if n > 0 && g[n - 1].pid == pid && g[n - 1].end == clock {
      assert g == g[..n - 1] + [g[n - 1]];
      BusyTimeAppend(g[..n - 1], g[n - 1]);
      BusyTimeAppend(g[..n - 1], g[n - 1].(end := clock + 1));
    } else {
      BusyTimeAppend(g, Interval(pid, clock, clock + 1));
    }
  }

  /** What the loop keeps about the Gantt list and the completed records. */
  predicate Good(init: seq<Record>, s: Sim) {
    && Inv(init, s)
    && 0 <= s.clock
    && Ordered(s.gantt) && Coalesced(s.gantt)
    && (|s.gantt| > 0 ==> LastEnd(s.gantt) <= s.clock)
    && BusyTime(s.gantt) == SumBy(s.work, Executed)
    && (|init| == 0 ==> |s.gantt| == 0)
    && (forall i | 0 <= i < |s.work| && s.work[i].state == Terminated ::
          |s.gantt| > 0 && s.work[i].completionTime <= LastEnd(s.gantt))
    && (s.completed == |init| && |init| > 0 ==>
          |s.gantt| > 0 && exists i | 0 <= i < |s.work| :: s.work[i].completionTime == LastEnd(s.gantt))
  }

  lemma StartGood(init: seq<Record>)
    requires AllReset(init) && Runnable(init)
    ensures Good(init, Start(init))
  {
    StartInv(init);
    forall i | 0 <= i < |init| ensures Executed(init[i]) == 0 {
      assert init[i] == init[i].Reset();
    }
    SumByPointwise(init, Executed, _ => 0);
    SumByConstant(init, 0);
  }

  /** The Gantt list after one unit of record `i`: still ordered and coalesced, one unit busier, ending at the clock. */
  lemma RunUnitTimeline(s: Sim, i: nat)
    requires i < |s.work| && 0 <= s.clock && Ordered(s.gantt) && Coalesced(s.gantt)
    requires |s.gantt| > 0 ==> LastEnd(s.gantt) <= s.clock
    ensures var s' := RunUnit(s, i);
      && Ordered(s'.gantt) && Coalesced(s'.gantt) && |s'.gantt| > 0 && LastEnd(s'.gantt) == s'.clock
      && BusyTime(s'.gantt) == BusyTime(s.gantt) + 1
  {
    ExtendOrdered(s.gantt, s.work[i].pid, s.clock);
    ExtendCoalesced(s.gantt, s.work[i].pid, s.clock);
    ExtendBusy(s.gantt, s.work[i].pid, s.clock);
  }

  /** One unit of record `i` hands out one more unit of CPU time, to `i`. */
  lemma RunUnitExecuted(s: Sim, i: nat)
    requires i < |s.work|
    ensures SumBy(RunUnit(s, i).work, Executed) == SumBy(s.work, Executed) + 1
  {
    var s' := RunUnit(s, i);
    assert s'.work == s.work[i := s'.work[i]];
    SumByUpdate(s.work, i, s'.work[i], Executed);
  }

  /** Completed records stay within the timeline; the record that completes last ends it. */
  lemma RunUnitCompletions(init: seq<Record>, s: Sim, i: nat)
    requires Inv(init, s) && i < |s.work| && !s.work[i].IsCompleted()
    requires |s.gantt| > 0 ==> LastEnd(s.gantt) <= s.clock
    requires forall j | 0 <= j < |s.work| && s.work[j].state == Terminated ::
      |s.gantt| > 0 && s.work[j].completionTime <= LastEnd(s.gantt)
    ensures var s' := RunUnit(s, i);
      && (forall j | 0 <= j < |s'.work| && s'.work[j].state == Terminated ::
            |s'.gantt| > 0 && s'.work[j].completionTime <= LastEnd(s'.gantt))
      && (s'.completed > s.completed ==> s'.work[i].completionTime == LastEnd(s'.gantt))
      && (s'.completed <= s.completed + 1)
  {
    var s' := RunUnit(s, i);
    forall j | 0 <= j < |s'.work| && s'.work[j].state == Terminated
      ensures |s'.gantt| > 0 && s'.work[j].completionTime <= LastEnd(s'.gantt)
    {
      if j != i {
        assert s'.work[j] == s.work[j];
      }
    }
  }

  lemma RunUnitGood(init: seq<Record>, s: Sim, i: nat)
    requires Good(init, s) && i < |s.work| && !s.work[i].IsCompleted() && s.work[i].arrivalTime <= s.clock
    requires s.completed < |init|
    ensures Good(init, RunUnit(s, i))
  {
    RunUnitInv(init, s, i);
    RunUnitTimeline(s, i);
    RunUnitExecuted(s, i);
    RunUnitCompletions(init, s, i);
  }

  lemma IdleGood(init: seq<Record>, c: Criterion, s: Sim)
    requires Good(init, s) && s.completed < |init|
    requires |Available(s.work, s.clock, |s.work|)| == 0
    ensures Good(init, Step(c, s))
  {
    IdleInv(init, c, s);
  }

  lemma StepGood(init: seq<Record>, c: Criterion, s: Sim)
    requires Good(init, s) && s.completed < |init|
    ensures Good(init, Step(c, s))
  {
    var available := Available(s.work, s.clock, |s.work|);
    if |available| == 0 {
      IdleGood(init, c, s);
    } else {
      var i := Choose(s.work, c, available);
      var k :| 0 <= k < |available| && available[k] == i;
      RunUnitGood(init, s, i);
    }
  }

  lemma {:induction false} RunFromGood(init: seq<Record>, c: Criterion, s: Sim)
    requires Good(init, s)
    ensures Good(init, RunFrom(init, c, s))
    decreases Owed(s), ArrivalBound(init) - s.clock
  {
    if s.completed < |init| {
      StepInv(init, c, s);
      StepGood(init, c, s);
      var s' := Step(c, s);
      RunFromGood(init, c, s');
      assert RunFrom(init, c, s) == RunFrom(init, c, s');
    } else {
      assert RunFrom(init, c, s) == s;
    }
  }

  /** A terminated, accounted record started no earlier than its arrival and answered within its waiting time. */
  lemma FinishedRecord(r: Record, init: Record, clock: int)
    requires Accounted(r, init, clock) && r.IsCompleted()
    ensures r.state == Terminated && Settled(r) && Executed(r) == r.burstTime
    ensures r.responseTime == Some(r.startTime.value - r.arrivalTime)
    ensures r.startTime.value + r.burstTime <= r.completionTime
  {
  }

  /** Once every process is completed, the records are settled and the timeline is well formed and coalesced. */
  lemma Finished(init: seq<Record>, s: Sim)
    requires Good(init, s) && s.completed == |init|
    ensures SameInputs(s.work, init)
    ensures forall i | 0 <= i < |init| ::
      && s.work[i].state == Terminated && s.work[i].startTime.Some?
      && s.work[i].responseTime == Some(s.work[i].startTime.value - s.work[i].arrivalTime)
      && s.work[i].startTime.value + s.work[i].burstTime <= s.work[i].completionTime
    ensures WellFormedRun(s.work, s.gantt) && Coalesced(s.gantt)
  {
    forall i | 0 <= i < |init|
      ensures && s.work[i].state == Terminated && Settled(s.work[i]) && Executed(s.work[i]) == BurstOf(s.work[i])
    {
      AllCompleted(s.work, i);
      FinishedRecord(s.work[i], init[i], s.clock);
    }
    SumByPointwise(s.work, Executed, BurstOf);
    if |init| > 0 {
      var last :| 0 <= last < |s.work| && s.work[last].completionTime == LastEnd(s.gantt);
      LastEndIsMaxCompletion(s.work, s.gantt, last);
    }
  }

  lemma RunGood(init: seq<Record>, c: Criterion)
    requires AllReset(init) && Runnable(init)
    ensures Good(init, Run(init, c)) && Run(init, c).completed == |init|
  {
    StartGood(init);
    RunFromGood(init, c, Start(init));
    assert Run(init, c) == RunFrom(init, c, Start(init));
  }

  /**
   * SRTF or preemptive Priority, on records as `reset()` leaves them with bursts of 1 or more:
   * every process terminates; its response time is measured from its start time and its whole
   * burst fits between start and completion; the run is well formed and no two neighbouring Gantt
   * entries of the same process touch. With distinct pids, each start time is the start of the
   * process's first Gantt entry, each completion the end of its last, and its entries last its burst.
   */
  lemma RunProperties(init: seq<Record>, c: Criterion)
    requires AllReset(init) && Runnable(init)
    ensures var s := Run(init, c);
      && SameInputs(s.work, init)
      && (forall i | 0 <= i < |init| ::
            && s.work[i].state == Terminated && s.work[i].startTime.Some?
            && s.work[i].responseTime == Some(s.work[i].startTime.value - s.work[i].arrivalTime)
            && s.work[i].startTime.value + s.work[i].burstTime <= s.work[i].completionTime)
      && WellFormedRun(s.work, s.gantt) && Coalesced(s.gantt)
      && (DistinctPids(init) ==> forall i | 0 <= i < |init| :: MatchesSlices(s.work[i], s.gantt))
  {
    RunGood(init, c);
    Finished(init, Run(init, c));
    if DistinctPids(init) {
      RunTimeline(init, c);
    }
  }

  /** One unit of `pid` leaves the entries of every other pid unchanged. */
  lemma ExtendSlicesOthers(g: seq<Interval>, pid: int, clock: int, q: int)
    requires q != pid
    ensures Slices(Extend(g, pid, clock), q) == Slices(g, q)
  {
    var n := |g|;
    if n > 0 && g[n - 1].pid == pid && g[n - 1].end == clock {
      var h := g[..n - 1];
      assert g == h + [g[n - 1]];
      SlicesAppend(h, g[n - 1], q);
      SlicesAppend(h, g[n - 1].(end := clock + 1), q);
    } else {
      SlicesAppend(g, Interval(pid, clock, clock + 1), q);
    }
  }

  /**
   * One unit of `pid` at `clock`: its entries gain one unit, end at `clock + 1` and keep their
   * first start, or start at `clock` when there were none.
   */
  lemma ExtendSlicesOwn(g: seq<Interval>, pid: int, clock: int)
    ensures var s := Slices(g, pid);
      var s' := Slices(Extend(g, pid, clock), pid);
      && |s'| > 0 && LastEnd(s') == clock + 1 && BusyTime(s') == BusyTime(s) + 1
      && s'[0].start == (if |s| > 0 then s[0].start else clock)
  {
    var n := |g|;
    if n > 0 && g[n - 1].pid == pid && g[n - 1].end == clock {
      var h := g[..n - 1];
      var x := g[n - 1];
      var x' := x.(end := clock + 1);
      assert g == h + [x];
      SlicesAppend(h, x, pid);
      SlicesAppend(h, x', pid);
      BusyTimeAppend(Slices(h, pid), x);
      BusyTimeAppend(Slices(h, pid), x');
    } else {
      var iv := Interval(pid, clock, clock + 1);
      SlicesAppend(g, iv, pid);
      BusyTimeAppend(Slices(g, pid), iv);
    }
  }

  /** The record that runs for one unit stays traced: one more unit, its start kept, its completion at the new end. */
  lemma RunUnitTracedOwn(s: Sim, i: nat)
    requires i < |s.work| && Traced(s.work[i], s.gantt)
    ensures Traced(RunUnit(s, i).work[i], RunUnit(s, i).gantt)
  {
    var r := s.work[i];
    var r' := Dispatch(r, s.clock).(remainingTime := r.remainingTime - 1);
    var g := Extend(s.gantt, r.pid, s.clock);
    DispatchFirstOnly(r, s.clock, s.clock);
    ExtendSlicesOwn(s.gantt, r.pid, s.clock);
    assert r'.pid == r.pid && Executed(r') == Executed(r) + 1;
    assert Traced(r', g);
    assert Traced(Finish(r', s.clock + 1), g);
    RunUnitIs(s, i);
  }

  /** The record and the Gantt list after one unit of record `i`. */
  lemma RunUnitIs(s: Sim, i: nat)
    requires i < |s.work|
    ensures var r := s.work[i];
      var r' := Dispatch(r, s.clock).(remainingTime := r.remainingTime - 1);
      && RunUnit(s, i).gantt == Extend(s.gantt, r.pid, s.clock)
      && RunUnit(s, i).work[i] == (if r'.IsCompleted() then Finish(r', s.clock + 1) else r')
  {
  }

  /** One unit of an uncompleted record keeps every record traced against the Gantt list. */
  lemma RunUnitTraced(init: seq<Record>, s: Sim, i: nat)
    requires Inv(init, s) && Tracing(s) && i < |s.work| && !s.work[i].IsCompleted()
    ensures Tracing(RunUnit(s, i))
  {
    var r := s.work[i];
    var s' := RunUnit(s, i);
    DistinctPidsUpdate(s.work, i, s'.work[i]);
    RunUnitTracedOwn(s, i);
    forall j | 0 <= j < |s'.work| && j != i ensures Traced(s'.work[j], s'.gantt) {
      assert s'.work[j] == s.work[j] && s.work[j].pid != r.pid;
      ExtendSlicesOthers(s.gantt, r.pid, s.clock, s.work[j].pid);
    }
  }

  /** Every pass keeps every record traced. */
  lemma StepTraced(init: seq<Record>, c: Criterion, s: Sim)
    requires Inv(init, s) && Tracing(s) && s.completed < |init|
    ensures Tracing(Step(c, s))
  {
    var available := Available(s.work, s.clock, |s.work|);
    if |available| > 0 {
      var i := Choose(s.work, c, available);
      var k :| 0 <= k < |available| && available[k] == i;
      RunUnitTraced(init, s, i);
    }
  }

  lemma {:induction false} RunFromTraced(init: seq<Record>, c: Criterion, s: Sim)
    requires Inv(init, s) && Tracing(s)
    ensures Tracing(RunFrom(init, c, s))
    decreases Owed(s), ArrivalBound(init) - s.clock
  {
    if s.completed < |init| {
      StepInv(init, c, s);
      StepTraced(init, c, s);
      RunFromTraced(init, c, Step(c, s));
      assert RunFrom(init, c, s) == RunFrom(init, c, Step(c, s));
    } else {
      assert RunFrom(init, c, s) == s;
    }
  }

  /**
   * With distinct pids, each process agrees with its own Gantt entries: its start time is where
   * the first one starts (its first dispatch), its completion where the last one ends, and they
   * add up to its burst.
   */
  lemma RunTimeline(init: seq<Record>, c: Criterion)
    requires AllReset(init) && Runnable(init) && DistinctPids(init)
    ensures forall i | 0 <= i < |init| :: MatchesSlices(Run(init, c).work[i], Run(init, c).gantt)
  {
    StartInv(init);
    StartTracing(init);
    RunFromTraced(init, c, Start(init));
    var s := Run(init, c);
    assert s == RunFrom(init, c, Start(init));
    forall i | 0 <= i < |init| ensures MatchesSlices(s.work[i], s.gantt) {
      AllCompleted(s.work, i);
      FinishedRecord(s.work[i], init[i], s.clock);
      TracedFinished(s.work[i], s.gantt);
    }
  }

  /** With no arrived, uncompleted process the pass only advances the clock. */
  lemma StepIdles(c: Criterion, s: Sim)
    requires forall i | 0 <= i < |s.work| :: s.work[i].IsCompleted() || s.work[i].arrivalTime > s.clock
    ensures Step(c, s) == s.(clock := s.clock + 1)
  {
    AvailableNone(s.work, s.clock, |s.work|);
  }

  lemma {:induction false} AvailableNone(work: seq<Record>, clock: int, n: nat)
    requires n <= |work|
    requires forall i | 0 <= i < n :: work[i].IsCompleted() || work[i].arrivalTime > clock
    ensures Available(work, clock, n) == []
  {
    if n > 0 {
      AvailableNone(work, clock, n - 1);
    }
  }

  /**
   * Otherwise it runs, for one unit, an arrived, uncompleted process whose key is no larger than
   * that of any other arrived, uncompleted process.
   */
  lemma StepPicksMinimal(c: Criterion, s: Sim, j: nat)
    requires j < |s.work| && !s.work[j].IsCompleted() && s.work[j].arrivalTime <= s.clock
    ensures var available := Available(s.work, s.clock, |s.work|);
      && |available| > 0
      && var i := Choose(s.work, c, available);
      && i < |s.work| && !s.work[i].IsCompleted() && s.work[i].arrivalTime <= s.clock
      && Step(c, s) == RunUnit(s, i)
      && forall m | 0 <= m < |s.work| && !s.work[m].IsCompleted() && s.work[m].arrivalTime <= s.clock ::
           KeyLe(SelectionKey(s.work, c, i), SelectionKey(s.work, c, m))
  {
    var available := Available(s.work, s.clock, |s.work|);
    assert j in available;
    var i := Choose(s.work, c, available);
    var k :| 0 <= k < |available| && available[k] == i;
    forall m | 0 <= m < |s.work| && !s.work[m].IsCompleted() && s.work[m].arrivalTime <= s.clock
      ensures KeyLe(SelectionKey(s.work, c, i), SelectionKey(s.work, c, m))
    {
      assert m in available;
      assert KeyLe(KeyOf(s.work, c)(i), KeyOf(s.work, c)(m));
    }
  }
}
