/**
 * The non-preemptive loop shared by SJF (`SJFScheduler._schedule_non_preemptive`, key
 * `(burst_time, arrival_time, pid)`) and Priority (`PriorityScheduler._schedule_non_preemptive`,
 * key `(priority, arrival_time, pid)`): admit the arrived processes to the ready list, sort it by
 * the key, pop the front and run it to completion; when nothing is ready, advance the clock by 1.
 */
module NonPreemptivePolicy {
  import opened Wrappers
  import opened ProcessModel
  import opened Aggregates
  import opened Timeline
  import opened Sorting
  import opened Policies

  /** `process in ready_queue`: the dataclass equality compares every field of the records. */
  predicate InQueue(work: seq<Record>, queue: seq<nat>, i: nat) {
    exists k | 0 <= k < |queue| :: queue[k] < |work| && i < |work| && work[queue[k]] == work[i]
  }

  /**
   * The admission pass: walking the processes in arrival order, append each one that has arrived,
   * is not already in the ready list and is not completed.
   */
  function Admit(work: seq<Record>, clock: int, order: seq<nat>, queue: seq<nat>): (r: seq<nat>)
    ensures |queue| <= |r| && r[..|queue|] == queue
    ensures Bounded(queue, |work|) ==> Bounded(r, |work|)
    decreases |order|
  {
    if order == [] then queue
    else
      var i := order[0];
      var queue' :=
        if i < |work| && work[i].arrivalTime <= clock && !InQueue(work, queue, i) && !work[i].IsCompleted()
        then queue + [i] else queue;
      Admit(work, clock, order[1..], queue')
  }

  /** Every entry is a position below `n`. */
  predicate Bounded(queue: seq<nat>, n: nat) {
    forall k | 0 <= k < |queue| :: queue[k] < n
  }

  /** `ready_queue.sort(key=...)` followed by `ready_queue.pop(0)`: the picked position and the rest. */
  function Pick(work: seq<Record>, c: Criterion, queue: seq<nat>): (p: (nat, seq<nat>))
    requires |queue| > 0 && Bounded(queue, |work|)
    ensures multiset([p.0] + p.1) == multiset(queue)
    ensures p.0 in queue && |p.1| == |queue| - 1
    ensures p.0 < |work| && Bounded(p.1, |work|)
  {
    var q := SortBy<nat>(queue, KeyOf(work, c));
    assert q == [q[0]] + q[1..];
    forall k | 0 <= k < |q| ensures q[k] in queue && q[k] < |work| {
      assert q[k] in multiset(queue);
    }
    (q[0], q[1..])
  }

  /** The ready list only holds positions of arrived, uncompleted records, each once. */
  predicate QueueOk(work: seq<Record>, queue: seq<nat>, clock: int) {
    && (forall k | 0 <= k < |queue| ::
          queue[k] < |work| && !work[queue[k]].IsCompleted() && work[queue[k]].arrivalTime <= clock)
    && NoDup(queue)
  }

  predicate QueueBounded(s: Sim) {
    Bounded(s.ready, |s.work|)
  }

  /** Run record `i` to completion from the current clock: one interval, one more completed process. */
  function RunToCompletion(s: Sim, i: nat, rest: seq<nat>): (s': Sim)
    requires i < |s.work|
    ensures |s'.work| == |s.work|
  {
    var r := s.work[i];
    var end := s.clock + r.burstTime;
    s.(clock := end,
       work := s.work[i := Finish(Dispatch(r, s.clock), end)],
       gantt := s.gantt + [Interval(r.pid, s.clock, end)],
       ready := rest,
       completed := s.completed + 1)
  }

  /**
   * A pass that finds the admitted queue non-empty runs the picked process to completion; the
   * queue it started from does not matter, only the one admission produced.
   */
  lemma StepBusy(c: Criterion, order: seq<nat>, s: Sim, queue: seq<nat>)
    requires QueueBounded(s) && queue == Admit(s.work, s.clock, order, s.ready) && |queue| > 0
    ensures var p := Pick(s.work, c, queue);
      Step(c, order, s) == RunToCompletion(s.(ready := queue), p.0, p.1)
  {
    var p := Pick(s.work, c, queue);
    assert Step(c, order, s) == RunToCompletion(s, p.0, p.1);
  }

  /** One pass of the `while completed < total` loop. */
  function Step(c: Criterion, order: seq<nat>, s: Sim): (s': Sim)
    requires QueueBounded(s)
    ensures |s'.work| == |s.work| && QueueBounded(s')
  {
    var queue := Admit(s.work, s.clock, order, s.ready);
    if |queue| == 0 then s.(clock := s.clock + 1, ready := queue)
    else
      var p := Pick(s.work, c, queue);
      RunToCompletion(s, p.0, p.1)
  }

  /** What the loop needs to terminate, kept by every pass. */
  predicate Inv(init: seq<Record>, order: seq<nat>, s: Sim) {
    && AllReset(init) && Runnable(init)
    && IsOrder(order, |init|)
    && SameInputs(s.work, init)
    && QueueOk(s.work, s.ready, s.clock)
    && s.completed == CountCompleted(s.work)
    && (forall i | 0 <= i < |init| :: !s.work[i].IsCompleted() ==> s.work[i] == init[i])
  }

  /** The loop from state `s` until every process is completed. */
  function RunFrom(init: seq<Record>, c: Criterion, order: seq<nat>, s: Sim): (s': Sim)
    requires Inv(init, order, s)
    ensures Inv(init, order, s') && s'.completed == |init|
    decreases |init| - s.completed, ArrivalBound(init) - s.clock
  {
    if s.completed >= |init| then s
    else
      StepInv(init, c, order, s);
      RunFrom(init, c, order, Step(c, order, s))
  }

  /** The whole run on records as `reset()` leaves them, over the processes sorted by arrival time. */
  function Run(init: seq<Record>, c: Criterion): (s: Sim)
    requires AllReset(init) && Runnable(init)
  {
    StartInv(init);
    RunFrom(init, c, ArrivalOrder(init), Start(init))
  }

  lemma StartInv(init: seq<Record>)
    requires AllReset(init) && Runnable(init)
    ensures Inv(init, ArrivalOrder(init), Start(init))
  {
    ArrivalOrdersAreOrders(init);
    forall i | 0 <= i < |init| ensures !init[i].IsCompleted() {
      assert init[i] == init[i].Reset();
    }
    SumByPointwise(init, CompletedFlag, _ => 0);
    SumByConstant(init, 0);
  }

  /** Admission keeps the ready list well formed. */
  lemma {:induction false} AdmitKeeps(work: seq<Record>, clock: int, order: seq<nat>, queue: seq<nat>)
    requires QueueOk(work, queue, clock)
    ensures QueueOk(work, Admit(work, clock, order, queue), clock)
    decreases |order|
  {
    if order != [] {
      var i := order[0];
      var admit := i < |work| && work[i].arrivalTime <= clock && !InQueue(work, queue, i) && !work[i].IsCompleted();
      var queue' := if admit then queue + [i] else queue;
      if admit {
        assert queue'[|queue|] == i;
      }
      AdmitKeeps(work, clock, order[1..], queue');
    }
  }

  /** A record equal to one in the list stays so under admission. */
  lemma AdmitGrows(work: seq<Record>, clock: int, order: seq<nat>, queue: seq<nat>, i: nat)
    requires InQueue(work, queue, i)
    ensures InQueue(work, Admit(work, clock, order, queue), i)
  {
    var r := Admit(work, clock, order, queue);
    var k :| 0 <= k < |queue| && queue[k] < |work| && i < |work| && work[queue[k]] == work[i];
    assert r[k] == r[..|queue|][k] == queue[k];
  }

  /** After admission, every arrived and uncompleted process is (up to equality) in the ready list. */
  lemma {:induction false} AdmitComplete(work: seq<Record>, clock: int, order: seq<nat>, queue: seq<nat>)
    ensures forall k | 0 <= k < |order| ::
      order[k] < |work| && work[order[k]].arrivalTime <= clock && !work[order[k]].IsCompleted() ==>
      InQueue(work, Admit(work, clock, order, queue), order[k])
    decreases |order|
  {
    if order != [] {
      var i := order[0];
      var admit := i < |work| && work[i].arrivalTime <= clock && !InQueue(work, queue, i) && !work[i].IsCompleted();
      var queue' := if admit then queue + [i] else queue;
      var r := Admit(work, clock, order, queue);
      assert r == Admit(work, clock, order[1..], queue');
      AdmitComplete(work, clock, order[1..], queue');
      if i < |work| && work[i].arrivalTime <= clock && !work[i].IsCompleted() {
        if admit {
          assert queue'[|queue|] == i;
        }
        assert InQueue(work, queue', i);
        AdmitGrows(work, clock, order[1..], queue', i);
      }
      forall k | 1 <= k < |order| ensures order[k] == order[1..][k - 1] {
      }
    }
  }

  /** The picked position and the rest of the list hold no position twice. */
  lemma PickDistinct(work: seq<Record>, c: Criterion, queue: seq<nat>)
    requires |queue| > 0 && Bounded(queue, |work|) && NoDup(queue)
    ensures var (i, rest) := Pick(work, c, queue);
      NoDup(rest) && i !in rest && (forall x | x in rest :: x in queue)
  {
    var (i, rest) := Pick(work, c, queue);
    NoDupPermutation(queue, [i] + rest);
    var t := [i] + rest;
    forall k | 0 <= k < |rest| ensures rest[k] != i && rest[k] in queue {
      assert t[k + 1] == rest[k] && t[0] == i;
      assert rest[k] in multiset(t);
    }
    assert NoDup(rest) by {
      forall a, b | 0 <= a < b < |rest| ensures rest[a] != rest[b] {
        assert t[a + 1] == rest[a] && t[b + 1] == rest[b];
      }
    }
  }

  /** The picked record has the smallest key of the ready list. */
  lemma PickIsMinimal(work: seq<Record>, c: Criterion, queue: seq<nat>)
    requires |queue| > 0 && Bounded(queue, |work|)
    ensures forall x | x in queue :: KeyLe(SelectionKey(work, c, Pick(work, c, queue).0), SelectionKey(work, c, x))
  {
    var key := KeyOf(work, c);
    var q := SortBy<nat>(queue, key);
    SortBySorted(queue, key);
    forall x | x in queue ensures KeyLe(key(q[0]), key(x)) {
      assert x in multiset(q);
      var j :| 0 <= j < |q| && q[j] == x;
      if j > 0 {
        assert KeyLe(key(q[0]), key(q[j]));
      }
    }
  }

  /** A pass that runs a process keeps the invariant and completes one more process. */
  lemma StepInv(init: seq<Record>, c: Criterion, order: seq<nat>, s: Sim)
    requires Inv(init, order, s) && s.completed < |init|
    ensures QueueBounded(s)
    ensures Inv(init, order, Step(c, order, s))
    ensures || Step(c, order, s).completed == s.completed + 1
            || (Step(c, order, s).completed == s.completed && Step(c, order, s).clock == s.clock + 1
                && s.clock < ArrivalBound(init))
  {
    var queue := Admit(s.work, s.clock, order, s.ready);
    AdmitEmpty(s.work, s.clock, order, s.ready);
    if |queue| == 0 {
      StepIdles(init, c, order, s);
      var u := SomeUncompleted(s.work);
      assert s.work[u].arrivalTime == init[u].arrivalTime;
    } else {
      AdmitKeeps(s.work, s.clock, order, s.ready);
      RunKeepsInv(init, c, order, s, queue);
    }
  }

  /** Running the picked record leaves the rest of the list well formed in the new state. */
  lemma RestQueueOk(work: seq<Record>, i: nat, r: Record, rest: seq<nat>, queue: seq<nat>, clock: int, clock': int)
    requires QueueOk(work, queue, clock) && i < |work| && clock <= clock'
    requires NoDup(rest) && i !in rest && (forall x | x in rest :: x in queue)
    ensures QueueOk(work[i := r], rest, clock')
  {
    forall k | 0 <= k < |rest|
      ensures rest[k] < |work| && !work[i := r][rest[k]].IsCompleted() && work[rest[k]].arrivalTime <= clock'
    {
      assert rest[k] in queue;
      var m :| 0 <= m < |queue| && queue[m] == rest[k];
    }
  }

  /** Running an uncompleted record keeps the invariant and completes one more process. */
  lemma RunToCompletionInv(init: seq<Record>, order: seq<nat>, s: Sim, i: nat, rest: seq<nat>, queue: seq<nat>)
    requires Inv(init, order, s) && i < |s.work| && !s.work[i].IsCompleted()
    requires QueueOk(s.work, queue, s.clock)
    requires NoDup(rest) && i !in rest && (forall x | x in rest :: x in queue)
    ensures Inv(init, order, RunToCompletion(s, i, rest))
  {
    var r := s.work[i];
    assert r == init[i] && r.burstTime >= 1;
    var s' := RunToCompletion(s, i, rest);
    var r' := s'.work[i];
    assert s'.work == s.work[i := r'] && r'.IsCompleted();
    CountCompletedUpdate(s.work, i, r');
    RestQueueOk(s.work, i, r', rest, queue, s.clock, s'.clock);
    assert SameInputs(s'.work, init) by {
      forall j | 0 <= j < |init| ensures s'.work[j].Inputs() == init[j].Inputs() {
        if j != i {
          assert s'.work[j] == s.work[j];
        }
      }
    }
    forall j | 0 <= j < |init| && !s'.work[j].IsCompleted() ensures s'.work[j] == init[j] {
      assert j != i && s'.work[j] == s.work[j];
    }
  }

  lemma RunKeepsInv(init: seq<Record>, c: Criterion, order: seq<nat>, s: Sim, queue: seq<nat>)
    requires Inv(init, order, s)
    requires queue == Admit(s.work, s.clock, order, s.ready) && |queue| > 0
    requires QueueOk(s.work, queue, s.clock)
    ensures QueueBounded(s)
    ensures Inv(init, order, Step(c, order, s)) && Step(c, order, s).completed == s.completed + 1
  {
    var p := Pick(s.work, c, queue);
    PickDistinct(s.work, c, queue);
    assert Step(c, order, s) == RunToCompletion(s, p.0, p.1);
    RunToCompletionInv(init, order, s, p.0, p.1, queue);
  }

  /** The interval a served record ran in. */
  predicate HasInterval(r: Record, g: seq<Interval>) {
    r.startTime.Some? && exists j | 0 <= j < |g| :: g[j] == Interval(r.pid, r.startTime.value, r.completionTime)
  }

  /** What the loop keeps about the served records and the Gantt list. */
  predicate Good(init: seq<Record>, order: seq<nat>, s: Sim) {
    && Inv(init, order, s)
    && 0 <= s.clock
    && Ordered(s.gantt)
    && (|s.gantt| > 0 ==> LastEnd(s.gantt) <= s.clock)
    && BusyTime(s.gantt) == SumBy(s.work, DoneBurst)
    && |s.gantt| == s.completed
    && (forall i | 0 <= i < |s.work| && s.work[i].IsCompleted() ::
          && RanOnce(s.work[i]) && HasInterval(s.work[i], s.gantt)
          && |s.gantt| > 0 && s.work[i].completionTime <= LastEnd(s.gantt))
    && (|s.gantt| > 0 ==>
          exists i | 0 <= i < |s.work| :: s.work[i].IsCompleted() && s.work[i].completionTime == LastEnd(s.gantt))
  }

  lemma StartGood(init: seq<Record>)
    requires AllReset(init) && Runnable(init)
    ensures Good(init, ArrivalOrder(init), Start(init))
  {
    StartInv(init);
    forall i | 0 <= i < |init| ensures DoneBurst(init[i]) == 0 {
      assert init[i] == init[i].Reset();
    }
    SumByPointwise(init, DoneBurst, _ => 0);
    SumByConstant(init, 0);
  }

  /** Running a fresh record from the clock extends the timeline by its interval and keeps the busy time. */
  lemma RunTimeline(s: Sim, i: nat, rest: seq<nat>)
    requires i < |s.work| && s.work[i].burstTime >= 1 && s.work[i].state != Terminated
    requires 0 <= s.clock && Ordered(s.gantt) && (|s.gantt| > 0 ==> LastEnd(s.gantt) <= s.clock)
    requires BusyTime(s.gantt) == SumBy(s.work, DoneBurst)
    ensures var s' := RunToCompletion(s, i, rest);
      && 0 <= s'.clock && Ordered(s'.gantt) && LastEnd(s'.gantt) == s'.clock
      && BusyTime(s'.gantt) == SumBy(s'.work, DoneBurst)
  {
    var s' := RunToCompletion(s, i, rest);
    var iv := s'.gantt[|s.gantt|];
    assert s'.gantt == s.gantt + [iv];
    BusyTimeAppend(s.gantt, iv);
    OrderedAppend(s.gantt, iv);
    SumByUpdate(s.work, i, s'.work[i], DoneBurst);
  }

  /** Running a fresh record keeps the earlier services and serves it. */
  lemma RunServes(s: Sim, i: nat, rest: seq<nat>)
    requires i < |s.work| && s.work[i].startTime.None? && !s.work[i].IsCompleted()
    requires s.work[i].arrivalTime <= s.clock && s.work[i].burstTime >= 1
    requires |s.gantt| > 0 ==> LastEnd(s.gantt) <= s.clock
    requires forall j | 0 <= j < |s.work| && s.work[j].IsCompleted() ::
          && RanOnce(s.work[j]) && HasInterval(s.work[j], s.gantt)
          && |s.gantt| > 0 && s.work[j].completionTime <= LastEnd(s.gantt)
    ensures var s' := RunToCompletion(s, i, rest);
      && (forall j | 0 <= j < |s'.work| && s'.work[j].IsCompleted() ::
          && RanOnce(s'.work[j]) && HasInterval(s'.work[j], s'.gantt)
          && |s'.gantt| > 0 && s'.work[j].completionTime <= LastEnd(s'.gantt))
      && s'.work[i].IsCompleted() && s'.work[i].completionTime == LastEnd(s'.gantt)
  {
    var s' := RunToCompletion(s, i, rest);
    DispatchFinishRanOnce(s.work[i], s.clock);
    var last := |s.gantt|;
    assert s'.gantt[last] == Interval(s'.work[i].pid, s'.work[i].startTime.value, s'.work[i].completionTime);
    forall j | 0 <= j < |s'.work| && s'.work[j].IsCompleted()
      ensures RanOnce(s'.work[j]) && HasInterval(s'.work[j], s'.gantt)
      ensures s'.work[j].completionTime <= LastEnd(s'.gantt)
    {
      if j != i {
        var r := s.work[j];
        assert s'.work[j] == r;
        var m :| 0 <= m < |s.gantt| && s.gantt[m] == Interval(r.pid, r.startTime.value, r.completionTime);
        assert s'.gantt[m] == s.gantt[m];
      }
    }
  }

  lemma RunKeepsGood(init: seq<Record>, order: seq<nat>, s: Sim, i: nat, rest: seq<nat>, queue: seq<nat>)
    requires Good(init, order, s) && i < |s.work| && !s.work[i].IsCompleted()
    requires QueueOk(s.work, queue, s.clock) && i in queue
    requires NoDup(rest) && i !in rest && (forall x | x in rest :: x in queue)
    ensures Good(init, order, RunToCompletion(s, i, rest))
  {
    RunToCompletionInv(init, order, s, i, rest, queue);
    assert s.work[i] == init[i] && init[i] == init[i].Reset();
    var k :| 0 <= k < |queue| && queue[k] == i;
    RunTimeline(s, i, rest);
    RunServes(s, i, rest);
  }

  lemma StepGood(init: seq<Record>, c: Criterion, order: seq<nat>, s: Sim)
    requires Good(init, order, s) && s.completed < |init|
    ensures QueueBounded(s)
    ensures Good(init, order, Step(c, order, s))
  {
    StepInv(init, c, order, s);
    var queue := Admit(s.work, s.clock, order, s.ready);
    AdmitKeeps(s.work, s.clock, order, s.ready);
    if |queue| > 0 {
      var p := Pick(s.work, c, queue);
      PickDistinct(s.work, c, queue);
      assert Step(c, order, s) == RunToCompletion(s, p.0, p.1);
      var k :| 0 <= k < |queue| && queue[k] == p.0;
      RunKeepsGood(init, order, s, p.0, p.1, queue);
    } else {
      assert Step(c, order, s) == s.(clock := s.clock + 1, ready := queue);
      IdleKeepsGood(init, order, s, queue);
    }
  }

  /** An idle pass, which only advances the clock, keeps what the loop knows about the run. */
  lemma IdleKeepsGood(init: seq<Record>, order: seq<nat>, s: Sim, ready: seq<nat>)
    requires Good(init, order, s) && Inv(init, order, s.(clock := s.clock + 1, ready := ready))
    ensures Good(init, order, s.(clock := s.clock + 1, ready := ready))
  {
  }

  lemma {:induction false} RunFromGood(init: seq<Record>, c: Criterion, order: seq<nat>, s: Sim)
    requires Good(init, order, s)
    ensures Good(init, order, RunFrom(init, c, order, s))
    decreases |init| - s.completed, ArrivalBound(init) - s.clock
  {
    if s.completed < |init| {
      StepInv(init, c, order, s);
      StepGood(init, c, order, s);
      var s' := Step(c, order, s);
      RunFromGood(init, c, order, s');
      assert RunFrom(init, c, order, s) == RunFrom(init, c, order, s');
    } else {
      assert RunFrom(init, c, order, s) == s;
    }
  }

  /** Once every process is completed, each one ran once in its own interval and the run is well formed. */
  lemma Finished(init: seq<Record>, order: seq<nat>, s: Sim)
    requires Good(init, order, s) && s.completed == |init|
    ensures SameInputs(s.work, init) && |s.gantt| == |init|
    ensures forall i | 0 <= i < |init| :: RanOnce(s.work[i]) && HasInterval(s.work[i], s.gantt)
    ensures WellFormedRun(s.work, s.gantt)
  {
    forall i | 0 <= i < |init| ensures s.work[i].IsCompleted() {
      AllCompleted(s.work, i);
    }
    SumByPointwise(s.work, DoneBurst, BurstOf);
    if |init| > 0 {
      var last :| 0 <= last < |s.work| && s.work[last].IsCompleted() && s.work[last].completionTime == LastEnd(s.gantt);
      LastEndIsMaxCompletion(s.work, s.gantt, last);
    }
  }

  /** The invariant holds when the run is over. */
  lemma RunGood(init: seq<Record>, c: Criterion)
    requires AllReset(init) && Runnable(init)
    ensures Good(init, ArrivalOrder(init), Run(init, c)) && Run(init, c).completed == |init|
  {
    var order := ArrivalOrder(init);
    StartGood(init);
    RunFromGood(init, c, order, Start(init));
    assert Run(init, c) == RunFrom(init, c, order, Start(init));
  }

  /**
   * SJF or Priority without preemption, on records as `reset()` leaves them with bursts of 1 or
   * more: every process is run once, in one interval of its own, from its first dispatch to its
   * completion, so its response time equals its waiting time; the run is well formed.
   */
  lemma RunProperties(init: seq<Record>, c: Criterion)
    requires AllReset(init) && Runnable(init)
    ensures var s := Run(init, c);
      && SameInputs(s.work, init) && |s.gantt| == |init|
      && (forall i | 0 <= i < |init| :: RanOnce(s.work[i]) && HasInterval(s.work[i], s.gantt))
      && WellFormedRun(s.work, s.gantt)
  {
    RunGood(init, c);
    Finished(init, ArrivalOrder(init), Run(init, c));
  }

  /** Admission lists nothing only when no arrived process is uncompleted. */
  lemma AdmitEmptyIdle(work: seq<Record>, clock: int, order: seq<nat>, ready: seq<nat>, i: nat)
    requires i < |work| && i in order && !work[i].IsCompleted() && work[i].arrivalTime <= clock
    ensures |Admit(work, clock, order, ready)| > 0
  {
    AdmitComplete(work, clock, order, ready);
    var k :| 0 <= k < |order| && order[k] == i;
    assert InQueue(work, Admit(work, clock, order, ready), order[k]);
  }

  /** Nothing is ready after admission exactly when no arrived process is uncompleted. */
  lemma AdmitEmpty(work: seq<Record>, clock: int, order: seq<nat>, ready: seq<nat>)
    requires QueueOk(work, ready, clock) && (forall i | 0 <= i < |work| :: i in order)
    ensures |Admit(work, clock, order, ready)| == 0 <==>
      forall i | 0 <= i < |work| :: work[i].IsCompleted() || clock < work[i].arrivalTime
  {
    var queue := Admit(work, clock, order, ready);
    if |queue| == 0 {
      forall i | 0 <= i < |work| && !work[i].IsCompleted() ensures clock < work[i].arrivalTime {
        if work[i].arrivalTime <= clock {
          AdmitEmptyIdle(work, clock, order, ready, i);
        }
      }
    } else {
      AdmitKeeps(work, clock, order, ready);
      assert !work[queue[0]].IsCompleted() && work[queue[0]].arrivalTime <= clock;
    }
  }

  /** The clock advances by 1, and nothing else changes, exactly when no arrived process is uncompleted. */
  lemma StepIdles(init: seq<Record>, c: Criterion, order: seq<nat>, s: Sim)
    requires Inv(init, order, s)
    requires forall i | 0 <= i < |s.work| :: s.work[i].IsCompleted() || s.clock < s.work[i].arrivalTime
    ensures QueueBounded(s)
    ensures Step(c, order, s) == s.(clock := s.clock + 1)
  {
    AdmitEmpty(s.work, s.clock, order, s.ready);
    var queue := Admit(s.work, s.clock, order, s.ready);
    assert s.ready == queue[..|s.ready|] == [];
  }

  /**
   * After admission, the front of the sorted ready list has arrived, is not completed, and its key
   * is the smallest among all arrived, uncompleted processes.
   */
  lemma PickedIsMinimal(work: seq<Record>, c: Criterion, clock: int, order: seq<nat>, ready: seq<nat>)
    requires QueueOk(work, ready, clock) && (forall i | 0 <= i < |work| :: i in order)
    requires |Admit(work, clock, order, ready)| > 0
    ensures var queue := Admit(work, clock, order, ready);
      Bounded(queue, |work|) &&
      var i := Pick(work, c, queue).0;
      && !work[i].IsCompleted() && work[i].arrivalTime <= clock
      && forall j | 0 <= j < |work| && !work[j].IsCompleted() && work[j].arrivalTime <= clock ::
           KeyLe(SelectionKey(work, c, i), SelectionKey(work, c, j))
  {
    var queue := Admit(work, clock, order, ready);
    AdmitKeeps(work, clock, order, ready);
    AdmitComplete(work, clock, order, ready);
    var i := Pick(work, c, queue).0;
    PickIsMinimal(work, c, queue);
    var m :| 0 <= m < |queue| && queue[m] == i;
    forall j | 0 <= j < |work| && !work[j].IsCompleted() && work[j].arrivalTime <= clock
      ensures KeyLe(SelectionKey(work, c, i), SelectionKey(work, c, j))
    {
      assert j in order;
      var k :| 0 <= k < |order| && order[k] == j;
      assert InQueue(work, queue, order[k]);
      var q :| 0 <= q < |queue| && queue[q] < |work| && work[queue[q]] == work[j];
      assert SelectionKey(work, c, queue[q]) == SelectionKey(work, c, j);
    }
  }

  /**
   * When something is ready, the picked process has arrived, is not completed, and its key is the
   * smallest among all arrived, uncompleted processes; it then runs to completion.
   */
  lemma StepPicksMinimal(init: seq<Record>, c: Criterion, order: seq<nat>, s: Sim)
    requires Inv(init, order, s)
    requires exists i | 0 <= i < |s.work| :: !s.work[i].IsCompleted() && s.work[i].arrivalTime <= s.clock
    ensures QueueBounded(s)
    ensures var queue := Admit(s.work, s.clock, order, s.ready);
      && |queue| > 0 && Bounded(queue, |s.work|)
      && var i := Pick(s.work, c, queue).0;
      && !s.work[i].IsCompleted() && s.work[i].arrivalTime <= s.clock
      && Step(c, order, s) == RunToCompletion(s, i, Pick(s.work, c, queue).1)
      && forall j | 0 <= j < |s.work| && !s.work[j].IsCompleted() && s.work[j].arrivalTime <= s.clock ::
           KeyLe(SelectionKey(s.work, c, i), SelectionKey(s.work, c, j))
  {
    AdmitEmpty(s.work, s.clock, order, s.ready);
    PickedIsMinimal(s.work, c, s.clock, order, s.ready);
  }
}
