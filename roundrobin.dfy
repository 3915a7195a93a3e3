/**
 * Round Robin (`RoundRobinScheduler.schedule`) on the deep copy of the records: processes join
 * a FIFO ready queue in `(arrival_time, pid)` order as they arrive; the head of the queue runs for
 * `min(quantum, remaining_time)`, the arrivals up to the new clock join the queue, then the
 * process rejoins at the back unless it has completed.
 */
module RoundRobinPolicy {
  import opened Wrappers
  import opened ProcessModel
  import opened Aggregates
  import opened Timeline
  import opened Sorting
  import opened Policies

  /** The positions of `ks` whose record is not completed, in order: what the admission loop appends. */
  function Admitted(work: seq<Record>, ks: seq<nat>): (r: seq<nat>)
    requires forall k | 0 <= k < |ks| :: ks[k] < |work|
    ensures forall k | 0 <= k < |r| :: r[k] < |work|
    ensures forall x | x in r :: x in ks && !work[x].IsCompleted()
    ensures forall x | x in ks && !work[x].IsCompleted() :: x in r
    ensures NoDup(ks) ==> NoDup(r)
  {
    if ks == [] then []
    else
      var rest := Admitted(work, ks[1..]);
      assert forall x | x in ks :: x == ks[0] || x in ks[1..];
      if work[ks[0]].IsCompleted() then rest
      else
        assert NoDup(ks) ==> ks[0] !in ks[1..];
        [ks[0]] + rest
  }

  /**
   * The admission loop from position `next` of the arrival order: every process that has arrived
   * by `clock` is passed over, and the uncompleted ones are appended to the ready queue.
   */
  function Admit(work: seq<Record>, clock: int, order: seq<nat>, next: nat, ready: seq<nat>): (r: (nat, seq<nat>))
    requires next <= |order| && forall k | 0 <= k < |order| :: order[k] < |work|
    ensures next <= r.0 <= |order|
    decreases |order| - next
  {
    if next < |order| && work[order[next]].arrivalTime <= clock then
      var i := order[next];
      Admit(work, clock, order, next + 1, if work[i].IsCompleted() then ready else ready + [i])
    else (next, ready)
  }

  /** Admission stops at the end of the arrival order or at the first process that has not arrived by `clock`. */
  lemma {:induction false} AdmitStops(work: seq<Record>, clock: int, order: seq<nat>, next: nat, ready: seq<nat>)
    requires next <= |order| && forall k | 0 <= k < |order| :: order[k] < |work|
    ensures var r := Admit(work, clock, order, next, ready);
      r.0 < |order| ==> work[order[r.0]].arrivalTime > clock
    decreases |order| - next
  {
    if next < |order| && work[order[next]].arrivalTime <= clock {
      var i := order[next];
      AdmitStops(work, clock, order, next + 1, if work[i].IsCompleted() then ready else ready + [i]);
    }
  }

  /** Admission passes over only processes that have arrived by `clock`. */
  lemma {:induction false} AdmitArrived(work: seq<Record>, clock: int, order: seq<nat>, next: nat, ready: seq<nat>)
    requires next <= |order| && forall k | 0 <= k < |order| :: order[k] < |work|
    ensures var r := Admit(work, clock, order, next, ready);
      forall k | next <= k < r.0 :: work[order[k]].arrivalTime <= clock
    decreases |order| - next
  {
    if next < |order| && work[order[next]].arrivalTime <= clock {
      var i := order[next];
      AdmitArrived(work, clock, order, next + 1, if work[i].IsCompleted() then ready else ready + [i]);
    }
  }

  /** Admission appends the uncompleted processes it passes over, in the arrival order. */
  lemma {:induction false} AdmitAppends(work: seq<Record>, clock: int, order: seq<nat>, next: nat, ready: seq<nat>)
    requires next <= |order| && forall k | 0 <= k < |order| :: order[k] < |work|
    ensures var r := Admit(work, clock, order, next, ready);
      r.1 == ready + Admitted(work, order[next..r.0])
    decreases |order| - next
  {
    if next < |order| && work[order[next]].arrivalTime <= clock {
      var i := order[next];
      var ready' := if work[i].IsCompleted() then ready else ready + [i];
      AdmitAppends(work, clock, order, next + 1, ready');
      var r := Admit(work, clock, order, next + 1, ready');
      assert Admit(work, clock, order, next, ready) == r;
      assert order[next..r.0] == [i] + order[next + 1..r.0];
    }
  }

  /** The three facts about admission together. */
  lemma AdmitSpec(work: seq<Record>, clock: int, order: seq<nat>, next: nat, ready: seq<nat>)
    requires next <= |order| && forall k | 0 <= k < |order| :: order[k] < |work|
    ensures var r := Admit(work, clock, order, next, ready);
      && (r.0 < |order| ==> work[order[r.0]].arrivalTime > clock)
      && (forall k | next <= k < r.0 :: work[order[k]].arrivalTime <= clock)
      && r.1 == ready + Admitted(work, order[next..r.0])
  {
    AdmitStops(work, clock, order, next, ready);
    AdmitArrived(work, clock, order, next, ready);
    AdmitAppends(work, clock, order, next, ready);
  }

  /** Admission appends positions of records only. */
  lemma AdmitBounded(work: seq<Record>, clock: int, order: seq<nat>, next: nat, ready: seq<nat>)
    requires next <= |order| && forall k | 0 <= k < |order| :: order[k] < |work|
    requires forall k | 0 <= k < |ready| :: ready[k] < |work|
    ensures forall k | 0 <= k < |Admit(work, clock, order, next, ready).1| :: Admit(work, clock, order, next, ready).1[k] < |work|
  {
    AdmitSpec(work, clock, order, next, ready);
    var r := Admit(work, clock, order, next, ready);
    var joined := Admitted(work, order[next..r.0]);
    forall k | 0 <= k < |r.1| ensures r.1[k] < |work| {
      if k >= |ready| {
        assert r.1[k] == joined[k - |ready|];
      }
    }
  }

  /** The loop state is consistent with the arrival order. */
  predicate Indexed(order: seq<nat>, s: Sim) {
    && s.next <= |order|
    && (forall k | 0 <= k < |order| :: order[k] < |s.work|)
    && (forall k | 0 <= k < |s.ready| :: s.ready[k] < |s.work|)
  }

  /** `exec_time = min(quantum, remaining_time)`. */
  function Units(r: Record, q: int): int {
    if q < r.remainingTime then q else r.remainingTime
  }

  /** The record after its time slice from `clock`: dispatched, `Units` less remaining. */
  function Ran(r: Record, clock: int, q: int): (r': Record)
    ensures r'.Inputs() == r.Inputs()
  {
    Dispatch(r, clock).(remainingTime := r.remainingTime - Units(r, q))
  }

  /**
   * The time slice of record `i`: the clock advances by `Units`, one Gantt entry is appended, and
   * the record completes if nothing remains.
   */
  function RunSlice(s: Sim, i: nat, q: int): (s': Sim)
    requires i < |s.work|
    ensures |s'.work| == |s.work| && s'.ready == s.ready && s'.next == s.next
  {
    var r := s.work[i];
    var r' := Ran(r, s.clock, q);
    var t := s.clock + Units(r, q);
    var gantt := s.gantt + [Interval(r.pid, s.clock, t)];
    if r'.IsCompleted()
    then s.(clock := t, work := s.work[i := Finish(r', t)], gantt := gantt, completed := s.completed + 1)
    else s.(clock := t, work := s.work[i := r'], gantt := gantt)
  }

  /**
   * Serve the head of the (already admitted) queue `ready`: run its time slice, admit the arrivals
   * up to the new clock (before completion is recorded), then requeue the process unless it has completed.
   */
  function Serve(q: int, order: seq<nat>, s: Sim, next: nat, ready: seq<nat>): (s': Sim)
    requires next <= |order| && (forall k | 0 <= k < |order| :: order[k] < |s.work|)
    requires |ready| > 0 && ready[0] < |s.work|
  {
    var i := ready[0];
    var r' := Ran(s.work[i], s.clock, q);
    var s1 := RunSlice(s, i, q);
    var a := Admit(s.work[i := r'], s1.clock, order, next, ready[1..]);
    if !r'.IsCompleted() then s1.(ready := a.1 + [i], next := a.0)
    else s1.(ready := a.1, next := a.0)
  }

  /** One pass of the `while completed < total` loop. */
  function Step(q: int, order: seq<nat>, s: Sim): Sim
    requires Indexed(order, s)
  {
    var a := Admit(s.work, s.clock, order, s.next, s.ready);
    AdmitBounded(s.work, s.clock, order, s.next, s.ready);
    if |a.1| > 0 then Serve(q, order, s, a.0, a.1)
    else s.(clock := s.clock + 1, next := a.0, ready := a.1)
  }

  /**
   * The ready queue holds each process at most once, only processes already passed over in the
   * arrival order, and only uncompleted ones; every process passed over has arrived; every
   * uncompleted process passed over is in the queue, except `held` (the one on the CPU, or -1).
   */
  predicate QueueOk(work: seq<Record>, clock: int, order: seq<nat>, next: nat, ready: seq<nat>, held: int) {
    && IsOrder(order, |work|)
    && next <= |order|
    && NoDup(ready)
    && (forall x | x in ready :: x in order[..next] && x < |work| && !work[x].IsCompleted() && x != held)
    && (forall k | 0 <= k < next :: work[order[k]].arrivalTime <= clock)
    && (forall k | 0 <= k < next && !work[order[k]].IsCompleted() && order[k] != held :: order[k] in ready)
  }

  /** Each record is accounted for against its reset state, and the completed count is right. */
  predicate Accounting(init: seq<Record>, s: Sim) {
    && |s.work| == |init|
    && (forall i | 0 <= i < |init| :: Accounted(s.work[i], init[i], s.clock))
    && s.completed == CountCompleted(s.work)
  }

  /** What the loop needs to terminate, kept by every pass. */
  predicate Inv(init: seq<Record>, q: int, order: seq<nat>, s: Sim) {
    && AllReset(init) && Runnable(init) && q >= 1
    && Accounting(init, s)
    && QueueOk(s.work, s.clock, order, s.next, s.ready, -1)
  }

  /** The CPU time still owed to the processes. */
  function Owed(s: Sim): int {
    SumBy(s.work, RemainingOf)
  }

  /** The loop from state `s` until every process is completed. */
  function RunFrom(init: seq<Record>, q: int, order: seq<nat>, s: Sim): (s': Sim)
    requires Inv(init, q, order, s)
    ensures Inv(init, q, order, s') && s'.completed == |init|
    decreases Owed(s), ArrivalBound(init) - s.clock
  {
    if s.completed >= |init| then s
    else
      StepInv(init, q, order, s);
      RunFrom(init, q, order, Step(q, order, s))
  }

  /** The whole run with quantum `q`, on the deep copy of records as `reset()` leaves them. */
  function Run(init: seq<Record>, q: int): (s: Sim)
    requires AllReset(init) && Runnable(init) && q >= 1
  {
    StartInv(init, q);
    RunFrom(init, q, ArrivalPidOrder(init), Start(init))
  }

  lemma StartInv(init: seq<Record>, q: int)
    requires AllReset(init) && Runnable(init) && q >= 1
    ensures Inv(init, q, ArrivalPidOrder(init), Start(init))
  {
    ArrivalOrdersAreOrders(init);
    forall i | 0 <= i < |init| ensures Accounted(init[i], init[i], 0) && !init[i].IsCompleted() {
      ResetAccounted(init[i], 0);
    }
    SumByPointwise(init, CompletedFlag, _ => 0);
    SumByConstant(init, 0);
  }

  /** A position before `b` in a list without repetitions does not reappear from `b` on. */
  lemma NotAfter(order: seq<nat>, b: nat, c: nat, x: nat)
    requires NoDup(order) && b <= c <= |order| && x in order[..b]
    ensures x !in order[b..c]
  {
    var i :| 0 <= i < b && order[..b][i] == x;
    forall k | 0 <= k < c - b ensures order[b..c][k] != x {
      assert order[b..c][k] == order[b + k];
    }
  }

  lemma InPrefix(order: seq<nat>, m: nat, x: nat, j: nat)
    requires j < m <= |order| && order[j] == x
    ensures x in order[..m]
  {
    assert order[..m][j] == x;
  }

  lemma NoDupSlice(s: seq<nat>, a: nat, b: nat)
    requires NoDup(s) && a <= b <= |s|
    ensures NoDup(s[a..b])
  {
    forall i, j | 0 <= i < j < b - a ensures s[a..b][i] != s[a..b][j] {
      assert s[a..b][i] == s[a + i] && s[a..b][j] == s[a + j];
    }
  }

  lemma NoDupAppend(a: seq<nat>, b: seq<nat>)
    requires NoDup(a) && NoDup(b) && forall x | x in a :: x !in b
    ensures NoDup(a + b)
  {
    forall i, j | 0 <= i < j < |a + b| ensures (a + b)[i] != (a + b)[j] {
      if i < |a| && j >= |a| {
        assert (a + b)[i] in a && (a + b)[j] == b[j - |a|];
      }
    }
  }

  /** Admission appends each arrived process at most once, and none already queued. */
  lemma AdmitNoDup(work: seq<Record>, clock: int, order: seq<nat>, next: nat, ready: seq<nat>)
    requires IsOrder(order, |work|) && next <= |order| && NoDup(ready)
    requires forall x | x in ready :: x in order[..next]
    ensures NoDup(Admit(work, clock, order, next, ready).1)
  {
    AdmitSpec(work, clock, order, next, ready);
    var a := Admit(work, clock, order, next, ready);
    var joined := Admitted(work, order[next..a.0]);
    NoDupSlice(order, next, a.0);
    forall x | x in ready ensures x !in joined {
      NotAfter(order, next, a.0, x);
    }
    NoDupAppend(ready, joined);
  }

  /** A position admission appends lies in the new prefix, is uncompleted and is not the held process. */
  lemma JoinedMember(work: seq<Record>, order: seq<nat>, next: nat, m: nat, x: nat, held: int)
    requires IsOrder(order, |work|) && next <= m <= |order|
    requires held >= 0 ==> held in order[..next]
    requires x in Admitted(work, order[next..m])
    ensures x in order[..m] && x < |work| && !work[x].IsCompleted() && x != held
  {
    assert x in order[next..m] && !work[x].IsCompleted();
    SliceInPrefix(order, next, m, x);
    if held >= 0 {
      NotAfter(order, next, m, held);
    }
  }

  lemma SliceInPrefix(order: seq<nat>, next: nat, m: nat, x: nat)
    requires next <= m <= |order| && x in order[next..m]
    ensures x in order[..m] && x in order
  {
    var j :| 0 <= j < m - next && order[next..m][j] == x;
    InPrefix(order, m, x, next + j);
    assert order[next + j] == x;
  }

  /** What admission appends was passed over, is uncompleted and is not the held process. */
  lemma AdmitMembers(work: seq<Record>, clock: int, order: seq<nat>, next: nat, ready: seq<nat>, held: int)
    requires IsOrder(order, |work|) && next <= |order|
    requires forall x | x in ready :: x in order[..next] && x < |work| && !work[x].IsCompleted() && x != held
    requires held >= 0 ==> held in order[..next]
    ensures var a := Admit(work, clock, order, next, ready);
      forall x | x in a.1 :: x in order[..a.0] && x < |work| && !work[x].IsCompleted() && x != held
  {
    AdmitSpec(work, clock, order, next, ready);
    var a := Admit(work, clock, order, next, ready);
    var joined := Admitted(work, order[next..a.0]);
    assert a.1 == ready + joined;
    forall x | x in a.1 ensures x in order[..a.0] && x < |work| && !work[x].IsCompleted() && x != held {
      if x in ready {
        var i :| 0 <= i < next && order[..next][i] == x;
        InPrefix(order, a.0, x, i);
      } else {
        JoinedMember(work, order, next, a.0, x, held);
      }
    }
  }

  /** Every uncompleted process admission passes over ends up in the queue, unless held. */
  lemma AdmitComplete(work: seq<Record>, clock: int, order: seq<nat>, next: nat, ready: seq<nat>, held: int)
    requires next <= |order| && forall k | 0 <= k < |order| :: order[k] < |work|
    requires forall k | 0 <= k < next && !work[order[k]].IsCompleted() && order[k] != held :: order[k] in ready
    ensures var a := Admit(work, clock, order, next, ready);
      forall k | 0 <= k < a.0 && !work[order[k]].IsCompleted() && order[k] != held :: order[k] in a.1
  {
    AdmitSpec(work, clock, order, next, ready);
    var a := Admit(work, clock, order, next, ready);
    forall k | 0 <= k < a.0 && !work[order[k]].IsCompleted() && order[k] != held ensures order[k] in a.1 {
      if k >= next {
        assert order[next..a.0][k - next] == order[k];
      }
    }
  }

  /** Admission keeps the queue consistent and passes over every arrived process. */
  lemma AdmitKeeps(work: seq<Record>, clock: int, order: seq<nat>, next: nat, ready: seq<nat>, held: int)
    requires QueueOk(work, clock, order, next, ready, held)
    requires held >= 0 ==> held in order[..next]
    ensures var a := Admit(work, clock, order, next, ready);
      && QueueOk(work, clock, order, a.0, a.1, held)
      && (held >= 0 ==> held in order[..a.0])
  {
    AdmitSpec(work, clock, order, next, ready);
    var a := Admit(work, clock, order, next, ready);
    AdmitNoDup(work, clock, order, next, ready);
    AdmitMembers(work, clock, order, next, ready, held);
    AdmitComplete(work, clock, order, next, ready, held);
    if held >= 0 {
      var i :| 0 <= i < next && order[..next][i] == held;
      InPrefix(order, a.0, held, i);
    }
  }

  /**
   * Taking the head `i` off the queue and replacing its record by one with the same inputs leaves
   * the rest of the queue consistent, with `i` held.
   */
  lemma PopKeeps(work: seq<Record>, clock: int, clock': int, order: seq<nat>, next: nat, ready: seq<nat>, r': Record)
    requires QueueOk(work, clock, order, next, ready, -1) && |ready| > 0 && ready[0] < |work| && clock <= clock'
    requires r'.Inputs() == work[ready[0]].Inputs()
    ensures QueueOk(work[ready[0] := r'], clock', order, next, ready[1..], ready[0])
    ensures ready[0] in order[..next]
  {
    var i := ready[0];
    var work' := work[i := r'];
    assert i in ready;
    NoDupSlice(ready, 1, |ready|);
    forall x | x in ready[1..] ensures x in ready && x != i {
      var j :| 0 <= j < |ready| - 1 && ready[1..][j] == x;
      assert ready[j + 1] == x;
    }
    forall k | 0 <= k < next && !work'[order[k]].IsCompleted() && order[k] != i ensures order[k] in ready[1..] {
      assert order[k] in ready;
      var j :| 0 <= j < |ready| && ready[j] == order[k];
      assert ready[1..][j - 1] == order[k];
    }
  }

  /** The held process rejoins at the back of the queue while it is not completed. */
  lemma RequeueKeeps(work: seq<Record>, clock: int, order: seq<nat>, next: nat, ready: seq<nat>, i: nat)
    requires QueueOk(work, clock, order, next, ready, i) && i in order[..next] && i < |work|
    requires !work[i].IsCompleted()
    ensures QueueOk(work, clock, order, next, ready + [i], -1)
  {
    NoDupAppend(ready, [i]);
  }

  /** A completed held process is simply dropped. */
  lemma DropKeeps(work: seq<Record>, clock: int, order: seq<nat>, next: nat, ready: seq<nat>, i: nat, r: Record)
    requires QueueOk(work, clock, order, next, ready, i) && i < |work|
    requires r.Inputs() == work[i].Inputs() && r.IsCompleted()
    ensures QueueOk(work[i := r], clock, order, next, ready, -1)
  {
  }

  /** An idle pass: nothing is ready after admission, which can only happen before some arrival. */
  lemma IdleInv(init: seq<Record>, q: int, order: seq<nat>, s: Sim)
    requires Inv(init, q, order, s) && s.completed < |init| && Indexed(order, s)
    requires |Admit(s.work, s.clock, order, s.next, s.ready).1| == 0
    ensures Inv(init, q, order, Step(q, order, s))
    ensures Step(q, order, s).work == s.work && Step(q, order, s).gantt == s.gantt
    ensures Step(q, order, s).completed == s.completed && Step(q, order, s).clock == s.clock + 1
    ensures s.clock < ArrivalBound(init)
  {
    var a := Admit(s.work, s.clock, order, s.next, s.ready);
    AdmitKeeps(s.work, s.clock, order, s.next, s.ready, -1);
    AdmitSpec(s.work, s.clock, order, s.next, s.ready);
    var u := SomeUncompleted(s.work);
    assert u in order;
    var k :| 0 <= k < |order| && order[k] == u;
    assert order[k] !in a.1;
    assert a.0 <= k;
    assert s.work[order[a.0]].arrivalTime == init[order[a.0]].arrivalTime;
    forall i | 0 <= i < |init| ensures Accounted(s.work[i], init[i], s.clock + 1) {
      AccountedLater(s.work[i], init[i], s.clock, s.clock + 1);
    }
  }

  /** A time slice of an arrived, uncompleted record keeps the accounting and lowers the CPU time owed. */
  lemma SliceAccounting(init: seq<Record>, s: Sim, i: nat, q: int)
    requires Accounting(init, s) && i < |s.work| && q >= 1
    requires !s.work[i].IsCompleted() && s.work[i].arrivalTime <= s.clock
    ensures Accounting(init, RunSlice(s, i, q))
    ensures Owed(RunSlice(s, i, q)) < Owed(s)
    ensures 1 <= Units(s.work[i], q) <= q
  {
    var r := s.work[i];
    var s' := RunSlice(s, i, q);
    RunAccounted(r, init[i], s.clock, Units(r, q));
    var r' := s'.work[i];
    assert s'.work == s.work[i := r'];
    SumByUpdate(s.work, i, r', RemainingOf);
    CountCompletedUpdate(s.work, i, r');
    forall j | 0 <= j < |init| ensures Accounted(s'.work[j], init[j], s'.clock) {
      if j != i {
        AccountedLater(s.work[j], init[j], s.clock, s'.clock);
      }
    }
  }

  /** Serving the head of the queue and requeueing it, uncompleted, keeps the queue consistent. */
  lemma ServeRequeue(work: seq<Record>, clock: int, t: int, order: seq<nat>, next: nat, ready: seq<nat>, r': Record)
    requires QueueOk(work, clock, order, next, ready, -1) && |ready| > 0 && ready[0] < |work| && clock <= t
    requires r'.Inputs() == work[ready[0]].Inputs() && !r'.IsCompleted()
    ensures var a := Admit(work[ready[0] := r'], t, order, next, ready[1..]);
      QueueOk(work[ready[0] := r'], t, order, a.0, a.1 + [ready[0]], -1)
  {
    var i := ready[0];
    var work' := work[i := r'];
    PopKeeps(work, clock, t, order, next, ready, r');
    AdmitKeeps(work', t, order, next, ready[1..], i);
    var a := Admit(work', t, order, next, ready[1..]);
    RequeueKeeps(work', t, order, a.0, a.1, i);
  }

  /** Serving the head of the queue to completion and dropping it keeps the queue consistent. */
  lemma ServeDrop(work: seq<Record>, clock: int, t: int, order: seq<nat>, next: nat, ready: seq<nat>, r': Record, rf: Record)
    requires QueueOk(work, clock, order, next, ready, -1) && |ready| > 0 && ready[0] < |work| && clock <= t
    requires r'.Inputs() == work[ready[0]].Inputs() && rf.Inputs() == r'.Inputs() && rf.IsCompleted()
    ensures var a := Admit(work[ready[0] := r'], t, order, next, ready[1..]);
      QueueOk(work[ready[0] := rf], t, order, a.0, a.1, -1)
  {
    var i := ready[0];
    var work' := work[i := r'];
    PopKeeps(work, clock, t, order, next, ready, r');
    AdmitKeeps(work', t, order, next, ready[1..], i);
    var a := Admit(work', t, order, next, ready[1..]);
    DropKeeps(work', t, order, a.0, a.1, i, rf);
    assert work'[i := rf] == work[i := rf];
  }

  /** Serve spelled out: the queue and the next position it leaves, in both outcomes. */
  lemma ServeIs(q: int, order: seq<nat>, s: Sim, next: nat, ready: seq<nat>)
    requires next <= |order| && (forall k | 0 <= k < |order| :: order[k] < |s.work|)
    requires |ready| > 0 && ready[0] < |s.work|
    ensures var i := ready[0]; var r' := Ran(s.work[i], s.clock, q); var t := s.clock + Units(s.work[i], q);
      var a := Admit(s.work[i := r'], t, order, next, ready[1..]); var s' := Serve(q, order, s, next, ready);
      && s'.clock == t && s'.next == a.0
      && (!r'.IsCompleted() ==> s'.work == s.work[i := r'] && s'.ready == a.1 + [i])
      && (r'.IsCompleted() ==> s'.work == s.work[i := Finish(r', t)] && s'.ready == a.1)
  {
  }

  /** Serving the head of the queue, for at least one unit, keeps the queue consistent. */
  lemma ServeQueueOk(q: int, order: seq<nat>, s: Sim, next: nat, ready: seq<nat>)
    requires QueueOk(s.work, s.clock, order, next, ready, -1) && |ready| > 0 && ready[0] < |s.work|
    requires 1 <= Units(s.work[ready[0]], q)
    ensures var s' := Serve(q, order, s, next, ready); QueueOk(s'.work, s'.clock, order, s'.next, s'.ready, -1)
  {
    var i := ready[0];
    var r' := Ran(s.work[i], s.clock, q);
    var t := s.clock + Units(s.work[i], q);
    ServeIs(q, order, s, next, ready);
    var a := Admit(s.work[i := r'], t, order, next, ready[1..]);
    var s' := Serve(q, order, s, next, ready);
    if r'.IsCompleted() {
      ServeDrop(s.work, s.clock, t, order, next, ready, r', Finish(r', t));
      assert QueueOk(s.work[i := Finish(r', t)], t, order, a.0, a.1, -1);
      assert s'.work == s.work[i := Finish(r', t)];
      assert s'.clock == t && s'.next == a.0 && s'.ready == a.1;
    } else {
      ServeRequeue(s.work, s.clock, t, order, next, ready, r');
      assert QueueOk(s.work[i := r'], t, order, a.0, a.1 + [i], -1);
      assert s'.work == s.work[i := r'];
      assert s'.clock == t && s'.next == a.0 && s'.ready == a.1 + [i];
    }
  }

  lemma ServeInv(init: seq<Record>, q: int, order: seq<nat>, s: Sim, next: nat, ready: seq<nat>)
    requires AllReset(init) && Runnable(init) && q >= 1 && Accounting(init, s)
    requires QueueOk(s.work, s.clock, order, next, ready, -1) && |ready| > 0 && ready[0] < |s.work|
    ensures Inv(init, q, order, Serve(q, order, s, next, ready))
    ensures Owed(Serve(q, order, s, next, ready)) < Owed(s)
  {
    var i := ready[0];
    assert i in ready;
    SliceAccounting(init, s, i, q);
    var s1 := RunSlice(s, i, q);
    var s' := Serve(q, order, s, next, ready);
    assert s'.work == s1.work && s'.clock == s1.clock && s'.completed == s1.completed;
    SameAccounting(init, s1, s');
    ServeQueueOk(q, order, s, next, ready);
  }

  /** Accounting and the CPU time owed depend on the records, the clock and the completed count only. */
  lemma SameAccounting(init: seq<Record>, a: Sim, b: Sim)
    requires a.work == b.work && a.clock == b.clock && a.completed == b.completed
    ensures Accounting(init, a) == Accounting(init, b) && Owed(a) == Owed(b)
  {
  }

  /** No remaining time is negative, so the CPU time owed is not either. */
  lemma OwedNonNegative(init: seq<Record>, s: Sim)
    requires Accounting(init, s)
    ensures Owed(s) >= 0
  {
    SumByMonotone(s.work, _ => 0, RemainingOf);
    SumByConstant(s.work, 0);
  }

  lemma StepInv(init: seq<Record>, q: int, order: seq<nat>, s: Sim)
    requires Inv(init, q, order, s) && s.completed < |init|
    ensures Indexed(order, s)
    ensures Inv(init, q, order, Step(q, order, s))
    ensures Owed(s) >= 0
    ensures || Owed(Step(q, order, s)) < Owed(s)
            || (Owed(Step(q, order, s)) == Owed(s) && Step(q, order, s).clock == s.clock + 1 && s.clock < ArrivalBound(init))
  {
    OwedNonNegative(init, s);
    forall k | 0 <= k < |s.ready| ensures s.ready[k] < |s.work| {
      assert s.ready[k] in s.ready;
    }
    var a := Admit(s.work, s.clock, order, s.next, s.ready);
    AdmitKeeps(s.work, s.clock, order, s.next, s.ready, -1);
    if |a.1| == 0 {
      IdleInv(init, q, order, s);
    } else {
      assert a.1[0] in a.1;
      ServeInv(init, q, order, s, a.0, a.1);
    }
  }

  /** Every Gantt entry is a slice of at most the quantum. */
  predicate WithinQuantum(g: seq<Interval>, q: int) {
    forall k | 0 <= k < |g| :: g[k].end - g[k].start <= q
  }

  /** A slice shorter than the quantum ends with the completion of a process of that pid. */
  predicate ShortSlicesComplete(work: seq<Record>, g: seq<Interval>, q: int) {
    forall k | 0 <= k < |g| && g[k].end - g[k].start < q ::
      exists j | 0 <= j < |work| ::
        work[j].state == Terminated && work[j].pid == g[k].pid && work[j].completionTime == g[k].end
  }

  /** What the loop keeps about the Gantt list and the completed records. */
  predicate TimelineOk(init: seq<Record>, q: int, s: Sim) {
    && 0 <= s.clock
    && Ordered(s.gantt)
    && (|s.gantt| > 0 ==> LastEnd(s.gantt) <= s.clock)
    && BusyTime(s.gantt) == SumBy(s.work, Executed)
    && (|init| == 0 ==> |s.gantt| == 0)
    && WithinQuantum(s.gantt, q)
    && ShortSlicesComplete(s.work, s.gantt, q)
    && (forall i | 0 <= i < |s.work| && s.work[i].state == Terminated ::
          |s.gantt| > 0 && s.work[i].completionTime <= LastEnd(s.gantt))
    && (s.completed == |init| && |init| > 0 ==>
          |s.gantt| > 0 && exists i | 0 <= i < |s.work| :: s.work[i].completionTime == LastEnd(s.gantt))
  }

  predicate Good(init: seq<Record>, q: int, order: seq<nat>, s: Sim) {
    Inv(init, q, order, s) && TimelineOk(init, q, s)
  }

  lemma StartGood(init: seq<Record>, q: int)
    requires AllReset(init) && Runnable(init) && q >= 1
    ensures Good(init, q, ArrivalPidOrder(init), Start(init))
  {
    StartInv(init, q);
    StartTimeline(init, q);
  }

  lemma StartTimeline(init: seq<Record>, q: int)
    requires AllReset(init) && Runnable(init)
    ensures TimelineOk(init, q, Start(init))
  {
    forall i | 0 <= i < |init| ensures Executed(init[i]) == 0 && !init[i].IsCompleted() {
      assert init[i] == init[i].Reset();
    }
    SumByPointwise(init, Executed, _ => 0);
    SumByConstant(init, 0);
  }

  /** The clock and the Gantt list after a slice. */
  lemma SliceIs(s: Sim, i: nat, q: int)
    requires i < |s.work|
    ensures var s' := RunSlice(s, i, q);
      && s'.clock == s.clock + Units(s.work[i], q)
      && s'.gantt == s.gantt + [Interval(s.work[i].pid, s.clock, s'.clock)]
  {
  }

  /** Appending a slice of 1 to `q` units keeps every entry within the quantum. */
  lemma AppendWithin(g: seq<Interval>, iv: Interval, q: int)
    requires WithinQuantum(g, q) && iv.end - iv.start <= q
    ensures WithinQuantum(g + [iv], q)
  {
    forall k | 0 <= k < |g| + 1 ensures (g + [iv])[k].end - (g + [iv])[k].start <= q {
      if k < |g| {
        assert (g + [iv])[k] == g[k];
      }
    }
  }

  /** A slice hands out `Units` more CPU time, to record `i`. */
  lemma SliceExecuted(s: Sim, i: nat, q: int)
    requires i < |s.work|
    ensures SumBy(RunSlice(s, i, q).work, Executed) == SumBy(s.work, Executed) + Units(s.work[i], q)
  {
    var s' := RunSlice(s, i, q);
    assert s'.work == s.work[i := s'.work[i]];
    SumByUpdate(s.work, i, s'.work[i], Executed);
  }

  /** Terminated records keep their completion; a slice shorter than the quantum completes record `i`. */
  lemma SliceShort(init: seq<Record>, s: Sim, i: nat, q: int)
    requires Accounting(init, s) && i < |s.work| && !s.work[i].IsCompleted()
    requires 1 <= Units(s.work[i], q) <= q
    requires ShortSlicesComplete(s.work, s.gantt, q)
    ensures var s' := RunSlice(s, i, q);
      && ShortSlicesComplete(s'.work, s'.gantt, q)
      && (s'.completed > s.completed <==> Units(s.work[i], q) == s.work[i].remainingTime)
  {
    var s' := RunSlice(s, i, q);
    var n := |s.gantt|;
    assert s'.gantt == s.gantt + [s'.gantt[n]];
    forall k | 0 <= k < |s'.gantt| && s'.gantt[k].end - s'.gantt[k].start < q
      ensures exists j | 0 <= j < |s'.work| ::
        s'.work[j].state == Terminated && s'.work[j].pid == s'.gantt[k].pid && s'.work[j].completionTime == s'.gantt[k].end
    {
      if k < n {
        var j :| 0 <= j < |s.work| && s.work[j].state == Terminated && s.work[j].pid == s.gantt[k].pid
          && s.work[j].completionTime == s.gantt[k].end;
        assert s'.work[j] == s.work[j];
        assert s'.gantt[k] == s.gantt[k];
      } else {
        assert s'.work[i].state == Terminated;
      }
    }
  }

  /** Completed records stay within the timeline; the record completing in this slice ends it. */
  lemma SliceCompletions(init: seq<Record>, s: Sim, i: nat, q: int)
    requires Accounting(init, s) && i < |s.work| && !s.work[i].IsCompleted()
    requires |s.gantt| > 0 ==> LastEnd(s.gantt) <= s.clock
    requires 1 <= Units(s.work[i], q)
    requires forall j | 0 <= j < |s.work| && s.work[j].state == Terminated ::
      |s.gantt| > 0 && s.work[j].completionTime <= LastEnd(s.gantt)
    ensures var s' := RunSlice(s, i, q);
      && (forall j | 0 <= j < |s'.work| && s'.work[j].state == Terminated ::
            |s'.gantt| > 0 && s'.work[j].completionTime <= LastEnd(s'.gantt))
      && (s'.completed > s.completed ==> s'.work[i].completionTime == LastEnd(s'.gantt))
      && s'.completed <= s.completed + 1
  {
    var s' := RunSlice(s, i, q);
    forall j | 0 <= j < |s'.work| && s'.work[j].state == Terminated
      ensures |s'.gantt| > 0 && s'.work[j].completionTime <= LastEnd(s'.gantt)
    {
      if j != i {
        assert s'.work[j] == s.work[j];
      }
    }
  }

  /** A slice of an arrived, uncompleted record keeps the timeline facts. */
  lemma SliceTimeline(init: seq<Record>, q: int, s: Sim, i: nat)
    requires Accounting(init, s) && TimelineOk(init, q, s) && s.completed < |init| && q >= 1
    requires i < |s.work| && !s.work[i].IsCompleted() && s.work[i].arrivalTime <= s.clock
    ensures TimelineOk(init, q, RunSlice(s, i, q))
  {
    SliceAccounting(init, s, i, q);
    SliceIs(s, i, q);
    var iv := Interval(s.work[i].pid, s.clock, s.clock + Units(s.work[i], q));
    OrderedAppend(s.gantt, iv);
    BusyTimeAppend(s.gantt, iv);
    AppendWithin(s.gantt, iv, q);
    SliceExecuted(s, i, q);
    SliceShort(init, s, i, q);
    SliceCompletions(init, s, i, q);
  }

  /** The timeline facts depend on the records, the Gantt list, the clock and the completed count only. */
  lemma SameTimeline(init: seq<Record>, q: int, a: Sim, b: Sim)
    requires a.work == b.work && a.gantt == b.gantt && a.clock == b.clock && a.completed == b.completed
    ensures TimelineOk(init, q, a) == TimelineOk(init, q, b)
  {
  }

  lemma StepGood(init: seq<Record>, q: int, order: seq<nat>, s: Sim)
    requires Good(init, q, order, s) && s.completed < |init|
    ensures Indexed(order, s)
    ensures Good(init, q, order, Step(q, order, s))
  {
    StepInv(init, q, order, s);
    var a := Admit(s.work, s.clock, order, s.next, s.ready);
    AdmitKeeps(s.work, s.clock, order, s.next, s.ready, -1);
    if |a.1| == 0 {
      IdleInv(init, q, order, s);
    } else {
      var i := a.1[0];
      assert i in a.1;
      SliceTimeline(init, q, s, i);
      var s' := Step(q, order, s);
      var s1 := RunSlice(s, i, q);
      assert s' == Serve(q, order, s, a.0, a.1);
      assert s'.work == s1.work && s'.gantt == s1.gantt && s'.clock == s1.clock && s'.completed == s1.completed;
      SameTimeline(init, q, s1, s');
    }
  }

  lemma {:induction false} RunFromGood(init: seq<Record>, q: int, order: seq<nat>, s: Sim)
    requires Good(init, q, order, s)
    ensures Good(init, q, order, RunFrom(init, q, order, s))
    decreases Owed(s), ArrivalBound(init) - s.clock
  {
    if s.completed < |init| {
      StepInv(init, q, order, s);
      StepGood(init, q, order, s);
      var s' := Step(q, order, s);
      RunFromGood(init, q, order, s');
      assert RunFrom(init, q, order, s) == RunFrom(init, q, order, s');
    } else {
      assert RunFrom(init, q, order, s) == s;
    }
  }

  /** A slice of an uncompleted record keeps every record traced against the Gantt list. */
  lemma SliceTraced(init: seq<Record>, s: Sim, i: nat, q: int)
    requires Accounting(init, s) && Tracing(s) && i < |s.work| && !s.work[i].IsCompleted() && q >= 1
    ensures Tracing(RunSlice(s, i, q))
  {
    var r := s.work[i];
    var s' := RunSlice(s, i, q);
    SliceIs(s, i, q);
    var iv := Interval(r.pid, s.clock, s'.clock);
    DistinctPidsUpdate(s.work, i, s'.work[i]);
    BusyTimeAppend(Slices(s.gantt, r.pid), iv);
    forall j | 0 <= j < |s'.work| ensures Traced(s'.work[j], s'.gantt) {
      SlicesAppend(s.gantt, iv, s.work[j].pid);
      if j != i {
        assert s'.work[j] == s.work[j] && s.work[j].pid != r.pid;
        assert Slices(s'.gantt, s.work[j].pid) == Slices(s.gantt, s.work[j].pid);
      } else {
        assert Slices(s'.gantt, r.pid) == Slices(s.gantt, r.pid) + [iv];
        assert Executed(s'.work[i]) == Executed(r) + (s'.clock - s.clock);
      }
    }
  }

  /** Every pass keeps every record traced. */
  lemma StepTraced(init: seq<Record>, q: int, order: seq<nat>, s: Sim)
    requires Inv(init, q, order, s) && Tracing(s) && s.completed < |init|
    ensures Indexed(order, s)
    ensures Tracing(Step(q, order, s))
  {
    StepInv(init, q, order, s);
    var a := Admit(s.work, s.clock, order, s.next, s.ready);
    AdmitKeeps(s.work, s.clock, order, s.next, s.ready, -1);
    if |a.1| == 0 {
      IdleInv(init, q, order, s);
    } else {
      var i := a.1[0];
      assert i in a.1;
      SliceTraced(init, s, i, q);
      var s' := Step(q, order, s);
      var s1 := RunSlice(s, i, q);
      assert s' == Serve(q, order, s, a.0, a.1);
      assert s'.work == s1.work && s'.gantt == s1.gantt;
    }
  }

  lemma {:induction false} RunFromTraced(init: seq<Record>, q: int, order: seq<nat>, s: Sim)
    requires Inv(init, q, order, s) && Tracing(s)
    ensures Tracing(RunFrom(init, q, order, s))
    decreases Owed(s), ArrivalBound(init) - s.clock
  {
    if s.completed < |init| {
      StepInv(init, q, order, s);
      StepTraced(init, q, order, s);
      RunFromTraced(init, q, order, Step(q, order, s));
      assert RunFrom(init, q, order, s) == RunFrom(init, q, order, Step(q, order, s));
    } else {
      assert RunFrom(init, q, order, s) == s;
    }
  }

  /**
   * With distinct pids, each process agrees with its own slices: its start time is where the first
   * one starts (its first dispatch), its completion where the last one ends, and they add up to its burst.
   */
  lemma RunTimeline(init: seq<Record>, q: int)
    requires AllReset(init) && Runnable(init) && q >= 1 && DistinctPids(init)
    ensures forall i | 0 <= i < |init| :: MatchesSlices(Run(init, q).work[i], Run(init, q).gantt)
  {
    var order := ArrivalPidOrder(init);
    StartInv(init, q);
    StartTracing(init);
    RunFromTraced(init, q, order, Start(init));
    var s := Run(init, q);
    assert s == RunFrom(init, q, order, Start(init));
    forall i | 0 <= i < |init| ensures MatchesSlices(s.work[i], s.gantt) {
      AllCompleted(s.work, i);
      AccountedSettled(s.work[i], init[i], s.clock);
      TracedFinished(s.work[i], s.gantt);
    }
  }

  /**
   * Once every process is completed: each one started no earlier than its arrival, its response
   * time is measured from its first dispatch and its whole burst fits between start and completion;
   * the run is well formed; every slice lasts between 1 and the quantum, and a shorter one ends with
   * the completion of its process.
   */
  lemma Finished(init: seq<Record>, q: int, order: seq<nat>, s: Sim)
    requires Good(init, q, order, s) && s.completed == |init|
    ensures SameInputs(s.work, init)
    ensures forall i | 0 <= i < |init| ::
      && s.work[i].state == Terminated && s.work[i].startTime.Some?
      && s.work[i].responseTime == Some(s.work[i].startTime.value - s.work[i].arrivalTime)
      && s.work[i].startTime.value + s.work[i].burstTime <= s.work[i].completionTime
    ensures WellFormedRun(s.work, s.gantt)
    ensures WithinQuantum(s.gantt, q) && ShortSlicesComplete(s.work, s.gantt, q)
  {
    forall i | 0 <= i < |init|
      ensures && s.work[i].state == Terminated && Settled(s.work[i]) && Executed(s.work[i]) == BurstOf(s.work[i])
    {
      AllCompleted(s.work, i);
      AccountedSettled(s.work[i], init[i], s.clock);
    }
    SumByPointwise(s.work, Executed, BurstOf);
    if |init| > 0 {
      var last :| 0 <= last < |s.work| && s.work[last].completionTime == LastEnd(s.gantt);
      LastEndIsMaxCompletion(s.work, s.gantt, last);
    }
  }

  lemma RunGood(init: seq<Record>, q: int)
    requires AllReset(init) && Runnable(init) && q >= 1
    ensures Good(init, q, ArrivalPidOrder(init), Run(init, q)) && Run(init, q).completed == |init|
  {
    StartGood(init, q);
    RunFromGood(init, q, ArrivalPidOrder(init), Start(init));
    assert Run(init, q) == RunFrom(init, q, ArrivalPidOrder(init), Start(init));
  }

  /**
   * Round Robin with quantum 1 or more, on records as `reset()` leaves them with bursts of 1 or
   * more: every process terminates with its response time measured from its start time and its
   * burst between start and completion; the run is well formed; each Gantt entry is one slice of
   * 1 to `q` units, and a slice shorter than `q` ends with its process's completion. With distinct
   * pids, each start time is the start of the process's first slice, each completion the end of
   * its last, and its slices add up to its burst.
   */
  lemma RunProperties(init: seq<Record>, q: int)
    requires AllReset(init) && Runnable(init) && q >= 1
    ensures var s := Run(init, q);
      && SameInputs(s.work, init)
      && (forall i | 0 <= i < |init| ::
            && s.work[i].state == Terminated && s.work[i].startTime.Some?
            && s.work[i].responseTime == Some(s.work[i].startTime.value - s.work[i].arrivalTime)
            && s.work[i].startTime.value + s.work[i].burstTime <= s.work[i].completionTime)
      && WellFormedRun(s.work, s.gantt)
      && WithinQuantum(s.gantt, q) && ShortSlicesComplete(s.work, s.gantt, q)
      && (DistinctPids(init) ==> forall i | 0 <= i < |init| :: MatchesSlices(s.work[i], s.gantt))
  {
    RunGood(init, q);
    Finished(init, q, ArrivalPidOrder(init), Run(init, q));
    if DistinctPids(init) {
      RunTimeline(init, q);
    }
  }
}
