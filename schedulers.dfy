/**
 * The scheduler objects of process_scheduler/schedulers.py: `BaseScheduler` (the process list,
 * the clock and the Gantt list, `add_process`, `add_processes`, `reset`), the six policies'
 * `schedule` loops over the caller's `Process` objects, and the `ProcessScheduler` facade that
 * picks a policy by name.
 *
 * The subclasses differ only in which loop `schedule` runs, so one class `Scheduler` carries the
 * policy as a constant `Algorithm`. Each loop is proved against the policy's pure `Run` function;
 * the properties of a run are proved about those functions and gathered in `OutcomeProperties`.
 */
module Schedulers {
  import opened Wrappers
  import opened ProcessModel
  import opened Aggregates
  import opened Timeline
  import opened Sorting
  import opened Policies
  import opened Metrics
  import FcfsPolicy
  import NonPreemptivePolicy
  import PreemptivePolicy
  import RoundRobinPolicy

  /** The six policies: the SJF and Priority schedulers in either mode, Round Robin with its quantum. */
  datatype Algorithm = Fcfs | Sjf(preemptive: bool) | RoundRobin(quantum: int) | ByPriority(preemptive: bool)

  /** The current records of the processes, in list order. */
  function Snapshots(ps: seq<Process>): (rs: seq<Record>)
    reads set p | p in ps
    ensures |rs| == |ps| && forall i | 0 <= i < |ps| :: rs[i] == ps[i].Snapshot()
  {
    if ps == [] then [] else [ps[0].Snapshot()] + Snapshots(ps[1..])
  }

  /** The records the processes hold after `reset()`: they depend on the fixed inputs only. */
  function Initials(ps: seq<Process>): (rs: seq<Record>)
    ensures |rs| == |ps| && AllReset(rs)
    ensures forall i | 0 <= i < |ps| :: rs[i] == ps[i].Initial()
  {
    if ps == [] then [] else [ps[0].Initial()] + Initials(ps[1..])
  }

  /**
   * What a policy's loop needs to end: every process needs at least one unit of CPU, except under
   * FCFS, and Round Robin needs a quantum of at least 1.
   */
  predicate Terminates(alg: Algorithm, init: seq<Record>) {
    match alg
    case Fcfs => true
    case RoundRobin(q) => Runnable(init) && q >= 1
    case _ => Runnable(init)
  }

  /** The policies that run on deep copies and copy four results back. */
  predicate OnCopies(alg: Algorithm) {
    match alg
    case Fcfs => false
    case Sjf(preemptive) => preemptive
    case RoundRobin(_) => true
    case ByPriority(preemptive) => preemptive
  }

  /** The loop a policy runs, from the records as `reset()` leaves them. */
  function Simulate(alg: Algorithm, init: seq<Record>): (s: Sim)
    requires AllReset(init) && Terminates(alg, init)
    ensures |s.work| == |init|
  {
    match alg
    case Fcfs => FcfsPolicy.Run(init)
    case Sjf(preemptive) =>
      if preemptive then PreemptivePolicy.Run(init, Remaining) else NonPreemptivePolicy.Run(init, Burst)
    case RoundRobin(q) => RoundRobinPolicy.Run(init, q)
    case ByPriority(preemptive) =>
      if preemptive then PreemptivePolicy.Run(init, Priority) else NonPreemptivePolicy.Run(init, Priority)
  }

  /** A caller's record after the copy-back: completion, turnaround, waiting and response from the copy. */
  function WithResults(r: Record, copy: Record): Record {
    r.(completionTime := copy.completionTime, turnaroundTime := copy.turnaroundTime,
       waitingTime := copy.waitingTime, responseTime := copy.responseTime)
  }

  function Returned(init: seq<Record>, work: seq<Record>): (rs: seq<Record>)
    requires |work| == |init|
    ensures |rs| == |init| && forall i | 0 <= i < |init| :: rs[i] == WithResults(init[i], work[i])
  {
    if init == [] then [] else [WithResults(init[0], work[0])] + Returned(init[1..], work[1..])
  }

  /** The records the caller's processes hold once `schedule()` returns. */
  function Outcome(alg: Algorithm, init: seq<Record>): seq<Record>
    requires AllReset(init) && Terminates(alg, init)
  {
    var work := Simulate(alg, init).work;
    if OnCopies(alg) then Returned(init, work) else work
  }

  /** The copy-back keeps each copy's burst, so their total. */
  lemma {:induction false} ReturnedBusy(init: seq<Record>, work: seq<Record>)
    requires SameInputs(work, init)
    ensures SumBy(Returned(init, work), BurstOf) == SumBy(work, BurstOf)
  {
    if init != [] {
      var rs := Returned(init, work);
      assert SameInputs(work[1..], init[1..]);
      ReturnedBusy(init[1..], work[1..]);
      assert rs[1..] == Returned(init[1..], work[1..]);
    }
  }

  /** The copy-back keeps each copy's completion, so the latest one. */
  lemma ReturnedLatest(init: seq<Record>, work: seq<Record>)
    requires SameInputs(work, init) && |init| > 0
    ensures MaxCompletion(Returned(init, work)) == MaxCompletion(work)
  {
    var rs := Returned(init, work);
    var m, m' := MaxCompletion(rs), MaxCompletion(work);
    var j :| 0 <= j < |rs| && rs[j].completionTime == m;
    var k :| 0 <= k < |work| && work[k].completionTime == m';
    assert rs[j].completionTime == work[j].completionTime;
    assert rs[k].completionTime == work[k].completionTime;
  }

  /**
   * A run on copies, copied back: the callers' records keep their inputs and their reset state,
   * take settled metrics, and the Gantt list stays well formed for them.
   */
  lemma CopiedBack(init: seq<Record>, work: seq<Record>, gantt: seq<Interval>)
    requires AllReset(init) && Runnable(init) && SameInputs(work, init) && WellFormedRun(work, gantt)
    ensures var rs := Returned(init, work);
      && SameInputs(rs, init) && WellFormedRun(rs, gantt)
      && forall i | 0 <= i < |rs| ::
           rs[i].state == New && rs[i].remainingTime == rs[i].burstTime && rs[i].startTime == None
           && !rs[i].IsCompleted()
  {
    var rs := Returned(init, work);
    ReturnedBusy(init, work);
    if |init| > 0 {
      ReturnedLatest(init, work);
    }
    forall i | 0 <= i < |rs| ensures Settled(rs[i]) {
      assert rs[i].Inputs() == work[i].Inputs();
    }
  }

  /**
   * What `schedule()` leaves in the processes, for every policy: the fixed inputs unchanged,
   * settled metrics, a well-formed Gantt list; the copying policies leave each process as
   * `reset()` left it apart from the four copied results, the others leave it TERMINATED.
   */
  lemma OutcomeProperties(alg: Algorithm, init: seq<Record>)
    requires AllReset(init) && Runnable(init) && Terminates(alg, init)
    ensures var rs := Outcome(alg, init);
      && SameInputs(rs, init)
      && WellFormedRun(rs, Simulate(alg, init).gantt)
      && forall i | 0 <= i < |rs| ::
           if OnCopies(alg)
           then rs[i].state == New && rs[i].remainingTime == rs[i].burstTime && rs[i].startTime == None
                && !rs[i].IsCompleted()
           else rs[i].state == Terminated && rs[i].IsCompleted()
  {
    var s := Simulate(alg, init);
    match alg {
      case Fcfs =>
        FcfsPolicy.RunProperties(init);
      case Sjf(preemptive) =>
        if preemptive {
          PreemptivePolicy.RunProperties(init, Remaining);
          CopiedBack(init, s.work, s.gantt);
        } else {
          NonPreemptivePolicy.RunProperties(init, Burst);
        }
      case RoundRobin(q) =>
        RoundRobinPolicy.RunProperties(init, q);
        CopiedBack(init, s.work, s.gantt);
      case ByPriority(preemptive) =>
        if preemptive {
          PreemptivePolicy.RunProperties(init, Priority);
          CopiedBack(init, s.work, s.gantt);
        } else {
          NonPreemptivePolicy.RunProperties(init, Priority);
        }
    }
  }

  /**
   * The metrics of a schedule: the summary is defined, utilization lies in (0, 100] for a
   * non-empty run, and the average response lies between 0 and the average waiting.
   */
  lemma OutcomeMetrics(alg: Algorithm, init: seq<Record>)
    requires AllReset(init) && Runnable(init) && Terminates(alg, init)
    ensures var m := SchedulerMetrics(Outcome(alg, init), Simulate(alg, init).gantt);
      && m.GetSummary().Success?
      && (|init| > 0 ==> 0.0 < m.CpuUtilization().value <= 100.0)
      && 0.0 <= m.AvgResponseTime() <= m.AvgWaitingTime()
  {
    var m := SchedulerMetrics(Outcome(alg, init), Simulate(alg, init).gantt);
    OutcomeProperties(alg, init);
    WellFormedMetrics(m);
    SettledAverages(m);
  }

  /** The records of `ps` when only the process at `i` may differ from `before`. */
  lemma SnapshotsUpdate(ps: seq<Process>, i: nat, before: seq<Record>)
    requires i < |ps| && |before| == |ps|
    requires forall j | 0 <= j < |ps| && j != i :: ps[j].Snapshot() == before[j]
    ensures Snapshots(ps) == before[i := ps[i].Snapshot()]
  {
  }

  /** Dispatch in place: start and response times the first time, then RUNNING. */
  method DispatchProcess(p: Process, clock: int)
    modifies p
    ensures p.Snapshot() == Dispatch(old(p.Snapshot()), clock)
  {
    if p.startTime.None? {
      p.startTime := Some(clock);
      p.responseTime := Some(clock - p.arrivalTime);
    }
    p.state := Running;
  }

  /** Completion in place at `clock`. */
  method FinishProcess(p: Process, clock: int)
    modifies p
    ensures p.Snapshot() == Finish(old(p.Snapshot()), clock)
  {
    p.completionTime := clock;
    p.turnaroundTime := p.completionTime - p.arrivalTime;
    p.waitingTime := p.turnaroundTime - p.burstTime;
    p.state := Terminated;
  }

  /** The closing loop of the copying policies: four results from each copy to its original. */
  method CopyResults(ps: seq<Process>, work: seq<Record>)
    requires |work| == |ps| && NoDup(ps)
    modifies set p | p in ps
    ensures Snapshots(ps) == Returned(old(Snapshots(ps)), work)
  {
    ghost var before := Snapshots(ps);
    for i := 0 to |ps|
      invariant forall j | 0 <= j < i :: ps[j].Snapshot() == WithResults(before[j], work[j])
      invariant forall j | i <= j < |ps| :: ps[j].Snapshot() == before[j]
    {
      var p := ps[i];
      p.completionTime := work[i].completionTime;
      p.turnaroundTime := work[i].turnaroundTime;
      p.waitingTime := work[i].waitingTime;
      p.responseTime := work[i].responseTime;
    }
  }

  /** The admission `for` loop of the non-preemptive policies. */
  method AdmitReady(work: seq<Record>, clock: int, order: seq<nat>, ready: seq<nat>) returns (queue: seq<nat>)
    ensures queue == NonPreemptivePolicy.Admit(work, clock, order, ready)
  {
    queue := ready;
    for k := 0 to |order|
      invariant NonPreemptivePolicy.Admit(work, clock, order[k..], queue) == NonPreemptivePolicy.Admit(work, clock, order, ready)
    {
      assert order[k..][1..] == order[k + 1..];
      var i := order[k];
      if i < |work| && work[i].arrivalTime <= clock && !NonPreemptivePolicy.InQueue(work, queue, i) && !work[i].IsCompleted() {
        queue := queue + [i];
      }
    }
  }

  /** The admission `while` loop of Round Robin, from position `index` of the arrival order. */
  method AdmitArrivals(work: seq<Record>, clock: int, order: seq<nat>, index: nat, ready: seq<nat>)
    returns (next: nat, queue: seq<nat>)
    requires index <= |order| && forall k | 0 <= k < |order| :: order[k] < |work|
    ensures (next, queue) == RoundRobinPolicy.Admit(work, clock, order, index, ready)
  {
    next, queue := index, ready;
    while next < |order| && work[order[next]].arrivalTime <= clock
      invariant index <= next <= |order|
      invariant RoundRobinPolicy.Admit(work, clock, order, next, queue) == RoundRobinPolicy.Admit(work, clock, order, index, ready)
      decreases |order| - next
    {
      if !work[order[next]].IsCompleted() {
        queue := queue + [order[next]];
      }
      next := next + 1;
    }
  }

  /** A scheduler: its policy, the processes added to it, the clock and the Gantt list. */
  class Scheduler {
    const algorithm: Algorithm
    var processes: seq<Process>
    var currentTime: int
    var gantt: seq<Interval>

    /** The clock at 0 and the Gantt list empty, every process as `reset()` leaves it. */
    predicate IsReset()
      reads this, set p | p in processes
    {
      currentTime == 0 && gantt == [] && Snapshots(processes) == Initials(processes)
    }

    constructor (algorithm: Algorithm)
      ensures this.algorithm == algorithm && processes == [] && currentTime == 0 && gantt == []
    {
      this.algorithm := algorithm;
      processes := [];
      currentTime := 0;
      gantt := [];
    }

    method AddProcess(p: Process)
      modifies this
      ensures processes == old(processes) + [p]
      ensures currentTime == old(currentTime) && gantt == old(gantt)
    {
      processes := processes + [p];
    }

    method AddProcesses(ps: seq<Process>)
      modifies this
      ensures processes == old(processes) + ps
      ensures currentTime == old(currentTime) && gantt == old(gantt)
    {
      processes := processes + ps;
    }

    /** Every process reset (a process listed twice is reset twice, to the same record), clock 0, Gantt list empty. */
    method Reset()
      modifies this, set p | p in processes
      ensures processes == old(processes) && IsReset()
    {
      for i := 0 to |processes|
        invariant processes == old(processes)
        invariant forall j | 0 <= j < i :: processes[j].Snapshot() == processes[j].Initial()
      {
        processes[i].Reset();
      }
      currentTime := 0;
      gantt := [];
    }

    /**
     * `schedule()`: reset, run the policy's loop, return the metrics over the processes and the
     * Gantt list. The result depends on the processes' fixed inputs only, so running again gives
     * the same result.
     */
    method Schedule() returns (m: SchedulerMetrics)
      requires NoDup(processes) && Terminates(algorithm, Initials(processes))
      modifies this, set p | p in processes
      ensures processes == old(processes)
      ensures var s := Simulate(algorithm, Initials(processes));
        && Snapshots(processes) == Outcome(algorithm, Initials(processes))
        && currentTime == s.clock && gantt == s.gantt
      ensures m == SchedulerMetrics(Snapshots(processes), gantt)
    {
      Reset();
      match algorithm {
        case Fcfs =>
          ScheduleFcfs();
        case Sjf(preemptive) =>
          if preemptive {
            SchedulePreemptive(Remaining);
          } else {
            ScheduleNonPreemptive(Burst);
          }
        case RoundRobin(q) =>
          ScheduleRoundRobin(q);
        case ByPriority(preemptive) =>
          if preemptive {
            SchedulePreemptive(Priority);
          } else {
            ScheduleNonPreemptive(Priority);
          }
      }
      m := SchedulerMetrics(Snapshots(processes), gantt);
    }

    /**
     * Run process `i` for its whole burst from the current clock: dispatch it, advance the clock,
     * append its interval and record its completion.
     */
    method RunToEnd(i: nat)
      requires i < |processes| && NoDup(processes)
      modifies this, processes[i]
      ensures processes == old(processes)
      ensures var before := old(Snapshots(processes)); var r := before[i]; var end := old(currentTime) + r.burstTime;
        && currentTime == end
        && gantt == old(gantt) + [Interval(r.pid, old(currentTime), end)]
        && Snapshots(processes) == before[i := Finish(Dispatch(r, old(currentTime)), end)]
    {
      var ps := processes;
      var p := ps[i];
      ghost var before := Snapshots(ps);
      var start := currentTime;
      DispatchProcess(p, start);
      currentTime := currentTime + p.burstTime;
      gantt := gantt + [Interval(p.pid, start, currentTime)];
      FinishProcess(p, currentTime);
      SnapshotsUpdate(ps, i, before);
    }

    /** FCFS on the processes themselves, in `(arrival_time, pid)` order. */
    method ScheduleFcfs()
      requires NoDup(processes) && IsReset()
      modifies this, set p | p in processes
      ensures processes == old(processes)
      ensures var s := FcfsPolicy.Run(Initials(processes));
        Snapshots(processes) == s.work && currentTime == s.clock && gantt == s.gantt
    {
      var ps := processes;
      var init := Snapshots(ps);
      ArrivalOrdersAreOrders(init);
      var order := ArrivalPidOrder(init);
      ghost var final := FcfsPolicy.Run(init);
      ghost var sim := Start(init);
      for k := 0 to |order|
        invariant processes == ps && |sim.work| == |init|
        invariant sim == Sim(currentTime, Snapshots(ps), gantt, [], 0, 0)
        invariant FcfsPolicy.RunFrom(order, k, sim) == final
      {
        var i := order[k];
        FcfsPass(i);
        sim := FcfsPolicy.Step(sim, i);
      }
    }

    /** One pass of the FCFS loop: wait for the arrival of process `i`, then run it to the end. */
    method FcfsPass(i: nat)
      requires i < |processes| && NoDup(processes)
      modifies this, processes[i]
      ensures processes == old(processes)
      ensures Sim(currentTime, Snapshots(processes), gantt, [], 0, 0)
              == FcfsPolicy.Step(old(Sim(currentTime, Snapshots(processes), gantt, [], 0, 0)), i)
    {
      ghost var s := Sim(currentTime, Snapshots(processes), gantt, [], 0, 0);
      if currentTime < processes[i].arrivalTime {
        currentTime := processes[i].arrivalTime;
      }
      assert Snapshots(processes) == s.work;
      RunToEnd(i);
      FcfsPolicy.StepIs(s, i);
    }

    /** Non-preemptive SJF (`c` = `Burst`) or Priority (`c` = `Priority`) on the processes themselves. */
    method ScheduleNonPreemptive(c: Criterion)
      requires NoDup(processes) && IsReset() && Runnable(Initials(processes))
      modifies this, set p | p in processes
      ensures processes == old(processes)
      ensures var s := NonPreemptivePolicy.Run(Initials(processes), c);
        Snapshots(processes) == s.work && currentTime == s.clock && gantt == s.gantt
    {
      var ps := processes;
      ghost var init := Snapshots(ps);
      var order := ArrivalOrder(Snapshots(ps));
      var ready: seq<nat> := [];
      var completed: nat := 0;
      NonPreemptivePolicy.StartInv(init);
      ghost var final := NonPreemptivePolicy.Run(init, c);
      ghost var sim := Start(init);
      while completed < |ps|
        invariant processes == ps
        invariant sim == Sim(currentTime, Snapshots(ps), gantt, ready, 0, completed)
        invariant NonPreemptivePolicy.Inv(init, order, sim)
        invariant NonPreemptivePolicy.RunFrom(init, c, order, sim) == final
        decreases |init| - sim.completed, ArrivalBound(init) - sim.clock
      {
        NonPreemptivePolicy.StepInv(init, c, order, sim);
        ready, completed := NonPreemptivePass(c, order, ready, completed);
        sim := NonPreemptivePolicy.Step(c, order, sim);
      }
    }

    /**
     * One pass of the non-preemptive loop: admit the arrived processes, then run the one with the
     * smallest key to the end, or advance the clock by 1 when none is ready.
     */
    method NonPreemptivePass(c: Criterion, order: seq<nat>, ready: seq<nat>, completed: nat)
      returns (ready': seq<nat>, completed': nat)
      requires NoDup(processes) && NonPreemptivePolicy.Bounded(ready, |processes|)
      modifies this, set p | p in processes
      ensures processes == old(processes)
      ensures Sim(currentTime, Snapshots(processes), gantt, ready', 0, completed')
              == NonPreemptivePolicy.Step(c, order, old(Sim(currentTime, Snapshots(processes), gantt, ready, 0, completed)))
    {
      var work := Snapshots(processes);
      ghost var s := Sim(currentTime, work, gantt, ready, 0, completed);
      var queue := AdmitReady(work, currentTime, order, ready);
      if |queue| > 0 {
        NonPreemptivePolicy.StepBusy(c, order, s, queue);
        ready', completed' := RunNext(c, queue, completed);
      } else {
        ready', completed' := queue, completed;
        currentTime := currentTime + 1;
      }
    }

    /** The busy branch of a non-preemptive pass: pick from `queue` and run the picked process to the end. */
    method RunNext(c: Criterion, queue: seq<nat>, completed: nat) returns (rest: seq<nat>, completed': nat)
      requires NoDup(processes) && |queue| > 0 && NonPreemptivePolicy.Bounded(queue, |processes|)
      modifies this, set p | p in processes
      ensures processes == old(processes)
      ensures var s := old(Sim(currentTime, Snapshots(processes), gantt, queue, 0, completed));
              var p := NonPreemptivePolicy.Pick(s.work, c, queue);
              Sim(currentTime, Snapshots(processes), gantt, rest, 0, completed')
              == NonPreemptivePolicy.RunToCompletion(s, p.0, p.1)
    {
      var work := Snapshots(processes);
      var picked := NonPreemptivePolicy.Pick(work, c, queue);
      rest := picked.1;
      RunToEnd(picked.0);
      completed' := completed + 1;
    }

    /** SRTF (`c` = `Remaining`) or preemptive Priority (`c` = `Priority`) on deep copies, results copied back. */
    method SchedulePreemptive(c: Criterion)
      requires NoDup(processes) && IsReset() && Runnable(Initials(processes))
      modifies this, set p | p in processes
      ensures processes == old(processes)
      ensures var s := PreemptivePolicy.Run(Initials(processes), c);
        Snapshots(processes) == Returned(Initials(processes), s.work) && currentTime == s.clock && gantt == s.gantt
    {
      var ps := processes;
      var work := Snapshots(ps);
      work := PreemptiveLoop(c, work);
      CopyResults(ps, work);
    }

    /** The preemptive loop on the copies `init`, from the clock at 0 and an empty Gantt list. */
    method PreemptiveLoop(c: Criterion, init: seq<Record>) returns (work: seq<Record>)
      requires AllReset(init) && Runnable(init) && currentTime == 0 && gantt == []
      modifies this
      ensures processes == old(processes)
      ensures var s := PreemptivePolicy.Run(init, c); work == s.work && currentTime == s.clock && gantt == s.gantt
    {
      work := init;
      var completed: nat := 0;
      PreemptivePolicy.StartInv(init);
      ghost var final := PreemptivePolicy.Run(init, c);
      ghost var sim := Start(init);
      while completed < |work|
        invariant processes == old(processes)
        invariant sim == Sim(currentTime, work, gantt, [], 0, completed)
        invariant PreemptivePolicy.Inv(init, sim)
        invariant PreemptivePolicy.RunFrom(init, c, sim) == final
        decreases PreemptivePolicy.Owed(sim), ArrivalBound(init) - sim.clock
      {
        PreemptivePolicy.StepInv(init, c, sim);
        work, completed := PreemptivePass(c, work, completed);
        sim := PreemptivePolicy.Step(c, sim);
      }
    }

    /**
     * One pass of the preemptive loop on the copies: run the available process with the smallest
     * key for one unit, extending or appending its interval, or advance the clock by 1.
     */
    method PreemptivePass(c: Criterion, work: seq<Record>, completed: nat) returns (work': seq<Record>, completed': nat)
      modifies this
      ensures processes == old(processes)
      ensures Sim(currentTime, work', gantt, [], 0, completed')
              == PreemptivePolicy.Step(c, Sim(old(currentTime), work, old(gantt), [], 0, completed))
    {
      var available := PreemptivePolicy.Available(work, currentTime, |work|);
      if |available| > 0 {
        var i := PreemptivePolicy.Choose(work, c, available);
        work', completed' := RunOneUnit(work, i, completed);
      } else {
        work', completed' := work, completed;
        currentTime := currentTime + 1;
      }
    }

    /** The busy branch of a preemptive pass: run copy `i` for one time unit. */
    method RunOneUnit(work: seq<Record>, i: nat, completed: nat) returns (work': seq<Record>, completed': nat)
      requires i < |work|
      modifies this
      ensures processes == old(processes)
      ensures Sim(currentTime, work', gantt, [], 0, completed')
              == PreemptivePolicy.RunUnit(Sim(old(currentTime), work, old(gantt), [], 0, completed), i)
    {
      work', completed' := work, completed;
      work' := work'[i := Dispatch(work'[i], currentTime)];
      work' := work'[i := work'[i].(remainingTime := work'[i].remainingTime - 1)];
      gantt := PreemptivePolicy.Extend(gantt, work'[i].pid, currentTime);
      currentTime := currentTime + 1;
      if work'[i].IsCompleted() {
        work' := work'[i := Finish(work'[i], currentTime)];
        completed' := completed' + 1;
      }
    }

    /** Round Robin with quantum `q` on deep copies, results copied back. */
    method ScheduleRoundRobin(q: int)
      requires NoDup(processes) && IsReset() && Runnable(Initials(processes)) && q >= 1
      modifies this, set p | p in processes
      ensures processes == old(processes)
      ensures var s := RoundRobinPolicy.Run(Initials(processes), q);
        Snapshots(processes) == Returned(Initials(processes), s.work) && currentTime == s.clock && gantt == s.gantt
    {
      var ps := processes;
      var work := Snapshots(ps);
      work := RoundRobinLoop(q, work);
      CopyResults(ps, work);
    }

    /** The Round Robin loop on the copies `init`, from the clock at 0 and an empty Gantt list. */
    method RoundRobinLoop(q: int, init: seq<Record>) returns (work: seq<Record>)
      requires AllReset(init) && Runnable(init) && q >= 1 && currentTime == 0 && gantt == []
      modifies this
      ensures processes == old(processes)
      ensures var s := RoundRobinPolicy.Run(init, q); work == s.work && currentTime == s.clock && gantt == s.gantt
    {
      work := init;
      var ready: seq<nat> := [];
      var completed: nat := 0;
      ArrivalOrdersAreOrders(work);
      var order := ArrivalPidOrder(work);
      var index: nat := 0;
      RoundRobinPolicy.StartInv(init, q);
      ghost var final := RoundRobinPolicy.Run(init, q);
      while completed < |work|
        invariant processes == old(processes)
        invariant RoundRobinPolicy.Inv(init, q, order, Sim(currentTime, work, gantt, ready, index, completed))
        invariant RoundRobinPolicy.RunFrom(init, q, order, Sim(currentTime, work, gantt, ready, index, completed)) == final
        decreases RoundRobinPolicy.Owed(Sim(currentTime, work, gantt, ready, index, completed)), ArrivalBound(init) - currentTime
      {
        work, ready, index, completed := RoundRobinRound(init, q, order, work, ready, index, completed);
      }
    }

    /** One iteration of the Round Robin loop, which keeps the run's invariant and its outcome. */
    method RoundRobinRound(ghost init: seq<Record>, q: int, order: seq<nat>, work: seq<Record>, ready: seq<nat>,
                           index: nat, completed: nat)
      returns (work': seq<Record>, ready': seq<nat>, index': nat, completed': nat)
      requires RoundRobinPolicy.Inv(init, q, order, Sim(currentTime, work, gantt, ready, index, completed))
      requires completed < |init|
      modifies this
      ensures processes == old(processes)
      ensures var s := Sim(old(currentTime), work, old(gantt), ready, index, completed);
              var s' := Sim(currentTime, work', gantt, ready', index', completed');
              && RoundRobinPolicy.Inv(init, q, order, s')
              && RoundRobinPolicy.RunFrom(init, q, order, s') == RoundRobinPolicy.RunFrom(init, q, order, s)
              && 0 <= RoundRobinPolicy.Owed(s)
              && (|| RoundRobinPolicy.Owed(s') < RoundRobinPolicy.Owed(s)
                  || (RoundRobinPolicy.Owed(s') == RoundRobinPolicy.Owed(s) && currentTime == old(currentTime) + 1
                      && old(currentTime) < ArrivalBound(init)))
    {
      ghost var s := Sim(currentTime, work, gantt, ready, index, completed);
      RoundRobinPolicy.StepInv(init, q, order, s);
      work', ready', index', completed' := RoundRobinPass(q, order, work, ready, index, completed);
    }

    /**
     * One pass of the Round Robin loop on the copies: admit the arrivals, run the head of the queue
     * for at most `q` units, admit the arrivals up to the new clock, then requeue the process or
     * record its completion; with an empty queue advance the clock by 1.
     */
    method RoundRobinPass(q: int, order: seq<nat>, work: seq<Record>, ready: seq<nat>, index: nat, completed: nat)
      returns (work': seq<Record>, ready': seq<nat>, index': nat, completed': nat)
      requires RoundRobinPolicy.Indexed(order, Sim(currentTime, work, gantt, ready, index, completed))
      modifies this
      ensures processes == old(processes)
      ensures Sim(currentTime, work', gantt, ready', index', completed')
              == RoundRobinPolicy.Step(q, order, Sim(old(currentTime), work, old(gantt), ready, index, completed))
    {
      ghost var s := Sim(currentTime, work, gantt, ready, index, completed);
      work', completed' := work, completed;
      index', ready' := AdmitArrivals(work, currentTime, order, index, ready);
      ghost var a := (index', ready');
      RoundRobinPolicy.AdmitBounded(work, currentTime, order, index, ready);
      if |ready'| > 0 {
        var i := ready'[0];
        ghost var r' := RoundRobinPolicy.Ran(work[i], s.clock, q);
        ghost var t := s.clock + RoundRobinPolicy.Units(work[i], q);
        RoundRobinPolicy.ServeIs(q, order, s, a.0, a.1);
        ready' := ready'[1..];
        work' := work'[i := Dispatch(work'[i], currentTime)];
        var execTime := if q < work'[i].remainingTime then q else work'[i].remainingTime;
        var start := currentTime;
        work' := work'[i := work'[i].(remainingTime := work'[i].remainingTime - execTime)];
        currentTime := currentTime + execTime;
        gantt := gantt + [Interval(work'[i].pid, start, currentTime)];
        assert work' == work[i := r'] && currentTime == t;
        assert gantt == RoundRobinPolicy.RunSlice(s, i, q).gantt;
        index', ready' := AdmitArrivals(work', currentTime, order, index', ready');
        if !work'[i].IsCompleted() {
          ready' := ready' + [i];
        } else {
          work' := work'[i := Finish(work'[i], currentTime)];
          completed' := completed' + 1;
        }
        assert RoundRobinPolicy.Step(q, order, s) == RoundRobinPolicy.Serve(q, order, s, a.0, a.1);
      } else {
        currentTime := currentTime + 1;
      }
    }
  }

  /** The names `ProcessScheduler` accepts. */
  const Names: set<string> := {"fcfs", "sjf", "sjf_preemptive", "round_robin", "priority", "priority_preemptive"}

  /**
   * The policy a name selects; only `round_robin` takes the `quantum` keyword, 4 when it is
   * absent. Any other name is an error.
   */
  function Lookup(name: string, quantum: Option<int>): (r: Result<Algorithm, string>)
    ensures r.Success? <==> name in Names
    ensures r.Failure? ==> r.error == "Algoritmo desconocido: " + name
    ensures r.Success? && r.value.RoundRobin? <==> name == "round_robin"
    ensures name == "round_robin" ==> r.value.quantum == quantum.GetOr(4)
    ensures r.Success? ==> (OnCopies(r.value) <==> name in {"sjf_preemptive", "round_robin", "priority_preemptive"})
  {
    if name == "fcfs" then Success(Fcfs)
    else if name == "sjf" then Success(Sjf(false))
    else if name == "sjf_preemptive" then Success(Sjf(true))
    else if name == "round_robin" then Success(RoundRobin(quantum.GetOr(4)))
    else if name == "priority" then Success(ByPriority(false))
    else if name == "priority_preemptive" then Success(ByPriority(true))
    else Failure("Algoritmo desconocido: " + name)
  }

  /** The quantum keyword is ignored by every policy but Round Robin. */
  lemma LookupIgnoresQuantum(name: string, a: Option<int>, b: Option<int>)
    requires name != "round_robin"
    ensures Lookup(name, a) == Lookup(name, b)
  {
  }

  /** The facade: a scheduler chosen by name, to which it delegates. */
  class ProcessScheduler {
    const scheduler: Scheduler

    constructor (algorithm: Algorithm)
      ensures fresh(scheduler) && scheduler.algorithm == algorithm
      ensures scheduler.processes == [] && scheduler.currentTime == 0 && scheduler.gantt == []
    {
      scheduler := new Scheduler(algorithm);
    }

    /** `ProcessScheduler(algorithm, quantum=...)`: an unknown name is the `ValueError`. */
    static method Create(name: string := "fcfs", quantum: Option<int> := None) returns (r: Result<ProcessScheduler, string>)
      ensures r.Success? <==> Lookup(name, quantum).Success?
      ensures r.Failure? ==> r.error == Lookup(name, quantum).error
      ensures r.Success? ==> && fresh(r.value) && fresh(r.value.scheduler)
                             && r.value.scheduler.algorithm == Lookup(name, quantum).value
                             && r.value.scheduler.processes == []
    {
      var algorithm := Lookup(name, quantum);
      if algorithm.Failure? {
        return Failure(algorithm.error);
      }
      var ps := new ProcessScheduler(algorithm.value);
      return Success(ps);
    }

    method AddProcess(p: Process)
      modifies scheduler
      ensures scheduler.processes == old(scheduler.processes) + [p]
      ensures scheduler.currentTime == old(scheduler.currentTime) && scheduler.gantt == old(scheduler.gantt)
    {
      scheduler.AddProcess(p);
    }

    method AddProcesses(ps: seq<Process>)
      modifies scheduler
      ensures scheduler.processes == old(scheduler.processes) + ps
      ensures scheduler.currentTime == old(scheduler.currentTime) && scheduler.gantt == old(scheduler.gantt)
    {
      scheduler.AddProcesses(ps);
    }

    /** `run()` is the scheduler's `schedule()`. */
    method Run() returns (m: SchedulerMetrics)
      requires NoDup(scheduler.processes) && Terminates(scheduler.algorithm, Initials(scheduler.processes))
      modifies scheduler, set p | p in scheduler.processes
      ensures scheduler.processes == old(scheduler.processes)
      ensures var s := Simulate(scheduler.algorithm, Initials(scheduler.processes));
        && Snapshots(scheduler.processes) == Outcome(scheduler.algorithm, Initials(scheduler.processes))
        && scheduler.currentTime == s.clock && scheduler.gantt == s.gantt
      ensures m == SchedulerMetrics(Snapshots(scheduler.processes), scheduler.gantt)
    {
      m := scheduler.Schedule();
    }
  }
}
