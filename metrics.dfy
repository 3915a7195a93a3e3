/**
 * The metrics of a finished schedule (process_scheduler/metrics.py): exact averages over the
 * process records, CPU utilization, throughput, the makespan, the summary and the per-process
 * detail view. Averages are exact quotients (`real`); the summary's rounding is not modelled.
 */
module Metrics {
  import opened Wrappers
  import opened ProcessModel
  import opened Aggregates
  import opened Timeline
  import opened Sorting

  /** The summary of a schedule, unrounded. */
  datatype Summary = Summary(
    numProcesses: int,
    avgWaitingTime: real,
    avgTurnaroundTime: real,
    avgResponseTime: real,
    cpuUtilization: real,
    throughput: real,
    totalTime: int)

  /** One row of the detail view; a missing response time is shown as 0. */
  datatype Detail = Detail(
    pid: int, arrival: int, burst: int, priority: int,
    completion: int, waiting: int, turnaround: int, response: int)

  /** The exact mean of an integer total over `n` items, 0.0 when there are none. */
  function Mean(total: int, n: int): (m: real)
    ensures n > 0 ==> m * n as real == total as real
    ensures n <= 0 ==> m == 0.0
  {
    if n <= 0 then 0.0 else total as real / n as real
  }

  /** The sum of the response times that are set. */
  function ResponseSum(rs: seq<Record>): int {
    if rs == [] then 0
    else (if rs[0].responseTime.Some? then rs[0].responseTime.value else 0) + ResponseSum(rs[1..])
  }

  /** How many records have a response time set. */
  function ResponseCount(rs: seq<Record>): int {
    if rs == [] then 0 else (if rs[0].responseTime.Some? then 1 else 0) + ResponseCount(rs[1..])
  }

  function DetailOf(r: Record): Detail {
    Detail(r.pid, r.arrivalTime, r.burstTime, r.priority, r.completionTime, r.waitingTime,
           r.turnaroundTime, r.responseTime.GetOr(0))
  }

  function Details(rs: seq<Record>): (d: seq<Detail>)
    ensures |d| == |rs| && forall i | 0 <= i < |rs| :: d[i] == DetailOf(rs[i])
  {
    seq(|rs|, i requires 0 <= i < |rs| => DetailOf(rs[i]))
  }

  /** The sort key of the detail view: the pid alone. */
  function PidKey(r: Record): Key {
    (r.pid, 0, 0)
  }

  /** The records a schedule finished with and the Gantt list it drew. */
  datatype SchedulerMetrics = SchedulerMetrics(processes: seq<Record>, gantt: seq<Interval>)
  {
    function AvgWaitingTime(): real {
      Mean(SumBy(processes, WaitingOf), |processes|)
    }

    function AvgTurnaroundTime(): real {
      Mean(SumBy(processes, TurnaroundOf), |processes|)
    }

    /** The mean over the records whose response time is set; 0.0 when none is. */
    function AvgResponseTime(): real {
      if |processes| == 0 then 0.0 else Mean(ResponseSum(processes), ResponseCount(processes))
    }

    /**
     * `100 * Σ burst / max completion`; 0.0 without a Gantt list or when the largest completion
     * time is 0. A Gantt list without processes makes `max` fail.
     */
    function CpuUtilization(): Result<real, string> {
      if |gantt| == 0 then Success(0.0)
      else if |processes| == 0 then Failure("max() arg is an empty sequence")
      else
        var total := MaxCompletion(processes);
        if total == 0 then Success(0.0)
        else Success(SumBy(processes, BurstOf) as real / total as real * 100.0)
    }

    /** Processes per time unit up to the largest completion time; 0.0 when that is 0. */
    function Throughput(): real {
      if |processes| == 0 then 0.0
      else
        var total := MaxCompletion(processes);
        if total == 0 then 0.0 else |processes| as real / total as real
    }

    /** The largest completion time, 0 without processes. */
    function TotalCompletionTime(): int {
      if |processes| == 0 then 0 else MaxCompletion(processes)
    }

    /** Every metric at once; it fails exactly when `CpuUtilization` does. */
    function GetSummary(): (r: Result<Summary, string>)
      ensures r.Success? <==> CpuUtilization().Success?
      ensures r.Success? ==> r.value.numProcesses == |processes| && r.value.totalTime == TotalCompletionTime()
    {
      match CpuUtilization()
      case Failure(e) => Failure(e)
      case Success(u) =>
        Success(Summary(|processes|, AvgWaitingTime(), AvgTurnaroundTime(), AvgResponseTime(), u,
                        Throughput(), TotalCompletionTime()))
    }

    /** One row per process, in ascending pid order (stable for equal pids). */
    function GetProcessDetails(): (d: seq<Detail>) {
      Details(SortBy(processes, PidKey))
    }
  }

  /** The exact mean `total / n` characterised through the mean of the parts. */
  lemma MeanAdd(a: int, b: int, n: int)
    ensures Mean(a + b, n) == Mean(a, n) + Mean(b, n)
  {
    if n > 0 {
      assert (a + b) as real / n as real == a as real / n as real + b as real / n as real;
    }
  }

  lemma MeanMonotone(a: int, b: int, n: int)
    requires a <= b
    ensures Mean(a, n) <= Mean(b, n)
  {
  }

  /** Without processes the averages and the throughput are 0.0 and the total time is 0. */
  lemma EmptyMetrics(gantt: seq<Interval>)
    ensures var m := SchedulerMetrics([], gantt);
      && m.AvgWaitingTime() == 0.0 && m.AvgTurnaroundTime() == 0.0 && m.AvgResponseTime() == 0.0
      && m.Throughput() == 0.0 && m.TotalCompletionTime() == 0
      && (m.CpuUtilization().Success? <==> gantt == [])
      && (gantt == [] ==> m.CpuUtilization() == Success(0.0))
  {
  }

  /** The average waiting time times the count is the total waiting time (and likewise for turnaround). */
  lemma AveragesAreMeans(m: SchedulerMetrics)
    requires |m.processes| > 0
    ensures m.AvgWaitingTime() * |m.processes| as real == SumBy(m.processes, WaitingOf) as real
    ensures m.AvgTurnaroundTime() * |m.processes| as real == SumBy(m.processes, TurnaroundOf) as real
  {
  }

  /** When every record has a response time, the response average runs over all of them. */
  lemma {:induction false} ResponsesOfSettled(rs: seq<Record>)
    requires forall i | 0 <= i < |rs| :: Settled(rs[i])
    ensures ResponseCount(rs) == |rs|
    ensures 0 <= ResponseSum(rs) <= SumBy(rs, WaitingOf)
  {
    if rs != [] {
      assert forall i | 0 <= i < |rs[1..]| :: rs[1..][i] == rs[i + 1];
      ResponsesOfSettled(rs[1..]);
    }
  }

  /** A record with no response time set is counted out of the response average. */
  lemma {:induction false} ResponseCountBounded(rs: seq<Record>)
    ensures 0 <= ResponseCount(rs) <= |rs|
    ensures ResponseCount(rs) == |rs| <==> forall i | 0 <= i < |rs| :: rs[i].responseTime.Some?
  {
    if rs != [] {
      ResponseCountBounded(rs[1..]);
      assert forall i | 1 <= i < |rs| :: rs[i] == rs[1..][i - 1];
    }
  }

  /**
   * For settled records (turnaround = completion - arrival, waiting = turnaround - burst) the
   * average turnaround is the average waiting plus the average burst, and the average response
   * lies between 0 and the average waiting.
   */
  lemma SettledAverages(m: SchedulerMetrics)
    requires forall i | 0 <= i < |m.processes| :: Settled(m.processes[i])
    ensures m.AvgTurnaroundTime() == m.AvgWaitingTime() + Mean(SumBy(m.processes, BurstOf), |m.processes|)
    ensures 0.0 <= m.AvgResponseTime() <= m.AvgWaitingTime()
  {
    var rs := m.processes;
    SumByAdd(rs, WaitingOf, BurstOf, TurnaroundOf);
    MeanAdd(SumBy(rs, WaitingOf), SumBy(rs, BurstOf), |rs|);
    ResponsesOfSettled(rs);
    MeanMonotone(0, ResponseSum(rs), |rs|);
    MeanMonotone(ResponseSum(rs), SumBy(rs, WaitingOf), |rs|);
  }

  /**
   * For a run the policies produce, utilization is defined, positive for a non-empty run and at
   * most 100; throughput is the process count over the last end of the Gantt list, which is also
   * the total time.
   */
  lemma WellFormedMetrics(m: SchedulerMetrics)
    requires WellFormedRun(m.processes, m.gantt)
    ensures m.CpuUtilization().Success?
    ensures |m.processes| == 0 ==> m.CpuUtilization().value == 0.0
    ensures |m.processes| > 0 ==>
      && 0.0 < m.CpuUtilization().value <= 100.0
      && m.TotalCompletionTime() == LastEnd(m.gantt) > 0
      && m.Throughput() * LastEnd(m.gantt) as real == |m.processes| as real
  {
    if |m.processes| > 0 {
      BusyWithinLastEnd(m.gantt);
      BusyPositive(m.gantt);
      var busy := SumBy(m.processes, BurstOf);
      var total := MaxCompletion(m.processes);
      Percentage(busy, total);
      Rate(|m.processes|, total);
    }
  }

  /** A positive part of a whole, as a percentage, lies in (0, 100]. */
  lemma Percentage(part: int, whole: int)
    requires 0 < part <= whole
    ensures 0.0 < part as real / whole as real * 100.0 <= 100.0
  {
    assert part as real / whole as real <= 1.0;
  }

  /** A rate over a positive duration, times the duration, gives the count back. */
  lemma Rate(n: int, duration: int)
    requires duration > 0
    ensures n as real / duration as real * duration as real == n as real
  {
  }

  /** A non-empty ordered timeline accounts for some CPU time. */
  lemma {:induction false} BusyPositive(g: seq<Interval>)
    requires Ordered(g) && |g| > 0
    ensures BusyTime(g) > 0
  {
    var init := g[..|g| - 1];
    assert Ordered(init);
    if |init| > 0 {
      BusyPositive(init);
    }
  }

  /** `Details` of a concatenation is the concatenation of the `Details`. */
  lemma DetailsAppend(a: seq<Record>, b: seq<Record>)
    ensures Details(a + b) == Details(a) + Details(b)
  {
  }

  /** Permuting the records permutes their detail rows. */
  lemma {:induction false} DetailsPermute(a: seq<Record>, b: seq<Record>)
    requires multiset(a) == multiset(b)
    ensures multiset(Details(a)) == multiset(Details(b))
    decreases |a|
  {
    if a != [] {
      var x := a[0];
      assert x in multiset(b);
      var j :| 0 <= j < |b| && b[j] == x;
      var rest := b[..j] + b[j + 1..];
      assert b == b[..j] + [x] + b[j + 1..];
      assert a == [x] + a[1..];
      assert multiset(a) == multiset{x} + multiset(a[1..]);
      assert multiset(b) == multiset(b[..j]) + multiset{x} + multiset(b[j + 1..]);
      assert multiset(rest) == multiset(b[..j]) + multiset(b[j + 1..]);
      calc {
        multiset(a[1..]);
        multiset(a) - multiset{x};
        multiset(b) - multiset{x};
        multiset(rest);
      }
      DetailsPermute(a[1..], rest);
      DetailsAppend([x], a[1..]);
      DetailsAppend(b[..j] + [x], b[j + 1..]);
      DetailsAppend(b[..j], [x]);
      DetailsAppend(b[..j], b[j + 1..]);
    }
  }

  /** The detail view has one row per process, ordered by pid, and is a permutation of the records' rows. */
  lemma ProcessDetails(m: SchedulerMetrics)
    ensures var d := m.GetProcessDetails();
      && |d| == |m.processes|
      && (forall i, j | 0 <= i < j < |d| :: d[i].pid <= d[j].pid)
      && multiset(d) == multiset(Details(m.processes))
      && (forall i | 0 <= i < |d| :: d[i].response == 0 || exists k :: 0 <= k < |m.processes| && m.processes[k].responseTime == Some(d[i].response))
  {
    var sorted := SortBy(m.processes, PidKey);
    SortBySorted(m.processes, PidKey);
    DetailsPermute(sorted, m.processes);
    var d := m.GetProcessDetails();
    forall i, j | 0 <= i < j < |d| ensures d[i].pid <= d[j].pid {
      assert KeyLe(PidKey(sorted[i]), PidKey(sorted[j]));
    }
    forall i | 0 <= i < |d| && d[i].response != 0
      ensures exists k :: 0 <= k < |m.processes| && m.processes[k].responseTime == Some(d[i].response)
    {
      assert sorted[i] in multiset(m.processes);
      var k :| 0 <= k < |m.processes| && m.processes[k] == sorted[i];
    }
  }
}
