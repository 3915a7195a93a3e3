/**
 * The Gantt list a policy produces (`{pid, start, end}` entries) and what a finished run
 * promises about it and about the finished process records.
 */
module Timeline {
  import opened Wrappers
  import opened ProcessModel
  import opened Aggregates

  /** The CPU ran process `pid` from `start` to `end`. */
  datatype Interval = Interval(pid: int, start: int, end: int)

  /** Total CPU time the intervals account for. */
  function BusyTime(g: seq<Interval>): int {
    if g == [] then 0 else BusyTime(g[..|g| - 1]) + (g[|g| - 1].end - g[|g| - 1].start)
  }

  function LastEnd(g: seq<Interval>): int
    requires |g| > 0
  {
    g[|g| - 1].end
  }

  /** Intervals are non-empty, start at time 0 or later and follow each other without overlap. */
  predicate Ordered(g: seq<Interval>) {
    && (forall k | 0 <= k < |g| :: 0 <= g[k].start < g[k].end)
    && (forall i, j | 0 <= i < j < |g| :: g[i].end <= g[j].start)
  }

  /** No two neighbouring intervals belong to the same process and touch. */
  predicate Coalesced(g: seq<Interval>) {
    forall k | 0 <= k < |g| - 1 :: !(g[k].pid == g[k + 1].pid && g[k].end == g[k + 1].start)
  }

  /** In an ordered timeline the busy time fits between time 0 and the last end. */
  lemma {:induction false} BusyWithinLastEnd(g: seq<Interval>)
    requires Ordered(g) && |g| > 0
    ensures 0 <= BusyTime(g) <= LastEnd(g)
  {
    var init := g[..|g| - 1];
    assert Ordered(init);
    if |init| > 0 {
      BusyWithinLastEnd(init);
      assert init[|init| - 1] == g[|g| - 2];
    }
  }

  /** Appending adds the new interval's length to the busy time. */
  lemma BusyTimeAppend(g: seq<Interval>, iv: Interval)
    ensures BusyTime(g + [iv]) == BusyTime(g) + (iv.end - iv.start)
  {
    assert (g + [iv])[..|g|] == g;
  }

  /** Appending a non-empty interval that starts no earlier than the last end keeps the timeline ordered. */
  lemma OrderedAppend(g: seq<Interval>, iv: Interval)
    requires Ordered(g)
    requires 0 <= iv.start < iv.end
    requires |g| > 0 ==> LastEnd(g) <= iv.start
    ensures Ordered(g + [iv])
  {
    var g' := g + [iv];
    forall i, j | 0 <= i < j < |g'| ensures g'[i].end <= g'[j].start {
      if j == |g| && i < |g| - 1 {
        assert g[i].end <= g[|g| - 1].start;
      }
    }
  }

  /** The entries of process `pid`, in timeline order. */
  function Slices(g: seq<Interval>, pid: int): seq<Interval> {
    if g == [] then []
    else Slices(g[..|g| - 1], pid) + (if g[|g| - 1].pid == pid then [g[|g| - 1]] else [])
  }

  /** Appending an entry adds it to the entries of its own process and to no other. */
  lemma SlicesAppend(g: seq<Interval>, iv: Interval, pid: int)
    ensures Slices(g + [iv], pid) == Slices(g, pid) + (if iv.pid == pid then [iv] else [])
  {
    assert (g + [iv])[..|g|] == g;
  }

  /** No two processes share a pid, so a pid names one process in the Gantt list. */
  predicate DistinctPids(rs: seq<Record>) {
    forall i, j | 0 <= i < |rs| && 0 <= j < |rs| && i != j :: rs[i].pid != rs[j].pid
  }

  /**
   * A finished process agrees with its own Gantt entries: it started where the first one starts,
   * completed where the last one ends, and together they last exactly its burst.
   */
  predicate MatchesSlices(r: Record, g: seq<Interval>) {
    var s := Slices(g, r.pid);
    && |s| > 0
    && r.startTime == Some(s[0].start)
    && r.completionTime == LastEnd(s)
    && BusyTime(s) == r.burstTime
  }

  /** The metrics of a finished process agree with each other. */
  predicate Settled(r: Record) {
    && r.turnaroundTime == r.completionTime - r.arrivalTime
    && r.waitingTime == r.turnaroundTime - r.burstTime
    && r.responseTime.Some?
    && 0 <= r.responseTime.value <= r.waitingTime
  }

  /**
   * What every policy delivers for processes of burst 1 or more: settled metrics, an ordered
   * timeline that accounts for exactly the bursts, and that ends when the last process completes.
   */
  predicate WellFormedRun(rs: seq<Record>, g: seq<Interval>) {
    && (forall i | 0 <= i < |rs| :: Settled(rs[i]))
    && Ordered(g)
    && BusyTime(g) == SumBy(rs, BurstOf)
    && (|rs| == 0 <==> |g| == 0)
    && (|rs| > 0 ==> LastEnd(g) == MaxCompletion(rs))
  }

  /** The timeline ends when the last process to complete does. */
  lemma LastEndIsMaxCompletion(work: seq<Record>, gantt: seq<Interval>, last: nat)
    requires |gantt| > 0 && last < |work|
    requires forall i | 0 <= i < |work| :: work[i].completionTime <= LastEnd(gantt)
    requires work[last].completionTime == LastEnd(gantt)
    ensures LastEnd(gantt) == MaxCompletion(work)
  {
    var m := MaxCompletion(work);
    assert work[last].completionTime <= m;
  }

  /** In an ordered timeline no interval ends after the last one. */
  lemma EndsBeforeLast(g: seq<Interval>)
    requires Ordered(g) && |g| > 0
    ensures forall j | 0 <= j < |g| - 1 :: g[j].end <= g[|g| - 1].end
  {
    forall j | 0 <= j < |g| - 1
      ensures g[j].end <= g[|g| - 1].end
    {
      assert g[j].end <= g[|g| - 1].start;
    }
  }
}
