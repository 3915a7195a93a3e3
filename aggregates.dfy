/** Sums and maxima over a list of process records, as `sum(...)` and `max(...)` compute them. */
module Aggregates {
  import opened ProcessModel

  /** The sum of `f` over the records. */
  function SumBy(rs: seq<Record>, f: Record -> int): int {
    if rs == [] then 0 else f(rs[0]) + SumBy(rs[1..], f)
  }

  /** Replacing one record changes the sum by the difference of the two values. */
  lemma {:induction false} SumByUpdate(rs: seq<Record>, i: nat, r: Record, f: Record -> int)
    requires i < |rs|
    ensures SumBy(rs[i := r], f) == SumBy(rs, f) - f(rs[i]) + f(r)
  {
    if i > 0 {
      assert rs[i := r][1..] == rs[1..][i - 1 := r];
      SumByUpdate(rs[1..], i - 1, r, f);
    }
  }

  /** A sum is at most another when every term is. */
  lemma {:induction false} SumByMonotone(rs: seq<Record>, f: Record -> int, g: Record -> int)
    requires forall i | 0 <= i < |rs| :: f(rs[i]) <= g(rs[i])
    ensures SumBy(rs, f) <= SumBy(rs, g)
  {
    if rs != [] {
      SumByMonotone(rs[1..], f, g);
    }
  }

  /** A sum of terms that agree pointwise with the sum of two others is the sum of the two sums. */
  lemma {:induction false} SumByAdd(rs: seq<Record>, f: Record -> int, g: Record -> int, h: Record -> int)
    requires forall i | 0 <= i < |rs| :: h(rs[i]) == f(rs[i]) + g(rs[i])
    ensures SumBy(rs, h) == SumBy(rs, f) + SumBy(rs, g)
  {
    if rs != [] {
      SumByAdd(rs[1..], f, g, h);
    }
  }

  /** Sums that agree term by term are equal. */
  lemma {:induction false} SumByPointwise(rs: seq<Record>, f: Record -> int, g: Record -> int)
    requires forall i | 0 <= i < |rs| :: f(rs[i]) == g(rs[i])
    ensures SumBy(rs, f) == SumBy(rs, g)
  {
    if rs != [] {
      SumByPointwise(rs[1..], f, g);
    }
  }

  function BurstOf(r: Record): int { r.burstTime }
  function WaitingOf(r: Record): int { r.waitingTime }
  function TurnaroundOf(r: Record): int { r.turnaroundTime }
  function RemainingOf(r: Record): int { r.remainingTime }
  function CompletedFlag(r: Record): int { if r.IsCompleted() then 1 else 0 }

  /** The number of completed records. */
  function CountCompleted(rs: seq<Record>): (n: int)
    ensures 0 <= n <= |rs|
  {
    SumByMonotone(rs, _ => 0, CompletedFlag);
    SumByMonotone(rs, CompletedFlag, _ => 1);
    SumByConstant(rs, 0);
    SumByConstant(rs, 1);
    SumBy(rs, CompletedFlag)
  }

  lemma {:induction false} SumByConstant(rs: seq<Record>, c: int)
    ensures SumBy(rs, _ => c) == c * |rs|
  {
    if rs != [] {
      SumByConstant(rs[1..], c);
    }
  }

  /** While fewer records are completed than there are records, one of them is not completed. */
  lemma {:induction false} SomeUncompleted(rs: seq<Record>) returns (u: nat)
    requires CountCompleted(rs) < |rs|
    ensures u < |rs| && !rs[u].IsCompleted()
  {
    if rs[0].IsCompleted() {
      assert SumBy(rs, CompletedFlag) == 1 + SumBy(rs[1..], CompletedFlag);
      var v := SomeUncompleted(rs[1..]);
      u := v + 1;
    } else {
      u := 0;
    }
  }

  /** When every record is counted as completed, every record is completed. */
  lemma {:induction false} AllCompleted(rs: seq<Record>, i: nat)
    requires CountCompleted(rs) == |rs| && i < |rs|
    ensures rs[i].IsCompleted()
  {
    assert SumBy(rs, CompletedFlag) == CompletedFlag(rs[0]) + SumBy(rs[1..], CompletedFlag);
    assert CountCompleted(rs[1..]) <= |rs| - 1;
    if i > 0 {
      AllCompleted(rs[1..], i - 1);
    }
  }

  /** The largest completion time: `max(p.completion_time for p in processes)`. */
  function MaxCompletion(rs: seq<Record>): (m: int)
    requires |rs| > 0
    ensures forall i | 0 <= i < |rs| :: rs[i].completionTime <= m
    ensures exists i :: 0 <= i < |rs| && rs[i].completionTime == m
  {
    if |rs| == 1 then rs[0].completionTime
    else
      var m := MaxCompletion(rs[1..]);
      assert forall i | 1 <= i < |rs| :: rs[i] == rs[1..][i - 1];
      if rs[0].completionTime >= m then rs[0].completionTime else m
  }

  /** Replacing one record changes the completed count by the difference of the two flags. */
  lemma CountCompletedUpdate(rs: seq<Record>, i: nat, r: Record)
    requires i < |rs|
    ensures CountCompleted(rs[i := r]) == CountCompleted(rs) - CompletedFlag(rs[i]) + CompletedFlag(r)
  {
    SumByUpdate(rs, i, r, CompletedFlag);
  }

  /** An arrival time no record arrives after (0 for no records). */
  function ArrivalBound(rs: seq<Record>): (m: int)
    ensures forall i | 0 <= i < |rs| :: rs[i].arrivalTime <= m
  {
    if rs == [] then 0
    else
      var m := ArrivalBound(rs[1..]);
      assert forall i | 1 <= i < |rs| :: rs[i] == rs[1..][i - 1];
      if rs[0].arrivalTime >= m then rs[0].arrivalTime else m
  }
}
