# CPU scheduling simulator — a verified Dafny model

This project models the core of a discrete-event CPU scheduling simulator written in Python
(`process_scheduler/process.py`, `process_scheduler/schedulers.py`, `process_scheduler/metrics.py`).
The simulator takes a list of processes, each with an arrival time, a CPU burst and a priority. It
runs one of six policies over them:
- FCFS;
- SJF, non-preemptive or preemptive (SRTF);
- Round Robin;
- Priority, non-preemptive or preemptive.

A run fills in each process's start, response, completion, turnaround and waiting times and draws
a Gantt list of `(pid, start, end)` intervals. The metrics object then derives averages, CPU
utilization, throughput and a per-process detail view.

Layout, one module per file:

- `process.dfy` (`ProcessModel`): the process, both as a value (`Record`, which is also the
  deep copy a policy works on) and as a class `Process` whose simulation fields are updated in
  place. It covers `execute`, `is_completed`, `reset` and `<`.
- `sorting.dfy` (`Sorting`): Python's stable `sorted`/`list.sort` and `min` with tuple keys.
- `aggregates.dfy`, `timeline.dfy` (`Aggregates`, `Timeline`): sums and maxima over records,
  the Gantt list and what a well-formed run is.
- `policies.dfy` (`Policies`): dispatch and completion of a process, the selection keys, the
  arrival orders and the loop state `Sim`.
- `fcfs.dfy`, `nonpreemptive.dfy`, `preemptive.dfy`, `roundrobin.dfy`: each policy's loop as a
  pure step function `Step`, iterated by `RunFrom`/`Run`, with its invariant, its termination
  measure and the properties of the finished run.
- `metrics.dfy` (`Metrics`): `SchedulerMetrics` and its properties, summary and detail view.
- `schedulers.dfy` (`Schedulers`): the scheduler as a class with `processes`, `currentTime`
  and `gantt` fields. Each `schedule()` is an imperative method with the source's loop, proved
  equal to the policy's `Run`. Also here are the `ProcessScheduler` facade and the lemmas that
  hold for every policy.

What happens to the caller's processes:
- FCFS and the two non-preemptive policies update them in place.
- SRTF, preemptive Priority and Round Robin run on deep copies. They then copy only completion,
  turnaround, waiting and response times back. The caller's processes therefore stay NEW, with
  their whole burst remaining and no start time (`Schedulers.OutcomeProperties`).

Where the code and the specification disagree, this model follows the code:
- Round Robin appends one interval per time slice and never merges neighbouring slices of the
  same process. Only the preemptive policies extend the last interval, so `Coalesced` is proved
  for them alone.
- After Round Robin, the caller's processes are not completed, since only four fields are copied
  back. The expectation at `tests/test_scheduler.py:45` that they are does not hold;
  `Schedulers.OutcomeProperties` proves the opposite for every copying policy.
- The quantum is not checked by the code. The loop only ends for a quantum of at least 1, so the
  model requires it.

## Model

| member | source | states |
|---|---|---|
| ProcessModel.Fresh | process_scheduler/process.py:36-51 | a new process keeps its four inputs; its remaining time is the given one or else the burst; it is NEW with no start or response time |
| ProcessModel.Process.constructor | process_scheduler/process.py:19-51 | the created object's fields are exactly `Fresh` of the arguments, with the source's defaults (arrival 0, burst 1, priority 0) |
| ProcessModel.Process.Execute | process_scheduler/process.py:53-72 | the object's new fields and the returned time are those of `Record.Execute` on its old fields |
| ProcessModel.Process.Reset | process_scheduler/process.py:78-86 | the object's fields become its reset record, the same as a freshly created process with these inputs |
| ProcessModel.IsCompletedOfSnapshot | process_scheduler/process.py:74-76 | `is_completed()` on the object agrees with the record view: nothing remains or TERMINATED |
| ProcessModel.ExecuteWhenNotRunning | process_scheduler/process.py:63-64 | a process that is not RUNNING consumes 0 and is unchanged |
| ProcessModel.ExecuteConsumes | process_scheduler/process.py:66-72 | a RUNNING process consumes `min(units, remaining)`; remaining stays within `[0, old]`; it is TERMINATED iff nothing remains; no other field changes |
| ProcessModel.ExecuteSplits | process_scheduler/process.py:53-72 | executing `a` then `b` units equals executing `a + b` units, in record and time used |
| ProcessModel.ResetForgetsExecution | process_scheduler/process.py:78-86 | resetting after any execution gives the record resetting before it gives |
| ProcessModel.ResetIsIdempotent | process_scheduler/process.py:78-86 | reset keeps the inputs, restores the whole burst and NEW, is idempotent, and leaves a completed process only when the burst is 0 |
| ProcessModel.LessIsPriorityOnly | process_scheduler/process.py:93-97 | `<` compares priorities only: equal priorities are unordered and the order is asymmetric |
| Sorting.SortBy | process_scheduler/schedulers.py:52 | `sorted(..., key=...)` returns a permutation of its input (same multiset and length) |
| Sorting.SortBySorted | process_scheduler/schedulers.py:52 | the result of `sorted` is in non-decreasing key order |
| Sorting.MinBy | process_scheduler/schedulers.py:164 | `min(..., key=...)` returns an element of the list whose key is no larger than any other's |
| Policies.DispatchFirstOnly | process_scheduler/schedulers.py:59-65 | dispatch makes the process RUNNING; its start time becomes the clock and its response time the clock minus its arrival only when it has no start time yet, and both are kept otherwise; inputs, remaining time and the other results are kept; dispatching again at any later clock changes nothing |
| Policies.Finish | process_scheduler/schedulers.py:76-80 | completion keeps the inputs, the remaining time and the start time |
| Policies.DispatchFinishRanOnce | process_scheduler/schedulers.py:59-80 | a process dispatched once at `start` and finished at `start + burst` is TERMINATED with response = waiting and turnaround = waiting + burst |
| Policies.ArrivalOrdersAreOrders | process_scheduler/schedulers.py:52 | the `(arrival, pid)` and the arrival-only sort orders are each a permutation of all positions |
| FcfsPolicy.RunProperties | process_scheduler/schedulers.py:47-82 | one interval per process in `(arrival, pid)` order; each starts at the later of the previous end and the arrival and lasts the burst; the process of interval `j` has that interval's start as its start time and its end as its completion time, is TERMINATED and has response = waiting; inputs unchanged; the run is well formed |
| NonPreemptivePolicy.StepPicksMinimal | process_scheduler/schedulers.py:111-145 | when some process has arrived and is not completed, the picked one has arrived, is not completed and has the smallest `(key, arrival, pid)` among all such processes |
| NonPreemptivePolicy.StepIdles | process_scheduler/schedulers.py:146-147 | with no arrived, uncompleted process the pass only advances the clock by 1 |
| NonPreemptivePolicy.StepInv | process_scheduler/schedulers.py:111-147 | a pass keeps the loop invariant and either completes one more process or advances the clock by 1 below the last arrival, so the loop ends |
| NonPreemptivePolicy.RunProperties | process_scheduler/schedulers.py:104-149 | inputs unchanged; one interval per process; each process ran exactly once in its own interval, from dispatch to dispatch + burst, TERMINATED with response = waiting; the run is well formed |
| PreemptivePolicy.StepPicksMinimal | process_scheduler/schedulers.py:157-195 | when some process has arrived and is not completed, the pass runs, for one unit, one whose `(key, arrival, pid)` is minimal among them |
| PreemptivePolicy.StepIdles | process_scheduler/schedulers.py:196-197 | with no arrived, uncompleted process the pass only advances the clock by 1 |
| PreemptivePolicy.ExtendCoalesced | process_scheduler/schedulers.py:175-185 | extending or appending the one-unit interval never leaves two touching neighbours of the same pid |
| PreemptivePolicy.StepInv | process_scheduler/schedulers.py:157-197 | a pass keeps the invariant and either lowers the CPU time still owed or advances the clock below the last arrival, so the loop ends |
| PreemptivePolicy.RunProperties | process_scheduler/schedulers.py:151-206 | on the copies: inputs unchanged; all TERMINATED with response = start - arrival and start + burst <= completion; the run is well formed and coalesced; with distinct pids, each start time is the start of the process's first Gantt entry, each completion the end of its last, and its entries add up to its burst |
| PreemptivePolicy.RunTimeline | process_scheduler/schedulers.py:166-195 | with distinct pids, every process's start time is where its first Gantt entry starts (its first dispatch), its completion where its last entry ends, and its entries last exactly its burst |
| RoundRobinPolicy.AdmitSpec | process_scheduler/schedulers.py:234-237 | admission passes over exactly the processes arrived by the clock, in `(arrival, pid)` order, stops at the first later one, and appends the uncompleted ones to the queue |
| RoundRobinPolicy.StepInv | process_scheduler/schedulers.py:232-277 | a pass keeps the queue invariant (each uncompleted arrived process queued exactly once) and lowers the CPU time owed or advances the clock below the last arrival |
| RoundRobinPolicy.RunProperties | process_scheduler/schedulers.py:219-286 | on the copies: inputs unchanged; all TERMINATED with response = start - arrival; the run is well formed; every slice is at most the quantum, and a shorter slice ends with its process's completion; with distinct pids, each start time is the start of the process's first slice, each completion the end of its last, and its slices add up to its burst |
| RoundRobinPolicy.RunTimeline | process_scheduler/schedulers.py:242-275 | with distinct pids, every process's start time is where its first slice starts (its first dispatch), its completion where its last slice ends, and its slices last exactly its burst |
| Metrics.Mean | process_scheduler/metrics.py:28-32 | the mean times the count is the total; 0.0 for no records |
| Metrics.AveragesAreMeans | process_scheduler/metrics.py:27-39 | the average waiting and turnaround times, times the process count, are the totals |
| Metrics.EmptyMetrics | process_scheduler/metrics.py:27-81 | without processes, every average and the throughput are 0.0 and the total time is 0; utilization is defined exactly when the Gantt list is empty, and is then 0.0 |
| Metrics.ResponseCountBounded | process_scheduler/metrics.py:41-49 | the response average counts at most every process, and all of them exactly when every response time is set |
| Metrics.ResponsesOfSettled | process_scheduler/metrics.py:41-49 | for settled records every response counts and their total lies between 0 and the total waiting time |
| Metrics.SettledAverages | process_scheduler/metrics.py:27-49 | for settled records average turnaround = average waiting + mean burst, and 0 <= average response <= average waiting |
| Metrics.WellFormedMetrics | process_scheduler/metrics.py:51-81 | for a well-formed run utilization is defined; it is 0.0 without processes, else in (0, 100]; total time is the last Gantt end; throughput times it is the process count |
| Metrics.SchedulerMetrics.GetSummary | process_scheduler/metrics.py:83-93 | the summary exists exactly when utilization does, with the process count and the total time |
| Metrics.ProcessDetails | process_scheduler/metrics.py:95-109 | the detail view has one row per process in ascending pid order, is a permutation of the records' rows, and each response is 0 or some process's response |
| Schedulers.DispatchProcess | process_scheduler/schedulers.py:124-130 | the object's fields become `Dispatch` of its old fields at the clock |
| Schedulers.FinishProcess | process_scheduler/schedulers.py:140-144 | the object's fields become `Finish` of its old fields at the clock |
| Schedulers.CopyResults | process_scheduler/schedulers.py:199-204 | each original takes completion, turnaround, waiting and response from its copy and keeps every other field |
| Schedulers.AdmitReady | process_scheduler/schedulers.py:113-117 | the admission `for` loop returns the queue `NonPreemptivePolicy.Admit` defines |
| Schedulers.AdmitArrivals | process_scheduler/schedulers.py:234-237 | the admission `while` loop returns the next position and queue `RoundRobinPolicy.Admit` defines |
| Schedulers.Scheduler.constructor | process_scheduler/schedulers.py:15-18 | no processes, clock 0, empty Gantt list |
| Schedulers.Scheduler.AddProcess | process_scheduler/schedulers.py:20-22 | appends the process; clock and Gantt list unchanged |
| Schedulers.Scheduler.AddProcesses | process_scheduler/schedulers.py:24-26 | appends the processes in order; clock and Gantt list unchanged |
| Schedulers.Scheduler.Reset | process_scheduler/schedulers.py:33-38 | every process reset, clock 0, Gantt list empty, process list unchanged |
| Schedulers.Scheduler.Schedule | process_scheduler/schedulers.py:95-102 | after reset, the processes hold `Outcome` of the chosen policy; clock and Gantt list are the policy run's; the metrics are taken over the processes and the Gantt list |
| Schedulers.Scheduler.RunToEnd | process_scheduler/schedulers.py:124-145 | one process dispatched at the clock, run for its whole burst, one interval appended, completion recorded; no other process changes |
| Schedulers.Scheduler.ScheduleFcfs | process_scheduler/schedulers.py:47-82 | the processes, clock and Gantt list end as `FcfsPolicy.Run` of the reset records |
| Schedulers.Scheduler.FcfsPass | process_scheduler/schedulers.py:54-80 | one iteration of the FCFS loop is one `FcfsPolicy.Step` |
| Schedulers.Scheduler.ScheduleNonPreemptive | process_scheduler/schedulers.py:104-149 | the processes, clock and Gantt list end as `NonPreemptivePolicy.Run` of the reset records, keyed by burst for SJF or by priority for the identical loop of non-preemptive Priority (schedulers.py lines 308-350) |
| Schedulers.Scheduler.NonPreemptivePass | process_scheduler/schedulers.py:111-147 | one iteration of the loop is one `NonPreemptivePolicy.Step` |
| Schedulers.Scheduler.RunNext | process_scheduler/schedulers.py:119-145 | the busy branch: sort the queue, pop the head, run it to completion |
| Schedulers.Scheduler.SchedulePreemptive | process_scheduler/schedulers.py:151-206 | the originals end as the reset records with the copies' four results, clock and Gantt list as `PreemptivePolicy.Run`, keyed by remaining time for SRTF or by priority for the identical loop of preemptive Priority (schedulers.py lines 352-403) |
| Schedulers.Scheduler.PreemptiveLoop | process_scheduler/schedulers.py:153-197 | the loop over the copies ends in the copies, clock and Gantt list of `PreemptivePolicy.Run` |
| Schedulers.Scheduler.PreemptivePass | process_scheduler/schedulers.py:157-197 | one iteration of the loop is one `PreemptivePolicy.Step` |
| Schedulers.Scheduler.RunOneUnit | process_scheduler/schedulers.py:164-195 | one unit of the chosen copy: dispatch, one less remaining, extend or append the interval, completion when nothing remains |
| Schedulers.Scheduler.ScheduleRoundRobin | process_scheduler/schedulers.py:219-286 | the originals end as the reset records with the copies' four results, clock and Gantt list as `RoundRobinPolicy.Run` |
| Schedulers.Scheduler.RoundRobinLoop | process_scheduler/schedulers.py:223-277 | the loop over the copies ends in the copies, clock and Gantt list of `RoundRobinPolicy.Run` |
| Schedulers.Scheduler.RoundRobinRound | process_scheduler/schedulers.py:232-277 | one iteration keeps the loop invariant, keeps the final outcome, and lowers the termination measure |
| Schedulers.Scheduler.RoundRobinPass | process_scheduler/schedulers.py:232-277 | one iteration of the loop is one `RoundRobinPolicy.Step` |
| Schedulers.CopiedBack | process_scheduler/schedulers.py:280-284 | after the copy-back the originals keep their inputs and stay NEW with the whole burst and no start time, so they are not completed; their results are settled and the run is well formed for them |
| Schedulers.OutcomeProperties | process_scheduler/schedulers.py:95-102 | for every policy: inputs unchanged and a well-formed run; the in-place policies leave every process TERMINATED, the copying ones leave every process NEW and not completed |
| Schedulers.OutcomeMetrics | process_scheduler/metrics.py:51-93 | for every policy the summary is defined; utilization lies in (0, 100] for a non-empty run; 0 <= average response <= average waiting |
| Schedulers.Lookup | process_scheduler/schedulers.py:411-437 | a name succeeds exactly when it is one of the six; the error message is `Algoritmo desconocido: <name>`; only `round_robin` takes the quantum, default 4; exactly the three copying names select copying policies |
| Schedulers.LookupIgnoresQuantum | process_scheduler/schedulers.py:429-437 | every name but `round_robin` ignores the quantum keyword |
| Schedulers.ProcessScheduler.constructor | process_scheduler/schedulers.py:420-437 | a fresh, empty scheduler running the given policy |
| Schedulers.ProcessScheduler.Create | process_scheduler/schedulers.py:420-437 | fails exactly when `Lookup` does, with its message; otherwise a fresh, empty scheduler for the looked-up policy |
| Schedulers.ProcessScheduler.AddProcess | process_scheduler/schedulers.py:439-441 | delegates: the scheduler's list gains the process |
| Schedulers.ProcessScheduler.AddProcesses | process_scheduler/schedulers.py:443-445 | delegates: the scheduler's list gains the processes in order |
| Schedulers.ProcessScheduler.Run | process_scheduler/schedulers.py:447-449 | delegates to `Schedule`, with the same outcome and metrics |

## Left out

- Printing (`print_summary`, `print_process_details`, `print_gantt_chart` in `metrics.py`), `__repr__` and everything outside the three core files. The GUI, the command line, the demos and the synchronization problems are not part of this model.
- Metrics.SchedulerMetrics.GetSummary: the rounding to 2 and 4 decimals is not modelled. The averages, utilization and throughput are exact reals, and the summary holds them unrounded.
- Floating-point division is modelled as exact real division.
- Schedulers.Scheduler.Schedule: requires the process objects to be distinct. A list holding one object twice is not modelled, because updating such an object in place is aliasing.
- Schedulers.Scheduler.Schedule: requires every burst to be at least 1 for every policy but FCFS, and a quantum of at least 1 for Round Robin. The data model and every run lemma rely on it. A burst of 0, a negative burst under the preemptive policies, or a quantum below 1 makes the source's loop run forever. A negative burst under non-preemptive SJF or Priority, or under Round Robin, ends the loop with the clock running backwards; those runs are not modelled.
- Schedulers.Scheduler.ScheduleFcfs and Schedulers.Scheduler.ScheduleNonPreemptive: each process's fields are proved against the pass as a whole. The order of the individual field writes within one pass is not modelled.
- Deep copies are modelled as values (`Record`). Object identity of the copies is not modelled.
- `Process.execute` is modelled and proved, but no policy calls it. The policies change `remaining_time` directly, and so does the model.
- The WAITING and READY states are modelled, but no policy enters them.
- Metrics.SchedulerMetrics.CpuUtilization: with a non-empty Gantt list and no processes, Python's `max` raises. The model returns an error value instead; no policy produces that input.
- Sorting.SortBy: stability (equal keys keep their input order) holds by construction but is not stated as a lemma.
- PreemptivePolicy.RunTimeline: assumes distinct pids. With two processes of the same pid the Gantt list cannot tell their entries apart, and the loop even merges touching entries of the two. `PreemptivePolicy.RunProperties` states this part under the same condition.
- RoundRobinPolicy.RunTimeline: assumes distinct pids, since with two processes of the same pid the Gantt list cannot tell their slices apart. `RoundRobinPolicy.RunProperties` states this part under the same condition.
- Sorting.MinBy: returning the first of several minima, as Python's `min` does, holds by construction but is not stated as a lemma.
