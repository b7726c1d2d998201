# Shortest-Job-First metric calculation in Dafny

This project models the core of a small non-preemptive Shortest-Job-First
(SJF) CPU scheduler, `sjf.py`. A batch of processes is given, each with a pid
and a burst time. The scheduler does two things:

- it sorts the batch in place, stably, by burst time;
- it walks the sorted list once with a running clock, writing each process's
  waiting, turnaround and completion times into the process object.

The report then adds up total waiting and total turnaround.

The model has two modules:

- `SjfSpec` (`sjf_spec.dfy`) is the value-level specification. It holds:
  - the `ProcessRecord` datatype, which is the value of one `Process` object;
  - the stable sort `SortByBurst`, written as an insertion sort;
  - the clock-threading metric pass `RunClock`;
  - `Schedule`, which is the sort followed by the pass;
  - the prefix sums `BurstBefore`, `WaitingBefore` and `TurnaroundBefore`;
  - the lemmas about all of these.
- `Sjf` (`sjf.dfy`) is the imperative model. It holds:
  - `class Process`, whose metric fields are written in place;
  - `class SJFScheduler`, which owns an `array<Process>`, sorts it in place by
    adjacent swaps, and runs the metric loop over it;
  - the accumulation loop of the report;
  - the scheduling and report steps of `main`.

  Every method is proved against the `SjfSpec` functions. `Records()` and
  `Snapshots(...)` read the current field values of the objects in the list.

Python's integers are unbounded, and so are Dafny's `int`. No wrap-around is
involved.

`calculate_metrics` (sjf.py:114-146) does not check for an empty list: an
empty list sorts and returns as empty. The model follows the code, so
`CalculateMetrics` accepts the empty array, and `Schedule([]) == []`. The code also does not check that bursts are
positive. Positivity is guaranteed only by the input handler
(sjf.py:87-92), so the lemmas that need it (`ScheduleTimesOrdered`) require it
explicitly.

## Model

| member | source | states |
|---|---|---|
| Sjf.Process.constructor | sjf.py:16-34 | A new process has the given pid and burst; waiting, turnaround, arrival and completion times start at 0 |
| Sjf.MakeProcesses | sjf.py:87-94 | From validated bursts, builds fresh, pairwise distinct process objects; process i+1 has the i-th burst and zero metrics (`Batch`) |
| SjfSpec.SortByBurst | sjf.py:129 | The sort's result is a permutation of its input, of the same length |
| SjfSpec.SortByBurstSorted | sjf.py:129 | The sort's result is in ascending burst order |
| SjfSpec.SortByBurstStable | sjf.py:129 | Stability: for every burst value, the records with that burst keep their input order |
| SjfSpec.SortByBurstTiesInPidOrder | sjf.py:129 | If pids increase along the input, processes of equal burst come out in increasing pid order |
| SjfSpec.BatchScheduleTiesInPidOrder | sjf.py:87-92 | For a batch numbered 1..n by the input handler, the scheduled list has equal-burst processes in increasing pid order |
| SjfSpec.StableSortUnique | sjf.py:129 | Two burst-sorted permutations of each other that order every tie alike are equal, so any stable sort gives the same list as `SortByBurst` |
| SjfSpec.SortByBurstOfSorted | sjf.py:129 | Sorting a list already in burst order leaves it unchanged |
| SjfSpec.SortByBurstSum | sjf.py:129 | Sorting keeps the total burst |
| Sjf.SJFScheduler.SortByBurstTime | sjf.py:129 | In place: the array becomes a permutation of its old contents, each entry taken from the old list, and its values are `SortByBurst` of the old values |
| Sjf.SJFScheduler.SinkInto | sjf.py:129 | One insertion pass: the next record sinks below every larger burst, and the sorted, stable prefix grows by one |
| Sjf.SJFScheduler.SwapNeighbours | sjf.py:129 | Exchanging two neighbours of the list exchanges their values and keeps the multiset of objects |
| Sjf.DistinctPermutation | sjf.py:129 | Reordering a list of distinct objects leaves them distinct |
| Sjf.Process.Start | sjf.py:135-141 | Waiting becomes the clock; turnaround and completion become the clock plus the burst; nothing else changes |
| Sjf.SJFScheduler.AssignTimes | sjf.py:131-144 | The loop leaves the array's order unchanged, every process keeps its pid, burst and arrival time, and the values become `RunClock(old values, 0)` |
| SjfSpec.RunClockAt | sjf.py:131-144 | Closed form of the pass: the k-th process waits for the clock plus the bursts of all processes before it |
| SjfSpec.BackToBackIsRunClock | sjf.py:133-144 | Any list in which each process starts when the previous one completes, the first starting at the clock, is the pass's result |
| SjfSpec.RunClockIsBackToBack | sjf.py:133-144 | Conversely, the pass's result runs the processes back to back from any clock: the first starts at the clock, each later one when the previous completes |
| SjfSpec.RunClockSameJobs | sjf.py:135-141 | The pass writes only the metric fields: pid, burst and arrival time of every position are unchanged |
| SjfSpec.RunClockTwice | sjf.py:131-144 | Running the pass again from the same clock changes nothing |
| SjfSpec.LastCompletion | sjf.py:141-144 | The last process completes at the clock plus the total burst |
| Sjf.SJFScheduler.CalculateMetrics | sjf.py:114-146 | Returns the scheduler's own array; its objects are the same ones reordered, still distinct; every process object keeps its own pid, burst and arrival time; and the values in list order are `Schedule` of the old values |
| SjfSpec.ScheduleOrder | sjf.py:128-129 | The scheduled list has the input's length, is in ascending burst order, holds the input's jobs position by position in stable sorted order |
| SjfSpec.ScheduleWaitingIsPrefixSum | sjf.py:133-141 | The k-th waiting time is the sum of the first k sorted bursts; turnaround = completion = waiting + burst |
| SjfSpec.ScheduleChain | sjf.py:131-144 | The first process waits 0; every later process waits exactly until the previous one completes |
| SjfSpec.ScheduleLastCompletion | sjf.py:141-144 | The last process completes when the sum of all bursts has elapsed |
| SjfSpec.ScheduleTimesOrdered | sjf.py:131-144 | With positive bursts: 0 <= waiting < completion; each process completes no later than any later one starts; waiting times strictly increase |
| SjfSpec.ScheduleIdempotent | sjf.py:114-146 | Calculating the metrics of an already calculated list changes neither order nor any metric |
| SjfSpec.ScheduleSingle | sjf.py:131-144 | A single process waits 0 and turns around in its own burst |
| SjfSpec.ScheduleExample | sjf.py:114-146 | Bursts 6, 8, 7, 3 for pids 1-4 run in order 4, 1, 3, 2 with waits 0, 3, 9, 16 and turnarounds 3, 9, 16, 24; totals 28 and 52 |
| SjfSpec.TotalsSplit | sjf.py:230-237 | If every turnaround is waiting plus burst, the turnaround total is the waiting total plus the burst total |
| SjfSpec.ScheduleTotals | sjf.py:230-237 | After scheduling, total turnaround = total waiting + sum of the input's bursts |
| Sjf.AccumulateTotals | sjf.py:230-237 | The loop's totals are the sums of the list's waiting and turnaround times |
| Sjf.RunScheduling | sjf.py:266-273 | main's scheduling and report steps: the list ends up as `Schedule` of its input, and total turnaround = total waiting + the input's burst total |

## Left out

- Threaded execution simulation (sjf.py:148-203): it is concurrency and timing. It does not change any metric. The scheduler's `lock` and `completed_processes` (sjf.py:111-112) serve only the simulation and are not fields of the model.
- Console input and its validation loop (sjf.py:48-86): this is I/O. `MakeProcesses` takes the already validated bursts as a parameter. Positivity appears only as the requirement of `ScheduleTimesOrdered`.
- Average waiting and turnaround times (sjf.py:242-250): these use floating-point division. The model stops at the integer totals. An empty list divides by zero there, and that is not modelled either.
- Printing of the table and banners (sjf.py:220-228, 235, 239, 246-251), `__repr__` (sjf.py:36-39), and `main`'s prompts and exception handlers (sjf.py:254-291): these are output and control flow only.
- Sjf.SJFScheduler.SortByBurstTime: `list.sort` is Timsort. The model sorts by insertion with adjacent swaps instead. `StableSortUnique` shows that every stable sort by burst gives the same list, so the resulting order is the same. The order of intermediate states is not.
- Sjf.Process.constructor: takes only pid and burst. The dataclass also accepts waiting, turnaround, arrival and completion times as optional arguments defaulting to 0 (sjf.py:31-34). The input handler never passes them (sjf.py:92), so they are not modelled.
- Sjf.Process.Start: the three field writes of the loop body (sjf.py:135-141) are grouped into one method of `Process`. The values written are exactly those of the source.
- Sjf.SJFScheduler.CalculateMetrics: requires the list to hold distinct process objects. A Python list could hold the same object twice, and then its second visit would overwrite the first. The input handler never builds such a list, and `MakeProcesses` guarantees it.
- Sjf.RunScheduling: covers `main`'s scheduling and report steps (sjf.py:269-273). The input step is `MakeProcesses`, and the simulation step is left out as above.
