/** The objects of the scheduler: a Process whose metric fields are written in
    place, the scheduler that owns the list of processes and sorts it in place,
    and the totals that the report accumulates. Each operation is proved
    against the value-level functions of SjfSpec. */
module Sjf {
  import opened SjfSpec

  /** A process of the batch. The scheduler writes its three metric fields;
      pid, burst and arrival time are never written after construction. */
  class Process {
    var pid: int
    var burstTime: int
    var waitingTime: int
    var turnaroundTime: int
    var arrivalTime: int
    var completionTime: int

    /** A new process: every field other than pid and burst starts at 0. */
    constructor (pid: int, burstTime: int)
      ensures Snapshot() == NewProcess(pid, burstTime)
    {
      this.pid := pid;
      this.burstTime := burstTime;
      this.waitingTime := 0;
      this.turnaroundTime := 0;
      this.arrivalTime := 0;
      this.completionTime := 0;
    }

    /** The metric assignment of the loop of calculate_metrics: the process
        waits until clock, turns around after its burst and completes at clock
        plus its burst. */
    method Start(clock: int)
      modifies this
      ensures Snapshot() == WithMetrics(old(Snapshot()), clock)
    {
      waitingTime := clock;
      turnaroundTime := waitingTime + burstTime;
      completionTime := clock + burstTime;
    }

    /** The current values of this process's fields. */
    function Snapshot(): ProcessRecord
      reads this
    {
      ProcessRecord(pid, burstTime, waitingTime, turnaroundTime, arrivalTime, completionTime)
    }
  }

  /** The current values of the processes of ps, in list order. */
  function Snapshots(ps: seq<Process>): seq<ProcessRecord>
    reads ps
  {
    seq(|ps|, k requires 0 <= k < |ps| reads ps => ps[k].Snapshot())
  }

  /** The values of a list of processes, given element by element. */
  lemma SnapshotsAre(ps: seq<Process>, r: seq<ProcessRecord>)
    requires |ps| == |r|
    requires forall k :: 0 <= k < |ps| ==> ps[k].Snapshot() == r[k]
    ensures Snapshots(ps) == r
  {
  }

  /** Exchanging two neighbours in the list exchanges their values. */
  lemma SnapshotsSwapped(ps: seq<Process>, j: int)
    requires 0 < j < |ps|
    ensures Snapshots(Swapped(ps, j)) == Swapped(Snapshots(ps), j)
  {
    SnapshotsAre(Swapped(ps, j), Swapped(Snapshots(ps), j));
  }

  /** No process object occurs twice in the list. */
  predicate Distinct(ps: seq<Process>)
  {
    forall i, j :: 0 <= i < j < |ps| ==> ps[i] != ps[j]
  }

  /** In a list without repeats every object occurs at most once. */
  lemma {:induction false} DistinctCounts(ps: seq<Process>)
    requires Distinct(ps)
    ensures forall p :: multiset(ps)[p] <= 1
  {
    if ps != [] {
      var n := |ps| - 1;
      assert ps == ps[..n] + [ps[n]];
      DistinctCounts(ps[..n]);
      assert ps[n] !in ps[..n];
    }
  }

  /** A list in which every object occurs at most once has no repeats. */
  lemma CountsDistinct(ps: seq<Process>)
    requires forall p :: multiset(ps)[p] <= 1
    ensures Distinct(ps)
  {
    forall i, j | 0 <= i < j < |ps| ensures ps[i] != ps[j] {
      assert ps == ps[..j] + ps[j..];
      assert ps[i] in ps[..j] && ps[j] in ps[j..];
      assert multiset(ps)[ps[j]] == multiset(ps[..j])[ps[j]] + multiset(ps[j..])[ps[j]];
    }
  }

  /** Reordering a list without repeats leaves it without repeats. */
  lemma DistinctPermutation(a: seq<Process>, b: seq<Process>)
    requires multiset(a) == multiset(b) && Distinct(b)
    ensures Distinct(a)
  {
    DistinctCounts(b);
    CountsDistinct(a);
  }

  /** Builds the list the input handler returns for the given validated burst
      times: process i + 1 gets the i-th burst, every metric at 0. */
  method MakeProcesses(bursts: seq<int>) returns (processes: array<Process>)
    ensures fresh(processes) && processes.Length == |bursts|
    ensures forall k :: 0 <= k < |bursts| ==> fresh(processes[k])
    ensures Distinct(processes[..])
    ensures Snapshots(processes[..]) == Batch(bursts)
  {
    // Filler for the array's initial contents; every slot is overwritten below.
    var p := new Process(1, 0);
    processes := new Process[|bursts|](_ => p);
    var i := 0;
    while i < |bursts|
      invariant 0 <= i <= |bursts|
      invariant forall k :: 0 <= k < i ==> fresh(processes[k])
      invariant forall k :: 0 <= k < i ==> processes[k].Snapshot() == NewProcess(k + 1, bursts[k])
      invariant forall k, m :: 0 <= k < m < i ==> processes[k] != processes[m]
    {
      var q := new Process(i + 1, bursts[i]);
      processes[i] := q;
      i := i + 1;
    }
  }

  /** The scheduler: owns the list of processes it is given. */
  class SJFScheduler {
    var processes: array<Process>

    constructor (processes: array<Process>)
      ensures this.processes == processes
    {
      this.processes := processes;
    }

    /** The current values of the scheduler's list. */
    ghost function Records(): seq<ProcessRecord>
      reads this, processes, processes[..]
    {
      Snapshots(processes[..])
    }

    /** Sorting the list in place by burst time with a stable sort: an
        insertion sort by adjacent swaps. Only the list's order changes; the
        processes themselves are untouched. */
    method SortByBurstTime()
      modifies processes
      ensures multiset(processes[..]) == old(multiset(processes[..]))
      ensures forall k :: 0 <= k < processes.Length ==> processes[k] in old(processes[..])
      ensures Records() == SortByBurst(old(Records()))
    {
      ghost var input := Records();
      var i := 0;
      while i < processes.Length
        invariant SortedPrefix(Records(), input, i)
        invariant multiset(processes[..]) == old(multiset(processes[..]))
      {
        SinkInto(i, input);
        i := i + 1;
      }
      SortedPrefixDone(Records(), input);
      PermutationMembers(processes[..], old(processes[..]));
    }

    /** One pass of the insertion sort: the process at position i moves down
        past every process before it with a strictly larger burst, so equal
        bursts keep their order. */
    method SinkInto(i: int, ghost input: seq<ProcessRecord>)
      requires 0 <= i < processes.Length
      requires SortedPrefix(Records(), input, i)
      modifies processes
      ensures SortedPrefix(Records(), input, i + 1)
      ensures multiset(processes[..]) == old(multiset(processes[..]))
    {
      ghost var recs := Records();
      SinkStart(recs, input, i);
      var j := i;
      while j > 0 && processes[j - 1].burstTime > processes[j].burstTime
        invariant Records() == recs && Sinking(recs, input, i, j)
        invariant multiset(processes[..]) == old(multiset(processes[..]))
      {
        SinkSwap(recs, input, i, j);
        SwapNeighbours(j);
        recs := Swapped(recs, j);
        j := j - 1;
      }
      SinkStop(recs, input, i, j);
    }

    /** Exchanges the processes at positions j - 1 and j of the list. */
    method SwapNeighbours(j: int)
      requires 0 < j < processes.Length
      modifies processes
      ensures processes[..] == Swapped(old(processes[..]), j)
      ensures Records() == Swapped(old(Records()), j)
      ensures multiset(processes[..]) == old(multiset(processes[..]))
    {
      SnapshotsSwapped(processes[..], j);
      processes[j - 1], processes[j] := processes[j], processes[j - 1];
    }

    /** calculate_metrics: sort the list by burst, then assign the times in
        list order. The list returned is the scheduler's own list. */
    method CalculateMetrics() returns (result: array<Process>)
      requires Distinct(processes[..])
      modifies processes, processes[..]
      ensures result == processes
      ensures multiset(processes[..]) == old(multiset(processes[..]))
      ensures Distinct(processes[..])
      ensures forall p :: p in old(processes[..]) ==> SameJob(p.Snapshot(), old(p.Snapshot()))
      ensures Records() == Schedule(old(Records()))
    {
      ghost var before := processes[..];
      SortByBurstTime();
      DistinctPermutation(processes[..], before);
      PermutationMembers(before, processes[..]);
      AssignTimes();
      result := processes;
    }

    /** The loop of calculate_metrics: walk the list with a running clock;
        each process waits until the clock, turns around and completes at the
        clock plus its burst, and the clock moves to its completion. */
    method AssignTimes()
      requires Distinct(processes[..])
      modifies processes[..]
      ensures processes[..] == old(processes[..])
      ensures forall p :: p in processes[..] ==> SameJob(p.Snapshot(), old(p.Snapshot()))
      ensures Records() == RunClock(old(Records()), 0)
    {
      ghost var start := Records();
      ghost var ps := processes[..];
      ghost var done := [];
      var currentTime := 0;
      var i := 0;
      while i < processes.Length
        invariant 0 <= i <= processes.Length == |ps| == |start|
        invariant processes[..] == ps
        invariant |done| == i && BackToBack(done, start[..i], 0)
        invariant currentTime == if i == 0 then 0 else done[i - 1].completionTime
        invariant forall k :: 0 <= k < |ps| ==> ps[k].Snapshot() == if k < i then done[k] else start[k]
      {
        var process := processes[i];
        assert process == ps[i];
        BackToBackSnoc(done, start[..i], 0, start[i], currentTime);
        assert start[..i + 1] == start[..i] + [start[i]];
        done := done + [WithMetrics(start[i], currentTime)];
        process.Start(currentTime);
        currentTime := process.completionTime;
        i := i + 1;
      }
      assert start[..i] == start;
      SnapshotsAre(ps, done);
      BackToBackIsRunClock(done, start, 0);
      RunClockSameJobs(start, 0);
    }
  }

  /** The accumulation of total_wait and total_turnaround over the list that
      the report prints. */
  method AccumulateTotals(processes: array<Process>) returns (totalWait: int, totalTurnaround: int)
    ensures totalWait == TotalWaiting(Snapshots(processes[..]))
    ensures totalTurnaround == TotalTurnaround(Snapshots(processes[..]))
  {
    ghost var recs := Snapshots(processes[..]);
    totalWait := 0;
    totalTurnaround := 0;
    var i := 0;
    while i < processes.Length
      invariant 0 <= i <= processes.Length
      invariant totalWait == WaitingBefore(recs, i)
      invariant totalTurnaround == TurnaroundBefore(recs, i)
    {
      var p := processes[i];
      totalWait := totalWait + p.waitingTime;
      totalTurnaround := totalTurnaround + p.turnaroundTime;
      i := i + 1;
    }
  }

  /** The scheduling and report steps of main: the scheduler computes the
      metrics of the list in place, then the report totals them; total
      turnaround is total waiting plus the sum of the bursts. */
  method RunScheduling(processes: array<Process>) returns (scheduled: array<Process>, totalWait: int, totalTurnaround: int)
    requires Distinct(processes[..])
    modifies processes, processes[..]
    ensures scheduled == processes
    ensures Snapshots(scheduled[..]) == Schedule(old(Snapshots(processes[..])))
    ensures totalWait == TotalWaiting(Snapshots(scheduled[..]))
    ensures totalTurnaround == totalWait + TotalBurst(old(Snapshots(processes[..])))
  {
    ghost var input := Snapshots(processes[..]);
    var scheduler := new SJFScheduler(processes);
    assert scheduler.Records() == input;
    scheduled := scheduler.CalculateMetrics();
    ghost var output := Snapshots(scheduled[..]);
    assert output == Schedule(input);
    totalWait, totalTurnaround := AccumulateTotals(scheduled);
    ScheduleTotals(input);
  }
}
