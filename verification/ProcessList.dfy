/** The process list as the object that scans, with its two maps updated in place. */
module ProcessLists {
  import opened Common
  import opened ProcessScan

  predicate Ascending(ids: seq<nat>) {
    forall i, j :: 0 <= i < j < |ids| ==> ids[i] < ids[j]
  }

  predicate IsLeast(s: set<nat>, least: nat) {
    least in s && forall other :: other in s ==> least <= other
  }

  lemma {:induction false} HasLeast(s: set<nat>, x: nat)
    requires x in s
    ensures exists least :: IsLeast(s, least)
    decreases x
  {
    if y :| y in s && y < x {
      HasLeast(s, y);
    } else {
      assert IsLeast(s, x);
    }
  }

  lemma PruneKeepsListed(s: State, pids: seq<nat>, procs: map<nat, Process>)
    requires s.phase.Idle? && !s.stopped
    requires forall pid :: pid in procs <==> pid in s.procs && pid in pids
    requires forall pid :: pid in procs ==> procs[pid] == s.procs[pid]
    ensures procs == Exec(Exec(s, Begin(pids)), Prune).procs
  {
  }

  lemma LastLook(s: State)
    requires s.phase.Visiting? && s.phase.i == |s.phase.pids|
    ensures Run(s, Visits([])) == s.(phase := Idle)
  {
  }

  lemma {:induction false} IdleVisits(s: State, readings: seq<Reading>)
    requires s.phase.Idle?
    ensures Run(s, Visits(readings)) == s
  {
    if readings != [] {
      IdleVisits(s, readings[1..]);
      var steps := Visits(readings);
      assert steps[1..][1..] == Visits(readings[1..]);
    } else {
      assert [Look][1..] == [];
    }
  }

  /** A stopped list does not begin a scan. */
  lemma NothingWhenStopped(s: State, pids: seq<nat>, readings: seq<Reading>)
    requires s.phase.Idle? && s.stopped
    ensures Run(s, ScanSteps(pids, readings)) == s
  {
    var steps := ScanSteps(pids, readings);
    assert steps[1..][1..] == Visits(readings);
    IdleVisits(s, readings);
  }

  /** The scan of s comes to the same as the visits from i on, in t. */
  predicate Remains(s: State, pids: seq<nat>, readings: seq<Reading>, t: State, i: nat) {
    i <= |readings| && Run(s, ScanSteps(pids, readings)) == Run(t, Visits(readings[i..]))
  }

  lemma NextVisit(s: State, pids: seq<nat>, readings: seq<Reading>, t: State, i: nat)
    requires Remains(s, pids, readings, t, i) && i < |pids| == |readings| && !t.stopped
    requires t.phase.Visiting? && t.phase.pids == pids && t.phase.i == i
    ensures Exec(t, Look).phase.Holding? && Remains(s, pids, readings, Visited(Exec(t, Look), readings[i]), i + 1)
  {
    VisitsStep(t, readings[i..]);
    assert readings[i..][1..] == readings[i + 1..];
  }

  lemma AllVisited(s: State, pids: seq<nat>, readings: seq<Reading>, t: State)
    requires Remains(s, pids, readings, t, |pids|) && |pids| == |readings|
    requires t.phase.Visiting? && t.phase.pids == pids && t.phase.i == |pids|
    ensures Run(s, ScanSteps(pids, readings)) == t.(phase := Idle)
  {
    assert readings[|pids|..] == [];
    LastLook(t);
  }

  lemma FirstVisit(s: State, pids: seq<nat>, readings: seq<Reading>)
    requires s.phase.Idle? && !s.stopped
    ensures Remains(s, pids, readings, Exec(Exec(s, Begin(pids)), Prune), 0)
  {
    ScanStepsRun(s, pids, readings);
    assert readings[0..] == readings;
  }

  class ProcessList {
    var processes: map<nat, Process>
    var cpuTimes: map<nat, nat>
    var filter: string
    var scanStopped: bool
    ghost var log: seq<Measure>

    /** The list between two scans. */
    ghost function Contents(): State
      reads this
    {
      State(processes, cpuTimes, filter, scanStopped, Idle, log)
    }

    constructor ()
      ensures Contents() == Start()
    {
      processes, cpuTimes, filter, scanStopped, log := map[], map[], "all", false, [];
    }

    method SetScanFilter(newFilter: string)
      modifies this
      ensures Contents() == Exec(old(Contents()), SetFilter(newFilter))
    {
      if newFilter != "" {
        filter := newFilter;
      }
    }

    method OnClearAllProcess()
      modifies this
      ensures Contents() == Exec(old(Contents()), Clear)
    {
      processes := map[];
    }

    method RemoveProcess(pid: nat)
      modifies this
      ensures Contents() == Exec(old(Contents()), Remove(pid))
    {
      processes := processes - {pid};
    }

    method StopScanProcess()
      modifies this
      ensures Contents() == Exec(old(Contents()), Stop)
    {
      scanStopped := true;
    }

    method StartScanProcess()
      modifies this
      ensures Contents() == Exec(old(Contents()), Resume)
    {
      scanStopped := false;
    }

    method GetProcessById(pid: nat) returns (p: Option<Process>)
      ensures p == Find(processes, pid)
    {
      p := if pid in processes then Some(processes[pid]) else None;
    }

    /** The ids of the map, in ascending order. */
    method GetPidList() returns (ids: seq<nat>)
      ensures Ascending(ids) && forall pid :: pid in ids <==> pid in processes
    {
      ids := [];
      var left := processes.Keys;
      while left != {}
        invariant Ascending(ids) && left <= processes.Keys
        invariant forall pid :: pid in processes ==> pid in ids || pid in left
        invariant forall i :: 0 <= i < |ids| ==> ids[i] in processes && forall pid :: pid in left ==> ids[i] < pid
        decreases left
      {
        var some :| some in left;
        HasLeast(left, some);
        var pid :| IsLeast(left, pid);
        left := left - {pid};
        ids := ids + [pid];
      }
    }

    /** Removes the processes that are not listed any more. */
    method RemoveUnlisted(pids: seq<nat>)
      modifies this`processes
      ensures forall pid :: pid in processes <==> pid in old(processes) && pid in pids
      ensures forall pid :: pid in processes ==> processes[pid] == old(processes)[pid]
    {
      var left := processes.Keys;
      while left != {}
        invariant left <= processes.Keys <= old(processes).Keys
        invariant forall pid :: pid in processes ==> processes[pid] == old(processes)[pid]
        invariant forall pid :: pid in old(processes) && (pid in pids || pid in left) ==> pid in processes
        invariant forall pid :: pid in processes ==> pid in pids || pid in left
        decreases left
      {
        var pid :| pid in left;
        left := left - {pid};
        var found := false;
        for i := 0 to |pids|
          invariant !found && pid !in pids[..i]
        {
          if pid == pids[i] {
            found := true;
            break;
          }
        }
        if !found {
          assert pids[..|pids|] == pids;
          processes := processes - {pid};
        }
      }
    }

    /** The visit of one listed process. */
    method VisitProcess(filterActive: bool, pids: seq<nat>, i: nat, reading: Reading)
      requires i < |pids|
      modifies this
      ensures Contents() == Visited(old(Contents()).(phase := Holding(filterActive, pids, i, Find(old(processes), pids[i]))), reading).(phase := Idle)
    {
      var pid := pids[i];
      var former := GetProcessById(pid);
      var rtime := reading.rtime;
      var base: nat;
      if former.Some? {
        base := former.value.cpuTime;
      } else if pid in cpuTimes && rtime >= cpuTimes[pid] {
        base := cpuTimes[pid];
      } else {
        base := rtime;
      }
      var status := reading.status;
      assert base == Base(former, cpuTimes, pid, rtime);
      var difference := (rtime - base) % U64;
      if difference > 0 {
        status := Running;
      }
      assert status == Effective(reading.status, difference);
      cpuTimes := cpuTimes[pid := rtime];
      log := log + [Measure(pid, former.Some?, rtime, difference)];
      if status == Zombie {
        if pid in processes {
          RemoveProcess(pid);
        }
      } else if filterActive && status != Running {
        if pid in processes {
          RemoveProcess(pid);
        }
      } else {
        processes := processes[pid := Process(rtime, difference, status)];
      }
      assert pid !in old(processes) ==> old(processes) - {pid} == old(processes);
    }

    /** One scan, undisturbed: what glibtop lists, and what it says about each. */
    method ScanProcess(pids: seq<nat>, readings: seq<Reading>)
      requires |pids| == |readings|
      modifies this
      ensures Contents() == Run(old(Contents()), ScanSteps(pids, readings))
    {
      var filterActive := filter == "active";
      if scanStopped {
        NothingWhenStopped(Contents(), pids, readings);
        return;
      }
      FirstVisit(Contents(), pids, readings);
      RemoveUnlisted(pids);
      ghost var t := Exec(Exec(old(Contents()), Begin(pids)), Prune);
      PruneKeepsListed(old(Contents()), pids, processes);
      var i := 0;
      while i < |pids|
        invariant i <= |pids| && !scanStopped
        invariant t == Contents().(phase := Visiting(filterActive, pids, i))
        invariant Remains(old(Contents()), pids, readings, t, i)
      {
        NextVisit(old(Contents()), pids, readings, t, i);
        t := Visited(Exec(t, Look), readings[i]);
        VisitProcess(filterActive, pids, i, readings[i]);
        i := i + 1;
      }
      AllVisited(old(Contents()), pids, readings, t);
    }
  }

  // ---------------------------------------------------------------- a run of calls

  /** What other threads call between scans, and the scans. */
  datatype Call =
    | ScanAll(pids: seq<nat>, readings: seq<Reading>)
    | ChangeFilter(filter: string)
    | ClearAll
    | EndProcess(pid: nat)
    | StopScans
    | StartScans

  function StepsOf(call: Call): seq<Step> {
    match call
    case ScanAll(pids, readings) => ScanSteps(pids, readings)
    case ChangeFilter(filter) => [SetFilter(filter)]
    case ClearAll => [Clear]
    case EndProcess(pid) => [Remove(pid)]
    case StopScans => [Stop]
    case StartScans => [Resume]
  }

  function AllSteps(calls: seq<Call>): seq<Step> {
    if calls == [] then [] else AllSteps(calls[..|calls| - 1]) + StepsOf(calls[|calls| - 1])
  }

  predicate WellFormed(call: Call) {
    call.ScanAll? ==> |call.pids| == |call.readings|
  }

  lemma OneStep(s: State, step: Step)
    requires Enabled(s, step)
    ensures Run(s, [step]) == Exec(s, step)
  {
    assert [step][1..] == [];
    assert Run(Exec(s, step), []) == Exec(s, step);
  }

  method PerformOne(list: ProcessList, call: Call)
    requires WellFormed(call)
    modifies list
    ensures list.Contents() == Run(old(list.Contents()), StepsOf(call))
  {
    ghost var s := list.Contents();
    match call
    case ScanAll(pids, readings) => list.ScanProcess(pids, readings);
    case ChangeFilter(filter) =>
      OneStep(s, SetFilter(filter));
      list.SetScanFilter(filter);
    case ClearAll =>
      OneStep(s, Clear);
      list.OnClearAllProcess();
    case EndProcess(pid) =>
      OneStep(s, Remove(pid));
      list.RemoveProcess(pid);
    case StopScans =>
      OneStep(s, Stop);
      list.StopScanProcess();
    case StartScans =>
      OneStep(s, Resume);
      list.StartScanProcess();
  }

  /** Whatever is called in whatever order, each growth measured is the growth since the process was measured
      last, exactly unless its CPU time went back while it was in the map. */
  method Perform(calls: seq<Call>) returns (list: ProcessList)
    requires forall i :: 0 <= i < |calls| ==> WellFormed(calls[i])
    ensures fresh(list) && list.Contents() == Run(Start(), AllSteps(calls))
    ensures Measured(list.log)
  {
    list := new ProcessList();
    for n := 0 to |calls|
      invariant fresh(list) && list.Contents() == Run(Start(), AllSteps(calls[..n]))
    {
      PerformOne(list, calls[n]);
      assert calls[..n + 1][..n] == calls[..n];
      RunJoins(Start(), AllSteps(calls[..n]), StepsOf(calls[n]));
    }
    assert calls[..|calls|] == calls;
    GrowthIsExact(AllSteps(calls));
  }
}
