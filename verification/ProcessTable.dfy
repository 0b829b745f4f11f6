/** The table of processes: two parallel lists that follow the snapshots of the process list. */
module ProcessTable {
  import opened Common
  import opened TableDiff
  import opened ProcessScan
  import opened ProcessLists

  class ProcessTableModel {
    var procIdList: seq<nat>
    var processList: seq<Option<Process>>

    ghost predicate Valid()
      reads this
    {
      |processList| == |procIdList| && Distinct(procIdList)
    }

    constructor ()
      ensures Valid() && procIdList == []
    {
      procIdList, processList := [], [];
    }

    /** A process was ended or killed; the edits are what the views are told. */
    method RemoveProcess(pid: nat) returns (edits: seq<Edit<nat>>)
      requires Valid()
      modifies this
      ensures Valid()
      ensures var row := IndexOf(old(procIdList), pid);
              if row < |old(procIdList)| then
                edits == [Removed(row)] && procIdList == Apply(old(procIdList), Removed(row)) &&
                processList == old(processList)[..row] + old(processList)[row + 1..]
              else edits == [] && procIdList == old(procIdList) && processList == old(processList)
    {
      edits := [];
      var row := IndexOf(procIdList, pid);
      if row < |procIdList| {
        procIdList := procIdList[..row] + procIdList[row + 1..];
        processList := processList[..row] + processList[row + 1..];
        edits := [Removed(row)];
      }
    }

    /** The row of a listed process is updated, or appended. */
    method ShowProcess(pid: nat, info: Option<Process>) returns (edit: Edit<nat>)
      requires Valid()
      modifies this
      ensures Valid() && procIdList == Apply(old(procIdList), edit)
      ensures procIdList == if pid in old(procIdList) then old(procIdList) else old(procIdList) + [pid]
      ensures edit == if pid in old(procIdList) then Changed(IndexOf(old(procIdList), pid)) else Inserted(|old(procIdList)|, pid)
      ensures processList == if pid in old(procIdList) then old(processList)[IndexOf(old(procIdList), pid) := info] else old(processList) + [info]
    {
      var row := IndexOf(procIdList, pid);
      if row < |procIdList| {
        processList := processList[row := info];
        edit := Changed(row);
      } else {
        procIdList := procIdList + [pid];
        processList := processList + [info];
        edit := Inserted(row, pid);
      }
    }

    /** Every id of the snapshot gets its row. */
    method ShowSnapshot(newPidList: seq<nat>, infos: seq<Option<Process>>) returns (edits: seq<Edit<nat>>)
      requires Valid() && Distinct(newPidList) && |infos| == |newPidList|
      modifies this
      ensures Valid() && procIdList == Grown(old(procIdList), newPidList, |newPidList|)
      ensures Aligned(procIdList, processList, newPidList, infos, |newPidList|)
      ensures procIdList == Replay(old(procIdList), edits) && Announced(old(procIdList), newPidList, |newPidList|, edits)
    {
      edits := [];
      var i := 0;
      while i < |newPidList|
        invariant i <= |newPidList| && procIdList == Grown(old(procIdList), newPidList, i)
        invariant Valid() && procIdList == Replay(old(procIdList), edits)
        invariant Aligned(procIdList, processList, newPidList, infos, i) && Announced(old(procIdList), newPidList, i, edits)
      {
        ghost var ids := procIdList;
        GrowRow(old(procIdList), newPidList, i);
        AlignedShown(procIdList, processList, newPidList, infos, i);
        var edit := ShowProcess(newPidList[i], infos[i]);
        Follow(old(procIdList), edits, edit, ids, procIdList);
        AnnouncedNext(old(procIdList), newPidList, i, edits, edit);
        edits := edits + [edit];
        i := i + 1;
      }
    }

    /** One old row stays, or goes. */
    method CheckRow(oldPidList: seq<nat>, newPidList: seq<nat>, j: nat, ghost infos: seq<Option<Process>>) returns (edits: seq<Edit<nat>>)
      requires Valid() && Distinct(oldPidList) && Distinct(newPidList) && j < |oldPidList| &&
               procIdList == Checked(oldPidList, newPidList, j)
      requires Aligned(procIdList, processList, newPidList, infos, |newPidList|)
      modifies this
      ensures Valid() && procIdList == Checked(oldPidList, newPidList, j + 1) == Replay(old(procIdList), edits)
      ensures forall e :: e in edits ==> e.Removed?
      ensures Aligned(procIdList, processList, newPidList, infos, |newPidList|)
    {
      edits := [];
      RemoveRow(oldPidList, newPidList, j);
      if oldPidList[j] !in newPidList {
        ghost var row := IndexOf(procIdList, oldPidList[j]);
        AlignedRemoved(procIdList, processList, newPidList, infos, |newPidList|, row);
        edits := RemoveProcess(oldPidList[j]);
        ReplayOne(old(procIdList), Removed(row));
      }
    }

    /** The old rows that are not in the snapshot go, one by one. */
    method RemoveMissing(oldPidList: seq<nat>, newPidList: seq<nat>, ghost infos: seq<Option<Process>>) returns (edits: seq<Edit<nat>>)
      requires Valid() && Distinct(oldPidList) && Distinct(newPidList) && procIdList == Checked(oldPidList, newPidList, 0)
      requires Aligned(procIdList, processList, newPidList, infos, |newPidList|)
      modifies this
      ensures Valid() && procIdList == Checked(oldPidList, newPidList, |oldPidList|)
      ensures Aligned(procIdList, processList, newPidList, infos, |newPidList|)
      ensures procIdList == Replay(old(procIdList), edits) && forall e :: e in edits ==> e.Removed?
    {
      edits := [];
      var j := 0;
      while j < |oldPidList|
        invariant j <= |oldPidList| && procIdList == Checked(oldPidList, newPidList, j)
        invariant Valid() && procIdList == Replay(old(procIdList), edits) && forall e :: e in edits ==> e.Removed?
        invariant Aligned(procIdList, processList, newPidList, infos, |newPidList|)
      {
        var more := CheckRow(oldPidList, newPidList, j, infos);
        ReplayJoins(old(procIdList), edits, more);
        edits := edits + more;
        j := j + 1;
      }
    }

    /** The ids of the process list, and what a look-up of each one finds: a process may be gone by then. */
    method UpdateProcessList(newPidList: seq<nat>, infos: seq<Option<Process>>) returns (edits: seq<Edit<nat>>)
      requires Valid() && Distinct(newPidList) && |infos| == |newPidList|
      modifies this
      ensures Valid() && procIdList == Diff(old(procIdList), newPidList)
      ensures Aligned(procIdList, processList, newPidList, infos, |newPidList|)
      ensures procIdList == Replay(old(procIdList), edits) && Announced(old(procIdList), newPidList, |newPidList|, edits)
    {
      var oldPidList := procIdList;
      var shown := ShowSnapshot(newPidList, infos);
      AllGrown(oldPidList, newPidList);
      var removed := RemoveMissing(oldPidList, newPidList, infos);
      AllChecked(oldPidList, newPidList);
      edits := shown + removed;
      ReplayJoins(oldPidList, shown, removed);
      AnnouncedJoins(oldPidList, newPidList, |newPidList|, shown, removed);
    }

    /** What the list has of each process of its map, in ascending order of their ids. */
    method ReadProcessList(list: ProcessList) returns (newPidList: seq<nat>, infos: seq<Option<Process>>)
      ensures Ascending(newPidList) && forall pid :: pid in newPidList <==> pid in list.processes
      ensures |infos| == |newPidList| && forall i :: 0 <= i < |infos| ==> infos[i] == Find(list.processes, newPidList[i])
    {
      newPidList := list.GetPidList();
      infos := [];
      for i := 0 to |newPidList|
        invariant |infos| == i && forall k :: 0 <= k < i ==> infos[k] == Find(list.processes, newPidList[k])
      {
        var info := list.GetProcessById(newPidList[i]);
        infos := infos + [info];
      }
    }

    /** The update after a scan, with nothing in between. */
    method FollowProcessList(list: ProcessList) returns (newPidList: seq<nat>, edits: seq<Edit<nat>>)
      requires Valid()
      modifies this
      ensures Valid() && Ascending(newPidList) && procIdList == Diff(old(procIdList), newPidList) == Replay(old(procIdList), edits)
      ensures forall pid :: pid in procIdList <==> pid in list.processes
      ensures forall row :: 0 <= row < |procIdList| ==> processList[row] == Find(list.processes, procIdList[row])
    {
      var infos;
      newPidList, infos := ReadProcessList(list);
      ghost var before := procIdList;
      edits := UpdateProcessList(newPidList, infos);
      DiffKeys(before, newPidList);
      SameMembers(procIdList, newPidList);
      forall row | 0 <= row < |procIdList| ensures processList[row] == Find(list.processes, procIdList[row]) {
        assert procIdList[row] in newPidList;
      }
    }
  }

  lemma SameMembers(a: seq<nat>, b: seq<nat>)
    requires Within(a, b) && Within(b, a)
    ensures forall x :: x in a <==> x in b
  {
  }

  /** A row for exactly the listed processes that are shown, each beside what was read of it: its growth since it was
      measured last, and as running if that is positive. */
  ghost predicate RowsByGrowth(ids: seq<nat>, rows: seq<Option<Process>>, s: State, pids: seq<nat>, readings: seq<Reading>)
    requires |pids| == |readings|
  {
    && |rows| == |ids| && (forall pid :: pid in ids ==> pid in pids)
    && (forall k :: 0 <= k < |pids| ==>
          var r, growth := readings[k], Growth(s.log, pids[k], readings[k].rtime);
          pids[k] in ids <==> (growth > 0 || r.status != Zombie) && (s.filter == "active" ==> growth > 0 || r.status == Running))
    && (forall row, k :: 0 <= row < |ids| && 0 <= k < |pids| && pids[k] == ids[row] ==>
          var r, growth := readings[k], Growth(s.log, pids[k], readings[k].rtime);
          rows[row] == Some(Process(r.rtime, growth, if growth > 0 || r.status == Running then Running else r.status)))
  }

  lemma RowsShowGrowth(ids: seq<nat>, rows: seq<Option<Process>>, procs: map<nat, Process>, s: State, pids: seq<nat>, readings: seq<Reading>)
    requires |pids| == |readings| && |rows| == |ids| && (forall pid :: pid in ids <==> pid in procs)
    requires forall row :: 0 <= row < |ids| ==> rows[row] == Find(procs, ids[row])
    requires forall pid :: pid in procs ==> pid in pids
    requires forall k :: 0 <= k < |pids| ==>
               ShownByGrowth(procs, s.filter == "active", pids[k], readings[k], Growth(s.log, pids[k], readings[k].rtime))
    ensures RowsByGrowth(ids, rows, s, pids, readings)
  {
  }

  lemma RowsAfterScan(ids: seq<nat>, rows: seq<Option<Process>>, procs: map<nat, Process>, s: State, pids: seq<nat>, readings: seq<Reading>)
    requires s.phase.Idle? && !s.stopped && Distinct(pids) && |pids| == |readings| && procs == Run(s, ScanSteps(pids, readings)).procs
    requires |rows| == |ids| && (forall pid :: pid in ids <==> pid in procs) && forall row :: 0 <= row < |ids| ==> rows[row] == Find(procs, ids[row])
    ensures Agrees(s) && (forall k :: 0 <= k < |pids| ==> !WouldGoBack(s, pids[k], readings[k])) ==> RowsByGrowth(ids, rows, s, pids, readings)
  {
    if Agrees(s) && forall k :: 0 <= k < |pids| ==> !WouldGoBack(s, pids[k], readings[k]) {
      ScanShowsByGrowth(s, pids, readings);
      RowsShowGrowth(ids, rows, procs, s, pids, readings);
    }
  }

  /** One refresh: a scan, and the table follows it.  Its rows are then, each once, exactly the listed
      processes that are effectively no zombies and, under the filter "active", running; each is beside the
      outcome of its visit, old rows stay in their order, and new ones follow in the order of their ids. */
  method Refresh(list: ProcessList, model: ProcessTableModel, pids: seq<nat>, readings: seq<Reading>)
    returns (shown: seq<nat>, edits: seq<Edit<nat>>)
    requires model.Valid() && !list.scanStopped && Distinct(pids) && |pids| == |readings|
    modifies list, model
    ensures var active := old(list.filter) == "active";
            && (forall pid :: pid in model.procIdList <==>
                  exists k :: 0 <= k < |pids| && pids[k] == pid && Shown(active, Outcome(old(list.Contents()), pid, readings[k]).status))
            && (forall row, k :: 0 <= row < |model.procIdList| == |model.processList| && 0 <= k < |pids| && pids[k] == model.procIdList[row] ==>
                  model.processList[row] == Some(Outcome(old(list.Contents()), pids[k], readings[k])))
    ensures Agrees(old(list.Contents())) && (forall k :: 0 <= k < |pids| ==> !WouldGoBack(old(list.Contents()), pids[k], readings[k])) ==>
              RowsByGrowth(model.procIdList, model.processList, old(list.Contents()), pids, readings)
    ensures model.Valid() && Ascending(shown)
    ensures model.procIdList == Diff(old(model.procIdList), shown) == Replay(old(model.procIdList), edits)
  {
    ghost var s := list.Contents();
    list.ScanProcess(pids, readings);
    ScanShowsExactly(s, pids, readings);
    assert list.processes == list.Contents().procs;
    ghost var active := s.filter == "active";
    assert forall k :: 0 <= k < |pids| ==> ShownAs(list.processes, active, pids[k], Outcome(s, pids[k], readings[k]));
    shown, edits := model.FollowProcessList(list);
    RowsAfterScan(model.procIdList, model.processList, list.processes, s, pids, readings);
  }
}
