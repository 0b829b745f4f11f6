/** What a late refresh leaves behind: a process that is removed with its connections orphans them, and an
    orphan is never deleted.  Whatever the timing of a run, its connections are partitioned among the
    processes exactly if no refresh removed a process that had some. */
module NetOrphans {
  import opened Common
  import opened NetModel
  import opened NetOwnership
  import opened NetSystem
  import opened NetListing

  lemma {:induction false} UpdateKeepsNext(net: Net, i: nat)
    requires i <= |net.procs|
    ensures UpdateFrom(net, i).net.next == net.next
    decreases |net.procs| - i
  {
    if i < |net.procs| {
      UpdateTurns(net, i);
      UpdateKeepsNext(TurnNet(net, i), TurnIndex(net, i));
    }
  }

  lemma ExtendKeepsOrphan(net: Net, net': Net, i: nat, id: nat)
    requires (forall k: nat :: !Owns(net, k, id)) && id != net.next && i < |net.procs|
    requires net'.procs == net.procs[i := net.procs[i].(conns := [net.next] + net.procs[i].conns)]
    ensures forall k: nat :: !Owns(net', k, id)
  {
    forall k: nat ensures !Owns(net', k, id) {
      assert !Owns(net, k, id);
    }
  }

  lemma PrependKeepsOrphan(net: Net, net': Net, id: nat)
    requires (forall k: nat :: !Owns(net, k, id)) && id != net.next
    requires |net'.procs| == |net.procs| + 1 && net'.procs[0].conns == [net.next] && net'.procs == [net'.procs[0]] + net.procs
    ensures forall k: nat :: !Owns(net', k, id)
  {
    forall k: nat ensures !Owns(net', k, id) {
      assert k > 0 ==> !Owns(net, k - 1, id);
    }
  }

  lemma DispatchKeepsOrphan(net: Net, packet: Packet, lookup: Lookup, device: string, hash: string, id: nat)
    requires Orphan(net, id) && id < net.next
    ensures var net' := Dispatch(net, packet, lookup, device, hash); Orphan(net', id) && id < net'.next
  {
    var net' := Dispatch(net, packet, lookup, device, hash);
    if FindConnection(net, Resolve(packet, net.local)).Some? {
      forall k: nat ensures !Owns(net', k, id) {
        assert !Owns(net, k, id);
      }
    } else {
      AttachShape(net.procs, net.next + 1, net.next, lookup, device, hash);
      if i :| 0 <= i < |net.procs| && net'.procs == net.procs[i := net.procs[i].(conns := [net.next] + net.procs[i].conns)] {
        ExtendKeepsOrphan(net, net', i, id);
      } else {
        PrependKeepsOrphan(net, net', id);
      }
    }
  }

  lemma StepKeepsOrphan(s: Sys, step: Step, id: nat)
    requires Orphan(s.net, id) && id < s.net.next
    ensures Orphan(Exec(s, step).net, id) && id < Exec(s, step).net.next
  {
    match step
    case Tick(now) =>
      forall k: nat ensures !Owns(s.net.(now := now), k, id) {
        assert !Owns(s.net, k, id);
      }
    case Arrive(packet, lookup, device, hash) => DispatchKeepsOrphan(s.net, packet, lookup, device, hash, id);
    case Refresh =>
      OrphansStay(s.net, 0, id);
      UpdateKeepsNext(s.net, 0);
  }

  /** An orphan stays in the table, without an owner, through every further run. */
  lemma {:induction false} OrphansStayForEver(start: Sys, steps: seq<Step>, id: nat)
    requires Orphan(start.net, id) && id < start.net.next
    ensures var s := After(start, steps); Orphan(s.net, id) && id < s.net.next
  {
    if steps != [] {
      OrphansStayForEver(start, steps[..|steps| - 1], id);
      StepKeepsOrphan(After(start, steps[..|steps| - 1]), steps[|steps| - 1], id);
    }
  }

  // ---------------------------------------------------------------- exactly when a run keeps the partition

  /** Some refresh of the run found a process that was due for removal and still had connections. */
  ghost predicate RemovedBusy(start: Sys, steps: seq<Step>) {
    steps != [] &&
    (RemovedBusy(start, steps[..|steps| - 1]) ||
     (steps[|steps| - 1].Refresh? && BusyExpired(After(start, steps[..|steps| - 1]).net, 0)))
  }

  lemma StepPartitionsIff(s: Sys, step: Step)
    requires Partitioned(s.net)
    ensures Partitioned(Exec(s, step).net) <==> !(step.Refresh? && BusyExpired(s.net, 0))
  {
    match step
    case Tick(now) => SameListsKeepPartition(s.net, s.net.(now := now));
    case Arrive(packet, lookup, device, hash) => DispatchKeepsPartition(s.net, packet, lookup, device, hash);
    case Refresh => UpdatePartitionsIff(s.net);
  }

  lemma StepKeepsUnpartitioned(s: Sys, step: Step)
    requires AllListed(s.net) && !Partitioned(s.net)
    ensures !Partitioned(Exec(s, step).net)
  {
    var id :| id in s.net.table && !exists k: nat :: Owns(s.net, k, id);
    assert Orphan(s.net, id);
    StepKeepsOrphan(s, step, id);
    assert !exists k: nat :: Owns(Exec(s, step).net, k, id);
  }

  /** Whatever the timing of a run, the connections are partitioned among the processes at its end exactly
      if no refresh of it removed a process that had connections. */
  lemma {:induction false} RunPartitionsIff(local: seq<nat>, now: int, steps: seq<Step>)
    ensures Partitioned(After(Start(local, now), steps).net) <==> !RemovedBusy(Start(local, now), steps)
  {
    if steps == [] {
      InitIsListed(local, now);
    } else {
      var front := steps[..|steps| - 1];
      var s := After(Start(local, now), front);
      RunPartitionsIff(local, now, front);
      if Partitioned(s.net) {
        StepPartitionsIff(s, steps[|steps| - 1]);
      } else {
        EveryRunIsListed(local, now, front);
        StepKeepsUnpartitioned(s, steps[|steps| - 1]);
      }
    }
  }

  // ---------------------------------------------------------------- it happens

  /** A monitor that has seen one packet. */
  lemma AfterFirstPacket(local: seq<nat>, now: int, packet: Packet, lookup: Lookup, device: string, hash: string)
    requires lookup.Program? ==> lookup.pid != 0
    ensures var net := Dispatch(Init(local, now), packet, lookup, device, hash);
            && |net.procs| == 2 && net.procs[0].id == 2 && net.procs[0].conns == [1]
            && 1 in net.table && net.table[1].last == packet.sec && net.next == 3
            && forall k: nat :: Owns(net, k, 1) <==> k == 0
  {
    var net := Init(local, now);
    var p := Resolve(packet, local);
    assert FindConnection(net, p) == None;
    assert FindPid(net.procs[1..], 0) == 0;
  }

  lemma OldProcessExpires(net: Net, late: int)
    requires |net.procs| == 2 && net.procs[0].id == 2 && net.procs[0].conns == [1] && 1 in net.table
    requires late >= net.table[1].last + PROCESSTIMEOUT && late >= PROCESSTIMEOUT
    requires forall k: nat :: Owns(net, k, 1) <==> k == 0
    ensures Orphan(Update(net.(now := late)).net, 1)
  {
    var m := net.(now := late);
    assert LastPacket(m.table, [1][1..]) == 0;
    assert Expired(m, m.procs[0]);
    RemoveOwns(m, 0);
    forall k: nat ensures !Owns(RemoveProc(m, 0).net, k, 1) {
      assert Owns(m, k + 1, 1) ==> Owns(net, k + 1, 1);
    }
    OrphansStay(RemoveProc(m, 0).net, 0, 1);
  }

  lemma AfterSnoc(start: Sys, steps: seq<Step>, step: Step)
    ensures After(start, steps + [step]) == Exec(After(start, steps), step)
  {
    assert (steps + [step])[..|steps|] == steps;
  }

  /** A packet, and no refresh for PROCESSTIMEOUT seconds after it: the first refresh then removes the
      process, and its connection is an orphan. */
  lemma LateRefreshOrphans(local: seq<nat>, now: int, packet: Packet, lookup: Lookup, device: string, hash: string, late: int)
    requires lookup.Program? ==> lookup.pid != 0
    requires late >= packet.sec + PROCESSTIMEOUT && late >= PROCESSTIMEOUT
    ensures Orphan(After(Start(local, now), [Arrive(packet, lookup, device, hash), Tick(late), Refresh]).net, 1)
  {
    var start, arrive := Start(local, now), Arrive(packet, lookup, device, hash);
    AfterSnoc(start, [], arrive);
    AfterSnoc(start, [arrive], Tick(late));
    AfterSnoc(start, [arrive, Tick(late)], Refresh);
    assert [arrive, Tick(late)] + [Refresh] == [arrive, Tick(late), Refresh];
    assert [] + [arrive] == [arrive] && [arrive] + [Tick(late)] == [arrive, Tick(late)];
    AfterFirstPacket(local, now, packet, lookup, device, hash);
    OldProcessExpires(Dispatch(Init(local, now), packet, lookup, device, hash), late);
  }
}
