/** The history of every connection is kept well enough for the window through packets, ticks and
    refreshes, so each refresh reports exact numbers for every process. */
module NetRates {
  import opened Common
  import opened PackLists
  import opened PackListHistory
  import opened NetModel
  import opened NetOwnership
  import opened NetSystem
  import opened NetWindow

  ghost predicate Kept(net: Net, log: seq<Logged>) {
    ListsFaithful(net, log) && LogAttributed(net, log)
  }

  // ---------------------------------------------------------------- a packet arrives

  lemma ConnLogCons(e: Logged, log: seq<Logged>, conn: nat, out: bool)
    ensures ConnLog([e] + log, conn, out) == (if e.conn == conn && e.out == out then [e.entry] else []) + ConnLog(log, conn, out)
  {
  }

  lemma {:induction false} NothingLogged(log: seq<Logged>, conn: nat, out: bool)
    requires forall i :: 0 <= i < |log| ==> log[i].conn != conn
    ensures ConnLog(log, conn, out) == []
  {
    if log != [] {
      NothingLogged(log[1..], conn, out);
    }
  }

  lemma AddToPackets(c: Conn, p: Packet, out: bool)
    requires p.dir != Unknown
    ensures Packets(AddTo(c, p), out) == if (p.dir == Outgoing) == out then Added(Packets(c, out), EntryOf(p)) else Packets(c, out)
    ensures AddTo(c, p).last == p.sec
  {
  }

  lemma NewConnPackets(p: Packet, out: bool)
    requires p.dir != Unknown
    ensures Packets(NewConn(p), out) == if (p.dir == Outgoing) == out then Added([], EntryOf(p)) else []
    ensures NewConn(p).last == p.sec
  {
  }

  /** The new packet list of the connection that took the packet stands for its longer history. */
  lemma {:induction false} ArrivedIsFaithful(es: seq<Entry>, es': seq<Entry>, log: seq<Logged>, e: Logged, conn: nat, out: bool, now: int)
    requires Faithful(es, ConnLog(log, conn, out), now) && now <= e.entry.sec
    requires es' == if e.conn == conn && e.out == out then Added(es, e.entry) else es
    ensures Faithful(es', ConnLog([e] + log, conn, out), e.entry.sec)
  {
    ConnLogCons(e, log, conn, out);
    if e.conn == conn && e.out == out {
      FaithfulAdded(es, ConnLog(log, conn, out), now, e.entry);
    } else {
      assert [] + ConnLog(log, conn, out) == ConnLog(log, conn, out);
      FaithfulLater(es, ConnLog(log, conn, out), now, e.entry.sec);
    }
  }

  lemma {:induction false} OwnerOwns(procs: seq<Proc>, id: nat)
    requires exists k :: 0 <= k < |procs| && id in procs[k].conns
    ensures exists k :: 0 <= k < |procs| && id in procs[k].conns && procs[k].id == Owner(procs, id)
  {
    if id in procs[0].conns {
      assert procs[0].id == Owner(procs, id);
    } else {
      OwnerOwns(procs[1..], id);
      var k :| 0 <= k < |procs[1..]| && id in procs[1..][k].conns && procs[1..][k].id == Owner(procs[1..], id);
      assert procs[k + 1] == procs[1..][k];
    }
  }

  lemma OwnerIsOwner(net: Net, id: nat)
    requires NoOrphans(net) && id in net.table
    ensures OwnedBy(net, Owner(net.procs, id), id)
  {
    var k: nat :| Owns(net, k, id);
    OwnerOwns(net.procs, id);
    var m :| 0 <= m < |net.procs| && id in net.procs[m].conns && net.procs[m].id == Owner(net.procs, id);
    assert Owns(net, m, id);
  }

  lemma OwnersExtended(net: Net, net': Net, i: nat, proc: nat, id: nat)
    requires OwnedBy(net, proc, id) && i < |net.procs| &&
             net'.procs == net.procs[i := net.procs[i].(conns := [net.next] + net.procs[i].conns)]
    ensures OwnedBy(net', proc, id)
  {
    var k: nat :| Owns(net, k, id) && net.procs[k].id == proc;
    assert Owns(net', k, id);
  }

  lemma OwnersPrepended(net: Net, net': Net, proc: nat, id: nat)
    requires OwnedBy(net, proc, id) && |net'.procs| == |net.procs| + 1 && net'.procs[1..] == net.procs
    ensures OwnedBy(net', proc, id)
  {
  }

  lemma OwnersSame(net: Net, net': Net, proc: nat, id: nat)
    requires OwnedBy(net, proc, id) && net'.procs == net.procs
    ensures OwnedBy(net', proc, id)
  {
  }

  /** Whoever owned a connection before the packet owns it afterwards. */
  lemma DispatchKeepsOwners(net: Net, packet: Packet, lookup: Lookup, device: string, hash: string, proc: nat, id: nat)
    requires OwnedBy(net, proc, id)
    ensures OwnedBy(Dispatch(net, packet, lookup, device, hash), proc, id)
  {
    var net' := Dispatch(net, packet, lookup, device, hash);
    if FindConnection(net, Resolve(packet, net.local)).Some? {
      OwnersSame(net, net', proc, id);
    } else {
      AttachShape(net.procs, net.next + 1, net.next, lookup, device, hash);
      if i :| 0 <= i < |net.procs| && net'.procs == net.procs[i := net.procs[i].(conns := [net.next] + net.procs[i].conns)] {
        OwnersExtended(net, net', i, proc, id);
      } else {
        OwnersPrepended(net, net', proc, id);
      }
    }
  }

  /** The connection that takes the packet, or another one. */
  lemma KnownFaithful(c: Conn, log: seq<Logged>, p: Packet, e: Logged, c': Conn, id: nat, out: bool, now: int)
    requires Faithful(Packets(c, out), ConnLog(log, id, out), now) && now <= p.sec && p.dir != Unknown
    requires e.out == (p.dir == Outgoing) && e.entry == EntryOf(p) && c' == if e.conn == id then AddTo(c, p) else c
    ensures Faithful(Packets(c', out), ConnLog([e] + log, id, out), p.sec)
  {
    AddToPackets(c, p, out);
    ArrivedIsFaithful(Packets(c, out), Packets(c', out), log, e, id, out, now);
  }

  lemma NewFaithful(log: seq<Logged>, p: Packet, e: Logged, out: bool, now: int)
    requires now <= p.sec && p.dir != Unknown && e.out == (p.dir == Outgoing) && e.entry == EntryOf(p)
    requires forall i :: 0 <= i < |log| ==> log[i].conn != e.conn
    ensures Faithful(Packets(NewConn(p), out), ConnLog([e] + log, e.conn, out), p.sec)
  {
    NewConnPackets(p, out);
    NothingLogged(log, e.conn, out);
    assert Faithful([], [], now);
    ArrivedIsFaithful([], Packets(NewConn(p), out), log, e, e.conn, out, now);
  }

  lemma ArriveLists(s: Sys, step: Step)
    requires Sound(s) && step.Arrive? && StepOk(s, step) && Kept(s.net, s.log)
    ensures ListsFaithful(Exec(s, step).net, Exec(s, step).log)
  {
    var p := Resolve(step.packet, s.net.local);
    var t := Exec(s, step);
    var e := t.log[0];
    FoundIsLive(s.net.table, s.net.global, Facing(p));
    forall id, out | id in t.net.table
      ensures Faithful(Packets(t.net.table[id], out), ConnLog(t.log, id, out), t.net.now)
    {
      if id in s.net.table {
        assert Faithful(Packets(s.net.table[id], out), ConnLog(s.log, id, out), s.net.now);
        KnownFaithful(s.net.table[id], s.log, p, e, t.net.table[id], id, out, s.net.now);
      } else {
        NewFaithful(s.log, p, e, out, s.net.now);
      }
    }
  }

  /** What a packet leaves as it was: no connection is lost, and none gets older. */
  lemma DispatchAges(net: Net, packet: Packet, lookup: Lookup, device: string, hash: string, id: nat)
    requires packet.sec >= net.now && id in net.table && net.table[id].last <= net.now && net.next !in net.table
    ensures var net' := Dispatch(net, packet, lookup, device, hash); id in net'.table && net'.table[id].last >= net.table[id].last
  {
  }

  lemma ArriveKeepsAttributed(s: Sys, step: Step, e: Logged)
    requires Sound(s) && step.Arrive? && StepOk(s, step) && Attributed(s.net, e)
    ensures Attributed(Exec(s, step).net, e)
  {
    var net' := Exec(s, step).net;
    FoundIsLive(s.net.table, s.net.global, Facing(Resolve(step.packet, s.net.local)));
    assert net'.now >= s.net.now && net'.next >= s.net.next;
    if e.conn in s.net.table {
      DispatchAges(s.net, step.packet, step.lookup, step.device, step.hash, e.conn);
      DispatchKeepsOwners(s.net, step.packet, step.lookup, step.device, step.hash, e.proc, e.conn);
    }
  }

  lemma ArrivedIsAttributed(s: Sys, step: Step)
    requires Sound(s) && step.Arrive? && StepOk(s, step) && NoOrphans(Exec(s, step).net)
    ensures Attributed(Exec(s, step).net, Exec(s, step).log[0])
  {
    var t := Exec(s, step);
    FoundIsLive(s.net.table, s.net.global, Facing(Resolve(step.packet, s.net.local)));
    OwnerIsOwner(t.net, t.log[0].conn);
  }

  lemma ArriveAttributes(s: Sys, step: Step)
    requires Sound(s) && step.Arrive? && StepOk(s, step) && LogAttributed(s.net, s.log) && NoOrphans(Exec(s, step).net)
    ensures LogAttributed(Exec(s, step).net, Exec(s, step).log)
  {
    var t := Exec(s, step);
    ArrivedIsAttributed(s, step);
    forall i | 0 <= i < |t.log| ensures Attributed(t.net, t.log[i]) {
      if i > 0 {
        assert t.log[i] == s.log[i - 1];
        ArriveKeepsAttributed(s, step, s.log[i - 1]);
      }
    }
  }

  lemma TickKeeps(net: Net, log: seq<Logged>, now: int)
    requires Kept(net, log) && net.now <= now
    ensures Kept(net.(now := now), log)
  {
  }

  // ---------------------------------------------------------------- one process is updated

  lemma TrimmedIsFaithful(c: Conn, log: seq<Logged>, id: nat, out: bool, now: int)
    requires Faithful(Packets(c, out), ConnLog(log, id, out), now)
    ensures Faithful(Packets(Trim(c, now), out), ConnLog(log, id, out), now)
  {
    FaithfulTrimmed(Packets(c, out), ConnLog(log, id, out), now);
  }

  lemma RefreshKeepsLists(net: Net, log: seq<Logged>, i: nat)
    requires ListsFaithful(net, log) && i < |net.procs|
    ensures ListsFaithful(RefreshProc(net, i).net, log)
  {
    var net' := RefreshProc(net, i).net;
    forall id, out | id in net'.table
      ensures Faithful(Packets(net'.table[id], out), ConnLog(log, id, out), net'.now)
    {
      assert net'.table[id] == net.table[id] || net'.table[id] == Trim(net.table[id], net.now);
      TrimmedIsFaithful(net.table[id], log, id, out, net.now);
    }
  }

  lemma RefreshKeepsAttributed(net: Net, i: nat, e: Logged)
    requires Attributed(net, e) && i < |net.procs|
    ensures Attributed(RefreshProc(net, i).net, e)
  {
    var net' := RefreshProc(net, i).net;
    if e.conn in net'.table {
      var k: nat :| Owns(net, k, e.conn) && net.procs[k].id == e.proc;
      KeepFilters(net.table, net.procs[i].conns, net.now);
      assert Owns(net', k, e.conn) && net'.procs[k].id == e.proc;
    }
  }

  lemma RemoveKeepsAttributed(net: Net, i: nat, e: Logged)
    requires Attributed(net, e) && i < |net.procs| && net.procs[i].conns == []
    ensures Attributed(RemoveProc(net, i).net, e)
  {
    var net' := RemoveProc(net, i).net;
    if e.conn in net.table {
      var k: nat :| Owns(net, k, e.conn) && net.procs[k].id == e.proc;
      RemoveOwns(net, i);
      var m := if k < i then k else k - 1;
      assert Owns(net', m, e.conn) && net'.procs[m].id == e.proc;
    }
  }

  lemma RefreshKeeps(net: Net, log: seq<Logged>, i: nat)
    requires Kept(net, log) && i < |net.procs|
    ensures Kept(RefreshProc(net, i).net, log)
  {
    RefreshKeepsLists(net, log, i);
    forall k | 0 <= k < |log| ensures Attributed(RefreshProc(net, i).net, log[k]) {
      RefreshKeepsAttributed(net, i, log[k]);
    }
  }

  lemma RemoveKeeps(net: Net, log: seq<Logged>, i: nat)
    requires Kept(net, log) && i < |net.procs| && net.procs[i].conns == []
    ensures Kept(RemoveProc(net, i).net, log)
  {
    forall k | 0 <= k < |log| ensures Attributed(RemoveProc(net, i).net, log[k]) {
      RemoveKeepsAttributed(net, i, log[k]);
    }
  }

  // ---------------------------------------------------------------- what a refresh reports

  /** The record of a process gives its totals and the bytes of the last PERIOD seconds. */
  ghost predicate Reported(net: Net, log: seq<Logged>, p: Proc) {
    p.id in net.records &&
    var r := net.records[p.id];
    && r.sentBytes == Wrap(TotalSent(net.table, p.conns)) && r.recvBytes == Wrap(TotalRecv(net.table, p.conns))
    && r.sentRate == Rate(Wrap(SumSince(ProcLog(log, p.id, true), net.now - PERIOD)))
    && r.recvRate == Rate(Wrap(SumSince(ProcLog(log, p.id, false), net.now - PERIOD)))
  }

  lemma RefreshReports(net: Net, log: seq<Logged>, i: nat)
    requires Partitioned(net) && Kept(net, log) && i < |net.procs|
    ensures var net' := RefreshProc(net, i).net; Reported(net', log, net'.procs[i])
  {
    WindowIsExact(net, log, i, true);
    WindowIsExact(net, log, i, false);
  }

  lemma {:induction false} TotalsUntouched(table: map<nat, Conn>, table': map<nat, Conn>, ids: seq<nat>)
    requires forall id :: id in ids ==> (id in table <==> id in table') && (id in table ==> table[id] == table'[id])
    ensures TotalSent(table, ids) == TotalSent(table', ids) && TotalRecv(table, ids) == TotalRecv(table', ids)
  {
    if ids != [] {
      TotalsUntouched(table, table', ids[1..]);
    }
  }

  lemma RefreshKeepsReported(net: Net, log: seq<Logged>, i: nat, k: nat)
    requires Partitioned(net) && k < |net.procs| && i < |net.procs| && k != i && Reported(net, log, net.procs[k])
    ensures Reported(RefreshProc(net, i).net, log, net.procs[k])
  {
    var net' := RefreshProc(net, i).net;
    forall id | id in net.procs[k].conns
      ensures (id in net.table <==> id in net'.table) && (id in net.table ==> net.table[id] == net'.table[id])
    {
      assert Owns(net, k, id) && !Owns(net, i, id);
    }
    TotalsUntouched(net.table, net'.table, net.procs[k].conns);
    assert net.procs[k].id != net.procs[i].id;
  }

  ghost predicate ReportedUpTo(net: Net, log: seq<Logged>, i: nat) {
    i <= |net.procs| && forall k :: 0 <= k < i ==> Reported(net, log, net.procs[k])
  }

  lemma RefreshReportsUpTo(net: Net, log: seq<Logged>, i: nat)
    requires Partitioned(net) && Kept(net, log) && ReportedUpTo(net, log, i) && i < |net.procs|
    ensures ReportedUpTo(RefreshProc(net, i).net, log, i + 1)
  {
    var net' := RefreshProc(net, i).net;
    RefreshReports(net, log, i);
    forall k | 0 <= k < i ensures Reported(net', log, net'.procs[k]) {
      RefreshKeepsReported(net, log, i, k);
      assert net'.procs[k] == net.procs[k];
    }
  }

  lemma RemoveReportsUpTo(net: Net, log: seq<Logged>, i: nat)
    requires Partitioned(net) && ReportedUpTo(net, log, i) && i < |net.procs|
    ensures ReportedUpTo(RemoveProc(net, i).net, log, i)
  {
  }

  lemma TurnReports(net: Net, log: seq<Logged>, i: nat)
    requires InUpdate(net, i) && Kept(net, log) && ReportedUpTo(net, log, i) && i < |net.procs|
    ensures Kept(TurnNet(net, i), log) && ReportedUpTo(TurnNet(net, i), log, TurnIndex(net, i))
  {
    if Expired(net, net.procs[i]) {
      if net.procs[i].conns != [] {
        BusyIsNotExpired(net, i);
      }
      RemoveKeeps(net, log, i);
      RemoveReportsUpTo(net, log, i);
    } else {
      RefreshKeeps(net, log, i);
      RefreshReportsUpTo(net, log, i);
    }
  }

  lemma {:induction false} UpdateFromReports(net: Net, log: seq<Logged>, i: nat)
    requires InUpdate(net, i) && Kept(net, log) && ReportedUpTo(net, log, i)
    ensures var net' := UpdateFrom(net, i).net; Kept(net', log) && ReportedUpTo(net', log, |net'.procs|)
    decreases |net.procs| - i
  {
    if i < |net.procs| {
      TurnKeepsInUpdate(net, i);
      TurnReports(net, log, i);
      UpdateTurns(net, i);
      UpdateFromReports(TurnNet(net, i), log, TurnIndex(net, i));
    }
  }

  // ---------------------------------------------------------------- every run

  lemma StepKeeps(s: Sys, step: Step)
    requires Sound(s) && StepOk(s, step) && Kept(s.net, s.log)
    ensures Kept(Exec(s, step).net, Exec(s, step).log)
  {
    match step
    case Tick(now) => TickKeeps(s.net, s.log, now);
    case Arrive(packet, lookup, device, hash) =>
      ArriveLists(s, step);
      DispatchKeepsPartition(s.net, packet, lookup, device, hash);
      ArriveAttributes(s, step);
    case Refresh =>
      RefreshIsBusy(s);
      UpdateFromReports(s.net, s.log, 0);
  }

  lemma {:induction false} EveryRunKeeps(local: seq<nat>, now: int, steps: seq<Step>)
    requires now >= 0 && Regular(Start(local, now), steps)
    ensures var s := After(Start(local, now), steps); Kept(s.net, s.log)
  {
    if steps != [] {
      var front := steps[..|steps| - 1];
      EveryRunKeeps(local, now, front);
      EveryRunIsSound(local, now, front);
      StepKeeps(After(Start(local, now), front), steps[|steps| - 1]);
    }
  }

  lemma RefreshedReports(local: seq<nat>, now: int, steps: seq<Step>)
    requires now >= 0 && Regular(Start(local, now), steps) && steps != [] && steps[|steps| - 1] == Refresh
    ensures var s := After(Start(local, now), steps); ReportedUpTo(s.net, s.log, |s.net.procs|)
  {
    var front := steps[..|steps| - 1];
    var s := After(Start(local, now), front);
    EveryRunKeeps(local, now, front);
    EveryRunIsSound(local, now, front);
    RefreshIsBusy(s);
    UpdateFromReports(s.net, s.log, 0);
  }

  /** After any run that ends in a refresh, the record of every process holds the totals of its
      connections and the rates of all packets ever attributed to it in the last PERIOD seconds. */
  lemma RefreshedRatesAreExact(local: seq<nat>, now: int, steps: seq<Step>)
    requires now >= 0 && Regular(Start(local, now), steps) && steps != [] && steps[|steps| - 1] == Refresh
    ensures var s := After(Start(local, now), steps);
            forall i :: 0 <= i < |s.net.procs| ==> Reported(s.net, s.log, s.net.procs[i])
  {
    RefreshedReports(local, now, steps);
  }

  lemma RateInBytes(bytes: nat)
    ensures Rate(bytes) * 5.0 * 1024.0 == bytes as real
  {
  }

  /** The record shows, in kilobytes per second, the bytes of all packets that came for the process in a window of
      five seconds. */
  ghost predicate ShowsBytes(net: Net, log: seq<Logged>, p: Proc) {
    && p.id in net.records
    && net.records[p.id].sentRate * 5.0 * 1024.0 == Wrap(SumSince(ProcLog(log, p.id, true), net.now - 5)) as real
    && net.records[p.id].recvRate * 5.0 * 1024.0 == Wrap(SumSince(ProcLog(log, p.id, false), net.now - 5)) as real
  }

  lemma ReportedBytes(net: Net, log: seq<Logged>, p: Proc)
    requires Reported(net, log, p)
    ensures ShowsBytes(net, log, p)
  {
    RateInBytes(Wrap(SumSince(ProcLog(log, p.id, true), net.now - PERIOD)));
    RateInBytes(Wrap(SumSince(ProcLog(log, p.id, false), net.now - PERIOD)));
  }

  lemma AllReportedBytes(net: Net, log: seq<Logged>)
    requires ReportedUpTo(net, log, |net.procs|)
    ensures forall i :: 0 <= i < |net.procs| ==> ShowsBytes(net, log, net.procs[i])
  {
    forall i | 0 <= i < |net.procs| ensures ShowsBytes(net, log, net.procs[i]) {
      ReportedBytes(net, log, net.procs[i]);
    }
  }

  lemma RatesAreBytes(local: seq<nat>, now: int, steps: seq<Step>)
    requires now >= 0 && Regular(Start(local, now), steps) && steps != [] && steps[|steps| - 1] == Refresh
    ensures var s := After(Start(local, now), steps);
            forall i :: 0 <= i < |s.net.procs| ==> ShowsBytes(s.net, s.log, s.net.procs[i])
  {
    var s := After(Start(local, now), steps);
    RefreshedReports(local, now, steps);
    AllReportedBytes(s.net, s.log);
  }
}
