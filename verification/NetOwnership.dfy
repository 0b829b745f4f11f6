/** Who owns a connection: in every reachable state the global list and the lists of the processes
    hold the same connections, each once. */
module NetOwnership {
  import opened Common
  import opened PackLists
  import opened NetModel

  ghost predicate GlobalListed(net: Net) {
    Distinct(net.global) && forall id :: id in net.global <==> id in net.table
  }

  predicate Owns(net: Net, i: nat, id: nat) {
    i < |net.procs| && id in net.procs[i].conns
  }

  ghost predicate ProcsListed(net: Net) {
    && (forall i :: 0 <= i < |net.procs| ==> Distinct(net.procs[i].conns))
    && (forall i: nat, id :: Owns(net, i, id) ==> id in net.table)
    && (forall i: nat, j: nat, id :: Owns(net, i, id) && Owns(net, j, id) ==> i == j)
  }

  ghost predicate NoOrphans(net: Net) {
    forall id :: id in net.table ==> exists i: nat :: Owns(net, i, id)
  }

  ghost predicate IdsListed(net: Net) {
    && (forall i, j :: 0 <= i < j < |net.procs| ==> net.procs[i].id != net.procs[j].id)
    && (exists i :: 0 <= i < |net.procs| && net.procs[i].id == UNKNOWN)
    && (forall i :: 0 <= i < |net.procs| ==> net.procs[i].id < net.next)
    && (forall id :: id in net.table ==> id < net.next)
    && UNKNOWN < net.next
  }

  ghost predicate AllListed(net: Net) {
    GlobalListed(net) && ProcsListed(net) && IdsListed(net)
  }

  /** The duplicate-free global list is partitioned among the lists of the processes. */
  ghost predicate Partitioned(net: Net) {
    AllListed(net) && NoOrphans(net)
  }

  // ---------------------------------------------------------------- lists

  lemma {:induction false} KeepFilters(table: map<nat, Conn>, ids: seq<nat>, now: int)
    ensures forall id :: id in Keep(table, ids, now) <==> id in ids && Alive(table, id, now)
    ensures Distinct(ids) ==> Distinct(Keep(table, ids, now))
  {
    if ids != [] {
      KeepFilters(table, ids[1..], now);
      assert ids == [ids[0]] + ids[1..];
    }
  }

  lemma {:induction false} LiveFilters(table: map<nat, Conn>, ids: seq<nat>)
    ensures forall id :: id in Live(table, ids) <==> id in ids && id in table
    ensures Distinct(ids) ==> Distinct(Live(table, ids))
  {
    if ids != [] {
      LiveFilters(table, ids[1..]);
      assert ids == [ids[0]] + ids[1..];
    }
  }

  lemma DistinctCons(id: nat, ids: seq<nat>)
    requires Distinct(ids) && id !in ids
    ensures Distinct([id] + ids)
  {
  }

  // ---------------------------------------------------------------- a packet arrives

  lemma {:induction false} FoundIsLive(table: map<nat, Conn>, ids: seq<nat>, p: Packet)
    ensures FirstMatch(table, ids, p).Some? ==> FirstMatch(table, ids, p).value in table
    ensures FirstSource(table, ids, p).Some? ==> FirstSource(table, ids, p).value in table
  {
    if ids != [] {
      FoundIsLive(table, ids[1..], p);
    }
  }

  /** The new connection goes to one process: an existing one, or a new one at the front. */
  lemma AttachShape(procs: seq<Proc>, newId: nat, id: nat, lookup: Lookup, device: string, hash: string)
    ensures var r := Attach(procs, newId, id, lookup, device, hash);
            (exists i :: 0 <= i < |procs| && r == procs[i := procs[i].(conns := [id] + procs[i].conns)]) ||
            (|r| == |procs| + 1 && r[0].id == newId && r[0].conns == [id] && r == [r[0]] + procs)
  {
  }

  lemma PrependOwns(net: Net, p: Proc, net': Net)
    requires net'.procs == [p] + net.procs && p.conns == [net.next]
    ensures forall k: nat, x :: Owns(net', k, x) <==> (k > 0 && Owns(net, k - 1, x)) || (k == 0 && x == net.next)
  {
  }

  lemma PrependKeepsIds(net: Net, p: Proc, net': Net)
    requires IdsListed(net) && p.id == net.next + 1 && net'.procs == [p] + net.procs
    requires net'.table.Keys == net.table.Keys + {net.next} && net'.next == net.next + 2
    ensures IdsListed(net')
  {
    var u :| 0 <= u < |net.procs| && net.procs[u].id == UNKNOWN;
    assert net'.procs[u + 1].id == UNKNOWN;
  }

  ghost function Registered(net: Net, packet: Packet): Net {
    net.(now := packet.sec, table := net.table[net.next := NewConn(packet)], global := [net.next] + net.global, next := net.next + 2)
  }

  lemma SameKeysListed(net: Net, net': Net)
    requires AllListed(net)
    requires net'.table.Keys == net.table.Keys && net'.global == net.global && net'.procs == net.procs && net'.next == net.next
    ensures AllListed(net')
  {
    forall i: nat, id ensures Owns(net', i, id) <==> Owns(net, i, id) {
    }
    assert forall id :: id in net'.table <==> id in net.table.Keys;
  }

  lemma RegisteredListed(net: Net, packet: Packet)
    requires AllListed(net)
    ensures AllListed(Registered(net, packet))
  {
    var net' := Registered(net, packet);
    DistinctCons(net.next, net.global);
    forall i: nat, id ensures Owns(net', i, id) <==> Owns(net, i, id) {
    }
  }

  lemma SameProcsKeepIds(net: Net, net': Net)
    requires IdsListed(net) && |net'.procs| == |net.procs| && net'.next >= net.next
    requires forall k :: 0 <= k < |net.procs| ==> net'.procs[k].id == net.procs[k].id
    requires forall id :: id in net'.table ==> id < net'.next
    ensures IdsListed(net')
  {
  }

  lemma AttachKeepsIds(net: Net, lookup: Lookup, device: string, hash: string, net': Net)
    requires IdsListed(net) && net'.procs == Attach(net.procs, net.next + 1, net.next, lookup, device, hash)
    requires net'.next == net.next + 2 && net'.table.Keys == net.table.Keys + {net.next}
    ensures IdsListed(net')
  {
    AttachShape(net.procs, net.next + 1, net.next, lookup, device, hash);
    if i :| 0 <= i < |net.procs| && net'.procs == net.procs[i := net.procs[i].(conns := [net.next] + net.procs[i].conns)] {
      SameProcsKeepIds(net, net');
    } else {
      PrependKeepsIds(net, net'.procs[0], net');
    }
  }

  lemma DispatchKeepsIds(net: Net, packet: Packet, lookup: Lookup, device: string, hash: string)
    requires IdsListed(net)
    ensures IdsListed(Dispatch(net, packet, lookup, device, hash))
  {
    var net' := Dispatch(net, packet, lookup, device, hash);
    if FindConnection(net, Resolve(packet, net.local)).Some? {
      SameProcsKeepIds(net, net');
    } else {
      assert net'.table.Keys == net.table.Keys + {net.next};
      AttachKeepsIds(net, lookup, device, hash, net');
    }
  }

  lemma AttachedListed(net: Net, id: nat, i: nat, net': Net)
    requires GlobalListed(net) && ProcsListed(net) && id in net.table && i < |net.procs| && forall k: nat :: !Owns(net, k, id)
    requires net'.table == net.table && net'.global == net.global
    requires net'.procs == net.procs[i := net.procs[i].(conns := [id] + net.procs[i].conns)]
    ensures GlobalListed(net') && ProcsListed(net')
  {
    assert !Owns(net, i, id);
    DistinctCons(id, net.procs[i].conns);
    forall k: nat, x ensures Owns(net', k, x) <==> Owns(net, k, x) || (k == i && x == id) {
    }
  }

  lemma PrependedListed(net: Net, id: nat, p: Proc, net': Net)
    requires GlobalListed(net) && ProcsListed(net) && id in net.table && p.conns == [id] && forall k: nat :: !Owns(net, k, id)
    requires net'.table == net.table && net'.global == net.global && net'.procs == [p] + net.procs
    ensures GlobalListed(net') && ProcsListed(net')
  {
    forall k: nat, x ensures Owns(net', k, x) <==> (k > 0 && Owns(net, k - 1, x)) || (k == 0 && x == id) {
    }
  }

  /** Nobody owns a connection that was just registered. */
  lemma RegisteredIsFree(net: Net, packet: Packet)
    requires AllListed(net)
    ensures AllListed(Registered(net, packet)) && forall k: nat :: !Owns(Registered(net, packet), k, net.next)
  {
    RegisteredListed(net, packet);
    forall k: nat ensures !Owns(Registered(net, packet), k, net.next) {
      assert Owns(Registered(net, packet), k, net.next) ==> Owns(net, k, net.next);
    }
  }

  lemma NewPacketKeepsListed(net: Net, p: Packet, procs': seq<Proc>, net': Net)
    requires AllListed(net) && net' == Registered(net, p).(procs := procs')
    requires (exists i :: 0 <= i < |net.procs| && procs' == net.procs[i := net.procs[i].(conns := [net.next] + net.procs[i].conns)]) ||
             (|procs'| > 0 && procs'[0].conns == [net.next] && procs' == [procs'[0]] + net.procs)
    ensures GlobalListed(net') && ProcsListed(net')
  {
    var mid := Registered(net, p);
    RegisteredIsFree(net, p);
    if i :| 0 <= i < |net.procs| && procs' == net.procs[i := net.procs[i].(conns := [net.next] + net.procs[i].conns)] {
      AttachedListed(mid, net.next, i, net');
    } else {
      PrependedListed(mid, net.next, procs'[0], net');
    }
  }

  lemma KnownPacketKeepsListed(net: Net, p: Packet, id: nat)
    requires AllListed(net) && id in net.table
    ensures AllListed(net.(now := p.sec, table := net.table[id := AddTo(net.table[id], p)]))
  {
    SameKeysListed(net, net.(now := p.sec, table := net.table[id := AddTo(net.table[id], p)]));
  }

  lemma AttachKeepsListed(net: Net, p: Packet, lookup: Lookup, device: string, hash: string)
    requires AllListed(net)
    ensures var net' := Registered(net, p).(procs := Attach(net.procs, net.next + 1, net.next, lookup, device, hash));
            GlobalListed(net') && ProcsListed(net')
  {
    AttachShape(net.procs, net.next + 1, net.next, lookup, device, hash);
    var procs' := Attach(net.procs, net.next + 1, net.next, lookup, device, hash);
    NewPacketKeepsListed(net, p, procs', Registered(net, p).(procs := procs'));
  }

  lemma KnownDispatchKeepsListed(net: Net, packet: Packet, lookup: Lookup, device: string, hash: string, id: nat)
    requires AllListed(net) && FindConnection(net, Resolve(packet, net.local)) == Some(id)
    ensures AllListed(Dispatch(net, packet, lookup, device, hash))
  {
    var p := Resolve(packet, net.local);
    FoundIsLive(net.table, net.global, Facing(p));
    KnownPacketKeepsListed(net, p, id);
  }

  lemma NewDispatchIs(net: Net, packet: Packet, lookup: Lookup, device: string, hash: string)
    requires FindConnection(net, Resolve(packet, net.local)) == None
    ensures Dispatch(net, packet, lookup, device, hash) ==
            Registered(net, Resolve(packet, net.local)).(procs := Attach(net.procs, net.next + 1, net.next, lookup, device, hash))
  {
  }

  lemma NewDispatchKeepsListed(net: Net, packet: Packet, lookup: Lookup, device: string, hash: string)
    requires AllListed(net) && FindConnection(net, Resolve(packet, net.local)) == None
    ensures AllListed(Dispatch(net, packet, lookup, device, hash))
  {
    NewDispatchIs(net, packet, lookup, device, hash);
    AttachKeepsListed(net, Resolve(packet, net.local), lookup, device, hash);
    DispatchKeepsIds(net, packet, lookup, device, hash);
  }

  lemma DispatchKeepsListed(net: Net, packet: Packet, lookup: Lookup, device: string, hash: string)
    requires AllListed(net)
    ensures AllListed(Dispatch(net, packet, lookup, device, hash))
  {
    match FindConnection(net, Resolve(packet, net.local))
    case Some(id) => KnownDispatchKeepsListed(net, packet, lookup, device, hash, id);
    case None => NewDispatchKeepsListed(net, packet, lookup, device, hash);
  }

  lemma ExtendKeepsOwners(net: Net, i: nat, net': Net)
    requires NoOrphans(net) && i < |net.procs| && (forall x :: x in net'.table ==> x in net.table || x == net.next)
    requires net'.procs == net.procs[i := net.procs[i].(conns := [net.next] + net.procs[i].conns)]
    ensures NoOrphans(net')
  {
    forall x | x in net'.table ensures exists k: nat :: Owns(net', k, x) {
      if x == net.next {
        assert Owns(net', i, x);
      } else {
        var k: nat :| Owns(net, k, x);
        assert Owns(net', k, x);
      }
    }
  }

  lemma PrependKeepsOwners(net: Net, p: Proc, net': Net)
    requires NoOrphans(net) && p.conns == [net.next] && net'.procs == [p] + net.procs &&
             (forall x :: x in net'.table ==> x in net.table || x == net.next)
    ensures NoOrphans(net')
  {
    PrependOwns(net, p, net');
    forall x | x in net'.table ensures exists k: nat :: Owns(net', k, x) {
      if x == net.next {
        assert Owns(net', 0, x);
      } else {
        var k: nat :| Owns(net, k, x);
        assert Owns(net', k + 1, x);
      }
    }
  }

  /** A new connection gets an owner. */
  lemma NewPacketHasOwner(net: Net, packet: Packet, lookup: Lookup, device: string, hash: string)
    requires NoOrphans(net) && FindConnection(net, Resolve(packet, net.local)) == None
    ensures NoOrphans(Dispatch(net, packet, lookup, device, hash))
  {
    var net' := Dispatch(net, packet, lookup, device, hash);
    AttachShape(net.procs, net.next + 1, net.next, lookup, device, hash);
    if i :| 0 <= i < |net.procs| && net'.procs == net.procs[i := net.procs[i].(conns := [net.next] + net.procs[i].conns)] {
      ExtendKeepsOwners(net, i, net');
    } else {
      PrependKeepsOwners(net, net'.procs[0], net');
    }
  }

  lemma SameListsKeepPartition(net: Net, net': Net)
    requires Partitioned(net) && net'.table.Keys == net.table.Keys && net'.global == net.global &&
             net'.procs == net.procs && net'.next == net.next
    ensures Partitioned(net')
  {
    forall i: nat, id ensures Owns(net', i, id) <==> Owns(net, i, id) {
    }
    forall id | id in net'.table ensures id in net.table && exists i: nat :: Owns(net', i, id) {
      assert id in net.table.Keys;
      var i: nat :| Owns(net, i, id);
      assert Owns(net', i, id);
    }
  }

  // ---------------------------------------------------------------- one process is updated

  lemma KnownKeepsPartition(net: Net, packet: Packet, lookup: Lookup, device: string, hash: string, id: nat)
    requires Partitioned(net) && FindConnection(net, Resolve(packet, net.local)) == Some(id)
    ensures Partitioned(Dispatch(net, packet, lookup, device, hash))
  {
    var net' := Dispatch(net, packet, lookup, device, hash);
    FoundIsLive(net.table, net.global, Facing(Resolve(packet, net.local)));
    assert net'.table.Keys == net.table.Keys && net'.procs == net.procs;
    SameListsKeepPartition(net, net');
  }

  lemma DispatchKeepsPartition(net: Net, packet: Packet, lookup: Lookup, device: string, hash: string)
    requires Partitioned(net)
    ensures Partitioned(Dispatch(net, packet, lookup, device, hash))
  {
    match FindConnection(net, Resolve(packet, net.local))
    case Some(id) => KnownKeepsPartition(net, packet, lookup, device, hash, id);
    case None =>
      NewDispatchKeepsListed(net, packet, lookup, device, hash);
      NewPacketHasOwner(net, packet, lookup, device, hash);
  }

  lemma RefreshOwns(net: Net, i: nat)
    requires ProcsListed(net) && i < |net.procs|
    ensures var net' := RefreshProc(net, i).net;
            forall k: nat, id :: Owns(net', k, id) <==> Owns(net, k, id) && id in net'.table
  {
    var net' := RefreshProc(net, i).net;
    KeepFilters(net.table, net.procs[i].conns, net.now);
    forall k: nat, id ensures Owns(net', k, id) <==> Owns(net, k, id) && id in net'.table {
      if Owns(net, k, id) && k != i {
        assert !Owns(net, i, id);
      }
      if Owns(net, k, id) && k == i {
        assert id in net.table;
      }
    }
  }

  lemma RefreshKeepsIds(net: Net, i: nat)
    requires IdsListed(net) && i < |net.procs|
    ensures IdsListed(RefreshProc(net, i).net)
  {
    var net' := RefreshProc(net, i).net;
    var u :| 0 <= u < |net.procs| && net.procs[u].id == UNKNOWN;
    assert net'.procs[u].id == UNKNOWN;
  }

  lemma RefreshKeepsListed(net: Net, i: nat)
    requires AllListed(net) && i < |net.procs|
    ensures AllListed(RefreshProc(net, i).net)
  {
    KeepFilters(net.table, net.procs[i].conns, net.now);
    LiveFilters(RefreshProc(net, i).net.table, net.global);
    RefreshOwns(net, i);
    RefreshKeepsIds(net, i);
  }

  lemma RefreshKeepsPartition(net: Net, i: nat)
    requires Partitioned(net) && i < |net.procs|
    ensures Partitioned(RefreshProc(net, i).net)
  {
    var net' := RefreshProc(net, i).net;
    RefreshKeepsListed(net, i);
    RefreshOwns(net, i);
    forall id | id in net'.table ensures exists k: nat :: Owns(net', k, id) {
      var k: nat :| Owns(net, k, id);
      assert Owns(net', k, id);
    }
  }

  lemma RemoveOwns(net: Net, i: nat)
    requires i < |net.procs|
    ensures forall k: nat, id :: Owns(RemoveProc(net, i).net, k, id) <==> Owns(net, if k < i then k else k + 1, id)
  {
  }

  lemma RemoveEmptyKeepsOwners(net: Net, i: nat)
    requires ProcsListed(net) && NoOrphans(net) && i < |net.procs| && net.procs[i].conns == []
    ensures NoOrphans(RemoveProc(net, i).net) && ProcsListed(RemoveProc(net, i).net)
  {
    var net' := RemoveProc(net, i).net;
    RemoveOwns(net, i);
    forall id | id in net'.table ensures exists k: nat :: Owns(net', k, id) {
      var k: nat :| Owns(net, k, id);
      assert k != i;
      assert Owns(net', if k < i then k else k - 1, id);
    }
  }

  lemma RemoveKeepsIds(net: Net, i: nat)
    requires IdsListed(net) && i < |net.procs| && net.procs[i].id != UNKNOWN
    ensures IdsListed(RemoveProc(net, i).net)
  {
    var net' := RemoveProc(net, i).net;
    assert net'.procs == net.procs[..i] + net.procs[i + 1..] && net'.next == net.next;
    var u :| 0 <= u < |net.procs| && net.procs[u].id == UNKNOWN;
    assert net'.procs[if u < i then u else u - 1].id == UNKNOWN;
  }

  lemma RemoveKeepsListed(net: Net, i: nat)
    requires AllListed(net) && i < |net.procs| && net.procs[i].id != UNKNOWN
    ensures AllListed(RemoveProc(net, i).net)
  {
    RemoveOwns(net, i);
    RemoveKeepsIds(net, i);
  }

  lemma TurnKeepsListed(net: Net, i: nat)
    requires AllListed(net) && i < |net.procs|
    ensures AllListed(TurnNet(net, i))
  {
    if Expired(net, net.procs[i]) {
      RemoveKeepsListed(net, i);
    } else {
      RefreshKeepsListed(net, i);
    }
  }

  lemma {:induction false} UpdateKeepsListed(net: Net, i: nat)
    requires AllListed(net) && i <= |net.procs|
    ensures AllListed(UpdateFrom(net, i).net)
    decreases |net.procs| - i
  {
    if i < |net.procs| {
      TurnKeepsListed(net, i);
      UpdateTurns(net, i);
      UpdateKeepsListed(TurnNet(net, i), TurnIndex(net, i));
    }
  }

  lemma RemoveEmptyKeepsPartition(net: Net, i: nat)
    requires Partitioned(net) && i < |net.procs| && net.procs[i].id != UNKNOWN && net.procs[i].conns == []
    ensures Partitioned(RemoveProc(net, i).net)
  {
    RemoveEmptyKeepsOwners(net, i);
    RemoveKeepsIds(net, i);
  }

  /** A connection whose process is removed before it is deleted stays in the global list for ever,
      without an owner. */
  lemma RemoveBusyOrphans(net: Net, i: nat, id: nat)
    requires Partitioned(net) && Owns(net, i, id)
    ensures var net' := RemoveProc(net, i).net; id in net'.global && forall k: nat :: !Owns(net', k, id)
  {
    RemoveOwns(net, i);
  }

  /** Removing a process keeps the partition exactly when its list is empty. */
  lemma RemoveKeepsPartition(net: Net, i: nat)
    requires Partitioned(net) && i < |net.procs| && net.procs[i].id != UNKNOWN
    ensures Partitioned(RemoveProc(net, i).net) <==> net.procs[i].conns == []
  {
    if net.procs[i].conns == [] {
      RemoveEmptyKeepsPartition(net, i);
    } else {
      RemoveBusyOrphans(net, i, net.procs[i].conns[0]);
    }
  }

  // ---------------------------------------------------------------- the whole update

  /** Every connection of every process is recent enough to keep its process. */
  ghost predicate Busy(net: Net) {
    forall id :: id in net.table ==> net.table[id].last + PROCESSTIMEOUT > net.now
  }

  /** The processes before position i hold only connections that are not stalled. */
  ghost predicate Swept(net: Net, i: nat) {
    forall k: nat, id :: k < i && Owns(net, k, id) ==> Alive(net.table, id, net.now)
  }

  lemma BusyIsNotExpired(net: Net, i: nat)
    requires Partitioned(net) && Busy(net) && i < |net.procs| && net.procs[i].conns != []
    ensures !Expired(net, net.procs[i])
  {
    var id := net.procs[i].conns[0];
    assert Owns(net, i, id);
  }

  lemma RefreshSweeps(net: Net, i: nat)
    requires Partitioned(net) && Busy(net) && Swept(net, i) && i < |net.procs|
    ensures var net' := RefreshProc(net, i).net; Busy(net') && Swept(net', i + 1) && |net'.procs| == |net.procs| && net'.now == net.now
  {
    var net' := RefreshProc(net, i).net;
    KeepFilters(net.table, net.procs[i].conns, net.now);
    forall k: nat, id | k < i + 1 && Owns(net', k, id)
      ensures Alive(net'.table, id, net'.now)
    {
      if k < i {
        assert Owns(net, k, id);
      } else {
        assert Owns(net, i, id);
      }
    }
  }

  lemma RemoveSweeps(net: Net, i: nat)
    requires Swept(net, i) && i < |net.procs|
    ensures var net' := RemoveProc(net, i).net; Swept(net', i) && i <= |net'.procs| && net'.now == net.now && net'.table == net.table
  {
    RemoveOwns(net, i);
  }

  /** What holds from turn to turn of an update in time. */
  ghost predicate InUpdate(net: Net, i: nat) {
    Partitioned(net) && Busy(net) && Swept(net, i) && i <= |net.procs|
  }

  lemma TurnKeepsInUpdate(net: Net, i: nat)
    requires InUpdate(net, i) && i < |net.procs|
    ensures var net' := TurnNet(net, i);
            InUpdate(net', TurnIndex(net, i)) && net'.now == net.now && net'.next == net.next && net'.local == net.local
  {
    if Expired(net, net.procs[i]) {
      if net.procs[i].conns != [] {
        BusyIsNotExpired(net, i);
      }
      RemoveEmptyKeepsPartition(net, i);
      RemoveSweeps(net, i);
    } else {
      RefreshKeepsPartition(net, i);
      RefreshSweeps(net, i);
    }
  }

  lemma SweptIsAlive(net: Net)
    requires InUpdate(net, |net.procs|)
    ensures forall id :: id in net.table ==> Alive(net.table, id, net.now)
  {
    forall id | id in net.table ensures Alive(net.table, id, net.now) {
      var k: nat :| Owns(net, k, id);
    }
  }

  /** An update in time removes only processes without connections, keeps the partition, and leaves
      no stalled connection behind. */
  lemma {:induction false} UpdateFromPartitions(net: Net, i: nat)
    requires InUpdate(net, i)
    ensures var net' := UpdateFrom(net, i).net;
            Partitioned(net') && net'.now == net.now && net'.next == net.next && net'.local == net.local &&
            forall id :: id in net'.table ==> Alive(net'.table, id, net'.now)
    decreases |net.procs| - i
  {
    if i == |net.procs| {
      SweptIsAlive(net);
    } else {
      TurnKeepsInUpdate(net, i);
      UpdateTurns(net, i);
      UpdateFromPartitions(TurnNet(net, i), TurnIndex(net, i));
    }
  }

  // ---------------------------------------------------------------- exactly when an update keeps the partition

  /** Some process from position i on would be removed together with its connections. */
  ghost predicate BusyExpired(net: Net, i: nat) {
    exists k: nat :: i <= k < |net.procs| && Expired(net, net.procs[k]) && net.procs[k].conns != []
  }

  lemma LastPacketUntouched(table: map<nat, Conn>, table': map<nat, Conn>, ids: seq<nat>)
    requires forall id :: id in ids ==> (id in table <==> id in table') && (id in table ==> table[id].last == table'[id].last)
    ensures LastPacket(table, ids) == LastPacket(table', ids)
  {
  }

  lemma RefreshKeepsOthersExpiry(net: Net, i: nat, k: nat)
    requires Partitioned(net) && i < |net.procs| && k < |net.procs| && k != i
    ensures var net' := RefreshProc(net, i).net; Expired(net', net'.procs[k]) == Expired(net, net.procs[k])
  {
    var net' := RefreshProc(net, i).net;
    forall id | id in net.procs[k].conns
      ensures (id in net.table <==> id in net'.table) && (id in net.table ==> net.table[id].last == net'.table[id].last)
    {
      assert Owns(net, k, id) && !Owns(net, i, id);
    }
    LastPacketUntouched(net.table, net'.table, net.procs[k].conns);
  }

  lemma RefreshKeepsBusyExpired(net: Net, i: nat)
    requires Partitioned(net) && i < |net.procs|
    ensures BusyExpired(RefreshProc(net, i).net, i + 1) <==> BusyExpired(net, i + 1)
  {
    var net' := RefreshProc(net, i).net;
    forall k: nat | i + 1 <= k < |net.procs|
      ensures Expired(net', net'.procs[k]) == Expired(net, net.procs[k]) && net'.procs[k].conns == net.procs[k].conns
    {
      RefreshKeepsOthersExpiry(net, i, k);
    }
    if BusyExpired(net, i + 1) {
      var k: nat :| i + 1 <= k < |net.procs| && Expired(net, net.procs[k]) && net.procs[k].conns != [];
      assert Expired(net', net'.procs[k]);
    }
    if BusyExpired(net', i + 1) {
      var k: nat :| i + 1 <= k < |net'.procs| && Expired(net', net'.procs[k]) && net'.procs[k].conns != [];
      assert Expired(net, net.procs[k]);
    }
  }

  /** The process is due for removal, and has connections. */
  predicate DueBusy(net: Net, p: Proc) {
    Expired(net, p) && p.conns != []
  }

  lemma SameDue(net: Net, net': Net, p: Proc)
    requires net'.table == net.table && net'.now == net.now
    ensures DueBusy(net', p) == DueBusy(net, p)
  {
  }

  lemma RemoveKeepsBusyExpired(net: Net, i: nat)
    requires i < |net.procs| && net.procs[i].conns == []
    ensures BusyExpired(RemoveProc(net, i).net, i) <==> BusyExpired(net, i)
  {
    var net' := RemoveProc(net, i).net;
    RemovedProcAt(net, i);
    if BusyExpired(net, i) {
      var k: nat :| i <= k < |net.procs| && Expired(net, net.procs[k]) && net.procs[k].conns != [];
      SameDue(net, net', net.procs[k]);
      assert net'.procs[k - 1] == net.procs[k] && DueBusy(net', net'.procs[k - 1]);
    }
    if BusyExpired(net', i) {
      var k: nat :| i <= k < |net'.procs| && Expired(net', net'.procs[k]) && net'.procs[k].conns != [];
      SameDue(net, net', net'.procs[k]);
      assert net'.procs[k] == net.procs[k + 1] && DueBusy(net, net.procs[k + 1]);
    }
  }

  lemma RemovedProcAt(net: Net, i: nat)
    requires i < |net.procs|
    ensures var net' := RemoveProc(net, i).net;
            net'.procs == net.procs[..i] + net.procs[i + 1..] && net'.table == net.table && net'.now == net.now
  {
  }

  ghost predicate Orphan(net: Net, id: nat) {
    id in net.table && forall k: nat :: !Owns(net, k, id)
  }

  lemma TurnKeepsOrphan(net: Net, i: nat, id: nat)
    requires Orphan(net, id) && i < |net.procs|
    ensures Orphan(TurnNet(net, i), id)
  {
    var net' := TurnNet(net, i);
    if Expired(net, net.procs[i]) {
      RemoveOwns(net, i);
    } else {
      KeepFilters(net.table, net.procs[i].conns, net.now);
      assert !Owns(net, i, id);
      forall k: nat ensures !Owns(net', k, id) {
        assert !Owns(net, k, id);
      }
    }
  }

  lemma {:induction false} OrphansStay(net: Net, i: nat, id: nat)
    requires Orphan(net, id) && i <= |net.procs|
    ensures Orphan(UpdateFrom(net, i).net, id)
    decreases |net.procs| - i
  {
    if i < |net.procs| {
      TurnKeepsOrphan(net, i, id);
      UpdateTurns(net, i);
      OrphansStay(TurnNet(net, i), TurnIndex(net, i), id);
    }
  }

  /** A turn that removes no process with connections. */
  lemma TurnKeepsPartition(net: Net, i: nat)
    requires Partitioned(net) && i < |net.procs| && !(Expired(net, net.procs[i]) && net.procs[i].conns != [])
    ensures Partitioned(TurnNet(net, i)) && (BusyExpired(TurnNet(net, i), TurnIndex(net, i)) <==> BusyExpired(net, i))
  {
    if Expired(net, net.procs[i]) {
      RemoveEmptyKeepsPartition(net, i);
      RemoveKeepsBusyExpired(net, i);
    } else {
      RefreshKeepsPartition(net, i);
      RefreshKeepsBusyExpired(net, i);
      assert BusyExpired(net, i) <==> BusyExpired(net, i + 1);
    }
  }

  /** One that does makes orphans. */
  lemma TurnOrphans(net: Net, i: nat)
    requires Partitioned(net) && i < |net.procs| && Expired(net, net.procs[i]) && net.procs[i].conns != []
    ensures BusyExpired(net, i) && !Partitioned(UpdateFrom(net, i).net)
  {
    var id := net.procs[i].conns[0];
    assert Owns(net, i, id);
    RemoveBusyOrphans(net, i, id);
    assert Orphan(TurnNet(net, i), id);
    UpdateTurns(net, i);
    OrphansStay(TurnNet(net, i), TurnIndex(net, i), id);
  }

  lemma {:induction false} UpdateFromPartitionsIff(net: Net, i: nat)
    requires Partitioned(net) && i <= |net.procs|
    ensures Partitioned(UpdateFrom(net, i).net) <==> !BusyExpired(net, i)
    decreases |net.procs| - i
  {
    if i < |net.procs| {
      if Expired(net, net.procs[i]) && net.procs[i].conns != [] {
        TurnOrphans(net, i);
      } else {
        TurnKeepsPartition(net, i);
        UpdateTurns(net, i);
        UpdateFromPartitionsIff(TurnNet(net, i), TurnIndex(net, i));
      }
    }
  }

  /** Whatever the timing, an update keeps the partition exactly when no process with connections
      has been silent for PROCESSTIMEOUT seconds at that moment. */
  lemma UpdatePartitionsIff(net: Net)
    requires Partitioned(net)
    ensures Partitioned(Update(net).net) <==> !BusyExpired(net, 0)
  {
    UpdateFromPartitionsIff(net, 0);
  }
}
