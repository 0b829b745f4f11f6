/** What one update does, told from the state before it: which processes leave, which connections are deleted,
    and what the callback is told.  No timing is assumed. */
module NetExpiry {
  import opened Common
  import opened NetModel
  import opened NetOwnership
  import opened NetSystem
  import opened NetListing

  /** The process of unknown traffic stays, and every process with a packet in the last PROCESSTIMEOUT seconds;
      on a clock that is younger than that, all stay. */
  predicate Stays(net: Net, p: Proc) {
    p.id == UNKNOWN || net.now < PROCESSTIMEOUT ||
    exists id :: id in p.conns && id in net.table && net.table[id].last > net.now - PROCESSTIMEOUT
  }

  lemma StaysIff(net: Net, p: Proc)
    ensures Stays(net, p) <==> !Expired(net, p)
  {
    var last := LastPacket(net.table, p.conns);
    if id :| id in p.conns && id in net.table && net.table[id].last > net.now - PROCESSTIMEOUT {
      assert last >= net.table[id].last;
    }
  }

  /** The numbers of a record that listeners are told about. */
  predicate Differs(r: Record, s: Record) {
    !(r.uid == s.uid && r.sentBytes == s.sentBytes && r.recvBytes == s.recvBytes && r.sentRate == s.sentRate && r.recvRate == s.recvRate)
  }

  /** What is told of one process: the record it had, if it leaves; the one it has now, if that is new or its
      numbers have changed. */
  function ToldOf(net: Net, after: map<nat, Record>, p: Proc): seq<Event> {
    if !Stays(net, p) then (if p.id in net.records then [Remove(net.records[p.id])] else [])
    else if p.id in after && (p.id in net.records ==> Differs(after[p.id], net.records[p.id])) then [Set(after[p.id])]
    else []
  }

  function Told(net: Net, after: map<nat, Record>, procs: seq<Proc>): seq<Event> {
    if procs == [] then [] else ToldOf(net, after, procs[0]) + Told(net, after, procs[1..])
  }

  /** The processes that stay, in their order, each with its connections of the last CONNTIMEOUT seconds. */
  function Staying(net: Net, procs: seq<Proc>): seq<Proc> {
    if procs == [] then []
    else if Stays(net, procs[0]) then [procs[0].(conns := Keep(net.table, procs[0].conns, net.now))] + Staying(net, procs[1..])
    else Staying(net, procs[1..])
  }

  /** A connection that its process lets go: silent for CONNTIMEOUT seconds, and the process stays. */
  predicate LetGo(net: Net, procs: seq<Proc>, id: nat) {
    exists k :: 0 <= k < |procs| && Stays(net, procs[k]) && id in procs[k].conns && id in net.table && net.table[id].last <= net.now - CONNTIMEOUT
  }

  // ---------------------------------------------------------------- one turn

  /** For the update, the process is the same in both states. */
  ghost predicate SameFor(net: Net, net': Net, p: Proc) {
    && net'.now == net.now
    && (forall id :: id in p.conns ==> (id in net.table <==> id in net'.table) && (id in net.table ==> net.table[id] == net'.table[id]))
    && (p.id in net.records <==> p.id in net'.records) && (p.id in net.records ==> net.records[p.id] == net'.records[p.id])
  }

  lemma {:induction false} SameKeep(table: map<nat, Conn>, table': map<nat, Conn>, ids: seq<nat>, now: int)
    requires forall id :: id in ids ==> (id in table <==> id in table') && (id in table ==> table[id] == table'[id])
    ensures Keep(table, ids, now) == Keep(table', ids, now)
  {
    if ids != [] {
      SameKeep(table, table', ids[1..], now);
    }
  }

  lemma SameStays(net: Net, net': Net, p: Proc)
    requires SameFor(net, net', p)
    ensures Stays(net', p) == Stays(net, p)
  {
  }

  lemma {:induction false} SameUpdate(net: Net, net': Net, after: map<nat, Record>, procs: seq<Proc>)
    requires forall p :: p in procs ==> SameFor(net, net', p)
    ensures Staying(net', procs) == Staying(net, procs) && Told(net', after, procs) == Told(net, after, procs)
  {
    if procs != [] {
      assert SameFor(net, net', procs[0]);
      SameStays(net, net', procs[0]);
      SameKeep(net.table, net'.table, procs[0].conns, net.now);
      SameUpdate(net, net', after, procs[1..]);
    }
  }

  lemma SameLetGo(net: Net, net': Net, procs: seq<Proc>, id: nat)
    requires forall p :: p in procs ==> SameFor(net, net', p)
    ensures LetGo(net', procs, id) == LetGo(net, procs, id)
  {
    forall k | 0 <= k < |procs| ensures Stays(net', procs[k]) == Stays(net, procs[k]) && SameFor(net, net', procs[k]) {
      assert SameFor(net, net', procs[k]);
      SameStays(net, net', procs[k]);
    }
  }

  /** A turn of the update leaves the later processes as they are. */
  lemma TurnSameFor(net: Net, i: nat, k: nat)
    requires AllListed(net) && i < k < |net.procs|
    ensures SameFor(net, TurnNet(net, i), net.procs[k])
  {
    forall id | id in net.procs[k].conns ensures id !in net.procs[i].conns {
      assert Owns(net, k, id);
      assert id in net.procs[i].conns ==> Owns(net, i, id);
    }
    assert net.procs[i].id != net.procs[k].id;
  }

  lemma TurnRest(net: Net, i: nat)
    requires AllListed(net) && i < |net.procs|
    ensures var net', j := TurnNet(net, i), TurnIndex(net, i);
            && j <= |net'.procs| && net'.procs[j..] == net.procs[i + 1..]
            && net'.procs[..j] == net.procs[..i] + Staying(net, [net.procs[i]])
            && forall p :: p in net'.procs[j..] ==> SameFor(net, net', p)
  {
    var net', j := TurnNet(net, i), TurnIndex(net, i);
    StaysIff(net, net.procs[i]);
    assert [net.procs[i]][1..] == [];
    assert net'.procs[j..] == net.procs[i + 1..];
    forall p | p in net.procs[i + 1..] ensures SameFor(net, net', p) {
      var k :| i + 1 <= k < |net.procs| && net.procs[k] == p;
      TurnSameFor(net, i, k);
    }
  }

  lemma StayingCons(net: Net, procs: seq<Proc>, i: nat)
    requires i < |procs|
    ensures Staying(net, procs[i..]) == Staying(net, [procs[i]]) + Staying(net, procs[i + 1..])
  {
    assert procs[i..] == [procs[i]] + procs[i + 1..];
    assert procs[i..][1..] == procs[i + 1..] && [procs[i]][1..] == [];
  }

  // ---------------------------------------------------------------- the processes after an update

  /** What the turns behind one come to. */
  lemma JoinStaying(before: seq<Proc>, one: seq<Proc>, rest: seq<Proc>, front: seq<Proc>, all: seq<Proc>)
    requires front == before + one && all == one + rest
    ensures front + rest == before + all
  {
  }

  lemma {:induction false} UpdateFromStaying(net: Net, i: nat)
    requires AllListed(net) && i <= |net.procs|
    ensures UpdateFrom(net, i).net.procs == net.procs[..i] + Staying(net, net.procs[i..])
    decreases |net.procs| - i
  {
    if i < |net.procs| {
      var net', j := TurnNet(net, i), TurnIndex(net, i);
      TurnRest(net, i);
      TurnKeepsListed(net, i);
      UpdateTurns(net, i);
      UpdateFromStaying(net', j);
      SameUpdate(net, net', map[], net'.procs[j..]);
      StayingCons(net, net.procs, i);
      JoinStaying(net.procs[..i], Staying(net, [net.procs[i]]), Staying(net, net.procs[i + 1..]), net'.procs[..j], Staying(net, net.procs[i..]));
    } else {
      assert net.procs[..i] == net.procs && net.procs[i..] == [];
    }
  }

  /** An update removes exactly the processes that do not stay, keeps the others in their order, and only lets go
      of connections. */
  lemma UpdateLeavesStaying(net: Net)
    requires AllListed(net)
    ensures Update(net).net.procs == Staying(net, net.procs)
  {
    UpdateFromStaying(net, 0);
    FromTheFirst(net.procs, Staying(net, net.procs[0..]));
  }

  lemma FromTheFirst(procs: seq<Proc>, rest: seq<Proc>)
    ensures procs[0..] == procs && procs[..0] + rest == rest
  {
  }

  predicate HasId(procs: seq<Proc>, id: nat) {
    exists m :: 0 <= m < |procs| && procs[m].id == id
  }

  lemma HasIdCons(p: Proc, procs: seq<Proc>, id: nat)
    ensures HasId([p] + procs, id) <==> p.id == id || HasId(procs, id)
  {
    var all := [p] + procs;
    assert all[0] == p;
    if m :| 0 <= m < |procs| && procs[m].id == id {
      assert all[m + 1].id == id;
    }
    if m :| 0 <= m < |all| && all[m].id == id {
      assert m > 0 ==> procs[m - 1].id == id;
    }
  }

  lemma {:induction false} StayingAmong(net: Net, procs: seq<Proc>, id: nat)
    requires forall k :: 0 <= k < |procs| ==> procs[k].id != id
    ensures !HasId(Staying(net, procs), id)
  {
    if procs != [] {
      StayingAmong(net, procs[1..], id);
      HasIdCons(procs[0].(conns := Keep(net.table, procs[0].conns, net.now)), Staying(net, procs[1..]), id);
    }
  }

  lemma {:induction false} StayingHas(net: Net, procs: seq<Proc>, k: nat)
    requires k < |procs| && forall i, j :: 0 <= i < j < |procs| ==> procs[i].id != procs[j].id
    ensures HasId(Staying(net, procs), procs[k].id) <==> Stays(net, procs[k])
  {
    HasIdCons(procs[0].(conns := Keep(net.table, procs[0].conns, net.now)), Staying(net, procs[1..]), procs[k].id);
    if k == 0 {
      StayingAmong(net, procs[1..], procs[0].id);
    } else {
      StayingHas(net, procs[1..], k - 1);
    }
  }

  /** After every refresh of every run, a process is still listed exactly if it is that of unknown traffic, or one
      of its connections had a packet in the last PROCESSTIMEOUT seconds, or the clock is younger than that. */
  lemma ProcessStaysIff(local: seq<nat>, now: int, steps: seq<Step>, k: nat)
    requires k < |After(Start(local, now), steps).net.procs|
    ensures var net := After(Start(local, now), steps).net;
            var procs' := Update(net).net.procs;
            HasId(procs', net.procs[k].id) <==>
            net.procs[k].id == UNKNOWN || net.now < 150 ||
            exists id :: id in net.procs[k].conns && id in net.table && net.table[id].last > net.now - 150
  {
    var net := After(Start(local, now), steps).net;
    EveryRunIsListed(local, now, steps);
    UpdateLeavesStaying(net);
    StayingHas(net, net.procs, k);
  }

  // ---------------------------------------------------------------- the connections after an update

  lemma TurnDeletes(net: Net, i: nat, id: nat)
    requires i < |net.procs|
    ensures id in TurnNet(net, i).table <==> id in net.table && !LetGo(net, [net.procs[i]], id)
  {
    StaysIff(net, net.procs[i]);
    if Stays(net, net.procs[i]) && id in net.procs[i].conns && id in net.table && net.table[id].last <= net.now - CONNTIMEOUT {
      assert [net.procs[i]][0] == net.procs[i];
    }
  }

  lemma LetGoCons(net: Net, procs: seq<Proc>, i: nat, id: nat)
    requires i < |procs|
    ensures LetGo(net, procs[i..], id) <==> LetGo(net, [procs[i]], id) || LetGo(net, procs[i + 1..], id)
  {
    var all, rest := procs[i..], procs[i + 1..];
    if LetGo(net, [procs[i]], id) {
      assert all[0] == procs[i];
    }
    if k :| 0 <= k < |rest| && Stays(net, rest[k]) && id in rest[k].conns && id in net.table && net.table[id].last <= net.now - CONNTIMEOUT {
      assert all[k + 1] == rest[k];
    }
    if k :| 0 <= k < |all| && Stays(net, all[k]) && id in all[k].conns && id in net.table && net.table[id].last <= net.now - CONNTIMEOUT {
      assert if k == 0 then [procs[i]][0] == all[k] else rest[k - 1] == all[k];
    }
  }

  lemma {:induction false} UpdateFromDeletes(net: Net, i: nat, id: nat)
    requires AllListed(net) && i <= |net.procs|
    ensures id in UpdateFrom(net, i).net.table <==> id in net.table && !LetGo(net, net.procs[i..], id)
    decreases |net.procs| - i
  {
    if i < |net.procs| {
      var net', j := TurnNet(net, i), TurnIndex(net, i);
      TurnRest(net, i);
      TurnKeepsListed(net, i);
      UpdateTurns(net, i);
      UpdateFromDeletes(net', j, id);
      SameLetGo(net, net', net'.procs[j..], id);
      TurnDeletes(net, i, id);
      LetGoCons(net, net.procs, i, id);
    }
  }

  /** After every refresh of every run, a connection is gone exactly if it had no packet in the last CONNTIMEOUT
      seconds and is listed by a process that stays. */
  lemma ConnectionDeletedIff(local: seq<nat>, now: int, steps: seq<Step>, id: nat)
    requires id in After(Start(local, now), steps).net.table
    ensures var net := After(Start(local, now), steps).net;
            id !in Update(net).net.table <==>
            net.table[id].last <= net.now - 50 && exists k :: 0 <= k < |net.procs| && Stays(net, net.procs[k]) && id in net.procs[k].conns
  {
    var net := After(Start(local, now), steps).net;
    EveryRunIsListed(local, now, steps);
    UpdateFromDeletes(net, 0, id);
    assert net.procs[0..] == net.procs;
  }

  // ---------------------------------------------------------------- what is told

  lemma TurnTells(net: Net, i: nat, after: map<nat, Record>)
    requires i < |net.procs|
    requires var id := net.procs[i].id; var now := TurnNet(net, i).records; id in now ==> id in after && after[id] == now[id]
    ensures (if Expired(net, net.procs[i]) then RemoveProc(net, i) else RefreshProc(net, i)).events == ToldOf(net, after, net.procs[i])
  {
    StaysIff(net, net.procs[i]);
  }

  /** None of the processes from i on has the id. */
  predicate NoneHas(procs: seq<Proc>, i: nat, id: nat) {
    forall k :: i <= k < |procs| ==> procs[k].id != id
  }

  lemma TurnHasNone(net: Net, i: nat, id: nat)
    requires AllListed(net) && i < |net.procs| && NoneHas(net.procs, i + 1, id)
    ensures TurnIndex(net, i) <= |TurnNet(net, i).procs| && NoneHas(TurnNet(net, i).procs, TurnIndex(net, i), id)
  {
    var net', j := TurnNet(net, i), TurnIndex(net, i);
    TurnRest(net, i);
    forall k | j <= k < |net'.procs| ensures net'.procs[k].id != id {
      assert net'.procs[j..][k - j] == net.procs[i + 1..][k - j];
    }
  }

  lemma TurnKeepsRecord(net: Net, i: nat, id: nat)
    requires i < |net.procs| && net.procs[i].id != id && id in net.records
    ensures id in TurnNet(net, i).records && TurnNet(net, i).records[id] == net.records[id]
  {
  }

  /** The turns from i on leave the records of other processes alone. */
  lemma {:induction false} UpdateFromKeepsRecord(net: Net, i: nat, id: nat)
    requires AllListed(net) && i <= |net.procs| && id in net.records && NoneHas(net.procs, i, id)
    ensures id in UpdateFrom(net, i).net.records && UpdateFrom(net, i).net.records[id] == net.records[id]
    decreases |net.procs| - i
  {
    if i < |net.procs| {
      TurnHasNone(net, i, id);
      TurnKeepsRecord(net, i, id);
      TurnKeepsListed(net, i);
      UpdateTurns(net, i);
      UpdateFromKeepsRecord(TurnNet(net, i), TurnIndex(net, i), id);
    }
  }

  lemma UpdateFromEvents(net: Net, i: nat)
    requires i < |net.procs|
    ensures var turn := if Expired(net, net.procs[i]) then RemoveProc(net, i) else RefreshProc(net, i);
            turn.net == TurnNet(net, i) && TurnIndex(net, i) <= |turn.net.procs| &&
            UpdateFrom(net, i).events == turn.events + UpdateFrom(turn.net, TurnIndex(net, i)).events
  {
  }

  lemma TurnRecordStays(net: Net, i: nat)
    requires AllListed(net) && i < |net.procs|
    ensures var id, now := net.procs[i].id, TurnNet(net, i).records;
            var after := UpdateFrom(net, i).net.records;
            id in now ==> id in after && after[id] == now[id]
  {
    var id := net.procs[i].id;
    assert NoneHas(net.procs, i + 1, id);
    TurnHasNone(net, i, id);
    TurnKeepsListed(net, i);
    UpdateTurns(net, i);
    if id in TurnNet(net, i).records {
      UpdateFromKeepsRecord(TurnNet(net, i), TurnIndex(net, i), id);
    }
  }

  lemma {:induction false} UpdateFromTells(net: Net, i: nat)
    requires AllListed(net) && i <= |net.procs|
    ensures UpdateFrom(net, i).events == Told(net, UpdateFrom(net, i).net.records, net.procs[i..])
    decreases |net.procs| - i
  {
    if i < |net.procs| {
      var net', j := TurnNet(net, i), TurnIndex(net, i);
      var after := UpdateFrom(net, i).net.records;
      TurnRest(net, i);
      TurnKeepsListed(net, i);
      UpdateTurns(net, i);
      UpdateFromTells(net', j);
      SameUpdate(net, net', after, net'.procs[j..]);
      TurnRecordStays(net, i);
      TurnTells(net, i, after);
      UpdateFromEvents(net, i);
      assert net.procs[i..][0] == net.procs[i] && net.procs[i..][1..] == net.procs[i + 1..];
    }
  }

  /** After every refresh of every run, the callback has been told of each process in turn: one removal with its
      record if it leaves, its record if that is new or its numbers have changed, and else nothing. */
  lemma RefreshTells(local: seq<nat>, now: int, steps: seq<Step>)
    ensures var net := After(Start(local, now), steps).net;
            Update(net).events == Told(net, Update(net).net.records, net.procs)
  {
    var net := After(Start(local, now), steps).net;
    EveryRunIsListed(local, now, steps);
    UpdateFromTells(net, 0);
    assert net.procs[0..] == net.procs;
  }

  /** The records told as removed, in order. */
  function Removals(events: seq<Event>): seq<Record> {
    if events == [] then []
    else (if events[0].Remove? then [events[0].data] else []) + Removals(events[1..])
  }

  /** The records of the processes that leave, in order. */
  function GoneRecords(net: Net, procs: seq<Proc>): seq<Record> {
    if procs == [] then []
    else (if !Stays(net, procs[0]) && procs[0].id in net.records then [net.records[procs[0].id]] else []) + GoneRecords(net, procs[1..])
  }

  lemma RemovalsOfOne(net: Net, after: map<nat, Record>, p: Proc, rest: seq<Event>)
    ensures Removals(ToldOf(net, after, p) + rest) ==
            (if !Stays(net, p) && p.id in net.records then [net.records[p.id]] else []) + Removals(rest)
  {
    var one := ToldOf(net, after, p);
    if one != [] {
      assert one + rest == [one[0]] + rest && ([one[0]] + rest)[1..] == rest;
    } else {
      assert [] + rest == rest;
    }
  }

  lemma {:induction false} ToldRemovals(net: Net, after: map<nat, Record>, procs: seq<Proc>)
    ensures Removals(Told(net, after, procs)) == GoneRecords(net, procs)
  {
    if procs != [] {
      RemovalsOfOne(net, after, procs[0], Told(net, after, procs[1..]));
      ToldRemovals(net, after, procs[1..]);
    }
  }

  /** In every run, each refresh tells as removed the records of the processes that leave, each once. */
  lemma RemovedAreTold(local: seq<nat>, now: int, steps: seq<Step>)
    ensures var net := After(Start(local, now), steps).net;
            Removals(Update(net).events) == GoneRecords(net, net.procs)
  {
    var net := After(Start(local, now), steps).net;
    RefreshTells(local, now, steps);
    ToldRemovals(net, Update(net).net.records, net.procs);
  }
}
