/** What a listener can rely on: replaying the callback events rebuilds the records of the monitor,
    which after an update are those of the live processes. No timing is assumed here. */
module NetRecords {
  import opened Common
  import opened NetModel
  import opened NetOwnership
  import opened NetSystem

  // ---------------------------------------------------------------- the listener

  /** What a listener has that follows every event. */
  function Replay(events: seq<Event>): map<nat, Record> {
    if events == [] then map[]
    else
      var before := Replay(events[..|events| - 1]);
      match events[|events| - 1]
      case Set(r) => before[r.id := r]
      case Remove(r) => before - {r.id}
  }

  /** The highest record id seen. */
  function Highest(events: seq<Event>): nat {
    if events == [] then 0
    else
      var before := Highest(events[..|events| - 1]);
      var id := events[|events| - 1].data.id;
      if id > before then id else before
  }

  /** A fresh id, a change to a record the listener has, or the removal of one as the listener knows it. */
  predicate Allowed(before: seq<Event>, e: Event) {
    match e
    case Set(r) =>
      r.id == Highest(before) + 1 ||
      (r.id in Replay(before) && var s := Replay(before)[r.id]; r.name == s.name && r.pid == s.pid && r.device == s.device)
    case Remove(r) => r.id in Replay(before) && Replay(before)[r.id] == r
  }

  predicate Proper(events: seq<Event>) {
    events == [] || (Proper(events[..|events| - 1]) && Allowed(events[..|events| - 1], events[|events| - 1]))
  }

  /** The events about one record. */
  function About(events: seq<Event>, id: nat): seq<Event> {
    if events == [] then []
    else About(events[..|events| - 1], id) + if events[|events| - 1].data.id == id then [events[|events| - 1]] else []
  }

  lemma {:induction false} NothingAbout(events: seq<Event>, id: nat)
    requires id > Highest(events)
    ensures About(events, id) == [] && id !in Replay(events)
  {
    if events != [] {
      NothingAbout(events[..|events| - 1], id);
    }
  }

  /** One or more sets, then at most one removal, then nothing; the listener has the record from the
      first set on until its removal. */
  predicate Lifecycle(about: seq<Event>) {
    && (about != [] ==> about[0].Set?)
    && (forall i :: 0 <= i < |about| - 1 ==> about[i].Set?)
  }

  lemma {:induction false} ProperLifecycle(events: seq<Event>, id: nat)
    requires Proper(events)
    ensures Lifecycle(About(events, id))
    ensures id in Replay(events) <==> About(events, id) != [] && About(events, id)[|About(events, id)| - 1].Set?
  {
    if events != [] {
      var front, e := events[..|events| - 1], events[|events| - 1];
      ProperLifecycle(front, id);
      if e.data.id == id && id == Highest(front) + 1 {
        NothingAbout(front, id);
      }
    }
  }

  // ---------------------------------------------------------------- the monitor and the listener agree

  predicate HasProc(net: Net, id: nat) {
    exists k :: 0 <= k < |net.procs| && net.procs[k].id == id
  }

  /** Every record is that of a live process and shows its constant fields; record ids are unique. */
  ghost predicate RecordsKnown(net: Net) {
    && (forall id :: id in net.records ==> HasProc(net, id) && 0 < net.records[id].id <= net.lastRecord)
    && NumbersDiffer(net.records)
    && (forall k :: 0 <= k < |net.procs| && net.procs[k].id in net.records ==> Describes(net.records[net.procs[k].id], net.procs[k]))
  }

  predicate Describes(r: Record, p: Proc) {
    r.name == p.name && r.pid == p.pid && r.uid == p.uid && r.device == p.device
  }

  ghost predicate Mirrors(seen: map<nat, Record>, records: map<nat, Record>) {
    && (forall id :: id in records ==> records[id].id in seen && seen[records[id].id] == records[id])
    && (forall n :: n in seen ==> exists id :: id in records && records[id].id == n)
  }

  /** A listener that followed the events has the records. */
  ghost predicate Heard(records: map<nat, Record>, lastRecord: nat, events: seq<Event>) {
    Proper(events) && Highest(events) == lastRecord && Mirrors(Replay(events), records)
  }

  ghost predicate NumbersDiffer(records: map<nat, Record>) {
    forall a, b :: a in records && b in records && records[a].id == records[b].id ==> a == b
  }

  ghost predicate Agree(net: Net, events: seq<Event>) {
    IdsListed(net) && RecordsKnown(net) && Heard(net.records, net.lastRecord, events)
  }

  // ---------------------------------------------------------------- one process is removed

  lemma Snoc(events: seq<Event>, e: Event)
    ensures (events + [e])[..|events + [e]| - 1] == events && (events + [e])[|events + [e]| - 1] == e
  {
  }

  lemma RemovedProcs(net: Net, i: nat)
    requires IdsListed(net) && i < |net.procs|
    ensures var net' := RemoveProc(net, i).net;
            (forall id :: HasProc(net', id) <==> HasProc(net, id) && id != net.procs[i].id) &&
            (forall k :: 0 <= k < |net'.procs| ==> net'.procs[k] == net.procs[if k < i then k else k + 1])
  {
    var net' := RemoveProc(net, i).net;
    forall id | HasProc(net, id) && id != net.procs[i].id ensures HasProc(net', id) {
      var k :| 0 <= k < |net.procs| && net.procs[k].id == id;
      assert net'.procs[if k < i then k else k - 1].id == id;
    }
  }

  lemma MirrorsRemoved(seen: map<nat, Record>, records: map<nat, Record>, id: nat)
    requires Mirrors(seen, records) && id in records && NumbersDiffer(records)
    ensures Mirrors(seen - {records[id].id}, records - {id})
  {
    var records' := records - {id};
    forall n | n in seen - {records[id].id} ensures exists a :: a in records' && records'[a].id == n {
      var a :| a in records && records[a].id == n;
      assert a in records';
    }
  }

  lemma DifferWithout(records: map<nat, Record>, id: nat)
    requires NumbersDiffer(records)
    ensures NumbersDiffer(records - {id})
  {
  }

  lemma DifferWith(records: map<nat, Record>, lastRecord: nat, id: nat, r: Record)
    requires NumbersDiffer(records) && forall a :: a in records ==> records[a].id <= lastRecord
    requires if id in records then r.id == records[id].id else r.id == lastRecord + 1
    ensures NumbersDiffer(records[id := r])
  {
  }

  lemma RemoveKeepsKnown(net: Net, i: nat)
    requires IdsListed(net) && RecordsKnown(net) && i < |net.procs|
    ensures RecordsKnown(RemoveProc(net, i).net)
  {
    DifferWithout(net.records, net.procs[i].id);
    RemovedProcs(net, i);
  }

  lemma HeardRemoval(records: map<nat, Record>, lastRecord: nat, events: seq<Event>, id: nat)
    requires Heard(records, lastRecord, events) && NumbersDiffer(records) && id in records
    ensures Heard(records - {id}, lastRecord, events + [Remove(records[id])])
  {
    Snoc(events, Remove(records[id]));
    MirrorsRemoved(Replay(events), records, id);
    HighestListed(events, records[id].id);
  }

  lemma {:induction false} HighestListed(events: seq<Event>, n: nat)
    ensures n in Replay(events) ==> n <= Highest(events)
  {
    if events != [] {
      HighestListed(events[..|events| - 1], n);
    }
  }

  lemma RemoveAgrees(net: Net, i: nat, events: seq<Event>)
    requires Agree(net, events) && i < |net.procs| && net.procs[i].id != UNKNOWN
    ensures var u := RemoveProc(net, i); Agree(u.net, events + u.events)
  {
    var id := net.procs[i].id;
    RemoveKeepsIds(net, i);
    RemoveKeepsKnown(net, i);
    if id in net.records {
      HeardRemoval(net.records, net.lastRecord, events, id);
    } else {
      assert events + [] == events;
      assert net.records - {id} == net.records;
    }
  }

  // ---------------------------------------------------------------- one process is refreshed

  lemma RefreshedProcs(net: Net, i: nat)
    requires i < |net.procs|
    ensures var net' := RefreshProc(net, i).net;
            (forall id :: HasProc(net', id) <==> HasProc(net, id)) &&
            (forall k :: 0 <= k < |net.procs| ==> net'.procs[k].(conns := []) == net.procs[k].(conns := []))
  {
    var net' := RefreshProc(net, i).net;
    forall id | HasProc(net, id) ensures HasProc(net', id) {
      var k :| 0 <= k < |net.procs| && net.procs[k].id == id;
      assert net'.procs[k].id == id;
    }
    forall id | HasProc(net', id) ensures HasProc(net, id) {
      var k :| 0 <= k < |net'.procs| && net'.procs[k].id == id;
      assert net.procs[k].id == id;
    }
  }

  /** The record as it is stored. */
  lemma Stored(net: Net, i: nat) returns (r: Record)
    requires IdsListed(net) && RecordsKnown(net) && i < |net.procs|
    ensures var u := RefreshProc(net, i);
            var id := net.procs[i].id;
            && u.net.records == net.records[id := r] && Describes(r, net.procs[i])
            && (id in net.records ==> r.id == net.records[id].id && u.net.lastRecord == net.lastRecord)
            && (id !in net.records ==> r.id == net.lastRecord + 1 == u.net.lastRecord)
            && (u.events == [] ==> id in net.records && r == net.records[id])
            && (u.events != [] ==> u.events == [Set(r)])
  {
    r := RefreshProc(net, i).net.records[net.procs[i].id];
  }

  lemma MirrorsSet(seen: map<nat, Record>, records: map<nat, Record>, id: nat, r: Record)
    requires Mirrors(seen, records)
    requires forall a :: a in records ==> (records[a].id == r.id <==> a == id)
    requires id !in records ==> r.id !in seen
    ensures Mirrors(seen[r.id := r], records[id := r])
  {
    var records', seen' := records[id := r], seen[r.id := r];
    forall n | n in seen' ensures exists a :: a in records' && records'[a].id == n {
      if n == r.id {
        assert id in records';
      } else {
        var a :| a in records && records[a].id == n;
        assert a in records';
      }
    }
  }

  lemma RefreshDescribes(net: Net, i: nat, r: Record, k: nat)
    requires IdsListed(net) && RecordsKnown(net) && i < |net.procs| && Describes(r, net.procs[i]) && k < |net.procs|
    requires net.procs[k].id in net.records[net.procs[i].id := r]
    ensures Describes(net.records[net.procs[i].id := r][net.procs[k].id], net.procs[k])
  {
    if k != i {
      assert net.procs[k].id != net.procs[i].id;
    }
  }

  lemma RefreshKeepsKnown(net: Net, i: nat)
    requires IdsListed(net) && RecordsKnown(net) && i < |net.procs|
    ensures RecordsKnown(RefreshProc(net, i).net)
  {
    var net' := RefreshProc(net, i).net;
    var r := Stored(net, i);
    RefreshedProcs(net, i);
    DifferWith(net.records, net.lastRecord, net.procs[i].id, r);
    assert HasProc(net, net.procs[i].id);
    forall k | 0 <= k < |net'.procs| && net'.procs[k].id in net'.records
      ensures Describes(net'.records[net'.procs[k].id], net'.procs[k])
    {
      assert net'.procs[k].(conns := []) == net.procs[k].(conns := []);
      RefreshDescribes(net, i, r, k);
    }
  }

  lemma HeardSet(records: map<nat, Record>, lastRecord: nat, events: seq<Event>, id: nat, r: Record)
    requires Heard(records, lastRecord, events) && NumbersDiffer(records)
    requires forall a :: a in records ==> records[a].id <= lastRecord
    requires id in records ==> r.id == records[id].id && r.name == records[id].name && r.pid == records[id].pid && r.device == records[id].device
    requires id !in records ==> r.id == lastRecord + 1
    ensures Heard(records[id := r], if id in records then lastRecord else r.id, events + [Set(r)])
  {
    Snoc(events, Set(r));
    if id in records {
      HighestListed(events, r.id);
    } else {
      NothingAbout(events, r.id);
    }
    MirrorsSet(Replay(events), records, id, r);
  }

  /** A record is stored, and told unless it was known already. */
  lemma HeardStored(records: map<nat, Record>, lastRecord: nat, events: seq<Event>, id: nat, r: Record, told: seq<Event>)
    requires Heard(records, lastRecord, events) && NumbersDiffer(records)
    requires forall a :: a in records ==> records[a].id <= lastRecord
    requires id in records ==> r.id == records[id].id && r.name == records[id].name && r.pid == records[id].pid && r.device == records[id].device
    requires id !in records ==> r.id == lastRecord + 1
    requires told == [Set(r)] || (told == [] && id in records && r == records[id])
    ensures Heard(records[id := r], if id in records then lastRecord else r.id, events + told)
  {
    if told == [] {
      assert events + [] == events;
      assert records[id := r] == records;
    } else {
      HeardSet(records, lastRecord, events, id, r);
    }
  }

  lemma RefreshAgrees(net: Net, i: nat, events: seq<Event>)
    requires Agree(net, events) && i < |net.procs|
    ensures var u := RefreshProc(net, i); Agree(u.net, events + u.events)
  {
    var id := net.procs[i].id;
    var r := Stored(net, i);
    assert id in net.records ==> Describes(net.records[id], net.procs[i]);
    HeardStored(net.records, net.lastRecord, events, id, r, RefreshProc(net, i).events);
    RefreshKeepsIds(net, i);
    RefreshKeepsKnown(net, i);
  }

  // ---------------------------------------------------------------- the whole update

  ghost predicate RecordedUpTo(net: Net, i: nat) {
    i <= |net.procs| && forall k :: 0 <= k < i ==> net.procs[k].id in net.records
  }

  lemma RemoveKeepsRecorded(net: Net, i: nat)
    requires IdsListed(net) && RecordedUpTo(net, i) && i < |net.procs|
    ensures RecordedUpTo(RemoveProc(net, i).net, i)
  {
  }

  lemma RefreshRecords(net: Net, i: nat)
    requires RecordedUpTo(net, i) && i < |net.procs|
    ensures RecordedUpTo(RefreshProc(net, i).net, i + 1)
  {
  }

  lemma Joined(a: seq<Event>, b: seq<Event>, c: seq<Event>)
    ensures a + (b + c) == (a + b) + c
  {
  }

  lemma {:induction false} UpdateFromAgrees(net: Net, i: nat, events: seq<Event>)
    requires Agree(net, events) && RecordedUpTo(net, i)
    ensures var u := UpdateFrom(net, i); Agree(u.net, events + u.events) && RecordedUpTo(u.net, |u.net.procs|)
    decreases |net.procs| - i
  {
    if i == |net.procs| {
      assert events + [] == events;
    } else {
      var expired := Expired(net, net.procs[i]);
      var step := if expired then RemoveProc(net, i) else RefreshProc(net, i);
      var j := if expired then i else i + 1;
      if expired {
        RemoveAgrees(net, i, events);
        RemoveKeepsRecorded(net, i);
      } else {
        RefreshAgrees(net, i, events);
        RefreshRecords(net, i);
      }
      UpdateFromAgrees(step.net, j, events + step.events);
      Joined(events, step.events, UpdateFrom(step.net, j).events);
    }
  }

  // ---------------------------------------------------------------- packets and ticks

  lemma ExtendKeepsKnown(net: Net, i: nat, ids: seq<nat>, net': Net)
    requires RecordsKnown(net) && i < |net.procs|
    requires net'.procs == net.procs[i := net.procs[i].(conns := ids)] && net'.records == net.records &&
             net'.lastRecord == net.lastRecord
    ensures RecordsKnown(net')
  {
    forall k | 0 <= k < |net.procs| ensures net'.procs[k].id == net.procs[k].id && net'.procs[k].(conns := []) == net.procs[k].(conns := []) {
    }
    forall id | id in net'.records ensures HasProc(net', id) {
      assert HasProc(net, id);
      var k :| 0 <= k < |net.procs| && net.procs[k].id == id;
      assert net'.procs[k].id == id;
    }
    forall k | 0 <= k < |net'.procs| && net'.procs[k].id in net'.records
      ensures Describes(net'.records[net'.procs[k].id], net'.procs[k])
    {
      assert Describes(net.records[net.procs[k].id], net.procs[k]);
      assert net'.procs[k].(conns := []) == net.procs[k].(conns := []);
    }
  }

  lemma PrependKeepsKnown(net: Net, p: Proc, net': Net)
    requires IdsListed(net) && RecordsKnown(net) && p.id == net.next + 1
    requires net'.procs == [p] + net.procs && net'.records == net.records && net'.lastRecord == net.lastRecord
    ensures RecordsKnown(net')
  {
    forall id | id in net'.records ensures HasProc(net', id) {
      var k :| 0 <= k < |net.procs| && net.procs[k].id == id;
      assert net'.procs[k + 1].id == id;
    }
    forall k | 0 <= k < |net'.procs| && net'.procs[k].id in net'.records
      ensures Describes(net'.records[net'.procs[k].id], net'.procs[k])
    {
      assert HasProc(net, net'.procs[k].id);
      assert k > 0 && net'.procs[k] == net.procs[k - 1];
    }
  }

  lemma SameProcsAgree(net: Net, net': Net, events: seq<Event>)
    requires Agree(net, events) && net'.procs == net.procs && net'.records == net.records &&
             net'.lastRecord == net.lastRecord && IdsListed(net')
    ensures Agree(net', events)
  {
    forall id | HasProc(net, id) ensures HasProc(net', id) {
    }
  }

  lemma DispatchAgrees(net: Net, packet: Packet, lookup: Lookup, device: string, hash: string, events: seq<Event>)
    requires Agree(net, events)
    ensures Agree(Dispatch(net, packet, lookup, device, hash), events)
  {
    var p := Resolve(packet, net.local);
    var net' := Dispatch(net, packet, lookup, device, hash);
    DispatchKeepsIds(net, packet, lookup, device, hash);
    if FindConnection(net, p).Some? {
      SameProcsAgree(net, net', events);
    } else {
      AttachShape(net.procs, net.next + 1, net.next, lookup, device, hash);
      if i :| 0 <= i < |net.procs| && net'.procs == net.procs[i := net.procs[i].(conns := [net.next] + net.procs[i].conns)] {
        ExtendKeepsKnown(net, i, [net.next] + net.procs[i].conns, net');
      } else {
        PrependKeepsKnown(net, net'.procs[0], net');
      }
    }
  }

  lemma TickAgrees(net: Net, now: int, events: seq<Event>)
    requires Agree(net, events)
    ensures Agree(net.(now := now), events)
  {
  }

  // ---------------------------------------------------------------- every run

  lemma StepAgrees(s: Sys, step: Step)
    requires Agree(s.net, s.events)
    ensures Agree(Exec(s, step).net, Exec(s, step).events)
  {
    match step
    case Tick(now) => TickAgrees(s.net, now, s.events);
    case Arrive(packet, lookup, device, hash) => DispatchAgrees(s.net, packet, lookup, device, hash, s.events);
    case Refresh => UpdateFromAgrees(s.net, 0, s.events);
  }

  lemma {:induction false} EveryRunAgrees(local: seq<nat>, now: int, steps: seq<Step>)
    ensures var s := After(Start(local, now), steps); Agree(s.net, s.events)
  {
    if steps == [] {
      var net := Init(local, now);
      assert net.procs[0].id == UNKNOWN;
    } else {
      EveryRunAgrees(local, now, steps[..|steps| - 1]);
      StepAgrees(After(Start(local, now), steps[..|steps| - 1]), steps[|steps| - 1]);
    }
  }

  /** The events of any run, replayed, give exactly the records the monitor holds. */
  lemma ReplayRebuildsRecords(local: seq<nat>, now: int, steps: seq<Step>)
    ensures var s := After(Start(local, now), steps);
            Mirrors(Replay(s.events), s.net.records)
  {
    EveryRunAgrees(local, now, steps);
  }

  /** Each record id is set one or more times, then removed at most once, and never used again. */
  lemma RecordLifecycle(local: seq<nat>, now: int, steps: seq<Step>, id: nat)
    ensures var s := After(Start(local, now), steps);
            Lifecycle(About(s.events, id)) &&
            ((exists p :: p in s.net.records && s.net.records[p].id == id) <==>
             About(s.events, id) != [] && About(s.events, id)[|About(s.events, id)| - 1].Set?)
  {
    EveryRunAgrees(local, now, steps);
    var s := After(Start(local, now), steps);
    ProperLifecycle(s.events, id);
    assert id in Replay(s.events) <==> exists p :: p in s.net.records && s.net.records[p].id == id;
  }

  /** After an update the records are exactly those of the live processes, and the process of unknown
      traffic is one of them. */
  lemma {:induction false} UpdateRecordsLiveProcesses(local: seq<nat>, now: int, steps: seq<Step>)
    requires steps != [] && steps[|steps| - 1] == Refresh
    ensures var s := After(Start(local, now), steps);
            HasProc(s.net, UNKNOWN) && forall id :: id in s.net.records <==> HasProc(s.net, id)
  {
    var front := steps[..|steps| - 1];
    EveryRunAgrees(local, now, front);
    UpdateFromAgrees(After(Start(local, now), front).net, 0, After(Start(local, now), front).events);
  }
}
