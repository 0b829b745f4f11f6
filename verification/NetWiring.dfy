/** How the objects of the monitor and the values of the model belong together, on values: no memory is read
    here. */
module NetWiring {
  import opened Common
  import opened PackLists
  import opened NetModel
  import opened NetOwnership
  import opened NetWalk
  import opened NetPlans
  import opened NetConnections
  import opened ConnLists

  class Process {
    ghost const id: nat
    const pid: int
    const name: string
    const device: string
    const uid: nat
    const connections: ConnectionList

    ghost function Fixed(): Proc {
      Proc(id, pid, name, device, uid, [])
    }

    constructor (ghost id: nat, pid: int, name: string, device: string, uid: nat)
      ensures this.id == id && Fixed() == Proc(id, pid, name, device, uid, [])
      ensures fresh(connections) && connections.Valid() && connections.nodes == []
    {
      this.id, this.pid, this.name, this.device, this.uid := id, pid, name, device, uid;
      this.connections := new ConnectionList();
    }
  }

  /** What is in memory: the connections there ever were, what they hold, and what each list holds. */
  datatype Heap = Heap(conns: map<nat, Connection>, views: map<nat, Conn>, held: map<ConnectionList, seq<Connection>>)

  /** The objects at the ids of a list. */
  ghost predicate Listed(objs: map<nat, Connection>, ids: seq<nat>, list: seq<Connection>) {
    |list| == |ids| && forall j :: 0 <= j < |ids| ==> ids[j] in objs && list[j] == objs[ids[j]]
  }

  /** The object of a connection that was found, or null. */
  ghost predicate IsAt(objs: map<nat, Connection>, found: Option<nat>, c: Connection?) {
    if found.Some? then found.value in objs && c == objs[found.value] else c == null
  }

  /** A live connection of the model has an object, which holds its values. */
  ghost predicate ShownAt(conns: map<nat, Connection>, views: map<nat, Conn>, objs: map<nat, Connection>, table: map<nat, Conn>, id: nat) {
    && id in objs && id in conns && objs[id] == conns[id] && objs[id].id == id
    && id in table && id in views && table[id] == views[id]
  }

  ghost predicate Shown(conns: map<nat, Connection>, views: map<nat, Conn>, objs: map<nat, Connection>, table: map<nat, Conn>, next: nat) {
    && (forall id :: id in conns ==> id < next)
    && (forall id :: id in objs <==> id in table)
    && (forall id {:trigger ShownAt(conns, views, objs, table, id)} :: id in objs ==> ShownAt(conns, views, objs, table, id))
  }

  /** The list of a process is its own, and not the global one. */
  ghost predicate OwnListAt(processes: seq<Process>, global: ConnectionList, held: map<ConnectionList, seq<Connection>>, i: nat) {
    && i < |processes| && processes[i].connections in held && processes[i].connections != global
    && forall j :: 0 <= j < |processes| && j != i ==> processes[j].connections != processes[i].connections
  }

  ghost predicate OwnLists(processes: seq<Process>, global: ConnectionList, held: map<ConnectionList, seq<Connection>>) {
    && global in held
    && (forall i {:trigger OwnListAt(processes, global, held, i)} :: 0 <= i < |processes| ==> OwnListAt(processes, global, held, i))
  }

  /** A process and its list are those of the model. */
  ghost predicate WiredAt(objs: map<nat, Connection>, processes: seq<Process>, procs: seq<Proc>, held: map<ConnectionList, seq<Connection>>, i: nat) {
    && i < |processes| == |procs| && processes[i].Fixed() == procs[i].(conns := [])
    && processes[i].connections in held && Listed(objs, procs[i].conns, held[processes[i].connections])
  }

  ghost predicate Wired(objs: map<nat, Connection>, processes: seq<Process>, procs: seq<Proc>, held: map<ConnectionList, seq<Connection>>) {
    && |processes| == |procs|
    && (forall i {:trigger WiredAt(objs, processes, procs, held, i)} :: 0 <= i < |procs| ==> WiredAt(objs, processes, procs, held, i))
  }

  /** The objects make up the state of the model. */
  ghost predicate Fits(h: Heap, objs: map<nat, Connection>, processes: seq<Process>, global: ConnectionList, net: Net) {
    && Shown(h.conns, h.views, objs, net.table, net.next)
    && OwnLists(processes, global, h.held)
    && Listed(objs, net.global, h.held[global])
    && Wired(objs, processes, net.procs, h.held)
  }

  /** The map of records has those of the model, each at its process. */
  ghost predicate RecordsShown(recordMap: map<Process, Record>, processes: seq<Process>, records: map<nat, Record>) {
    && (forall p :: p in recordMap ==> p in processes && p.id in records && recordMap[p] == records[p.id])
    && (forall p {:trigger p in recordMap} :: p in processes && p.id in records ==> p in recordMap)
  }

  /** What a packet of no known connection does to the model. */
  lemma NewIsDispatch(net: Net, packet: Packet, lookup: Lookup, device: string, hash: string, net': Net)
    requires var p := Resolve(packet, net.local);
             FindConnection(net, p) == None && net' == Registered(net, p).(procs := net'.procs)
    requires net'.procs == Attach(net.procs, net.next + 1, net.next, lookup, device, hash)
    ensures net' == Dispatch(net, packet, lookup, device, hash)
  {
  }

  /** The connection at position j is taken out of the list of process i. */
  ghost function Shortened(net: Net, i: nat, j: nat): Net
    requires i < |net.procs| && j < |net.procs[i].conns|
  {
    var conns := net.procs[i].conns;
    net.(procs := net.procs[i := net.procs[i].(conns := conns[..j] + conns[j + 1..])])
  }

  /** If no other process has it, no process has it then. */
  lemma ShortenedIsFree(net: Net, i: nat, j: nat)
    requires i < |net.procs| && j < |net.procs[i].conns| && Exclusive(net.procs, i, j)
    ensures var net', id := Shortened(net, i, j), net.procs[i].conns[j];
            && (forall k :: 0 <= k < |net'.procs| ==> id !in net'.procs[k].conns)
            && Dropped(net, i, j) == net'.(table := net'.table - {id}, global := RemoveAll(net'.global, id))
  {
  }

  function Without<T>(s: seq<T>, i: nat): seq<T>
    requires i < |s|
  {
    s[..i] + s[i + 1..]
  }

  lemma FitsInit(h: Heap, unknown: Process, global: ConnectionList, local: seq<nat>, now: int)
    requires h.conns == map[] && global in h.held && unknown.connections in h.held && unknown.connections != global
    requires h.held[global] == [] && h.held[unknown.connections] == [] && unknown.Fixed() == Proc(UNKNOWN, 0, "unknown TCP", "", 0, [])
    ensures Fits(h, map[], [unknown], global, Init(local, now))
  {
  }

  // ---------------------------------------------------------------- changes to a connection

  /** One connection holds something else. */
  lemma FitsChanged(h: Heap, objs: map<nat, Connection>, processes: seq<Process>, global: ConnectionList, net: Net, id: nat, c: Conn, net': Net)
    requires Fits(h, objs, processes, global, net) && id in net.table
    requires net'.table == net.table[id := c] && net'.global == net.global && net'.procs == net.procs && net'.next == net.next
    ensures Fits(h.(views := h.views[id := c]), objs, processes, global, net')
  {
    forall x | x in objs ensures ShownAt(h.conns, h.views[id := c], objs, net'.table, x) {
      assert ShownAt(h.conns, h.views, objs, net.table, x);
    }
  }

  lemma FitsSame(h: Heap, objs: map<nat, Connection>, processes: seq<Process>, global: ConnectionList, net: Net, net': Net)
    requires Fits(h, objs, processes, global, net)
    requires net'.table == net.table && net'.global == net.global && net'.procs == net.procs && net'.next == net.next
    ensures Fits(h, objs, processes, global, net')
  {
  }

  lemma NewWired(objs: map<nat, Connection>, processes: seq<Process>, procs: seq<Proc>,
                 held: map<ConnectionList, seq<Connection>>, id: nat, c: Connection)
    requires Wired(objs, processes, procs, held) && id !in objs
    ensures Wired(objs[id := c], processes, procs, held)
  {
    var objs' := objs[id := c];
    forall i | 0 <= i < |procs| ensures WiredAt(objs', processes, procs, held, i) {
      assert WiredAt(objs, processes, procs, held, i);
    }
  }

  lemma OtherListWired(objs: map<nat, Connection>, processes: seq<Process>, procs: seq<Proc>, held: map<ConnectionList, seq<Connection>>,
                       global: ConnectionList, list: seq<Connection>)
    requires Wired(objs, processes, procs, held) && OwnLists(processes, global, held)
    ensures Wired(objs, processes, procs, held[global := list]) && OwnLists(processes, global, held[global := list])
  {
    var held' := held[global := list];
    forall i | 0 <= i < |procs| ensures WiredAt(objs, processes, procs, held', i) {
      assert WiredAt(objs, processes, procs, held, i);
      assert OwnListAt(processes, global, held, i);
    }
    forall i | 0 <= i < |processes| ensures OwnListAt(processes, global, held', i) {
      assert OwnListAt(processes, global, held, i);
    }
  }

  lemma NewShown(conns: map<nat, Connection>, views: map<nat, Conn>, objs: map<nat, Connection>,
                 table: map<nat, Conn>, next: nat, c: Connection, v: Conn)
    requires Shown(conns, views, objs, table, next) && c.id == next
    ensures next !in objs && next !in conns
    ensures Shown(conns[next := c], views[next := v], objs[next := c], table[next := v], next + 2)
  {
    assert next in objs ==> ShownAt(conns, views, objs, table, next);
    var conns', views', objs', table' := conns[next := c], views[next := v], objs[next := c], table[next := v];
    forall x | x in objs' ensures ShownAt(conns', views', objs', table', x) {
      assert x != next ==> ShownAt(conns, views, objs, table, x);
    }
  }

  /** A new connection is in the global list. */
  lemma FitsRegistered(h: Heap, objs: map<nat, Connection>, processes: seq<Process>, global: ConnectionList, net: Net, c: Connection, p: Packet)
    requires Fits(h, objs, processes, global, net) && c.id == net.next
    ensures net.next !in h.conns
    ensures var id := net.next;
            var h' := Heap(h.conns[id := c], h.views[id := NewConn(p)], h.held[global := [c] + h.held[global]]);
            Fits(h', objs[id := c], processes, global, Registered(net, p))
  {
    var id := net.next;
    NewShown(h.conns, h.views, objs, net.table, id, c, NewConn(p));
    NewWired(objs, processes, net.procs, h.held, id, c);
    OtherListWired(objs[id := c], processes, net.procs, h.held, global, [c] + h.held[global]);
    assert Listed(objs[id := c], net.global, h.held[global]);
  }

  // ---------------------------------------------------------------- changes to the lists of processes

  lemma ListWired(objs: map<nat, Connection>, processes: seq<Process>, global: ConnectionList, procs: seq<Proc>,
                  held: map<ConnectionList, seq<Connection>>,
                  i: nat, list: seq<Connection>, ids: seq<nat>)
    requires Wired(objs, processes, procs, held) && OwnLists(processes, global, held) && i < |processes| && Listed(objs, ids, list)
    ensures var held' := held[processes[i].connections := list];
            Wired(objs, processes, procs[i := procs[i].(conns := ids)], held') && OwnLists(processes, global, held')
  {
    var held', procs' := held[processes[i].connections := list], procs[i := procs[i].(conns := ids)];
    assert OwnListAt(processes, global, held, i);
    forall k | 0 <= k < |procs'| ensures WiredAt(objs, processes, procs', held', k) && OwnListAt(processes, global, held', k) {
      assert WiredAt(objs, processes, procs, held, k) && OwnListAt(processes, global, held, k);
    }
  }

  /** The list of one process holds something else. */
  lemma FitsListed(h: Heap, objs: map<nat, Connection>, processes: seq<Process>, global: ConnectionList, net: Net,
                   i: nat, list: seq<Connection>, ids: seq<nat>)
    requires Fits(h, objs, processes, global, net) && i < |processes| && Listed(objs, ids, list)
    ensures Fits(h.(held := h.held[processes[i].connections := list]), objs, processes, global,
                 net.(procs := net.procs[i := net.procs[i].(conns := ids)]))
  {
    ListWired(objs, processes, global, net.procs, h.held, i, list, ids);
    assert OwnListAt(processes, global, h.held, i);
  }

  /** A new process holds one connection. */
  lemma FitsAttached(h: Heap, objs: map<nat, Connection>, processes: seq<Process>, global: ConnectionList, net: Net, proc: Process, id: nat)
    requires Fits(h, objs, processes, global, net) && id in objs && proc.connections !in h.held
    ensures Fits(h.(held := h.held[proc.connections := [objs[id]]]), objs, [proc] + processes, global,
                 net.(procs := [proc.Fixed().(conns := [id])] + net.procs))
  {
    MoreLists(processes, global, h.held, proc, [objs[id]]);
    MoreWired(objs, processes, net.procs, h.held, proc, id);
  }

  lemma MoreLists(processes: seq<Process>, global: ConnectionList, held: map<ConnectionList, seq<Connection>>, proc: Process, list: seq<Connection>)
    requires OwnLists(processes, global, held) && proc.connections !in held
    ensures OwnLists([proc] + processes, global, held[proc.connections := list])
  {
    var processes', held' := [proc] + processes, held[proc.connections := list];
    forall i | 0 <= i < |processes'| ensures OwnListAt(processes', global, held', i) {
      forall j | 0 <= j < |processes'| && j != i ensures processes'[j].connections != processes'[i].connections {
        assert i > 0 ==> OwnListAt(processes, global, held, i - 1) && processes'[i] == processes[i - 1];
        assert j > 0 ==> OwnListAt(processes, global, held, j - 1) && processes'[j] == processes[j - 1];
      }
      assert i > 0 ==> OwnListAt(processes, global, held, i - 1) && processes'[i] == processes[i - 1];
    }
  }

  lemma MoreWired(objs: map<nat, Connection>, processes: seq<Process>, procs: seq<Proc>,
                  held: map<ConnectionList, seq<Connection>>, proc: Process, id: nat)
    requires Wired(objs, processes, procs, held) && id in objs && proc.connections !in held
    ensures Wired(objs, [proc] + processes, [proc.Fixed().(conns := [id])] + procs, held[proc.connections := [objs[id]]])
  {
    var held' := held[proc.connections := [objs[id]]];
    var processes', procs' := [proc] + processes, [proc.Fixed().(conns := [id])] + procs;
    forall i | 0 <= i < |procs'| ensures WiredAt(objs, processes', procs', held', i) {
      if i > 0 {
        assert WiredAt(objs, processes, procs, held, i - 1) && processes'[i] == processes[i - 1] && procs'[i] == procs[i - 1];
      }
    }
  }

  // ---------------------------------------------------------------- deletions

  lemma {:induction false} DroppedListed(objs: map<nat, Connection>, ids: seq<nat>, list: seq<Connection>, id: nat)
    requires Listed(objs, ids, list) && id in objs && forall x :: x in objs ==> objs[x].id == x
    ensures Listed(objs - {id}, RemoveAll(ids, id), RemoveAll(list, objs[id]))
  {
    if ids != [] {
      assert Listed(objs, ids[1..], list[1..]);
      DroppedListed(objs, ids[1..], list[1..], id);
      assert list[0] == objs[id] <==> ids[0] == id;
    }
  }

  lemma WithoutWired(objs: map<nat, Connection>, processes: seq<Process>, procs: seq<Proc>, held: map<ConnectionList, seq<Connection>>, id: nat)
    requires Wired(objs, processes, procs, held) && forall k :: 0 <= k < |procs| ==> id !in procs[k].conns
    ensures Wired(objs - {id}, processes, procs, held)
  {
    var objs' := objs - {id};
    forall i | 0 <= i < |procs| ensures WiredAt(objs', processes, procs, held, i) {
      assert WiredAt(objs, processes, procs, held, i);
    }
  }

  lemma WithoutShown(conns: map<nat, Connection>, views: map<nat, Conn>, objs: map<nat, Connection>, table: map<nat, Conn>, next: nat, id: nat)
    requires Shown(conns, views, objs, table, next)
    ensures Shown(conns, views, objs - {id}, table - {id}, next)
    ensures forall x :: x in objs ==> objs[x].id == x
  {
    forall x | x in objs ensures ShownAt(conns, views, objs, table, x) {
    }
  }

  /** A connection no process lists any more is gone. */
  lemma FitsDestroyed(h: Heap, objs: map<nat, Connection>, processes: seq<Process>, global: ConnectionList, net: Net, id: nat)
    requires Fits(h, objs, processes, global, net) && id in objs && forall k :: 0 <= k < |net.procs| ==> id !in net.procs[k].conns
    ensures Fits(h.(held := h.held[global := RemoveAll(h.held[global], objs[id])]), objs - {id}, processes, global,
                 net.(table := net.table - {id}, global := RemoveAll(net.global, id)))
  {
    WithoutShown(h.conns, h.views, objs, net.table, net.next, id);
    DroppedListed(objs, net.global, h.held[global], id);
    WithoutWired(objs, processes, net.procs, h.held, id);
    OtherListWired(objs - {id}, processes, net.procs, h.held, global, RemoveAll(h.held[global], objs[id]));
  }

  lemma FewerLists(processes: seq<Process>, global: ConnectionList, held: map<ConnectionList, seq<Connection>>, i: nat)
    requires OwnLists(processes, global, held) && i < |processes|
    ensures OwnLists(Without(processes, i), global, held)
  {
    var processes' := Without(processes, i);
    forall k | 0 <= k < |processes'| ensures OwnListAt(processes', global, held, k) {
      assert OwnListAt(processes, global, held, if k < i then k else k + 1);
    }
  }

  lemma FewerWired(objs: map<nat, Connection>, processes: seq<Process>, procs: seq<Proc>, held: map<ConnectionList, seq<Connection>>, i: nat)
    requires Wired(objs, processes, procs, held) && i < |processes|
    ensures Wired(objs, Without(processes, i), Without(procs, i), held)
  {
    var processes', procs' := Without(processes, i), Without(procs, i);
    forall k | 0 <= k < |procs'| ensures WiredAt(objs, processes', procs', held, k) {
      var m := if k < i then k else k + 1;
      assert WiredAt(objs, processes, procs, held, m) && processes'[k] == processes[m] && procs'[k] == procs[m];
    }
  }

  lemma FitsRemoved(h: Heap, objs: map<nat, Connection>, processes: seq<Process>, global: ConnectionList, net: Net, i: nat)
    requires Fits(h, objs, processes, global, net) && i < |processes|
    ensures Fits(h, objs, Without(processes, i), global, net.(procs := Without(net.procs, i)))
  {
    FewerLists(processes, global, h.held, i);
    FewerWired(objs, processes, net.procs, h.held, i);
  }

  // ---------------------------------------------------------------- processes and their records

  lemma ProcessesDiffer(objs: map<nat, Connection>, processes: seq<Process>, procs: seq<Proc>, held: map<ConnectionList, seq<Connection>>)
    requires Wired(objs, processes, procs, held) && DistinctProcs(procs)
    ensures forall a, b :: 0 <= a < b < |processes| ==> processes[a].id != processes[b].id
    ensures forall a :: 0 <= a < |processes| ==> processes[a].id == procs[a].id
  {
    forall i | 0 <= i < |processes| ensures processes[i].id == procs[i].id {
      assert WiredAt(objs, processes, procs, held, i) && processes[i].Fixed().id == procs[i].id;
    }
  }

  lemma IsUnknown(objs: map<nat, Connection>, processes: seq<Process>, procs: seq<Proc>,
                  held: map<ConnectionList, seq<Connection>>, unknown: Process, i: nat)
    requires Wired(objs, processes, procs, held) && DistinctProcs(procs) && unknown in processes &&
             unknown.id == UNKNOWN && i < |processes|
    ensures processes[i] == unknown <==> procs[i].id == UNKNOWN
  {
    ProcessesDiffer(objs, processes, procs, held);
    var k :| 0 <= k < |processes| && processes[k] == unknown;
  }

  lemma RecordErased(recordMap: map<Process, Record>, processes: seq<Process>, records: map<nat, Record>, i: nat)
    requires RecordsShown(recordMap, processes, records) && i < |processes|
    requires forall a, b :: 0 <= a < b < |processes| ==> processes[a].id != processes[b].id
    ensures RecordsShown(recordMap - {processes[i]}, processes, records - {processes[i].id})
    ensures processes[i] !in recordMap ==> recordMap - {processes[i]} == recordMap
  {
  }

  lemma StaysIn(processes: seq<Process>, i: nat, p: Process)
    requires i < |processes| && p in processes && p != processes[i]
    ensures p in Without(processes, i)
  {
    var k :| 0 <= k < |processes| && processes[k] == p;
    assert Without(processes, i)[if k < i then k else k - 1] == p;
  }

  lemma RecordsLeft(recordMap: map<Process, Record>, processes: seq<Process>, records: map<nat, Record>, i: nat)
    requires RecordsShown(recordMap, processes, records) && i < |processes| && processes[i].id !in records
    ensures RecordsShown(recordMap, Without(processes, i), records)
  {
  }

  lemma RecordOf(recordMap: map<Process, Record>, processes: seq<Process>, records: map<nat, Record>, i: nat)
    requires RecordsShown(recordMap, processes, records) && i < |processes|
    ensures processes[i] in recordMap <==> processes[i].id in records
    ensures processes[i] in recordMap ==> recordMap[processes[i]] == records[processes[i].id]
  {
  }

  lemma RecordSet(recordMap: map<Process, Record>, processes: seq<Process>, records: map<nat, Record>, i: nat, r: Record)
    requires RecordsShown(recordMap, processes, records) && i < |processes|
    requires forall a, b :: 0 <= a < b < |processes| ==> processes[a].id != processes[b].id
    ensures RecordsShown(recordMap[processes[i] := r], processes, records[processes[i].id := r])
  {
  }

  lemma MoreProcesses(recordMap: map<Process, Record>, processes: seq<Process>, records: map<nat, Record>, proc: Process)
    requires RecordsShown(recordMap, processes, records) && proc.id !in records
    ensures RecordsShown(recordMap, [proc] + processes, records)
  {
  }
}
