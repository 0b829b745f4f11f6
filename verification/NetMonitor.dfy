/** The monitor as the program has it: connections with their packet lists, each in two linked lists at once,
    processes, and the map of records.  Each operation is proved to do in memory what the model does on
    values. */
module NetMonitor {
  import opened Common
  import opened PackLists
  import opened NetModel
  import opened NetOwnership
  import opened NetSystem
  import opened NetListing
  import opened NetRecords
  import opened NetWalk
  import opened NetPlans
  import opened NetConnections
  import opened ConnLists
  import opened NetMemory
  import opened NetWiring

  class Monitor {
    const local: seq<nat>
    const unknowntcp: Process
    const connections: ConnectionList
    var curtime: int
    var processes: seq<Process>
    var recordMap: map<Process, Record>
    var recordId: nat
    const memory: ConnectionMemory
    const chains: ListMemory
    ghost var net: Net                    // the state of the model
    ghost var objs: map<nat, Connection>  // the object of each live connection

    /** What is in memory. */
    ghost function Contents(): Heap
      reads memory, chains
    {
      Heap(memory.conns, memory.views, chains.held)
    }

    /** It is the state of the model. */
    ghost predicate Matches()
      reads this, memory, chains
    {
      && net.local == local && net.now == curtime && net.lastRecord == recordId
      && unknowntcp in processes && unknowntcp.id == UNKNOWN
      && Fits(Contents(), objs, processes, connections, net)
    }

    /** The map of records is that of the model. */
    ghost predicate Recorded()
      reads this
    {
      RecordsShown(recordMap, processes, net.records)
    }

    /** Lists, connections and packet lists are in order. */
    ghost predicate InOrder()
      reads memory, memory.pool, memory.packets, memory.packets.packs, memory.packets.links, chains, chains.lists, chains.cells
    {
      memory.Valid() && memory.packets.Valid() && chains.Valid()
    }

    ghost predicate Valid()
      reads this, memory, memory.pool, memory.packets, memory.packets.packs, memory.packets.links, chains, chains.lists, chains.cells
    {
      Matches() && Recorded() && InOrder()
    }

    /** Everything the monitor may change. */
    ghost function Footprint(): set<object>
      reads this, memory, memory.packets, chains
    {
      {this, memory, memory.packets, chains} + memory.pool + memory.packets.packs + memory.packets.links + chains.lists + chains.cells
    }

    constructor (local: seq<nat>, now: int)
      ensures Valid() && net == Init(local, now) && fresh(memory) && fresh(memory.packets) && fresh(chains)
      ensures memory.pool == {} && memory.packets.packs == {} && memory.packets.links == {} && chains.cells == {} &&
              fresh(chains.lists)
    {
      this.local, this.curtime, this.recordMap, this.recordId := local, now, map[], 0;
      var unknown := new Process(UNKNOWN, 0, "unknown TCP", "", 0);
      var global := new ConnectionList();
      this.chains := new ListMemory.WithTwo(unknown.connections, global);
      this.memory := new ConnectionMemory();
      this.unknowntcp, this.connections := unknown, global;
      this.processes := [unknown];
      this.net, this.objs := Init(local, now), map[];
      new;
      FitsInit(Contents(), unknown, global, local, now);
      assert processes[0] == unknown && unknown.Fixed().id == UNKNOWN;
    }

    // -------------------------------------------------------------- what is done in memory, while the rest stays in order

    method CountPacket(c: Connection, packet: Packet)
      requires InOrder() && c.id in memory.conns && c == memory.conns[c.id] && packet.dir != Unknown
      modifies memory`views, memory.packets, c, c.sentPackets, c.recvPackets, memory.packets.links
      ensures InOrder() && c.id in old(memory.views) && memory.packets.packs == old(memory.packets.packs)
      ensures memory.views == old(memory.views)[c.id := AddTo(old(memory.views)[c.id], packet)]
      ensures (forall n :: n in memory.packets.links ==> n in old(memory.packets.links) || fresh(n))
    {
      memory.CountPacket(c, packet);
    }

    method SumPackets(c: Connection, now: int) returns (recv: nat, sent: nat)
      requires InOrder() && c.id in memory.conns && c == memory.conns[c.id]
      modifies memory`views, c.sentPackets, c.recvPackets, memory.packets.links
      ensures InOrder() && c.id in old(memory.views) && memory.views == old(memory.views)[c.id := Trim(old(memory.views)[c.id], now)]
      ensures recv == RecentSum(old(memory.views)[c.id].recv, now - PERIOD) &&
              sent == RecentSum(old(memory.views)[c.id].sent, now - PERIOD)
    {
      recv, sent := memory.SumAndDel(c, now);
    }

    method NewConnection(packet: Packet, ghost id: nat) returns (c: Connection)
      requires InOrder() && packet.dir != Unknown && id !in memory.conns
      modifies memory, memory.packets
      ensures InOrder() && c.id == id && memory.conns == old(memory.conns)[id := c] &&
              memory.views == old(memory.views)[id := NewConn(packet)]
      ensures (forall o :: o in memory.pool ==> o in old(memory.pool) || fresh(o)) &&
              (forall l :: l in memory.packets.packs ==> l in old(memory.packets.packs) || fresh(l))
      ensures (forall n :: n in memory.packets.links ==> n in old(memory.packets.links) || fresh(n))
    {
      c := memory.NewConnection(packet, id);
    }

    method NewProcess(ghost id: nat, pid: int, name: string, device: string, uid: nat) returns (proc: Process)
      requires InOrder()
      modifies chains
      ensures InOrder() && fresh(proc) && proc.id == id && proc.Fixed() == Proc(id, pid, name, device, uid, [])
      ensures fresh(proc.connections) && proc.connections !in old(chains.held) &&
              chains.lists == old(chains.lists) + {proc.connections} && chains.cells == old(chains.cells) &&
              chains.held == old(chains.held)[proc.connections := []]
    {
      proc := new Process(id, pid, name, device, uid);
      chains.Enter(proc.connections);
    }

    method PrependTo(l: ConnectionList, c: Connection)
      requires InOrder() && l in chains.held
      modifies chains, l
      ensures InOrder() && chains.held == old(chains.held)[l := [c] + old(chains.held)[l]] &&
              (forall n :: n in chains.cells ==> n in old(chains.cells) || fresh(n))
      ensures chains.lists == old(chains.lists)
    {
      chains.Prepend(l, c);
    }

    method UnlinkFrom(l: ConnectionList, previous: ConnList?, todelete: ConnList, curconn: ConnList?, ghost k: nat)
      requires InOrder() && l in chains.held && l.Between(previous, todelete, k) && curconn == todelete.next
      modifies chains, l, chains.cells
      ensures InOrder() && k < |old(chains.held)[l]|
      ensures chains.held == old(chains.held)[l := old(chains.held)[l][..k] + old(chains.held)[l][k + 1..]]
      ensures l.Between(previous, curconn, k) && chains.cells == old(chains.cells) && chains.lists == old(chains.lists)
    {
      chains.Unlink(l, previous, todelete, curconn, k);
    }

    method RemoveFrom(l: ConnectionList, c: Connection)
      requires InOrder() && l in chains.held
      modifies chains, l, chains.cells
      ensures InOrder() && chains.held == old(chains.held)[l := RemoveAll(old(chains.held)[l], c)] &&
              chains.cells == old(chains.cells) && chains.lists == old(chains.lists)
      ensures forall k :: k in chains.held && k != l ==> k.nodes == old(k.nodes)
    {
      chains.RemoveConnection(l, c);
    }

    /** The monitor goes on with another state of the model, which memory already matches. */
    method Adopt(now: int, ghost net': Net, ghost objs': map<nat, Connection>)
      requires InOrder() && Recorded() && Fits(Contents(), objs', processes, connections, net')
      requires net'.local == local && net'.now == now && net'.lastRecord == recordId && net'.records == net.records
      requires unknowntcp in processes && unknowntcp.id == UNKNOWN
      modifies `curtime, `net, `objs
      ensures Valid() && curtime == now && net == net' && objs == objs'
    {
      ghost var h := Contents();
      curtime := now;
      net, objs := net', objs';
      assert Contents() == h;
    }

    // -------------------------------------------------------------- finding

    lemma Known(id: nat)
      requires Matches() && id in objs
      ensures id in net.table && id in memory.conns && objs[id] == memory.conns[id] && objs[id].id == id
      ensures id in memory.views && memory.views[id] == net.table[id]
    {
      assert ShownAt(memory.conns, memory.views, objs, net.table, id);
    }

    /** The connection at a link of the global list. */
    lemma AtLink(i: nat)
      requires Matches() && InOrder() && i < |connections.nodes|
      ensures connections.nodes[i] == connections.At(i) && connections.nodes[i].next == connections.At(i + 1)
      ensures i < |net.global| == |connections.nodes| && net.global[i] in net.table && net.global[i] in objs
      ensures connections.nodes[i].val == objs[net.global[i]] && objs[net.global[i]].View() == net.table[net.global[i]]
    {
      chains.Entered(connections);
      connections.Link(i);
      Known(net.global[i]);
      memory.Entered(net.global[i]);
    }

    lemma GlobalEnds(i: nat)
      requires Matches() && chains.Valid()
      ensures connections.first == connections.At(0) && (connections.At(i) == null <==> i >= |net.global|)
    {
      chains.Entered(connections);
      connections.Begin();
    }

    method FindConnectionWithMatchingSource(packet: Packet) returns (c: Connection?)
      requires Valid()
      ensures Valid()
      ensures IsAt(objs, FirstSource(net.table, net.global, packet), c)
    {
      var current := connections.first;
      ghost var i: nat := 0;
      GlobalEnds(0);
      while current != null
        invariant i <= |connections.nodes| && current == connections.At(i) && (current == null ==> i >= |net.global|)
        invariant i <= |net.global| && FirstSource(net.table, net.global, packet) == FirstSource(net.table, net.global[i..], packet)
        decreases |connections.nodes| - i
      {
        AtLink(i);
        if MatchSource(packet, current.val.refpacket) {
          return current.val;
        }
        assert net.global[i..][1..] == net.global[i + 1..];
        current, i := current.next, i + 1;
        GlobalEnds(i);
      }
      return null;
    }

    method FindConnectionWithMatchingRefpacketOrSource(packet: Packet) returns (c: Connection?)
      requires Valid()
      ensures Valid()
      ensures var exact := FirstMatch(net.table, net.global, packet);
              IsAt(objs, if exact.Some? then exact else FirstSource(net.table, net.global, packet), c)
    {
      var current := connections.first;
      ghost var i: nat := 0;
      GlobalEnds(0);
      while current != null
        invariant i <= |connections.nodes| && current == connections.At(i) && (current == null ==> i >= |net.global|)
        invariant i <= |net.global| && FirstMatch(net.table, net.global, packet) == FirstMatch(net.table, net.global[i..], packet)
        decreases |connections.nodes| - i
      {
        AtLink(i);
        if Match(packet, current.val.refpacket) {
          return current.val;
        }
        assert net.global[i..][1..] == net.global[i + 1..];
        current, i := current.next, i + 1;
        GlobalEnds(i);
      }
      c := FindConnectionWithMatchingSource(packet);
    }

    method FindConnectionOf(packet: Packet) returns (c: Connection?)
      requires Valid() && packet.dir != Unknown
      ensures Valid()
      ensures IsAt(objs, FindConnection(net, packet), c)
    {
      if packet.dir == Outgoing {
        c := FindConnectionWithMatchingRefpacketOrSource(packet);
      } else {
        c := FindConnectionWithMatchingRefpacketOrSource(NewInverted(packet));
      }
    }

    method FindProcess(pid: int) returns (i: nat)
      requires Valid()
      ensures Valid()
      ensures i == FindPid(net.procs, pid)
    {
      i := 0;
      while i < |processes| && processes[i].pid != pid
        invariant i <= |processes| && FindPid(net.procs, pid) == i + FindPid(net.procs[i..], pid)
      {
        ProcessAt(i);
        assert processes[i].Fixed().pid == net.procs[i].pid;
        assert net.procs[i..][1..] == net.procs[i + 1..];
        i := i + 1;
      }
      if i < |processes| {
        ProcessAt(i);
        assert processes[i].Fixed().pid == net.procs[i].pid;
      }
    }

    // -------------------------------------------------------------- a packet arrives

    /** The clock is read. */
    method SetTime(now: int)
      requires Valid()
      modifies `curtime, `net, `objs
      ensures Valid() && net == old(net).(now := now)
    {
      FitsSame(Contents(), objs, processes, connections, net, net.(now := now));
      Adopt(now, net.(now := now), objs);
    }

    /** A packet of a known connection. */
    method AddPacket(c: Connection, packet: Packet, ghost id: nat)
      requires Valid() && packet.dir != Unknown && id in objs && c == objs[id]
      modifies `curtime, `net, `objs, memory, memory.pool, memory.packets, memory.packets.packs, memory.packets.links
      ensures Valid()
      ensures net == old(net).(now := packet.sec, table := old(net).table[id := AddTo(old(net).table[id], packet)])
      ensures (forall o :: o in memory.pool ==> o in old(memory.pool) || fresh(o)) &&
              (forall l :: l in memory.packets.packs ==> l in old(memory.packets.packs) || fresh(l))
      ensures (forall n :: n in memory.packets.links ==> n in old(memory.packets.links) || fresh(n))
      ensures chains.lists == old(chains.lists) && chains.cells == old(chains.cells)
    {
      Known(id);
      memory.Entered(id);
      ghost var h, v := Contents(), AddTo(net.table[id], packet);
      ghost var net' := net.(now := packet.sec, table := net.table[id := v]);
      FitsChanged(h, objs, processes, connections, net, id, v, net');
      CountPacket(c, packet);
      assert Contents() == h.(views := h.views[id := v]);
      Adopt(packet.sec, net', objs);
    }

    lemma NextIsFree()
      requires Valid()
      ensures net.next !in memory.conns && connections in chains.held && connections in chains.lists
    {
      chains.Entered(connections);
    }

    /** A new connection, in front of the global list. */
    method Enlist(packet: Packet, ghost id: nat) returns (c: Connection)
      requires InOrder() && packet.dir != Unknown && id !in memory.conns && connections in chains.held
      modifies memory, memory.packets, chains, connections
      ensures InOrder() && c.id == id
      ensures var h := old(Contents());
              Contents() == Heap(h.conns[id := c], h.views[id := NewConn(packet)], h.held[connections := [c] + h.held[connections]])
      ensures (forall o :: o in memory.pool ==> o in old(memory.pool) || fresh(o)) &&
              (forall l :: l in memory.packets.packs ==> l in old(memory.packets.packs) || fresh(l))
      ensures (forall n :: n in memory.packets.links ==> n in old(memory.packets.links) || fresh(n)) &&
              (forall n :: n in chains.cells ==> n in old(chains.cells) || fresh(n))
      ensures chains.lists == old(chains.lists)
    {
      c := NewConnection(packet, id);
      PrependTo(connections, c);
    }

    /** A new connection enters the global list. */
    method Register(packet: Packet) returns (c: Connection)
      requires Valid() && packet.dir != Unknown
      modifies `curtime, `objs, `net, memory, memory.packets, chains, connections
      ensures Valid() && objs == old(objs)[old(net).next := c] && net == Registered(old(net), packet)
      ensures net.procs == old(net).procs && net.records == old(net).records
      ensures (forall o :: o in memory.pool ==> o in old(memory.pool) || fresh(o)) &&
              (forall l :: l in memory.packets.packs ==> l in old(memory.packets.packs) || fresh(l))
      ensures (forall n :: n in memory.packets.links ==> n in old(memory.packets.links) || fresh(n)) &&
              (forall n :: n in chains.cells ==> n in old(chains.cells) || fresh(n))
      ensures chains.lists == old(chains.lists)
    {
      NextIsFree();
      ghost var h := Contents();
      c := Enlist(packet, net.next);
      FitsRegistered(h, objs, processes, connections, net, c, packet);
      Adopt(packet.sec, Registered(net, packet), objs[net.next := c]);
    }

    /** The connection goes in front of the list of an existing process. */
    method AttachTo(i: nat, proc: Process, c: Connection, ghost id: nat)
      requires Valid() && i < |processes| && proc == processes[i] && id in objs && c == objs[id]
      modifies `curtime, `net, `objs, chains, proc.connections
      ensures Valid() && (forall n :: n in chains.cells ==> n in old(chains.cells) || fresh(n))
      ensures net == old(net).(procs := old(net).procs[i := old(net).procs[i].(conns := [id] + old(net).procs[i].conns)])
      ensures chains.lists == old(chains.lists)
    {
      ghost var h := Contents();
      ProcessAt(i);
      FitsListed(h, objs, processes, connections, net, i, [c] + h.held[proc.connections], [id] + net.procs[i].conns);
      PrependTo(proc.connections, c);
      Adopt(curtime, net.(procs := net.procs[i := net.procs[i].(conns := [id] + net.procs[i].conns)]), objs);
    }

    lemma ListsEntered(i: nat)
      requires Valid() && i < |processes|
      ensures processes[i].connections in chains.lists && connections in chains.lists
    {
      ProcessAt(i);
      chains.Entered(processes[i].connections);
      chains.Entered(connections);
    }

    /** A process and its list are those of the model. */
    lemma ProcessAt(i: nat)
      requires Matches() && i < |processes|
      ensures i < |net.procs| && processes[i].connections in chains.held && processes[i].connections != connections
      ensures Listed(objs, net.procs[i].conns, chains.held[processes[i].connections]) &&
              processes[i].Fixed() == net.procs[i].(conns := [])
    {
      assert WiredAt(objs, processes, net.procs, chains.held, i) && OwnListAt(processes, connections, chains.held, i);
    }

    /** A new process with a list of one connection. */
    method NewOwner(c: Connection, ghost id: nat, pid: int, name: string, device: string, uid: nat) returns (proc: Process)
      requires InOrder()
      modifies chains
      ensures InOrder() && fresh(proc) && proc.id == id && proc.Fixed() == Proc(id, pid, name, device, uid, [])
      ensures fresh(proc.connections) && proc.connections !in old(chains.held) &&
              chains.held == old(chains.held)[proc.connections := [c]]
      ensures chains.lists == old(chains.lists) + {proc.connections}
      ensures (forall n :: n in chains.cells ==> n in old(chains.cells) || fresh(n))
    {
      proc := NewProcess(id, pid, name, device, uid);
      PrependTo(proc.connections, c);
      assert [c] + [] == [c];
    }

    /** The processes of the list, with a new one in front. */
    method AdoptProcess(proc: Process, ghost net': Net)
      requires InOrder() && Fits(Contents(), objs, [proc] + processes, connections, net')
      requires RecordsShown(recordMap, [proc] + processes, net'.records)
      requires net'.local == local && net'.now == curtime && net'.lastRecord == recordId && unknowntcp in processes &&
               unknowntcp.id == UNKNOWN
      modifies `processes, `net
      ensures Valid() && net == net' && processes == [proc] + old(processes)
    {
      processes := [proc] + processes;
      net := net';
    }

    /** A new process in front of the others, with the connection as the only one in its list. */
    method AttachNew(c: Connection, ghost id: nat, ghost newId: nat, pid: int, name: string, device: string, uid: nat)
      requires Valid() && id in objs && c == objs[id] && newId !in net.records
      modifies `processes, `net, chains
      ensures Valid() && (forall n :: n in chains.cells ==> n in old(chains.cells) || fresh(n))
      ensures forall l :: l in chains.lists ==> l in old(chains.lists) || fresh(l)
      ensures net == old(net).(procs := [Proc(newId, pid, name, device, uid, [id])] + old(net).procs)
    {
      ghost var h := Contents();
      var proc := NewOwner(c, newId, pid, name, device, uid);
      FitsAttached(h, objs, processes, connections, net, proc, id);
      MoreProcesses(recordMap, processes, net.records, proc);
      AdoptProcess(proc, net.(procs := [Proc(newId, pid, name, device, uid, [id])] + net.procs));
    }

    /** The process of a new connection: the one of the program that holds its socket, or a new one. */
    method GetProcess(c: Connection, ghost id: nat, ghost newId: nat, lookup: Lookup, device: string, hash: string)
      requires Valid() && id in objs && c == objs[id] && newId !in net.records
      modifies `curtime, `objs, `processes, `net, chains, chains.lists
      ensures Valid() && (forall n :: n in chains.cells ==> n in old(chains.cells) || fresh(n))
      ensures forall l :: l in chains.lists ==> l in old(chains.lists) || fresh(l)
      ensures net == old(net).(procs := net.procs) && net.procs == Attach(old(net).procs, newId, id, lookup, device, hash)
    {
      match lookup
      case Program(pid, name, uid) =>
        var i := FindProcess(pid);
        if i < |processes| {
          ListsEntered(i);
          AttachTo(i, processes[i], c, id);
        } else {
          AttachNew(c, id, newId, pid, name, device, uid);
        }
      case _ =>
        AttachNew(c, id, newId, 0, hash, "", 0);
    }

    /** A packet of no known connection. */
    method NewPacket(p: Packet, lookup: Lookup, device: string, hash: string)
      requires Valid() && p.dir != Unknown && net.next + 1 !in net.records
      modifies `curtime, `objs, `processes, `net, memory, memory.packets, chains, chains.lists
      ensures Valid() && net == Registered(old(net), p).(procs := net.procs)
      ensures net.procs == Attach(old(net).procs, old(net).next + 1, old(net).next, lookup, device, hash)
      ensures (forall o :: o in memory.pool ==> o in old(memory.pool) || fresh(o)) &&
              (forall l :: l in memory.packets.packs ==> l in old(memory.packets.packs) || fresh(l))
      ensures (forall n :: n in memory.packets.links ==> n in old(memory.packets.links) || fresh(n))
      ensures (forall l :: l in chains.lists ==> l in old(chains.lists) || fresh(l)) &&
              (forall n :: n in chains.cells ==> n in old(chains.cells) || fresh(n))
    {
      ghost var id, newId := net.next, net.next + 1;
      NextIsFree();
      var c := Register(p);
      GetProcess(c, id, newId, lookup, device, hash);
    }

    /** One packet. */
    method ProcessTcp(packet: Packet, lookup: Lookup, device: string, hash: string)
      requires Valid() && net.next + 1 !in net.records
      modifies `curtime, `objs, `processes, `net, memory, memory.pool, memory.packets, memory.packets.packs,
               memory.packets.links, chains, chains.lists
      ensures Valid() && net == Dispatch(old(net), packet, lookup, device, hash)
      ensures (forall o :: o in memory.pool ==> o in old(memory.pool) || fresh(o)) &&
              (forall l :: l in memory.packets.packs ==> l in old(memory.packets.packs) || fresh(l))
      ensures (forall n :: n in memory.packets.links ==> n in old(memory.packets.links) || fresh(n))
      ensures (forall l :: l in chains.lists ==> l in old(chains.lists) || fresh(l)) &&
              (forall n :: n in chains.cells ==> n in old(chains.cells) || fresh(n))
    {
      var p := Resolve(packet, local);
      var c := FindConnectionOf(p);
      if c != null {
        AddPacket(c, p, FindConnection(net, p).value);
      } else {
        NewPacket(p, lookup, device, hash);
        NewIsDispatch(old(net), packet, lookup, device, hash, net);
      }
    }

    // -------------------------------------------------------------- the connections of a process

    /** A walk through the list of process i is at a connection of that process. */
    lemma AtConnection(i: nat, j: nat, previous: ConnList?, current: ConnList)
      requires Valid() && i < |processes| && processes[i].connections.Between(previous, current, j)
      ensures i < |net.procs| && j < |net.procs[i].conns| && processes[i].connections.Between(current, current.next, j + 1)
      ensures var id := net.procs[i].conns[j];
              && id in net.table && id in objs && current.val == objs[id] && current.val.lastpacket == net.table[id].last
              && current.val.sumSent == net.table[id].sumSent && current.val.sumRecv == net.table[id].sumRecv
    {
      ProcessAt(i);
      chains.Entered(processes[i].connections);
      processes[i].connections.Link(j);
      Known(net.procs[i].conns[j]);
      memory.Entered(net.procs[i].conns[j]);
    }

    /** The beginning and the end of such a walk. */
    lemma WalkEnds(i: nat, j: nat, previous: ConnList?, current: ConnList?)
      requires Valid() && i < |processes|
      ensures i < |net.procs| && processes[i].connections.Between(null, processes[i].connections.first, 0)
      ensures processes[i].connections.Between(previous, current, j) ==> (current == null <==> j >= |net.procs[i].conns|)
    {
      ProcessAt(i);
      chains.Entered(processes[i].connections);
      processes[i].connections.Begin();
    }

    method GetLastPacket(i: nat) returns (lastpacket: int)
      requires Valid() && i < |processes|
      ensures Valid() && i < |net.procs| && lastpacket == LastPacket(net.table, net.procs[i].conns)
    {
      var list := processes[i].connections;
      ghost var ids := net.procs[i].conns;
      var curconn := list.first;
      ghost var previous: ConnList? := null;
      ghost var j: nat := 0;
      WalkEnds(i, j, previous, curconn);
      lastpacket := 0;
      while curconn != null
        invariant j <= |ids| && list.Between(previous, curconn, j) && (curconn == null ==> j >= |ids|)
        invariant forall k :: 0 <= k < j ==> ids[k] in net.table && lastpacket >= net.table[ids[k]].last
        invariant lastpacket >= 0 && (lastpacket == 0 || exists k :: 0 <= k < j && lastpacket == net.table[ids[k]].last)
        decreases |ids| - j
      {
        AtConnection(i, j, previous, curconn);
        if curconn.val.lastpacket > lastpacket {
          lastpacket := curconn.val.lastpacket;
        }
        previous, curconn, j := curconn, curconn.next, j + 1;
        WalkEnds(i, j, previous, curconn);
      }
      LastPacketIs(net.table, ids, lastpacket);
    }

    /** The link of a stalled connection is taken out of the list of its process. */
    method DropLink(i: nat, proc: Process, j: nat, previous: ConnList?, todelete: ConnList, curconn: ConnList?)
      requires Valid() && i < |processes| && proc == processes[i]
      requires proc.connections.Between(previous, todelete, j) && curconn == todelete.next
      modifies `curtime, `net, `objs, chains, proc.connections, chains.cells
      ensures Valid() && i < |old(net).procs| && j < |old(net).procs[i].conns| && net == Shortened(old(net), i, j)
      ensures proc.connections.Between(previous, curconn, j)
      ensures objs == old(objs) && chains.cells == old(chains.cells) && chains.lists == old(chains.lists)
    {
      AtConnection(i, j, previous, todelete);
      ProcessAt(i);
      ghost var h, ids := Contents(), net.procs[i].conns;
      ghost var list := h.held[proc.connections];
      FitsListed(h, objs, processes, connections, net, i, list[..j] + list[j + 1..], ids[..j] + ids[j + 1..]);
      UnlinkFrom(proc.connections, previous, todelete, curconn, j);
      Adopt(curtime, Shortened(net, i, j), objs);
    }

    /** The destructor of a connection takes it out of the global list. */
    method Destroy(c: Connection, ghost id: nat)
      requires Valid() && id in objs && c == objs[id] && forall k :: 0 <= k < |net.procs| ==> id !in net.procs[k].conns
      modifies `curtime, `net, `objs, chains, connections, chains.cells
      ensures Valid() && net == old(net).(table := old(net).table - {id}, global := RemoveAll(old(net).global, id))
      ensures chains.cells == old(chains.cells) && chains.lists == old(chains.lists) &&
              forall k :: k in old(chains.held) && k != connections ==> k.nodes == old(k.nodes)
    {
      NextIsFree();
      ghost var h := Contents();
      FitsDestroyed(h, objs, processes, connections, net, id);
      RemoveFrom(connections, c);
      Adopt(curtime, net.(table := net.table - {id}, global := RemoveAll(net.global, id)), objs - {id});
    }

    /** A stalled connection is taken out of both lists, link by link. */
    method DeleteConnection(i: nat, proc: Process, j: nat, previous: ConnList?, todelete: ConnList, curconn: ConnList?)
      requires Valid() && i < |processes| && proc == processes[i]
      requires i < |net.procs| && j < |net.procs[i].conns| && Exclusive(net.procs, i, j)
      requires proc.connections.Between(previous, todelete, j) && curconn == todelete.next
      modifies `curtime, `net, `objs, chains, connections, proc.connections, chains.cells
      ensures Valid() && net == Dropped(old(net), i, j) && chains.cells == old(chains.cells) && chains.lists == old(chains.lists)
      ensures proc.connections.Between(previous, curconn, j)
    {
      ghost var id := net.procs[i].conns[j];
      AtConnection(i, j, previous, todelete);
      ShortenedIsFree(net, i, j);
      DropLink(i, proc, j, previous, todelete, curconn);
      ProcessAt(i);
      Destroy(todelete.val, id);
    }

    /** The packets of a connection older than the window go, in both of its lists. */
    method TrimConnection(c: Connection, now: int, ghost id: nat) returns (recv: nat, sent: nat)
      requires Valid() && now == curtime && id in objs && c == objs[id]
      modifies `curtime, `net, `objs, memory`views, memory.packets.packs, memory.packets.links
      ensures Valid() && id in old(net).table && net == Trimmed(old(net), id)
      ensures recv == RecentSum(old(net).table[id].recv, now - PERIOD) && sent == RecentSum(old(net).table[id].sent, now - PERIOD)
    {
      Known(id);
      memory.Entered(id);
      ghost var h := Contents();
      FitsChanged(h, objs, processes, connections, net, id, Trim(net.table[id], now), Trimmed(net, id));
      recv, sent := SumPackets(c, now);
      assert Contents() == h.(views := h.views[id := Trim(net.table[id], now)]);
      Adopt(now, Trimmed(net, id), objs);
    }

    /** A stalled connection goes, and the walk is at the next one. */
    method WalkOverStalled(i: nat, proc: Process, j: nat, previous: ConnList?, curconn: ConnList, ghost recvd: nat, ghost sent: nat, ghost next: Turn)
      returns (curconn': ConnList?)
      requires Valid() && i < |processes| && proc == processes[i] && Ready(Turn(net, j, recvd, sent), i)
      requires next == NextTurn(Turn(net, j, recvd, sent), i)
      requires proc.connections.Between(previous, curconn, j) && curconn.val.lastpacket <= curtime - CONNTIMEOUT
      modifies `curtime, `net, `objs, chains, connections, proc.connections, chains.cells
      ensures Valid() && net == next.net && j == next.j && recvd == next.recvd && sent == next.sent &&
              chains.cells == old(chains.cells) && chains.lists == old(chains.lists)
      ensures proc.connections.Between(previous, curconn', j)
    {
      AtConnection(i, j, previous, curconn);
      curconn' := curconn.next;
      DeleteConnection(i, proc, j, previous, curconn, curconn');
    }

    /** The recent packets of a connection are summed up, and the walk stays where it is. */
    method MeasureOne(c: Connection, now: int, ghost id: nat, ghost l: ConnectionList, ghost previous: ConnList?,
                      ghost current: ConnList?, ghost k: nat)
      returns (recv: nat, sent: nat)
      requires Valid() && now == curtime && id in objs && c == objs[id] && l.Between(previous, current, k)
      modifies `curtime, `net, `objs, memory`views, memory.packets.packs, memory.packets.links
      ensures Valid() && id in old(net).table && net == Trimmed(old(net), id)
      ensures recv == RecentSum(old(net).table[id].recv, now - PERIOD) && sent == RecentSum(old(net).table[id].sent, now - PERIOD)
      ensures l.Between(previous, current, k) && chains.cells == old(chains.cells) && chains.lists == old(chains.lists)
    {
      recv, sent := TrimConnection(c, now, id);
    }

    /** The recent packets of a connection are counted, and the walk is behind it. */
    method WalkOverBusy(i: nat, proc: Process, j: nat, ghost previous: ConnList?, curconn: ConnList, recvd: nat, sent: nat, ghost next: Turn)
      returns (curconn': ConnList?, recvd': nat, sent': nat)
      requires Valid() && i < |processes| && proc == processes[i] && Ready(Turn(net, j, recvd, sent), i)
      requires next == NextTurn(Turn(net, j, recvd, sent), i)
      requires proc.connections.Between(previous, curconn, j) && curconn.val.lastpacket > curtime - CONNTIMEOUT
      modifies `curtime, `net, `objs, memory`views, memory.packets.packs, memory.packets.links
      ensures Valid() && net == next.net && j + 1 == next.j && recvd' == next.recvd && sent' == next.sent
      ensures proc.connections.Between(curconn, curconn', j + 1) && chains.cells == old(chains.cells) &&
              chains.lists == old(chains.lists)
    {
      ghost var before, id := net, net.procs[i].conns[j];
      var now := curtime;
      AtConnection(i, j, previous, curconn);
      curconn' := curconn.next;
      var moreRecv, moreSent := MeasureOne(curconn.val, now, id, proc.connections, curconn, curconn', j + 1);
      recvd', sent' := Wrap(recvd + moreRecv), Wrap(sent + moreSent);
      KeptTurn(before, i, j, recvd, sent, now, id, moreRecv, moreSent, next);
    }

    /** One turn of the loop of getkbps. */
    method WalkOne(i: nat, proc: Process, j: nat, previous: ConnList?, curconn: ConnList, recvd: nat, sent: nat, ghost next: Turn)
      returns (j': nat, previous': ConnList?, curconn': ConnList?, recvd': nat, sent': nat)
      requires Valid() && i < |processes| && proc == processes[i] && Ready(Turn(net, j, recvd, sent), i)
      requires next == NextTurn(Turn(net, j, recvd, sent), i)
      requires proc.connections.Between(previous, curconn, j)
      modifies `curtime, `net, `objs, memory`views, memory.packets.packs, memory.packets.links, chains, connections,
               proc.connections, chains.cells
      ensures Valid() && net == next.net && j' == next.j && recvd' == next.recvd && sent' == next.sent
      ensures proc.connections.Between(previous', curconn', j') && chains.cells == old(chains.cells) &&
              chains.lists == old(chains.lists)
    {
      if curconn.val.lastpacket <= curtime - CONNTIMEOUT {
        j', previous', recvd', sent' := j, previous, recvd, sent;
        curconn' := WalkOverStalled(i, proc, j, previous, curconn, recvd, sent, next);
      } else {
        j', previous' := j + 1, curconn;
        curconn', recvd', sent' := WalkOverBusy(i, proc, j, previous, curconn, recvd, sent, next);
      }
    }

    /** The bytes of the last PERIOD seconds; stalled connections are deleted on the way. */
    method GetKbps(i: nat, proc: Process, ghost plan: seq<Turn>) returns (recvd: nat, sent: nat, ghost kept: nat)
      requires Valid() && i < |processes| && proc == processes[i]
      requires IsPlan(plan, i) && plan[0] == Turn(net, 0, 0, 0)
      modifies `curtime, `net, `objs, memory`views, memory.packets.packs, memory.packets.links, chains, connections,
               proc.connections, chains.cells
      ensures Valid() && Turn(net, kept, recvd, sent) == plan[|plan| - 1]
      ensures chains.cells == old(chains.cells) && chains.lists == old(chains.lists)
    {
      ghost var n: nat := 0;
      recvd, sent := 0, 0;
      var j: nat := 0;
      var curconn := proc.connections.first;
      var previous: ConnList? := null;
      WalkEnds(i, j, previous, curconn);
      while curconn != null
        invariant Valid() && n < |plan| && Turn(net, j, recvd, sent) == plan[n]
        invariant proc.connections.Between(previous, curconn, j)
        invariant i < |net.procs| && (curconn == null <==> j >= |net.procs[i].conns|)
        invariant chains.cells == old(chains.cells) && chains.lists == old(chains.lists) &&
                  memory.packets.packs == old(memory.packets.packs) && memory.packets.links == old(memory.packets.links)
        decreases |plan| - n
      {
        PlanNext(plan, i, n);
        j, previous, curconn, recvd, sent := WalkOne(i, proc, j, previous, curconn, recvd, sent, plan[n + 1]);
        n := n + 1;
        WalkEnds(i, j, previous, curconn);
      }
      PlanEnds(plan, i, n);
      kept := j;
    }

    /** The bytes of all packets of the current connections. */
    method GetTotal(i: nat) returns (recvd: nat, sent: nat)
      requires Valid() && i < |processes|
      ensures Valid() && i < |net.procs| && sent == Wrap(TotalSent(net.table, net.procs[i].conns)) &&
              recvd == Wrap(TotalRecv(net.table, net.procs[i].conns))
    {
      var list := processes[i].connections;
      ghost var ids := net.procs[i].conns;
      var curconn := list.first;
      ghost var previous: ConnList? := null;
      ghost var j: nat := 0;
      WalkEnds(i, j, previous, curconn);
      assert ids[0..] == ids;
      TotalSoFar(net.table, ids, 0, 0);
      recvd, sent := 0, 0;
      while curconn != null
        invariant j <= |ids| && list.Between(previous, curconn, j) && (curconn == null ==> j >= |ids|)
        invariant AddTotals(net.table, ids[j..], recvd, sent) == AddTotals(net.table, ids, 0, 0)
        decreases |ids| - j
      {
        AtConnection(i, j, previous, curconn);
        assert ids[j..][1..] == ids[j + 1..];
        sent, recvd := Wrap(sent + curconn.val.sumSent), Wrap(recvd + curconn.val.sumRecv);
        previous, curconn, j := curconn, curconn.next, j + 1;
        WalkEnds(i, j, previous, curconn);
      }
    }

    // -------------------------------------------------------------- the update

    /** The monitor goes on with other records. */
    method AdoptRecords(recordMap': map<Process, Record>, recordId': nat, ghost net': Net)
      requires Matches() && InOrder() && RecordsShown(recordMap', processes, net'.records)
      requires net' == net.(records := net'.records, lastRecord := recordId')
      modifies `recordMap, `recordId, `net
      ensures Valid() && recordMap == recordMap' && recordId == recordId' && net == net'
    {
      FitsSame(Contents(), objs, processes, connections, net, net');
      recordMap, recordId := recordMap', recordId';
      net := net';
    }

    /** The record of a process is stored, under a new number if it is new. */
    method StoreRecord(i: nat, data: Record, isNew: bool)
      requires Valid() && DistinctProcs(net.procs) && i < |processes|
      modifies `recordMap, `recordId, `net
      ensures Valid() && i < |old(net).procs|
      ensures net == old(net).(records := old(net).records[old(net).procs[i].id := data],
                               lastRecord := if isNew then data.id else old(net).lastRecord)
    {
      ProcessAt(i);
      ProcessesDiffer(objs, processes, net.procs, chains.held);
      RecordSet(recordMap, processes, net.records, i, data);
      var lastRecord := if isNew then data.id else recordId;
      AdoptRecords(recordMap[processes[i] := data], lastRecord,
                   net.(records := net.records[net.procs[i].id := data], lastRecord := lastRecord));
    }

    /** What is to be stored for a process, and what the callback is told. */
    method MakeRecord(i: nat, recvd: nat, sent: nat, recvBytes: nat, sentBytes: nat) returns (isNew: bool, data: Record, events: seq<Event>)
      requires Valid() && i < |processes|
      ensures Valid() && i < |net.procs| && isNew == (net.procs[i].id !in net.records)
      ensures data == DataOf(net, net.procs[i], recvd, sent, recvBytes, sentBytes)
      ensures events == if isNew || !SameNumbers(data, net.records[net.procs[i].id]) then [Set(data)] else []
    {
      var proc := processes[i];
      ProcessAt(i);
      RecordOf(recordMap, processes, net.records, i);
      assert proc.Fixed() == net.procs[i].(conns := []);
      isNew := proc !in recordMap;
      if isNew {
        data := Record(recordId + 1, proc.name, proc.pid, proc.uid, proc.device, sentBytes, recvBytes, Rate(sent), Rate(recvd));
      } else {
        data := recordMap[proc].(device := proc.device, uid := proc.uid, sentBytes := sentBytes, recvBytes := recvBytes,
                                 sentRate := Rate(sent), recvRate := Rate(recvd));
      }
      events := if isNew || !SameNumbers(data, recordMap[proc]) then [Set(data)] else [];
    }

    /** The whole walk. */
    method SumConnections(i: nat, proc: Process) returns (recvd: nat, sent: nat, ghost kept: nat)
      requires Valid() && i < |processes| && proc == processes[i]
      requires GlobalListed(net) && ProcsListed(net) && DistinctProcs(net.procs)
      modifies `curtime, `net, `objs, memory`views, memory.packets.packs, memory.packets.links, chains, connections,
               proc.connections, chains.cells
      ensures Valid() && Progressed(old(net), i, net, kept, recvd, sent)
      ensures chains.cells == old(chains.cells) && chains.lists == old(chains.lists)
    {
      ProcessAt(i);
      ghost var plan := MakePlan(net, i);
      recvd, sent, kept := GetKbps(i, proc, plan);
    }

    /** getkbps and gettotal. */
    method MeasureProcess(i: nat, proc: Process) returns (recvd: nat, sent: nat, recvBytes: nat, sentBytes: nat)
      requires Valid() && i < |processes| && proc == processes[i]
      requires GlobalListed(net) && ProcsListed(net) && DistinctProcs(net.procs)
      modifies `curtime, `net, `objs, memory`views, memory.packets.packs, memory.packets.links, chains, connections,
               proc.connections, chains.cells
      ensures Valid() && Measured(old(net), i, net, recvd, sent, recvBytes, sentBytes)
      ensures chains.cells == old(chains.cells) && chains.lists == old(chains.lists)
    {
      ghost var net0 := net;
      ghost var kept;
      recvd, sent, kept := SumConnections(i, proc);
      recvBytes, sentBytes := GetTotal(i);
      Refreshed(net0, i, net, kept, recvd, sent, recvBytes, sentBytes);
    }

    /** The record of a process that stays. */
    method UpdateProcess(i: nat, proc: Process) returns (events: seq<Event>)
      requires Valid() && i < |processes| && proc == processes[i] && GlobalListed(net) && ProcsListed(net) && DistinctProcs(net.procs)
      modifies `curtime, `net, `objs, `recordMap, `recordId, memory`views, memory.packets.packs, memory.packets.links,
               chains, connections, proc.connections, chains.cells
      ensures Valid() && i < |old(net).procs| && net == RefreshProc(old(net), i).net && events == RefreshProc(old(net), i).events
      ensures chains.cells == old(chains.cells) && chains.lists == old(chains.lists)
    {
      var recvd, sent, recvBytes, sentBytes := MeasureProcess(i, proc);
      var isNew, data, told := MakeRecord(i, recvd, sent, recvBytes, sentBytes);
      StoreRecord(i, data, isNew);
      events := told;
    }

    /** The record of a process is dropped, and the callback told if there was one. */
    method EraseRecord(i: nat) returns (events: seq<Event>)
      requires Valid() && DistinctProcs(net.procs) && i < |processes|
      modifies `recordMap, `recordId, `net
      ensures Valid() && i < |old(net).procs| && net == old(net).(records := old(net).records - {old(net).procs[i].id})
      ensures var id := old(net).procs[i].id; events == if id in old(net).records then [Remove(old(net).records[id])] else []
    {
      var proc := processes[i];
      ProcessAt(i);
      ProcessesDiffer(objs, processes, net.procs, chains.held);
      RecordOf(recordMap, processes, net.records, i);
      RecordErased(recordMap, processes, net.records, i);
      events := [];
      if proc in recordMap {
        events := [Remove(recordMap[proc])];
      }
      AdoptRecords(recordMap - {proc}, recordId, net.(records := net.records - {net.procs[i].id}));
    }

    /** The process at a position leaves the list. */
    method DropProcess(i: nat)
      requires Valid() && i < |processes| && processes[i] != unknowntcp && processes[i].id !in net.records
      modifies `processes, `net
      ensures Valid() && processes == Without(old(processes), i)
      ensures i < |old(net).procs| && net == old(net).(procs := Without(old(net).procs, i))
    {
      ProcessAt(i);
      FitsRemoved(Contents(), objs, processes, connections, net, i);
      RecordsLeft(recordMap, processes, net.records, i);
      StaysIn(processes, i, unknowntcp);
      processes := Without(processes, i);
      net := net.(procs := Without(net.procs, i));
    }

    /** A process that timed out goes, with its record. */
    method RemoveProcess(i: nat) returns (events: seq<Event>)
      requires Valid() && DistinctProcs(net.procs) && i < |processes| && processes[i] != unknowntcp
      modifies `processes, `recordMap, `recordId, `net
      ensures Valid() && processes == Without(old(processes), i)
      ensures i < |old(net).procs| && net == RemoveProc(old(net), i).net && events == RemoveProc(old(net), i).events
    {
      ProcessAt(i);
      ProcessesDiffer(objs, processes, net.procs, chains.held);
      events := EraseRecord(i);
      DropProcess(i);
    }

    method HasExpired(i: nat) returns (expired: bool)
      requires Valid() && DistinctProcs(net.procs) && i < |processes|
      ensures Valid() && i < |net.procs| && expired == Expired(net, net.procs[i]) && (expired ==> processes[i] != unknowntcp)
    {
      var lastpacket := GetLastPacket(i);
      IsUnknown(objs, processes, net.procs, chains.held, unknowntcp, i);
      expired := lastpacket + PROCESSTIMEOUT <= curtime && processes[i] != unknowntcp;
    }

    /** One turn of the loop of the update: the process at position i is removed or refreshed. */
    method UpdateOne(i: nat, proc: Process) returns (removed: bool, events: seq<Event>)
      requires Valid() && GlobalListed(net) && ProcsListed(net) && DistinctProcs(net.procs) && i < |processes| && proc == processes[i]
      modifies `curtime, `net, `objs, `processes, `recordMap, `recordId, memory`views, memory.packets.packs,
               memory.packets.links, chains, connections, proc.connections, chains.cells
      ensures Valid() && i < |old(net).procs| && removed == Expired(old(net), old(net).procs[i])
      ensures |processes| == |old(processes)| - if removed then 1 else 0
      ensures net == (if removed then RemoveProc(old(net), i) else RefreshProc(old(net), i)).net
      ensures events == (if removed then RemoveProc(old(net), i) else RefreshProc(old(net), i)).events
      ensures chains.cells == old(chains.cells) && chains.lists == old(chains.lists)
    {
      removed := HasExpired(i);
      if removed {
        events := RemoveProcess(i);
      } else {
        events := UpdateProcess(i, proc);
      }
    }

    /** That turn, with all that was told so far. */
    method UpdateNext(i: nat, proc: Process, told: seq<Event>, ghost next: Stage) returns (removed: bool, events: seq<Event>)
      requires Valid() && i < |processes| && proc == processes[i] && Due(Stage(net, i, told)) && next == NextStage(Stage(net, i, told))
      modifies `curtime, `net, `objs, `processes, `recordMap, `recordId, memory`views, memory.packets.packs,
               memory.packets.links, chains, connections, proc.connections, chains.cells
      ensures Valid() && net == next.net && events == next.events && next.i == (if removed then i else i + 1)
      ensures |processes| == |old(processes)| - if removed then 1 else 0
      ensures chains.cells == old(chains.cells) && chains.lists == old(chains.lists)
    {
      ghost var before := net;
      var more;
      removed, more := UpdateOne(i, proc);
      events := told + more;
      StageAfter(before, i, told, removed, more, next);
    }

    /** nethogsmonitor_handle_update: all that the callback is told. */
    method HandleUpdate(ghost plan: seq<Stage>) returns (events: seq<Event>)
      requires Valid() && IsUpdatePlan(plan) && plan[0] == Stage(net, 0, [])
      modifies `curtime, `net, `objs, `processes, `recordMap, `recordId, memory`views, memory.packets.packs,
               memory.packets.links, chains, chains.lists, chains.cells
      ensures Valid() && Stage(net, |processes|, events) == plan[|plan| - 1]
      ensures chains.cells == old(chains.cells) && chains.lists == old(chains.lists)
    {
      events := [];
      var nproc := |processes|;
      var i := 0;
      ghost var n := 0;
      while i < |processes|
        invariant Valid() && |processes| == nproc && n < |plan| && Stage(net, i, events) == plan[n]
        invariant chains.cells == old(chains.cells) && chains.lists == old(chains.lists)
        invariant memory.packets.packs == old(memory.packets.packs) && memory.packets.links == old(memory.packets.links)
        decreases |plan| - n
      {
        assert nproc == |processes|;
        ListsEntered(i);
        UpdatePlanNext(plan, n);
        n := n + 1;
        var removed;
        removed, events := UpdateNext(i, processes[i], events, plan[n]);
        if removed {
          nproc := nproc - 1;
        } else {
          i := i + 1;
        }
      }
      UpdatePlanEnds(plan, n);
    }
  }

  /** An update of the monitor is an update of the model, with the same events. */
  method Update(monitor: Monitor) returns (events: seq<Event>)
    requires monitor.Valid() && AllListed(monitor.net)
    modifies monitor, monitor.memory`views, monitor.memory.packets.packs, monitor.memory.packets.links
    modifies monitor.chains, monitor.chains.lists, monitor.chains.cells
    ensures monitor.Valid() && monitor.net == NetModel.Update(old(monitor.net)).net &&
            events == NetModel.Update(old(monitor.net)).events
    ensures monitor.chains.cells == old(monitor.chains.cells) && monitor.chains.lists == old(monitor.chains.lists)
  {
    ghost var plan := MakeUpdatePlan(monitor.net);
    events := monitor.HandleUpdate(plan);
  }

  /** What the operations above rely on holds in every run, whatever its timing. */
  lemma EveryRunIsReady(local: seq<nat>, now: int, steps: seq<Step>)
    ensures var net := After(Start(local, now), steps).net;
            AllListed(net) && DistinctProcs(net.procs) && net.next !in net.table && net.next + 1 !in net.records
  {
    EveryRunIsListed(local, now, steps);
    EveryRunAgrees(local, now, steps);
    var net := After(Start(local, now), steps).net;
    forall id | id in net.records ensures id < net.next {
      assert HasProc(net, id);
    }
  }

  method TakePacket(monitor: Monitor, packet: Packet, lookup: Lookup, device: string, hash: string)
    requires monitor.Valid() && monitor.net.next + 1 !in monitor.net.records
    modifies monitor.Footprint()
    ensures monitor.Valid() && monitor.net == Dispatch(old(monitor.net), packet, lookup, device, hash)
    ensures fresh(monitor.Footprint() - old(monitor.Footprint()))
  {
    monitor.ProcessTcp(packet, lookup, device, hash);
    assert fresh(monitor.memory.pool - old(monitor.memory.pool));
    assert fresh(monitor.memory.packets.packs - old(monitor.memory.packets.packs));
    assert fresh(monitor.memory.packets.links - old(monitor.memory.packets.links));
    assert fresh(monitor.chains.lists - old(monitor.chains.lists));
    assert fresh(monitor.chains.cells - old(monitor.chains.cells));
  }

  method TakeTime(monitor: Monitor, now: int)
    requires monitor.Valid()
    modifies monitor.Footprint()
    ensures monitor.Valid() && monitor.net == old(monitor.net).(now := now)
    ensures monitor.Footprint() == old(monitor.Footprint())
  {
    monitor.SetTime(now);
  }

  method TakeUpdate(monitor: Monitor) returns (events: seq<Event>)
    requires monitor.Valid() && AllListed(monitor.net)
    modifies monitor.Footprint()
    ensures monitor.Valid() && monitor.net == NetModel.Update(old(monitor.net)).net
    ensures events == NetModel.Update(old(monitor.net)).events
    ensures monitor.Footprint() == old(monitor.Footprint())
  {
    events := Update(monitor);
  }

  /** What a step makes of the state, and what it says. */
  ghost function StepNet(net: Net, step: Step): Net {
    match step
    case Tick(now) => net.(now := now)
    case Arrive(packet, lookup, device, hash) => Dispatch(net, packet, lookup, device, hash)
    case Refresh => NetModel.Update(net).net
  }

  ghost function StepEvents(net: Net, step: Step): seq<Event> {
    if step.Refresh? then NetModel.Update(net).events else []
  }

  /** A packet, the clock or an update. */
  method TakeStep(monitor: Monitor, step: Step) returns (events: seq<Event>)
    requires monitor.Valid() && AllListed(monitor.net) && monitor.net.next + 1 !in monitor.net.records
    modifies monitor.Footprint()
    ensures monitor.Valid() && monitor.net == StepNet(old(monitor.net), step) && events == StepEvents(old(monitor.net), step)
    ensures fresh(monitor.Footprint() - old(monitor.Footprint()))
  {
    events := [];
    match step
    case Tick(now) => TakeTime(monitor, now);
    case Arrive(packet, lookup, device, hash) => TakePacket(monitor, packet, lookup, device, hash);
    case Refresh => events := TakeUpdate(monitor);
  }

  /** The step leads from one state to the other, and this is what the callback has been told by then. */
  ghost predicate Leads(net: Net, told: seq<Event>, step: Step, net': Net, told': seq<Event>) {
    && AllListed(net) && net.next + 1 !in net.records
    && net' == StepNet(net, step) && told' == told + StepEvents(net, step)
  }

  lemma NextAfter(start: Sys, steps: seq<Step>, i: nat)
    requires i < |steps|
    ensures var s, t := After(start, steps[..i]), After(start, steps[..i + 1]);
            t.net == StepNet(s.net, steps[i]) && t.events == s.events + StepEvents(s.net, steps[i])
  {
    assert steps[..i + 1][..i] == steps[..i];
  }

  /** The state of a run after its first i steps. */
  ghost predicate Reached(local: seq<nat>, now: int, steps: seq<Step>, i: nat, net: Net, told: seq<Event>) {
    i <= |steps| && net == After(Start(local, now), steps[..i]).net && told == After(Start(local, now), steps[..i]).events
  }

  lemma ReachedIsReady(local: seq<nat>, now: int, steps: seq<Step>, i: nat, net: Net, told: seq<Event>)
    requires Reached(local, now, steps, i, net, told)
    ensures AllListed(net) && net.next + 1 !in net.records
  {
    EveryRunIsReady(local, now, steps[..i]);
  }

  lemma ReachedNext(local: seq<nat>, now: int, steps: seq<Step>, i: nat, net: Net, told: seq<Event>)
    requires Reached(local, now, steps, i, net, told) && i < |steps|
    ensures Reached(local, now, steps, i + 1, StepNet(net, steps[i]), told + StepEvents(net, steps[i]))
  {
    NextAfter(Start(local, now), steps, i);
  }

  lemma NextReached(local: seq<nat>, now: int, steps: seq<Step>, i: nat, net: Net, told: seq<Event>)
    returns (net': Net, told': seq<Event>)
    requires Reached(local, now, steps, i, net, told) && i < |steps|
    ensures Leads(net, told, steps[i], net', told') && Reached(local, now, steps, i + 1, net', told')
  {
    net', told' := StepNet(net, steps[i]), told + StepEvents(net, steps[i]);
    ReachedIsReady(local, now, steps, i, net, told);
    ReachedNext(local, now, steps, i, net, told);
  }

  method Follow(monitor: Monitor, step: Step, ghost told: seq<Event>, ghost net': Net, ghost told': seq<Event>)
    returns (events: seq<Event>)
    requires monitor.Valid() && Leads(monitor.net, told, step, net', told')
    modifies monitor.Footprint()
    ensures monitor.Valid() && monitor.net == net' && told' == told + events
    ensures fresh(monitor.Footprint() - old(monitor.Footprint()))
  {
    events := TakeStep(monitor, step);
  }

  /** The steps from i on. */
  method FollowFrom(monitor: Monitor, ghost local: seq<nat>, ghost now: int, steps: seq<Step>, i: nat, told: seq<Event>)
    returns (events: seq<Event>)
    requires monitor.Valid() && Reached(local, now, steps, i, monitor.net, told)
    modifies monitor.Footprint()
    ensures monitor.Valid() && Reached(local, now, steps, |steps|, monitor.net, events)
    decreases |steps| - i
  {
    if i == |steps| {
      events := told;
    } else {
      ghost var net', told' := NextReached(local, now, steps, i, monitor.net, told);
      var more := Follow(monitor, steps[i], told, net', told');
      events := FollowFrom(monitor, local, now, steps, i + 1, told + more);
    }
  }

  lemma RunBegins(local: seq<nat>, now: int, steps: seq<Step>)
    ensures Reached(local, now, steps, 0, Init(local, now), [])
  {
  }

  lemma RunEnds(local: seq<nat>, now: int, steps: seq<Step>, net: Net, told: seq<Event>)
    requires Reached(local, now, steps, |steps|, net, told)
    ensures net == After(Start(local, now), steps).net && told == After(Start(local, now), steps).events
  {
    assert steps[..|steps|] == steps;
  }

  /** In every run, whatever its timing, the objects end as the model does, and the callback has been told the
      same. */
  method Run(local: seq<nat>, now: int, steps: seq<Step>) returns (monitor: Monitor, events: seq<Event>)
    ensures monitor.Valid() && monitor.net == After(Start(local, now), steps).net
    ensures events == After(Start(local, now), steps).events
  {
    monitor := new Monitor(local, now);
    RunBegins(local, now, steps);
    events := FollowFrom(monitor, local, now, steps, 0, []);
    RunEnds(local, now, steps, monitor.net, events);
  }
}
