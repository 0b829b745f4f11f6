/** Per-process network accounting: packets are dispatched to connections, connections belong to
    processes, and a periodic update expires both and reports records to a callback.

    The lists are values here: a connection is its id, `table` holds the live Connection objects.
    Addresses are IPv4. */
module NetModel {
  import opened Common
  import opened PackLists

  const PROCESSTIMEOUT := 150
  const CONNTIMEOUT := 50

  // ---------------------------------------------------------------- packets

  datatype Direction = Unknown | Incoming | Outgoing

  datatype Packet = Packet(sip: nat, sport: nat, dip: nat, dport: nat, len: nat, sec: int, dir: Direction)

  function Invert(dir: Direction): Direction {
    match dir
    case Incoming => Outgoing
    case Outgoing => Incoming
    case Unknown => Unknown
  }

  function NewInverted(p: Packet): Packet {
    Packet(p.dip, p.dport, p.sip, p.sport, p.len, p.sec, Invert(p.dir))
  }

  /** local_addr::contains over the list of local addresses. */
  predicate Contains(local: seq<nat>, a: nat) {
    local != [] && (local[0] == a || Contains(local[1..], a))
  }

  predicate IsOutgoing(p: Packet, local: seq<nat>) {
    match p.dir
    case Outgoing => true
    case Incoming => false
    case Unknown => Contains(local, p.sip)
  }

  /** Outgoing() remembers its answer in the packet. */
  function Resolve(p: Packet, local: seq<nat>): Packet {
    p.(dir := if IsOutgoing(p, local) then Outgoing else Incoming)
  }

  predicate Match(p: Packet, q: Packet) {
    p.sport == q.sport && p.dport == q.dport && p.sip == q.sip && p.dip == q.dip
  }

  predicate MatchSource(p: Packet, q: Packet) {
    p.sport == q.sport && p.sip == q.sip
  }

  /** The packet turned so that its source is the local end. */
  function Facing(p: Packet): Packet {
    if p.dir == Outgoing then p else NewInverted(p)
  }

  // ---------------------------------------------------------------- connections

  datatype Conn = Conn(ref: Packet, sumSent: nat, sumRecv: nat, sent: seq<Entry>, recv: seq<Entry>, last: int)

  function EntryOf(p: Packet): Entry {
    Entry(p.sec, p.len)
  }

  /** A new connection for a packet whose direction is resolved. */
  function NewConn(p: Packet): Conn {
    if p.dir == Outgoing then Conn(p, Wrap(p.len), 0, Added([], EntryOf(p)), [], p.sec)
    else Conn(NewInverted(p), 0, Wrap(p.len), [], Added([], EntryOf(p)), p.sec)
  }

  function AddTo(c: Conn, p: Packet): Conn {
    if p.dir == Outgoing then c.(last := p.sec, sumSent := Wrap(c.sumSent + p.len), sent := Added(c.sent, EntryOf(p)))
    else c.(last := p.sec, sumRecv := Wrap(c.sumRecv + p.len), recv := Added(c.recv, EntryOf(p)))
  }

  function Trim(c: Conn, now: int): Conn {
    c.(sent := Recent(c.sent, now - PERIOD), recv := Recent(c.recv, now - PERIOD))
  }

  predicate Stalled(c: Conn, now: int) {
    c.last <= now - CONNTIMEOUT
  }

  // ---------------------------------------------------------------- the monitor

  datatype Proc = Proc(id: nat, pid: int, name: string, device: string, uid: nat, conns: seq<nat>)

  datatype Record = Record(id: nat, name: string, pid: int, uid: nat, device: string,
                           sentBytes: nat, recvBytes: nat, sentRate: real, recvRate: real)

  datatype Net = Net(local: seq<nat>, now: int, table: map<nat, Conn>, global: seq<nat>, procs: seq<Proc>,
                     records: map<nat, Record>, lastRecord: nat, next: nat)

  /** The process of unknown TCP traffic. */
  const UNKNOWN: nat := 0

  function Init(local: seq<nat>, now: int): Net {
    Net(local, now, map[], [], [Proc(UNKNOWN, 0, "unknown TCP", "", 0, [])], map[], 0, 1)
  }

  function FirstMatch(table: map<nat, Conn>, ids: seq<nat>, p: Packet): Option<nat> {
    if ids == [] then None
    else if ids[0] in table && Match(p, table[ids[0]].ref) then Some(ids[0])
    else FirstMatch(table, ids[1..], p)
  }

  function FirstSource(table: map<nat, Conn>, ids: seq<nat>, p: Packet): Option<nat> {
    if ids == [] then None
    else if ids[0] in table && MatchSource(p, table[ids[0]].ref) then Some(ids[0])
    else FirstSource(table, ids[1..], p)
  }

  /** The connection of a resolved packet: the same four-tuple if there is one, the same source otherwise. */
  function FindConnection(net: Net, p: Packet): Option<nat> {
    var q := Facing(p);
    var exact := FirstMatch(net.table, net.global, q);
    if exact.Some? then exact else FirstSource(net.table, net.global, q)
  }

  /** What the connection-to-inode and inode-to-process tables answer. */
  datatype Lookup = NoInode | NoProgram | Program(pid: int, name: string, uid: nat)

  function FindPid(procs: seq<Proc>, pid: int): (i: nat)
    ensures i <= |procs|
  {
    if procs == [] || procs[0].pid == pid then 0 else 1 + FindPid(procs[1..], pid)
  }

  /** Adds a new connection to the process the lookup names, or to a new process. */
  function Attach(procs: seq<Proc>, newId: nat, id: nat, lookup: Lookup, device: string, hash: string): seq<Proc> {
    match lookup
    case Program(pid, name, uid) =>
      var i := FindPid(procs, pid);
      if i < |procs| then procs[i := procs[i].(conns := [id] + procs[i].conns)]
      else [Proc(newId, pid, name, device, uid, [id])] + procs
    case _ => [Proc(newId, 0, hash, "", 0, [id])] + procs
  }

  /** One packet arrives. */
  function Dispatch(net: Net, packet: Packet, lookup: Lookup, device: string, hash: string): Net {
    var p := Resolve(packet, net.local);
    match FindConnection(net, p)
    case Some(id) =>
      if id in net.table then net.(now := p.sec, table := net.table[id := AddTo(net.table[id], p)]) else net
    case None =>
      net.(now := p.sec, table := net.table[net.next := NewConn(p)], global := [net.next] + net.global,
           procs := Attach(net.procs, net.next + 1, net.next, lookup, device, hash), next := net.next + 2)
  }

  // ---------------------------------------------------------------- the periodic update

  function LastPacket(table: map<nat, Conn>, ids: seq<nat>): (last: int)
    ensures last >= 0 && forall id :: id in ids && id in table ==> last >= table[id].last
    ensures last == 0 || exists id :: id in ids && id in table && last == table[id].last
  {
    if ids == [] then 0
    else
      var rest := LastPacket(table, ids[1..]);
      if ids[0] in table && table[ids[0]].last > rest then table[ids[0]].last else rest
  }

  predicate Expired(net: Net, p: Proc) {
    LastPacket(net.table, p.conns) + PROCESSTIMEOUT <= net.now && p.id != UNKNOWN
  }

  predicate Alive(table: map<nat, Conn>, id: nat, now: int) {
    id in table && !Stalled(table[id], now)
  }

  /** The connections of a process that are not stalled, in order. */
  function Keep(table: map<nat, Conn>, ids: seq<nat>, now: int): seq<nat> {
    if ids == [] then []
    else if Alive(table, ids[0], now) then [ids[0]] + Keep(table, ids[1..], now)
    else Keep(table, ids[1..], now)
  }

  /** The stalled connections of a process are deleted, the packet lists of the others are trimmed. */
  function Walk(table: map<nat, Conn>, ids: seq<nat>, now: int): map<nat, Conn> {
    map id | id in table && (id in ids ==> !Stalled(table[id], now)) :: if id in ids then Trim(table[id], now) else table[id]
  }

  /** The global list without the ids that are no longer in the table. */
  function Live(table: map<nat, Conn>, ids: seq<nat>): seq<nat> {
    if ids == [] then []
    else if ids[0] in table then [ids[0]] + Live(table, ids[1..])
    else Live(table, ids[1..])
  }

  /** Sums over connections, before wrapping. */
  function RecentSent(table: map<nat, Conn>, ids: seq<nat>, now: int): nat {
    if ids == [] then 0
    else (if ids[0] in table then RecentSum(table[ids[0]].sent, now - PERIOD) else 0) + RecentSent(table, ids[1..], now)
  }

  function RecentRecv(table: map<nat, Conn>, ids: seq<nat>, now: int): nat {
    if ids == [] then 0
    else (if ids[0] in table then RecentSum(table[ids[0]].recv, now - PERIOD) else 0) + RecentRecv(table, ids[1..], now)
  }

  function TotalSent(table: map<nat, Conn>, ids: seq<nat>): nat {
    if ids == [] then 0
    else (if ids[0] in table then table[ids[0]].sumSent else 0) + TotalSent(table, ids[1..])
  }

  function TotalRecv(table: map<nat, Conn>, ids: seq<nat>): nat {
    if ids == [] then 0
    else (if ids[0] in table then table[ids[0]].sumRecv else 0) + TotalRecv(table, ids[1..])
  }

  /** Kilobytes per second over the window. */
  function Rate(bytes: nat): real {
    bytes as real / PERIOD as real / 1024.0
  }

  datatype Event = Set(data: Record) | Remove(data: Record)

  /** The record reported for a process after its connections were walked. */
  function Report(id: nat, p: Proc, kept: seq<nat>, table: map<nat, Conn>, now: int): Record {
    Record(id, p.name, p.pid, p.uid, p.device,
           Wrap(TotalSent(table, kept)), Wrap(TotalRecv(table, kept)),
           Rate(Wrap(RecentSent(table, kept, now))), Rate(Wrap(RecentRecv(table, kept, now))))
  }

  predicate SameNumbers(r: Record, s: Record) {
    r.uid == s.uid && r.sentBytes == s.sentBytes && r.recvBytes == s.recvBytes && r.sentRate == s.sentRate && r.recvRate == s.recvRate
  }

  datatype Updated = Updated(net: Net, events: seq<Event>)

  function RemoveProc(net: Net, i: nat): Updated
    requires i < |net.procs|
  {
    var id := net.procs[i].id;
    Updated(net.(procs := net.procs[..i] + net.procs[i + 1..], records := net.records - {id}),
            if id in net.records then [Remove(net.records[id])] else [])
  }

  /** getkbps, gettotal and the record of process i. */
  function RefreshProc(net: Net, i: nat): Updated
    requires i < |net.procs|
  {
    var p := net.procs[i];
    var kept := Keep(net.table, p.conns, net.now);
    var table := Walk(net.table, p.conns, net.now);
    var isNew := p.id !in net.records;
    var number := if isNew then net.lastRecord + 1 else net.records[p.id].id;
    var data := Report(number, p, kept, table, net.now);
    var stored := if isNew then data else data.(name := net.records[p.id].name, pid := net.records[p.id].pid);
    Updated(net.(table := table, global := Live(table, net.global), procs := net.procs[i := p.(conns := kept)],
                 records := net.records[p.id := stored], lastRecord := if isNew then number else net.lastRecord),
            if isNew || !SameNumbers(stored, net.records[p.id]) then [Set(stored)] else [])
  }

  /** The loop of the update from position i on. */
  function UpdateFrom(net: Net, i: nat): Updated
    requires i <= |net.procs|
    decreases |net.procs| - i
  {
    if i == |net.procs| then Updated(net, [])
    else if Expired(net, net.procs[i]) then
      var step := RemoveProc(net, i);
      var rest := UpdateFrom(step.net, i);
      Updated(rest.net, step.events + rest.events)
    else
      var step := RefreshProc(net, i);
      var rest := UpdateFrom(step.net, i + 1);
      Updated(rest.net, step.events + rest.events)
  }

  function Update(net: Net): Updated {
    UpdateFrom(net, 0)
  }

  /** One turn of that loop, and the position of the next one. */
  function TurnNet(net: Net, i: nat): Net
    requires i < |net.procs|
  {
    if Expired(net, net.procs[i]) then RemoveProc(net, i).net else RefreshProc(net, i).net
  }

  function TurnIndex(net: Net, i: nat): nat
    requires i < |net.procs|
  {
    if Expired(net, net.procs[i]) then i else i + 1
  }

  lemma UpdateTurns(net: Net, i: nat)
    requires i < |net.procs|
    ensures var net', j := TurnNet(net, i), TurnIndex(net, i);
            j <= |net'.procs| && |net'.procs| - j < |net.procs| - i && UpdateFrom(net, i).net == UpdateFrom(net', j).net
  {
  }
}
