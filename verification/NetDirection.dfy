/** Which way a packet went, and what takes it: told from its addresses and the local ones. */
module NetDirection {
  import opened Common
  import opened PackLists
  import opened NetModel
  import opened NetOwnership
  import opened NetSystem
  import opened NetListing
  import opened NetConservation

  lemma {:induction false} ContainsIff(local: seq<nat>, a: nat)
    ensures Contains(local, a) <==> a in local
  {
    if local != [] {
      ContainsIff(local[1..], a);
      assert local == [local[0]] + local[1..];
    }
  }

  /** The packet leaves this machine: it says so, or it comes from a local address. */
  predicate IsUpload(packet: Packet, local: seq<nat>) {
    packet.dir == Outgoing || (packet.dir == Unknown && packet.sip in local)
  }

  lemma ResolvedDirection(packet: Packet, local: seq<nat>)
    ensures Resolve(packet, local) == packet.(dir := if IsUpload(packet, local) then Outgoing else Incoming)
  {
    ContainsIff(local, packet.sip);
  }

  lemma AddsInDirection(packet: Packet, local: seq<nat>, out: bool)
    requires packet.dir == Unknown
    ensures Adds(Resolve(packet, local), out) == if packet.sip in local <==> out then packet.len else 0
  {
    ResolvedDirection(packet, local);
  }

  /** The bytes of a packet are added to those sent if it comes from a local address, and to those received
      otherwise, in 32-bit arithmetic. */
  lemma PacketIsCounted(net: Net, packet: Packet, lookup: Lookup, device: string, hash: string, out: bool)
    requires GlobalListed(net) && EndpointsDistinct(net.table) && net.next !in net.table && packet.dir == Unknown
    ensures var net' := Dispatch(net, packet, lookup, device, hash);
            Wrap(TotalOf(net'.table, net'.global, out)) ==
            Wrap(TotalOf(net.table, net.global, out) + if packet.sip in net.local <==> out then packet.len else 0)
  {
    AddsInDirection(packet, net.local, out);
    DispatchTotal(net, packet, lookup, device, hash, out);
  }

  /** The end of a packet that is on this machine. */
  function HomeEnd(packet: Packet, local: seq<nat>): (nat, nat) {
    if IsUpload(packet, local) then (packet.sip, packet.sport) else (packet.dip, packet.dport)
  }

  /** The one connection that a packet changes: its reference packet leaves from the local end of the packet,
      this was its last packet, and the bytes are added in its direction. */
  ghost predicate Takes(table: map<nat, Conn>, table': map<nat, Conn>, id: nat, packet: Packet, local: seq<nat>) {
    && id in table' && (forall x :: x != id ==> (x in table' <==> x in table) && (x in table ==> table'[x] == table[x]))
    && table'[id].ref.dir == Outgoing && (table'[id].ref.sip, table'[id].ref.sport) == HomeEnd(packet, local)
    && table'[id].last == packet.sec
    && table'[id].sumSent == Wrap((if id in table then table[id].sumSent else 0) + if IsUpload(packet, local) then packet.len else 0)
    && table'[id].sumRecv == Wrap((if id in table then table[id].sumRecv else 0) + if IsUpload(packet, local) then 0 else packet.len)
  }

  /** The sums are those of unsigned 32-bit fields. */
  ghost predicate SumsFit(table: map<nat, Conn>) {
    forall id :: id in table ==> table[id].sumSent < U32 && table[id].sumRecv < U32
  }

  lemma SmallWrap(n: nat)
    requires n < U32
    ensures Wrap(n) == n
  {
  }

  lemma KnownTakes(table: map<nat, Conn>, id: nat, packet: Packet, local: seq<nat>)
    requires id in table && table[id].ref.dir == Outgoing && table[id].sumSent < U32 && table[id].sumRecv < U32
    requires (table[id].ref.sip, table[id].ref.sport) == HomeEnd(packet, local)
    ensures Takes(table, table[id := AddTo(table[id], Resolve(packet, local))], id, packet, local)
  {
    ResolvedDirection(packet, local);
    SmallWrap(table[id].sumSent);
    SmallWrap(table[id].sumRecv);
  }

  lemma NewTakes(table: map<nat, Conn>, id: nat, packet: Packet, local: seq<nat>)
    requires id !in table
    ensures Takes(table, table[id := NewConn(Resolve(packet, local))], id, packet, local)
  {
    ResolvedDirection(packet, local);
    SmallWrap(0);
  }

  lemma FoundAtHome(net: Net, packet: Packet)
    requires GlobalListed(net) && EndpointsDistinct(net.table)
    ensures forall x :: FindConnection(net, Resolve(packet, net.local)) == Some(x) <==>
                        x in net.table && (net.table[x].ref.sip, net.table[x].ref.sport) == HomeEnd(packet, net.local)
  {
    var p := Resolve(packet, net.local);
    ResolvedDirection(packet, net.local);
    FindIsLookup(net, p);
    forall x | x in net.table ensures LocalEnd(net.table[x].ref) == (net.table[x].ref.sip, net.table[x].ref.sport) {
    }
  }

  /** A packet goes to the connection with its local end if there is one, and to a new one otherwise. */
  lemma PacketIsTaken(net: Net, packet: Packet, lookup: Lookup, device: string, hash: string) returns (id: nat)
    requires GlobalListed(net) && EndpointsDistinct(net.table) && net.next !in net.table && SumsFit(net.table)
    ensures var net' := Dispatch(net, packet, lookup, device, hash);
            Takes(net.table, net'.table, id, packet, net.local) && net'.now == packet.sec
    ensures id in net.table <==> exists x :: x in net.table && (net.table[x].ref.sip, net.table[x].ref.sport) == HomeEnd(packet, net.local)
    ensures id == ConnOf(net, Resolve(packet, net.local))
  {
    FoundAtHome(net, packet);
    match FindConnection(net, Resolve(packet, net.local))
    case Some(found) =>
      id := found;
      KnownTakes(net.table, id, packet, net.local);
    case None =>
      id := net.next;
      NewTakes(net.table, id, packet, net.local);
  }

  // ---------------------------------------------------------------- every run

  /** What passed: up or down, when and how much. */
  datatype Passed = Passed(up: bool, entry: Entry)

  /** What the steps brought, newest first. */
  function Came(local: seq<nat>, steps: seq<Step>): seq<Passed> {
    if steps == [] then []
    else
      var front := Came(local, steps[..|steps| - 1]);
      match steps[|steps| - 1]
      case Arrive(packet, _, _, _) => [Passed(IsUpload(packet, local), Entry(packet.sec, packet.len))] + front
      case _ => front
  }

  function Seen(log: seq<Logged>): seq<Passed> {
    if log == [] then [] else [Passed(log[0].out, log[0].entry)] + Seen(log[1..])
  }

  lemma {:induction false} UpdateKeepsLocal(net: Net, i: nat)
    requires i <= |net.procs|
    ensures UpdateFrom(net, i).net.local == net.local
    decreases |net.procs| - i
  {
    if i < |net.procs| {
      UpdateTurns(net, i);
      UpdateKeepsLocal(TurnNet(net, i), TurnIndex(net, i));
    }
  }

  lemma SeenCons(e: Logged, log: seq<Logged>)
    ensures Seen([e] + log) == [Passed(e.out, e.entry)] + Seen(log)
  {
    assert ([e] + log)[1..] == log;
  }

  lemma StepSeen(s: Sys, step: Step)
    ensures Exec(s, step).net.local == s.net.local
    ensures Seen(Exec(s, step).log) ==
            if step.Arrive? then [Passed(IsUpload(step.packet, s.net.local), Entry(step.packet.sec, step.packet.len))] + Seen(s.log)
            else Seen(s.log)
  {
    match step
    case Tick(_) =>
    case Arrive(packet, _, _, _) =>
      ResolvedDirection(packet, s.net.local);
      SeenCons(Exec(s, step).log[0], s.log);
    case Refresh => UpdateKeepsLocal(s.net, 0);
  }

  /** In every run, the log has every packet once, as sent exactly if it came from a local address: the totals,
      windows and rates of the log are those of real upload and download. */
  lemma {:induction false} LogIsWhatCame(local: seq<nat>, now: int, steps: seq<Step>)
    ensures var s := After(Start(local, now), steps); s.net.local == local && Seen(s.log) == Came(local, steps)
  {
    if steps != [] {
      LogIsWhatCame(local, now, steps[..|steps| - 1]);
      StepSeen(After(Start(local, now), steps[..|steps| - 1]), steps[|steps| - 1]);
    }
  }

  lemma StepSumsFit(s: Sys, step: Step)
    requires AllListed(s.net) && EndpointsDistinct(s.net.table) && SumsFit(s.net.table)
    ensures SumsFit(Exec(s, step).net.table)
  {
    match step
    case Tick(_) =>
    case Arrive(packet, lookup, device, hash) =>
      var id := PacketIsTaken(s.net, packet, lookup, device, hash);
    case Refresh => UpdateAges(s.net, 0);
  }

  lemma {:induction false} EveryRunSumsFit(local: seq<nat>, now: int, steps: seq<Step>)
    ensures SumsFit(After(Start(local, now), steps).net.table)
  {
    if steps != [] {
      var front := steps[..|steps| - 1];
      EveryRunSumsFit(local, now, front);
      EveryRunIsListed(local, now, front);
      EveryRunHasDistinctEndpoints(local, now, front);
      StepSumsFit(After(Start(local, now), front), steps[|steps| - 1]);
    }
  }

  /** In every run, the next packet goes to the connection with its local end, and is counted there in its
      direction. */
  lemma NextPacketIsTaken(local: seq<nat>, now: int, steps: seq<Step>, packet: Packet, lookup: Lookup, device: string, hash: string)
    returns (id: nat)
    ensures var s := After(Start(local, now), steps);
            var t := Exec(s, Arrive(packet, lookup, device, hash));
            && Takes(s.net.table, t.net.table, id, packet, local)
            && |t.log| > 0 && t.log[0].conn == id && (t.log[0].out <==> IsUpload(packet, local))
            && (id in s.net.table <==> exists x :: x in s.net.table && (s.net.table[x].ref.sip, s.net.table[x].ref.sport) == HomeEnd(packet, local))
  {
    EveryRunSumsFit(local, now, steps);
    EveryRunIsListed(local, now, steps);
    EveryRunHasDistinctEndpoints(local, now, steps);
    LogIsWhatCame(local, now, steps);
    ResolvedDirection(packet, local);
    id := PacketIsTaken(After(Start(local, now), steps).net, packet, lookup, device, hash);
  }
}
