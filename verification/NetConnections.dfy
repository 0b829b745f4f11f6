/** A connection as an object: its packets of the last seconds are in two linked lists in memory. */
module NetConnections {
  import opened PackLists
  import opened NetModel
  import opened NetSystem

  class Connection {
    ghost const id: nat
    var refpacket: Packet
    var sumSent: nat
    var sumRecv: nat
    const sentPackets: PackList
    const recvPackets: PackList
    var lastpacket: int

    /** The connection of the model that this object stands for. */
    ghost function View(): Conn
      reads this, sentPackets, recvPackets
    {
      Conn(refpacket, sumSent, sumRecv, sentPackets.entries, recvPackets.entries, lastpacket)
    }

    ghost predicate Valid()
      reads sentPackets, sentPackets.nodes, recvPackets, recvPackets.nodes
    {
      OwnLists() && sentPackets.Valid() && recvPackets.Valid()
    }

    /** No other connection has one of its packet lists. */
    ghost predicate OwnLists() {
      sentPackets.owner == recvPackets.owner == id && sentPackets.out && !recvPackets.out
    }

    /** Whichever way the packet goes, the reference packet leaves from its local end, and the packet is
        the one entry of the list of its direction. */
    constructor (ghost id: nat, packet: Packet)
      requires packet.dir != Unknown
      ensures Valid() && fresh(sentPackets) && fresh(recvPackets)
      ensures forall n :: n in sentPackets.nodes || n in recvPackets.nodes ==> fresh(n)
      ensures this.id == id && View() == NewConn(packet)
      ensures refpacket.dir == Outgoing && LocalEnd(refpacket) == LocalEnd(packet)
      ensures if packet.dir == Outgoing then sentPackets.entries == [EntryOf(packet)] && recvPackets.entries == []
              else recvPackets.entries == [EntryOf(packet)] && sentPackets.entries == []
    {
      this.id := id;
      sumSent, sumRecv, refpacket, lastpacket := 0, 0, packet, packet.sec;
      sentPackets := new PackList(id, true);
      recvPackets := new PackList(id, false);
      new;
      if packet.dir == Outgoing {
        CountSent(packet);
      } else {
        CountReceived(packet);
        refpacket := NewInverted(packet);
      }
    }

    method CountSent(packet: Packet)
      requires Valid()
      modifies `sumSent, sentPackets, sentPackets.nodes
      ensures Valid() && sumSent == Wrap(old(sumSent) + packet.len) &&
              sentPackets.entries == Added(old(sentPackets.entries), EntryOf(packet))
      ensures forall n :: n in sentPackets.nodes ==> n in old(sentPackets.nodes) || fresh(n)
      ensures forall l: PackList :: l != sentPackets && old(allocated(l)) && old(l.Valid()) ==> l.Valid()
    {
      sumSent := Wrap(sumSent + packet.len);
      sentPackets.Add(EntryOf(packet));
    }

    method CountReceived(packet: Packet)
      requires Valid()
      modifies `sumRecv, recvPackets, recvPackets.nodes
      ensures Valid() && sumRecv == Wrap(old(sumRecv) + packet.len) &&
              recvPackets.entries == Added(old(recvPackets.entries), EntryOf(packet))
      ensures forall n :: n in recvPackets.nodes ==> n in old(recvPackets.nodes) || fresh(n)
      ensures forall l: PackList :: l != recvPackets && old(allocated(l)) && old(l.Valid()) ==> l.Valid()
    {
      sumRecv := Wrap(sumRecv + packet.len);
      recvPackets.Add(EntryOf(packet));
    }

    /** A packet of this connection. */
    method Add(packet: Packet)
      requires Valid() && packet.dir != Unknown
      modifies `lastpacket, `sumSent, `sumRecv, sentPackets, sentPackets.nodes, recvPackets, recvPackets.nodes
      ensures Valid() && View() == AddTo(old(View()), packet)
      ensures forall n :: n in sentPackets.nodes ==> n in old(sentPackets.nodes) || fresh(n)
      ensures forall n :: n in recvPackets.nodes ==> n in old(recvPackets.nodes) || fresh(n)
      ensures forall l: PackList :: l != sentPackets && l != recvPackets && old(allocated(l)) && old(l.Valid()) ==> l.Valid()
    {
      lastpacket := packet.sec;
      if packet.dir == Outgoing {
        CountSent(packet);
      } else {
        CountReceived(packet);
      }
    }

    /** The bytes of the last PERIOD seconds; what is older is cut off both lists. */
    method SumAndDel(now: int) returns (recv: nat, sent: nat)
      requires Valid()
      modifies sentPackets, sentPackets.nodes, recvPackets, recvPackets.nodes
      ensures Valid() && View() == Trim(old(View()), now)
      ensures sent == RecentSum(old(sentPackets.entries), now - PERIOD) && recv == RecentSum(old(recvPackets.entries), now - PERIOD)
      ensures forall n :: n in sentPackets.nodes ==> n in old(sentPackets.nodes)
      ensures forall n :: n in recvPackets.nodes ==> n in old(recvPackets.nodes)
      ensures forall l: PackList :: l != sentPackets && l != recvPackets && old(allocated(l)) && old(l.Valid()) ==> l.Valid()
    {
      sent := sentPackets.SumAndDel(now);
      recv := recvPackets.SumAndDel(now);
    }
  }
}
