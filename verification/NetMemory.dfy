/** The memory of the monitor as values: all lists of connections, and all connections with their packet
    lists.  No two lists share a link or a node, so a change to one of them leaves the others as they are. */
module NetMemory {
  import opened PackLists
  import opened NetModel
  import opened NetWalk
  import opened NetConnections
  import opened ConnLists

  /** All lists of connections there ever were. */
  class ListMemory {
    ghost var held: map<ConnectionList, seq<Connection>>  // what each list holds
    ghost var lists: set<ConnectionList>                  // the lists themselves
    ghost var cells: set<ConnList>                        // their links

    /** A list is in order, and holds what the account says. */
    ghost predicate Keeps(l: ConnectionList)
      requires l in held
      reads this, lists, cells
    {
      l in lists && l.vals == held[l] && (forall n :: n in l.nodes ==> n in cells) && l.Valid()
    }

    ghost predicate Valid()
      reads this, lists, cells
    {
      forall l {:trigger Keeps(l)} :: l in held ==> Keeps(l)
    }

    lemma Entered(l: ConnectionList)
      requires Valid() && l in held
      ensures l in lists && l.Valid() && l.vals == held[l]
    {
      assert Keeps(l);
    }

    constructor WithTwo(k: ConnectionList, l: ConnectionList)
      requires k.Valid() && l.Valid() && k.nodes == l.nodes == []
      ensures Valid() && held == map[k := [], l := []] && lists == {k, l} && cells == {}
    {
      held, lists, cells := map[k := [], l := []], {k, l}, {};
    }

    ghost method Enter(l: ConnectionList)
      requires Valid() && l !in held && l.Valid() && l.nodes == []
      modifies `held, `lists
      ensures Valid() && held == old(held)[l := []] && lists == old(lists) + {l}
    {
      held, lists := held[l := []], lists + {l};
      forall k | k in old(held) ensures Keeps(k) {
        assert old(Keeps(k));
      }
      assert Keeps(l);
    }

    /** A list holds something else. */
    ghost method Update(l: ConnectionList)
      requires l in held && l in lists && l.Valid() && (forall n :: n in l.nodes ==> n in cells)
      requires forall k {:trigger Keeps(k)} :: k in held && k != l ==> Keeps(k)
      modifies `held
      ensures Valid() && held == old(held)[l := l.vals]
    {
      held := held[l := l.vals];
      forall k | k in held ensures Keeps(k) {
        assert k != l ==> old(Keeps(k));
      }
    }

    method Prepend(l: ConnectionList, c: Connection)
      requires Valid() && l in held
      modifies `held, `cells, l
      ensures Valid() && held == old(held)[l := [c] + old(held)[l]] && (forall n :: n in cells ==> n in old(cells) || fresh(n))
    {
      Entered(l);
      assert Keeps(l);
      l.Prepend(c);
      cells := cells + {l.nodes[0]};
      forall k | k in held && k != l ensures Keeps(k) {
        assert old(Keeps(k));
      }
      Update(l);
    }

    method Unlink(l: ConnectionList, previous: ConnList?, todelete: ConnList, curconn: ConnList?, ghost k: nat)
      requires Valid() && l in held && l.Between(previous, todelete, k) && curconn == todelete.next
      modifies `held, l, cells
      ensures Valid() && k < |old(held)[l]| && held == old(held)[l := old(held)[l][..k] + old(held)[l][k + 1..]]
      ensures l.Between(previous, curconn, k)
    {
      Entered(l);
      assert Keeps(l) && (previous != null ==> previous in l.nodes);
      l.Unlink(previous, todelete, curconn, k);
      forall k | k in held && k != l ensures Keeps(k) {
        assert old(Keeps(k));
      }
      Update(l);
    }

    method RemoveConnection(l: ConnectionList, c: Connection)
      requires Valid() && l in held
      modifies `held, l, cells
      ensures Valid() && held == old(held)[l := RemoveAll(old(held)[l], c)]
      ensures forall k :: k in held && k != l ==> k.nodes == old(k.nodes)
    {
      Entered(l);
      assert Keeps(l);
      l.RemoveConnection(c);
      forall k | k in held && k != l ensures Keeps(k) {
        assert old(Keeps(k));
      }
      Update(l);
    }
  }

  /** All packet lists there ever were. */
  class PacketMemory {
    ghost var packs: set<PackList>
    ghost var links: set<PackListNode>  // their nodes

    ghost predicate Valid()
      reads this, packs, links
    {
      && (forall l {:trigger l.nodes} :: l in packs ==> forall n :: n in l.nodes ==> n in links)
      && (forall l {:trigger l.Valid()} :: l in packs ==> l.Valid())
    }

    /** The packet lists of a connection, which are no other connection's. */
    ghost predicate Has(c: Connection)
      reads this
    {
      c.OwnLists() && c.sentPackets in packs && c.recvPackets in packs
    }

    constructor ()
      ensures Valid() && packs == {} && links == {}
    {
      packs, links := {}, {};
    }

    /** The nodes of a connection are entered. */
    ghost method EnterNodes(c: Connection)
      requires c.Valid() && (forall l {:trigger l.Valid()} :: l in packs ==> l.Valid())
      requires forall l {:trigger l.nodes} :: l in packs && l != c.sentPackets && l != c.recvPackets ==> forall n :: n in l.nodes ==> n in links
      modifies `packs, `links
      ensures Valid() && Has(c) && packs == old(packs) + {c.sentPackets, c.recvPackets}
      ensures forall n :: n in links ==> n in old(links) || n in c.sentPackets.nodes || n in c.recvPackets.nodes
    {
      packs := packs + {c.sentPackets, c.recvPackets};
      links := links + (set n | n in c.sentPackets.nodes) + (set n | n in c.recvPackets.nodes);
    }

    method NewConnection(packet: Packet, ghost id: nat) returns (c: Connection)
      requires Valid() && packet.dir != Unknown
      modifies this
      ensures Valid() && Has(c) && fresh(c) && c.id == id && c.View() == NewConn(packet)
      ensures (forall o :: o in packs ==> o in old(packs) || fresh(o)) &&
              (forall n :: n in links ==> n in old(links) || fresh(n)) && old(packs) <= packs
    {
      c := new Connection(id, packet);
      EnterNodes(c);
    }

    method CountPacket(c: Connection, packet: Packet)
      requires Valid() && Has(c) && packet.dir != Unknown
      modifies `packs, `links, c, c.sentPackets, c.recvPackets, links
      ensures Valid() && c.View() == AddTo(old(c.View()), packet) &&
              (forall n :: n in links ==> n in old(links) || fresh(n)) && packs == old(packs)
    {
      assert c.sentPackets.Valid() && c.recvPackets.Valid();
      c.Add(packet);
      EnterNodes(c);
    }

    method SumAndDel(c: Connection, now: int) returns (recv: nat, sent: nat)
      requires Valid() && Has(c)
      modifies c.sentPackets, c.recvPackets, links
      ensures Valid() && c.View() == Trim(old(c.View()), now)
      ensures recv == RecentSum(old(c.View()).recv, now - PERIOD) && sent == RecentSum(old(c.View()).sent, now - PERIOD)
    {
      assert c.sentPackets.Valid() && c.recvPackets.Valid();
      recv, sent := c.SumAndDel(now);
    }
  }

  /** All connections there ever were, by their ids. */
  class ConnectionMemory {
    ghost var conns: map<nat, Connection>
    ghost var views: map<nat, Conn>  // what each connection holds
    ghost var pool: set<Connection>
    const packets: PacketMemory

    /** The connection of an id is in order, and holds what the account says. */
    ghost predicate Holds(id: nat)
      requires id in conns && id in views
      reads this, pool, packets, packets.packs
    {
      conns[id].id == id && conns[id] in pool && packets.Has(conns[id]) && conns[id].View() == views[id]
    }

    ghost predicate Valid()
      reads this, pool, packets, packets.packs
    {
      && (forall id :: id in conns ==> id in views)
      && (forall id {:trigger Holds(id)} :: id in conns ==> Holds(id))
    }

    lemma Entered(id: nat)
      requires Valid() && id in conns
      ensures id in views && conns[id].id == id && conns[id] in pool && packets.Has(conns[id]) && conns[id].View() == views[id]
    {
      assert Holds(id);
    }

    constructor ()
      ensures Valid() && packets.Valid() && conns == map[] && pool == {} && fresh(packets) && packets.packs == {} &&
              packets.links == {}
    {
      conns, views, pool := map[], map[], {};
      packets := new PacketMemory();
    }

    /** A connection with lists of its own is entered under its id. */
    ghost method Enter(c: Connection)
      requires Valid() && packets.Has(c) && c.id !in conns
      modifies `conns, `views, `pool
      ensures Valid() && conns == old(conns)[c.id := c] && views == old(views)[c.id := c.View()] && pool == old(pool) + {c}
    {
      conns, views, pool := conns[c.id := c], views[c.id := c.View()], pool + {c};
      forall id | id in old(conns) ensures Holds(id) {
        assert old(Holds(id));
      }
      assert Holds(c.id);
    }

    /** A connection holds something else. */
    ghost method Update(c: Connection)
      requires c.id in conns && c == conns[c.id] && c in pool && packets.Has(c) && forall id :: id in conns ==> id in views
      requires forall id {:trigger Holds(id)} :: id in conns && id != c.id ==> Holds(id)
      modifies `views
      ensures Valid() && views == old(views)[c.id := c.View()]
    {
      views := views[c.id := c.View()];
      forall id | id in conns ensures Holds(id) {
        assert id != c.id ==> old(Holds(id));
      }
    }

    method Allocate(packet: Packet, ghost id: nat) returns (c: Connection)
      requires Valid() && packets.Valid() && packet.dir != Unknown
      modifies packets
      ensures Valid() && packets.Valid() && packets.Has(c) && fresh(c) && c.id == id && c.View() == NewConn(packet)
      ensures (forall l :: l in packets.packs ==> l in old(packets.packs) || fresh(l)) &&
              (forall n :: n in packets.links ==> n in old(packets.links) || fresh(n))
    {
      c := packets.NewConnection(packet, id);
      forall other | other in conns ensures Holds(other) {
        assert old(Holds(other));
        assert conns[other].View() == old(conns[other].View());
      }
    }

    method NewConnection(packet: Packet, ghost id: nat) returns (c: Connection)
      requires Valid() && packets.Valid() && packet.dir != Unknown && id !in conns
      modifies this, packets
      ensures Valid() && packets.Valid() && fresh(c) && c.id == id
      ensures conns == old(conns)[id := c] && views == old(views)[id := NewConn(packet)]
      ensures (forall o :: o in pool ==> o in old(pool) || fresh(o)) &&
              (forall l :: l in packets.packs ==> l in old(packets.packs) || fresh(l)) &&
              (forall n :: n in packets.links ==> n in old(packets.links) || fresh(n))
    {
      c := Allocate(packet, id);
      Enter(c);
    }

    method CountPacket(c: Connection, packet: Packet)
      requires Valid() && packets.Valid() && c.id in conns && c == conns[c.id] && packet.dir != Unknown
      modifies `views, packets, c, c.sentPackets, c.recvPackets, packets.links
      ensures Valid() && packets.Valid() && c.id in old(views) && views == old(views)[c.id := AddTo(old(views)[c.id], packet)]
      ensures (forall n :: n in packets.links ==> n in old(packets.links) || fresh(n)) && packets.packs == old(packets.packs)
    {
      Entered(c.id);
      packets.CountPacket(c, packet);
      forall other | other in conns && other != c.id ensures Holds(other) {
        assert old(Holds(other)) && conns[other].sentPackets.owner == other;
        assert conns[other].View() == old(conns[other].View());
      }
      Update(c);
    }

    method SumAndDel(c: Connection, now: int) returns (recv: nat, sent: nat)
      requires Valid() && packets.Valid() && c.id in conns && c == conns[c.id]
      modifies `views, c.sentPackets, c.recvPackets, packets.links
      ensures Valid() && packets.Valid() && c.id in old(views) && views == old(views)[c.id := Trim(old(views)[c.id], now)]
      ensures recv == RecentSum(old(views)[c.id].recv, now - PERIOD) && sent == RecentSum(old(views)[c.id].sent, now - PERIOD)
    {
      Entered(c.id);
      recv, sent := packets.SumAndDel(c, now);
      forall other | other in conns && other != c.id ensures Holds(other) {
        assert old(Holds(other)) && conns[other].sentPackets.owner == other;
        assert conns[other].View() == old(conns[other].View());
      }
      Update(c);
    }
  }
}
