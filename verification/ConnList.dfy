/** The linked lists of connections in memory.  The same connection is in the global list and in that of its
    process, by different links. */
module ConnLists {
  import opened NetConnections
  import opened NetWalk

  class ConnList {
    const val: Connection
    var next: ConnList?
    ghost const list: ConnectionList  // the list it belongs to: no two lists share a link

    constructor (val: Connection, next: ConnList?, ghost list: ConnectionList)
      ensures this.val == val && this.next == next && this.list == list
    {
      this.val, this.next, this.list := val, next, list;
    }
  }

  /** What the walk leaves that has come to position k and takes out the links of a connection. */
  ghost function WalkFrom(list: seq<Connection>, k: nat, c: Connection): seq<Connection>
    requires k <= |list|
    decreases |list| - k
  {
    if k == |list| then list
    else if list[k] == c then WalkFrom(list[..k] + list[k + 1..], k, c)
    else WalkFrom(list, k + 1, c)
  }

  lemma WithoutAt(nodes: seq<ConnList>, k: nat)
    requires k < |nodes| && forall i, j :: 0 <= i < j < |nodes| ==> nodes[i] != nodes[j]
    ensures var rest := nodes[..k] + nodes[k + 1..];
            && (forall i, j :: 0 <= i < j < |rest| ==> rest[i] != rest[j])
            && (forall n :: n in rest ==> n in nodes && n != nodes[k])
  {
  }

  /** A list by its first link. */
  class ConnectionList {
    var first: ConnList?
    ghost var nodes: seq<ConnList>
    ghost var vals: seq<Connection>

    ghost predicate Valid()
      reads this, nodes
    {
      && |vals| == |nodes| && (forall i :: 0 <= i < |nodes| ==> nodes[i].val == vals[i])
      && first == At(0) && (forall i {:trigger nodes[i].next} :: 0 <= i < |nodes| ==> nodes[i].next == At(i + 1))
      && (forall i, j :: 0 <= i < j < |nodes| ==> nodes[i] != nodes[j])
      && (forall n :: n in nodes ==> n.list == this)
    }

    /** The link at a position, null behind the last one. */
    ghost function At(k: int): ConnList?
      reads this
    {
      if 0 <= k < |nodes| then nodes[k] else null
    }

    /** A walk is at a position: at this link, and behind that one. */
    ghost predicate Between(previous: ConnList?, current: ConnList?, k: nat)
      reads this
    {
      previous == At(k - 1) && current == At(k)
    }

    constructor ()
      ensures Valid() && nodes == [] && vals == []
    {
      first, nodes, vals := null, [], [];
    }

    lemma Begin()
      requires Valid()
      ensures first == At(0)
    {
    }

    lemma Link(k: nat)
      requires Valid() && k < |nodes|
      ensures nodes[k] == At(k) && nodes[k].next == At(k + 1) && nodes[k].val == vals[k]
    {
    }

    method Prepend(val: Connection)
      requires Valid()
      modifies this
      ensures Valid() && vals == [val] + old(vals) && |nodes| > 0 && fresh(nodes[0]) && nodes[1..] == old(nodes)
      ensures forall n :: n in nodes ==> n == nodes[0] || n in old(nodes)
      ensures forall l: ConnectionList :: l != this && old(allocated(l)) && old(l.Valid()) ==> l.Valid()
    {
      first := new ConnList(val, first, this);
      nodes, vals := [first] + nodes, [val] + vals;
    }

    /** Takes the link at position k out; previous is the one before it. */
    method Unlink(previous: ConnList?, todelete: ConnList, curconn: ConnList?, ghost k: nat)
      requires Valid() && Between(previous, todelete, k) && curconn == todelete.next
      modifies this, previous
      ensures Valid() && k < old(|nodes|) == old(|vals|)
      ensures nodes == old(nodes)[..k] + old(nodes)[k + 1..] && vals == old(vals)[..k] + old(vals)[k + 1..]
      ensures forall n :: n in nodes ==> n in old(nodes)
      ensures Between(previous, curconn, k)
      ensures forall l: ConnectionList :: l != this && old(allocated(l)) && old(l.Valid()) ==> l.Valid()
    {
      Link(k);
      if todelete == first {
        first := curconn;
      }
      if previous != null {
        previous.next := curconn;
      }
      WithoutAt(nodes, k);
      nodes, vals := nodes[..k] + nodes[k + 1..], vals[..k] + vals[k + 1..];
      forall l: ConnectionList | l != this && old(allocated(l)) && old(l.Valid()) ensures l.Valid() {
        assert forall n :: n in l.nodes ==> n.next == old(n.next);
      }
    }

    /** One turn of the walk of the destructor. */
    method RemoveNext(c: Connection, previous: ConnList?, current: ConnList, ghost k: nat)
      returns (previous': ConnList?, current': ConnList?, ghost k': nat)
      requires Valid() && Between(previous, current, k)
      modifies this, previous
      ensures Valid() && k' <= |nodes| && Between(previous', current', k') && |nodes| - k' == old(|nodes|) - k - 1
      ensures WalkFrom(vals, k', c) == WalkFrom(old(vals), k, c)
      ensures forall n :: n in nodes ==> n in old(nodes)
      ensures forall l: ConnectionList :: l != this && old(allocated(l)) && old(l.Valid()) ==> l.Valid()
    {
      Link(k);
      current' := current.next;
      if current.val == c {
        Unlink(previous, current, current', k);
        previous', k' := previous, k;
      } else {
        previous', k' := current, k + 1;
      }
    }

    /** The walk of the destructor: every link of a connection is taken out. */
    method RemoveConnection(c: Connection)
      requires Valid()
      modifies this, nodes
      ensures Valid() && vals == RemoveAll(old(vals), c)
      ensures forall n :: n in nodes ==> n in old(nodes)
      ensures forall l: ConnectionList :: l != this && old(allocated(l)) && old(l.Valid()) ==> l.Valid()
    {
      var current := first;
      var previous: ConnList? := null;
      ghost var k: nat := 0;
      WalkIsRemoveAll(vals, c);
      while current != null
        invariant Valid() && k <= |nodes| && Between(previous, current, k)
        invariant WalkFrom(vals, k, c) == RemoveAll(old(vals), c)
        invariant forall n :: n in nodes ==> n in old(nodes)
        invariant forall l: ConnectionList :: l != this && old(allocated(l)) && old(l.Valid()) ==> l.Valid()
        decreases |nodes| - k
      {
        assert previous != null ==> previous in nodes;
        previous, current, k := RemoveNext(c, previous, current, k);
      }
    }
  }

  lemma {:induction false} WalkFromKeeps(list: seq<Connection>, k: nat, c: Connection)
    requires k <= |list|
    ensures WalkFrom(list, k, c) == list[..k] + RemoveAll(list[k..], c)
    decreases |list| - k
  {
    if k < |list| {
      if list[k] == c {
        var next := list[..k] + list[k + 1..];
        WalkFromKeeps(next, k, c);
        assert next[..k] == list[..k] && next[k..] == list[k + 1..] && list[k..][1..] == list[k + 1..];
      } else {
        WalkFromKeeps(list, k + 1, c);
        assert list[k..][1..] == list[k + 1..] && list[..k + 1] == list[..k] + [list[k]];
      }
    }
  }

  /** Taking the links of a connection out one by one removes it from the list, and keeps the order. */
  lemma WalkIsRemoveAll(list: seq<Connection>, c: Connection)
    ensures WalkFrom(list, 0, c) == RemoveAll(list, c)
  {
    WalkFromKeeps(list, 0, c);
    assert list[0..] == list;
  }
}
