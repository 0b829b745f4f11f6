/** The list of recent packets of a connection, newest first: packets of the same second are merged,
    and reading the sum over the last PERIOD seconds deletes the older tail. */
module PackLists {

  /** The averaging window, in seconds. */
  const PERIOD := 5

  const U32: int := 0x1_0000_0000

  /** What u_int32_t arithmetic makes of a sum. */
  function Wrap(n: int): (r: nat)
    ensures r < U32
  {
    n % U32
  }

  /** The seconds and the length of a packet, or of all packets of one second. */
  datatype Entry = Entry(sec: int, len: nat)

  /** The sum of all entries later than the cutoff. */
  function SumSince(es: seq<Entry>, cutoff: int): nat {
    if es == [] then 0
    else (if es[0].sec > cutoff then es[0].len else 0) + SumSince(es[1..], cutoff)
  }

  // ---------------------------------------------------------------- the list as a value

  function Added(es: seq<Entry>, p: Entry): seq<Entry> {
    if es == [] then [p]
    else if es[0].sec == p.sec then es[0 := Entry(p.sec, Wrap(es[0].len + p.len))]
    else [p] + es
  }

  /** How many entries come before the first one at or before the cutoff. */
  function Cut(es: seq<Entry>, cutoff: int): (i: nat)
    ensures i <= |es| && forall k :: 0 <= k < i ==> es[k].sec > cutoff
    ensures i < |es| ==> es[i].sec <= cutoff
  {
    if es == [] || es[0].sec <= cutoff then 0 else 1 + Cut(es[1..], cutoff)
  }

  function Recent(es: seq<Entry>, cutoff: int): seq<Entry> {
    es[..Cut(es, cutoff)]
  }

  function Total(es: seq<Entry>): nat {
    if es == [] then 0 else es[0].len + Total(es[1..])
  }

  lemma {:induction false} TotalSnoc(es: seq<Entry>, e: Entry)
    ensures Total(es + [e]) == Total(es) + e.len
  {
    if es == [] {
      assert es + [e] == [e];
    } else {
      TotalSnoc(es[1..], e);
      assert (es + [e])[1..] == es[1..] + [e];
    }
  }

  function RecentSum(es: seq<Entry>, cutoff: int): nat {
    Wrap(Total(Recent(es, cutoff)))
  }

  /** All entries before position i are recent, and this is their sum. */
  predicate SummedUp(es: seq<Entry>, cutoff: int, i: nat, sum: nat) {
    i <= |es| && sum == Wrap(Total(es[..i])) && forall k :: 0 <= k < i ==> es[k].sec > cutoff
  }

  lemma NextSum(es: seq<Entry>, cutoff: int, i: nat, sum: nat)
    requires i < |es| && es[i].sec > cutoff && SummedUp(es, cutoff, i, sum)
    ensures SummedUp(es, cutoff, i + 1, Wrap(sum + es[i].len))
  {
    assert es[..i + 1] == es[..i] + [es[i]];
    TotalSnoc(es[..i], es[i]);
    WrapWrap(Total(es[..i]), es[i].len);
  }

  lemma Stop(es: seq<Entry>, cutoff: int, i: nat, sum: nat)
    requires SummedUp(es, cutoff, i, sum) && (i < |es| ==> es[i].sec <= cutoff)
    ensures i == Cut(es, cutoff) && RecentSum(es, cutoff) == sum
  {
  }

  lemma WrapWrap(a: int, b: int)
    ensures Wrap(Wrap(a) + b) == Wrap(a + b)
  {
  }

  // ---------------------------------------------------------------- the list in memory

  class PackListNode {
    var val: Entry
    var next: PackListNode?
    ghost const list: PackList  // the list it belongs to: no two lists share a node

    constructor (val: Entry, next: PackListNode?, ghost list: PackList)
      ensures this.val == val && this.next == next && this.list == list
    {
      this.val := val;
      this.next := next;
      this.list := list;
    }
  }

  class PackList {
    var content: PackListNode?
    ghost const owner: nat  // the connection it belongs to
    ghost const out: bool   // and the direction of its packets
    ghost var nodes: seq<PackListNode>
    ghost var entries: seq<Entry>

    ghost predicate Valid()
      reads this, nodes
    {
      && |entries| == |nodes| && (forall i :: 0 <= i < |nodes| ==> nodes[i].val == entries[i])
      && content == At(0) && (forall i {:trigger nodes[i].next} :: 0 <= i < |nodes| ==> nodes[i].next == At(i + 1))
      && (forall i, j :: 0 <= i < j < |nodes| ==> nodes[i] != nodes[j])
      && (forall n :: n in nodes ==> n.list == this)
    }

    /** The node at a position, null behind the last one. */
    ghost function At(k: int): PackListNode?
      reads this
    {
      if 0 <= k < |nodes| then nodes[k] else null
    }

    constructor (ghost owner: nat, ghost out: bool)
      ensures Valid() && entries == [] && nodes == [] && this.owner == owner && this.out == out
    {
      content := null;
      this.owner, this.out, nodes, entries := owner, out, [], [];
    }

    method Add(p: Entry)
      requires Valid()
      modifies this, nodes
      ensures Valid() && entries == Added(old(entries), p)
      ensures forall n :: n in nodes ==> n in old(nodes) || fresh(n)
      ensures forall l: PackList :: l != this && old(allocated(l)) && old(l.Valid()) ==> l.Valid()
    {
      if content == null || content.val.sec != p.sec {
        Prepend(p);
      } else {
        Merge(p);
      }
    }

    /** A packet of another second gets a node of its own, in front. */
    method Prepend(p: Entry)
      requires Valid()
      modifies this
      ensures Valid() && entries == [p] + old(entries) && |nodes| > 0 && fresh(nodes[0]) && nodes[1..] == old(nodes)
      ensures forall l: PackList :: l != this && old(allocated(l)) && old(l.Valid()) ==> l.Valid()
    {
      content := new PackListNode(p, content, this);
      nodes, entries := [content] + nodes, [p] + entries;
    }

    /** A packet of the newest second is added to its node. */
    method Merge(p: Entry)
      requires Valid() && entries != [] && entries[0].sec == p.sec
      modifies this, nodes[0]
      ensures Valid() && entries == Added(old(entries), p) && nodes == old(nodes)
      ensures forall l: PackList :: l != this && old(allocated(l)) && old(l.Valid()) ==> l.Valid()
    {
      content.val := Entry(p.sec, Wrap(content.val.len + p.len));
      entries := Added(entries, p);
      forall l: PackList | l != this && old(allocated(l)) && old(l.Valid()) ensures l.Valid() {
        assert forall n :: n in l.nodes ==> n.val == old(n.val) && n.next == old(n.next);
      }
    }

    /** The list ends before its node i from now on. */
    method CutOff(previous: PackListNode?, current: PackListNode, ghost i: nat)
      requires Valid() && i < |nodes| && current == nodes[i]
      requires previous == At(i - 1)
      modifies this, previous
      ensures Valid() && nodes == old(nodes)[..i] && entries == old(entries)[..i]
      ensures forall l: PackList :: l != this && old(allocated(l)) && old(l.Valid()) ==> l.Valid()
    {
      if current == content {
        content := null;
      } else if previous != null {
        previous.next := null;
      }
      nodes, entries := nodes[..i], entries[..i];
      forall l: PackList | l != this && old(allocated(l)) && old(l.Valid()) ensures l.Valid() {
        assert forall n :: n in l.nodes ==> n.val == old(n.val) && n.next == old(n.next);
      }
    }

    lemma Link(k: nat)
      requires Valid() && k < |nodes|
      ensures nodes[k].next == At(k + 1) && k < |entries| && nodes[k].val == entries[k]
    {
    }

    /** The sum of the recent packets, the first older node and the one before it. */
    method SumRecent(now: int) returns (retval: nat, previous: PackListNode?, current: PackListNode?, ghost i: nat)
      requires Valid()
      ensures i == Cut(entries, now - PERIOD) && retval == RecentSum(entries, now - PERIOD)
      ensures current == At(i) && previous == At(i - 1)
    {
      retval, current, previous, i := 0, content, null, 0;
      while current != null
        invariant SummedUp(entries, now - PERIOD, i, retval)
        invariant current == At(i) && previous == At(i - 1)
        decreases |nodes| - i
      {
        Link(i);
        if current.val.sec <= now - PERIOD {
          break;
        }
        NextSum(entries, now - PERIOD, i, retval);
        retval := Wrap(retval + current.val.len);
        previous := current;
        current := current.next;
        i := i + 1;
      }
      Stop(entries, now - PERIOD, i, retval);
    }

    /** Sums up the recent packets and cuts off the older ones. */
    method SumAndDel(now: int) returns (retval: nat)
      requires Valid()
      modifies this, nodes
      ensures Valid() && entries == Recent(old(entries), now - PERIOD)
      ensures retval == RecentSum(old(entries), now - PERIOD)
      ensures forall n :: n in nodes ==> n in old(nodes)
      ensures forall l: PackList :: l != this && old(allocated(l)) && old(l.Valid()) ==> l.Valid()
    {
      var previous, current;
      ghost var i;
      retval, previous, current, i := SumRecent(now);
      if current != null {
        CutOff(previous, current, i);
      }
    }
  }
}
