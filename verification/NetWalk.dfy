/** The walk of getkbps over the connections of one process, one connection at a time. */
module NetWalk {
  import opened Common
  import opened PackLists
  import opened NetModel
  import opened NetOwnership
  import opened NetSystem
  import opened NetConservation
  import opened NetWindow

  function RemoveAll<T(==)>(s: seq<T>, x: T): seq<T> {
    if s == [] then [] else (if s[0] == x then [] else [s[0]]) + RemoveAll(s[1..], x)
  }

  /** The connection at position j of process i is deleted. */
  function Dropped(net: Net, i: nat, j: nat): Net
    requires i < |net.procs| && j < |net.procs[i].conns|
  {
    var p := net.procs[i];
    var id := p.conns[j];
    net.(table := net.table - {id}, global := RemoveAll(net.global, id),
         procs := net.procs[i := p.(conns := p.conns[..j] + p.conns[j + 1..])])
  }

  function Trimmed(net: Net, id: nat): Net
    requires id in net.table
  {
    net.(table := net.table[id := Trim(net.table[id], net.now)])
  }

  /** When the first n connections of process i were walked. */
  function Walked(net: Net, i: nat, n: nat): Net
    requires i < |net.procs| && n <= |net.procs[i].conns|
  {
    var p := net.procs[i];
    var table := Walk(net.table, p.conns[..n], net.now);
    net.(table := table, global := Live(table, net.global),
         procs := net.procs[i := p.(conns := Keep(net.table, p.conns[..n], net.now) + p.conns[n..])])
  }

  lemma WalkNext(table: map<nat, Conn>, ids: seq<nat>, n: nat, now: int)
    requires Distinct(ids) && n < |ids| && ids[n] in table
    ensures var t := Walk(table, ids[..n], now);
            ids[n] in t && t[ids[n]] == table[ids[n]] &&
            Walk(table, ids[..n + 1], now) == if Stalled(table[ids[n]], now) then t - {ids[n]} else t[ids[n] := Trim(table[ids[n]], now)]
  {
  }

  lemma {:induction false} KeepSnoc(table: map<nat, Conn>, ids: seq<nat>, id: nat, now: int)
    ensures Keep(table, ids + [id], now) == Keep(table, ids, now) + if Alive(table, id, now) then [id] else []
  {
    if ids == [] {
      assert ids + [id] == [id];
    } else {
      KeepSnoc(table, ids[1..], id, now);
      assert (ids + [id])[1..] == ids[1..] + [id];
    }
  }

  lemma {:induction false} LiveSameKeys(t: map<nat, Conn>, t': map<nat, Conn>, ids: seq<nat>)
    requires t.Keys == t'.Keys
    ensures Live(t, ids) == Live(t', ids)
  {
    if ids != [] {
      assert ids[0] in t <==> ids[0] in t.Keys;
      LiveSameKeys(t, t', ids[1..]);
    }
  }

  lemma {:induction false} LiveWithout(t: map<nat, Conn>, ids: seq<nat>, id: nat)
    requires forall x :: x in ids ==> x in t
    ensures Live(t - {id}, ids) == RemoveAll(ids, id)
  {
    if ids != [] {
      LiveWithout(t, ids[1..], id);
    }
  }

  lemma WalkedNothing(net: Net, i: nat)
    requires i < |net.procs| && GlobalListed(net)
    ensures Walked(net, i, 0) == net
  {
    var p := net.procs[i];
    assert p.conns[..0] == [] && [] + p.conns[0..] == p.conns;
    assert Walk(net.table, [], net.now) == net.table;
    AllLive(net.table, net.global);
    assert net.procs[i := p] == net.procs;
  }

  /** The lists of process i when n connections were walked: the next one follows those kept. */
  lemma KeepNext(table: map<nat, Conn>, ids: seq<nat>, n: nat, now: int)
    requires n < |ids|
    ensures var kept := Keep(table, ids[..n], now);
            var all := kept + ids[n..];
            && |kept| < |all| && all[|kept|] == ids[n]
            && (if Alive(table, ids[n], now) then Keep(table, ids[..n + 1], now) == kept + [ids[n]] && Keep(table, ids[..n + 1], now) + ids[n + 1..] == all
                else Keep(table, ids[..n + 1], now) == kept && kept + ids[n + 1..] == all[..|kept|] + all[|kept| + 1..])
  {
    assert ids[..n + 1] == ids[..n] + [ids[n]];
    KeepSnoc(table, ids[..n], ids[n], now);
    assert ids[n..] == [ids[n]] + ids[n + 1..];
  }

  lemma WalkedKeeps(net: Net, i: nat, n: nat)
    requires i < |net.procs| && n < |net.procs[i].conns| && Distinct(net.procs[i].conns) && net.procs[i].conns[n] in net.table
    requires !Stalled(net.table[net.procs[i].conns[n]], net.now)
    ensures var id := net.procs[i].conns[n];
            id in Walked(net, i, n).table && Walked(net, i, n + 1) == Trimmed(Walked(net, i, n), id)
  {
    var p := net.procs[i];
    WalkNext(net.table, p.conns, n, net.now);
    KeepNext(net.table, p.conns, n, net.now);
    LiveSameKeys(Walk(net.table, p.conns[..n], net.now), Walk(net.table, p.conns[..n + 1], net.now), net.global);
  }

  lemma WalkedDrops(net: Net, i: nat, n: nat)
    requires i < |net.procs| && n < |net.procs[i].conns| && Distinct(net.procs[i].conns) && net.procs[i].conns[n] in net.table
    requires Stalled(net.table[net.procs[i].conns[n]], net.now)
    ensures var j := |Keep(net.table, net.procs[i].conns[..n], net.now)|;
            j < |Walked(net, i, n).procs[i].conns| && Walked(net, i, n).procs[i].conns[j] == net.procs[i].conns[n] &&
            Walked(net, i, n + 1) == Dropped(Walked(net, i, n), i, j)
  {
    var p := net.procs[i];
    var t := Walk(net.table, p.conns[..n], net.now);
    WalkNext(net.table, p.conns, n, net.now);
    KeepNext(net.table, p.conns, n, net.now);
    LiveFilters(t, net.global);
    LiveTwice(t, t - {p.conns[n]}, net.global);
    LiveWithout(t, Live(t, net.global), p.conns[n]);
    var p' := Walked(net, i, n).procs[i];
    assert Walked(net, i, n).procs[i := p'.(conns := Keep(net.table, p.conns[..n + 1], net.now) + p.conns[n + 1..])] ==
           Walked(net, i, n + 1).procs;
  }

  /** A whole walk is the first part of a refresh. */
  lemma WalkedAll(net: Net, i: nat)
    requires i < |net.procs|
    ensures var p := net.procs[i];
            var net' := RefreshProc(net, i).net;
            Walked(net, i, |p.conns|) == net.(table := net'.table, global := net'.global, procs := net'.procs)
  {
    var p := net.procs[i];
    assert p.conns[..|p.conns|] == p.conns && p.conns[|p.conns|..] == [];
    assert Keep(net.table, p.conns, net.now) + [] == Keep(net.table, p.conns, net.now);
  }

  // ---------------------------------------------------------------- the sums

  lemma {:induction false} RecentUntouched(table: map<nat, Conn>, id: nat, c: Conn, ids: seq<nat>, now: int, out: bool)
    requires id !in ids
    ensures RecentOf(table[id := c], ids, now, out) == RecentOf(table, ids, now, out)
  {
    if ids != [] {
      RecentOfCons(table, ids, now, out);
      RecentOfCons(table[id := c], ids, now, out);
      RecentUntouched(table, id, c, ids[1..], now, out);
    }
  }

  lemma {:induction false} RecentWithout(table: map<nat, Conn>, id: nat, ids: seq<nat>, now: int, out: bool)
    requires id !in ids
    ensures RecentOf(table - {id}, ids, now, out) == RecentOf(table, ids, now, out)
  {
    if ids != [] {
      RecentOfCons(table, ids, now, out);
      RecentOfCons(table - {id}, ids, now, out);
      RecentWithout(table, id, ids[1..], now, out);
    }
  }

  lemma {:induction false} RecentSnoc(table: map<nat, Conn>, ids: seq<nat>, id: nat, now: int, out: bool)
    requires id in table
    ensures RecentOf(table, ids + [id], now, out) == RecentOf(table, ids, now, out) + RecentSum(Packets(table[id], out), now - PERIOD)
  {
    RecentOfCons(table, ids + [id], now, out);
    if ids == [] {
      assert ids + [id] == [id];
      assert [id][1..] == [];
    } else {
      RecentOfCons(table, ids, now, out);
      assert (ids + [id])[1..] == ids[1..] + [id];
      RecentSnoc(table, ids[1..], id, now, out);
    }
  }

  /** The sum over the connections kept, as getkbps forms it. */
  function SumWalked(table: map<nat, Conn>, ids: seq<nat>, now: int, out: bool): nat {
    Wrap(RecentOf(Walk(table, ids, now), Keep(table, ids, now), now, out))
  }

  /** Trimming a connection and keeping it adds its recent bytes. */
  lemma SumKept(t: map<nat, Conn>, kept: seq<nat>, id: nat, c: Conn, now: int, out: bool)
    requires id !in kept
    ensures Wrap(RecentOf(t[id := Trim(c, now)], kept + [id], now, out)) ==
            Wrap(Wrap(RecentOf(t, kept, now, out)) + RecentSum(Packets(c, out), now - PERIOD))
  {
    var c' := Trim(c, now);
    RecentUntouched(t, id, c', kept, now, out);
    RecentSnoc(t[id := c'], kept, id, now, out);
    RecentSumTwice(Packets(c, out), now - PERIOD);
    WrapWrap(RecentOf(t, kept, now, out), RecentSum(Packets(c, out), now - PERIOD));
  }

  lemma NotKept(table: map<nat, Conn>, ids: seq<nat>, n: nat, now: int)
    requires Distinct(ids) && n < |ids|
    ensures ids[n] !in Keep(table, ids[..n], now)
  {
    KeepFilters(table, ids[..n], now);
    assert ids[n] !in ids[..n];
  }

  lemma SumNextDropped(table: map<nat, Conn>, ids: seq<nat>, n: nat, now: int, out: bool)
    requires n < |ids| && Distinct(ids) && ids[n] in table && Stalled(table[ids[n]], now)
    ensures SumWalked(table, ids[..n + 1], now, out) == SumWalked(table, ids[..n], now, out)
  {
    WalkNext(table, ids, n, now);
    KeepNext(table, ids, n, now);
    NotKept(table, ids, n, now);
    RecentWithout(Walk(table, ids[..n], now), ids[n], Keep(table, ids[..n], now), now, out);
  }

  lemma SumNextKept(table: map<nat, Conn>, ids: seq<nat>, n: nat, now: int, out: bool)
    requires n < |ids| && Distinct(ids) && ids[n] in table && !Stalled(table[ids[n]], now)
    ensures SumWalked(table, ids[..n + 1], now, out) ==
            Wrap(SumWalked(table, ids[..n], now, out) + RecentSum(Packets(table[ids[n]], out), now - PERIOD))
  {
    WalkNext(table, ids, n, now);
    KeepNext(table, ids, n, now);
    NotKept(table, ids, n, now);
    SumKept(Walk(table, ids[..n], now), Keep(table, ids[..n], now), ids[n], table[ids[n]], now, out);
  }

  // ---------------------------------------------------------------- the connection the walk has come to

  /** The connection at this place of this process is nowhere else among the processes. */
  ghost predicate Exclusive(procs: seq<Proc>, i: nat, j: nat)
    requires i < |procs| && j < |procs[i].conns|
  {
    Distinct(procs[i].conns) && forall k :: 0 <= k < |procs| && k != i ==> procs[i].conns[j] !in procs[k].conns
  }

  lemma KeptDistinct(table: map<nat, Conn>, ids: seq<nat>, n: nat, now: int)
    requires Distinct(ids) && n <= |ids|
    ensures Distinct(Keep(table, ids[..n], now) + ids[n..])
  {
    var kept, left := Keep(table, ids[..n], now), ids[n..];
    KeepFilters(table, ids[..n], now);
    forall a, b | 0 <= a < b < |kept + left| ensures (kept + left)[a] != (kept + left)[b] {
      if a < |kept| <= b {
        assert kept[a] in kept && kept[a] in ids[..n];
      }
    }
  }

  lemma WalkedAt(net: Net, i: nat, n: nat)
    requires i < |net.procs| && n < |net.procs[i].conns| && ProcsListed(net)
    ensures var w := Walked(net, i, n);
            var j := |Keep(net.table, net.procs[i].conns[..n], net.now)|;
            var id := net.procs[i].conns[n];
            && j < |w.procs[i].conns| && w.procs[i].conns[j] == id && Exclusive(w.procs, i, j)
            && id in net.table && id in w.table && w.table[id] == net.table[id]
  {
    var ids := net.procs[i].conns;
    assert Owns(net, i, ids[n]);
    WalkNext(net.table, ids, n, net.now);
    KeepNext(net.table, ids, n, net.now);
    KeptDistinct(net.table, ids, n, net.now);
    forall k: nat | k < |net.procs| && k != i ensures ids[n] !in net.procs[k].conns {
      assert !Owns(net, k, ids[n]);
    }
  }
}
