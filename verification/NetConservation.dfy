/** No byte is lost or counted twice: over any run, the bytes of all packets are those of the live
    connections and of the deleted ones, in 32-bit arithmetic and in each direction. */
module NetConservation {
  import opened Common
  import opened PackLists
  import opened NetModel
  import opened NetOwnership
  import opened NetSystem
  import opened NetListing

  function LogTotal(log: seq<Logged>, out: bool): nat {
    if log == [] then 0
    else (if log[0].out == out then log[0].entry.len else 0) + LogTotal(log[1..], out)
  }

  lemma LogCons(e: Logged, log: seq<Logged>, out: bool)
    ensures LogTotal([e] + log, out) == LogTotal(log, out) + if e.out == out then e.entry.len else 0
  {
  }

  /** Total bytes of a direction over the connections ids. */
  function TotalOf(table: map<nat, Conn>, ids: seq<nat>, out: bool): nat {
    if out then TotalSent(table, ids) else TotalRecv(table, ids)
  }

  function SumOf(c: Conn, out: bool): nat {
    if out then c.sumSent else c.sumRecv
  }

  lemma TotalCons(table: map<nat, Conn>, ids: seq<nat>, out: bool)
    requires ids != []
    ensures TotalOf(table, ids, out) == (if ids[0] in table then SumOf(table[ids[0]], out) else 0) + TotalOf(table, ids[1..], out)
  {
  }

  lemma {:induction false} TotalUntouched(table: map<nat, Conn>, table': map<nat, Conn>, ids: seq<nat>, out: bool)
    requires forall id :: id in ids ==> (id in table <==> id in table') && (id in table ==> SumOf(table[id], out) == SumOf(table'[id], out))
    ensures TotalOf(table, ids, out) == TotalOf(table', ids, out)
  {
    if ids != [] {
      TotalCons(table, ids, out);
      TotalCons(table', ids, out);
      TotalUntouched(table, table', ids[1..], out);
    }
  }

  lemma {:induction false} TotalChanged(table: map<nat, Conn>, ids: seq<nat>, id: nat, c: Conn, out: bool)
    requires Distinct(ids) && id in ids && id in table
    ensures TotalOf(table[id := c], ids, out) + SumOf(table[id], out) == TotalOf(table, ids, out) + SumOf(c, out)
  {
    TotalCons(table, ids, out);
    TotalCons(table[id := c], ids, out);
    if ids[0] == id {
      TotalUntouched(table, table[id := c], ids[1..], out);
    } else {
      assert ids == [ids[0]] + ids[1..];
      TotalChanged(table, ids[1..], id, c, out);
    }
  }

  /** Splitting the global list at an update into what lives on and what is deleted. */
  lemma {:induction false} TotalSplits(table: map<nat, Conn>, table': map<nat, Conn>, ids: seq<nat>, out: bool)
    requires forall id :: id in table' ==> id in table && SumOf(table'[id], out) == SumOf(table[id], out)
    ensures TotalOf(table, ids, out) == TotalOf(table', Live(table', ids), out) + TotalOf(table, Gone(ids, table'), out)
  {
    if ids != [] {
      TotalSplits(table, table', ids[1..], out);
      TotalCons(table, ids, out);
      if ids[0] in table' {
        TotalCons(table', Live(table', ids), out);
      } else {
        TotalCons(table, Gone(ids, table'), out);
        assert Gone(ids, table')[1..] == Gone(ids[1..], table');
      }
    }
  }

  lemma {:induction false} LiveTwice(t: map<nat, Conn>, t': map<nat, Conn>, ids: seq<nat>)
    requires forall id :: id in t' ==> id in t
    ensures Live(t', Live(t, ids)) == Live(t', ids)
  {
    if ids != [] {
      LiveTwice(t, t', ids[1..]);
    }
  }

  lemma {:induction false} AllLive(t: map<nat, Conn>, ids: seq<nat>)
    requires forall id :: id in ids ==> id in t
    ensures Live(t, ids) == ids
  {
    if ids != [] {
      AllLive(t, ids[1..]);
      assert ids == [ids[0]] + ids[1..];
    }
  }

  lemma TurnFiltersGlobal(net: Net, i: nat)
    requires i < |net.procs| && forall id :: id in net.global ==> id in net.table
    ensures var net' := TurnNet(net, i);
            net'.global == Live(net'.table, net.global) && forall id :: id in net'.global ==> id in net'.table
  {
    if Expired(net, net.procs[i]) {
      AllLive(net.table, net.global);
    }
    LiveFilters(TurnNet(net, i).table, net.global);
  }

  /** The global list after an update is the old one without the deleted connections, in order. */
  lemma {:induction false} UpdateFiltersGlobal(net: Net, i: nat)
    requires i <= |net.procs| && forall id :: id in net.global ==> id in net.table
    ensures var net' := UpdateFrom(net, i).net; net'.global == Live(net'.table, net.global)
    decreases |net.procs| - i
  {
    if i == |net.procs| {
      AllLive(net.table, net.global);
    } else {
      var mid, j := TurnNet(net, i), TurnIndex(net, i);
      TurnFiltersGlobal(net, i);
      UpdateTurns(net, i);
      UpdateFiltersGlobal(mid, j);
      UpdateAges(mid, j);
      LiveTwice(mid.table, UpdateFrom(mid, j).net.table, net.global);
    }
  }

  // ---------------------------------------------------------------- every run

  lemma WrapReplaced(total: int, before: int, after: int, len: nat, total': int)
    requires after == Wrap(before + len) && total' + before == total + after
    ensures Wrap(total') == Wrap(total + len)
  {
  }

  lemma NewConnSums(p: Packet, out: bool)
    requires p.dir != Unknown
    ensures SumOf(NewConn(p), out) == if (p.dir == Outgoing) == out then Wrap(p.len) else 0
  {
  }

  lemma AddToSums(c: Conn, p: Packet, out: bool)
    requires p.dir != Unknown
    ensures SumOf(AddTo(c, p), out) == if (p.dir == Outgoing) == out then Wrap(SumOf(c, out) + p.len) else SumOf(c, out)
  {
  }

  /** What a packet adds to a direction. */
  function Adds(p: Packet, out: bool): nat {
    if (p.dir == Outgoing) == out then p.len else 0
  }

  lemma KnownTotal(net: Net, id: nat, p: Packet, out: bool)
    requires GlobalListed(net) && id in net.table && p.dir != Unknown
    ensures Wrap(TotalOf(net.table[id := AddTo(net.table[id], p)], net.global, out)) == Wrap(TotalOf(net.table, net.global, out) + Adds(p, out))
  {
    var c := net.table[id];
    var table' := net.table[id := AddTo(c, p)];
    AddToSums(c, p, out);
    TotalChanged(net.table, net.global, id, AddTo(c, p), out);
    if (p.dir == Outgoing) == out {
      WrapReplaced(TotalOf(net.table, net.global, out), SumOf(c, out), SumOf(AddTo(c, p), out), p.len, TotalOf(table', net.global, out));
    }
  }

  lemma NewTotal(net: Net, p: Packet, out: bool)
    requires GlobalListed(net) && net.next !in net.table && p.dir != Unknown
    ensures Wrap(TotalOf(net.table[net.next := NewConn(p)], [net.next] + net.global, out)) == Wrap(TotalOf(net.table, net.global, out) + Adds(p, out))
  {
    var table', global' := net.table[net.next := NewConn(p)], [net.next] + net.global;
    NewConnSums(p, out);
    TotalCons(table', global', out);
    assert global'[1..] == net.global;
    TotalUntouched(net.table, table', net.global, out);
    WrapAdded(Adds(p, out), TotalOf(net.table, net.global, out), SumOf(NewConn(p), out), TotalOf(table', global', out));
  }

  lemma WrapAdded(len: nat, total: int, wrapped: int, total': int)
    requires wrapped == Wrap(len) && total' == wrapped + total
    ensures Wrap(total') == Wrap(total + len)
  {
  }

  /** One packet adds its bytes to one sum of one connection. */
  lemma DispatchTotal(net: Net, packet: Packet, lookup: Lookup, device: string, hash: string, out: bool)
    requires GlobalListed(net) && EndpointsDistinct(net.table) && net.next !in net.table
    ensures var p := Resolve(packet, net.local);
            var net' := Dispatch(net, packet, lookup, device, hash);
            Wrap(TotalOf(net'.table, net'.global, out)) == Wrap(TotalOf(net.table, net.global, out) + Adds(p, out))
  {
    var p := Resolve(packet, net.local);
    FindIsLookup(net, p);
    if FindConnection(net, p).Some? {
      KnownTotal(net, FindConnection(net, p).value, p, out);
    } else {
      NewTotal(net, p, out);
    }
  }

  lemma Balance(total: int, dead: int, logged: int, total': int, more: nat)
    requires Wrap(total + dead) == Wrap(logged) && Wrap(total') == Wrap(total + more)
    ensures Wrap(total' + dead) == Wrap(logged + more)
  {
  }

  lemma ArriveIsLogged(s: Sys, step: Step, out: bool)
    requires step.Arrive?
    ensures var t := Exec(s, step);
            && t.net == Dispatch(s.net, step.packet, step.lookup, step.device, step.hash)
            && t.deadSent == s.deadSent && t.deadRecv == s.deadRecv
            && LogTotal(t.log, out) == LogTotal(s.log, out) + Adds(Resolve(step.packet, s.net.local), out)
  {
    LogCons(Exec(s, step).log[0], s.log, out);
  }

  /** The account of a direction. */
  predicate Accounted(net: Net, dead: nat, logged: nat, out: bool) {
    Wrap(TotalOf(net.table, net.global, out) + dead) == Wrap(logged)
  }

  function Dead(s: Sys, out: bool): nat {
    if out then s.deadSent else s.deadRecv
  }

  predicate Conserved(s: Sys, out: bool) {
    Accounted(s.net, Dead(s, out), LogTotal(s.log, out), out)
  }

  lemma AccountMoves(net: Net, net': Net, dead: nat, logged: nat, more: nat, out: bool)
    requires Accounted(net, dead, logged, out)
    requires Wrap(TotalOf(net'.table, net'.global, out)) == Wrap(TotalOf(net.table, net.global, out) + more)
    ensures Accounted(net', dead, logged + more, out)
  {
    Balance(TotalOf(net.table, net.global, out), dead, logged, TotalOf(net'.table, net'.global, out), more);
  }

  lemma DispatchAccounted(net: Net, packet: Packet, lookup: Lookup, device: string, hash: string, dead: nat, logged: nat, logged': nat, out: bool)
    requires GlobalListed(net) && EndpointsDistinct(net.table) && net.next !in net.table
    requires Accounted(net, dead, logged, out) && logged' == logged + Adds(Resolve(packet, net.local), out)
    ensures Accounted(Dispatch(net, packet, lookup, device, hash), dead, logged', out)
  {
    DispatchTotal(net, packet, lookup, device, hash, out);
    AccountMoves(net, Dispatch(net, packet, lookup, device, hash), dead, logged, Adds(Resolve(packet, net.local), out), out);
  }

  lemma ArriveConserves(s: Sys, step: Step, out: bool)
    requires GlobalListed(s.net) && EndpointsDistinct(s.net.table) && s.net.next !in s.net.table
    requires step.Arrive? && Conserved(s, out)
    ensures Conserved(Exec(s, step), out)
  {
    ArriveIsLogged(s, step, out);
    DispatchAccounted(s.net, step.packet, step.lookup, step.device, step.hash, Dead(s, out),
                      LogTotal(s.log, out), LogTotal(Exec(s, step).log, out), out);
  }

  lemma UpdateTotal(net: Net, out: bool)
    requires GlobalListed(net)
    ensures var net' := Update(net).net;
            TotalOf(net.table, net.global, out) == TotalOf(net'.table, net'.global, out) + TotalOf(net.table, Gone(net.global, net'.table), out)
  {
    UpdateAges(net, 0);
    UpdateFiltersGlobal(net, 0);
    TotalSplits(net.table, Update(net).net.table, net.global, out);
  }

  /** What deleted connections counted moves to the other side of the account. */
  lemma AccountSplits(net: Net, net': Net, dead: nat, gone: nat, logged: nat, out: bool)
    requires Accounted(net, dead, logged, out) && TotalOf(net.table, net.global, out) == TotalOf(net'.table, net'.global, out) + gone
    ensures Accounted(net', dead + gone, logged, out)
  {
    assert TotalOf(net.table, net.global, out) + dead == TotalOf(net'.table, net'.global, out) + (dead + gone);
  }

  lemma RefreshMoves(s: Sys, out: bool)
    ensures var t := Exec(s, Refresh);
            t.net == Update(s.net).net && t.log == s.log &&
            Dead(t, out) == Dead(s, out) + TotalOf(s.net.table, Gone(s.net.global, t.net.table), out)
  {
  }

  lemma RefreshConserves(s: Sys, out: bool)
    requires GlobalListed(s.net) && Conserved(s, out)
    ensures Conserved(Exec(s, Refresh), out)
  {
    var t := Exec(s, Refresh);
    RefreshMoves(s, out);
    UpdateTotal(s.net, out);
    AccountSplits(s.net, t.net, Dead(s, out), TotalOf(s.net.table, Gone(s.net.global, t.net.table), out), LogTotal(s.log, out), out);
  }

  lemma StepConserves(s: Sys, step: Step, out: bool)
    requires AllListed(s.net) && EndpointsDistinct(s.net.table) && Conserved(s, out)
    ensures Conserved(Exec(s, step), out)
  {
    match step
    case Tick(_) =>
    case Arrive(_, _, _, _) => ArriveConserves(s, step, out);
    case Refresh => RefreshConserves(s, out);
  }

  /** In every run, whatever its timing, each packet is counted once, in one direction, and never forgotten. */
  lemma {:induction false} BytesAreConserved(local: seq<nat>, now: int, steps: seq<Step>, out: bool)
    ensures Conserved(After(Start(local, now), steps), out)
  {
    if steps != [] {
      var front := steps[..|steps| - 1];
      BytesAreConserved(local, now, front, out);
      EveryRunIsListed(local, now, front);
      EveryRunHasDistinctEndpoints(local, now, front);
      StepConserves(After(Start(local, now), front), steps[|steps| - 1], out);
    }
  }
}
