/** The rates reported for a process are exact: they count every byte attributed to it in the last
    PERIOD seconds, although packets are merged, old ones dropped, and stalled connections deleted. */
module NetWindow {
  import opened Common
  import opened PackLists
  import opened PackListHistory
  import opened NetModel
  import opened NetOwnership
  import opened NetSystem

  /** The packets of one connection and direction, newest first. */
  function ConnLog(log: seq<Logged>, conn: nat, out: bool): seq<Entry> {
    if log == [] then []
    else if log[0].conn == conn && log[0].out == out then [log[0].entry] + ConnLog(log[1..], conn, out)
    else ConnLog(log[1..], conn, out)
  }

  /** The packets attributed to one process in one direction, newest first. */
  function ProcLog(log: seq<Logged>, proc: nat, out: bool): seq<Entry> {
    if log == [] then []
    else if log[0].proc == proc && log[0].out == out then [log[0].entry] + ProcLog(log[1..], proc, out)
    else ProcLog(log[1..], proc, out)
  }

  function Packets(c: Conn, out: bool): seq<Entry> {
    if out then c.sent else c.recv
  }

  /** The packet lists of every connection stand for all its packets. */
  ghost predicate ListsFaithful(net: Net, log: seq<Logged>) {
    forall id, out :: id in net.table ==> Faithful(Packets(net.table[id], out), ConnLog(log, id, out), net.now)
  }

  ghost predicate OwnedBy(net: Net, proc: nat, id: nat) {
    exists k: nat :: Owns(net, k, id) && net.procs[k].id == proc
  }

  /** Every packet seen is old, or its connection still belongs to the process it was attributed to. */
  ghost predicate Attributed(net: Net, e: Logged) {
    && e.conn < net.next && e.entry.sec <= net.now
    && (e.conn !in net.table ==> e.entry.sec <= net.now - CONNTIMEOUT)
    && (e.conn in net.table ==> e.entry.sec <= net.table[e.conn].last && OwnedBy(net, e.proc, e.conn))
  }

  ghost predicate LogAttributed(net: Net, log: seq<Logged>) {
    forall i :: 0 <= i < |log| ==> Attributed(net, log[i])
  }

  // ---------------------------------------------------------------- sums over the log

  function SumConns(log: seq<Logged>, ids: seq<nat>, out: bool, c: int): nat {
    if ids == [] then 0 else SumSince(ConnLog(log, ids[0], out), c) + SumConns(log, ids[1..], out, c)
  }

  predicate Counts(e: Logged, out: bool, c: int) {
    e.out == out && e.entry.sec > c
  }

  lemma {:induction false} SumConnsCons(e: Logged, log: seq<Logged>, ids: seq<nat>, out: bool, c: int)
    requires Distinct(ids)
    ensures SumConns([e] + log, ids, out, c) == SumConns(log, ids, out, c) + if Counts(e, out, c) &&
            e.conn in ids then e.entry.len else 0
  {
    assert ([e] + log)[1..] == log;
    if ids != [] {
      assert ids == [ids[0]] + ids[1..];
      SumConnsCons(e, log, ids[1..], out, c);
      if e.conn == ids[0] && e.out == out {
        assert ([e.entry] + ConnLog(log, ids[0], out))[1..] == ConnLog(log, ids[0], out);
      }
    }
  }

  lemma {:induction false} SumConnsEmpty(ids: seq<nat>, out: bool, c: int)
    ensures SumConns([], ids, out, c) == 0
  {
    if ids != [] {
      SumConnsEmpty(ids[1..], out, c);
    }
  }

  /** Summed per connection or per process, the packets of a window are the same. */
  lemma {:induction false} SplitByConn(log: seq<Logged>, ids: seq<nat>, proc: nat, out: bool, c: int)
    requires Distinct(ids)
    requires forall i :: 0 <= i < |log| && Counts(log[i], out, c) ==> (log[i].proc == proc <==> log[i].conn in ids)
    ensures SumConns(log, ids, out, c) == SumSince(ProcLog(log, proc, out), c)
  {
    if log == [] {
      SumConnsEmpty(ids, out, c);
    } else {
      var e, rest := log[0], log[1..];
      assert log == [e] + rest;
      SplitByConn(rest, ids, proc, out, c);
      SumConnsCons(e, rest, ids, out, c);
      if e.proc == proc && e.out == out {
        assert ([e.entry] + ProcLog(rest, proc, out))[1..] == ProcLog(rest, proc, out);
      }
    }
  }

  // ---------------------------------------------------------------- what getkbps computes

  function RecentOf(table: map<nat, Conn>, ids: seq<nat>, now: int, out: bool): nat {
    if out then RecentSent(table, ids, now) else RecentRecv(table, ids, now)
  }

  lemma RecentOfCons(table: map<nat, Conn>, ids: seq<nat>, now: int, out: bool)
    requires ids != []
    ensures RecentOf(table, ids, now, out) ==
            (if ids[0] in table then RecentSum(Packets(table[ids[0]], out), now - PERIOD) else 0) + RecentOf(table, ids[1..], now, out)
  {
  }

  lemma RecentSumTwice(es: seq<Entry>, cutoff: int)
    ensures RecentSum(Recent(es, cutoff), cutoff) == RecentSum(es, cutoff)
  {
    RecentTwice(es, cutoff);
  }

  /** Trimming does not change what the lists return. */
  lemma WalkedSum(net: Net, i: nat, id: nat, out: bool)
    requires i < |net.procs| && id in net.procs[i].conns && Alive(net.table, id, net.now)
    ensures var table := Walk(net.table, net.procs[i].conns, net.now);
            id in table && RecentSum(Packets(table[id], out), net.now - PERIOD) == RecentSum(Packets(net.table[id], out), net.now - PERIOD)
  {
    RecentSumTwice(net.table[id].sent, net.now - PERIOD);
    RecentSumTwice(net.table[id].recv, net.now - PERIOD);
  }

  /** The window of a connection, read from its list, is that of all its packets. */
  predicate WindowRight(table: map<nat, Conn>, log: seq<Logged>, id: nat, out: bool, c: int) {
    id in table && RecentSum(Packets(table[id], out), c) == Wrap(SumSince(ConnLog(log, id, out), c))
  }

  lemma WalkedWindow(net: Net, log: seq<Logged>, i: nat, id: nat, out: bool, c: int)
    requires ListsFaithful(net, log) && i < |net.procs| && id in net.procs[i].conns && Alive(net.table, id, net.now) &&
             c == net.now - PERIOD
    ensures WindowRight(Walk(net.table, net.procs[i].conns, net.now), log, id, out, c)
  {
    WalkedSum(net, i, id, out);
    assert Faithful(Packets(net.table[id], out), ConnLog(log, id, out), net.now);
    RecentSumIsSumSince(Packets(net.table[id], out), c);
  }

  lemma {:induction false} WalkedSums(table: map<nat, Conn>, log: seq<Logged>, ids: seq<nat>, now: int, out: bool, c: int)
    requires c == now - PERIOD && forall id {:trigger WindowRight(table, log, id, out, c)} :: id in ids ==> WindowRight(table, log, id, out, c)
    ensures Wrap(RecentOf(table, ids, now, out)) == Wrap(SumConns(log, ids, out, c))
  {
    if ids != [] {
      var id := ids[0];
      assert WindowRight(table, log, id, out, c);
      WalkedSums(table, log, ids[1..], now, out, c);
      RecentOfCons(table, ids, now, out);
      WrapSum(RecentSum(Packets(table[id], out), c), SumSince(ConnLog(log, id, out), c),
              RecentOf(table, ids[1..], now, out), SumConns(log, ids[1..], out, c));
    }
  }

  lemma WrapSum(a: int, b: int, x: int, y: int)
    requires Wrap(a) == Wrap(b) && Wrap(x) == Wrap(y)
    ensures Wrap(a + x) == Wrap(b + y)
  {
  }

  /** In the window, a packet belongs to the process exactly if its connection is one it keeps. */
  lemma WindowOwner(net: Net, e: Logged, i: nat)
    requires Partitioned(net) && Attributed(net, e) && i < |net.procs| && e.entry.sec > net.now - PERIOD
    ensures e.proc == net.procs[i].id <==> e.conn in Keep(net.table, net.procs[i].conns, net.now)
  {
    KeepFilters(net.table, net.procs[i].conns, net.now);
    var k: nat :| Owns(net, k, e.conn) && net.procs[k].id == e.proc;
    assert e.conn in net.procs[i].conns <==> Owns(net, i, e.conn);
  }

  /** Over the connections that are kept, the trimmed lists give the windows of the whole histories. */
  lemma KeptWindows(net: Net, log: seq<Logged>, i: nat, out: bool, c: int)
    requires ListsFaithful(net, log) && i < |net.procs| && c == net.now - PERIOD
    ensures var p := net.procs[i];
            var kept := Keep(net.table, p.conns, net.now);
            Wrap(RecentOf(Walk(net.table, p.conns, net.now), kept, net.now, out)) == Wrap(SumConns(log, kept, out, c))
  {
    var p := net.procs[i];
    var kept := Keep(net.table, p.conns, net.now);
    var table := Walk(net.table, p.conns, net.now);
    KeepFilters(net.table, p.conns, net.now);
    forall id | id in kept
      ensures WindowRight(table, log, id, out, c)
    {
      WalkedWindow(net, log, i, id, out, c);
    }
    WalkedSums(table, log, kept, net.now, out, c);
  }

  lemma KeptAreAll(net: Net, log: seq<Logged>, i: nat, out: bool)
    requires Partitioned(net) && LogAttributed(net, log) && i < |net.procs|
    ensures var p := net.procs[i];
            SumConns(log, Keep(net.table, p.conns, net.now), out, net.now - PERIOD) == SumSince(ProcLog(log, p.id, out), net.now - PERIOD)
  {
    var p := net.procs[i];
    var kept := Keep(net.table, p.conns, net.now);
    KeepFilters(net.table, p.conns, net.now);
    forall k | 0 <= k < |log| && Counts(log[k], out, net.now - PERIOD)
      ensures log[k].proc == p.id <==> log[k].conn in kept
    {
      WindowOwner(net, log[k], i);
    }
    SplitByConn(log, kept, p.id, out, net.now - PERIOD);
  }

  /** The sums getkbps forms for process i are those of all packets ever attributed to it in the last
      PERIOD seconds. */
  lemma WindowIsExact(net: Net, log: seq<Logged>, i: nat, out: bool)
    requires Partitioned(net) && ListsFaithful(net, log) && LogAttributed(net, log) && i < |net.procs|
    ensures var p := net.procs[i];
            Wrap(RecentOf(Walk(net.table, p.conns, net.now), Keep(net.table, p.conns, net.now), net.now, out)) ==
            Wrap(SumSince(ProcLog(log, p.id, out), net.now - PERIOD))
  {
    KeptWindows(net, log, i, out, net.now - PERIOD);
    KeptAreAll(net, log, i, out);
  }
}
