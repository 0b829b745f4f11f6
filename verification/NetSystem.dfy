/** Runs of the monitor: packets, clock ticks and refreshes, in any order and at any time. */
module NetSystem {
  import opened Common
  import opened PackLists
  import opened NetModel
  import opened NetOwnership

  /** A packet as it was attributed when it arrived: its connection, the process of that, its direction. */
  datatype Logged = Logged(conn: nat, proc: nat, out: bool, entry: Entry)

  /** The monitor with what it has seen and said so far: all packets (newest first), the byte counts of
      the connections it deleted, all callback events, and the time of the last refresh. */
  datatype Sys = Sys(net: Net, log: seq<Logged>, deadSent: nat, deadRecv: nat, events: seq<Event>, refreshed: int)

  datatype Step =
    | Arrive(packet: Packet, lookup: Lookup, device: string, hash: string)
    | Tick(now: int)
    | Refresh

  function Start(local: seq<nat>, now: int): Sys {
    Sys(Init(local, now), [], 0, 0, [], now)
  }

  /** Times never go back, packets are new, and refreshes are at most 100 seconds apart. */
  predicate StepOk(s: Sys, step: Step) {
    match step
    case Arrive(p, _, _, _) => p.dir == Unknown && p.sec >= s.net.now && p.len < U32
    case Tick(now) => now >= s.net.now
    case Refresh => s.net.now <= s.refreshed + PROCESSTIMEOUT - CONNTIMEOUT
  }

  function Owner(procs: seq<Proc>, id: nat): nat {
    if procs == [] then UNKNOWN
    else if id in procs[0].conns then procs[0].id
    else Owner(procs[1..], id)
  }

  /** The connection a packet is counted in. */
  function ConnOf(net: Net, p: Packet): nat {
    var found := FindConnection(net, p);
    if found.Some? then found.value else net.next
  }

  /** The ids of the global list that are not in a later table any more. */
  function Gone(ids: seq<nat>, table: map<nat, Conn>): seq<nat> {
    if ids == [] then []
    else if ids[0] in table then Gone(ids[1..], table)
    else [ids[0]] + Gone(ids[1..], table)
  }

  function Exec(s: Sys, step: Step): Sys {
    match step
    case Tick(now) => s.(net := s.net.(now := now))
    case Arrive(packet, lookup, device, hash) =>
      var p := Resolve(packet, s.net.local);
      var net := Dispatch(s.net, packet, lookup, device, hash);
      var id := ConnOf(s.net, p);
      s.(net := net, log := [Logged(id, Owner(net.procs, id), p.dir == Outgoing, EntryOf(p))] + s.log)
    case Refresh =>
      var u := Update(s.net);
      var gone := Gone(s.net.global, u.net.table);
      s.(net := u.net, refreshed := s.net.now, events := s.events + u.events,
         deadSent := s.deadSent + TotalSent(s.net.table, gone), deadRecv := s.deadRecv + TotalRecv(s.net.table, gone))
  }

  /** The state after the steps, from the start. */
  function After(start: Sys, steps: seq<Step>): Sys {
    if steps == [] then start else Exec(After(start, steps[..|steps| - 1]), steps[|steps| - 1])
  }

  predicate Regular(start: Sys, steps: seq<Step>) {
    steps == [] ||
    (Regular(start, steps[..|steps| - 1]) && StepOk(After(start, steps[..|steps| - 1]), steps[|steps| - 1]))
  }

  // ---------------------------------------------------------------- timing

  /** Since the last refresh no connection has been silent for CONNTIMEOUT seconds before it. */
  ghost predicate InTime(s: Sys) {
    && 0 <= s.refreshed <= s.net.now
    && forall id :: id in s.net.table ==> s.refreshed - CONNTIMEOUT < s.net.table[id].last <= s.net.now
  }

  lemma RecentTwice(es: seq<Entry>, cutoff: int)
    ensures Recent(Recent(es, cutoff), cutoff) == Recent(es, cutoff)
  {
  }

  lemma TrimTwice(c: Conn, now: int)
    ensures Trim(Trim(c, now), now) == Trim(c, now)
  {
  }

  /** What an update may do to the connections: trim them, or delete them when they are stalled. */
  ghost predicate Aged(table: map<nat, Conn>, table': map<nat, Conn>, now: int) {
    && (forall id :: id in table' ==> id in table && (table'[id] == table[id] || table'[id] == Trim(table[id], now)))
    && (forall id :: id in table && id !in table' ==> Stalled(table[id], now))
  }

  lemma AgedTwice(t: map<nat, Conn>, t': map<nat, Conn>, t'': map<nat, Conn>, now: int)
    requires Aged(t, t', now) && Aged(t', t'', now)
    ensures Aged(t, t'', now)
  {
    forall id | id in t'' ensures id in t && (t''[id] == t[id] || t''[id] == Trim(t[id], now)) {
      TrimTwice(t[id], now);
    }
  }

  lemma TurnAges(net: Net, i: nat)
    requires i < |net.procs|
    ensures Aged(net.table, TurnNet(net, i).table, net.now) && TurnNet(net, i).now == net.now
  {
  }

  lemma {:induction false} UpdateAges(net: Net, i: nat)
    requires i <= |net.procs|
    ensures Aged(net.table, UpdateFrom(net, i).net.table, net.now)
    decreases |net.procs| - i
  {
    if i < |net.procs| {
      var mid := TurnNet(net, i);
      TurnAges(net, i);
      UpdateTurns(net, i);
      UpdateAges(mid, TurnIndex(net, i));
      AgedTwice(net.table, mid.table, UpdateFrom(mid, TurnIndex(net, i)).net.table, net.now);
    }
  }

  lemma DispatchInTime(s: Sys, step: Step)
    requires Partitioned(s.net) && InTime(s) && step.Arrive? && StepOk(s, step)
    ensures InTime(Exec(s, step))
  {
    FoundIsLive(s.net.table, s.net.global, Facing(Resolve(step.packet, s.net.local)));
  }

  /** The processes a refresh removes have no connections. */
  lemma RefreshIsBusy(s: Sys)
    requires Partitioned(s.net) && InTime(s) && StepOk(s, Refresh)
    ensures Busy(s.net)
    ensures forall i :: 0 <= i < |s.net.procs| && Expired(s.net, s.net.procs[i]) ==> s.net.procs[i].conns == []
  {
    forall i | 0 <= i < |s.net.procs| && s.net.procs[i].conns != [] ensures !Expired(s.net, s.net.procs[i]) {
      BusyIsNotExpired(s.net, i);
    }
  }

  // ---------------------------------------------------------------- endpoints

  /** Every reference packet leaves from the local end, and no two connections share that end. */
  ghost predicate EndpointsDistinct(table: map<nat, Conn>) {
    && (forall id :: id in table ==> table[id].ref.dir == Outgoing)
    && (forall a, b :: a in table && b in table && MatchSource(table[a].ref, table[b].ref) ==> a == b)
  }

  lemma {:induction false} NoSource(table: map<nat, Conn>, ids: seq<nat>, p: Packet)
    requires FirstSource(table, ids, p) == None
    ensures forall id :: id in ids && id in table ==> !MatchSource(p, table[id].ref)
  {
    if ids != [] {
      NoSource(table, ids[1..], p);
    }
  }

  lemma {:induction false} FoundMatches(table: map<nat, Conn>, ids: seq<nat>, p: Packet)
    ensures var found := FirstMatch(table, ids, p);
            found.Some? ==> found.value in ids && found.value in table && MatchSource(p, table[found.value].ref)
    ensures var found := FirstSource(table, ids, p);
            found.Some? ==> found.value in ids && found.value in table && MatchSource(p, table[found.value].ref)
  {
    if ids != [] {
      FoundMatches(table, ids[1..], p);
    }
  }

  /** The local end of a resolved packet. */
  function LocalEnd(p: Packet): (nat, nat) {
    if p.dir == Outgoing then (p.sip, p.sport) else (p.dip, p.dport)
  }

  /** The two passes over the connections amount to one look-up by the local end of the packet. */
  lemma FindIsLookup(net: Net, p: Packet)
    requires GlobalListed(net) && EndpointsDistinct(net.table) && p.dir != Unknown
    ensures forall id :: FindConnection(net, p) == Some(id) <==> id in net.table && LocalEnd(net.table[id].ref) == LocalEnd(p)
    ensures Facing(p).dir == Outgoing
  {
    var q := Facing(p);
    FoundMatches(net.table, net.global, q);
    forall id | id in net.table && LocalEnd(net.table[id].ref) == LocalEnd(p)
      ensures FindConnection(net, p) == Some(id)
    {
      assert MatchSource(q, net.table[id].ref);
      if FindConnection(net, p) == None {
        NoSource(net.table, net.global, q);
      } else {
        var found := FindConnection(net, p).value;
        assert MatchSource(net.table[found].ref, net.table[id].ref);
      }
    }
  }

  lemma DispatchKeepsEndpoints(net: Net, packet: Packet, lookup: Lookup, device: string, hash: string)
    requires GlobalListed(net) && EndpointsDistinct(net.table)
    ensures EndpointsDistinct(Dispatch(net, packet, lookup, device, hash).table)
  {
    var p := Resolve(packet, net.local);
    FindIsLookup(net, p);
  }

  // ---------------------------------------------------------------- every run

  ghost predicate Sound(s: Sys) {
    Partitioned(s.net) && InTime(s)
  }

  lemma StepKeepsSound(s: Sys, step: Step)
    requires Sound(s) && StepOk(s, step)
    ensures Sound(Exec(s, step))
  {
    match step
    case Tick(now) => SameListsKeepPartition(s.net, s.net.(now := now));
    case Arrive(packet, lookup, device, hash) =>
      DispatchKeepsPartition(s.net, packet, lookup, device, hash);
      DispatchInTime(s, step);
    case Refresh =>
      RefreshIsBusy(s);
      UpdateFromPartitions(s.net, 0);
      UpdateAges(s.net, 0);
  }

  lemma StartIsSound(local: seq<nat>, now: int)
    requires now >= 0
    ensures Sound(Start(local, now))
  {
    var net := Init(local, now);
    assert net.procs[0].id == UNKNOWN;
  }

  /** In every reachable state of the timing regime the connections are partitioned among the processes,
      and none is older than the last refresh allows. */
  lemma {:induction false} EveryRunIsSound(local: seq<nat>, now: int, steps: seq<Step>)
    requires now >= 0 && Regular(Start(local, now), steps)
    ensures Sound(After(Start(local, now), steps))
  {
    if steps == [] {
      StartIsSound(local, now);
    } else {
      EveryRunIsSound(local, now, steps[..|steps| - 1]);
      StepKeepsSound(After(Start(local, now), steps[..|steps| - 1]), steps[|steps| - 1]);
    }
  }
}
