/** The turns of the loops of an update, on values: the states they go through, and that they end where the
    model ends. */
module NetPlans {
  import opened Common
  import opened PackLists
  import opened NetModel
  import opened NetOwnership
  import opened NetSystem
  import opened NetRecords
  import opened NetWalk

  /** Process ids tell processes apart. */
  ghost predicate DistinctProcs(procs: seq<Proc>) {
    forall i, j :: 0 <= i < j < |procs| ==> procs[i].id != procs[j].id
  }

  lemma LastPacketIs(table: map<nat, Conn>, ids: seq<nat>, last: int)
    requires forall k :: 0 <= k < |ids| ==> ids[k] in table && last >= table[ids[k]].last
    requires last >= 0 && (last == 0 || exists k :: 0 <= k < |ids| && last == table[ids[k]].last)
    ensures last == LastPacket(table, ids)
  {
  }

  /** The sums of gettotal, going on from those so far. */
  ghost function AddTotals(table: map<nat, Conn>, ids: seq<nat>, recvd: nat, sent: nat): (nat, nat) {
    if ids == [] then (recvd, sent)
    else if ids[0] in table then AddTotals(table, ids[1..], Wrap(recvd + table[ids[0]].sumRecv), Wrap(sent + table[ids[0]].sumSent))
    else AddTotals(table, ids[1..], recvd, sent)
  }

  lemma {:induction false} TotalSoFar(table: map<nat, Conn>, ids: seq<nat>, recvd: nat, sent: nat)
    requires recvd < U32 && sent < U32
    ensures AddTotals(table, ids, recvd, sent) == (Wrap(recvd + TotalRecv(table, ids)), Wrap(sent + TotalSent(table, ids)))
  {
    if ids != [] {
      if ids[0] in table {
        var r, s := recvd + table[ids[0]].sumRecv, sent + table[ids[0]].sumSent;
        TotalSoFar(table, ids[1..], Wrap(r), Wrap(s));
        WrapWrap(r, TotalRecv(table, ids[1..]));
        WrapWrap(s, TotalSent(table, ids[1..]));
      } else {
        TotalSoFar(table, ids[1..], recvd, sent);
      }
    }
  }

  // ---------------------------------------------------------------- the turns of getkbps

  /** The walk left what a refresh of the model leaves, and the record made of the sums is its record. */
  ghost predicate Measured(net0: Net, i: nat, net: Net, recvd: nat, sent: nat, recvBytes: nat, sentBytes: nat) {
    && i < |net0.procs| && i < |net.procs| && DistinctProcs(net.procs) && net.records == net0.records
    && var p := net.procs[i];
       var isNew := p.id !in net.records;
       var data := DataOf(net, p, recvd, sent, recvBytes, sentBytes);
       && RefreshProc(net0, i).net == net.(records := net.records[p.id := data], lastRecord := if isNew then data.id else net.lastRecord)
       && RefreshProc(net0, i).events == if isNew || !SameNumbers(data, net.records[p.id]) then [Set(data)] else []
  }

  lemma Refreshed(net0: Net, i: nat, net: Net, kept: nat, recvd: nat, sent: nat, recvBytes: nat, sentBytes: nat)
    requires Progressed(net0, i, net, kept, recvd, sent)
    requires i < |net.procs| && sentBytes == Wrap(TotalSent(net.table, net.procs[i].conns)) &&
             recvBytes == Wrap(TotalRecv(net.table, net.procs[i].conns))
    ensures Measured(net0, i, net, recvd, sent, recvBytes, sentBytes)
  {
    ProgressKeepsProcs(net0, i, net, kept, recvd, sent);
    var p := net0.procs[i];
    WalkedAll(net0, i);
    assert p.conns[..|p.conns|] == p.conns;
  }

  /** When n connections of process i were walked: j of them are kept, and the sums are theirs. */
  ghost predicate Progress(net0: Net, i: nat, n: nat, net: Net, j: nat, recvd: nat, sent: nat)
    requires i < |net0.procs|
  {
    Moved(net0, i, n, net, j) && Summed(net0.table, net0.procs[i].conns, n, net0.now, recvd, sent)
  }

  /** The walk has come past n connections, and j of them are kept. */
  ghost predicate Moved(net0: Net, i: nat, n: nat, net: Net, j: nat)
    requires i < |net0.procs|
  {
    n <= |net0.procs[i].conns| && net == Walked(net0, i, n) && j == |Keep(net0.table, net0.procs[i].conns[..n], net0.now)|
  }

  /** These are the sums over those kept. */
  ghost predicate Summed(table: map<nat, Conn>, ids: seq<nat>, n: nat, now: int, recvd: nat, sent: nat) {
    n <= |ids| && sent == SumWalked(table, ids[..n], now, true) && recvd == SumWalked(table, ids[..n], now, false)
  }

  /** When all were walked. */
  ghost predicate Progressed(net0: Net, i: nat, net: Net, j: nat, recvd: nat, sent: nat) {
    i < |net0.procs| && DistinctProcs(net0.procs) && Progress(net0, i, |net0.procs[i].conns|, net, j, recvd, sent)
  }

  lemma ProgressStarts(net: Net, i: nat)
    requires i < |net.procs| && GlobalListed(net)
    ensures Progress(net, i, 0, net, 0, 0, 0)
  {
    WalkedNothing(net, i);
    assert net.procs[i].conns[..0] == [];
  }

  /** The state of the loop of getkbps: at which connection it is, and the sums so far. */
  datatype Turn = Turn(net: Net, j: nat, recvd: nat, sent: nat)

  ghost predicate Ready(t: Turn, i: nat) {
    i < |t.net.procs| && t.j < |t.net.procs[i].conns| && t.net.procs[i].conns[t.j] in t.net.table && Exclusive(t.net.procs, i, t.j)
  }

  ghost function NextTurn(t: Turn, i: nat): Turn
    requires Ready(t, i)
  {
    var id := t.net.procs[i].conns[t.j];
    var c := t.net.table[id];
    if Stalled(c, t.net.now) then Turn(Dropped(t.net, i, t.j), t.j, t.recvd, t.sent)
    else Turn(Trimmed(t.net, id), t.j + 1, Wrap(t.recvd + RecentSum(c.recv, t.net.now - PERIOD)), Wrap(t.sent + RecentSum(c.sent, t.net.now - PERIOD)))
  }

  lemma KeptTurn(net: Net, i: nat, j: nat, recvd: nat, sent: nat, now: int, id: nat, moreRecv: nat, moreSent: nat, next: Turn)
    requires Ready(Turn(net, j, recvd, sent), i) && next == NextTurn(Turn(net, j, recvd, sent), i)
    requires now == net.now && id == net.procs[i].conns[j] && net.table[id].last > now - CONNTIMEOUT
    requires moreRecv == RecentSum(net.table[id].recv, now - PERIOD) && moreSent == RecentSum(net.table[id].sent, now - PERIOD)
    ensures next.net == Trimmed(net, id) && next.j == j + 1 && next.recvd == Wrap(recvd + moreRecv) &&
            next.sent == Wrap(sent + moreSent)
  {
  }

  ghost predicate Follows(t: Turn, u: Turn, i: nat) {
    Ready(t, i) && u == NextTurn(t, i)
  }

  /** The turns of the whole loop. */
  ghost predicate IsPlan(plan: seq<Turn>, i: nat) {
    && |plan| > 0 && (forall n :: 0 <= n < |plan| - 1 ==> Follows(plan[n], plan[n + 1], i))
    && i < |plan[|plan| - 1].net.procs| && plan[|plan| - 1].j == |plan[|plan| - 1].net.procs[i].conns|
  }

  lemma PlanNext(plan: seq<Turn>, i: nat, n: nat)
    requires IsPlan(plan, i) && n < |plan| && i < |plan[n].net.procs| && plan[n].j < |plan[n].net.procs[i].conns|
    ensures n + 1 < |plan| && Ready(plan[n], i) && plan[n + 1] == NextTurn(plan[n], i)
  {
    assert n + 1 < |plan| && Follows(plan[n], plan[n + 1], i);
  }

  lemma PlanEnds(plan: seq<Turn>, i: nat, n: nat)
    requires IsPlan(plan, i) && n < |plan| && i < |plan[n].net.procs| && plan[n].j >= |plan[n].net.procs[i].conns|
    ensures n == |plan| - 1
  {
    assert n < |plan| - 1 ==> Follows(plan[n], plan[n + 1], i);
  }

  lemma ReadyAt(net0: Net, i: nat, n: nat, t: Turn)
    requires i < |net0.procs| && n < |net0.procs[i].conns| && ProcsListed(net0) && Progress(net0, i, n, t.net, t.j, t.recvd, t.sent)
    ensures Ready(t, i)
  {
    WalkedAt(net0, i, n);
  }

  lemma ProgressNextDropped(net0: Net, i: nat, n: nat, t: Turn, c: Conn)
    requires i < |net0.procs| && n < |net0.procs[i].conns| && ProcsListed(net0) && Progress(net0, i, n, t.net, t.j, t.recvd, t.sent)
    requires Ready(t, i) && net0.procs[i].conns[n] in net0.table && c == net0.table[net0.procs[i].conns[n]] && Stalled(c, net0.now)
    requires t.net.now == net0.now && t.net.table[t.net.procs[i].conns[t.j]] == c
    ensures var u := NextTurn(t, i); Progress(net0, i, n + 1, u.net, u.j, u.recvd, u.sent)
  {
    ProgressDrops(net0, i, n, t.net, t.j, t.recvd, t.sent);
    assert NextTurn(t, i) == Turn(Dropped(t.net, i, t.j), t.j, t.recvd, t.sent);
  }

  lemma ProgressNextKept(net0: Net, i: nat, n: nat, net: Net, j: nat, recvd: nat, sent: nat, id: nat, u: Turn)
    requires i < |net0.procs| && n < |net0.procs[i].conns| && ProcsListed(net0) && Progress(net0, i, n, net, j, recvd, sent)
    requires id == net0.procs[i].conns[n] && id in net0.table && !Stalled(net0.table[id], net0.now)
    requires Ready(Turn(net, j, recvd, sent), i) && u == NextTurn(Turn(net, j, recvd, sent), i)
    requires net.now == net0.now && net.procs[i].conns[j] == id && net.table[id] == net0.table[id]
    ensures Progress(net0, i, n + 1, u.net, u.j, u.recvd, u.sent)
  {
    var now := net0.now;
    var moreRecv, moreSent := RecentSum(net0.table[id].recv, now - PERIOD), RecentSum(net0.table[id].sent, now - PERIOD);
    KeptTurn(net, i, j, recvd, sent, now, id, moreRecv, moreSent, u);
    ProgressKeeps(net0, i, n, net, j, recvd, sent, moreRecv, moreSent);
  }

  lemma ProgressNext(net0: Net, i: nat, n: nat, t: Turn)
    requires i < |net0.procs| && n < |net0.procs[i].conns| && ProcsListed(net0) && Progress(net0, i, n, t.net, t.j, t.recvd, t.sent)
    requires Ready(t, i)
    ensures var u := NextTurn(t, i); Progress(net0, i, n + 1, u.net, u.j, u.recvd, u.sent)
  {
    WalkedAt(net0, i, n);
    var c := net0.table[net0.procs[i].conns[n]];
    if Stalled(c, net0.now) {
      ProgressNextDropped(net0, i, n, t, c);
    } else {
      ProgressNextKept(net0, i, n, t.net, t.j, t.recvd, t.sent, net0.procs[i].conns[n], NextTurn(t, i));
    }
  }

  lemma {:induction false} PlanFrom(net0: Net, i: nat, n: nat, t: Turn) returns (plan: seq<Turn>)
    requires i < |net0.procs| && ProcsListed(net0) && Progress(net0, i, n, t.net, t.j, t.recvd, t.sent)
    ensures IsPlan(plan, i) && plan[0] == t
    ensures var u := plan[|plan| - 1]; Progress(net0, i, |net0.procs[i].conns|, u.net, u.j, u.recvd, u.sent)
    decreases |net0.procs[i].conns| - n
  {
    if n == |net0.procs[i].conns| {
      plan := [t];
    } else {
      ReadyAt(net0, i, n, t);
      ProgressNext(net0, i, n, t);
      var rest := PlanFrom(net0, i, n + 1, NextTurn(t, i));
      plan := [t] + rest;
      PlanCons(t, rest, i);
    }
  }

  lemma PlanCons(t: Turn, rest: seq<Turn>, i: nat)
    requires IsPlan(rest, i) && Ready(t, i) && rest[0] == NextTurn(t, i)
    ensures IsPlan([t] + rest, i)
  {
    var plan := [t] + rest;
    forall n | 0 <= n < |plan| - 1 ensures Follows(plan[n], plan[n + 1], i) {
      if n == 0 {
        assert Follows(t, rest[0], i);
      } else {
        assert Follows(rest[n - 1], rest[n], i);
      }
    }
    assert plan[|plan| - 1] == rest[|rest| - 1];
  }

  lemma MakePlan(net: Net, i: nat) returns (plan: seq<Turn>)
    requires i < |net.procs| && GlobalListed(net) && ProcsListed(net) && DistinctProcs(net.procs)
    ensures IsPlan(plan, i) && plan[0] == Turn(net, 0, 0, 0)
    ensures var u := plan[|plan| - 1]; Progressed(net, i, u.net, u.j, u.recvd, u.sent)
  {
    ProgressStarts(net, i);
    plan := PlanFrom(net, i, 0, Turn(net, 0, 0, 0));
  }

  lemma ProgressDrops(net0: Net, i: nat, n: nat, net: Net, j: nat, recvd: nat, sent: nat)
    requires i < |net0.procs| && n < |net0.procs[i].conns| && ProcsListed(net0) && Progress(net0, i, n, net, j, recvd, sent)
    requires net0.procs[i].conns[n] in net0.table && Stalled(net0.table[net0.procs[i].conns[n]], net0.now)
    ensures i < |net.procs| && j < |net.procs[i].conns| && Progress(net0, i, n + 1, Dropped(net, i, j), j, recvd, sent)
  {
    var ids := net0.procs[i].conns;
    WalkedDrops(net0, i, n);
    KeepNext(net0.table, ids, n, net0.now);
    SumNextDropped(net0.table, ids, n, net0.now, true);
    SumNextDropped(net0.table, ids, n, net0.now, false);
  }

  lemma MovedKeeps(net0: Net, i: nat, n: nat, net: Net, j: nat)
    requires i < |net0.procs| && n < |net0.procs[i].conns| && Distinct(net0.procs[i].conns) && Moved(net0, i, n, net, j)
    requires net0.procs[i].conns[n] in net0.table && !Stalled(net0.table[net0.procs[i].conns[n]], net0.now)
    ensures net0.procs[i].conns[n] in net.table && Moved(net0, i, n + 1, Trimmed(net, net0.procs[i].conns[n]), j + 1)
  {
    WalkedKeeps(net0, i, n);
    KeepNext(net0.table, net0.procs[i].conns, n, net0.now);
  }

  lemma SumsKeep(table: map<nat, Conn>, ids: seq<nat>, n: nat, now: int, recvd: nat, sent: nat, moreRecv: nat, moreSent: nat)
    requires n < |ids| && Distinct(ids) && ids[n] in table && !Stalled(table[ids[n]], now) && Summed(table, ids, n, now, recvd, sent)
    requires moreRecv == RecentSum(table[ids[n]].recv, now - PERIOD) && moreSent == RecentSum(table[ids[n]].sent, now - PERIOD)
    ensures Summed(table, ids, n + 1, now, Wrap(recvd + moreRecv), Wrap(sent + moreSent))
  {
    SumNextKept(table, ids, n, now, true);
    SumNextKept(table, ids, n, now, false);
  }

  lemma ProgressKeeps(net0: Net, i: nat, n: nat, net: Net, j: nat, recvd: nat, sent: nat, moreRecv: nat, moreSent: nat)
    requires i < |net0.procs| && n < |net0.procs[i].conns| && ProcsListed(net0) && Progress(net0, i, n, net, j, recvd, sent)
    requires net0.procs[i].conns[n] in net0.table && !Stalled(net0.table[net0.procs[i].conns[n]], net0.now)
    requires var c := net0.table[net0.procs[i].conns[n]];
             moreRecv == RecentSum(c.recv, net0.now - PERIOD) && moreSent == RecentSum(c.sent, net0.now - PERIOD)
    ensures net0.procs[i].conns[n] in net.table
    ensures Progress(net0, i, n + 1, Trimmed(net, net0.procs[i].conns[n]), j + 1, Wrap(recvd + moreRecv), Wrap(sent + moreSent))
  {
    MovedKeeps(net0, i, n, net, j);
    SumsKeep(net0.table, net0.procs[i].conns, n, net0.now, recvd, sent, moreRecv, moreSent);
  }

  // ---------------------------------------------------------------- the record of a process

  ghost function DataOf(net: Net, p: Proc, recvd: nat, sent: nat, recvBytes: nat, sentBytes: nat): Record {
    var isNew := p.id !in net.records;
    Record(if isNew then net.lastRecord + 1 else net.records[p.id].id, if isNew then p.name else net.records[p.id].name,
           if isNew then p.pid else net.records[p.id].pid, p.uid, p.device, sentBytes, recvBytes, Rate(sent), Rate(recvd))
  }

  lemma ProgressKeepsProcs(net0: Net, i: nat, net: Net, kept: nat, recvd: nat, sent: nat)
    requires i < |net0.procs| && Progress(net0, i, |net0.procs[i].conns|, net, kept, recvd, sent) && DistinctProcs(net0.procs)
    ensures DistinctProcs(net.procs) && net.records == net0.records && net.lastRecord == net0.lastRecord
    ensures |net.procs| == |net0.procs| && net.procs[i].(conns := []) == net0.procs[i].(conns := [])
  {
  }

  // ---------------------------------------------------------------- the turns of an update

  /** The state of the loop of the update: at which process it is, and what was said so far. */
  datatype Stage = Stage(net: Net, i: nat, events: seq<Event>)

  ghost predicate Due(t: Stage) {
    GlobalListed(t.net) && ProcsListed(t.net) && DistinctProcs(t.net.procs) && t.i < |t.net.procs|
  }

  ghost function NextStage(t: Stage): Stage
    requires Due(t)
  {
    if Expired(t.net, t.net.procs[t.i]) then
      var step := RemoveProc(t.net, t.i);
      Stage(step.net, t.i, t.events + step.events)
    else
      var step := RefreshProc(t.net, t.i);
      Stage(step.net, t.i + 1, t.events + step.events)
  }

  lemma StageAfter(net: Net, i: nat, told: seq<Event>, removed: bool, more: seq<Event>, next: Stage)
    requires Due(Stage(net, i, told)) && next == NextStage(Stage(net, i, told)) && removed == Expired(net, net.procs[i])
    requires more == (if removed then RemoveProc(net, i) else RefreshProc(net, i)).events
    ensures next.net == (if removed then RemoveProc(net, i) else RefreshProc(net, i)).net
    ensures next.events == told + more && next.i == if removed then i else i + 1
  {
  }

  ghost predicate Succeeds(t: Stage, u: Stage) {
    Due(t) && u == NextStage(t)
  }

  /** The turns of a whole update. */
  ghost predicate IsUpdatePlan(plan: seq<Stage>) {
    && |plan| > 0 && (forall n :: 0 <= n < |plan| - 1 ==> Succeeds(plan[n], plan[n + 1]))
    && plan[|plan| - 1].i == |plan[|plan| - 1].net.procs|
  }

  lemma UpdatePlanNext(plan: seq<Stage>, n: nat)
    requires IsUpdatePlan(plan) && n < |plan| && plan[n].i < |plan[n].net.procs|
    ensures n + 1 < |plan| && Due(plan[n]) && plan[n + 1] == NextStage(plan[n])
  {
    assert n + 1 < |plan| && Succeeds(plan[n], plan[n + 1]);
  }

  lemma UpdatePlanEnds(plan: seq<Stage>, n: nat)
    requires IsUpdatePlan(plan) && n < |plan| && plan[n].i >= |plan[n].net.procs|
    ensures n == |plan| - 1
  {
    assert n < |plan| - 1 ==> Succeeds(plan[n], plan[n + 1]);
  }

  lemma UpdatePlanCons(t: Stage, rest: seq<Stage>)
    requires IsUpdatePlan(rest) && Due(t) && rest[0] == NextStage(t)
    ensures IsUpdatePlan([t] + rest)
  {
    var plan := [t] + rest;
    forall n | 0 <= n < |plan| - 1 ensures Succeeds(plan[n], plan[n + 1]) {
      if n == 0 {
        assert Succeeds(t, rest[0]);
      } else {
        assert Succeeds(rest[n - 1], rest[n]);
      }
    }
    assert plan[|plan| - 1] == rest[|rest| - 1];
  }

  /** The plan of an update ends where the model ends. */
  lemma {:induction false} UpdatePlanFrom(t: Stage) returns (plan: seq<Stage>)
    requires AllListed(t.net) && t.i <= |t.net.procs|
    ensures IsUpdatePlan(plan) && plan[0] == t
    ensures var u := UpdateFrom(t.net, t.i); plan[|plan| - 1] == Stage(u.net, |u.net.procs|, t.events + u.events)
    decreases |t.net.procs| - t.i
  {
    if t.i == |t.net.procs| {
      plan := [t];
      assert t.events + [] == t.events;
    } else {
      var next := NextStage(t);
      TurnKeepsListed(t.net, t.i);
      var rest := UpdatePlanFrom(next);
      plan := [t] + rest;
      UpdatePlanCons(t, rest);
      UpdateTurn(t);
    }
  }

  lemma UpdateTurn(t: Stage)
    requires Due(t)
    ensures var next := NextStage(t);
            next.i <= |next.net.procs| && UpdateFrom(next.net, next.i).net == UpdateFrom(t.net, t.i).net &&
            next.events + UpdateFrom(next.net, next.i).events == t.events + UpdateFrom(t.net, t.i).events
  {
    var next := NextStage(t);
    var rest := UpdateFrom(next.net, next.i).events;
    if Expired(t.net, t.net.procs[t.i]) {
      Joined(t.events, RemoveProc(t.net, t.i).events, rest);
    } else {
      Joined(t.events, RefreshProc(t.net, t.i).events, rest);
    }
  }

  lemma MakeUpdatePlan(net: Net) returns (plan: seq<Stage>)
    requires AllListed(net)
    ensures IsUpdatePlan(plan) && plan[0] == Stage(net, 0, [])
    ensures plan[|plan| - 1].net == NetModel.Update(net).net && plan[|plan| - 1].events == NetModel.Update(net).events
  {
    plan := UpdatePlanFrom(Stage(net, 0, []));
    assert [] + NetModel.Update(net).events == NetModel.Update(net).events;
  }
}
