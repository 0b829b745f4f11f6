/** The process list: a map of the processes shown and a cache of CPU times, both updated by scans,
    while other threads clear the map, remove processes, change the filter or stop the scan.

    Each step below is one section under the lock. One scan runs at a time. */
module ProcessScan {
  import opened Common

  const U64: int := 0x1_0000_0000_0000_0000

  type Ticks = n: nat | n < U64

  datatype Status = Running | Sleeping | Stopped | Zombie

  /** What the system says about a process when it is visited. */
  datatype Reading = Reading(rtime: Ticks, status: Status)

  /** A process of the list: its CPU time when last visited, and how it is shown. */
  datatype Process = Process(cpuTime: nat, difference: nat, status: Status)

  /** One measurement: whether the process was in the map, its CPU time, and the growth that was used. */
  datatype Measure = Measure(pid: nat, held: bool, rtime: nat, difference: nat)

  datatype Phase =
    | Idle
    | Listed(active: bool, pids: seq<nat>)
    | Visiting(active: bool, pids: seq<nat>, i: nat)
    | Holding(active: bool, pids: seq<nat>, i: nat, former: Option<Process>)

  datatype State = State(procs: map<nat, Process>, times: map<nat, nat>, filter: string, stopped: bool,
                         phase: Phase, log: seq<Measure>)

  datatype Step =
    | Begin(pids: seq<nat>)
    | Prune
    | Look
    | Visit(reading: Reading)
    | SetFilter(filter: string)
    | Clear
    | Remove(pid: nat)
    | Stop
    | Resume

  function Start(): State {
    State(map[], map[], "all", false, Idle, [])
  }

  predicate Enabled(s: State, step: Step) {
    match step
    case Begin(_) => s.phase.Idle?
    case Prune => s.phase.Listed?
    case Look => s.phase.Visiting?
    case Visit(_) => s.phase.Holding? && s.phase.i < |s.phase.pids|
    case _ => true
  }

  function Find(procs: map<nat, Process>, pid: nat): Option<Process> {
    if pid in procs then Some(procs[pid]) else None
  }

  /** The CPU time a visit compares with. */
  function Base(former: Option<Process>, times: map<nat, nat>, pid: nat, rtime: nat): nat {
    if former.Some? then former.value.cpuTime
    else if pid in times && rtime >= times[pid] then times[pid]
    else rtime
  }

  /** The growth, in unsigned 64-bit arithmetic. */
  function Difference(rtime: nat, base: nat): nat {
    (rtime - base) % U64
  }

  /** A process that used CPU time counts as running, whatever its state. */
  function Effective(status: Status, difference: nat): Status {
    if difference > 0 then Running else status
  }

  predicate Shown(active: bool, status: Status) {
    status != Zombie && (active ==> status == Running)
  }

  function Exec(s: State, step: Step): State
    requires Enabled(s, step)
  {
    match step
    case Begin(pids) => if s.stopped then s else s.(phase := Listed(s.filter == "active", pids))
    case Prune =>
      s.(procs := map pid | pid in s.procs && pid in s.phase.pids :: s.procs[pid],
         phase := Visiting(s.phase.active, s.phase.pids, 0))
    case Look =>
      if s.phase.i < |s.phase.pids| then
        s.(phase := Holding(s.phase.active, s.phase.pids, s.phase.i, Find(s.procs, s.phase.pids[s.phase.i])))
      else s.(phase := Idle)
    case Visit(r) => if s.stopped then s.(phase := Idle) else Visited(s, r)
    case SetFilter(filter) => if filter == "" then s else s.(filter := filter)
    case Clear => s.(procs := map[])
    case Remove(pid) => s.(procs := s.procs - {pid})
    case Stop => s.(stopped := true)
    case Resume => s.(stopped := false)
  }

  function Visited(s: State, r: Reading): State
    requires s.phase.Holding? && s.phase.i < |s.phase.pids|
  {
    var pid := s.phase.pids[s.phase.i];
    var difference := Difference(r.rtime, Base(s.phase.former, s.times, pid, r.rtime));
    var p := Process(r.rtime, difference, Effective(r.status, difference));
    s.(times := s.times[pid := r.rtime],
       procs := if Shown(s.phase.active, p.status) then s.procs[pid := p] else s.procs - {pid},
       phase := Visiting(s.phase.active, s.phase.pids, s.phase.i + 1),
       log := s.log + [Measure(pid, s.phase.former.Some?, r.rtime, difference)])
  }

  /** The state after the steps; a step that is not possible changes nothing. */
  function Run(s: State, steps: seq<Step>): State
    decreases steps
  {
    if steps == [] then s
    else Run(if Enabled(s, steps[0]) then Exec(s, steps[0]) else s, steps[1..])
  }

  // ---------------------------------------------------------------- the two caches agree

  /** The CPU time measured last for a process. */
  function LastTime(log: seq<Measure>, pid: nat): Option<nat> {
    if log == [] then None
    else if log[|log| - 1].pid == pid then Some(log[|log| - 1].rtime)
    else LastTime(log[..|log| - 1], pid)
  }

  /** The growth since the process was measured last; none the first time. */
  function Growth(log: seq<Measure>, pid: nat, rtime: nat): nat {
    var last := LastTime(log, pid);
    if last.Some? && rtime >= last.value then rtime - last.value else 0
  }

  /** A process that is still in the map now has a smaller CPU time than before. */
  predicate WentBack(log: seq<Measure>, m: Measure) {
    var last := LastTime(log, m.pid);
    last.Some? && m.rtime < last.value && m.held
  }

  ghost predicate Agrees(s: State) {
    && (forall pid :: pid in s.times <==> LastTime(s.log, pid).Some?)
    && (forall pid :: pid in s.times ==> s.times[pid] == LastTime(s.log, pid).value < U64)
    && (forall pid :: pid in s.procs ==> pid in s.times && s.procs[pid].cpuTime == s.times[pid])
    && (s.phase.Holding? && s.phase.former.Some? && s.phase.i < |s.phase.pids| ==>
          s.phase.pids[s.phase.i] in s.times && s.phase.former.value.cpuTime == s.times[s.phase.pids[s.phase.i]])
  }

  /** Every growth used is the true one, except for a process that went back while it was in the map. */
  ghost predicate Measured(log: seq<Measure>) {
    forall i :: 0 <= i < |log| ==> MeasuredAt(log[..i], log[i])
  }

  predicate MeasuredAt(before: seq<Measure>, m: Measure) {
    m.difference == Growth(before, m.pid, m.rtime) <==> !WentBack(before, m)
  }

  lemma VisitMeasures(s: State, r: Reading)
    requires Agrees(s) && Enabled(s, Visit(r)) && !s.stopped
    ensures Agrees(Visited(s, r)) && Visited(s, r).log[..|s.log|] == s.log && |Visited(s, r).log| == |s.log| + 1
    ensures MeasuredAt(s.log, Visited(s, r).log[|s.log|])
  {
  }

  lemma StepKeepsAgrees(s: State, step: Step)
    requires Agrees(s) && Enabled(s, step)
    ensures Agrees(Exec(s, step))
  {
    if step.Visit? && !s.stopped {
      VisitMeasures(s, step.reading);
    }
  }

  lemma StepMeasures(s: State, step: Step)
    requires Agrees(s) && Enabled(s, step) && Measured(s.log)
    ensures Measured(Exec(s, step).log)
  {
    if step.Visit? && !s.stopped {
      VisitMeasures(s, step.reading);
      var log := Exec(s, step).log;
      forall i | 0 <= i < |log| ensures MeasuredAt(log[..i], log[i]) {
        if i < |s.log| {
          assert log[..i] == s.log[..i];
        }
      }
    }
  }

  lemma {:induction false} RunMeasures(s: State, steps: seq<Step>)
    requires Agrees(s) && Measured(s.log)
    ensures Agrees(Run(s, steps)) && Measured(Run(s, steps).log)
    decreases steps
  {
    if steps != [] {
      if Enabled(s, steps[0]) {
        StepKeepsAgrees(s, steps[0]);
        StepMeasures(s, steps[0]);
      }
      RunMeasures(if Enabled(s, steps[0]) then Exec(s, steps[0]) else s, steps[1..]);
    }
  }

  /** Whatever happens between the steps of the scans, the growth used for a process is the growth of
      its CPU time since it was listed last, unless that time went back while the process was in the map. */
  lemma GrowthIsExact(steps: seq<Step>)
    ensures Agrees(Run(Start(), steps)) && Measured(Run(Start(), steps).log)
  {
    RunMeasures(Start(), steps);
  }

  // ---------------------------------------------------------------- no CPU time is lost or counted twice

  predicate NeverBack(log: seq<Measure>, pid: nat) {
    forall i, j :: 0 <= i < j < |log| && log[i].pid == pid && log[j].pid == pid ==> log[i].rtime <= log[j].rtime
  }

  /** The sum of the growths used for a process. */
  function Used(log: seq<Measure>, pid: nat): nat {
    if log == [] then 0
    else Used(log[..|log| - 1], pid) + if log[|log| - 1].pid == pid then log[|log| - 1].difference else 0
  }

  function FirstTime(log: seq<Measure>, pid: nat): Option<nat> {
    if log == [] then None
    else if log[0].pid == pid then Some(log[0].rtime)
    else FirstTime(log[1..], pid)
  }

  lemma {:induction false} FirstSnoc(log: seq<Measure>, m: Measure, pid: nat)
    ensures FirstTime(log + [m], pid) ==
            if FirstTime(log, pid).Some? then FirstTime(log, pid) else if m.pid == pid then Some(m.rtime) else None
  {
    if log == [] {
      assert log + [m] == [m];
    } else {
      FirstSnoc(log[1..], m, pid);
      assert (log + [m])[1..] == log[1..] + [m];
    }
  }

  lemma {:induction false} LastIsLogged(log: seq<Measure>, pid: nat)
    ensures LastTime(log, pid).Some? ==> exists i :: 0 <= i < |log| && log[i].pid == pid && log[i].rtime == LastTime(log, pid).value
    ensures LastTime(log, pid).Some? <==> FirstTime(log, pid).Some?
  {
    if log != [] {
      var front, m := log[..|log| - 1], log[|log| - 1];
      LastIsLogged(front, pid);
      FirstSnoc(front, m, pid);
      assert log == front + [m];
    }
  }

  lemma MeasuredFront(log: seq<Measure>)
    requires Measured(log) && log != []
    ensures Measured(log[..|log| - 1]) && MeasuredAt(log[..|log| - 1], log[|log| - 1])
  {
    var front := log[..|log| - 1];
    forall i | 0 <= i < |front| ensures MeasuredAt(front[..i], front[i]) {
      assert front[..i] == log[..i];
    }
  }

  lemma NeverBackFront(log: seq<Measure>, pid: nat)
    requires NeverBack(log, pid) && log != []
    ensures var front := log[..|log| - 1];
            NeverBack(front, pid) &&
            (log[|log| - 1].pid == pid && LastTime(front, pid).Some? ==> LastTime(front, pid).value <= log[|log| - 1].rtime)
  {
    LastIsLogged(log[..|log| - 1], pid);
  }

  lemma {:induction false} UsedTelescopes(log: seq<Measure>, pid: nat)
    requires Measured(log) && NeverBack(log, pid)
    ensures LastTime(log, pid).None? ==> Used(log, pid) == 0
    ensures LastTime(log, pid).Some? ==> FirstTime(log, pid).Some? && Used(log, pid) == LastTime(log, pid).value - FirstTime(log, pid).value
  {
    if log != [] {
      var front, m := log[..|log| - 1], log[|log| - 1];
      assert log == front + [m];
      MeasuredFront(log);
      NeverBackFront(log, pid);
      UsedTelescopes(front, pid);
      FirstSnoc(front, m, pid);
      LastIsLogged(front, pid);
    }
  }

  /** Over any run, the growths used for a process whose CPU time never goes back add up to all the time
      it used between its first and its last measurement: filters, clears, removals and stopped scans
      distort nothing. */
  lemma UsedIsConserved(steps: seq<Step>, pid: nat)
    requires NeverBack(Run(Start(), steps).log, pid)
    ensures var log := Run(Start(), steps).log;
            if LastTime(log, pid).None? then Used(log, pid) == 0
            else FirstTime(log, pid).Some? && Used(log, pid) == LastTime(log, pid).value - FirstTime(log, pid).value
  {
    GrowthIsExact(steps);
    UsedTelescopes(Run(Start(), steps).log, pid);
  }

  // ---------------------------------------------------------------- what an undisturbed scan shows

  /** The steps of the visits that are left, one for each reading. */
  function Visits(readings: seq<Reading>): seq<Step> {
    if readings == [] then [Look] else [Look, Visit(readings[0])] + Visits(readings[1..])
  }

  /** The steps of a scan that is not disturbed. */
  function ScanSteps(pids: seq<nat>, readings: seq<Reading>): seq<Step> {
    [Begin(pids), Prune] + Visits(readings)
  }

  /** How a process is measured and shown by a visit in this state. */
  function Outcome(s: State, pid: nat, r: Reading): Process {
    var difference := Difference(r.rtime, Base(Find(s.procs, pid), s.times, pid, r.rtime));
    Process(r.rtime, difference, Effective(r.status, difference))
  }

  predicate ShownAs(procs: map<nat, Process>, active: bool, pid: nat, p: Process) {
    (pid in procs <==> Shown(active, p.status)) && (pid in procs ==> procs[pid] == p)
  }

  /** What the two caches know about a process is the same in both states. */
  predicate Same(s: State, t: State, pid: nat) {
    Find(s.procs, pid) == Find(t.procs, pid) && (pid in s.times <==> pid in t.times) && (pid in s.times ==> s.times[pid] == t.times[pid])
  }

  lemma VisitShows(s: State, r: Reading)
    requires s.phase.Visiting? && s.phase.i < |s.phase.pids| && !s.stopped
    ensures var pid := s.phase.pids[s.phase.i];
            var t := Exec(Exec(s, Look), Visit(r));
            && ShownAs(t.procs, s.phase.active, pid, Outcome(s, pid, r))
            && (forall other :: other != pid ==> Same(s, t, other))
            && t.phase == Visiting(s.phase.active, s.phase.pids, s.phase.i + 1) && !t.stopped
  {
  }

  lemma SameOutcome(s: State, t: State, pid: nat, r: Reading)
    requires Same(s, t, pid)
    ensures Outcome(s, pid, r) == Outcome(t, pid, r)
  {
  }

  lemma RunTwo(s: State, a: Step, b: Step, rest: seq<Step>, t: State, u: State)
    requires Enabled(s, a) && t == Exec(s, a) && Enabled(t, b) && u == Exec(t, b)
    ensures Run(s, [a, b] + rest) == Run(u, rest)
  {
    var steps := [a, b] + rest;
    assert steps[0] == a && steps[1..][0] == b && steps[1..][1..] == rest;
  }

  lemma VisitsCons(readings: seq<Reading>)
    requires readings != []
    ensures Visits(readings) == [Look, Visit(readings[0])] + Visits(readings[1..])
  {
  }

  lemma VisitsStep(s: State, readings: seq<Reading>)
    requires s.phase.Visiting? && s.phase.i < |s.phase.pids| && readings != []
    ensures Run(s, Visits(readings)) == Run(Exec(Exec(s, Look), Visit(readings[0])), Visits(readings[1..]))
  {
    VisitsCons(readings);
    RunTwo(s, Look, Visit(readings[0]), Visits(readings[1..]), Exec(s, Look), Exec(Exec(s, Look), Visit(readings[0])));
  }

  lemma {:induction false} VisitsShow(s: State, readings: seq<Reading>, k: nat)
    requires s.phase.Visiting? && s.phase.i + |readings| == |s.phase.pids| && !s.stopped && Distinct(s.phase.pids)
    requires s.phase.i <= k < |s.phase.pids|
    ensures var t := Run(s, Visits(readings));
            ShownAs(t.procs, s.phase.active, s.phase.pids[k], Outcome(s, s.phase.pids[k], readings[k - s.phase.i]))
    decreases |readings|
  {
    var pid := s.phase.pids[s.phase.i];
    var t := Exec(Exec(s, Look), Visit(readings[0]));
    VisitShows(s, readings[0]);
    VisitsStep(s, readings);
    if k > s.phase.i {
      VisitsShow(t, readings[1..], k);
      assert Same(s, t, s.phase.pids[k]);
      SameOutcome(s, t, s.phase.pids[k], readings[k - s.phase.i]);
    } else {
      assert pid !in s.phase.pids[s.phase.i + 1..];
      VisitsLeave(t, readings[1..], pid);
    }
  }

  lemma {:induction false} VisitsLeave(s: State, readings: seq<Reading>, pid: nat)
    requires s.phase.Visiting? && s.phase.i + |readings| == |s.phase.pids| && !s.stopped
    requires pid !in s.phase.pids[s.phase.i..]
    ensures Find(Run(s, Visits(readings)).procs, pid) == Find(s.procs, pid)
    decreases |readings|
  {
    if readings != [] {
      VisitShows(s, readings[0]);
      VisitsStep(s, readings);
      assert s.phase.pids[s.phase.i..][0] == s.phase.pids[s.phase.i];
      assert s.phase.pids[s.phase.i..][1..] == s.phase.pids[s.phase.i + 1..];
      assert Same(s, Exec(Exec(s, Look), Visit(readings[0])), pid);
      VisitsLeave(Exec(Exec(s, Look), Visit(readings[0])), readings[1..], pid);
    }
  }

  lemma ScanStepsRun(s: State, pids: seq<nat>, readings: seq<Reading>)
    requires s.phase.Idle? && !s.stopped
    ensures Run(s, ScanSteps(pids, readings)) == Run(Exec(Exec(s, Begin(pids)), Prune), Visits(readings))
  {
  }

  /** After a scan that is neither stopped nor disturbed, the map holds exactly the listed processes that
      are effectively no zombies and, under the filter "active", running. */
  lemma ScanShowsExactly(s: State, pids: seq<nat>, readings: seq<Reading>)
    requires s.phase.Idle? && !s.stopped && Distinct(pids) && |pids| == |readings|
    ensures var procs := Run(s, ScanSteps(pids, readings)).procs;
            && (forall pid :: pid in procs ==> pid in pids)
            && forall k :: 0 <= k < |pids| ==> ShownAs(procs, s.filter == "active", pids[k], Outcome(s, pids[k], readings[k]))
  {
    var t := Exec(Exec(s, Begin(pids)), Prune);
    ScanStepsRun(s, pids, readings);
    assert t.phase.pids[0..] == pids;
    forall pid | pid !in pids ensures pid !in Run(t, Visits(readings)).procs {
      VisitsLeave(t, readings, pid);
    }
    forall k | 0 <= k < |pids| ensures ShownAs(Run(t, Visits(readings)).procs, s.filter == "active", pids[k], Outcome(s, pids[k], readings[k])) {
      VisitsShow(t, readings, k);
      assert Same(s, t, pids[k]);
      SameOutcome(s, t, pids[k], readings[k]);
    }
  }

  // ---------------------------------------------------------------- scans one after the other

  lemma {:induction false} RunJoins(s: State, a: seq<Step>, b: seq<Step>)
    ensures Run(s, a + b) == Run(Run(s, a), b)
    decreases a
  {
    if a == [] {
      assert a + b == b;
    } else {
      RunJoins(if Enabled(s, a[0]) then Exec(s, a[0]) else s, a[1..], b);
      assert (a + b)[1..] == a[1..] + b;
    }
  }

  /** What a scan leaves that lists one process. */
  lemma ScanOfOne(s: State, pid: nat, r: Reading)
    requires s.phase.Idle? && !s.stopped
    ensures var t := Run(s, ScanSteps([pid], [r]));
            var p := Outcome(s, pid, r);
            && t.log == s.log + [Measure(pid, pid in s.procs, r.rtime, p.difference)]
            && t.phase.Idle? && !t.stopped && t.filter == s.filter
            && ShownAs(t.procs, s.filter == "active", pid, p)
  {
    var mid := Exec(Exec(s, Begin([pid])), Prune);
    ScanStepsRun(s, [pid], [r]);
    VisitsStep(mid, [r]);
    VisitShows(mid, r);
    var t := Exec(Exec(mid, Look), Visit(r));
    assert [r][1..] == [];
    assert Run(t, Visits([])) == t.(phase := Idle);
    assert Same(s, mid, pid);
  }

  /** The failing case, as a run: a process id that was taken over by a younger process between two scans
      shows nearly 2^64 ticks of growth. */
  lemma ReusedPidOverflows()
    ensures var older, younger := Reading(100, Sleeping), Reading(99, Sleeping);
            var log := Run(Start(), ScanSteps([7], [older]) + ScanSteps([7], [younger])).log;
            |log| == 2 && log[1].difference == U64 - 1 && WentBack(log[..1], log[1])
  {
    var older, younger := Reading(100, Sleeping), Reading(99, Sleeping);
    var s := Run(Start(), ScanSteps([7], [older]));
    ScanOfOne(Start(), 7, older);
    ScanOfOne(s, 7, younger);
    RunJoins(Start(), ScanSteps([7], [older]), ScanSteps([7], [younger]));
    var log := Run(Start(), ScanSteps([7], [older]) + ScanSteps([7], [younger])).log;
    assert log[..1] == s.log && s.log[..0] == [];
  }

  /** Clearing the map leaves the cache of CPU times, so the growth of every process measured next is exact,
      even of one that went back. */
  lemma ClearedGrowthIsExact(s: State, pid: nat, r: Reading)
    requires Agrees(s)
    ensures Outcome(Exec(s, Clear), pid, r).difference == Growth(s.log, pid, r.rtime)
  {
  }

  /** The filter only hides: a scan under "active" shows those processes that one under another filter shows
      as running, with the same numbers. */
  lemma FilterOnlyHides(s: State, filter: string, pids: seq<nat>, readings: seq<Reading>)
    requires s.phase.Idle? && !s.stopped && Distinct(pids) && |pids| == |readings| && filter != "active"
    ensures var all := Run(s.(filter := filter), ScanSteps(pids, readings)).procs;
            var active := Run(s.(filter := "active"), ScanSteps(pids, readings)).procs;
            && (forall pid :: pid in active <==> pid in all && all[pid].status == Running)
            && (forall pid :: pid in active ==> active[pid] == all[pid])
  {
    var s', t' := s.(filter := filter), s.(filter := "active");
    var all := Run(s', ScanSteps(pids, readings)).procs;
    var active := Run(t', ScanSteps(pids, readings)).procs;
    ScanShowsExactly(s', pids, readings);
    ScanShowsExactly(t', pids, readings);
    forall pid ensures pid in active <==> pid in all && all[pid].status == Running
               ensures pid in active ==> active[pid] == all[pid]
    {
      if k :| 0 <= k < |pids| && pids[k] == pid {
        assert Same(s', t', pid);
        SameOutcome(s', t', pid, readings[k]);
        assert ShownAs(all, false, pids[k], Outcome(s', pids[k], readings[k]));
        assert ShownAs(active, true, pids[k], Outcome(t', pids[k], readings[k]));
      }
    }
  }

  // ---------------------------------------------------------------- what is shown, told from the readings

  /** The process is in the map and its CPU time is smaller than when it was measured last. */
  predicate WouldGoBack(s: State, pid: nat, r: Reading) {
    pid in s.procs && LastTime(s.log, pid).Some? && r.rtime < LastTime(s.log, pid).value
  }

  /** A process is shown unless it is a zombie, and under "active" only if it runs.  One that used CPU time since it
      was measured last counts as running, whatever its state. */
  predicate ShownByGrowth(procs: map<nat, Process>, active: bool, pid: nat, r: Reading, growth: nat) {
    && (pid in procs <==> (growth > 0 || r.status != Zombie) && (active ==> growth > 0 || r.status == Running))
    && (pid in procs ==>
          && procs[pid].status == (if growth > 0 || r.status == Running then Running else r.status)
          && procs[pid].difference == growth && procs[pid].cpuTime == r.rtime)
  }

  lemma OutcomeIsGrowth(s: State, pid: nat, r: Reading)
    requires Agrees(s) && !WouldGoBack(s, pid, r)
    ensures var p, growth := Outcome(s, pid, r), Growth(s.log, pid, r.rtime);
            && p.cpuTime == r.rtime && p.difference == growth
            && p.status == if growth > 0 || r.status == Running then Running else r.status
  {
  }

  /** What an undisturbed scan shows, told from the readings and the measurements before it. */
  lemma ScanShowsByGrowth(s: State, pids: seq<nat>, readings: seq<Reading>)
    requires s.phase.Idle? && !s.stopped && Distinct(pids) && |pids| == |readings| && Agrees(s)
    requires forall k :: 0 <= k < |pids| ==> !WouldGoBack(s, pids[k], readings[k])
    ensures var procs := Run(s, ScanSteps(pids, readings)).procs;
            && (forall pid :: pid in procs ==> pid in pids)
            && forall k :: 0 <= k < |pids| ==>
                 ShownByGrowth(procs, s.filter == "active", pids[k], readings[k], Growth(s.log, pids[k], readings[k].rtime))
  {
    ScanShowsExactly(s, pids, readings);
    var procs := Run(s, ScanSteps(pids, readings)).procs;
    forall k | 0 <= k < |pids|
      ensures ShownByGrowth(procs, s.filter == "active", pids[k], readings[k], Growth(s.log, pids[k], readings[k].rtime))
    {
      assert ShownAs(procs, s.filter == "active", pids[k], Outcome(s, pids[k], readings[k]));
      OutcomeIsGrowth(s, pids[k], readings[k]);
    }
  }

  /** What other threads do between the sections of a scan: each call changes one thing. */
  lemma CallsChangeOneThing(s: State, pid: nat, filter: string)
    ensures var t := Exec(s, Remove(pid));
            && pid !in t.procs && (forall other :: other != pid ==> Find(t.procs, other) == Find(s.procs, other))
            && t == s.(procs := t.procs)
    ensures Exec(s, Clear).procs == map[] && Exec(s, Clear) == s.(procs := map[])
    ensures Exec(s, SetFilter(filter)) == if filter == "" then s else s.(filter := filter)
    ensures Exec(s, Stop) == s.(stopped := true) && Exec(s, Resume) == s.(stopped := false)
  {
  }

  /** The map has nothing new: processes may be gone from it, the others are as they were. */
  ghost predicate Shrunk(procs: map<nat, Process>, procs': map<nat, Process>) {
    forall pid :: pid in procs' ==> pid in procs && procs'[pid] == procs[pid]
  }

  ghost predicate OnlyShrinks(s: State, t: State) {
    && t.stopped && t.log == s.log && t.times == s.times && Shrunk(s.procs, t.procs)
    && (s.phase.Idle? ==> t.phase.Idle?)
  }

  lemma StoppedStep(s: State, step: Step)
    requires s.stopped && Enabled(s, step) && !step.Resume?
    ensures OnlyShrinks(s, Exec(s, step)) && (step.Visit? ==> Exec(s, step) == s.(phase := Idle))
  {
  }

  /** Once the list is stopped, and until it is started again, nothing is measured, no process is added or
      changed, a scan under way ends at its next visit and none begins: whatever the threads do. */
  lemma {:induction false} StoppedListOnlyShrinks(s: State, steps: seq<Step>)
    requires s.stopped && Resume !in steps
    ensures OnlyShrinks(s, Run(s, steps))
    decreases steps
  {
    if steps != [] {
      assert steps[0] in steps;
      if Enabled(s, steps[0]) {
        StoppedStep(s, steps[0]);
      }
      StoppedListOnlyShrinks(if Enabled(s, steps[0]) then Exec(s, steps[0]) else s, steps[1..]);
    }
  }
}
