/** What needs no timing: in every run the connections are listed once in the global list and at most once
    among the processes, and their local ends are pairwise distinct. */
module NetListing {
  import opened NetModel
  import opened NetOwnership
  import opened NetSystem

  // ---------------------------------------------------------------- every run

  lemma StepKeepsListed(s: Sys, step: Step)
    requires AllListed(s.net)
    ensures AllListed(Exec(s, step).net)
  {
    match step
    case Tick(t) => SameKeysListed(s.net, s.net.(now := t));
    case Arrive(packet, lookup, device, hash) => DispatchKeepsListed(s.net, packet, lookup, device, hash);
    case Refresh => UpdateKeepsListed(s.net, 0);
  }

  lemma InitIsListed(local: seq<nat>, now: int)
    ensures AllListed(Init(local, now))
  {
    assert Init(local, now).procs[0].id == UNKNOWN;
  }

  /** In every run, whatever its timing, each live connection is in the global list exactly once and in at
      most one list of a process, and processes are told apart by their ids. */
  lemma {:induction false} EveryRunIsListed(local: seq<nat>, now: int, steps: seq<Step>)
    ensures AllListed(After(Start(local, now), steps).net)
  {
    if steps == [] {
      InitIsListed(local, now);
    } else {
      EveryRunIsListed(local, now, steps[..|steps| - 1]);
      StepKeepsListed(After(Start(local, now), steps[..|steps| - 1]), steps[|steps| - 1]);
    }
  }

  lemma StepKeepsEndpoints(s: Sys, step: Step)
    requires GlobalListed(s.net) && EndpointsDistinct(s.net.table)
    ensures EndpointsDistinct(Exec(s, step).net.table)
  {
    match step
    case Tick(_) =>
    case Arrive(packet, lookup, device, hash) => DispatchKeepsEndpoints(s.net, packet, lookup, device, hash);
    case Refresh => UpdateAges(s.net, 0);
  }

  /** In every run, whatever its timing, every reference packet is outgoing and no two live connections
      share a local end. */
  lemma {:induction false} EveryRunHasDistinctEndpoints(local: seq<nat>, now: int, steps: seq<Step>)
    ensures EndpointsDistinct(After(Start(local, now), steps).net.table)
  {
    if steps != [] {
      var front := steps[..|steps| - 1];
      EveryRunHasDistinctEndpoints(local, now, front);
      EveryRunIsListed(local, now, front);
      StepKeepsEndpoints(After(Start(local, now), front), steps[|steps| - 1]);
    }
  }
}
