/** Which process a new connection goes to.  The comment above getProcess promises the unknown process for
    connections without a program; with REVERSEHACK 0 they never go there. */
module NetAttribution {
  import opened Common
  import opened NetModel
  import opened NetOwnership
  import opened NetSystem

  predicate IsNew(net: Net, packet: Packet) {
    FindConnection(net, Resolve(packet, net.local)) == None
  }

  /** The lookup names a program, and its pid is that of the process of unknown traffic. */
  predicate NamesUnknown(procs: seq<Proc>, lookup: Lookup) {
    lookup.Program? && FindPid(procs, lookup.pid) < |procs| && procs[FindPid(procs, lookup.pid)].id == UNKNOWN
  }

  /** A new connection goes to the unknown process exactly if its program has the pid of that process, and no
      process before it has. */
  lemma UnknownGetsConnectionIff(net: Net, packet: Packet, lookup: Lookup, device: string, hash: string)
    requires AllListed(net) && IsNew(net, packet)
    ensures var net' := Dispatch(net, packet, lookup, device, hash);
            (exists k: nat :: Owns(net', k, net.next) && net'.procs[k].id == UNKNOWN) <==> NamesUnknown(net.procs, lookup)
  {
    var net' := Dispatch(net, packet, lookup, device, hash);
    forall k: nat ensures !Owns(net, k, net.next) {
    }
    if NamesUnknown(net.procs, lookup) {
      var i := FindPid(net.procs, lookup.pid);
      assert Owns(net', i, net.next) && net'.procs[i].id == UNKNOWN;
    }
    if k: nat :| Owns(net', k, net.next) && net'.procs[k].id == UNKNOWN {
      assert !Owns(net, k, net.next);
      assert k > 0 ==> !Owns(net, k - 1, net.next);
    }
  }

  /** A new connection without a program gets a process of its own, that was not there before. */
  lemma UnknownTrafficGetsOwnProcess(net: Net, packet: Packet, lookup: Lookup, device: string, hash: string)
    requires AllListed(net) && IsNew(net, packet) && !lookup.Program?
    ensures var net' := Dispatch(net, packet, lookup, device, hash);
            && |net'.procs| == |net.procs| + 1 && net'.procs[1..] == net.procs
            && net'.procs[0].conns == [net.next] && net'.procs[0].id != UNKNOWN
            && net'.procs[0].pid == 0 && net'.procs[0].name == hash && net'.procs[0].device == "" && net'.procs[0].uid == 0
            && (forall k :: 0 <= k < |net.procs| ==> net.procs[k].id != net'.procs[0].id)
            && forall k: nat :: Owns(net', k, net.next) ==> k == 0
  {
    var net' := Dispatch(net, packet, lookup, device, hash);
    forall k: nat | Owns(net', k, net.next) ensures k == 0 {
      if k > 0 {
        assert Owns(net, k - 1, net.next);
      }
    }
  }

  /** The search finds the first process with the pid, if there is one. */
  lemma {:induction false} FoundPid(procs: seq<Proc>, pid: int)
    ensures var i := FindPid(procs, pid);
            && (i < |procs| ==> procs[i].pid == pid) && (forall k :: 0 <= k < i ==> procs[k].pid != pid)
            && (i == |procs| <==> forall k :: 0 <= k < |procs| ==> procs[k].pid != pid)
  {
    if procs != [] {
      FoundPid(procs[1..], pid);
      assert forall k :: 0 < k < |procs| ==> procs[k] == procs[1..][k - 1];
    }
  }

  /** The first process with the pid stands at i, or i is the length and there is none. */
  ghost predicate FirstWith(procs: seq<Proc>, pid: int, i: nat) {
    i <= |procs| && (i < |procs| ==> procs[i].pid == pid) && forall k :: 0 <= k < i ==> procs[k].pid != pid
  }

  lemma AttachedTo(procs: seq<Proc>, newId: nat, id: nat, pid: int, name: string, uid: nat, device: string, hash: string, i: nat)
    requires FirstWith(procs, pid, i)
    ensures Attach(procs, newId, id, Program(pid, name, uid), device, hash) ==
            if i < |procs| then procs[i := procs[i].(conns := [id] + procs[i].conns)]
            else [Proc(newId, pid, name, device, uid, [id])] + procs
  {
    FoundPid(procs, pid);
  }

  lemma NewIsAttached(net: Net, packet: Packet, lookup: Lookup, device: string, hash: string)
    requires IsNew(net, packet)
    ensures Dispatch(net, packet, lookup, device, hash).procs == Attach(net.procs, net.next + 1, net.next, lookup, device, hash)
  {
  }

  /** A new connection of a program goes, in front of the others, to the first process with its pid; if there is
      none, to a new process with the pid, name and user of the program and the device of the packet. */
  lemma ProgramGetsConnection(net: Net, packet: Packet, pid: int, name: string, uid: nat, device: string, hash: string) returns (i: nat)
    requires IsNew(net, packet)
    ensures FirstWith(net.procs, pid, i)
    ensures Dispatch(net, packet, Program(pid, name, uid), device, hash).procs ==
            if i < |net.procs| then net.procs[i := net.procs[i].(conns := [net.next] + net.procs[i].conns)]
            else [Proc(net.next + 1, pid, name, device, uid, [net.next])] + net.procs
  {
    i := FindPid(net.procs, pid);
    FoundPid(net.procs, pid);
    AttachedTo(net.procs, net.next + 1, net.next, pid, name, uid, device, hash, i);
    NewIsAttached(net, packet, Program(pid, name, uid), device, hash);
  }

  // ---------------------------------------------------------------- the unknown process over a run

  /** The unknown process has pid 0 and no connections. */
  ghost predicate UnknownEmpty(procs: seq<Proc>) {
    forall k :: 0 <= k < |procs| && procs[k].id == UNKNOWN ==> procs[k].pid == 0 && procs[k].conns == []
  }

  predicate NamesPidZero(step: Step) {
    step.Arrive? && step.lookup.Program? && step.lookup.pid == 0
  }

  lemma DispatchKeepsUnknownEmpty(net: Net, packet: Packet, lookup: Lookup, device: string, hash: string)
    requires UnknownEmpty(net.procs) && !(lookup.Program? && lookup.pid == 0)
    ensures UnknownEmpty(Dispatch(net, packet, lookup, device, hash).procs)
  {
    if lookup.Program? {
      FoundPid(net.procs, lookup.pid);
    }
  }

  lemma TurnKeepsUnknownEmpty(net: Net, i: nat)
    requires i < |net.procs| && UnknownEmpty(net.procs)
    ensures UnknownEmpty(TurnNet(net, i).procs)
  {
    forall k | 0 <= k < |TurnNet(net, i).procs| && TurnNet(net, i).procs[k].id == UNKNOWN
      ensures TurnNet(net, i).procs[k].pid == 0 && TurnNet(net, i).procs[k].conns == []
    {
      var m := if Expired(net, net.procs[i]) && k >= i then k + 1 else k;
      assert net.procs[m].id == UNKNOWN;
    }
  }

  lemma {:induction false} UpdateKeepsUnknownEmpty(net: Net, i: nat)
    requires i <= |net.procs| && UnknownEmpty(net.procs)
    ensures UnknownEmpty(UpdateFrom(net, i).net.procs)
    decreases |net.procs| - i
  {
    if i < |net.procs| {
      TurnKeepsUnknownEmpty(net, i);
      UpdateTurns(net, i);
      UpdateKeepsUnknownEmpty(TurnNet(net, i), TurnIndex(net, i));
    }
  }

  /** In every run in which no program has pid 0, the unknown process never has a connection. */
  lemma {:induction false} UnknownStaysEmpty(local: seq<nat>, now: int, steps: seq<Step>)
    requires forall i :: 0 <= i < |steps| ==> !NamesPidZero(steps[i])
    ensures UnknownEmpty(After(Start(local, now), steps).net.procs)
  {
    if steps != [] {
      var front, step := steps[..|steps| - 1], steps[|steps| - 1];
      var s := After(Start(local, now), front);
      UnknownStaysEmpty(local, now, front);
      match step
      case Tick(_) =>
      case Arrive(packet, lookup, device, hash) => DispatchKeepsUnknownEmpty(s.net, packet, lookup, device, hash);
      case Refresh => UpdateKeepsUnknownEmpty(s.net, 0);
    }
  }
}
