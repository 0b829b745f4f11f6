/** What a call of the Windows lock comes to: what unlock() gives back, and what lock() answers. */
module LockedFileWinCalls {
  import opened LockedFile
  import opened LockedFileWin
  import opened LockedFileWinGuarantees

  // ---------------------------------------------------------------- unlock() and the destructor

  /** The object is inside an unlock() that does nothing else afterwards, or behind it. */
  predicate LettingGo(pr: Proc, after: After) {
    match pr.pc
    case DropReader(a) => a == after
    case CloseReader(a) => a == after
    case DropSlots(a) => a == after
    case CloseSlot(a) => a == after
    case DropWriter(a) => a == after
    case Idle => after == Return && pr.mode == NoLock && !pr.refused
    case CloseWriter => after == Destroy
    case _ => false
  }

  lemma StepLetsGo(pr: Proc, owner: map<Name, Hold>, p: Pid, known: bool, after: After)
    requires Shape(pr) && LettingGo(pr, after) && (after == Return || after == Destroy) && pr.pc != Idle && pr.pc != CloseWriter
    ensures !Waiting(pr, owner, p) && LettingGo(Step(pr, owner, p, known).pr, after)
  {
  }

  lemma CallLetsGo(pr: Proc, after: After)
    requires Shape(pr) && pr.pc == Idle && (after == Return || after == Destroy)
    ensures LettingGo(UnlockCall(pr, after), after)
  {
  }

  lemma NextLetsGo(s: State, p: Pid, after: After)
    requires Inv(s) && p in s.procs && LettingGo(s.procs[p], after) && (after == Return || after == Destroy)
    requires s.procs[p].pc != Idle && s.procs[p].pc != CloseWriter
    ensures !Stuck(s, p)
    ensures var t := Exec(s, Run(p));
            Inv(t) && OthersSame(s, t, p) && p in t.procs && LettingGo(t.procs[p], after) && Rank(t.procs[p]) < Rank(s.procs[p])
  {
    var pr := s.procs[p];
    var known := Exists(s.procs, Reader(Slot(pr)));
    StepLetsGo(pr, s.owner, p, known, after);
    StepKeepsInv(s, Run(p));
    StepsShrinkRank(Run(p), pr, s.owner, known);
    OthersUntouched(s, Run(p));
  }

  lemma {:induction false} AloneLetsGo(s: State, p: Pid, after: After)
    requires Inv(s) && p in s.procs && LettingGo(s.procs[p], after) && (after == Return || after == Destroy)
    ensures var t := Alone(s, p);
            && Inv(t) && OthersSame(s, t, p) && p in t.procs && LettingGo(t.procs[p], after)
            && t.procs[p].pc == if after == Return then Idle else CloseWriter
    decreases Rank(s.procs[p])
  {
    if s.procs[p].pc != Idle && s.procs[p].pc != CloseWriter {
      NextLetsGo(s, p, after);
      AloneLetsGo(Exec(s, Run(p)), p, after);
    }
  }

  /** The object is between calls and unlocked: it is no holder, and owns no mutex. */
  ghost predicate Unlocked(s: State, p: Pid) {
    && p in s.procs && s.procs[p].pc == Idle && s.procs[p].mode == NoLock && !s.procs[p].refused
    && !WriteHolder(s, p) && !ReadHolder(s, p)
    && forall n :: n in s.owner ==> s.owner[n].pid != p
  }

  lemma LetGoIsUnlocked(s: State, p: Pid)
    requires Inv(s) && p in s.procs && s.procs[p].pc == Idle && LettingGo(s.procs[p], Return)
    ensures Unlocked(s, p)
  {
  }

  lemma CallReturnsUnlocked(s: State, a: Action, p: Pid)
    requires Inv(s) && p in s.procs && s.procs[p].pc == Idle && (a == CallUnlock(p) || (a.CallLock? && a.p == p && a.mode == NoLock))
    ensures Inv(Exec(s, a))
    ensures Unlocked(Alone(Exec(s, a), p), p) && OthersSame(s, Alone(Exec(s, a), p), p)
  {
    StepKeepsInv(s, a);
    CallLetsGo(s.procs[p], Return);
    CallLetsGo(s.procs[p].(refused := false), Return);
    OthersUntouched(s, a);
    AloneLetsGo(Exec(s, a), p, Return);
    LetGoIsUnlocked(Alone(Exec(s, a), p), p);
  }

  /** Whatever the other processes hold or are about to do, unlock() gives the lock back when the process runs
      on, and does not change what they do. */
  lemma UnlockReturns(s: State, p: Pid)
    requires Inv(s) && p in s.procs && s.procs[p].pc == Idle
    ensures Inv(Exec(s, CallUnlock(p)))
    ensures Unlocked(Alone(Exec(s, CallUnlock(p)), p), p) && OthersSame(s, Alone(Exec(s, CallUnlock(p)), p), p)
  {
    CallReturnsUnlocked(s, CallUnlock(p), p);
  }

  /** So does lock(NoLock). */
  lemma LockNothingReturns(s: State, p: Pid, block: bool)
    requires Inv(s) && p in s.procs && s.procs[p].pc == Idle
    ensures Inv(Exec(s, CallLock(p, NoLock, block)))
    ensures Unlocked(Alone(Exec(s, CallLock(p, NoLock, block)), p), p)
  {
    CallReturnsUnlocked(s, CallLock(p, NoLock, block), p);
  }

  /** The destructor gives the lock back, closes the last handle and is gone. */
  lemma DestructorLeaves(s: State, p: Pid)
    requires Inv(s) && p in s.procs && s.procs[p].pc == Idle
    ensures Inv(Exec(s, CallDestroy(p)))
    ensures var t := Alone(Exec(s, CallDestroy(p)), p);
            && Enabled(t, Run(p)) && OthersSame(s, t, p) && (forall n :: n in t.owner ==> t.owner[n].pid != p)
            && p !in Exec(t, Run(p)).procs && forall n :: n in Exec(t, Run(p)).owner ==> Exec(t, Run(p)).owner[n].pid != p
  {
    StepKeepsInv(s, CallDestroy(p));
    CallLetsGo(s.procs[p], Destroy);
    OthersUntouched(s, CallDestroy(p));
    AloneLetsGo(Exec(s, CallDestroy(p)), p, Destroy);
  }

  /** A process that crashes keeps no mutex. */
  lemma CrashLeaves(s: State, p: Pid)
    requires Inv(s) && p in s.procs
    ensures var t := Exec(s, Crash(p));
            p !in t.procs && OthersSame(s, t, p) && forall n :: n in t.owner ==> t.owner[n].pid != p
  {
  }

  // ---------------------------------------------------------------- what lock() answers, in any interleaving

  /** A lock(mode) is under way, or has been answered: locked as asked for, or refused and unlocked. */
  predicate Pursues(pr: Proc, mode: LockMode) {
    match pr.pc
    case Idle => (pr.mode == mode && !pr.refused) || (pr.mode == NoLock && pr.refused)
    case OpenWriter(m, _) => m == mode
    case WaitWriter(m, _) => m == mode
    case Enumerate(_, _) => mode == WriteLock
    case WaitAll(_) => mode == WriteLock
    case DropReader(after) => Resumes(after, mode)
    case CloseReader(after) => Resumes(after, mode)
    case DropSlots(after) => Resumes(after, mode)
    case CloseSlot(after) => Resumes(after, mode)
    case DropWriter(after) => Resumes(after, mode)
    case CloseWriter => false
    case _ => mode == ReadLock
  }

  predicate Resumes(after: After, mode: LockMode) {
    (after.Relock? && after.mode == mode) || (after == Refuse && mode == WriteLock)
  }

  lemma RunPursues(pr: Proc, owner: map<Name, Hold>, p: Pid, known: bool, mode: LockMode)
    requires Shape(pr) && Pursues(pr, mode) && mode != NoLock && pr.pc != Idle
    ensures Pursues(Step(pr, owner, p, known).pr, mode)
  {
  }

  lemma FailurePursues(a: Action, pr: Proc, owner: map<Name, Hold>, known: bool, mode: LockMode)
    requires Shape(pr) && Pursues(pr, mode) && mode != NoLock && Ready(a, pr, owner) && (a.RunAbandoned? || a.Fault?)
    ensures Pursues(Local(a, pr, owner, known).pr, mode)
  {
  }

  lemma StepPursues(s: State, a: Action, p: Pid, mode: LockMode)
    requires Inv(s) && Enabled(s, a) && p in s.procs && Pursues(s.procs[p], mode) && mode != NoLock
    requires a.p == p ==> a.Run? || a.RunAbandoned? || a.Fault?
    ensures p in Exec(s, a).procs && Pursues(Exec(s, a).procs[p], mode)
  {
    if a.p != p {
      OthersUntouched(s, a);
    } else {
      var known := Exists(s.procs, Reader(Slot(s.procs[p])));
      if a.Run? {
        RunPursues(s.procs[p], s.owner, p, known, mode);
      } else {
        FailurePursues(a, s.procs[p], s.owner, known, mode);
      }
    }
  }

  lemma CallPursues(pr: Proc, mode: LockMode, block: bool)
    requires Shape(pr) && pr.pc == Idle && mode != NoLock
    ensures Pursues(LockCall(pr, mode, block), mode)
  {
  }

  ghost predicate Leads(s: State, a: Action, t: State) {
    Inv(s) && Enabled(s, a) && t == Exec(s, a)
  }

  ghost predicate Asked(s: State, p: Pid, mode: LockMode) {
    p in s.procs && Pursues(s.procs[p], mode)
  }

  lemma CallAsks(s: State, t: State, p: Pid, mode: LockMode, block: bool)
    requires Leads(s, CallLock(p, mode, block), t) && mode != NoLock
    ensures Asked(t, p, mode)
  {
    CallPursues(s.procs[p], mode, block);
  }

  lemma KeepsAsking(s: State, a: Action, t: State, p: Pid, mode: LockMode)
    requires Leads(s, a, t) && Asked(s, p, mode) && mode != NoLock
    requires a.p == p ==> a.Run? || a.RunAbandoned? || a.Fault?
    ensures Asked(t, p, mode)
  {
    StepPursues(s, a, p, mode);
  }

  /** From the call on, p only runs or fails: it makes no other call and does not crash. */
  predicate OnlyRuns(actions: seq<Action>, k: nat, j: nat, p: Pid)
    requires j <= |actions|
  {
    forall i :: k < i < j && actions[i].p == p ==> actions[i].Run? || actions[i].RunAbandoned? || actions[i].Fault?
  }

  lemma RunLeads(states: seq<State>, actions: seq<Action>, j: nat)
    requires IsRun(states, actions) && j + 1 < |states|
    ensures Leads(states[j], actions[j], states[j + 1])
  {
    RunKeepsInv(states, actions, j);
  }

  lemma AnswerBegins(states: seq<State>, actions: seq<Action>, k: nat, p: Pid, mode: LockMode, block: bool)
    requires IsRun(states, actions) && k + 1 < |states| && actions[k] == CallLock(p, mode, block) && mode != NoLock
    ensures Asked(states[k + 1], p, mode)
  {
    RunLeads(states, actions, k);
    CallAsks(states[k], states[k + 1], p, mode, block);
  }

  lemma AnswerGoesOn(states: seq<State>, actions: seq<Action>, j: nat, p: Pid, mode: LockMode)
    requires IsRun(states, actions) && j + 1 < |states| && Asked(states[j], p, mode) && mode != NoLock
    requires actions[j].p == p ==> actions[j].Run? || actions[j].RunAbandoned? || actions[j].Fault?
    ensures Asked(states[j + 1], p, mode)
  {
    RunLeads(states, actions, j);
    KeepsAsking(states[j], actions[j], states[j + 1], p, mode);
  }

  /** However the processes interleave and whatever fails, a lock(mode) comes back with the mode asked for, or
      refused and unlocked. */
  lemma {:induction false} LockAnswers(states: seq<State>, actions: seq<Action>, k: nat, j: nat, p: Pid, mode: LockMode, block: bool)
    requires IsRun(states, actions) && k < j < |states| && actions[k] == CallLock(p, mode, block) && mode != NoLock
    requires OnlyRuns(actions, k, j, p)
    ensures Asked(states[j], p, mode)
    decreases j
  {
    if j == k + 1 {
      AnswerBegins(states, actions, k, p, mode, block);
    } else {
      LockAnswers(states, actions, k, j - 1, p, mode, block);
      AnswerGoesOn(states, actions, j - 1, p, mode);
    }
  }

  /** Asking again for the mode one has is answered at once, and changes nothing. */
  lemma LockAgain(s: State, p: Pid, mode: LockMode, block: bool)
    requires Inv(s) && p in s.procs && s.procs[p].pc == Idle && s.procs[p].mode == mode != NoLock
    ensures Exec(s, CallLock(p, mode, block)) == s
  {
    StepKeepsInv(s, CallLock(p, mode, block));
    OwnersHaveHandles(s);
    assert s.procs[p].(refused := false) == s.procs[p] && s.procs[p := s.procs[p]] == s.procs;
    SweepNothing(s.procs, s.owner);
  }

  // ---------------------------------------------------------------- who waits and who returns

  /** What a lock(mode, block) is at while the other processes rest. */
  predicate Tracks(pr: Proc, rest: Rest, mode: LockMode, block: bool) {
    match pr.pc
    case OpenWriter(m, b) => m == mode && b == block
    case WaitWriter(m, b) => m == mode && b == block
    case Enumerate(_, b) => mode == WriteLock && b == block && rest.noWriter
    case WaitAll(b) => mode == WriteLock && b == block && rest.noWriter
    case DropReader(after) => after == Relock(mode, block)
    case CloseReader(after) => after == Relock(mode, block)
    case DropSlots(after) => TracksUnlock(after, mode, block)
    case CloseSlot(after) => TracksUnlock(after, mode, block)
    case DropWriter(after) => TracksUnlock(after, mode, block)
    case Idle => (pr.mode == mode && !pr.refused) || (pr.mode == NoLock && pr.refused && !Waits(rest, mode, block))
    case CloseWriter => false
    case _ => mode == ReadLock && rest.noWriter
  }

  predicate TracksUnlock(after: After, mode: LockMode, block: bool) {
    after == Relock(mode, block) || (after == Refuse && mode == WriteLock && !block)
  }

  /** A lock() that cannot be had waits if it may block, and not just all reader slots are taken. */
  predicate Waits(rest: Rest, mode: LockMode, block: bool) {
    block && (mode == WriteLock || !rest.noWriter)
  }

  lemma UnlockTracks(pr: Proc, owner: map<Name, Hold>, p: Pid, known: bool, rest: Rest, mode: LockMode, block: bool)
    requires Shape(pr) && Tracks(pr, rest, mode, block) && mode != NoLock
    requires pr.pc.DropReader? || pr.pc.CloseReader? || pr.pc.DropSlots? || pr.pc.CloseSlot? || pr.pc.DropWriter?
    ensures Tracks(Step(pr, owner, p, known).pr, rest, mode, block)
  {
  }

  lemma WriterTracks(pr: Proc, owner: map<Name, Hold>, p: Pid, known: bool, rest: Rest, mode: LockMode, block: bool)
    requires Shape(pr) && Tracks(pr, rest, mode, block) && mode != NoLock && Sees(pr, owner, p, known, rest) && !Waiting(pr, owner, p)
    requires pr.pc.OpenWriter? || pr.pc.WaitWriter? || pr.pc.Enumerate? || pr.pc.WaitAll?
    ensures Tracks(Step(pr, owner, p, known).pr, rest, mode, block)
  {
  }

  lemma ReaderTracks(pr: Proc, owner: map<Name, Hold>, p: Pid, known: bool, rest: Rest, mode: LockMode, block: bool)
    requires Shape(pr) && Tracks(pr, rest, mode, block) && mode != NoLock
    requires pr.pc.ProbeOpen? || pr.pc.ProbeWait? || pr.pc.ProbeClose? || pr.pc.SlotCreate? || pr.pc.SlotWait? || pr.pc.SlotDrop? ||
             pr.pc.ReaderRelease?
    ensures Tracks(Step(pr, owner, p, known).pr, rest, mode, block)
  {
  }

  lemma StepTracks(pr: Proc, owner: map<Name, Hold>, p: Pid, known: bool, rest: Rest, mode: LockMode, block: bool)
    requires Shape(pr) && Tracks(pr, rest, mode, block) && mode != NoLock && Sees(pr, owner, p, known, rest)
    requires pr.pc != Idle && pr.pc != CloseWriter && !Waiting(pr, owner, p)
    ensures Tracks(Step(pr, owner, p, known).pr, rest, mode, block)
  {
    var pc := pr.pc;
    if pc.DropReader? || pc.CloseReader? || pc.DropSlots? || pc.CloseSlot? || pc.DropWriter? {
      UnlockTracks(pr, owner, p, known, rest, mode, block);
    } else if pc.OpenWriter? || pc.WaitWriter? || pc.Enumerate? || pc.WaitAll? {
      WriterTracks(pr, owner, p, known, rest, mode, block);
    } else {
      ReaderTracks(pr, owner, p, known, rest, mode, block);
    }
  }

  lemma CallTracks(pr: Proc, rest: Rest, mode: LockMode, block: bool)
    requires Shape(pr) && pr.pc == Idle && mode != NoLock && pr.mode != mode
    ensures Tracks(LockCall(pr, mode, block), rest, mode, block)
  {
  }

  lemma {:induction false} AloneTracks(s: State, p: Pid, mode: LockMode, block: bool)
    requires Inv(s) && OthersIdle(s, p) && mode != NoLock && Tracks(s.procs[p], RestOf(s, p), mode, block)
    ensures p in Alone(s, p).procs && Tracks(Alone(s, p).procs[p], RestOf(s, p), mode, block)
    decreases Rank(s.procs[p])
  {
    if !Stuck(s, p) {
      SeesRest(s, p);
      StepTracks(s.procs[p], s.owner, p, Exists(s.procs, Reader(Slot(s.procs[p]))), RestOf(s, p), mode, block);
      NextStepOutcome(s, p, mode);
      AloneTracks(Exec(s, Run(p)), p, mode, block);
    }
  }

  /** What is known of a call that went as far as it can: it is locked, it waits, or it is refused. */
  ghost predicate Ended(t: State, p: Pid, rest: Rest, mode: LockMode, block: bool) {
    p in t.procs &&
    if Grantable(rest, mode) then Holds(t, p, mode) && !t.procs[p].refused
    else if Waits(rest, mode, block) then Blocked(t, p)
    else t.procs[p].pc == Idle && t.procs[p].mode == NoLock && t.procs[p].refused
  }

  lemma StuckEnds(t: State, p: Pid, rest: Rest, mode: LockMode, block: bool)
    requires Stuck(t, p) && Tracks(t.procs[p], rest, mode, block) && mode != NoLock
    requires Sees(t.procs[p], t.owner, p, Exists(t.procs, Reader(Slot(t.procs[p]))), rest)
    requires Holds(t, p, mode) <==> Grantable(rest, mode)
    ensures Ended(t, p, rest, mode, block)
  {
  }

  /** While the other processes are between calls, lock(mode, block) ends up holding the lock exactly if the
      documented rules allow it.  Otherwise it waits if it may block, except for a reader that finds no slot;
      else it is refused, and unlocked. */
  lemma LockEnds(s: State, p: Pid, mode: LockMode, block: bool)
    requires Inv(s) && OthersIdle(s, p) && s.procs[p].pc == Idle && mode != NoLock && s.procs[p].mode != mode
    ensures Inv(Exec(s, CallLock(p, mode, block)))
    ensures Ended(Alone(Exec(s, CallLock(p, mode, block)), p), p, RestOf(s, p), mode, block)
  {
    var s0 := Exec(s, CallLock(p, mode, block));
    LockReturns(s, p, mode, block);
    OthersUntouched(s, CallLock(p, mode, block));
    SameRest(s, s0, p);
    CallTracks(s.procs[p], RestOf(s, p), mode, block);
    AloneTracks(s0, p, mode, block);
    AloneOutcome(s0, p, mode);
    SeesRest(Alone(s0, p), p);
    StuckEnds(Alone(s0, p), p, RestOf(s, p), mode, block);
  }
}
