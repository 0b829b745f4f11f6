/** The reader/writer file lock on Unix: an advisory lock of the kernel, taken and given back by fcntl,
    and the mode the object remembers. Any number of processes, one system call at a time. */
module LockedFileUnix {
  import opened LockedFile

  /** What follows the unlock() of a call. */
  datatype After = Return | Relock(mode: LockMode, block: bool) | Destroy

  datatype Pc = Idle | Unlocking(after: After) | Locking(mode: LockMode, block: bool)

  datatype Proc = Proc(mode: LockMode, pc: Pc)

  /** The kernel knows one lock per process. */
  datatype State = State(procs: map<Pid, Proc>, held: map<Pid, LockMode>)

  datatype Action =
    | Start(p: Pid)
    | CallLock(p: Pid, mode: LockMode, block: bool)
    | CallUnlock(p: Pid)
    | CallDestroy(p: Pid)
    | Run(p: Pid)    // the next fcntl of p
    | Fault(p: Pid)  // it fails, interrupted or otherwise
    | Crash(p: Pid)  // the process ends, with its locks

  const Init := State(map[], map[])

  /** The kernel lets processes read together, and one write alone. */
  predicate Grantable(held: map<Pid, LockMode>, p: Pid, mode: LockMode) {
    forall q :: q in held && q != p ==> mode == ReadLock && held[q] == ReadLock
  }

  /** F_SETLKW does not return before the lock can be had. */
  predicate Blocked(s: State, p: Pid) {
    p in s.procs && s.procs[p].pc.Locking? && s.procs[p].pc.block && !Grantable(s.held, p, s.procs[p].pc.mode)
  }

  predicate Enabled(s: State, a: Action) {
    if a.Start? then a.p !in s.procs
    else
      a.p in s.procs &&
      match a
      case Run(p) => s.procs[p].pc != Idle && !Blocked(s, p)
      case Fault(p) => s.procs[p].pc != Idle
      case Crash(_) => true
      case _ => s.procs[a.p].pc == Idle
  }

  function Put(s: State, p: Pid, pr: Proc): State {
    s.(procs := s.procs[p := pr])
  }

  function Leave(s: State, p: Pid): State {
    State(s.procs - {p}, s.held - {p})
  }

  /** unlock() has come to its end. */
  function Finish(s: State, p: Pid, after: After): State
    requires p in s.procs
  {
    match after
    case Return => Put(s, p, s.procs[p].(pc := Idle))
    case Relock(mode, block) => Put(s, p, s.procs[p].(pc := Locking(mode, block)))
    case Destroy => Leave(s, p)
  }

  /** unlock(): nothing to do for an object that is not locked. */
  function Unlock(s: State, p: Pid, after: After): State
    requires p in s.procs
  {
    if s.procs[p].mode == NoLock then Finish(s, p, after) else Put(s, p, s.procs[p].(pc := Unlocking(after)))
  }

  function Exec(s: State, a: Action): State
    requires Enabled(s, a)
  {
    match a
    case Start(p) => Put(s, p, Proc(NoLock, Idle))
    case CallLock(p, mode, block) =>
      if mode == NoLock then Unlock(s, p, Return)
      else if mode == s.procs[p].mode then s
      else if s.procs[p].mode != NoLock then Unlock(s, p, Relock(mode, block))
      else Put(s, p, s.procs[p].(pc := Locking(mode, block)))
    case CallUnlock(p) => Unlock(s, p, Return)
    case CallDestroy(p) => Unlock(s, p, Destroy)
    case Run(p) =>
      (match s.procs[p].pc
       case Unlocking(after) => Finish(Put(s, p, s.procs[p].(mode := NoLock)).(held := s.held - {p}), p, after)
       case Locking(mode, _) =>
         if Grantable(s.held, p, mode) then Put(s, p, Proc(mode, Idle)).(held := s.held[p := mode])
         else Put(s, p, s.procs[p].(pc := Idle))
       case Idle => s)
    case Fault(p) =>
      (match s.procs[p].pc
       case Unlocking(after) => Finish(s, p, after)
       case _ => Put(s, p, s.procs[p].(pc := Idle)))
    case Crash(p) => Leave(s, p)
  }

  /** The state after the actions; an action that is not possible changes nothing. */
  function Runs(s: State, actions: seq<Action>): State
    decreases actions
  {
    if actions == [] then s else Runs(if Enabled(s, actions[0]) then Exec(s, actions[0]) else s, actions[1..])
  }

  // ---------------------------------------------------------------- the object and the kernel agree

  predicate Agrees(s: State, p: Pid) {
    && (p in s.held <==> p in s.procs && s.procs[p].mode != NoLock)
    && (p in s.held ==> s.held[p] == s.procs[p].mode)
    && (p in s.procs && s.procs[p].pc.Locking? ==> s.procs[p].pc.mode != NoLock)
    && (p in s.procs && s.procs[p].pc.Unlocking? && s.procs[p].pc.after.Relock? ==> s.procs[p].pc.after.mode != NoLock)
  }

  ghost predicate Inv(s: State) {
    && (forall p: Pid :: Agrees(s, p))
    && (forall p, q :: p in s.held && q in s.held && p != q ==> s.held[p] == s.held[q] == ReadLock)
  }

  lemma OthersUntouched(s: State, a: Action, q: Pid)
    requires Enabled(s, a) && q != a.p
    ensures var t := Exec(s, a);
            && (q in t.procs <==> q in s.procs) && (q in s.procs ==> t.procs[q] == s.procs[q])
            && (q in t.held <==> q in s.held) && (q in s.held ==> t.held[q] == s.held[q])
  {
  }

  /** What its own action makes of the lock of a process: nothing, none, or one the kernel granted. */
  lemma OwnLock(s: State, a: Action)
    requires Enabled(s, a) && Agrees(s, a.p)
    ensures var t := Exec(s, a);
            Agrees(t, a.p) &&
            (a.p in t.held ==> (a.p in s.held && t.held[a.p] == s.held[a.p]) || Grantable(s.held, a.p, t.held[a.p]))
  {
  }

  lemma StepKeepsInv(s: State, a: Action)
    requires Inv(s) && Enabled(s, a)
    ensures Inv(Exec(s, a))
  {
    var t := Exec(s, a);
    assert Agrees(s, a.p);
    OwnLock(s, a);
    forall q: Pid | q != a.p
      ensures Agrees(t, q) && (q in t.held <==> q in s.held) && (q in s.held ==> t.held[q] == s.held[q])
    {
      assert Agrees(s, q);
      OthersUntouched(s, a, q);
    }
  }

  lemma {:induction false} RunKeepsInv(s: State, actions: seq<Action>)
    requires Inv(s)
    ensures Inv(Runs(s, actions))
    decreases actions
  {
    if actions != [] {
      if Enabled(s, actions[0]) {
        StepKeepsInv(s, actions[0]);
      }
      RunKeepsInv(if Enabled(s, actions[0]) then Exec(s, actions[0]) else s, actions[1..]);
    }
  }

  // ---------------------------------------------------------------- the guarantees

  predicate Holder(s: State, p: Pid, mode: LockMode) {
    p in s.procs && s.procs[p].pc == Idle && s.procs[p].mode == mode
  }

  function Holders(s: State, mode: LockMode): set<Pid> {
    set p | p in s.procs && Holder(s, p, mode)
  }

  /** Between a lock() that returned true and the next call, a writer excludes every other holder. */
  lemma Exclusion(actions: seq<Action>, p: Pid, q: Pid)
    requires p != q && Holder(Runs(Init, actions), p, WriteLock)
    ensures !Holder(Runs(Init, actions), q, WriteLock) && !Holder(Runs(Init, actions), q, ReadLock)
  {
    RunKeepsInv(Init, actions);
    var s := Runs(Init, actions);
    assert Agrees(s, p) && Agrees(s, q);
  }

  /** A step never turns one kind of holder into the other. */
  lemma HolderKeepsMode(s: State, a: Action, p: Pid)
    requires Enabled(s, a) && a.p == p
    ensures var t := Exec(s, a);
            !(Holder(s, p, ReadLock) && Holder(t, p, WriteLock)) && !(Holder(s, p, WriteLock) && Holder(t, p, ReadLock))
  {
  }

  lemma OthersHold(s: State, a: Action, q: Pid, mode: LockMode)
    requires Enabled(s, a) && q != a.p
    ensures Holder(Exec(s, a), q, mode) <==> Holder(s, q, mode)
  {
  }

  /** Every step of every run is a step of the documented lock, as on Windows. */
  lemma RefinesAtomicLock(actions: seq<Action>, a: Action)
    requires Enabled(Runs(Init, actions), a)
    ensures var s := Runs(Init, actions);
            var t := Exec(s, a);
            AtomicStep(Holders(s, ReadLock), Holders(s, WriteLock), Holders(t, ReadLock), Holders(t, WriteLock), a.p)
  {
    var s := Runs(Init, actions);
    var t := Exec(s, a);
    RunKeepsInv(Init, actions);
    StepKeepsInv(s, a);
    HolderKeepsMode(s, a, a.p);
    forall q, mode | q != a.p ensures q in Holders(t, mode) <==> q in Holders(s, mode) {
      OthersHold(s, a, q, mode);
    }
    assert Agrees(t, a.p);
    if Holder(t, a.p, WriteLock) {
      forall q | q != a.p ensures q !in Holders(t, ReadLock) && q !in Holders(t, WriteLock) {
        assert Agrees(t, q);
      }
    } else if Holder(t, a.p, ReadLock) {
      forall q ensures q !in Holders(t, WriteLock) {
        assert Agrees(t, q);
      }
    }
  }

  /** A process that waits for a lock waits for another one whose lock conflicts with the mode it asks for;
      while its own unlock() before did not fail, it holds nothing itself. */
  lemma WaitsForHolders(actions: seq<Action>, p: Pid) returns (q: Pid)
    requires Blocked(Runs(Init, actions), p)
    ensures var s := Runs(Init, actions);
            && q != p && q in s.held && q in s.procs && s.procs[q].mode == s.held[q] != NoLock
            && (s.procs[p].pc.mode == WriteLock || s.held[q] == WriteLock)
    ensures var s := Runs(Init, actions); s.procs[p].mode == NoLock ==> p !in s.held
  {
    RunKeepsInv(Init, actions);
    var s := Runs(Init, actions);
    q :| q in s.held && q != p && !(s.procs[p].pc.mode == ReadLock && s.held[q] == ReadLock);
    assert Agrees(s, q) && Agrees(s, p);
  }

  // ---------------------------------------------------------------- what a call comes to

  /** How many system calls of p its call still needs at most. */
  function Left(pc: Pc): nat {
    match pc
    case Idle => 0
    case Locking(_, _) => 1
    case Unlocking(after) => if after.Relock? then 2 else 1
  }

  /** The state in which p, left to itself and without failures, has come back from its call, is gone, or waits. */
  function Alone(s: State, p: Pid): State
    decreases if p in s.procs then Left(s.procs[p].pc) else 0
  {
    if p !in s.procs || s.procs[p].pc == Idle || Blocked(s, p) then s else Alone(Exec(s, Run(p)), p)
  }

  /** The other processes and their locks are as they were. */
  ghost predicate OthersKept(s: State, t: State, p: Pid) {
    forall q :: q != p ==>
      && (q in t.procs <==> q in s.procs) && (q in s.procs ==> t.procs[q] == s.procs[q])
      && (q in t.held <==> q in s.held) && (q in s.held ==> t.held[q] == s.held[q])
  }

  lemma LetGo(s: State, p: Pid, after: After)
    requires Agrees(s, p) && p in s.procs && s.procs[p].pc == Idle && (after == Return || after == Destroy)
    ensures var t := Alone(Unlock(s, p, after), p);
            && OthersKept(s, t, p) && p !in t.held
            && if after == Return then p in t.procs && t.procs[p] == Proc(NoLock, Idle) else p !in t.procs
  {
    var s1 := Unlock(s, p, after);
    if s.procs[p].mode != NoLock {
      var t := Exec(s1, Run(p));
      assert Alone(s1, p) == Alone(t, p) == t;
    }
  }

  /** Left to itself, unlock() gives the lock of the kernel back, whatever the other processes do. */
  lemma UnlockReturns(s: State, p: Pid, block: bool)
    requires Inv(s) && p in s.procs && s.procs[p].pc == Idle
    ensures var t := Alone(Exec(s, CallUnlock(p)), p);
            && p in t.procs && t.procs[p] == Proc(NoLock, Idle) && p !in t.held && OthersKept(s, t, p)
    ensures Exec(s, CallLock(p, NoLock, block)) == Exec(s, CallUnlock(p))
  {
    assert Agrees(s, p);
    LetGo(s, p, Return);
  }

  /** And so does the destructor, which is gone then; a process that crashes keeps no lock either. */
  lemma DestructorLeaves(s: State, p: Pid)
    requires Inv(s) && p in s.procs && s.procs[p].pc == Idle
    ensures var t := Alone(Exec(s, CallDestroy(p)), p); p !in t.procs && p !in t.held && OthersKept(s, t, p)
    ensures var t := Exec(s, Crash(p)); p !in t.procs && p !in t.held && OthersKept(s, t, p)
  {
    assert Agrees(s, p);
    LetGo(s, p, Destroy);
  }

  /** The call is over, and the kernel has granted the lock, made p wait, or refused it. */
  ghost predicate Ended(t: State, p: Pid, granted: bool, mode: LockMode, block: bool) {
    p in t.procs &&
    if granted then t.procs[p] == Proc(mode, Idle) && p in t.held && t.held[p] == mode
    else if block then Blocked(t, p) && p !in t.held
    else t.procs[p] == Proc(NoLock, Idle) && p !in t.held
  }

  lemma LockingEnds(s: State, p: Pid, mode: LockMode, block: bool)
    requires p in s.procs && s.procs[p] == Proc(NoLock, Locking(mode, block)) && p !in s.held
    ensures Ended(Alone(s, p), p, Grantable(s.held, p, mode), mode, block) && OthersKept(s, Alone(s, p), p)
  {
    if !Blocked(s, p) {
      var t := Exec(s, Run(p));
      assert Alone(s, p) == Alone(t, p) == t;
    }
  }

  lemma KeptTwice(s: State, t: State, u: State, p: Pid, mode: LockMode)
    requires OthersKept(s, t, p) && OthersKept(t, u, p)
    ensures OthersKept(s, u, p) && Grantable(t.held, p, mode) == Grantable(s.held, p, mode)
  {
  }

  /** A lock() that changes the mode first gives the old lock back. */
  lemma Reaches(s: State, p: Pid, mode: LockMode, block: bool) returns (t: State)
    requires Agrees(s, p) && p in s.procs && s.procs[p].pc == Idle && mode != NoLock && s.procs[p].mode != mode
    ensures p in t.procs && t.procs[p] == Proc(NoLock, Locking(mode, block)) && p !in t.held && OthersKept(s, t, p)
    ensures Alone(Exec(s, CallLock(p, mode, block)), p) == Alone(t, p)
  {
    t := Exec(s, CallLock(p, mode, block));
    if s.procs[p].mode != NoLock {
      t := Exec(t, Run(p));
    }
  }

  /** No other process holds a lock that conflicts with the mode. */
  ghost predicate NoConflict(s: State, p: Pid, mode: LockMode) {
    forall q :: q in s.held && q != p ==> mode == ReadLock && s.held[q] == ReadLock
  }

  /** Left to itself, lock(mode, block) ends up holding the lock exactly if no other process holds a lock that
      conflicts with it.  Otherwise it waits, if it may block, or is refused; its old lock is gone then. */
  lemma LockReturns(s: State, p: Pid, mode: LockMode, block: bool)
    requires Inv(s) && p in s.procs && s.procs[p].pc == Idle && mode != NoLock && s.procs[p].mode != mode
    ensures OthersKept(s, Alone(Exec(s, CallLock(p, mode, block)), p), p)
    ensures Ended(Alone(Exec(s, CallLock(p, mode, block)), p), p, NoConflict(s, p, mode), mode, block)
  {
    assert Agrees(s, p);
    var t := Reaches(s, p, mode, block);
    LockingEnds(t, p, mode, block);
    KeptTwice(s, t, Alone(t, p), p, mode);
  }

  /** Asking again for the mode one has is answered at once, makes no system call and changes nothing. */
  lemma LockAgain(s: State, p: Pid, mode: LockMode, block: bool)
    requires Inv(s) && p in s.procs && s.procs[p].pc == Idle && s.procs[p].mode == mode != NoLock
    ensures Exec(s, CallLock(p, mode, block)) == s && Alone(s, p) == s && p in s.held && s.held[p] == mode
  {
    assert Agrees(s, p);
  }
}
