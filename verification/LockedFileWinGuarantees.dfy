/** What the Windows lock guarantees in every interleaving of any number of processes. */
module LockedFileWinGuarantees {
  import opened Common
  import opened LockedFile
  import opened LockedFileWin

  /** p is between a lock() that returned true and the matching unlock(). */
  predicate WriteHolder(s: State, p: Pid) {
    p in s.procs && s.procs[p].pc == Idle && s.procs[p].mode == WriteLock
  }

  predicate ReadHolder(s: State, p: Pid) {
    p in s.procs && s.procs[p].pc == Idle && s.procs[p].mode == ReadLock
  }

  // ---------------------------------------------------------------- safety

  /** A write holder excludes every other holder; read holders own pairwise distinct slots. */
  lemma Exclusion(s: State, p: Pid, q: Pid)
    requires Inv(s) && p != q
    ensures WriteHolder(s, p) ==> !WriteHolder(s, q) && !ReadHolder(s, q)
    ensures ReadHolder(s, p) && ReadHolder(s, q) ==> s.procs[p].rHandle != s.procs[q].rHandle
  {
    if WriteHolder(s, p) && WriteHolder(s, q) {
      assert Owes(s, p, Writer) && Owes(s, q, Writer);
    }
    if ReadHolder(s, q) {
      var i := s.procs[q].rHandle.value;
      assert HasHandle(s.procs[q], Reader(i)) && Owes(s, q, Reader(i));
      if WriteHolder(s, p) {
        assert i in s.procs[p].rHandles;
        assert Owes(s, p, Reader(i));
      }
      if ReadHolder(s, p) && s.procs[p].rHandle.value == i {
        assert Owes(s, p, Reader(i));
      }
    }
  }

  lemma ExclusionInEveryRun(states: seq<State>, actions: seq<Action>, k: nat, p: Pid, q: Pid)
    requires IsRun(states, actions) && k < |states| && p != q
    ensures WriteHolder(states[k], p) ==> !WriteHolder(states[k], q) && !ReadHolder(states[k], q)
    ensures ReadHolder(states[k], p) && ReadHolder(states[k], q) ==> states[k].procs[p].rHandle != states[k].procs[q].rHandle
  {
    RunKeepsInv(states, actions, k);
    Exclusion(states[k], p, q);
  }

  /** An object between calls owns no mutex unless it is locked; in particular after a lock() that
      returned false, whichever way it gave up. */
  lemma RefusedOwnsNothing(states: seq<State>, actions: seq<Action>, k: nat, p: Pid)
    requires IsRun(states, actions) && k < |states| && p in states[k].procs && states[k].procs[p].pc == Idle
    requires states[k].procs[p].refused || states[k].procs[p].mode == NoLock
    ensures states[k].procs[p].mode == NoLock && forall n :: n in states[k].owner ==> states[k].owner[n].pid != p
  {
    RunKeepsInv(states, actions, k);
  }

  /** The mutexes a process is about to wait for. */
  predicate WaitsFor(pr: Proc, n: Name) {
    match pr.pc
    case WaitWriter(_, _) => n == Writer
    case ProbeWait(i) => n == Reader(i)
    case SlotWait(i) => n == Reader(i)
    case WaitAll(_) => n in SlotNames(pr.rHandles)
    case _ => false
  }

  /** No mutex is ever acquired twice, and the wait on a slot just created finds it free. */
  lemma WaitsOnlyForOthers(states: seq<State>, actions: seq<Action>, k: nat, p: Pid, n: Name)
    requires IsRun(states, actions) && k < |states| && p in states[k].procs && WaitsFor(states[k].procs[p], n)
    ensures n in states[k].owner ==> states[k].owner[n].pid != p && !states[k].procs[p].pc.SlotWait?
  {
    RunKeepsInv(states, actions, k);
    OwnersHaveHandles(states[k]);
  }

  // ---------------------------------------------------------------- deadlock

  /** q owns a mutex that p waits for. */
  predicate WaitsOn(s: State, p: Pid, q: Pid, n: Name) {
    p in s.procs && WaitsFor(s.procs[p], n) && n in s.owner && s.owner[n].pid == q
  }

  /** p is blocked while it holds the writer mutex: it waits for a process that is not blocked. */
  lemma BlockedOnSlot(s: State, p: Pid) returns (q: Pid, n: Name)
    requires Inv(s) && Blocked(s, p) && s.procs[p].pc.WaitAll?
    ensures WaitsOn(s, p, q, n) && q in s.procs && q != p && !Blocked(s, q)
  {
    var i :| i in s.procs[p].rHandles && !Available(s.owner, Reader(i), p);
    n := Reader(i);
    q := s.owner[n].pid;
    assert MayOwn(s.procs[q], n);
  }

  /** Every blocked process waits, directly or through one other process, for one that is not. */
  lemma NoDeadlock(states: seq<State>, actions: seq<Action>, k: nat, p: Pid)
    returns (q: Pid, n: Name, r: Pid, m: Name)
    requires IsRun(states, actions) && k < |states| && Blocked(states[k], p)
    ensures var s := states[k];
            WaitsOn(s, p, q, n) && q in s.procs && q != p &&
            (!Blocked(s, q) || (WaitsOn(s, q, r, m) && r in s.procs && r != q && !Blocked(s, r)))
  {
    RunKeepsInv(states, actions, k);
    var s := states[k];
    r, m := p, Writer;
    if s.procs[p].pc.WaitAll? {
      q, n := BlockedOnSlot(s, p);
    } else {
      q, n := s.owner[Writer].pid, Writer;
      if Blocked(s, q) {
        r, m := BlockedOnSlot(s, q);
      }
    }
  }

  /** A process blocks only on the writer mutex while it owns nothing, or on reader mutexes while it
      owns the writer mutex and nothing else. */
  lemma BlocksInOrder(states: seq<State>, actions: seq<Action>, k: nat, p: Pid, n: Name)
    requires IsRun(states, actions) && k < |states| && Blocked(states[k], p)
    requires n in states[k].owner && states[k].owner[n].pid == p
    ensures n == Writer && states[k].procs[p].pc.WaitAll?
  {
    RunKeepsInv(states, actions, k);
  }

  // ---------------------------------------------------------------- every call ends

  function AfterRank(after: After): nat {
    match after
    case Relock(_, _) => 199
    case Destroy => 1
    case _ => 0
  }

  /** A bound on the steps a process still needs to finish its call. */
  function Rank(pr: Proc): nat {
    match pr.pc
    case Idle => 0
    case CloseWriter => 1
    case ReaderRelease(_) => 1
    case SlotDrop => 2
    case SlotWait(_) => 3
    case SlotCreate(_) => 4
    case ProbeOpen(i) => 5 + 3 * Above(i)
    case ProbeWait(i) => 4 + 3 * Above(i)
    case ProbeClose(i) => 3 + 3 * Above(i)
    case WaitWriter(_, _) => 198
    case OpenWriter(_, _) => 199
    case Enumerate(i, _) => 3 + 3 * Above(i) + 2 * |pr.rHandles|
    case WaitAll(_) => 2 + 2 * |pr.rHandles|
    case DropReader(after) => AfterRank(after) + 2
    case CloseReader(after) => AfterRank(after) + 1
    case DropSlots(after) => AfterRank(after) + 2 * |pr.rHandles| + 1
    case CloseSlot(after) => AfterRank(after) + 2 * |pr.rHandles|
    case DropWriter(after) => AfterRank(after) + 1
  }

  function Above(i: nat): nat {
    if i < MAX_READERS then MAX_READERS - i else 0
  }

  lemma UnlockShrinksRank(pr: Proc, owner: map<Name, Hold>, p: Pid, known: bool)
    requires Shape(pr) && (pr.pc.DropReader? || pr.pc.CloseReader? || pr.pc.DropSlots? || pr.pc.CloseSlot? || pr.pc.DropWriter?)
    ensures Rank(Step(pr, owner, p, known).pr) < Rank(pr)
  {
  }

  lemma ReaderShrinksRank(pr: Proc, owner: map<Name, Hold>, p: Pid, known: bool)
    requires Shape(pr)
    requires pr.pc.ProbeOpen? || pr.pc.ProbeWait? || pr.pc.ProbeClose? || pr.pc.SlotCreate? || pr.pc.SlotWait? || pr.pc.SlotDrop?
    ensures Rank(Step(pr, owner, p, known).pr) < Rank(pr)
  {
  }

  lemma RunShrinksRank(pr: Proc, owner: map<Name, Hold>, p: Pid, known: bool)
    requires Shape(pr) && Ready(Run(p), pr, owner) && !pr.pc.CloseWriter?
    ensures Rank(Step(pr, owner, p, known).pr) < Rank(pr)
  {
    if pr.pc.DropReader? || pr.pc.CloseReader? || pr.pc.DropSlots? || pr.pc.CloseSlot? || pr.pc.DropWriter? {
      UnlockShrinksRank(pr, owner, p, known);
    } else if !pr.pc.OpenWriter? && !pr.pc.WaitWriter? && !pr.pc.ReaderRelease? && !pr.pc.Enumerate? && !pr.pc.WaitAll? {
      ReaderShrinksRank(pr, owner, p, known);
    }
  }

  lemma StepsShrinkRank(a: Action, pr: Proc, owner: map<Name, Hold>, known: bool)
    requires Shape(pr) && Ready(a, pr, owner) && (a.Run? || a.RunAbandoned? || a.Fault?) && !pr.pc.CloseWriter?
    ensures Rank(Local(a, pr, owner, known).pr) < Rank(pr)
  {
    if a.Run? {
      RunShrinksRank(pr, owner, a.p, known);
    }
  }

  lemma {:induction false} AscendingLength(slots: seq<nat>, bound: nat)
    requires Ascending(slots, bound)
    ensures |slots| <= bound
  {
    if slots != [] {
      var last := |slots| - 1;
      AscendingLength(slots[..last], slots[last]);
    }
  }

  /** A call takes at most 328 kernel calls of its process, however the processes interleave. */
  lemma CallsAreShort(pr: Proc, mode: LockMode, block: bool)
    requires Shape(pr) && pr.pc == Idle
    ensures Rank(LockCall(pr, mode, block)) <= 328 && Rank(UnlockCall(pr, Return)) <= 129 && Rank(UnlockCall(pr, Destroy)) <= 130
  {
    if pr.mode == WriteLock {
      AscendingLength(pr.rHandles, MAX_READERS);
    }
  }

  // ---------------------------------------------------------------- the documented lock, atomically

  function Readers(s: State): set<Pid> {
    set p | p in s.procs && ReadHolder(s, p)
  }

  function Writers(s: State): set<Pid> {
    set p | p in s.procs && WriteHolder(s, p)
  }

  /** Seen through its holders, the step is one of the documented lock. */
  ghost predicate Atomic(s: State, t: State, p: Pid) {
    AtomicStep(Readers(s), Writers(s), Readers(t), Writers(t), p)
  }

  /** The two states differ in p at most. */
  ghost predicate OthersSame(s: State, t: State, p: Pid) {
    forall q :: q != p ==> (q in t.procs <==> q in s.procs) && (q in s.procs ==> t.procs[q] == s.procs[q])
  }

  lemma OthersUntouched(s: State, a: Action)
    requires Enabled(s, a)
    ensures OthersSame(s, Exec(s, a), a.p)
  {
  }

  /** A call moves a process from one lock mode to the other only through the unlocked state. */
  lemma HolderKeepsMode(s: State, a: Action)
    requires Inv(s) && Enabled(s, a) && !a.Start?
    ensures var t := Exec(s, a);
            !(ReadHolder(s, a.p) && WriteHolder(t, a.p)) && !(WriteHolder(s, a.p) && ReadHolder(t, a.p))
  {
  }

  ghost predicate Excludes(s: State) {
    forall q, r :: q != r && WriteHolder(s, q) ==> !WriteHolder(s, r) && !ReadHolder(s, r)
  }

  /** Two states that differ only in p, the second one respecting exclusion. */
  lemma OneProcessChanged(s: State, t: State, p: Pid)
    requires OthersSame(s, t, p)
    requires Excludes(t)
    requires !(ReadHolder(s, p) && WriteHolder(t, p)) && !(WriteHolder(s, p) && ReadHolder(t, p))
    ensures Atomic(s, t, p)
  {
    forall q | q != p
      ensures (q in Readers(t) <==> q in Readers(s)) && (q in Writers(t) <==> q in Writers(s))
    {
    }
    if WriteHolder(t, p) && !WriteHolder(s, p) {
      assert forall q :: q != p ==> q !in Readers(s) && q !in Writers(s);
    } else if ReadHolder(t, p) && !ReadHolder(s, p) {
      assert forall q :: q in Writers(s) ==> WriteHolder(t, q) && !ReadHolder(t, p);
    }
  }

  lemma WritersExclude(s: State)
    requires Inv(s)
    ensures Excludes(s)
  {
    forall q, r | q != r && WriteHolder(s, q)
      ensures !WriteHolder(s, r) && !ReadHolder(s, r)
    {
      Exclusion(s, q, r);
    }
  }

  lemma RefinesAtomicLock(s: State, a: Action)
    requires Inv(s) && Enabled(s, a)
    ensures Atomic(s, Exec(s, a), a.p)
  {
    StepKeepsInv(s, a);
    OthersUntouched(s, a);
    WritersExclude(Exec(s, a));
    if !a.Start? {
      HolderKeepsMode(s, a);
    }
    OneProcessChanged(s, Exec(s, a), a.p);
  }

  lemma EveryRunRefinesAtomicLock(states: seq<State>, actions: seq<Action>, k: nat)
    requires IsRun(states, actions) && k < |actions|
    ensures Atomic(states[k], states[k + 1], actions[k].p)
  {
    RunKeepsInv(states, actions, k);
    RefinesAtomicLock(states[k], actions[k]);
  }

  // ---------------------------------------------------------------- what a call returns

  /** Every other process is between calls. */
  ghost predicate OthersIdle(s: State, p: Pid) {
    p in s.procs && forall q :: q in s.procs && q != p ==> s.procs[q].pc == Idle
  }

  /** No other object holds the read lock through slot i. */
  ghost predicate SlotFree(s: State, p: Pid, i: nat) {
    forall q :: q != p && ReadHolder(s, q) ==> s.procs[q].rHandle != Some(i)
  }

  /** What the other objects hold: no write lock, no read lock, and which slots are free. */
  datatype Rest = Rest(noWriter: bool, noReader: bool, free: seq<bool>)

  ghost function RestOf(s: State, p: Pid): (rest: Rest)
    ensures |rest.free| == MAX_READERS
  {
    Rest(forall q :: q != p ==> !WriteHolder(s, q), forall q :: q != p ==> !ReadHolder(s, q),
         seq(MAX_READERS, (i: nat) => SlotFree(s, p, i)))
  }

  predicate FreeFrom(rest: Rest, i: nat) {
    i < |rest.free| && true in rest.free[i..]
  }

  /** A write lock can be had if nobody else holds the lock; a read lock if nobody else holds the
      write lock and fewer than MAX_READERS slots are in use. */
  predicate Grantable(rest: Rest, mode: LockMode) {
    rest.noWriter && if mode == ReadLock then true in rest.free else rest.noReader
  }

  /** What the call of pr will come to, when no other process moves. */
  predicate Outcome(pr: Proc, rest: Rest, mode: LockMode) {
    match pr.pc
    case Idle => pr.mode == mode
    case ProbeOpen(i) => mode == ReadLock && FreeFrom(rest, i)
    case ProbeWait(i) => mode == ReadLock && FreeFrom(rest, i)
    case ProbeClose(i) => mode == ReadLock && FreeFrom(rest, i + 1)
    case SlotCreate(_) => mode == ReadLock
    case SlotWait(_) => mode == ReadLock
    case SlotDrop => false
    case ReaderRelease(ok) => mode == ReadLock && ok
    case Enumerate(_, _) => mode == WriteLock && rest.noReader
    case WaitAll(_) => mode == WriteLock && rest.noReader
    case OpenWriter(m, _) => m == mode && Grantable(rest, mode)
    case WaitWriter(m, _) => m == mode && Grantable(rest, mode)
    case CloseWriter => false
    case _ => pr.pc.after.Relock? && pr.pc.after.mode == mode && Grantable(rest, mode)
  }

  /** What the next kernel call of p tells about the others. */
  ghost predicate Sees(pr: Proc, owner: map<Name, Hold>, p: Pid, known: bool, rest: Rest) {
    |rest.free| == MAX_READERS &&
    match pr.pc
    case ProbeOpen(i) => i < MAX_READERS ==> known == !rest.free[i]
    case ProbeWait(i) => i < MAX_READERS ==> Available(owner, Reader(i), p) == rest.free[i]
    case SlotWait(i) => Available(owner, Reader(i), p)
    case WaitWriter(_, _) => Available(owner, Writer, p) == rest.noWriter
    case WaitAll(_) => (forall i :: i in pr.rHandles ==> Available(owner, Reader(i), p)) == rest.noReader
    case _ => true
  }

  lemma OutcomeProbeStep(pr: Proc, owner: map<Name, Hold>, p: Pid, known: bool, rest: Rest, mode: LockMode)
    requires Shape(pr) && Sees(pr, owner, p, known, rest) && mode != NoLock && (pr.pc.ProbeOpen? || pr.pc.ProbeWait?)
    ensures Outcome(Step(pr, owner, p, known).pr, rest, mode) == Outcome(pr, rest, mode)
  {
  }

  lemma OutcomeSlotStep(pr: Proc, owner: map<Name, Hold>, p: Pid, known: bool, rest: Rest, mode: LockMode)
    requires Shape(pr) && Sees(pr, owner, p, known, rest) && mode != NoLock
    requires pr.pc.ProbeClose? || pr.pc.SlotCreate? || pr.pc.SlotWait? || pr.pc.SlotDrop? || pr.pc.ReaderRelease?
    ensures Outcome(Step(pr, owner, p, known).pr, rest, mode) == Outcome(pr, rest, mode)
  {
  }

  lemma OutcomeUnlockStep(pr: Proc, owner: map<Name, Hold>, p: Pid, known: bool, rest: Rest, mode: LockMode)
    requires Shape(pr) && mode != NoLock
    requires pr.pc.DropReader? || pr.pc.CloseReader? || pr.pc.DropSlots? || pr.pc.CloseSlot? || pr.pc.DropWriter?
    ensures Outcome(Step(pr, owner, p, known).pr, rest, mode) == Outcome(pr, rest, mode)
  {
  }

  lemma OutcomeWriterStep(pr: Proc, owner: map<Name, Hold>, p: Pid, known: bool, rest: Rest, mode: LockMode)
    requires Shape(pr) && Ready(Run(p), pr, owner) && Sees(pr, owner, p, known, rest) && mode != NoLock
    requires pr.pc.OpenWriter? || pr.pc.WaitWriter? || pr.pc.Enumerate? || pr.pc.WaitAll?
    ensures Outcome(Step(pr, owner, p, known).pr, rest, mode) == Outcome(pr, rest, mode)
  {
    assert rest.free[0..] == rest.free;
  }

  lemma OutcomeStep(pr: Proc, owner: map<Name, Hold>, p: Pid, known: bool, rest: Rest, mode: LockMode)
    requires Shape(pr) && Ready(Run(p), pr, owner) && Sees(pr, owner, p, known, rest) && mode != NoLock && !pr.pc.CloseWriter?
    ensures Outcome(Step(pr, owner, p, known).pr, rest, mode) == Outcome(pr, rest, mode)
  {
    var pc := pr.pc;
    if pc.OpenWriter? || pc.WaitWriter? || pc.Enumerate? || pc.WaitAll? {
      OutcomeWriterStep(pr, owner, p, known, rest, mode);
    } else if pc.DropReader? || pc.CloseReader? || pc.DropSlots? || pc.CloseSlot? || pc.DropWriter? {
      OutcomeUnlockStep(pr, owner, p, known, rest, mode);
    } else if pc.ProbeOpen? || pc.ProbeWait? {
      OutcomeProbeStep(pr, owner, p, known, rest, mode);
    } else {
      OutcomeSlotStep(pr, owner, p, known, rest, mode);
    }
  }

  lemma StuckOutcome(pr: Proc, owner: map<Name, Hold>, p: Pid, known: bool, rest: Rest, mode: LockMode)
    requires Sees(pr, owner, p, known, rest) && (pr.pc == Idle || pr.pc == CloseWriter || Waiting(pr, owner, p))
    ensures Outcome(pr, rest, mode) <==> pr.pc == Idle && pr.mode == mode
  {
  }

  lemma LockCallOutcome(pr: Proc, rest: Rest, mode: LockMode, block: bool)
    requires Shape(pr) && pr.pc == Idle && mode != NoLock && pr.mode != mode
    ensures Outcome(LockCall(pr, mode, block), rest, mode) == Grantable(rest, mode)
  {
  }

  lemma OwesWriter(s: State, p: Pid)
    requires Inv(s) && Owes(s, p, Writer)
    ensures forall q :: q != p ==> !WriteHolder(s, q)
  {
    forall q | q != p
      ensures !WriteHolder(s, q)
    {
      assert WriteHolder(s, q) ==> Owes(s, q, Writer);
    }
  }

  /** Between calls, the only slot an object has to do with is the one it holds. */
  lemma IdleSlot(pr: Proc, i: nat)
    requires Shape(pr) && pr.pc == Idle && pr.mode != WriteLock
    ensures HasHandle(pr, Reader(i)) <==> pr.mode == ReadLock && pr.rHandle == Some(i)
    ensures MayOwn(pr, Reader(i)) <==> pr.mode == ReadLock && pr.rHandle == Some(i)
    ensures MustOwn(pr, Reader(i)) == MayOwn(pr, Reader(i)) && !MayOwn(pr, Writer)
  {
  }

  /** With the others idle, a slot exists exactly while a read holder has it. */
  lemma KnownSlots(s: State, p: Pid, i: nat)
    requires Inv(s) && OthersIdle(s, p) && Owes(s, p, Writer) && !HasHandle(s.procs[p], Reader(i))
    ensures Exists(s.procs, Reader(i)) <==> !SlotFree(s, p, i)
  {
    OwesWriter(s, p);
    forall q | q in s.procs && q != p
      ensures HasHandle(s.procs[q], Reader(i)) <==> ReadHolder(s, q) && s.procs[q].rHandle == Some(i)
    {
      assert !WriteHolder(s, q);
      IdleSlot(s.procs[q], i);
    }
  }

  lemma SlotOwned(s: State, p: Pid, i: nat)
    requires Inv(s) && OthersIdle(s, p) && Owes(s, p, Writer) && !MayOwn(s.procs[p], Reader(i))
    ensures Available(s.owner, Reader(i), p) <==> SlotFree(s, p, i)
  {
    OwesWriter(s, p);
    if !SlotFree(s, p, i) {
      var q :| q != p && ReadHolder(s, q) && s.procs[q].rHandle == Some(i);
      IdleSlot(s.procs[q], i);
      assert Owes(s, q, Reader(i));
    }
    if !Available(s.owner, Reader(i), p) {
      var q := s.owner[Reader(i)].pid;
      assert q in s.procs && q != p && s.procs[q].pc == Idle;
      assert !WriteHolder(s, q);
      IdleSlot(s.procs[q], i);
      assert ReadHolder(s, q);
    }
  }

  /** The writer has listed the slot of every read holder. */
  lemma ListedSlots(s: State, p: Pid)
    requires Inv(s) && OthersIdle(s, p) && s.procs[p].pc.WaitAll?
    ensures (forall i :: i in s.procs[p].rHandles ==> Available(s.owner, Reader(i), p)) <==> (forall q :: q != p ==> !ReadHolder(s, q))
  {
    assert Owes(s, p, Writer);
    forall q | q != p && ReadHolder(s, q)
      ensures exists i :: i in s.procs[p].rHandles && !Available(s.owner, Reader(i), p)
    {
      var i := s.procs[q].rHandle.value;
      assert HasHandle(s.procs[q], Reader(i)) && Owes(s, q, Reader(i));
      assert i in s.procs[p].rHandles;
    }
    if forall q :: q != p ==> !ReadHolder(s, q) {
      forall i | i in s.procs[p].rHandles
        ensures Available(s.owner, Reader(i), p)
      {
        SlotOwned(s, p, i);
      }
    }
  }

  lemma WriterFree(s: State, p: Pid)
    requires Inv(s) && OthersIdle(s, p)
    ensures Available(s.owner, Writer, p) <==> forall q :: q != p ==> !WriteHolder(s, q)
  {
    forall q | q != p && WriteHolder(s, q)
      ensures !Available(s.owner, Writer, p)
    {
      assert Owes(s, q, Writer);
    }
    if !Available(s.owner, Writer, p) {
      var q := s.owner[Writer].pid;
      assert MayOwn(s.procs[q], Writer);
      if s.procs[q].mode != WriteLock {
        IdleSlot(s.procs[q], 0);
      }
      assert WriteHolder(s, q);
    }
  }

  /** Inside the writer section, probing tells which slots are free. */
  lemma ProbeSees(s: State, p: Pid)
    requires Inv(s) && OthersIdle(s, p) && (s.procs[p].pc.ProbeOpen? || s.procs[p].pc.ProbeWait? || s.procs[p].pc.SlotWait?)
    ensures Sees(s.procs[p], s.owner, p, Exists(s.procs, Reader(Slot(s.procs[p]))), RestOf(s, p))
  {
    assert Owes(s, p, Writer);
    match s.procs[p].pc
    case ProbeOpen(i) => KnownSlots(s, p, i);
    case ProbeWait(i) => SlotOwned(s, p, i);
    case SlotWait(i) =>
      assert HasHandle(s.procs[p], Reader(i));
      OwnersHaveHandles(s);
    case _ =>
  }

  lemma SeesRest(s: State, p: Pid)
    requires Inv(s) && OthersIdle(s, p)
    ensures Sees(s.procs[p], s.owner, p, Exists(s.procs, Reader(Slot(s.procs[p]))), RestOf(s, p))
  {
    var pc := s.procs[p].pc;
    if pc.ProbeOpen? || pc.ProbeWait? || pc.SlotWait? {
      ProbeSees(s, p);
    } else if pc.WaitWriter? {
      WriterFree(s, p);
    } else if pc.WaitAll? {
      ListedSlots(s, p);
    }
  }

  lemma SameRest(s: State, t: State, p: Pid)
    requires OthersSame(s, t, p)
    ensures RestOf(t, p) == RestOf(s, p)
  {
    assert forall q :: q != p ==> ReadHolder(s, q) == ReadHolder(t, q) && WriteHolder(s, q) == WriteHolder(t, q);
    assert forall i: nat :: SlotFree(s, p, i) == SlotFree(t, p, i);
  }

  /** p has finished its call or is blocked. */
  predicate Stuck(s: State, p: Pid) {
    p in s.procs && (s.procs[p].pc == Idle || s.procs[p].pc == CloseWriter || Blocked(s, p))
  }

  /** The state in which p, left to itself, has finished its call or is blocked. */
  ghost function Alone(s: State, p: Pid): State
    requires Inv(s) && p in s.procs
    decreases Rank(s.procs[p])
  {
    var pr := s.procs[p];
    if Stuck(s, p) then s
    else
      StepKeepsInv(s, Run(p));
      StepsShrinkRank(Run(p), pr, s.owner, Exists(s.procs, Reader(Slot(pr))));
      Alone(Exec(s, Run(p)), p)
  }

  lemma NextStepOutcome(s: State, p: Pid, mode: LockMode)
    requires Inv(s) && OthersIdle(s, p) && mode != NoLock && !Stuck(s, p)
    ensures var t := Exec(s, Run(p));
            Inv(t) && OthersIdle(t, p) && RestOf(t, p) == RestOf(s, p) && Rank(t.procs[p]) < Rank(s.procs[p]) &&
            Outcome(t.procs[p], RestOf(s, p), mode) == Outcome(s.procs[p], RestOf(s, p), mode)
  {
    var pr := s.procs[p];
    var known := Exists(s.procs, Reader(Slot(pr)));
    StepKeepsInv(s, Run(p));
    StepsShrinkRank(Run(p), pr, s.owner, known);
    SeesRest(s, p);
    OutcomeStep(pr, s.owner, p, known, RestOf(s, p), mode);
    OthersUntouched(s, Run(p));
    SameRest(s, Exec(s, Run(p)), p);
  }

  lemma {:induction false} AloneOutcome(s: State, p: Pid, mode: LockMode)
    requires Inv(s) && OthersIdle(s, p) && mode != NoLock
    ensures var t := Alone(s, p);
            p in t.procs && Outcome(t.procs[p], RestOf(s, p), mode) == Outcome(s.procs[p], RestOf(s, p), mode) &&
            RestOf(t, p) == RestOf(s, p) && OthersIdle(t, p) && Inv(t) && Stuck(t, p)
    decreases Rank(s.procs[p])
  {
    if !Stuck(s, p) {
      NextStepOutcome(s, p, mode);
      AloneOutcome(Exec(s, Run(p)), p, mode);
    }
  }

  /** While the other processes are between calls, lock(mode, block) ends up holding the lock in the
      mode asked for exactly when the documented rules allow it; it must wait, or refuse, otherwise. */
  lemma LockReturns(s: State, p: Pid, mode: LockMode, block: bool)
    requires Inv(s) && OthersIdle(s, p) && s.procs[p].pc == Idle && mode != NoLock && s.procs[p].mode != mode
    ensures Inv(Exec(s, CallLock(p, mode, block)))
    ensures Holds(Alone(Exec(s, CallLock(p, mode, block)), p), p, mode) <==> Grantable(RestOf(s, p), mode)
  {
    var s0 := Exec(s, CallLock(p, mode, block));
    StepKeepsInv(s, CallLock(p, mode, block));
    OthersUntouched(s, CallLock(p, mode, block));
    SameRest(s, s0, p);
    LockCallOutcome(s.procs[p], RestOf(s, p), mode, block);
    AloneOutcome(s0, p, mode);
    var t := Alone(s0, p);
    SeesRest(t, p);
    StuckOutcome(t.procs[p], t.owner, p, Exists(t.procs, Reader(Slot(t.procs[p]))), RestOf(t, p), mode);
  }

  predicate Holds(s: State, p: Pid, mode: LockMode) {
    p in s.procs && s.procs[p].pc == Idle && s.procs[p].mode == mode
  }
}
