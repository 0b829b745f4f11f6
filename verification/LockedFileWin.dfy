/** The Windows reader/writer file lock: one writer mutex and up to MAX_READERS numbered reader
    mutexes, used by any number of processes at once.

    The model is an interleaved step system with one step per kernel call.  Each process has one
    thread and one QtLockedFile instance for the file.  A named mutex exists exactly while some
    process has a handle to it open. */
module LockedFileWin {

  import opened Common
  import opened LockedFile

  const MAX_READERS: nat := 64  // MAXIMUM_WAIT_OBJECTS

  datatype Name = Writer | Reader(idx: nat)

  /** What follows an unlock(): its own return, the rest of a lock() that changes mode, the `false`
      of a lock() that gave up, or the rest of the destructor. */
  datatype After = Return | Relock(mode: LockMode, block: bool) | Refuse | Destroy

  datatype Pc =
    | Idle
    | OpenWriter(mode: LockMode, block: bool)
    | WaitWriter(mode: LockMode, block: bool)
    | ProbeOpen(idx: nat)
    | ProbeWait(idx: nat)
    | ProbeClose(idx: nat)
    | SlotCreate(idx: nat)
    | SlotWait(idx: nat)
    | SlotDrop
    | ReaderRelease(ok: bool)
    | Enumerate(idx: nat, block: bool)
    | WaitAll(block: bool)
    | DropReader(after: After)
    | CloseReader(after: After)
    | DropSlots(after: After)
    | CloseSlot(after: After)
    | DropWriter(after: After)
    | CloseWriter

  /** One QtLockedFile object: m_lock_mode, wmutex, rmutex and rmutexes, plus the program counter
      and whether the last lock() returned false. */
  datatype Proc = Proc(mode: LockMode, wHandle: bool, rHandle: Option<nat>, rHandles: seq<nat>, pc: Pc, refused: bool)

  /** A mutex that is owned, with its recursion count. */
  datatype Hold = Hold(pid: Pid, count: nat)

  datatype State = State(procs: map<Pid, Proc>, owner: map<Name, Hold>)

  const Init := State(map[], map[])
  const NewProc := Proc(NoLock, false, None, [], Idle, false)

  // ---------------------------------------------------------------- kernel calls

  predicate HasHandle(pr: Proc, n: Name) {
    match n
    case Writer => pr.wHandle
    case Reader(i) => pr.rHandle == Some(i) || i in pr.rHandles
  }

  ghost predicate Exists(procs: map<Pid, Proc>, n: Name) {
    exists p :: p in procs && HasHandle(procs[p], n)
  }

  /** A wait by p on n would be satisfied at once: a mutex may be acquired again by its owner. */
  predicate Available(owner: map<Name, Hold>, n: Name, p: Pid) {
    n in owner ==> owner[n].pid == p
  }

  function Acquire(owner: map<Name, Hold>, ns: set<Name>, p: Pid): map<Name, Hold> {
    owner + map n | n in ns :: Hold(p, if n in owner then owner[n].count + 1 else 1)
  }

  function Release(owner: map<Name, Hold>, n: Name, p: Pid): map<Name, Hold> {
    if n !in owner || owner[n].pid != p then owner
    else if owner[n].count > 1 then owner[n := Hold(p, owner[n].count - 1)]
    else owner - {n}
  }

  /** Mutexes whose last handle was just closed cease to exist. */
  ghost function Sweep(procs: map<Pid, Proc>, owner: map<Name, Hold>): map<Name, Hold> {
    map n | n in owner && Exists(procs, n) :: owner[n]
  }

  function SlotNames(slots: seq<nat>): set<Name> {
    set i | i in slots :: Reader(i)
  }

  // ---------------------------------------------------------------- steps of lock() and unlock()

  /** Where unlock() starts, for an object that is locked. */
  function UnlockPc(pr: Proc, after: After): Pc {
    if pr.mode == ReadLock then DropReader(after)
    else if pr.rHandles == [] then DropWriter(after)
    else DropSlots(after)
  }

  function Finish(pr: Proc, after: After): Proc {
    match after
    case Return => pr.(pc := Idle)
    case Relock(m, b) => pr.(pc := OpenWriter(m, b))
    case Refuse => pr.(pc := Idle, refused := true)
    case Destroy => pr.(pc := CloseWriter)
  }

  datatype Action =
    | Start(p: Pid)
    | CallLock(p: Pid, mode: LockMode, block: bool)
    | CallUnlock(p: Pid)
    | CallDestroy(p: Pid)
    | Run(p: Pid)           // the next kernel call of p
    | RunAbandoned(p: Pid)  // WaitForMultipleObjects acquires, but reports WAIT_ABANDONED_0 + k with k > 0
    | Fault(p: Pid)         // CreateMutex, WaitForSingleObject or WaitForMultipleObjects fails
    | Crash(p: Pid)

  /** The kernel call p is about to make cannot return yet. */
  predicate Waiting(pr: Proc, owner: map<Name, Hold>, p: Pid) {
    match pr.pc
    case WaitWriter(_, block) => block && !Available(owner, Writer, p)
    case WaitAll(block) => block && exists i :: i in pr.rHandles && !Available(owner, Reader(i), p)
    case _ => false
  }

  predicate Blocked(s: State, p: Pid) {
    p in s.procs && Waiting(s.procs[p], s.owner, p)
  }

  predicate Ready(a: Action, pr: Proc, owner: map<Name, Hold>) {
    match a
    case Start(_) => false
    case CallLock(_, _, _) => pr.pc == Idle
    case CallUnlock(_) => pr.pc == Idle
    case CallDestroy(_) => pr.pc == Idle
    case Run(p) => pr.pc != Idle && !Waiting(pr, owner, p)
    case RunAbandoned(p) => pr.pc.WaitAll? && pr.rHandles != [] && forall i :: i in pr.rHandles ==> Available(owner, Reader(i), p)
    case Fault(_) =>
      (pr.pc.OpenWriter? && !pr.wHandle) || pr.pc.WaitWriter? || pr.pc.ProbeWait? || pr.pc.SlotCreate? || pr.pc.SlotWait? ||
      (pr.pc.WaitAll? && pr.rHandles != [])
    case Crash(_) => true
  }

  predicate Enabled(s: State, a: Action) {
    if a.Start? then a.p !in s.procs else a.p in s.procs && Ready(a, s.procs[a.p], s.owner)
  }

  /** What an action makes of its process and of the ownership of mutexes. */
  datatype Moved = Moved(pr: Proc, owner: map<Name, Hold>)

  function LockCall(pr: Proc, mode: LockMode, block: bool): Proc {
    var q := pr.(refused := false);
    if mode == NoLock then UnlockCall(q, Return)
    else if mode == pr.mode then q
    else if pr.mode != NoLock then q.(pc := UnlockPc(q, Relock(mode, block)))
    else q.(pc := OpenWriter(mode, block))
  }

  function UnlockCall(pr: Proc, after: After): Proc {
    var q := pr.(refused := false);
    if pr.mode == NoLock then Finish(q, after) else q.(pc := UnlockPc(q, after))
  }

  /** The clean-up path of a refused write lock: pretend to hold it, then unlock(). */
  function GiveUp(pr: Proc): Proc {
    var q := pr.(mode := WriteLock);
    q.(pc := UnlockPc(q, Refuse))
  }

  /** The next kernel call of p; `known` says whether the slot it looks up exists. */
  function Step(pr: Proc, owner: map<Name, Hold>, p: Pid, known: bool): Moved {
    match pr.pc
    case Idle => Moved(pr, owner)
    case CloseWriter => Moved(pr, owner)
    case OpenWriter(m, b) => Moved(pr.(wHandle := true, pc := WaitWriter(m, b)), owner)
    case WaitWriter(m, b) =>
      if Available(owner, Writer, p) then
        Moved(pr.(pc := if m == ReadLock then ProbeOpen(0) else Enumerate(0, b)), Acquire(owner, {Writer}, p))
      else Moved(pr.(pc := Idle, refused := true), owner)
    case ProbeOpen(i) =>
      if i >= MAX_READERS then Moved(pr.(pc := ReaderRelease(false)), owner)
      else if known then Moved(pr.(rHandle := Some(i), pc := ProbeWait(i)), owner)
      else Moved(pr.(pc := SlotCreate(i)), owner)
    case ProbeWait(i) =>
      if Available(owner, Reader(i), p) then Moved(pr.(pc := ReaderRelease(true)), Acquire(owner, {Reader(i)}, p))
      else Moved(pr.(pc := ProbeClose(i)), owner)
    case ProbeClose(i) => Moved(pr.(rHandle := None, pc := ProbeOpen(i + 1)), owner)
    case SlotCreate(i) => Moved(pr.(rHandle := Some(i), pc := SlotWait(i)), owner)
    case SlotWait(i) =>
      if Available(owner, Reader(i), p) then Moved(pr.(pc := ReaderRelease(true)), Acquire(owner, {Reader(i)}, p))
      else Moved(pr.(pc := SlotDrop), owner)
    case SlotDrop => Moved(pr.(rHandle := None, pc := ReaderRelease(false)), owner)
    case ReaderRelease(ok) =>
      Moved(pr.(pc := Idle, mode := if ok then ReadLock else pr.mode, refused := !ok), Release(owner, Writer, p))
    case Enumerate(i, b) =>
      if i >= MAX_READERS then Moved(pr.(pc := WaitAll(b)), owner)
      else Moved(pr.(pc := Enumerate(i + 1, b), rHandles := if known then pr.rHandles + [i] else pr.rHandles), owner)
    case WaitAll(b) =>
      if forall i :: i in pr.rHandles ==> Available(owner, Reader(i), p) then
        Moved(pr.(pc := Idle, mode := WriteLock), Acquire(owner, SlotNames(pr.rHandles), p))
      else Moved(GiveUp(pr), owner)
    case DropReader(after) =>
      Moved(pr.(pc := CloseReader(after)), if pr.rHandle.Some? then Release(owner, Reader(pr.rHandle.value), p) else owner)
    case CloseReader(after) => Moved(Finish(pr.(rHandle := None, mode := NoLock), after), owner)
    case DropSlots(after) =>
      Moved(pr.(pc := CloseSlot(after)), if pr.rHandles != [] then Release(owner, Reader(pr.rHandles[0]), p) else owner)
    case CloseSlot(after) =>
      var rest := if pr.rHandles != [] then pr.rHandles[1..] else [];
      Moved(pr.(rHandles := rest, pc := if rest == [] then DropWriter(after) else DropSlots(after)), owner)
    case DropWriter(after) => Moved(Finish(pr.(mode := NoLock), after), Release(owner, Writer, p))
  }

  function FaultStep(pr: Proc): Proc {
    match pr.pc
    case ProbeWait(i) => pr.(pc := ProbeClose(i))
    case SlotCreate(i) => pr.(pc := ReaderRelease(false))
    case SlotWait(i) => pr.(pc := SlotDrop)
    case WaitAll(_) => GiveUp(pr)
    case _ => pr.(pc := Idle, refused := true)
  }

  function Local(a: Action, pr: Proc, owner: map<Name, Hold>, known: bool): Moved {
    match a
    case Start(_) => Moved(pr, owner)
    case CallLock(_, mode, block) => Moved(LockCall(pr, mode, block), owner)
    case CallUnlock(_) => Moved(UnlockCall(pr, Return), owner)
    case CallDestroy(_) => Moved(UnlockCall(pr, Destroy), owner)
    case Run(p) => Step(pr, owner, p, known)
    case RunAbandoned(p) => Moved(GiveUp(pr), Acquire(owner, SlotNames(pr.rHandles), p))
    case Fault(_) => Moved(FaultStep(pr), owner)
    case Crash(_) => Moved(pr, owner)
  }

  /** The slot that OpenMutex is about to look up. */
  function Slot(pr: Proc): nat {
    if pr.pc.ProbeOpen? || pr.pc.Enumerate? then pr.pc.idx else 0
  }

  /** p is gone: its handles are closed and the mutexes it owned are abandoned. */
  ghost function Vanish(s: State, p: Pid): State {
    var procs := s.procs - {p};
    State(procs, Sweep(procs, map n | n in s.owner && s.owner[n].pid != p :: s.owner[n]))
  }

  ghost predicate Leaves(s: State, a: Action) {
    a.Crash? || (a.Run? && a.p in s.procs && s.procs[a.p].pc.CloseWriter?)
  }

  ghost function Exec(s: State, a: Action): State
    requires Enabled(s, a)
  {
    if a.Start? then s.(procs := s.procs[a.p := NewProc])
    else if Leaves(s, a) then Vanish(s, a.p)
    else
      var pr := s.procs[a.p];
      var m := Local(a, pr, s.owner, Exists(s.procs, Reader(Slot(pr))));
      var procs := s.procs[a.p := m.pr];
      State(procs, Sweep(procs, m.owner))
  }

  /** The run that takes the actions from the empty system, with all its states. */
  ghost predicate IsRun(states: seq<State>, actions: seq<Action>) {
    |states| == |actions| + 1 && states[0] == Init &&
    forall k :: 0 <= k < |actions| ==> Enabled(states[k], actions[k]) && states[k + 1] == Exec(states[k], actions[k])
  }

  // ---------------------------------------------------------------- the invariant

  predicate Ascending(slots: seq<nat>, bound: nat) {
    (forall i :: 0 <= i < |slots| ==> slots[i] < bound) &&
    forall i, j :: 0 <= i < j < |slots| ==> slots[i] < slots[j]
  }

  predicate AfterOk(after: After) {
    after.Relock? ==> after.mode != NoLock
  }

  /** Which handles the object has open at each program point. */
  predicate Shape(pr: Proc) {
    var none := pr.rHandle == None && pr.rHandles == [];
    var slot := pr.rHandle.Some? && pr.rHandle.value < MAX_READERS && pr.rHandles == [];
    var unlocked := pr.mode == NoLock && !pr.refused;
    match pr.pc
    case Idle =>
      (pr.mode == NoLock ==> none) &&
      (pr.mode == ReadLock ==> slot && !pr.refused) &&
      (pr.mode == WriteLock ==> pr.rHandle == None && pr.wHandle && Ascending(pr.rHandles, MAX_READERS) && !pr.refused)
    case OpenWriter(m, _) => unlocked && none && m != NoLock
    case WaitWriter(m, _) => unlocked && none && m != NoLock && pr.wHandle
    case ProbeOpen(i) => unlocked && none && pr.wHandle && i <= MAX_READERS
    case ProbeWait(i) => unlocked && slot && pr.wHandle && pr.rHandle == Some(i)
    case ProbeClose(i) => unlocked && slot && pr.wHandle && pr.rHandle == Some(i)
    case SlotCreate(i) => unlocked && none && pr.wHandle && i < MAX_READERS
    case SlotWait(i) => unlocked && slot && pr.wHandle && pr.rHandle == Some(i)
    case SlotDrop => unlocked && slot && pr.wHandle
    case ReaderRelease(ok) => unlocked && pr.wHandle && if ok then slot else none
    case Enumerate(i, _) => unlocked && pr.rHandle == None && pr.wHandle && i <= MAX_READERS && Ascending(pr.rHandles, i)
    case WaitAll(_) => unlocked && pr.rHandle == None && pr.wHandle && Ascending(pr.rHandles, MAX_READERS)
    case DropReader(after) => pr.mode == ReadLock && !pr.refused && slot && AfterOk(after)
    case CloseReader(after) => pr.mode == ReadLock && !pr.refused && slot && AfterOk(after)
    case DropSlots(after) =>
      pr.mode == WriteLock && !pr.refused && pr.rHandle == None && pr.rHandles != [] && pr.wHandle &&
      Ascending(pr.rHandles, MAX_READERS) && AfterOk(after)
    case CloseSlot(after) =>
      pr.mode == WriteLock && !pr.refused && pr.rHandle == None && pr.rHandles != [] && pr.wHandle &&
      Ascending(pr.rHandles, MAX_READERS) && AfterOk(after)
    case DropWriter(after) => pr.mode == WriteLock && !pr.refused && none && pr.wHandle && AfterOk(after)
    case CloseWriter => unlocked && none
  }

  /** The mutexes the object may own at each program point. */
  predicate MayOwn(pr: Proc, n: Name) {
    match pr.pc
    case Idle => if pr.mode == NoLock then false else if pr.mode == ReadLock then OwnSlot(pr, n) else n == Writer || n in SlotNames(pr.rHandles)
    case OpenWriter(_, _) => false
    case WaitWriter(_, _) => false
    case CloseWriter => false
    case CloseReader(_) => false
    case ReaderRelease(ok) => n == Writer || (ok && OwnSlot(pr, n))
    case DropReader(_) => OwnSlot(pr, n)
    case DropSlots(_) => n == Writer || n in SlotNames(pr.rHandles)
    case CloseSlot(_) => n == Writer || (pr.rHandles != [] && n in SlotNames(pr.rHandles[1..]))
    case _ => n == Writer
  }

  predicate OwnSlot(pr: Proc, n: Name) {
    pr.rHandle.Some? && n == Reader(pr.rHandle.value)
  }

  /** The mutexes it does own: the same ones, except that a refused write lock may be cleaning up
      after a wait that acquired none of the slots. */
  predicate MustOwn(pr: Proc, n: Name) {
    MayOwn(pr, n) && ((pr.pc.DropSlots? || pr.pc.CloseSlot?) && pr.pc.after == Refuse ==> n == Writer)
  }

  /** A writer has listed every slot below this one. */
  function Scanned(pr: Proc): nat {
    match pr.pc
    case Enumerate(i, _) => i
    case WaitAll(_) => MAX_READERS
    case Idle => if pr.mode == WriteLock then MAX_READERS else 0
    case _ => 0
  }

  predicate Owes(s: State, p: Pid, n: Name) {
    p in s.procs && MustOwn(s.procs[p], n)
  }

  ghost predicate Ownership(s: State) {
    && (forall n :: n in s.owner ==> s.owner[n].pid in s.procs && s.owner[n].count == 1 && MayOwn(s.procs[s.owner[n].pid], n))
    && (forall p, n :: Owes(s, p, n) ==> n in s.owner && s.owner[n].pid == p)
  }

  /** The slots a writer has passed by are listed, or have no handle anywhere else. */
  ghost predicate Listed(s: State) {
    forall p, q, i: nat :: p in s.procs && q in s.procs && p != q && i < Scanned(s.procs[p]) && HasHandle(s.procs[q], Reader(i)) ==>
      i in s.procs[p].rHandles
  }

  /** A slot about to be created, or just created, is known to nobody else. */
  ghost predicate NewSlots(s: State) {
    forall p, q :: p in s.procs && q in s.procs && p != q && (s.procs[p].pc.SlotCreate? || s.procs[p].pc.SlotWait?) ==>
      !HasHandle(s.procs[q], Reader(s.procs[p].pc.idx))
  }

  ghost predicate Inv(s: State) {
    && (forall p :: p in s.procs ==> Shape(s.procs[p]))
    && Ownership(s)
    && Listed(s)
    && NewSlots(s)
  }

  lemma MayOwnHasHandle(pr: Proc, n: Name)
    requires Shape(pr) && MayOwn(pr, n)
    ensures HasHandle(pr, n)
  {
  }

  /** Closing a handle never destroys an owned mutex. */
  lemma SweepNothing(procs: map<Pid, Proc>, owner: map<Name, Hold>)
    requires forall n :: n in owner ==> owner[n].pid in procs && HasHandle(procs[owner[n].pid], n)
    ensures Sweep(procs, owner) == owner
  {
  }

  /** The mutexes p owns are those its program point says. */
  ghost predicate Matches(owner: map<Name, Hold>, p: Pid, pr: Proc) {
    && (forall n :: n in owner && owner[n].pid == p ==> owner[n].count == 1 && MayOwn(pr, n))
    && (forall n :: MustOwn(pr, n) ==> n in owner && owner[n].pid == p)
  }

  ghost predicate OthersKept(owner: map<Name, Hold>, owner': map<Name, Hold>, p: Pid) {
    forall n :: (n in owner && owner[n].pid != p) || (n in owner' && owner'[n].pid != p) ==>
      n in owner && n in owner' && owner[n] == owner'[n]
  }

  /** What a step of p must respect so that the invariant survives: it leaves the mutexes of others
      alone, owns what its new program point says, and opens slots only inside the writer section. */
  ghost predicate OpensInside(s: State, p: Pid, pr: Proc) {
    forall i: nat :: HasHandle(pr, Reader(i)) && !(p in s.procs && HasHandle(s.procs[p], Reader(i))) ==> Owes(s, p, Writer)
  }

  ghost predicate ScansKnown(s: State, p: Pid, pr: Proc) {
    && (forall q, i: nat :: q in s.procs && q != p && i < Scanned(pr) && HasHandle(s.procs[q], Reader(i)) ==> i in pr.rHandles)
    && (pr.pc.SlotCreate? || pr.pc.SlotWait? ==> forall q :: q in s.procs && q != p ==> !HasHandle(s.procs[q], Reader(pr.pc.idx)))
  }

  ghost predicate LocalStep(s: State, p: Pid, pr: Proc, owner: map<Name, Hold>) {
    && Shape(pr)
    && Matches(owner, p, pr)
    && OthersKept(s.owner, owner, p)
    && OpensInside(s, p, pr)
    && ScansKnown(s, p, pr)
  }

  /** Whoever has passed slots by, or is about to create one, is inside the writer section. */
  lemma ScannerOwnsWriter(pr: Proc)
    requires Scanned(pr) > 0 || pr.pc.SlotCreate? || pr.pc.SlotWait?
    ensures MustOwn(pr, Writer)
  {
  }

  lemma OneWriterSection(s: State, p: Pid, q: Pid)
    requires Ownership(s) && Owes(s, p, Writer) && Owes(s, q, Writer)
    ensures p == q
  {
  }

  lemma LocalStepKeepsOwnership(s: State, p: Pid, pr: Proc, owner: map<Name, Hold>)
    requires Ownership(s) && Matches(owner, p, pr) && OthersKept(s.owner, owner, p)
    ensures Ownership(State(s.procs[p := pr], owner))
  {
    var t := State(s.procs[p := pr], owner);
    forall n | n in owner
      ensures owner[n].pid in t.procs && owner[n].count == 1 && MayOwn(t.procs[owner[n].pid], n)
    {
    }
    forall q, n | Owes(t, q, n)
      ensures n in t.owner && t.owner[n].pid == q
    {
      assert q != p ==> Owes(s, q, n);
    }
  }

  lemma LocalStepKeepsListed(s: State, p: Pid, pr: Proc, a: Pid, b: Pid, i: nat)
    requires Ownership(s) && Listed(s) && OpensInside(s, p, pr) && ScansKnown(s, p, pr)
    requires var procs := s.procs[p := pr]; a in procs && b in procs && a != b && i < Scanned(procs[a]) && HasHandle(procs[b], Reader(i))
    ensures i in s.procs[p := pr][a].rHandles
  {
    if b == p && !(p in s.procs && HasHandle(s.procs[p], Reader(i))) {
      ScannerOwnsWriter(s.procs[a]);
      OneWriterSection(s, a, p);
    }
  }

  lemma LocalStepKeepsNewSlots(s: State, p: Pid, pr: Proc, a: Pid, b: Pid)
    requires Ownership(s) && NewSlots(s) && OpensInside(s, p, pr) && ScansKnown(s, p, pr)
    requires var procs := s.procs[p := pr]; a in procs && b in procs && a != b && (procs[a].pc.SlotCreate? || procs[a].pc.SlotWait?)
    ensures var procs := s.procs[p := pr]; !HasHandle(procs[b], Reader(procs[a].pc.idx))
  {
    var i := s.procs[p := pr][a].pc.idx;
    if b == p && HasHandle(pr, Reader(i)) && !(p in s.procs && HasHandle(s.procs[p], Reader(i))) {
      ScannerOwnsWriter(s.procs[a]);
      OneWriterSection(s, a, p);
    }
  }

  lemma LocalStepKeepsInv(s: State, p: Pid, pr: Proc, owner: map<Name, Hold>)
    requires Inv(s) && LocalStep(s, p, pr, owner)
    ensures Inv(State(s.procs[p := pr], owner))
  {
    var t := State(s.procs[p := pr], owner);
    LocalStepKeepsOwnership(s, p, pr, owner);
    forall a, b, i: nat | a in t.procs && b in t.procs && a != b && i < Scanned(t.procs[a]) && HasHandle(t.procs[b], Reader(i))
      ensures i in t.procs[a].rHandles
    {
      LocalStepKeepsListed(s, p, pr, a, b, i);
    }
    forall a, b | a in t.procs && b in t.procs && a != b && (t.procs[a].pc.SlotCreate? || t.procs[a].pc.SlotWait?)
      ensures !HasHandle(t.procs[b], Reader(t.procs[a].pc.idx))
    {
      LocalStepKeepsNewSlots(s, p, pr, a, b);
    }
  }

  // ---------------------------------------------------------------- every step keeps the invariant

  /** The step of a process leaves it in order, and the mutexes of others alone. */
  ghost predicate KeepsLocal(owner: map<Name, Hold>, p: Pid, m: Moved) {
    Shape(m.pr) && Matches(m.owner, p, m.pr) && OthersKept(owner, m.owner, p)
  }

  lemma ProbeStepLocal(pr: Proc, owner: map<Name, Hold>, p: Pid, known: bool)
    requires Shape(pr) && Matches(owner, p, pr) && (pr.pc.ProbeOpen? || pr.pc.ProbeClose?)
    ensures KeepsLocal(owner, p, Step(pr, owner, p, known))
  {
  }

  lemma WaitStepLocal(pr: Proc, owner: map<Name, Hold>, p: Pid, known: bool)
    requires Shape(pr) && Matches(owner, p, pr) && (pr.pc.ProbeWait? || pr.pc.SlotWait?)
    ensures KeepsLocal(owner, p, Step(pr, owner, p, known))
  {
  }

  lemma SlotStepLocal(pr: Proc, owner: map<Name, Hold>, p: Pid, known: bool)
    requires Shape(pr) && Matches(owner, p, pr) && (pr.pc.SlotCreate? || pr.pc.SlotDrop?)
    ensures KeepsLocal(owner, p, Step(pr, owner, p, known))
  {
  }

  lemma ReleaseStepLocal(pr: Proc, owner: map<Name, Hold>, p: Pid, known: bool)
    requires Shape(pr) && Matches(owner, p, pr) && pr.pc.ReaderRelease?
    ensures KeepsLocal(owner, p, Step(pr, owner, p, known))
  {
  }

  lemma OpenStepLocal(pr: Proc, owner: map<Name, Hold>, p: Pid, known: bool)
    requires Shape(pr) && Matches(owner, p, pr) && !Waiting(pr, owner, p) && (pr.pc.OpenWriter? || pr.pc.WaitWriter?)
    ensures KeepsLocal(owner, p, Step(pr, owner, p, known))
  {
  }

  lemma EnumerateStepLocal(pr: Proc, owner: map<Name, Hold>, p: Pid, known: bool)
    requires Shape(pr) && Matches(owner, p, pr) && pr.pc.Enumerate?
    ensures KeepsLocal(owner, p, Step(pr, owner, p, known))
  {
  }

  lemma WaitAllStepLocal(pr: Proc, owner: map<Name, Hold>, p: Pid, known: bool)
    requires Shape(pr) && Matches(owner, p, pr) && !Waiting(pr, owner, p) && pr.pc.WaitAll?
    ensures KeepsLocal(owner, p, Step(pr, owner, p, known))
  {
  }

  lemma ReaderUnlockLocal(pr: Proc, owner: map<Name, Hold>, p: Pid, known: bool)
    requires Shape(pr) && Matches(owner, p, pr) && (pr.pc.DropReader? || pr.pc.CloseReader?)
    ensures KeepsLocal(owner, p, Step(pr, owner, p, known))
  {
  }

  lemma SlotsUnlockLocal(pr: Proc, owner: map<Name, Hold>, p: Pid, known: bool)
    requires Shape(pr) && Matches(owner, p, pr) && (pr.pc.DropSlots? || pr.pc.CloseSlot?)
    ensures KeepsLocal(owner, p, Step(pr, owner, p, known))
  {
  }

  lemma WriterUnlockLocal(pr: Proc, owner: map<Name, Hold>, p: Pid, known: bool)
    requires Shape(pr) && Matches(owner, p, pr) && pr.pc.DropWriter?
    ensures KeepsLocal(owner, p, Step(pr, owner, p, known))
  {
  }

  lemma StepLocal(pr: Proc, owner: map<Name, Hold>, p: Pid, known: bool)
    requires Shape(pr) && Matches(owner, p, pr) && Ready(Run(p), pr, owner) && !pr.pc.CloseWriter?
    ensures KeepsLocal(owner, p, Step(pr, owner, p, known))
  {
    var pc := pr.pc;
    if pc.OpenWriter? || pc.WaitWriter? {
      OpenStepLocal(pr, owner, p, known);
    } else if pc.Enumerate? {
      EnumerateStepLocal(pr, owner, p, known);
    } else if pc.WaitAll? {
      WaitAllStepLocal(pr, owner, p, known);
    } else if pc.DropReader? || pc.CloseReader? {
      ReaderUnlockLocal(pr, owner, p, known);
    } else if pc.DropSlots? || pc.CloseSlot? {
      SlotsUnlockLocal(pr, owner, p, known);
    } else if pc.DropWriter? {
      WriterUnlockLocal(pr, owner, p, known);
    } else if pc.ProbeOpen? || pc.ProbeClose? {
      ProbeStepLocal(pr, owner, p, known);
    } else if pc.ProbeWait? || pc.SlotWait? {
      WaitStepLocal(pr, owner, p, known);
    } else if pc.ReaderRelease? {
      ReleaseStepLocal(pr, owner, p, known);
    } else {
      SlotStepLocal(pr, owner, p, known);
    }
  }

  lemma UnlockCallLocal(pr: Proc, owner: map<Name, Hold>, p: Pid, after: After)
    requires Shape(pr) && Matches(owner, p, pr) && pr.pc == Idle && (after == Return || after == Destroy)
    ensures KeepsLocal(owner, p, Moved(UnlockCall(pr, after), owner))
  {
  }

  lemma LockCallLocal(pr: Proc, owner: map<Name, Hold>, p: Pid, mode: LockMode, block: bool)
    requires Shape(pr) && Matches(owner, p, pr) && pr.pc == Idle && mode != NoLock
    ensures KeepsLocal(owner, p, Moved(LockCall(pr, mode, block), owner))
  {
  }

  lemma CallLocal(a: Action, pr: Proc, owner: map<Name, Hold>, known: bool)
    requires Shape(pr) && Matches(owner, a.p, pr) && pr.pc == Idle && (a.CallLock? || a.CallUnlock? || a.CallDestroy?)
    ensures KeepsLocal(owner, a.p, Local(a, pr, owner, known))
  {
    match a
    case CallLock(p, mode, block) =>
      if mode == NoLock {
        UnlockCallLocal(pr, owner, p, Return);
      } else {
        LockCallLocal(pr, owner, p, mode, block);
      }
    case CallUnlock(p) => UnlockCallLocal(pr, owner, p, Return);
    case CallDestroy(p) => UnlockCallLocal(pr, owner, p, Destroy);
    case _ =>
  }

  lemma FailureLocal(a: Action, pr: Proc, owner: map<Name, Hold>, known: bool)
    requires Shape(pr) && Matches(owner, a.p, pr) && Ready(a, pr, owner) && (a.Fault? || a.RunAbandoned?)
    ensures KeepsLocal(owner, a.p, Local(a, pr, owner, known))
  {
  }

  /** A process opens a slot only inside the writer section. */
  lemma LocalHandles(a: Action, pr: Proc, owner: map<Name, Hold>, known: bool, i: nat)
    requires Shape(pr) && Ready(a, pr, owner) && !a.Crash? && !(a.Run? && pr.pc.CloseWriter?)
    requires HasHandle(Local(a, pr, owner, known).pr, Reader(i)) && !HasHandle(pr, Reader(i))
    ensures MustOwn(pr, Writer)
  {
  }

  /** A slot a writer has scanned was scanned before, or is the next one, which is listed if known. */
  predicate Scans(pr: Proc, q: Proc, known: bool, i: nat) {
    i < Scanned(q) ==> (i < Scanned(pr) && (i in pr.rHandles ==> i in q.rHandles)) || (i == Slot(pr) && (known ==> i in q.rHandles))
  }

  /** A slot to be created is one just found missing. */
  predicate FoundMissing(pr: Proc, q: Proc, known: bool) {
    q.pc.SlotCreate? || q.pc.SlotWait? ==>
      (q.pc.idx == Slot(pr) && !known) || ((pr.pc.SlotCreate? || pr.pc.SlotWait?) && q.pc.idx == pr.pc.idx)
  }

  lemma EnumerateScans(pr: Proc, owner: map<Name, Hold>, p: Pid, known: bool, i: nat)
    requires Shape(pr) && pr.pc.Enumerate?
    ensures Scans(pr, Step(pr, owner, p, known).pr, known, i)
  {
  }

  lemma StepScans(pr: Proc, owner: map<Name, Hold>, p: Pid, known: bool, i: nat)
    requires Shape(pr) && Ready(Run(p), pr, owner) && !pr.pc.CloseWriter?
    ensures Scans(pr, Step(pr, owner, p, known).pr, known, i)
  {
    if pr.pc.Enumerate? {
      EnumerateScans(pr, owner, p, known, i);
    } else {
      var q := Step(pr, owner, p, known).pr;
      assert Scanned(q) == 0 || (Scanned(q) <= Scanned(pr) && q.rHandles == pr.rHandles);
    }
  }

  lemma LocalScans(a: Action, pr: Proc, owner: map<Name, Hold>, known: bool, i: nat)
    requires Shape(pr) && Ready(a, pr, owner) && !a.Crash? && !(a.Run? && pr.pc.CloseWriter?)
    ensures Scans(pr, Local(a, pr, owner, known).pr, known, i)
  {
    if a.Run? {
      StepScans(pr, owner, a.p, known, i);
    } else {
      var q := Local(a, pr, owner, known).pr;
      assert Scanned(q) == 0 || (Scanned(q) <= Scanned(pr) && q.rHandles == pr.rHandles);
    }
  }

  lemma StepFindsMissing(pr: Proc, owner: map<Name, Hold>, p: Pid, known: bool)
    requires Shape(pr) && Ready(Run(p), pr, owner) && !pr.pc.CloseWriter?
    ensures FoundMissing(pr, Step(pr, owner, p, known).pr, known)
  {
  }

  lemma LocalFindsMissing(a: Action, pr: Proc, owner: map<Name, Hold>, known: bool)
    requires Shape(pr) && Ready(a, pr, owner) && !a.Crash? && !(a.Run? && pr.pc.CloseWriter?)
    ensures FoundMissing(pr, Local(a, pr, owner, known).pr, known)
  {
    if a.Run? {
      StepFindsMissing(pr, owner, a.p, known);
    } else {
      var q := Local(a, pr, owner, known).pr;
      assert !q.pc.SlotCreate? && !q.pc.SlotWait?;
    }
  }

  lemma LocalKeeps(s: State, a: Action, known: bool)
    requires Inv(s) && Enabled(s, a) && !a.Start? && !Leaves(s, a)
    ensures KeepsLocal(s.owner, a.p, Local(a, s.procs[a.p], s.owner, known))
  {
    var p := a.p;
    var pr := s.procs[p];
    forall n | MustOwn(pr, n) ensures n in s.owner && s.owner[n].pid == p {
      assert Owes(s, p, n);
    }
    if a.Run? {
      StepLocal(pr, s.owner, p, known);
    } else if a.Fault? || a.RunAbandoned? {
      FailureLocal(a, pr, s.owner, known);
    } else {
      CallLocal(a, pr, s.owner, known);
    }
  }

  lemma LocalOpensInside(s: State, a: Action, known: bool)
    requires Inv(s) && Enabled(s, a) && !a.Start? && !Leaves(s, a)
    ensures OpensInside(s, a.p, Local(a, s.procs[a.p], s.owner, known).pr)
  {
    var pr := s.procs[a.p];
    var q := Local(a, pr, s.owner, known).pr;
    forall i: nat | HasHandle(q, Reader(i)) && !HasHandle(pr, Reader(i)) ensures Owes(s, a.p, Writer) {
      LocalHandles(a, pr, s.owner, known, i);
    }
  }

  lemma ScansAreKnown(s: State, a: Action)
    requires Inv(s) && Enabled(s, a) && !a.Start? && !Leaves(s, a)
    ensures var pr := s.procs[a.p]; ScansKnown(s, a.p, Local(a, pr, s.owner, Exists(s.procs, Reader(Slot(pr)))).pr)
  {
    var pr := s.procs[a.p];
    var known := Exists(s.procs, Reader(Slot(pr)));
    var q := Local(a, pr, s.owner, known).pr;
    forall r, i: nat | r in s.procs && r != a.p && i < Scanned(q) && HasHandle(s.procs[r], Reader(i)) ensures i in q.rHandles {
      LocalScans(a, pr, s.owner, known, i);
    }
    LocalFindsMissing(a, pr, s.owner, known);
  }

  lemma LocalIsLocalStep(s: State, a: Action)
    requires Inv(s) && Enabled(s, a) && !a.Start? && !Leaves(s, a)
    ensures var pr := s.procs[a.p]; var m := Local(a, pr, s.owner, Exists(s.procs, Reader(Slot(pr))));
            LocalStep(s, a.p, m.pr, m.owner)
  {
    var pr := s.procs[a.p];
    var known := Exists(s.procs, Reader(Slot(pr)));
    LocalKeeps(s, a, known);
    LocalOpensInside(s, a, known);
    ScansAreKnown(s, a);
  }

  lemma StepKeepsInv(s: State, a: Action)
    requires Inv(s) && Enabled(s, a)
    ensures Inv(Exec(s, a))
  {
    if a.Start? {
      assert LocalStep(s, a.p, NewProc, s.owner);
      LocalStepKeepsInv(s, a.p, NewProc, s.owner);
    } else if Leaves(s, a) {
      VanishKeepsInv(s, a.p);
    } else {
      var pr := s.procs[a.p];
      var m := Local(a, pr, s.owner, Exists(s.procs, Reader(Slot(pr))));
      LocalIsLocalStep(s, a);
      LocalStepKeepsInv(s, a.p, m.pr, m.owner);
      OwnersHaveHandles(State(s.procs[a.p := m.pr], m.owner));
      SweepNothing(s.procs[a.p := m.pr], m.owner);
    }
  }

  lemma OwnersHaveHandles(s: State)
    requires Inv(s)
    ensures forall n :: n in s.owner ==> HasHandle(s.procs[s.owner[n].pid], n)
  {
    forall n | n in s.owner ensures HasHandle(s.procs[s.owner[n].pid], n) {
      MayOwnHasHandle(s.procs[s.owner[n].pid], n);
    }
  }

  lemma VanishKeepsInv(s: State, p: Pid)
    requires Inv(s) && p in s.procs
    ensures Inv(Vanish(s, p))
  {
    OwnersHaveHandles(s);
    var t := Vanish(s, p);
    var owner := map n | n in s.owner && s.owner[n].pid != p :: s.owner[n];
    SweepNothing(t.procs, owner);
    forall q, n | Owes(t, q, n) ensures n in t.owner && t.owner[n].pid == q {
      assert Owes(s, q, n);
    }
  }

  lemma {:induction false} RunKeepsInv(states: seq<State>, actions: seq<Action>, k: nat)
    requires IsRun(states, actions) && k < |states|
    ensures Inv(states[k])
  {
    if k > 0 {
      RunKeepsInv(states, actions, k - 1);
      StepKeepsInv(states[k - 1], actions[k - 1]);
    }
  }
}
