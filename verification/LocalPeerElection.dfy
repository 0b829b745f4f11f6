/** Which instance of the application is the server: the one that holds the lock file. Any number of
    instances start, ask, exit and crash, in any order, one system call at a time.

    The kernel lets go of a lock when its process ends. The file of a local socket stays when its
    process crashes; a server that is closed removes the file of its name, whoever made it. */
module LocalPeerElection {
  import opened Common
  import opened LockedFile

  datatype Pc =
    | Idle
    | Locking       // isClient found no lock of its own
    | Listening     // the lock was taken
    | InUse         // the first listen met an existing socket file
    | Again         // that file was removed
    | Leaving       // the lock file is closed, the server not yet
    | Ended

  /** An instance: whether its lock file is locked, and whether its server listens. */
  datatype Proc = Proc(pc: Pc, locked: bool, server: bool)

  datatype Answer = Answer(proc: nat, client: bool)

  /** The kernel's lock, the process that made the socket file, and what isClient returned so far. */
  datatype State = State(procs: seq<Proc>, owner: Option<nat>, socket: Option<nat>, answers: seq<Answer>)

  datatype Action =
    | Start
    | Ask(p: nat)           // isClient is called
    | Lock(p: nat)          // fcntl, without waiting
    | LockFails(p: nat)     // fcntl fails for another reason
    | Listen(p: nat)
    | ListenFails(p: nat)   // listen fails for another reason
    | Remove(p: nat)
    | ListenAgain(p: nat)
    | Exit(p: nat)          // the lock file is closed
    | Close(p: nat)         // the server is closed
    | Crash(p: nat)

  predicate At(s: State, p: nat, pc: Pc) {
    p < |s.procs| && s.procs[p].pc == pc
  }

  predicate Alive(s: State, p: nat) {
    p < |s.procs| && s.procs[p].pc != Ended && s.procs[p].pc != Leaving
  }

  predicate Enabled(s: State, a: Action) {
    match a
    case Start => true
    case Ask(p) => At(s, p, Idle)
    case Lock(p) => At(s, p, Locking)
    case LockFails(p) => At(s, p, Locking)
    case Listen(p) => At(s, p, Listening)
    case ListenFails(p) => At(s, p, Listening) || At(s, p, Again)
    case Remove(p) => At(s, p, InUse)
    case ListenAgain(p) => At(s, p, Again)
    case Exit(p) => At(s, p, Idle)
    case Close(p) => At(s, p, Leaving)
    case Crash(p) => p < |s.procs| && s.procs[p].pc != Ended
  }

  function Put(s: State, p: nat, proc: Proc): State
    requires p < |s.procs|
  {
    s.(procs := s.procs[p := proc])
  }

  /** isClient returns. */
  function Return(s: State, p: nat, proc: Proc, client: bool): State
    requires p < |s.procs|
  {
    Put(s, p, proc.(pc := Idle)).(answers := s.answers + [Answer(p, client)])
  }

  function Release(s: State, p: nat): State {
    if s.owner == Some(p) then s.(owner := None) else s
  }

  function Exec(s: State, a: Action): State
    requires Enabled(s, a)
  {
    match a
    case Start => s.(procs := s.procs + [Proc(Idle, false, false)])
    case Ask(p) => if s.procs[p].locked then Return(s, p, s.procs[p], false) else Put(s, p, s.procs[p].(pc := Locking))
    case Lock(p) =>
      if s.owner == None then Put(s, p, s.procs[p].(pc := Listening, locked := true)).(owner := Some(p))
      else Return(s, p, s.procs[p], true)
    case LockFails(p) => Return(s, p, s.procs[p], true)
    case Listen(p) =>
      if s.socket == None then Return(s, p, s.procs[p].(server := true), false).(socket := Some(p))
      else Put(s, p, s.procs[p].(pc := InUse))
    case ListenFails(p) => Return(s, p, s.procs[p], false)
    case Remove(p) => Put(s, p, s.procs[p].(pc := Again)).(socket := None)
    case ListenAgain(p) =>
      if s.socket == None then Return(s, p, s.procs[p].(server := true), false).(socket := Some(p))
      else Return(s, p, s.procs[p], false)
    case Exit(p) => Release(Put(s, p, s.procs[p].(pc := Leaving, locked := false)), p)
    case Close(p) => Put(s, p, Proc(Ended, false, false)).(socket := if s.procs[p].server then None else s.socket)
    case Crash(p) => Release(Put(s, p, Proc(Ended, false, false)), p)
  }

  function Initial(): State {
    State([], None, None, [])
  }

  /** The state after the actions; an action that is not possible changes nothing. */
  function Run(s: State, actions: seq<Action>): State
    decreases actions
  {
    if actions == [] then s else Run(if Enabled(s, actions[0]) then Exec(s, actions[0]) else s, actions[1..])
  }

  // ---------------------------------------------------------------- the invariant

  /** The instance has the server role. */
  predicate IsServer(s: State, p: nat) {
    Alive(s, p) && s.procs[p].locked
  }

  /** m_lock_mode says what the kernel knows, and isClient holds the lock from Listening on. */
  predicate LockKnown(s: State, p: nat)
    requires p < |s.procs|
  {
    var proc := s.procs[p];
    && (proc.locked <==> s.owner == Some(p))
    && (proc.locked ==> Alive(s, p) && proc.pc != Locking)
    && (proc.pc == Listening || proc.pc == InUse || proc.pc == Again ==> proc.locked && !proc.server)
  }

  /** A server that listens has the lock, or is about to be closed. */
  predicate ServerKnown(s: State, p: nat)
    requires p < |s.procs|
  {
    && (s.procs[p].server ==> s.procs[p].locked || s.procs[p].pc == Leaving)
    && (s.procs[p].pc == Ended ==> !s.procs[p].server && !s.procs[p].locked)
  }

  predicate SocketKnown(s: State) {
    s.socket.Some? ==> s.socket.value < |s.procs| && (s.procs[s.socket.value].server || s.procs[s.socket.value].pc == Ended)
  }

  /** An instance that was once told it is no client has the role until it ends. */
  predicate AnswerKept(s: State, a: Answer) {
    a.proc < |s.procs| && (!a.client ==> s.procs[a.proc].locked || !Alive(s, a.proc))
  }

  ghost predicate Inv(s: State) {
    && (forall p: nat {:trigger s.procs[p]} :: p < |s.procs| ==> LockKnown(s, p) && ServerKnown(s, p))
    && (s.owner.Some? ==> s.owner.value < |s.procs|)
    && SocketKnown(s)
    && (forall i :: 0 <= i < |s.answers| ==> AnswerKept(s, s.answers[i]))
  }

  /** The instance an action belongs to. */
  function Actor(s: State, a: Action): nat {
    match a
    case Start => |s.procs|
    case Ask(p) => p
    case Lock(p) => p
    case LockFails(p) => p
    case Listen(p) => p
    case ListenFails(p) => p
    case Remove(p) => p
    case ListenAgain(p) => p
    case Exit(p) => p
    case Close(p) => p
    case Crash(p) => p
  }

  lemma OthersUntouched(s: State, a: Action)
    requires Enabled(s, a)
    ensures var t := Exec(s, a);
            && |s.procs| <= |t.procs| && (a.Start? ==> |t.procs| == |s.procs| + 1) && (!a.Start? ==> |t.procs| == |s.procs|)
            && forall q :: 0 <= q < |s.procs| && q != Actor(s, a) ==> t.procs[q] == s.procs[q]
  {
  }

  lemma StepKeepsLocks(s: State, a: Action, q: nat)
    requires Inv(s) && Enabled(s, a) && q < |Exec(s, a).procs|
    ensures LockKnown(Exec(s, a), q) && ServerKnown(Exec(s, a), q)
  {
    OthersUntouched(s, a);
    if q < |s.procs| {
      assert LockKnown(s, q) && ServerKnown(s, q);
    }
    var p := Actor(s, a);
    if p < |s.procs| {
      assert LockKnown(s, p) && ServerKnown(s, p);
    }
  }

  lemma StepKeepsAnswers(s: State, a: Action)
    requires Inv(s) && Enabled(s, a)
    ensures var t := Exec(s, a); forall i :: 0 <= i < |t.answers| ==> AnswerKept(t, t.answers[i])
  {
    var t := Exec(s, a);
    OthersUntouched(s, a);
    var p := Actor(s, a);
    if p < |s.procs| {
      assert LockKnown(s, p);
    }
    forall i | 0 <= i < |t.answers| ensures AnswerKept(t, t.answers[i]) {
      if i < |s.answers| {
        assert AnswerKept(s, s.answers[i]);
      }
    }
  }

  lemma StepKeepsSocket(s: State, a: Action)
    requires Inv(s) && Enabled(s, a)
    ensures SocketKnown(Exec(s, a))
  {
    OthersUntouched(s, a);
    assert SocketKnown(s);
  }

  lemma StepKeepsInv(s: State, a: Action)
    requires Inv(s) && Enabled(s, a)
    ensures Inv(Exec(s, a))
  {
    var t := Exec(s, a);
    OthersUntouched(s, a);
    forall q: nat | q < |t.procs| ensures LockKnown(t, q) && ServerKnown(t, q) {
      StepKeepsLocks(s, a, q);
    }
    StepKeepsAnswers(s, a);
    StepKeepsSocket(s, a);
  }

  lemma {:induction false} RunKeepsInv(s: State, actions: seq<Action>)
    requires Inv(s)
    ensures Inv(Run(s, actions))
    decreases actions
  {
    if actions != [] {
      if Enabled(s, actions[0]) {
        StepKeepsInv(s, actions[0]);
      }
      RunKeepsInv(if Enabled(s, actions[0]) then Exec(s, actions[0]) else s, actions[1..]);
    }
  }

  // ---------------------------------------------------------------- the guarantees

  /** The instances that hold the lock file. */
  function Holders(s: State): set<nat> {
    set p | 0 <= p < |s.procs| && s.procs[p].locked
  }

  lemma HoldersAreOwner(s: State)
    requires Inv(s)
    ensures Holders(s) == if s.owner.Some? then {s.owner.value} else {}
  {
    forall p: nat | p < |s.procs| ensures s.procs[p].locked <==> s.owner == Some(p) {
      assert LockKnown(s, p);
    }
    if s.owner.Some? {
      assert LockKnown(s, s.owner.value);
    }
  }

  /** Each step uses the lock file as the lock that QtLockedFile promises: as a writer, which gets it exactly if
      nobody has it. */
  lemma StepIsAtomic(s: State, a: Action)
    requires Inv(s) && Enabled(s, a)
    ensures AtomicStep({}, Holders(s), {}, Holders(Exec(s, a)), Actor(s, a))
    ensures a.Lock? ==> (a.p in Holders(Exec(s, a)) <==> Holders(s) == {})
  {
    StepKeepsInv(s, a);
    HoldersAreOwner(s);
    HoldersAreOwner(Exec(s, a));
    if Actor(s, a) < |s.procs| {
      assert LockKnown(s, Actor(s, a));
    }
  }

  lemma {:induction false} RunExcludes(s: State, actions: seq<Action>)
    requires Inv(s) && Exclusive({}, Holders(s))
    ensures Exclusive({}, Holders(Run(s, actions)))
    decreases actions
  {
    if actions != [] {
      var a := actions[0];
      if Enabled(s, a) {
        StepKeepsInv(s, a);
        StepIsAtomic(s, a);
        AtomicStepExcludes({}, Holders(s), {}, Holders(Exec(s, a)), Actor(s, a));
      }
      RunExcludes(if Enabled(s, a) then Exec(s, a) else s, actions[1..]);
    }
  }

  /** In every run at most one live instance is the server: this is what the lock promises its writers. */
  lemma OneServer(actions: seq<Action>, p: nat, q: nat)
    requires IsServer(Run(Initial(), actions), p) && IsServer(Run(Initial(), actions), q)
    ensures p == q
  {
    assert Holders(Initial()) == {};
    RunExcludes(Initial(), actions);
    assert p in Holders(Run(Initial(), actions)) && q in Holders(Run(Initial(), actions));
  }

  /** An answer stays in the answers, and more are appended only for live instances. */
  lemma StepAnswers(s: State, a: Action)
    requires Inv(s) && Enabled(s, a)
    ensures var t := Exec(s, a);
            t.answers == s.answers ||
            (|t.answers| == |s.answers| + 1 && t.answers[..|s.answers|] == s.answers && Sticky(s, t.answers[|s.answers|]))
  {
  }

  /** An instance with the role is told so. */
  predicate Sticky(s: State, answer: Answer) {
    Alive(s, answer.proc) && (s.procs[answer.proc].locked ==> !answer.client)
  }

  predicate NeverTurns(answers: seq<Answer>) {
    forall i, j :: 0 <= i < j < |answers| && answers[i].proc == answers[j].proc && !answers[i].client ==> !answers[j].client
  }

  lemma {:induction false} RunNeverTurns(s: State, actions: seq<Action>)
    requires Inv(s) && NeverTurns(s.answers)
    ensures NeverTurns(Run(s, actions).answers)
    decreases actions
  {
    if actions != [] {
      if Enabled(s, actions[0]) {
        StepKeepsInv(s, actions[0]);
        StepAnswers(s, actions[0]);
        var t := Exec(s, actions[0]);
        forall i, j | 0 <= i < j < |t.answers| && t.answers[i].proc == t.answers[j].proc && !t.answers[i].client
          ensures !t.answers[j].client
        {
          assert t.answers[i] == s.answers[i] && AnswerKept(s, s.answers[i]);
        }
      }
      RunNeverTurns(if Enabled(s, actions[0]) then Exec(s, actions[0]) else s, actions[1..]);
    }
  }

  /** Once isClient returned false for an instance, it returns false as long as the instance lives. */
  lemma FalseIsForEver(actions: seq<Action>)
    ensures NeverTurns(Run(Initial(), actions).answers)
  {
    RunNeverTurns(Initial(), actions);
  }

  /** The socket file that is removed to make room was left by an instance that crashed or is leaving. */
  lemma OnlyStaleSocketsAreRemoved(actions: seq<Action>, p: nat)
    requires Enabled(Run(Initial(), actions), Remove(p)) && Run(Initial(), actions).socket.Some?
    ensures !Alive(Run(Initial(), actions), Run(Initial(), actions).socket.value)
  {
    RunKeepsInv(Initial(), actions);
    var s := Run(Initial(), actions);
    assert SocketKnown(s);
    assert LockKnown(s, p) && LockKnown(s, s.socket.value) && ServerKnown(s, s.socket.value);
  }

  /** An instance that listens and whose socket file is still there can be reached. */
  predicate Reachable(s: State, p: nat) {
    IsServer(s, p) && s.procs[p].server && s.socket == Some(p)
  }

  /** A server can be reached until it ends, or until another instance that still had a server closes it
      after having let go of the lock: exactly then it loses its socket file. */
  lemma SocketIsKept(actions: seq<Action>, a: Action, p: nat)
    requires Reachable(Run(Initial(), actions), p) && Enabled(Run(Initial(), actions), a) && Alive(Exec(Run(Initial(), actions), a), p)
    ensures var s := Run(Initial(), actions);
            Reachable(Exec(s, a), p) <==> !(a.Close? && s.procs[a.p].server)
  {
    RunKeepsInv(Initial(), actions);
    var s := Run(Initial(), actions);
    OthersUntouched(s, a);
    assert LockKnown(s, p) && ServerKnown(s, p);
    var q := Actor(s, a);
    if q < |s.procs| {
      assert LockKnown(s, q) && ServerKnown(s, q);
    }
  }

  lemma Next(s: State, a: Action, rest: seq<Action>, t: State)
    requires Enabled(s, a) && t == Exec(s, a)
    ensures Run(s, [a] + rest) == Run(t, rest)
  {
  }

  /** The first instance becomes the server and closes its lock file. */
  lemma FirstLeaves(rest: seq<Action>)
    ensures Run(Initial(), [Start] + ([Ask(0)] + ([Lock(0)] + ([Listen(0)] + ([Exit(0)] + rest))))) ==
            Run(State([Proc(Leaving, false, true)], None, Some(0), [Answer(0, false)]), rest)
  {
    var s1 := State([Proc(Idle, false, false)], None, None, []);
    var s2 := State([Proc(Locking, false, false)], None, None, []);
    var s3 := State([Proc(Listening, true, false)], Some(0), None, []);
    var s4 := State([Proc(Idle, true, true)], Some(0), Some(0), [Answer(0, false)]);
    var s5 := State([Proc(Leaving, false, true)], None, Some(0), [Answer(0, false)]);
    Next(Initial(), Start, [Ask(0)] + ([Lock(0)] + ([Listen(0)] + ([Exit(0)] + rest))), s1);
    Next(s1, Ask(0), [Lock(0)] + ([Listen(0)] + ([Exit(0)] + rest)), s2);
    Next(s2, Lock(0), [Listen(0)] + ([Exit(0)] + rest), s3);
    Next(s3, Listen(0), [Exit(0)] + rest, s4);
    Next(s4, Exit(0), rest, s5);
  }

  /** The second one takes the lock before the first has closed its server. */
  lemma SecondLocks(rest: seq<Action>)
    ensures Run(State([Proc(Leaving, false, true)], None, Some(0), [Answer(0, false)]), [Start] + ([Ask(1)] + ([Lock(1)] + ([Listen(1)] + rest)))) ==
            Run(State([Proc(Leaving, false, true), Proc(InUse, true, false)], Some(1), Some(0), [Answer(0, false)]), rest)
  {
    var first, answers := Proc(Leaving, false, true), [Answer(0, false)];
    var s1 := State([first, Proc(Idle, false, false)], None, Some(0), answers);
    var s2 := State([first, Proc(Locking, false, false)], None, Some(0), answers);
    var s3 := State([first, Proc(Listening, true, false)], Some(1), Some(0), answers);
    var s4 := State([first, Proc(InUse, true, false)], Some(1), Some(0), answers);
    Next(State([first], None, Some(0), answers), Start, [Ask(1)] + ([Lock(1)] + ([Listen(1)] + rest)), s1);
    Next(s1, Ask(1), [Lock(1)] + ([Listen(1)] + rest), s2);
    Next(s2, Lock(1), [Listen(1)] + rest, s3);
    Next(s3, Listen(1), rest, s4);
  }

  /** It makes its socket file, and the first one removes that. */
  lemma SecondListens()
    ensures var t := Run(State([Proc(Leaving, false, true), Proc(InUse, true, false)], Some(1), Some(0), [Answer(0, false)]),
                         [Remove(1)] + ([ListenAgain(1)] + ([Close(0)] + [])));
            IsServer(t, 1) && t.procs[1].server && t.socket == None
  {
    var first, answers := Proc(Leaving, false, true), [Answer(0, false)];
    var s4 := State([first, Proc(InUse, true, false)], Some(1), Some(0), answers);
    var s5 := State([first, Proc(Again, true, false)], Some(1), None, answers);
    var s6 := Exec(s5, ListenAgain(1));
    Next(s4, Remove(1), [ListenAgain(1)] + ([Close(0)] + []), s5);
    Next(s5, ListenAgain(1), [Close(0)] + [], s6);
    Next(s6, Close(0), [], Exec(s6, Close(0)));
  }

  /** That does happen: the new server of the example holds the lock and listens, but cannot be reached. */
  lemma SocketCanBeLost() returns (actions: seq<Action>)
    ensures var s := Run(Initial(), actions); IsServer(s, 1) && s.procs[1].server && s.socket == None
  {
    var last := [Remove(1)] + ([ListenAgain(1)] + ([Close(0)] + []));
    var rest := [Start] + ([Ask(1)] + ([Lock(1)] + ([Listen(1)] + last)));
    FirstLeaves(rest);
    SecondLocks(last);
    SecondListens();
    actions := [Start] + ([Ask(0)] + ([Lock(0)] + ([Listen(0)] + ([Exit(0)] + rest))));
  }

  // ---------------------------------------------------------------- what isClient comes to

  lemma BecomesServerAt(s: State, p: nat)
    requires Inv(s) && At(s, p, Idle) && !s.procs[p].locked && !s.procs[p].server && s.owner == None && s.socket == None
    ensures var t := Run(s, [Ask(p)] + ([Lock(p)] + ([Listen(p)] + [])));
            Reachable(t, p) && t.answers == s.answers + [Answer(p, false)]
  {
    var s1 := Exec(s, Ask(p));
    var s2 := Exec(s1, Lock(p));
    var s3 := Exec(s2, Listen(p));
    Next(s, Ask(p), [Lock(p)] + ([Listen(p)] + []), s1);
    Next(s1, Lock(p), [Listen(p)] + [], s2);
    Next(s2, Listen(p), [], s3);
  }

  lemma ReplacesSocket(s: State, p: nat)
    requires At(s, p, Listening) && s.procs[p].locked && s.socket.Some?
    ensures var t := Run(s, [Listen(p)] + ([Remove(p)] + ([ListenAgain(p)] + [])));
            Reachable(t, p) && t.answers == s.answers + [Answer(p, false)]
  {
    var s1 := Exec(s, Listen(p));
    var s2 := Exec(s1, Remove(p));
    var s3 := Exec(s2, ListenAgain(p));
    Next(s, Listen(p), [Remove(p)] + ([ListenAgain(p)] + []), s1);
    Next(s1, Remove(p), [ListenAgain(p)] + [], s2);
    Next(s2, ListenAgain(p), [], s3);
  }

  /** An instance that asks while nobody has the lock becomes a server that can be reached, and is told that it is
      no client, even if a socket file was left behind. */
  lemma BecomesServer(s: State, p: nat) returns (calls: seq<Action>)
    requires Inv(s) && At(s, p, Idle) && !s.procs[p].locked && !s.procs[p].server && s.owner == None
    ensures forall a :: a in calls ==> a in [Ask(p), Lock(p), Listen(p), Remove(p), ListenAgain(p)]
    ensures Reachable(Run(s, calls), p) && Run(s, calls).answers == s.answers + [Answer(p, false)]
  {
    if s.socket == None {
      calls := [Ask(p)] + ([Lock(p)] + ([Listen(p)] + []));
      BecomesServerAt(s, p);
    } else {
      var rest := [Listen(p)] + ([Remove(p)] + ([ListenAgain(p)] + []));
      calls := [Ask(p)] + ([Lock(p)] + rest);
      var s1 := Exec(s, Ask(p));
      var s2 := Exec(s1, Lock(p));
      Next(s, Ask(p), [Lock(p)] + rest, s1);
      Next(s1, Lock(p), rest, s2);
      ReplacesSocket(s2, p);
    }
  }

  /** When the server crashes, its socket file stays, and the next instance that asks takes its place. */
  lemma CrashedServerIsReplaced(s: State, p: nat, q: nat) returns (calls: seq<Action>)
    requires Inv(s) && Reachable(s, p) && q != p && At(s, q, Idle) && !s.procs[q].server
    ensures forall a :: a in calls ==> a in [Ask(q), Lock(q), Listen(q), Remove(q), ListenAgain(q)]
    ensures var t := Exec(s, Crash(p));
            t.socket == Some(p) && !Alive(t, p) && Reachable(Run(t, calls), q) && !Reachable(Run(t, calls), p)
  {
    assert LockKnown(s, p) && LockKnown(s, q);
    StepKeepsInv(s, Crash(p));
    calls := BecomesServer(Exec(s, Crash(p)), q);
  }

  /** One that asks while another instance has the lock is told that it is a client, and nothing else changes. */
  lemma BecomesClient(s: State, p: nat)
    requires Inv(s) && At(s, p, Idle) && !s.procs[p].locked && s.owner.Some?
    ensures Run(s, [Ask(p)] + ([Lock(p)] + [])) == s.(answers := s.answers + [Answer(p, true)])
  {
    var s1 := Exec(s, Ask(p));
    var s2 := Exec(s1, Lock(p));
    Next(s, Ask(p), [Lock(p)] + [], s1);
    Next(s1, Lock(p), [], s2);
    assert s2.procs == s.procs;
  }

  /** The instance is gone, or has the role without listening. */
  predicate Silent(s: State, p: nat) {
    p < |s.procs| && (Alive(s, p) ==> s.procs[p] == Proc(Idle, true, false))
  }

  lemma StaysSilent(s: State, a: Action, p: nat)
    requires Inv(s) && Enabled(s, a) && Silent(s, p)
    ensures Silent(Exec(s, a), p)
  {
    OthersUntouched(s, a);
    assert LockKnown(s, p);
  }

  lemma {:induction false} RunStaysSilent(s: State, p: nat, actions: seq<Action>)
    requires Inv(s) && Silent(s, p)
    ensures Inv(Run(s, actions)) && Silent(Run(s, actions), p)
    decreases actions
  {
    if actions != [] {
      var a := actions[0];
      if Enabled(s, a) {
        StepKeepsInv(s, a);
        StaysSilent(s, a, p);
      }
      RunStaysSilent(if Enabled(s, a) then Exec(s, a) else s, p, actions[1..]);
    }
  }

  /** An instance whose listen fails has the role all the same, and is told so; as long as it lives it does not
      listen, however often it asks, and no other instance can be reached in its place. */
  lemma FailedListenIsForEver(s: State, p: nat, actions: seq<Action>)
    requires Inv(s) && Enabled(s, ListenFails(p))
    ensures Exec(s, ListenFails(p)).answers == s.answers + [Answer(p, false)]
    ensures var t := Run(Exec(s, ListenFails(p)), actions);
            Alive(t, p) ==> IsServer(t, p) && forall q: nat :: !Reachable(t, q)
  {
    assert LockKnown(s, p);
    StepKeepsInv(s, ListenFails(p));
    RunStaysSilent(Exec(s, ListenFails(p)), p, actions);
    var t := Run(Exec(s, ListenFails(p)), actions);
    if Alive(t, p) {
      forall q: nat ensures !Reachable(t, q) {
        assert LockKnown(t, p) && (q < |t.procs| ==> LockKnown(t, q));
      }
    }
  }
}
