/** The two-lock protocol that keeps LAAP instances from operating Riot at the
    same time: a mutex and a lock file for one operation, a second lock file for
    the sign-in sandbox that outlives the operation that opened it. */
module OperationLock {
  import opened Wrappers

  datatype Thread = Thread(process: nat, id: nat)

  /** Where a thread is between the steps of `acquire`, of the operation it
      guards, and of giving the guard back. */
  datatype Phase =
    | Idle
    | Entered   // holds the mutex
    | Filed     // and the operation file
    | Unowned   // and saw no sandbox of its own
    | Probed    // and holds the sign-in file for a moment
    | Leaving   // gave the operation file back
    | Guarded   // `acquire` returned the guard
    | Alone     // and no sandbox is open
    | Opening   // holds the provisioner, to start a sign-in
    | Reserved  // and the sign-in file
    | Opened    // and put the sandbox into the provisioner
    | Closing   // holds the provisioner, to end a sign-in
    | Dropping  // gave the mutex back
    | Polling   // holds the provisioner without a guard

  datatype Signin = Free | Probing(thread: Thread) | Leased(thread: Thread) | Sandboxed(process: nat)

  datatype State = State(
    phases: map<Thread, Phase>,
    operation: map<nat, Thread>,
    file: Option<Thread>,
    signin: Signin,
    provisioner: map<nat, Thread>,
    sandboxes: set<nat>)
  {
    function PhaseOf(t: Thread): Phase {
      if t in phases then phases[t] else Idle
    }

    function Go(t: Thread, phase: Phase): State {
      this.(phases := phases[t := phase])
    }
  }

  const START := State(map[], map[], None, Free, map[], {})

  datatype Event =
    | TryOperation(thread: Thread) | TryFile(thread: Thread) | CheckOwner(thread: Thread)
    | Probe(thread: Thread) | Unprobe(thread: Thread) | Leave(thread: Thread)
    | CheckIdle(thread: Thread)
    | BeginSignIn(thread: Thread) | Reserve(thread: Thread) | FailPrepare(thread: Thread)
    | OpenSandbox(thread: Thread) | Keep(thread: Thread) | Discard(thread: Thread)
    | BeginFinish(thread: Thread) | Finish(thread: Thread) | GiveUp(thread: Thread)
    | Return(thread: Thread) | DropFile(thread: Thread)
    | BeginPoll(thread: Thread) | EndPoll(thread: Thread)
    | Unwind(thread: Thread)
    | Crash(process: nat)

  /** A mutex that blocks is waited for; everything else only tries. */
  predicate Enabled(s: State, e: Event) {
    if e.Crash? then true
    else
      var phase, free := s.PhaseOf(e.thread), e.thread.process !in s.provisioner;
      match e
      case TryOperation(_) => phase.Idle?
      case TryFile(_) => phase.Entered?
      case CheckOwner(_) => phase.Filed?
      case Probe(_) => phase.Unowned?
      case Unprobe(_) => phase.Probed?
      case Leave(_) => phase.Leaving?
      case CheckIdle(_) => phase.Guarded? && free
      case BeginSignIn(_) => phase.Guarded? && free
      case Reserve(_) => phase.Opening?
      case FailPrepare(_) => phase.Reserved?
      case OpenSandbox(_) => phase.Reserved?
      case Keep(_) => phase.Opened?
      case Discard(_) => phase.Opened?
      case BeginFinish(_) => phase.Guarded? && free
      case Finish(_) => phase.Closing?
      case GiveUp(_) => phase.Closing?
      case Return(_) => phase.Guarded? || phase.Alone?
      case DropFile(_) => phase.Dropping?
      case BeginPoll(_) => phase.Idle? && free
      case EndPoll(_) => phase.Polling?
      case Unwind(_) => true
  }

  predicate By(signin: Signin, t: Thread) {
    signin == Probing(t) || signin == Leased(t)
  }

  predicate Within(signin: Signin, process: nat) {
    match signin
    case Free => false
    case Probing(t) => t.process == process
    case Leased(t) => t.process == process
    case Sandboxed(p) => p == process
  }

  function Happen(s: State, e: Event): (r: State)
    requires Enabled(s, e)
  {
    match e
    case TryOperation(t) =>
      if t.process in s.operation then s else s.(operation := s.operation[t.process := t]).Go(t, Entered)
    case TryFile(t) =>
      if s.file.Some? then s.(operation := s.operation - {t.process}).Go(t, Idle) else s.(file := Some(t)).Go(t, Filed)
    case CheckOwner(t) =>
      // A contended provisioner reads as no sandbox.
      s.Go(t, if t.process !in s.provisioner && t.process in s.sandboxes then Guarded else Unowned)
    case Probe(t) =>
      if s.signin.Free? then s.(signin := Probing(t)).Go(t, Probed) else s.(file := None).Go(t, Leaving)
    case Unprobe(t) => s.(signin := Free).Go(t, Guarded)
    case Leave(t) => s.(operation := s.operation - {t.process}).Go(t, Idle)
    case CheckIdle(t) => if t.process in s.sandboxes then s else s.Go(t, Alone)
    case BeginSignIn(t) =>
      if t.process in s.sandboxes then s else s.(provisioner := s.provisioner[t.process := t]).Go(t, Opening)
    case Reserve(t) =>
      if s.signin.Free? then s.(signin := Leased(t)).Go(t, Reserved) else s.(provisioner := s.provisioner - {t.process}).Go(t, Guarded)
    case FailPrepare(t) => s.(signin := Free, provisioner := s.provisioner - {t.process}).Go(t, Guarded)
    case OpenSandbox(t) => s.(signin := Sandboxed(t.process), sandboxes := s.sandboxes + {t.process}).Go(t, Opened)
    case Keep(t) => s.(provisioner := s.provisioner - {t.process}).Go(t, Guarded)
    case Discard(t) =>
      s.(signin := Free, sandboxes := s.sandboxes - {t.process}, provisioner := s.provisioner - {t.process}).Go(t, Guarded)
    case BeginFinish(t) => s.(provisioner := s.provisioner[t.process := t]).Go(t, Closing)
    case Finish(t) =>
      s.(signin := if t.process in s.sandboxes then Free else s.signin,
         sandboxes := s.sandboxes - {t.process}, provisioner := s.provisioner - {t.process}).Go(t, Guarded)
    case GiveUp(t) => s.(provisioner := s.provisioner - {t.process}).Go(t, Guarded)
    case Return(t) => s.(operation := s.operation - {t.process}).Go(t, Dropping)
    case DropFile(t) => s.(file := None).Go(t, Idle)
    case BeginPoll(t) => s.(provisioner := s.provisioner[t.process := t]).Go(t, Polling)
    case EndPoll(t) => s.(provisioner := s.provisioner - {t.process}).Go(t, Idle)
    case Unwind(t) => Unwound(s, t)
    case Crash(p) => Crashed(s, p)
  }

  function Without(m: map<nat, Thread>, t: Thread): (r: map<nat, Thread>) {
    if t.process in m && m[t.process] == t then m - {t.process} else m
  }

  /** A panicking thread drops what it holds; a poisoned mutex is used on. */
  function Unwound(s: State, t: Thread): (r: State) {
    s.(operation := Without(s.operation, t), provisioner := Without(s.provisioner, t),
       file := if s.file == Some(t) then None else s.file,
       signin := if By(s.signin, t) then Free else s.signin).Go(t, Idle)
  }

  /** The system frees the locks of a process that dies. */
  function Crashed(s: State, p: nat): (r: State) {
    s.(phases := map t | t in s.phases && t.process != p :: s.phases[t],
       operation := s.operation - {p}, provisioner := s.provisioner - {p}, sandboxes := s.sandboxes - {p},
       file := if s.file.Some? && s.file.value.process == p then None else s.file,
       signin := if Within(s.signin, p) then Free else s.signin)
  }

  function Next(s: State, e: Event): (r: State) {
    if Enabled(s, e) then Happen(s, e) else s
  }

  function Run(s: State, events: seq<Event>): (r: State)
    decreases |events|
  {
    if events == [] then s else Next(Run(s, events[..|events| - 1]), events[|events| - 1])
  }

  // ---------------------------------------------------------------- who holds what

  predicate HoldsGuard(p: Phase) {
    p.Guarded? || p.Alone? || p.Opening? || p.Reserved? || p.Opened? || p.Closing?
  }

  predicate HoldsMutex(p: Phase) {
    HoldsGuard(p) || p.Entered? || p.Filed? || p.Unowned? || p.Probed? || p.Leaving?
  }

  predicate HoldsFile(p: Phase) {
    HoldsGuard(p) || p.Filed? || p.Unowned? || p.Probed? || p.Dropping?
  }

  predicate HoldsProvisioner(p: Phase) {
    p.Opening? || p.Reserved? || p.Opened? || p.Closing? || p.Polling?
  }

  /** Each lock is held exactly by the thread whose position says so: none is
      shared and none leaks. Whoever holds the guard shares Riot with no other
      process's sandbox; a sandbox is opened only where there is none. */
  predicate ThreadMatches(s: State, t: Thread) {
    var phase := s.PhaseOf(t);
    && (HoldsMutex(phase) <==> t.process in s.operation && s.operation[t.process] == t)
    && (HoldsProvisioner(phase) <==> t.process in s.provisioner && s.provisioner[t.process] == t)
    && (HoldsFile(phase) <==> s.file == Some(t))
    && (phase.Probed? <==> s.signin == Probing(t))
    && (phase.Reserved? <==> s.signin == Leased(t))
    && (HoldsGuard(phase) ==> s.sandboxes <= {t.process})
    && (phase.Alone? || phase.Opening? || phase.Reserved? ==> s.sandboxes == {})
    && (phase.Opened? ==> t.process in s.sandboxes)
  }

  /** The sign-in file otherwise belongs to the one sandbox there may be. */
  predicate SandboxMatches(s: State, p: nat) {
    && (p in s.sandboxes <==> s.signin == Sandboxed(p))
    && (p in s.operation ==> s.operation[p].process == p)
    && (p in s.provisioner ==> s.provisioner[p].process == p)
  }

  ghost predicate Consistent(s: State) {
    (forall t :: ThreadMatches(s, t)) && (forall p: nat :: SandboxMatches(s, p))
  }

  predicate Acquires(e: Event) {
    e.TryOperation? || e.TryFile? || e.CheckOwner? || e.Probe? || e.Unprobe? || e.Leave?
  }

  predicate SignsIn(e: Event) {
    e.BeginSignIn? || e.Reserve? || e.FailPrepare? || e.OpenSandbox? || e.Keep? || e.Discard?
  }

  lemma SandboxStays(s: State, e: Event, p: nat)
    requires Enabled(s, e) && !e.Crash? && SandboxMatches(s, p) && SandboxMatches(s, e.thread.process) && ThreadMatches(s, e.thread)
    ensures SandboxMatches(Happen(s, e), p)
  {
  }

  lemma OnlySandbox(s: State)
    requires forall p: nat :: SandboxMatches(s, p)
    ensures forall q | q in s.sandboxes :: s.signin == Sandboxed(q)
  {
    forall q | q in s.sandboxes
      ensures s.signin == Sandboxed(q)
    {
      assert SandboxMatches(s, q);
    }
  }

  lemma OwnStaysAcquiring(s: State, e: Event)
    requires Enabled(s, e) && Acquires(e) && ThreadMatches(s, e.thread) && forall p: nat :: SandboxMatches(s, p)
    ensures ThreadMatches(Happen(s, e), e.thread)
  {
    OnlySandbox(s);
    hide SandboxMatches;
  }

  lemma OwnStaysSigningIn(s: State, e: Event)
    requires Enabled(s, e) && SignsIn(e) && ThreadMatches(s, e.thread) && SandboxMatches(s, e.thread.process)
    ensures ThreadMatches(Happen(s, e), e.thread)
  {
  }

  lemma OwnStaysEnding(s: State, e: Event)
    requires Enabled(s, e) && !e.Crash? && !Acquires(e) && !SignsIn(e) && ThreadMatches(s, e.thread) && SandboxMatches(s, e.thread.process)
    ensures ThreadMatches(Happen(s, e), e.thread)
  {
  }

  lemma OwnStays(s: State, e: Event)
    requires Enabled(s, e) && !e.Crash? && ThreadMatches(s, e.thread) && forall p: nat :: SandboxMatches(s, p)
    ensures ThreadMatches(Happen(s, e), e.thread)
  {
    hide Happen, ThreadMatches;
    assert SandboxMatches(s, e.thread.process);
    if Acquires(e) {
      OwnStaysAcquiring(s, e);
    } else if SignsIn(e) {
      OwnStaysSigningIn(s, e);
    } else {
      OwnStaysEnding(s, e);
    }
  }

  /** A step of `t` touches only what is free or held by `t`. */
  predicate Moves(s: State, r: State, t: Thread, u: Thread) {
    && r.PhaseOf(u) == s.PhaseOf(u)
    && (u.process in r.operation && r.operation[u.process] == u <==> u.process in s.operation && s.operation[u.process] == u)
    && (u.process in r.provisioner && r.provisioner[u.process] == u <==> u.process in s.provisioner && s.provisioner[u.process] == u)
    && (r.file == Some(u) <==> s.file == Some(u))
    && (r.signin == Probing(u) <==> s.signin == Probing(u))
    && (r.signin == Leased(u) <==> s.signin == Leased(u))
    && (r.sandboxes == s.sandboxes || (HoldsGuard(s.PhaseOf(t)) && !HoldsGuard(s.PhaseOf(u))))
  }

  lemma OtherMovesAcquiring(s: State, e: Event, u: Thread)
    requires Enabled(s, e) && Acquires(e) && u != e.thread && ThreadMatches(s, u) && ThreadMatches(s, e.thread)
    ensures Moves(s, Happen(s, e), e.thread, u)
  {
  }

  lemma OtherMovesSigningIn(s: State, e: Event, u: Thread)
    requires Enabled(s, e) && SignsIn(e) && u != e.thread
    requires ThreadMatches(s, u) && ThreadMatches(s, e.thread) && SandboxMatches(s, e.thread.process)
    ensures Moves(s, Happen(s, e), e.thread, u)
  {
  }

  lemma OtherMovesEnding(s: State, e: Event, u: Thread)
    requires Enabled(s, e) && !e.Crash? && !e.Unwind? && !Acquires(e) && !SignsIn(e) && u != e.thread
    requires ThreadMatches(s, u) && ThreadMatches(s, e.thread) && SandboxMatches(s, e.thread.process)
    ensures Moves(s, Happen(s, e), e.thread, u)
  {
  }

  lemma UnwindMoves(s: State, t: Thread, u: Thread)
    requires u != t && ThreadMatches(s, u) && ThreadMatches(s, t)
    ensures Moves(s, Unwound(s, t), t, u)
  {
  }

  lemma OtherStays(s: State, e: Event, u: Thread)
    requires Enabled(s, e) && !e.Crash? && u != e.thread
    requires ThreadMatches(s, u) && ThreadMatches(s, e.thread) && SandboxMatches(s, e.thread.process)
    ensures ThreadMatches(Happen(s, e), u)
  {
    hide SandboxMatches, Moves;
    if Acquires(e) {
      OtherMovesAcquiring(s, e, u);
    } else if SignsIn(e) {
      OtherMovesSigningIn(s, e, u);
    } else if e.Unwind? {
      UnwindMoves(s, e.thread, u);
    } else {
      OtherMovesEnding(s, e, u);
    }
    hide Happen, Enabled;
    MovesStays(s, Happen(s, e), e.thread, u);
  }

  lemma MovesStays(s: State, r: State, t: Thread, u: Thread)
    requires ThreadMatches(s, u) && Moves(s, r, t, u)
    ensures ThreadMatches(r, u)
  {
  }

  lemma ThreadStaysCrashing(s: State, p: nat, t: Thread)
    requires Consistent(s)
    ensures ThreadMatches(Crashed(s, p), t)
  {
    assert ThreadMatches(s, t) && SandboxMatches(s, p) && SandboxMatches(s, t.process);
    hide Consistent;
    assert Crashed(s, p).PhaseOf(t) == if t.process == p then Idle else s.PhaseOf(t);
  }

  lemma SandboxStaysCrashing(s: State, p: nat, q: nat)
    requires SandboxMatches(s, p) && SandboxMatches(s, q)
    ensures SandboxMatches(Crashed(s, p), q)
  {
  }

  lemma StepStays(s: State, e: Event)
    requires Consistent(s)
    ensures Consistent(Next(s, e))
  {
    hide ThreadMatches, SandboxMatches, Happen, Crashed;
    if Enabled(s, e) {
      var r := Happen(s, e);
      forall t
        ensures ThreadMatches(r, t)
      {
        if e.Crash? {
          CrashIs(s, e.process);
          ThreadStaysCrashing(s, e.process, t);
        } else if t == e.thread {
          OwnStays(s, e);
        } else {
          OtherStays(s, e, t);
        }
      }
      forall p: nat
        ensures SandboxMatches(r, p)
      {
        if e.Crash? {
          CrashIs(s, e.process);
          SandboxStaysCrashing(s, e.process, p);
        } else {
          SandboxStays(s, e, p);
        }
      }
    }
  }

  lemma CrashIs(s: State, p: nat)
    ensures Happen(s, Crash(p)) == Crashed(s, p)
  {
  }

  lemma StartIsConsistent()
    ensures Consistent(START)
  {
  }

  lemma {:induction false} RunsStayConsistent(events: seq<Event>)
    ensures Consistent(Run(START, events))
    decreases |events|
  {
    if events == [] {
      StartIsConsistent();
    } else {
      hide Next;
      RunsStayConsistent(events[..|events| - 1]);
      StepStays(Run(START, events[..|events| - 1]), events[|events| - 1]);
    }
  }

  /** At most one thread of all processes holds the guard, and while it does no
      other process owns a sandbox; there is never more than one sandbox. */
  lemma GuardIsExclusive(events: seq<Event>)
    ensures var s := Run(START, events);
            && (forall t: Thread, u: Thread | HoldsGuard(s.PhaseOf(t)) && HoldsGuard(s.PhaseOf(u)) :: t == u)
            && (forall t: Thread, q | HoldsGuard(s.PhaseOf(t)) && q in s.sandboxes :: q == t.process)
            && (forall p, q | p in s.sandboxes && q in s.sandboxes :: p == q)
            && (forall t: Thread | s.PhaseOf(t).Alone? :: s.sandboxes == {})
  {
    hide Run;
    RunsStayConsistent(events);
    var s := Run(START, events);
    forall t: Thread, u: Thread | HoldsGuard(s.PhaseOf(t)) && HoldsGuard(s.PhaseOf(u))
      ensures t == u
    {
      assert ThreadMatches(s, t) && ThreadMatches(s, u);
    }
    forall t: Thread
      ensures HoldsGuard(s.PhaseOf(t)) ==> s.sandboxes <= {t.process}
      ensures s.PhaseOf(t).Alone? ==> s.sandboxes == {}
    {
      assert ThreadMatches(s, t);
    }
    forall p, q | p in s.sandboxes && q in s.sandboxes
      ensures p == q
    {
      assert SandboxMatches(s, p) && SandboxMatches(s, q);
    }
  }

  // ------------------------------------------------------------- one whole call

  /** When `acquire` succeeds if nobody else moves meanwhile. Its own sandbox
      lets it pass, unless a poll holds the provisioner at that moment. */
  predicate Acquirable(s: State, process: nat) {
    && process !in s.operation && s.file.None?
    && ((process in s.sandboxes && process !in s.provisioner) || s.signin.Free?)
  }

  function Acquiring(t: Thread): (events: seq<Event>) {
    [TryOperation(t), TryFile(t), CheckOwner(t), Probe(t), Unprobe(t), Leave(t)]
  }

  function AcquireAtOnce(s: State, t: Thread): (r: State) {
    if t.process in s.operation then s
    else if Acquirable(s, t.process) then s.(operation := s.operation[t.process := t], file := Some(t)).Go(t, Guarded)
    else s.Go(t, Idle)
  }

  /** The locks as one call sees them. */
  class Locks {
    var state: State

    constructor ()
      ensures state == START
    {
      state := START;
    }

    /** `acquire`, with what leaving it early drops. */
    method Acquire(t: Thread) returns (ok: bool)
      requires state.PhaseOf(t).Idle?
      modifies this
      ensures ok <==> Acquirable(old(state), t.process)
      ensures state == AcquireAtOnce(old(state), t)
    {
      if t.process in state.operation {
        return false;
      }
      state := state.(operation := state.operation[t.process := t]);
      if state.file.Some? {
        state := state.(operation := state.operation - {t.process}).Go(t, Idle);
        return false;
      }
      state := state.(file := Some(t));
      var owns := OwnsProvisioning(t.process);
      if !owns {
        var reserved := ReserveSignin(t);
        if !reserved {
          state := state.(file := None);
          state := state.(operation := state.operation - {t.process}).Go(t, Idle);
          return false;
        }
        state := state.(signin := Free);
      }
      state := state.Go(t, Guarded);
      ok := true;
    }

    /** A provisioner somebody holds reads as empty. */
    method OwnsProvisioning(process: nat) returns (owns: bool)
      ensures owns <==> process in state.sandboxes && process !in state.provisioner
    {
      if process in state.provisioner {
        return false;
      }
      owns := process in state.sandboxes;
    }

    method ReserveSignin(t: Thread) returns (ok: bool)
      modifies this
      ensures ok <==> old(state).signin.Free?
      ensures state == if ok then old(state).(signin := Probing(t)) else old(state)
    {
      ok := state.signin.Free?;
      if ok {
        state := state.(signin := Probing(t));
      }
    }
  }

  lemma RunOne(s: State, events: seq<Event>, e: Event)
    ensures Run(s, events + [e]) == Next(Run(s, events), e)
  {
    assert (events + [e])[..|events|] == events;
  }

  lemma RunSix(s: State, t: Thread)
    ensures Run(s, Acquiring(t)) == Next(Next(Next(Next(Next(Next(s, TryOperation(t)), TryFile(t)), CheckOwner(t)), Probe(t)), Unprobe(t)), Leave(t))
  {
    hide Next;
    var e := Acquiring(t);
    RunOne(s, [], e[0]);
    RunOne(s, e[..1], e[1]);
    RunOne(s, e[..2], e[2]);
    RunOne(s, e[..3], e[3]);
    RunOne(s, e[..4], e[4]);
    RunOne(s, e[..5], e[5]);
    assert e[..1] == [] + [e[0]] && e[..2] == e[..1] + [e[1]] && e[..3] == e[..2] + [e[2]];
    assert e[..4] == e[..3] + [e[3]] && e[..5] == e[..4] + [e[4]] && e == e[..5] + [e[5]];
    assert Run(s, []) == s;
  }

  lemma IdleSkips(s: State, t: Thread)
    requires s.PhaseOf(t).Idle?
    ensures Next(s, TryFile(t)) == Next(s, CheckOwner(t)) == Next(s, Probe(t)) == Next(s, Unprobe(t)) == Next(s, Leave(t)) == s
  {
  }

  lemma GuardedSkips(s: State, t: Thread)
    requires s.PhaseOf(t).Guarded?
    ensures Next(s, Probe(t)) == Next(s, Unprobe(t)) == Next(s, Leave(t)) == s
  {
  }

  /** After the operation file was taken. */
  lemma FiledSteps(s: State, t: Thread)
    requires s.PhaseOf(t).Filed? && s.file == Some(t)
    ensures var r := Next(Next(Next(Next(s, CheckOwner(t)), Probe(t)), Unprobe(t)), Leave(t));
            r == if (t.process in s.sandboxes && t.process !in s.provisioner) || s.signin.Free? then s.Go(t, Guarded)
                 else s.(operation := s.operation - {t.process}, file := None).Go(t, Idle)
  {
    var owner := Next(s, CheckOwner(t));
    if owner.PhaseOf(t).Guarded? {
      GuardedSkips(owner, t);
    } else {
      assert owner == s.Go(t, Unowned);
      var probed := Next(owner, Probe(t));
      if s.signin.Free? {
        assert probed == s.(signin := Probing(t)).Go(t, Probed);
        assert Next(probed, Unprobe(t)) == s.Go(t, Guarded);
        GuardedSkips(s.Go(t, Guarded), t);
      } else {
        assert probed == s.(file := None).Go(t, Leaving);
        assert Next(probed, Unprobe(t)) == probed;
        assert s.phases[t := Unowned][t := Leaving][t := Idle] == s.phases[t := Idle];
      }
    }
  }

  /** An undisturbed `acquire` ends holding exactly the mutex and the operation
      file, or holding nothing new at all. */
  lemma AcquireIsAllOrNothing(s: State, t: Thread)
    requires s.PhaseOf(t).Idle?
    ensures Run(s, Acquiring(t)) == AcquireAtOnce(s, t)
    ensures AcquireAtOnce(s, t).PhaseOf(t).Guarded? <==> Acquirable(s, t.process)
  {
    RunSix(s, t);
    hide Run;
    var entered := Next(s, TryOperation(t));
    if t.process in s.operation {
      IdleSkips(s, t);
    } else {
      assert entered == s.(operation := s.operation[t.process := t]).Go(t, Entered);
      assert s.operation[t.process := t] - {t.process} == s.operation;
      var filed := Next(entered, TryFile(t));
      if s.file.Some? {
        assert filed == s.Go(t, Idle);
        IdleSkips(filed, t);
      } else {
        assert filed == s.(operation := s.operation[t.process := t], file := Some(t)).Go(t, Filed);
        hide Next;
        FiledSteps(filed, t);
      }
    }
  }

  /** When nobody is operating Riot, exactly two things refuse `acquire`: a
      sandbox of another process, or the caller's own while a poll looks at it. */
  lemma WhoIsRefused(events: seq<Event>, process: nat)
    requires process !in Run(START, events).operation && Run(START, events).file.None?
    ensures var s := Run(START, events);
            Acquirable(s, process) <==> s.sandboxes == {} || (s.sandboxes == {process} && process !in s.provisioner)
  {
    hide Run;
    RunsStayConsistent(events);
    var s := Run(START, events);
    forall t: Thread
      ensures s.signin != Probing(t) && s.signin != Leased(t)
    {
      assert ThreadMatches(s, t);
    }
    forall p: nat
      ensures p in s.sandboxes <==> s.signin == Sandboxed(p)
    {
      assert SandboxMatches(s, p);
    }
    assert s.signin.Free? ==> s.sandboxes == {};
    assert s.signin.Sandboxed? ==> s.signin.process in s.sandboxes;
    assert s.signin == Sandboxed(process) ==> s.sandboxes == {process};
  }

  /** With every thread at rest and no sandbox open all locks are free, so
      nothing but a guard or a sandbox can refuse `acquire`. */
  lemma NoLockLeaks(events: seq<Event>, process: nat)
    requires forall t: Thread :: Run(START, events).PhaseOf(t).Idle?
    requires Run(START, events).sandboxes == {}
    ensures Acquirable(Run(START, events), process)
  {
    hide Run;
    RunsStayConsistent(events);
    var s := Run(START, events);
    assert s.file.Some? ==> s.file == Some(s.file.value);
    forall t: Thread
      ensures s.file != Some(t) && s.signin != Probing(t) && s.signin != Leased(t)
      ensures t.process in s.operation ==> s.operation[t.process] != t
    {
      assert ThreadMatches(s, t);
    }
    forall p: nat
      ensures s.signin != Sandboxed(p)
      ensures p in s.operation ==> s.operation[p].process == p
    {
      assert SandboxMatches(s, p);
    }
  }

  /** A process that dies takes nothing along: if it alone was busy, the next
      `acquire` of any process succeeds. */
  lemma CrashFreesEverything(events: seq<Event>, dead: nat, process: nat)
    requires forall t: Thread | t.process != dead :: Run(START, events).PhaseOf(t).Idle?
    requires Run(START, events).sandboxes <= {dead}
    ensures Acquirable(Run(START, events + [Crash(dead)]), process)
  {
    RunOne(START, events, Crash(dead));
    CrashIs(Run(START, events), dead);
    var r := Run(START, events + [Crash(dead)]);
    forall t: Thread
      ensures r.PhaseOf(t).Idle?
    {
    }
    NoLockLeaks(events + [Crash(dead)], process);
  }

  // ------------------------------------------------------------ a whole sign-in

  lemma RunTwo(s: State, e: Event, f: Event)
    ensures Run(s, [e, f]) == Next(Next(s, e), f)
  {
    hide Next;
    assert [e, f] == [e] + [f] && [e] == [] + [e];
    RunOne(s, [e], f);
    RunOne(s, [], e);
    assert Run(s, []) == s;
  }

  lemma RunMore(s: State, e: Event, f: Event, g: Event, h: Event)
    ensures Run(s, [e, f, g]) == Next(Next(Next(s, e), f), g)
    ensures Run(s, [e, f, g, h]) == Next(Next(Next(Next(s, e), f), g), h)
  {
    hide Next;
    RunTwo(s, e, f);
    assert [e, f, g] == [e, f] + [g] && [e, f, g, h] == [e, f, g] + [h];
    RunOne(s, [e, f], g);
    RunOne(s, [e, f, g], h);
  }

  /** Whoever holds the guard while no sandbox is open finds the sign-in file
      free. */
  lemma GuardedIsFree(s: State, t: Thread)
    requires Consistent(s) && (s.PhaseOf(t).Guarded? || s.PhaseOf(t).Alone?) && s.sandboxes == {}
    ensures s.signin.Free?
  {
    assert ThreadMatches(s, t);
    forall u: Thread
      ensures s.signin != Probing(u) && s.signin != Leased(u)
    {
      assert ThreadMatches(s, u);
    }
    forall p: nat
      ensures s.signin != Sandboxed(p)
    {
      assert SandboxMatches(s, p);
    }
  }

  /** The provisioner is taken for the time of an opening or an ending. */
  function Provisioning(s: State, t: Thread, signin: Signin, sandboxes: set<nat>, phase: Phase): (r: State) {
    s.(signin := signin, sandboxes := sandboxes, provisioner := s.provisioner[t.process := t]).Go(t, phase)
  }

  lemma OpeningSteps(s: State, t: Thread)
    requires s.PhaseOf(t).Guarded? && s.signin.Free? && s.sandboxes == {} && t.process !in s.provisioner
    ensures Next(s, BeginSignIn(t)) == Provisioning(s, t, Free, {}, Opening)
    ensures Next(Provisioning(s, t, Free, {}, Opening), Reserve(t)) == Provisioning(s, t, Leased(t), {}, Reserved)
    ensures Next(s, CheckIdle(t)) == s.Go(t, Alone)
  {
  }

  lemma OpenedSteps(s: State, t: Thread)
    requires t.process !in s.provisioner && s.signin.Free? && s.sandboxes == {}
    ensures var reserved := Provisioning(s, t, Leased(t), {}, Reserved);
            && Next(reserved, OpenSandbox(t)) == Provisioning(s, t, Sandboxed(t.process), {t.process}, Opened)
            && Next(reserved, FailPrepare(t)) == s.Go(t, Guarded)
  {
    assert s.provisioner[t.process := t] - {t.process} == s.provisioner;
  }

  lemma KeptStep(s: State, t: Thread)
    requires t.process !in s.provisioner
    ensures Next(Provisioning(s, t, Sandboxed(t.process), {t.process}, Opened), Keep(t))
            == s.(signin := Sandboxed(t.process), sandboxes := {t.process}).Go(t, Guarded)
    ensures Next(Provisioning(s, t, Sandboxed(t.process), {t.process}, Opened), Discard(t))
            == s.(signin := Free, sandboxes := {}).Go(t, Guarded)
  {
    assert s.provisioner[t.process := t] - {t.process} == s.provisioner;
  }

  /** Under the guard a sign-in opens its sandbox, or gives the file back when it
      cannot be prepared or launched; where there is no sandbox another operation
      goes on. */
  lemma GuardOpens(s: State, t: Thread)
    requires Consistent(s) && s.PhaseOf(t).Guarded? && s.sandboxes == {} && t.process !in s.provisioner
    ensures Run(s, [BeginSignIn(t), Reserve(t), OpenSandbox(t), Keep(t)])
            == s.(signin := Sandboxed(t.process), sandboxes := {t.process}).Go(t, Guarded)
    ensures Run(s, [BeginSignIn(t), Reserve(t), OpenSandbox(t), Discard(t)]) == s.Go(t, Guarded)
    ensures Run(s, [BeginSignIn(t), Reserve(t), FailPrepare(t)]) == s.Go(t, Guarded)
    ensures Next(s, CheckIdle(t)) == s.Go(t, Alone)
  {
    GuardedIsFree(s, t);
    OpeningSteps(s, t);
    OpenedSteps(s, t);
    KeptStep(s, t);
    hide Consistent, Run, Next;
    RunMore(s, BeginSignIn(t), Reserve(t), OpenSandbox(t), Keep(t));
    RunMore(s, BeginSignIn(t), Reserve(t), OpenSandbox(t), Discard(t));
    RunMore(s, BeginSignIn(t), Reserve(t), FailPrepare(t), FailPrepare(t));
  }

  lemma EndingSteps(s: State, t: Thread)
    requires s.PhaseOf(t).Guarded? && s.signin == Sandboxed(t.process) && s.sandboxes == {t.process} && t.process !in s.provisioner
    ensures var closing := Provisioning(s, t, Sandboxed(t.process), {t.process}, Closing);
            && Next(s, BeginFinish(t)) == closing
            && Next(closing, Finish(t)) == s.(signin := Free, sandboxes := {}).Go(t, Guarded)
            && Next(closing, GiveUp(t)) == s.Go(t, Guarded)
    ensures Next(s, BeginSignIn(t)) == s && Next(s, CheckIdle(t)) == s
  {
    assert s.provisioner[t.process := t] - {t.process} == s.provisioner;
  }

  /** A sandbox of one's own ends under the guard, and the sign-in file with it;
      until then, and where ending it fails, no second one is opened and no other
      operation goes on. */
  lemma GuardEnds(s: State, t: Thread)
    requires Consistent(s) && s.PhaseOf(t).Guarded? && t.process in s.sandboxes && t.process !in s.provisioner
    ensures Run(s, [BeginFinish(t), Finish(t)]) == s.(signin := Free, sandboxes := {}).Go(t, Guarded)
    ensures Run(s, [BeginFinish(t), GiveUp(t)]) == s.Go(t, Guarded)
    ensures Next(s, BeginSignIn(t)) == s && Next(s, CheckIdle(t)) == s
  {
    assert ThreadMatches(s, t) && SandboxMatches(s, t.process);
    hide Consistent, ThreadMatches, SandboxMatches;
    assert s.sandboxes == {t.process};
    EndingSteps(s, t);
    hide Run, Next;
    RunTwo(s, BeginFinish(t), Finish(t));
    RunTwo(s, BeginFinish(t), GiveUp(t));
  }

  lemma ReturningSteps(s: State, t: Thread)
    requires s.PhaseOf(t).Guarded? || s.PhaseOf(t).Alone?
    ensures var dropping := s.(operation := s.operation - {t.process}).Go(t, Dropping);
            && Next(s, Return(t)) == dropping
            && Next(dropping, DropFile(t)) == s.(operation := s.operation - {t.process}, file := None).Go(t, Idle)
  {
  }

  /** Giving the guard back frees both locks and leaves the sandbox. */
  lemma GuardReturns(s: State, t: Thread)
    requires Consistent(s) && (s.PhaseOf(t).Guarded? || s.PhaseOf(t).Alone?)
    ensures var r := Run(s, [Return(t), DropFile(t)]);
            && r == s.(operation := s.operation - {t.process}, file := None).Go(t, Idle)
            && (Acquirable(r, t.process) <==> s.sandboxes == {} || t.process !in s.provisioner)
  {
    if s.sandboxes == {} {
      GuardedIsFree(s, t);
    }
    OwnSandbox(s, t);
    hide Consistent;
    ReturningSteps(s, t);
    hide Run, Next;
    RunTwo(s, Return(t), DropFile(t));
  }

  lemma OwnSandbox(s: State, t: Thread)
    requires Consistent(s) && HoldsGuard(s.PhaseOf(t))
    ensures s.sandboxes <= {t.process} && (s.sandboxes != {} ==> t.process in s.sandboxes && !s.signin.Free?)
  {
    assert ThreadMatches(s, t) && SandboxMatches(s, t.process);
    if s.sandboxes != {} {
      var p :| p in s.sandboxes;
      assert p == t.process;
    }
  }
}
