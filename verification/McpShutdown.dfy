/**
 * Shutting down the MCP manager while tools are being called. Every access to the lock, the closed flag, the map of
 * servers and the wait group is a step of its own, and the steps of any number of threads interleave.
 */
module McpShutdown {
  import opened Text

  type SessionId = nat

  datatype Thread =
    // CallTool
    | CallStart(server: string)
    | CallLocked(server: string)              // read lock held
    | CallChecked(server: string)             // read lock held, the flag was not set
    | CallFound(session: SessionId)           // read lock held, not yet in the wait group
    | CallAdmitted(session: SessionId)        // read lock held, in the wait group
    | CallRefused                             // read lock held, closed or not found
    | Calling(session: SessionId)             // the session is in use
    // the store step of ConnectServer
    | StoreStart(server: string, session: SessionId)
    | StoreLocked(server: string, session: SessionId)
    | StoreDone                               // write lock held
    // Close
    | CloseStart
    | CloseLocked                             // write lock held
    | CloseAlready                            // write lock held, the flag was set before
    | CloseFlagged                            // write lock held, this thread set the flag
    | CloseWaiting                            // waiting for the wait group
    | CloseAgain                              // the wait group was empty
    | Closing(todo: set<SessionId>)           // write lock held
    | CloseEnd                                // write lock held, the map is empty
    | Finished

  predicate HoldsRead(t: Thread) {
    t.CallLocked? || t.CallChecked? || t.CallFound? || t.CallAdmitted? || t.CallRefused?
  }

  predicate HoldsWrite(t: Thread) {
    t.StoreLocked? || t.StoreDone? || t.CloseLocked? || t.CloseAlready? || t.CloseFlagged? || t.Closing? || t.CloseEnd?
  }

  /** Counted by the wait group. */
  predicate InFlight(t: Thread) { t.CallAdmitted? || t.Calling? }

  /** The Close that set the flag, until it returns. */
  predicate Owns(t: Thread) {
    t.CloseFlagged? || t.CloseWaiting? || t.CloseAgain? || t.Closing? || t.CloseEnd?
  }

  datatype State = State(
    threads: seq<Thread>,
    readers: set<nat>,
    writer: Option<nat>,
    closed: bool,
    waitGroup: int,
    servers: map<string, SessionId>,
    closedSessions: set<SessionId>)

  const INIT := State([], {}, None, false, 0, map[], {})

  /** A new call of one of the three operations, or the next step of a thread (closing `session`, if it closes one). */
  datatype Step = Spawn(start: Thread) | Move(t: nat, session: SessionId)

  predicate Legal(s: State, step: Step) {
    match step
    case Spawn(start) => start.CallStart? || start.StoreStart? || start.CloseStart?
    case Move(t, session) =>
      t < |s.threads| &&
      match s.threads[t]
      case CallStart(_) => s.writer.None?
      case StoreStart(_, _) => s.writer.None? && s.readers == {}
      case CloseStart => s.writer.None? && s.readers == {}
      case CloseAgain => s.writer.None? && s.readers == {}
      case CloseWaiting => s.waitGroup == 0
      case Closing(todo) => todo == {} || session in todo
      case Finished => false
      case _ => true
  }

  function Goto(s: State, t: nat, pc: Thread): State
    requires t < |s.threads|
  {
    s.(threads := s.threads[t := pc])
  }

  function Apply(s: State, step: Step): State
    requires Legal(s, step)
  {
    match step
    case Spawn(start) => s.(threads := s.threads + [start])
    case Move(t, session) => Advance(s, t, session)
  }

  function Advance(s: State, t: nat, session: SessionId): State
    requires Legal(s, Move(t, session))
  {
    match s.threads[t]
    case CallStart(server) => Goto(s.(readers := s.readers + {t}), t, CallLocked(server))
    case CallLocked(server) => Goto(s, t, if s.closed then CallRefused else CallChecked(server))
    case CallChecked(server) => Goto(s, t, if server in s.servers then CallFound(s.servers[server]) else CallRefused)
    case CallFound(x) => Goto(s.(waitGroup := s.waitGroup + 1), t, CallAdmitted(x))
    case CallAdmitted(x) => Goto(s.(readers := s.readers - {t}), t, Calling(x))
    case CallRefused => Goto(s.(readers := s.readers - {t}), t, Finished)
    case Calling(_) => Goto(s.(waitGroup := s.waitGroup - 1), t, Finished)
    case StoreStart(server, x) => Goto(s.(writer := Some(t)), t, StoreLocked(server, x))
    case StoreLocked(server, x) => Goto(s.(servers := s.servers[server := x]), t, StoreDone)
    case StoreDone => Goto(s.(writer := None), t, Finished)
    case CloseStart => Goto(s.(writer := Some(t)), t, CloseLocked)
    case CloseLocked => if s.closed then Goto(s, t, CloseAlready) else Goto(s.(closed := true), t, CloseFlagged)
    case CloseAlready => Goto(s.(writer := None), t, Finished)
    case CloseFlagged => Goto(s.(writer := None), t, CloseWaiting)
    case CloseWaiting => Goto(s, t, CloseAgain)
    case CloseAgain => Goto(s.(writer := Some(t)), t, Closing(s.servers.Values))
    case Closing(todo) =>
      if todo == {} then Goto(s.(servers := map[]), t, CloseEnd)
      else Goto(s.(closedSessions := s.closedSessions + {session}), t, Closing(todo - {session}))
    case CloseEnd => Goto(s.(writer := None), t, Finished)
  }

  predicate IsRun(s: State, steps: seq<Step>, t: State)
    decreases |steps|
  {
    if steps == [] then s == t else Legal(s, steps[0]) && IsRun(Apply(s, steps[0]), steps[1..], t)
  }

  lemma {:induction false} Invariant(s: State, steps: seq<Step>, t: State, keeps: State -> bool)
    requires IsRun(s, steps, t) && keeps(s)
    requires forall u, step :: keeps(u) && Legal(u, step) ==> keeps(Apply(u, step))
    ensures keeps(t)
    decreases |steps|
  {
    hide Apply, Legal;
    if steps != [] {
      Invariant(Apply(s, steps[0]), steps[1..], t, keeps);
    }
  }

  // ----- the invariants --------------------------------------------------------------------------------------

  /** The lock records who holds it, and a writer excludes everyone else. */
  ghost predicate LockOk(s: State) {
    && (forall i :: i in s.readers <==> 0 <= i < |s.threads| && HoldsRead(s.threads[i]))
    && (forall i :: s.writer == Some(i) <==> 0 <= i < |s.threads| && HoldsWrite(s.threads[i]))
    && (s.writer.Some? ==> s.readers == {})
  }

  function Flying(threads: seq<Thread>): set<nat> {
    set i: nat | i < |threads| && InFlight(threads[i])
  }

  /** The wait group counts the calls in flight. */
  predicate CountOk(s: State) {
    s.waitGroup == |Flying(s.threads)|
  }

  /** Once the flag is set no call is between its check and its admission. */
  predicate FlagOk(s: State) {
    && (s.closed ==> forall i :: 0 <= i < |s.threads| ==>
          !s.threads[i].CallChecked? && !s.threads[i].CallFound? && !s.threads[i].CallAdmitted?)
    && (forall i :: 0 <= i < |s.threads| && Owns(s.threads[i]) ==> s.closed)
    && (forall i, j :: 0 <= i < j < |s.threads| ==> !(Owns(s.threads[i]) && Owns(s.threads[j])))
  }

  predicate Drained(t: Thread) { t.CloseAgain? || t.Closing? || t.CloseEnd? }

  /** The Close that set the flag has not begun to close sessions. */
  predicate StillOpen(t: Thread) { t.CloseFlagged? || t.CloseWaiting? || t.CloseAgain? }

  /** Sessions are closed only after the last call has left, and only sessions that are in the map. */
  predicate DrainOk(s: State) {
    && (forall i :: 0 <= i < |s.threads| && Drained(s.threads[i]) ==> s.waitGroup == 0)
    && (s.closedSessions != {} ==> s.closed && s.waitGroup == 0)
    && (forall i :: 0 <= i < |s.threads| && StillOpen(s.threads[i]) ==> s.closedSessions == {})
    && (forall i :: 0 <= i < |s.threads| && s.threads[i].Closing? ==>
          s.closedSessions + s.threads[i].todo == s.servers.Values)
  }

  ghost predicate Ok(s: State) {
    LockOk(s) && CountOk(s) && FlagOk(s) && DrainOk(s)
  }

  /** How a step of thread t from one point to another may treat the lock. */
  predicate LockMove(s: State, s': State, t: nat)
    requires t < |s.threads| == |s'.threads|
  {
    var a, b := s.threads[t], s'.threads[t];
    || (HoldsRead(a) == HoldsRead(b) && HoldsWrite(a) == HoldsWrite(b)
        && s'.readers == s.readers && s'.writer == s.writer)
    || (!HoldsRead(a) && !HoldsWrite(a) && HoldsRead(b) && !HoldsWrite(b) && s.writer.None?
        && s'.readers == s.readers + {t} && s'.writer == s.writer)
    || (HoldsRead(a) && !HoldsWrite(a) && !HoldsRead(b) && !HoldsWrite(b)
        && s'.readers == s.readers - {t} && s'.writer == s.writer)
    || (!HoldsRead(a) && !HoldsWrite(a) && HoldsWrite(b) && !HoldsRead(b) && s.writer.None? && s.readers == {}
        && s'.readers == s.readers && s'.writer == Some(t))
    || (HoldsWrite(a) && !HoldsRead(a) && !HoldsWrite(b) && !HoldsRead(b)
        && s'.readers == s.readers && s'.writer == None)
  }

  lemma LockMoves(s: State, s': State, t: nat)
    requires LockOk(s) && t < |s.threads| == |s'.threads| && s'.threads == s.threads[t := s'.threads[t]]
    requires LockMove(s, s', t)
    ensures LockOk(s')
  {
  }

  lemma AdvanceMovesLock(s: State, t: nat, session: SessionId)
    requires Legal(s, Move(t, session))
    ensures var s' := Advance(s, t, session);
            |s'.threads| == |s.threads| && s'.threads == s.threads[t := s'.threads[t]] && LockMove(s, s', t)
  {
    hide LockMove, Advance;
    var pc := s.threads[t];
    if HoldsRead(pc) || pc.CallStart? || pc.Calling? {
      CallMovesLock(s, t, session);
    } else {
      OtherMovesLock(s, t, session);
    }
  }

  lemma CallMovesLock(s: State, t: nat, session: SessionId)
    requires Legal(s, Move(t, session))
    requires HoldsRead(s.threads[t]) || s.threads[t].CallStart? || s.threads[t].Calling?
    ensures var s' := Advance(s, t, session);
            |s'.threads| == |s.threads| && s'.threads == s.threads[t := s'.threads[t]] && LockMove(s, s', t)
  {
  }

  lemma OtherMovesLock(s: State, t: nat, session: SessionId)
    requires Legal(s, Move(t, session))
    requires !HoldsRead(s.threads[t]) && !s.threads[t].CallStart? && !s.threads[t].Calling?
    ensures var s' := Advance(s, t, session);
            |s'.threads| == |s.threads| && s'.threads == s.threads[t := s'.threads[t]] && LockMove(s, s', t)
  {
  }

  lemma StepLock(s: State, step: Step)
    requires LockOk(s) && Legal(s, step)
    ensures LockOk(Apply(s, step))
  {
    hide LockMove, Advance;
    match step
    case Spawn(start) => SpawnLock(s, start);
    case Move(t, session) =>
      AdvanceMovesLock(s, t, session);
      LockMoves(s, Advance(s, t, session), t);
  }

  lemma SpawnLock(s: State, start: Thread)
    requires LockOk(s) && (start.CallStart? || start.StoreStart? || start.CloseStart?)
    ensures LockOk(s.(threads := s.threads + [start]))
  {
  }

  lemma FlyingMove(threads: seq<Thread>, t: nat, pc: Thread)
    requires t < |threads|
    ensures Flying(threads[t := pc]) == if InFlight(pc) then Flying(threads) + {t} else Flying(threads) - {t}
    ensures t in Flying(threads) <==> InFlight(threads[t])
  {
  }

  /** Entering and leaving the calls in flight is what moves the wait group. */
  predicate CountMove(s: State, s': State, t: nat)
    requires t < |s.threads| == |s'.threads|
  {
    s'.waitGroup == s.waitGroup + (if InFlight(s'.threads[t]) then 1 else 0) - (if InFlight(s.threads[t]) then 1 else 0)
  }

  lemma AdvanceMovesCount(s: State, t: nat, session: SessionId)
    requires Legal(s, Move(t, session))
    ensures var s' := Advance(s, t, session);
            |s'.threads| == |s.threads| && s'.threads == s.threads[t := s'.threads[t]] && CountMove(s, s', t)
  {
  }

  lemma StepCount(s: State, step: Step)
    requires CountOk(s) && Legal(s, step)
    ensures CountOk(Apply(s, step))
  {
    match step
    case Spawn(start) => assert Flying(s.threads + [start]) == Flying(s.threads);
    case Move(t, session) =>
      hide Flying, Advance;
      var s' := Advance(s, t, session);
      AdvanceMovesCount(s, t, session);
      FlyingMove(s.threads, t, s'.threads[t]);
      if InFlight(s.threads[t]) == InFlight(s'.threads[t]) {
        assert Flying(s'.threads) == Flying(s.threads);
      }
  }

  /** A thread that moves to a point that is neither past the check nor the flag's owner keeps the property. */
  predicate FlagMove(s: State, s': State, t: nat)
    requires t < |s.threads| == |s'.threads|
  {
    var a, b := s.threads[t], s'.threads[t];
    || (!b.CallChecked? && !b.CallFound? && !b.CallAdmitted? && (Owns(b) ==> Owns(a)) && s'.closed == s.closed)
    || (!Owns(b) && (!s.closed || a.CallChecked? || a.CallFound?) && s'.closed == s.closed)
    || (b.CloseFlagged? && a.CloseLocked? && !s.closed && s'.closed && s.readers == {})
  }

  lemma FlagMoves(s: State, s': State, t: nat)
    requires LockOk(s) && FlagOk(s)
    requires t < |s.threads| == |s'.threads| && s'.threads == s.threads[t := s'.threads[t]] && FlagMove(s, s', t)
    ensures FlagOk(s')
  {
    if !s.closed && s'.closed {
      forall i | 0 <= i < |s.threads|
        ensures !HoldsRead(s.threads[i]) && !Owns(s.threads[i])
      {
        assert i !in s.readers;
      }
    }
  }

  lemma AdvanceMovesFlag(s: State, t: nat, session: SessionId)
    requires LockOk(s) && Legal(s, Move(t, session))
    ensures var s' := Advance(s, t, session);
            |s'.threads| == |s.threads| && s'.threads == s.threads[t := s'.threads[t]] && FlagMove(s, s', t)
  {
    if s.threads[t].CloseLocked? {
      assert s.writer == Some(t);
    }
  }

  lemma StepFlag(s: State, step: Step)
    requires LockOk(s) && FlagOk(s) && Legal(s, step)
    ensures FlagOk(Apply(s, step))
  {
    match step
    case Spawn(start) =>
    case Move(t, session) =>
      hide FlagMove, Advance, FlagOk, LockOk;
      AdvanceMovesFlag(s, t, session);
      FlagMoves(s, Advance(s, t, session), t);
  }

  /** A call in flight that leaves finds the wait group at one or more; one that is admitted finds the flag unset. */
  lemma CallsDrain(s: State, t: nat, session: SessionId)
    requires Ok(s) && Legal(s, Move(t, session))
    ensures s.threads[t].CallFound? ==> !s.closed
    ensures s.threads[t].Calling? ==> s.waitGroup > 0
  {
    if s.threads[t].Calling? {
      assert t in Flying(s.threads);
    }
  }

  lemma WriterIsAlone(s: State, t: nat)
    requires LockOk(s) && t < |s.threads| && HoldsWrite(s.threads[t])
    ensures forall i :: 0 <= i < |s.threads| && HoldsWrite(s.threads[i]) ==> i == t
  {
    forall i | 0 <= i < |s.threads| && HoldsWrite(s.threads[i])
      ensures i == t
    {
      assert s.writer == Some(i) && s.writer == Some(t);
    }
  }

  lemma StepDrain(s: State, step: Step)
    requires Ok(s) && Legal(s, step)
    ensures DrainOk(Apply(s, step))
  {
    hide LockOk, CountOk;
    match step
    case Spawn(start) =>
    case Move(t, session) =>
      CallsDrain(s, t, session);
      match s.threads[t]
      case StoreLocked(_, _) => WriterIsAlone(s, t);
      case Closing(_) => WriterIsAlone(s, t);
      case _ =>
  }

  lemma StepOk(s: State, step: Step)
    requires Ok(s) && Legal(s, step)
    ensures Ok(Apply(s, step))
  {
    hide LockOk, CountOk, FlagOk, DrainOk, Apply;
    StepLock(s, step);
    StepCount(s, step);
    StepFlag(s, step);
    StepDrain(s, step);
  }

  lemma ReachableOk(steps: seq<Step>, s: State)
    requires IsRun(INIT, steps, s)
    ensures Ok(s)
  {
    hide Apply, Legal, IsRun;
    forall u, step | Ok(u) && Legal(u, step)
      ensures Ok(Apply(u, step))
    {
      StepOk(u, step);
    }
    InitOk();
    Invariant(INIT, steps, s, u => Ok(u));
  }

  lemma InitOk()
    ensures Ok(INIT)
  {
    assert Flying([]) == {};
  }

  // ----- what shutting down promises ---------------------------------------------------------------------------

  /** In every interleaving, no call uses a session that has been closed. */
  lemma NoCallUsesAClosedSession(steps: seq<Step>, s: State, t: nat)
    requires IsRun(INIT, steps, s) && t < |s.threads| && s.threads[t].Calling?
    ensures s.threads[t].session !in s.closedSessions
  {
    hide IsRun;
    ReachableOk(steps, s);
    assert t in Flying(s.threads);
  }

  /** In every interleaving, no call is admitted by a step taken after the closed flag has been set. */
  lemma NoAdmissionAfterTheFlag(steps: seq<Step>, s: State, step: Step, t: nat)
    requires IsRun(INIT, steps, s) && Legal(s, step)
    requires t < |Apply(s, step).threads| && Apply(s, step).threads[t].CallAdmitted?
    ensures !Apply(s, step).closed
  {
    hide IsRun;
    ReachableOk(steps, s);
    StepFlag(s, step);
  }

  /** When the Close that set the flag has gone through the map, exactly the sessions in it have been closed. */
  lemma CloseClosesTheMap(steps: seq<Step>, s: State, t: nat)
    requires IsRun(INIT, steps, s) && t < |s.threads| && s.threads[t] == Closing({})
    ensures s.closedSessions == s.servers.Values
  {
    hide IsRun;
    ReachableOk(steps, s);
  }

  /** The flag is set and the Close that set it has returned. */
  predicate ShutDown(s: State) {
    s.closed && forall i :: 0 <= i < |s.threads| ==> !Owns(s.threads[i])
  }

  lemma StepShutDown(s: State, step: Step, sessions: set<SessionId>)
    requires ShutDown(s) && s.closedSessions == sessions && Legal(s, step)
    ensures ShutDown(Apply(s, step)) && Apply(s, step).closedSessions == sessions
  {
  }

  /**
   * After that nothing is ever closed again: a session stored by a ConnectServer that was under way during the
   * shutdown stays open for good.
   */
  lemma NothingIsClosedLater(s: State, steps: seq<Step>, t: State)
    requires ShutDown(s) && IsRun(s, steps, t)
    ensures t.closedSessions == s.closedSessions
  {
    hide Apply, Legal, IsRun, ShutDown;
    forall u, step | ShutDown(u) && u.closedSessions == s.closedSessions && Legal(u, step)
      ensures ShutDown(Apply(u, step)) && Apply(u, step).closedSessions == s.closedSessions
    {
      StepShutDown(u, step, s.closedSessions);
    }
    Invariant(s, steps, t, u => ShutDown(u) && u.closedSessions == s.closedSessions);
  }

  /** Thread t has taken the lock again to close the given sessions, and is at it or through. */
  ghost predicate ClosesOnly(s: State, t: nat, sessions: set<SessionId>) {
    && Ok(s) && s.closed && t < |s.threads|
    && match s.threads[t]
       case Closing(todo) => s.servers.Values == sessions
       case CloseEnd => s.closedSessions == sessions
       case Finished => s.closedSessions == sessions && ShutDown(s)
       case _ => false
  }

  lemma StepClosesOnly(s: State, step: Step, t: nat, sessions: set<SessionId>)
    requires ClosesOnly(s, t, sessions) && Legal(s, step)
    ensures ClosesOnly(Apply(s, step), t, sessions)
  {
    StepOk(s, step);
    if s.threads[t].Finished? {
      hide Ok;
      StepShutDown(s, step, sessions);
    } else {
      WriterIsAlone(s, t);
      match step
      case Spawn(_) => hide Ok;
      case Move(i, session) =>
        if i == t {
          OwnClosesOnly(s, t, session, sessions);
        } else {
          hide Ok, Advance, ShutDown;
          assert !HoldsWrite(s.threads[i]);
          ReaderTouchesNoSession(s, i, session);
        }
    }
  }

  lemma OwnClosesOnly(s: State, t: nat, session: SessionId, sessions: set<SessionId>)
    requires ClosesOnly(s, t, sessions) && Legal(s, Move(t, session)) && HoldsWrite(s.threads[t])
    requires Ok(Apply(s, Move(t, session)))
    ensures ClosesOnly(Apply(s, Move(t, session)), t, sessions)
  {
    hide LockOk, CountOk;
  }

  /** A thread without the write lock neither closes nor stores a session, and leaves the flag as it is. */
  lemma ReaderTouchesNoSession(s: State, i: nat, session: SessionId)
    requires Legal(s, Move(i, session)) && !HoldsWrite(s.threads[i])
    ensures var s' := Advance(s, i, session);
            && s'.servers == s.servers && s'.closedSessions == s.closedSessions && s'.closed == s.closed
            && s'.threads == s.threads[i := s'.threads[i]]
  {
  }

  lemma TakesTheLockAgain(s: State, t: nat, session: SessionId)
    requires Ok(s) && t < |s.threads| && s.threads[t].CloseAgain? && Legal(s, Move(t, session))
    ensures ClosesOnly(Apply(s, Move(t, session)), t, s.servers.Values)
  {
    StepOk(s, Move(t, session));
    hide LockOk, CountOk, DrainOk;
  }

  /**
   * In every interleaving: once the shutdown is over, a session has been closed if and only if it was in the map at the
   * moment at which Close took the lock again. Whatever is stored later, or was replaced before, stays open for good.
   */
  lemma ClosedIffInTheMap(steps: seq<Step>, s: State, t: nat, session: SessionId, more: seq<Step>, u: State)
    requires IsRun(INIT, steps, s) && t < |s.threads| && s.threads[t].CloseAgain? && Legal(s, Move(t, session))
    requires IsRun(Apply(s, Move(t, session)), more, u) && ShutDown(u)
    ensures forall x :: x in u.closedSessions <==> x in s.servers.Values
  {
    var sessions := s.servers.Values;
    ReachableOk(steps, s);
    TakesTheLockAgain(s, t, session);
    hide Apply, Legal, IsRun, Ok;
    forall v, step | ClosesOnly(v, t, sessions) && Legal(v, step)
      ensures ClosesOnly(Apply(v, step), t, sessions)
    {
      StepClosesOnly(v, step, t, sessions);
    }
    Invariant(Apply(s, Move(t, session)), more, u, v => ClosesOnly(v, t, sessions));
  }

  lemma Prepend(s: State, step: Step, steps: seq<Step>, t: State) returns (all: seq<Step>)
    requires Legal(s, step) && IsRun(Apply(s, step), steps, t)
    ensures all == [step] + steps && IsRun(s, all, t)
  {
    hide Apply, Legal;
    all := [step] + steps;
    assert all[1..] == steps;
  }

  /** A manager without servers is shut down while a ConnectServer is about to store its session. */
  function WhileStoring(closing: Thread, writer: Option<nat>, closed: bool): State {
    State([StoreStart("files", 7), closing], {}, writer, closed, 0, map[], {})
  }

  lemma Empties() returns (steps: seq<Step>)
    ensures IsRun(WhileStoring(CloseAgain, None, true), steps, WhileStoring(Finished, None, true))
  {
    hide IsRun;
    var noServers: map<string, SessionId> := map[];
    assert noServers.Values == {};
    var s0, s1 := WhileStoring(CloseAgain, None, true), WhileStoring(Closing({}), Some(1), true);
    var s2, s3 := WhileStoring(CloseEnd, Some(1), true), WhileStoring(Finished, None, true);
    var move := Move(1, 0);
    assert Apply(s0, move) == s1 && Apply(s1, move) == s2 && Apply(s2, move) == s3;
    steps := LastStep(s2, move, s3);
    steps := Prepend(s1, move, steps, s3);
    steps := Prepend(s0, move, steps, s3);
  }

  lemma ShutsDown() returns (steps: seq<Step>)
    ensures IsRun(WhileStoring(CloseStart, None, false), steps, WhileStoring(Finished, None, true))
  {
    hide IsRun;
    var s0, s1 := WhileStoring(CloseStart, None, false), WhileStoring(CloseLocked, Some(1), false);
    var s2, s3 := WhileStoring(CloseFlagged, Some(1), true), WhileStoring(CloseWaiting, None, true);
    var s4, end := WhileStoring(CloseAgain, None, true), WhileStoring(Finished, None, true);
    var move := Move(1, 0);
    assert Apply(s0, move) == s1 && Apply(s1, move) == s2 && Apply(s2, move) == s3 && Apply(s3, move) == s4;
    steps := Empties();
    steps := Prepend(s3, move, steps, end);
    steps := Prepend(s2, move, steps, end);
    steps := Prepend(s1, move, steps, end);
    steps := Prepend(s0, move, steps, end);
  }

  lemma LastStep(s: State, step: Step, t: State) returns (steps: seq<Step>)
    requires Legal(s, step) && Apply(s, step) == t
    ensures steps == [step] && IsRun(s, steps, t)
  {
    hide Apply, Legal;
    steps := [step];
    assert IsRun(t, [], t);
    assert steps[1..] == [];
  }

  lemma {:induction false} RunsConcat(s: State, steps: seq<Step>, t: State, more: seq<Step>, u: State)
    requires IsRun(s, steps, t) && IsRun(t, more, u)
    ensures IsRun(s, steps + more, u)
    decreases |steps|
  {
    hide Apply, Legal;
    if steps == [] {
      assert steps + more == more;
    } else {
      assert (steps + more)[1..] == steps[1..] + more;
      RunsConcat(Apply(s, steps[0]), steps[1..], t, more, u);
    }
  }

  lemma StoresLate(s: State) returns (steps: seq<Step>, t: State)
    requires s == WhileStoring(Finished, None, true)
    ensures IsRun(s, steps, t) && t == s.(threads := [Finished, Finished], servers := map["files" := 7])
  {
    hide IsRun;
    var s1 := s.(threads := [StoreLocked("files", 7), Finished], writer := Some(0));
    var s2 := s1.(threads := [StoreDone, Finished], servers := map["files" := 7]);
    t := s.(threads := [Finished, Finished], servers := map["files" := 7]);
    assert Apply(s, Move(0, 0)) == s1;
    assert Apply(s1, Move(0, 0)) == s2;
    assert Apply(s2, Move(0, 0)) == t;
    steps := LastStep(s2, Move(0, 0), t);
    steps := Prepend(s1, Move(0, 0), steps, t);
    steps := Prepend(s, Move(0, 0), steps, t);
  }

  /** Such a session exists: it is stored after Close has returned. */
  lemma LateStoreLeaks() returns (steps: seq<Step>, s: State)
    ensures IsRun(INIT, steps, s) && ShutDown(s)
    ensures s.servers == map["files" := 7] && 7 !in s.closedSessions
  {
    hide IsRun;
    var first := State([StoreStart("files", 7)], {}, None, false, 0, map[], {});
    var s0, s1 := WhileStoring(CloseStart, None, false), WhileStoring(Finished, None, true);
    assert Apply(INIT, Spawn(StoreStart("files", 7))) == first;
    assert Apply(first, Spawn(CloseStart)) == s0;
    var closing := ShutsDown();
    var storing;
    storing, s := StoresLate(s1);
    RunsConcat(s0, closing, s1, storing, s);
    steps := Prepend(first, Spawn(CloseStart), closing + storing, s);
    steps := Prepend(INIT, Spawn(StoreStart("files", 7)), steps, s);
  }

  // ----- a connection that is replaced ---------------------------------------------------------------------------

  lemma ThenStep(steps: seq<Step>, s: State, step: Step, t: State) returns (more: seq<Step>)
    requires IsRun(INIT, steps, s) && Legal(s, step) && Apply(s, step) == t
    ensures more == steps + [step] && IsRun(INIT, more, t)
  {
    hide IsRun, Apply, Legal;
    var last := LastStep(s, step, t);
    RunsConcat(INIT, steps, s, last, t);
    more := steps + last;
  }

  /** Both sessions, 1 and 2, are stored under one name before Close begins. */
  function AfterStores(closing: Thread, writer: Option<nat>, closed: bool, servers: map<string, SessionId>,
                       closedSessions: set<SessionId>): State
  {
    State([Finished, Finished, closing], {}, writer, closed, 0, servers, closedSessions)
  }

  function Storing(first: Thread, second: Thread, writer: Option<nat>, servers: map<string, SessionId>): State {
    State([first, second], {}, writer, false, 0, servers, {})
  }

  lemma StoresFirst(b: Thread) returns (steps: seq<Step>)
    requires b == StoreStart("files", 2)
    ensures IsRun(INIT, steps, Storing(Finished, b, None, map["files" := 1]))
    ensures Spawn(StoreStart("files", 1)) in steps
  {
    hide IsRun;
    var a := StoreStart("files", 1);
    var none: map<string, SessionId> := map[];
    var s1 := State([a], {}, None, false, 0, map[], {});
    var s2, s3 := Storing(a, b, None, none), Storing(StoreLocked("files", 1), b, Some(0), none);
    var s4, s5 := Storing(StoreDone, b, Some(0), map["files" := 1]), Storing(Finished, b, None, map["files" := 1]);
    assert none["files" := 1] == map["files" := 1];
    steps := LastStep(INIT, Spawn(a), s1);
    steps := ThenStep(steps, s1, Spawn(b), s2);
    steps := ThenStep(steps, s2, Move(0, 0), s3);
    steps := ThenStep(steps, s3, Move(0, 0), s4);
    steps := ThenStep(steps, s4, Move(0, 0), s5);
  }

  lemma StoresTwice() returns (steps: seq<Step>)
    ensures IsRun(INIT, steps, Storing(Finished, Finished, None, map["files" := 2]))
    ensures Spawn(StoreStart("files", 1)) in steps
  {
    hide IsRun;
    var one: map<string, SessionId> := map["files" := 1];
    var s5 := Storing(Finished, StoreStart("files", 2), None, one);
    var s6 := Storing(Finished, StoreLocked("files", 2), Some(1), one);
    var s7 := Storing(Finished, StoreDone, Some(1), map["files" := 2]);
    var s8 := Storing(Finished, Finished, None, map["files" := 2]);
    assert one["files" := 2] == map["files" := 2];
    steps := StoresFirst(StoreStart("files", 2));
    steps := ThenStep(steps, s5, Move(1, 0), s6);
    steps := ThenStep(steps, s6, Move(1, 0), s7);
    steps := ThenStep(steps, s7, Move(1, 0), s8);
  }

  lemma CloseWaits(servers: map<string, SessionId>, before: seq<Step>) returns (steps: seq<Step>)
    requires IsRun(INIT, before, Storing(Finished, Finished, None, servers))
    ensures IsRun(INIT, steps, AfterStores(CloseWaiting, None, true, servers, {})) && before <= steps
  {
    hide IsRun;
    var s0, s1 := Storing(Finished, Finished, None, servers), AfterStores(CloseStart, None, false, servers, {});
    var s2 := AfterStores(CloseLocked, Some(2), false, servers, {});
    var s3 := AfterStores(CloseFlagged, Some(2), true, servers, {});
    steps := ThenStep(before, s0, Spawn(CloseStart), s1);
    steps := ThenStep(steps, s1, Move(2, 0), s2);
    steps := ThenStep(steps, s2, Move(2, 0), s3);
    steps := ThenStep(steps, s3, Move(2, 0), AfterStores(CloseWaiting, None, true, servers, {}));
  }

  lemma CloseEnds(servers: map<string, SessionId>, x: SessionId, before: seq<Step>) returns (steps: seq<Step>)
    requires IsRun(INIT, before, AfterStores(CloseWaiting, None, true, servers, {})) && servers.Values == {x}
    ensures IsRun(INIT, steps, AfterStores(Finished, None, true, map[], {x})) && before <= steps
  {
    hide IsRun;
    var s4, s5 := AfterStores(CloseWaiting, None, true, servers, {}), AfterStores(CloseAgain, None, true, servers, {});
    var s6 := AfterStores(Closing({x}), Some(2), true, servers, {});
    var s7 := AfterStores(Closing({}), Some(2), true, servers, {x});
    var s8 := AfterStores(CloseEnd, Some(2), true, map[], {x});
    assert {x} - {x} == {} && {} + {x} == {x};
    steps := ThenStep(before, s4, Move(2, 0), s5);
    steps := ThenStep(steps, s5, Move(2, 0), s6);
    steps := ThenStep(steps, s6, Move(2, x), s7);
    steps := ThenStep(steps, s7, Move(2, 0), s8);
    steps := ThenStep(steps, s8, Move(2, 0), AfterStores(Finished, None, true, map[], {x}));
  }

  /** A connection that was stored before Close began, but replaced under its name, is never closed either. */
  lemma ReplacedConnectionLeaks() returns (steps: seq<Step>, s: State)
    ensures IsRun(INIT, steps, s) && ShutDown(s)
    ensures Spawn(StoreStart("files", 1)) in steps && s.closedSessions == {2} && s.servers == map[]
  {
    hide IsRun;
    var servers: map<string, SessionId> := map["files" := 2];
    assert servers.Values == {2} by { assert servers["files"] == 2; }
    steps := StoresTwice();
    steps := CloseWaits(servers, steps);
    steps := CloseEnds(servers, 2, steps);
    s := AfterStores(Finished, None, true, map[], {2});
  }
}
