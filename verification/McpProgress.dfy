/** What the MCP manager gets done: whom a call reaches, and that no interleaving gets stuck or goes on forever. */
module McpProgress {
  import opened Text
  import opened McpShutdown

  // ----- whom a call reaches ---------------------------------------------------------------------------

  /** Somewhere in the run the thread stands at the point. */
  predicate Visits(s: State, steps: seq<Step>, t: nat, pc: Thread)
    decreases |steps|
  {
    || (t < |s.threads| && s.threads[t] == pc)
    || (steps != [] && Legal(s, steps[0]) && Visits(Apply(s, steps[0]), steps[1..], t, pc))
  }

  /** The thread is in the middle of a call, and on its way to the session if there is one. */
  predicate InCall(s: State, t: nat, server: string, session: Option<SessionId>) {
    t < |s.threads| &&
    match s.threads[t]
    case CallLocked(name) =>
      name == server && session == if !s.closed && server in s.servers then Some(s.servers[server]) else None
    case CallChecked(name) => name == server && session == if server in s.servers then Some(s.servers[server]) else None
    case CallFound(x) => session == Some(x)
    case CallAdmitted(x) => session == Some(x)
    case Calling(x) => session == Some(x)
    case CallRefused => session == None
    case _ => false
  }

  lemma OwnStepInCall(s: State, t: nat, server: string, session: Option<SessionId>, x: SessionId)
    requires InCall(s, t, server, session) && !s.threads[t].Calling? && !s.threads[t].CallRefused?
    ensures Legal(s, Move(t, x)) && InCall(Advance(s, t, x), t, server, session)
  {
  }

  lemma OtherStepInCall(s: State, t: nat, server: string, session: Option<SessionId>, step: Step)
    requires Ok(s) && InCall(s, t, server, session) && Legal(s, step) && (step.Move? ==> step.t != t)
    ensures InCall(Apply(s, step), t, server, session) && Apply(s, step).threads[t] == s.threads[t]
  {
    match step
    case Spawn(_) => hide Ok;
    case Move(i, x) =>
      if s.threads[t].Calling? {
        StaysPut(s, i, x, t);
      } else {
        NoWriterBeside(s, t, i);
        hide Ok, Advance;
        ReaderTouchesNoSession(s, i, x);
      }
  }

  lemma StaysPut(s: State, i: nat, x: SessionId, t: nat)
    requires Legal(s, Move(i, x)) && i != t && t < |s.threads|
    ensures |Advance(s, i, x).threads| == |s.threads| && Advance(s, i, x).threads[t] == s.threads[t]
  {
  }

  lemma NoWriterBeside(s: State, t: nat, i: nat)
    requires Ok(s) && t < |s.threads| && i < |s.threads| && HoldsRead(s.threads[t])
    ensures !HoldsWrite(s.threads[i])
  {
    assert t in s.readers;
    assert HoldsWrite(s.threads[i]) ==> s.writer == Some(i);
  }

  lemma {:induction false} FinishedCallsNoMore(s: State, steps: seq<Step>, t: nat, x: SessionId)
    requires t < |s.threads| && s.threads[t].Finished?
    ensures !Visits(s, steps, t, Calling(x))
    decreases |steps|
  {
    if steps != [] && Legal(s, steps[0]) {
      if steps[0].Move? {
        StaysPut(s, steps[0].t, steps[0].session, t);
      }
      hide Legal, Advance;
      FinishedCallsNoMore(Apply(s, steps[0]), steps[1..], t, x);
    }
  }

  lemma {:induction false} InCallReaches(s: State, steps: seq<Step>, u: State, t: nat, server: string,
                                         session: Option<SessionId>, x: SessionId)
    requires Ok(s) && InCall(s, t, server, session)
    requires IsRun(s, steps, u) && t < |u.threads| && u.threads[t].Finished?
    ensures Visits(s, steps, t, Calling(x)) <==> session == Some(x)
    decreases |steps|
  {
    assert steps != [];
    var step := steps[0];
    var s' := Apply(s, step);
    StepOk(s, step);
    if step.Move? && step.t == t {
      if s.threads[t].Calling? || s.threads[t].CallRefused? {
        assert s'.threads[t].Finished?;
        FinishedCallsNoMore(s', steps[1..], t, x);
      } else {
        OwnStepInCall(s, t, server, session, step.session);
        hide Ok, Apply, Advance;
        InCallReaches(s', steps[1..], u, t, server, session, x);
      }
    } else {
      OtherStepInCall(s, t, server, session, step);
      hide Ok, Apply, Advance, Legal;
      InCallReaches(s', steps[1..], u, t, server, session, x);
    }
  }

  /**
   * In every interleaving: a call that has got the read lock calls a session, before it is over, if and only if at that
   * moment the flag was unset and the session was its server's. So it is refused only if the flag was set or the name
   * was missing.
   */
  lemma CallReachesItsServer(before: seq<Step>, s: State, steps: seq<Step>, u: State, t: nat, server: string,
                             x: SessionId)
    requires IsRun(INIT, before, s) && t < |s.threads| && s.threads[t] == CallLocked(server)
    requires IsRun(s, steps, u) && t < |u.threads| && u.threads[t].Finished?
    ensures Visits(s, steps, t, Calling(x)) <==> !s.closed && server in s.servers && x == s.servers[server]
  {
    hide IsRun, Visits;
    ReachableOk(before, s);
    var session := if !s.closed && server in s.servers then Some(s.servers[server]) else None;
    InCallReaches(s, steps, u, t, server, session, x);
  }

  // ----- nothing gets stuck ------------------------------------------------------------------------------

  predicate AllFinished(s: State) { forall t :: 0 <= t < |s.threads| ==> s.threads[t].Finished? }

  lemma HolderMoves(s: State, t: nat) returns (x: SessionId)
    requires t < |s.threads| && (HoldsRead(s.threads[t]) || HoldsWrite(s.threads[t]) || s.threads[t].Calling?)
    ensures Legal(s, Move(t, x))
  {
    x := 0;
    if s.threads[t].Closing? && s.threads[t].todo != {} {
      x :| x in s.threads[t].todo;
    }
  }

  lemma SomeoneFlies(s: State) returns (t: nat)
    requires CountOk(s) && s.waitGroup != 0
    ensures t < |s.threads| && InFlight(s.threads[t])
  {
    assert Flying(s.threads) != {};
    t :| t in Flying(s.threads);
  }

  /** In every interleaving: as long as a thread has not finished, some thread can take a step. */
  lemma NoDeadlock(steps: seq<Step>, s: State) returns (t: nat, x: SessionId)
    requires IsRun(INIT, steps, s) && !AllFinished(s)
    ensures Legal(s, Move(t, x))
  {
    hide IsRun;
    ReachableOk(steps, s);
    t :| t < |s.threads| && !s.threads[t].Finished?;
    if s.writer.Some? {
      t := s.writer.value;
      x := HolderMoves(s, t);
    } else if s.readers != {} {
      t :| t in s.readers;
      x := HolderMoves(s, t);
    } else {
      x := 0;
      if s.threads[t].CloseWaiting? && s.waitGroup != 0 {
        t := SomeoneFlies(s);
      }
      NoHolder(s, t);
    }
  }

  lemma NoHolder(s: State, t: nat)
    requires LockOk(s) && s.writer.None? && s.readers == {} && t < |s.threads|
    ensures !HoldsRead(s.threads[t]) && !HoldsWrite(s.threads[t])
  {
    assert t !in s.readers;
    assert s.writer != Some(t);
  }

  // ----- nothing goes on forever ---------------------------------------------------------------------------

  /** How many more steps a thread takes at most, not counting the sessions it closes. */
  function Rank(t: Thread): nat {
    match t
    case CallStart(_) => 6
    case CallLocked(_) => 5
    case CallChecked(_) => 4
    case CallFound(_) => 3
    case CallAdmitted(_) => 2
    case CallRefused => 1
    case Calling(_) => 1
    case StoreStart(_, _) => 3
    case StoreLocked(_, _) => 2
    case StoreDone => 1
    case CloseStart => 7
    case CloseLocked => 6
    case CloseAlready => 1
    case CloseFlagged => 5
    case CloseWaiting => 4
    case CloseAgain => 3
    case Closing(_) => 2
    case CloseEnd => 1
    case Finished => 0
  }

  function ToClose(t: Thread): nat {
    if t.Closing? then |t.todo| else 0
  }

  function ToStore(t: Thread): nat {
    if t.StoreStart? || t.StoreLocked? then 1 else 0
  }

  function Sum(threads: seq<Thread>, f: Thread -> nat): nat {
    if threads == [] then 0 else Sum(threads[..|threads| - 1], f) + f(threads[|threads| - 1])
  }

  lemma {:induction false} SumMove(threads: seq<Thread>, t: nat, pc: Thread, f: Thread -> nat)
    requires t < |threads|
    ensures Sum(threads[t := pc], f) + f(threads[t]) == Sum(threads, f) + f(pc)
  {
    var k := |threads| - 1;
    if t < k {
      SumMove(threads[..k], t, pc, f);
      assert threads[t := pc][..k] == threads[..k][t := pc];
    } else {
      assert threads[t := pc][..k] == threads[..k];
    }
  }

  /** How many sessions the map holds or may still get. */
  function Sessions(s: State): nat {
    |s.servers.Values| + Sum(s.threads, ToStore)
  }

  /** A bound on the steps that the threads still take. */
  function Work(s: State): nat {
    Sum(s.threads, Rank) * (Sessions(s) + 1) + Sum(s.threads, ToClose)
  }

  lemma StoredValues(servers: map<string, SessionId>, server: string, x: SessionId)
    ensures |servers[server := x].Values| <= |servers.Values| + 1
  {
    assert servers[server := x].Values <= servers.Values + {x};
    Smaller(servers[server := x].Values, servers.Values + {x});
  }

  lemma {:induction false} Smaller(a: set<SessionId>, b: set<SessionId>)
    requires a <= b
    ensures |a| <= |b|
  {
    if a != {} {
      var x :| x in a;
      Smaller(a - {x}, b - {x});
    }
  }

  /** A step lowers the thread's rank, or leaves it and closes a session. */
  predicate Counts(s: State, s': State, t: nat)
    requires t < |s.threads| == |s'.threads|
  {
    var a, b := s.threads[t], s'.threads[t];
    && |s'.servers.Values| + ToStore(b) <= |s.servers.Values| + ToStore(a)
    && (|| (Rank(b) < Rank(a) && ToClose(b) <= ToClose(a) + |s.servers.Values|)
        || (Rank(b) == Rank(a) && ToClose(b) < ToClose(a)))
  }

  lemma CallCounts(s: State, t: nat, x: SessionId)
    requires Legal(s, Move(t, x)) && (HoldsRead(s.threads[t]) || s.threads[t].CallStart? || s.threads[t].Calling?)
    ensures |Advance(s, t, x).threads| == |s.threads| && Counts(s, Advance(s, t, x), t)
  {
  }

  lemma OtherCounts(s: State, t: nat, x: SessionId)
    requires Legal(s, Move(t, x)) && !HoldsRead(s.threads[t]) && !s.threads[t].CallStart? && !s.threads[t].Calling?
    requires !s.threads[t].StoreLocked? && !s.threads[t].Closing?
    ensures |Advance(s, t, x).threads| == |s.threads| && Counts(s, Advance(s, t, x), t)
  {
  }

  lemma StoreCounts(s: State, t: nat, x: SessionId)
    requires Legal(s, Move(t, x)) && s.threads[t].StoreLocked?
    ensures |Advance(s, t, x).threads| == |s.threads| && Counts(s, Advance(s, t, x), t)
  {
    StoredValues(s.servers, s.threads[t].server, s.threads[t].session);
  }

  lemma ClosingCounts(s: State, t: nat, x: SessionId)
    requires Legal(s, Move(t, x)) && s.threads[t].Closing?
    ensures |Advance(s, t, x).threads| == |s.threads| && Counts(s, Advance(s, t, x), t)
  {
    var none: map<string, SessionId> := map[];
    assert none.Values == {};
  }

  lemma OnlyOneMoves(s: State, t: nat, x: SessionId)
    requires Legal(s, Move(t, x))
    ensures var s' := Advance(s, t, x);
            |s'.threads| == |s.threads| && s'.threads == s.threads[t := s'.threads[t]]
  {
  }

  lemma MoveCounts(s: State, t: nat, x: SessionId)
    requires Legal(s, Move(t, x))
    ensures |Advance(s, t, x).threads| == |s.threads| && Counts(s, Advance(s, t, x), t)
  {
    var pc := s.threads[t];
    hide Advance, Legal, Counts;
    if HoldsRead(pc) || pc.CallStart? || pc.Calling? {
      CallCounts(s, t, x);
    } else if pc.StoreLocked? {
      StoreCounts(s, t, x);
    } else if pc.Closing? {
      ClosingCounts(s, t, x);
    } else {
      OtherCounts(s, t, x);
    }
  }

  lemma Product(rank: nat, rank': nat, sessions: nat, sessions': nat, close: nat, close': nat)
    requires sessions' <= sessions
    requires (rank' < rank && close' <= close + sessions) || (rank' == rank && close' < close)
    ensures rank' * (sessions' + 1) + close' < rank * (sessions + 1) + close
  {
    Times(rank', sessions' + 1, sessions + 1);
    if rank' < rank {
      Times(sessions + 1, rank' + 1, rank);
      assert (sessions + 1) * (rank' + 1) == rank' * (sessions + 1) + sessions + 1;
    }
  }

  lemma Times(k: nat, a: nat, b: nat)
    requires a <= b
    ensures k * a <= k * b
  {
  }

  lemma MoveSums(s: State, s': State, t: nat)
    requires t < |s.threads| == |s'.threads| && s'.threads == s.threads[t := s'.threads[t]] && Counts(s, s', t)
    ensures Sessions(s') <= Sessions(s)
    ensures var rank, rank' := Sum(s.threads, Rank), Sum(s'.threads, Rank);
            var close, close' := Sum(s.threads, ToClose), Sum(s'.threads, ToClose);
            (rank' < rank && close' <= close + Sessions(s)) || (rank' == rank && close' < close)
  {
    hide Rank, ToClose, ToStore, Sum;
    var pc := s'.threads[t];
    SumMove(s.threads, t, pc, Rank);
    SumMove(s.threads, t, pc, ToClose);
    SumMove(s.threads, t, pc, ToStore);
  }

  lemma MoveWorks(s: State, t: nat, x: SessionId)
    requires Legal(s, Move(t, x))
    ensures Work(Advance(s, t, x)) < Work(s)
  {
    MoveCounts(s, t, x);
    OnlyOneMoves(s, t, x);
    hide Advance, Legal, Counts, Sum, Sessions;
    var s' := Advance(s, t, x);
    MoveSums(s, s', t);
    Product(Sum(s.threads, Rank), Sum(s'.threads, Rank), Sessions(s), Sessions(s'),
            Sum(s.threads, ToClose), Sum(s'.threads, ToClose));
  }

  /** From every state: however the threads are scheduled, they take at most Work(s) steps. */
  lemma {:induction false} MovesEnd(s: State, steps: seq<Step>, u: State)
    requires IsRun(s, steps, u) && forall step :: step in steps ==> step.Move?
    ensures |steps| + Work(u) <= Work(s)
    decreases |steps|
  {
    hide Advance, Work, Legal;
    if steps != [] {
      MoveWorks(s, steps[0].t, steps[0].session);
      MovesEnd(Apply(s, steps[0]), steps[1..], u);
    }
  }

  /**
   * In every interleaving: once no call is added any more, and however the threads are scheduled, all of them finish
   * after at most Work(s) steps.
   */
  lemma EverythingFinishes(before: seq<Step>, s: State, steps: seq<Step>, u: State)
    requires IsRun(INIT, before, s) && IsRun(s, steps, u) && forall step :: step in steps ==> step.Move?
    ensures |steps| <= Work(s)
    ensures AllFinished(u) || exists t, x :: Legal(u, Move(t, x))
  {
    hide IsRun, Work, Legal;
    MovesEnd(s, steps, u);
    RunsConcat(INIT, before, s, steps, u);
    if !AllFinished(u) {
      var t, x := NoDeadlock(before + steps, u);
    }
  }

  // ----- what a finished Close has done ------------------------------------------------------------------------

  predicate Closes(s: State, t: nat) {
    t < |s.threads| && (s.closed || s.threads[t].CloseStart? || s.threads[t].CloseLocked?)
  }

  lemma StepCloses(s: State, step: Step, t: nat)
    requires Closes(s, t) && Legal(s, step)
    ensures Closes(Apply(s, step), t)
  {
  }

  /**
   * In every interleaving: when a Close has returned the flag is set, and when everything has, the shutdown is over,
   * so that exactly the sessions that were in the map have been closed (see ClosedIffInTheMap).
   */
  lemma FinishedCloseHasClosed(before: seq<Step>, s: State, t: nat, steps: seq<Step>, u: State)
    requires IsRun(INIT, before, s) && t < |s.threads| && s.threads[t].CloseStart? && IsRun(s, steps, u)
    ensures t < |u.threads| && (u.threads[t].Finished? ==> u.closed)
    ensures AllFinished(u) ==> ShutDown(u)
  {
    hide Apply, Legal, IsRun;
    forall v, step | Closes(v, t) && Legal(v, step)
      ensures Closes(Apply(v, step), t)
    {
      StepCloses(v, step, t);
    }
    Invariant(s, steps, u, v => Closes(v, t));
  }

  // ----- such a run ----------------------------------------------------------------------------------------------

  function Serving(call: Thread, readers: set<nat>, waitGroup: int): State {
    State([Finished, call], readers, None, false, waitGroup, map["files" := 7], {})
  }

  lemma Stored() returns (steps: seq<Step>)
    ensures IsRun(INIT, steps, State([Finished], {}, None, false, 0, map["files" := 7], {}))
  {
    hide IsRun;
    var none: map<string, SessionId> := map[];
    assert none["files" := 7] == map["files" := 7];
    var s1 := State([StoreStart("files", 7)], {}, None, false, 0, none, {});
    var s2 := State([StoreLocked("files", 7)], {}, Some(0), false, 0, none, {});
    var s3 := State([StoreDone], {}, Some(0), false, 0, map["files" := 7], {});
    steps := LastStep(INIT, Spawn(StoreStart("files", 7)), s1);
    steps := ThenStep(steps, s1, Move(0, 0), s2);
    steps := ThenStep(steps, s2, Move(0, 0), s3);
    steps := ThenStep(steps, s3, Move(0, 0), State([Finished], {}, None, false, 0, map["files" := 7], {}));
  }

  /** A run in which a session is stored and then called. */
  lemma SomeCallIsServed() returns (steps: seq<Step>, s: State)
    ensures IsRun(INIT, steps, s) && s == Serving(Calling(7), {}, 1)
  {
    hide IsRun;
    var s0 := State([Finished], {}, None, false, 0, map["files" := 7], {});
    var s1, s2 := Serving(CallStart("files"), {}, 0), Serving(CallLocked("files"), {1}, 0);
    var s3, s4 := Serving(CallChecked("files"), {1}, 0), Serving(CallFound(7), {1}, 0);
    var s5 := Serving(CallAdmitted(7), {1}, 1);
    s := Serving(Calling(7), {}, 1);
    steps := Stored();
    steps := ThenStep(steps, s0, Spawn(CallStart("files")), s1);
    steps := ThenStep(steps, s1, Move(1, 0), s2);
    steps := ThenStep(steps, s2, Move(1, 0), s3);
    steps := ThenStep(steps, s3, Move(1, 0), s4);
    steps := ThenStep(steps, s4, Move(1, 0), s5);
    assert s5.readers - {1} == {};
    steps := ThenStep(steps, s5, Move(1, 0), s);
  }
}
