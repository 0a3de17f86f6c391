/** What the cron service gets done: armed jobs are collected when their time comes, and collected jobs are called. */
module CronProgress {
  import opened Text
  import opened Cron
  import opened CronRuns
  import opened CronSafety
  import opened CronRestarts

  // ----- when a job is to run ----------------------------------------------------------------------------

  /** The time at which a schedule asks for the next run, as of `now`. */
  predicate RunsNext(s: Schedule, now: int, tick: Ticker, time: int) {
    || (s.kind == "at" && s.atMS == Some(time) && time > now)
    || (s.kind == "every" && s.everyMS.Some? && s.everyMS.value > 0 && time == now + s.everyMS.value)
    || (s.kind == "cron" && s.expr != "" && tick(s.expr, now) == Some(time))
  }

  lemma ComputesRunsNext(s: Schedule, now: int, tick: Ticker, time: int)
    ensures ComputeNextRun(s, now, tick) == Some(time) <==> RunsNext(s, now, tick, time)
  {
  }

  /** The store holds the job, enabled, and it is to run at the time. */
  predicate Armed(s: State, id: string, schedule: Schedule, time: int) {
    exists j :: j in s.jobs && j.id == id && j.schedule == schedule && j.enabled && j.next == Some(time)
  }

  /** The operations after which a job of that schedule is armed: what they find, and what they are. */
  predicate Arms(s: State, op: Op, id: string, schedule: Schedule) {
    match op
    case Add(x, sch) => x == id && sch == schedule
    case Enable(x, enabled) => x == id && enabled && HasJob(s.jobs, id, schedule)
    case Start =>
      !s.running && exists j :: j in s.jobs && j.id == id && j.schedule == schedule && j.enabled
    case Finish(e, _) =>
      && e < |s.executors| && s.executors[e].current.Some? && s.executors[e].current.value.id == id
      && schedule.kind != "at" && exists j :: j in s.jobs && j.id == id && j.schedule == schedule && j.enabled
    case _ => false
  }

  /** Adding, enabling, starting and finishing arm a job for exactly the time that its schedule asks for. */
  lemma ArmedIff(s: State, step: Step, id: string, schedule: Schedule, tick: Ticker, time: int)
    requires Named(s) && Legal(s, step) && Arms(s, step.op, id, schedule)
    ensures Armed(Apply(s, step, tick), id, schedule, time) <==> RunsNext(schedule, step.now, tick, time)
  {
    StepKeepsNames(s, step, tick);
    var t := Apply(s, step, tick);
    var j' := ArmedJob(s, step, id, schedule, tick);
    hide Named, ComputeNextRun, Apply, Legal, RunsNext;
    ComputesRunsNext(schedule, step.now, tick, time);
    if j :| j in t.jobs && j.id == id && j.schedule == schedule && j.enabled && j.next == Some(time) {
      SameJob(t, j, j');
    }
  }

  lemma SameJob(s: State, j: Job, k: Job)
    requires Named(s) && j in s.jobs && k in s.jobs && j.id == k.id
    ensures j == k
  {
  }

  lemma ArmedJob(s: State, step: Step, id: string, schedule: Schedule, tick: Ticker) returns (j': Job)
    requires Named(s) && Legal(s, step) && Arms(s, step.op, id, schedule)
    ensures j' in Apply(s, step, tick).jobs && j'.id == id && j'.schedule == schedule && j'.enabled
    ensures j'.next == ComputeNextRun(schedule, step.now, tick)
  {
    var t := Apply(s, step, tick);
    match step.op
    case Add(_, _) =>
      j' := NewJob(id, schedule, step.now, tick);
      assert t.jobs[|s.jobs|] == j';
    case Enable(_, _) =>
      var j :| j in s.jobs && j.id == id && j.schedule == schedule;
      FindsIt(s.jobs, j);
      j' := Enabled(j, true, step.now, tick);
      assert t.jobs[Find(s.jobs, id)] == j';
    case Start =>
      var j :| j in s.jobs && j.id == id && j.schedule == schedule && j.enabled;
      var i :| 0 <= i < |s.jobs| && s.jobs[i] == j;
      j' := Recomputed(j, step.now, tick);
      assert t.jobs[i] == j';
    case Finish(e, error) =>
      var j :| j in s.jobs && j.id == id && j.schedule == schedule && j.enabled;
      FindsIt(s.jobs, j);
      j' := Finished(j, s.executors[e].current.value.start, error, step.now, tick);
      assert t.jobs[Find(s.jobs, id)] == j';
  }

  // ----- until its time comes ------------------------------------------------------------------------------

  /**
   * The step neither removes, toggles nor finishes the job, does not collect it, and does not arm it afresh, unless for
   * the same one-shot time.
   */
  predicate Spares(s: State, step: Step, id: string, schedule: Schedule, time: int) {
    match step.op
    case Remove(x) => x != id
    case Enable(x, _) => x != id
    case Finish(e, _) => e < |s.executors| && s.executors[e].current.Some? ==> s.executors[e].current.value.id != id
    case Collect(_) => !s.running || step.now < time
    case Start => s.running || (schedule.kind == "at" && schedule.atMS == Some(time) && step.now < time)
    case _ => true
  }

  lemma StaysInStore(jobs: seq<Job>, j: Job, k: Job, id: string, i: int)
    requires j in jobs && j.id != id && i == Find(jobs, id) && i >= 0
    ensures j in jobs[i := k]
  {
    var n :| 0 <= n < |jobs| && jobs[n] == j;
    assert jobs[i := k][n] == j;
  }

  lemma ArmedStays(s: State, step: Step, id: string, schedule: Schedule, time: int, tick: Ticker)
    requires Named(s) && Legal(s, step) && Armed(s, id, schedule, time) && Spares(s, step, id, schedule, time)
    ensures Armed(Apply(s, step, tick), id, schedule, time)
  {
    var j :| j in s.jobs && j.id == id && j.schedule == schedule && j.enabled && j.next == Some(time);
    assert j in Apply(s, step, tick).jobs by { JobStays(s, step, j, time, tick); }
  }

  lemma JobStays(s: State, step: Step, j: Job, time: int, tick: Ticker)
    requires Named(s) && Legal(s, step) && Spares(s, step, j.id, j.schedule, time)
    requires j in s.jobs && j.enabled && j.next == Some(time)
    ensures j in Apply(s, step, tick).jobs
  {
    assert s.disk == s.jobs && Distinct(s.jobs);
    hide Named, Find, Without, ComputeNextRun, DueIds, Disarm, RecomputeAll, FinishIn, EnableIn;
    match step.op
    case Enable(x, enabled) => EnableSpares(s.jobs, j, x, enabled, step.now, tick);
    case Finish(e, error) => FinishSpares(s.jobs, j, s.executors[e].current.value, error, step.now, tick);
    case Collect(_) => CollectSpares(s.jobs, j, if s.running then step.now else time - 1);
    case Start => if !s.running { StartSpares(s.jobs, j, step.now, tick); }
    case _ =>
  }

  lemma EnableSpares(jobs: seq<Job>, j: Job, id: string, enabled: bool, now: int, tick: Ticker)
    requires j in jobs && j.id != id
    ensures j in EnableIn(jobs, id, enabled, now, tick)
  {
    hide Find, ComputeNextRun;
    var i := Find(jobs, id);
    if i >= 0 {
      StaysInStore(jobs, j, Enabled(jobs[i], enabled, now, tick), id, i);
    }
  }

  lemma FinishSpares(jobs: seq<Job>, j: Job, run: Running, error: Option<string>, now: int, tick: Ticker)
    requires j in jobs && j.id != run.id
    ensures j in FinishIn(jobs, run.id, run.start, error, now, tick)
  {
    hide Find, ComputeNextRun;
    var i := Find(jobs, run.id);
    if i >= 0 {
      StaysInStore(jobs, j, Finished(jobs[i], run.start, error, now, tick), run.id, i);
    }
  }

  lemma CollectSpares(jobs: seq<Job>, j: Job, now: int)
    requires Distinct(jobs) && j in jobs && !Due(j, now)
    ensures j in Disarm(jobs, DueIds(jobs, now))
  {
    var i :| 0 <= i < |jobs| && jobs[i] == j;
    assert j.id !in DueIds(jobs, now);
    hide DueIds;
    assert Disarm(jobs, DueIds(jobs, now))[i] == j;
  }

  lemma StartSpares(jobs: seq<Job>, j: Job, now: int, tick: Ticker)
    requires j in jobs && j.schedule.kind == "at" && j.next.Some? && j.schedule.atMS == j.next && now < j.next.value
    ensures j in RecomputeAll(jobs, now, tick)
  {
    var i :| 0 <= i < |jobs| && jobs[i] == j;
    assert RecomputeAll(jobs, now, tick)[i] == j.(next := j.schedule.atMS);
  }

  /** A run every step of which spares the job. */
  predicate SparingRun(s: State, steps: seq<Step>, t: State, id: string, schedule: Schedule, time: int, tick: Ticker)
    decreases |steps|
  {
    if steps == [] then s == t
    else
      && Legal(s, steps[0]) && Spares(s, steps[0], id, schedule, time)
      && SparingRun(Apply(s, steps[0], tick), steps[1..], t, id, schedule, time, tick)
  }

  lemma {:induction false} ArmedThroughout(s: State, steps: seq<Step>, t: State, id: string, schedule: Schedule,
                                           time: int, tick: Ticker)
    requires Named(s) && Armed(s, id, schedule, time) && SparingRun(s, steps, t, id, schedule, time, tick)
    ensures Named(t) && Armed(t, id, schedule, time)
    decreases |steps|
  {
    hide Apply, Legal, Spares, Named, Armed;
    if steps != [] {
      StepKeepsNames(s, steps[0], tick);
      ArmedStays(s, steps[0], id, schedule, time, tick);
      ArmedThroughout(Apply(s, steps[0], tick), steps[1..], t, id, schedule, time, tick);
    }
  }

  /** The run loop has got the job into its batch, the log says so, and the job is not armed any more. */
  predicate Gets(s: State, t: State, e: nat, id: string, schedule: Schedule, now: int) {
    && e < |t.executors| && id in t.executors[e].queue
    && s.collected <= t.collected && Dispatch(id, schedule, now) in t.collected[|s.collected|..]
    && forall j :: j in t.jobs && j.id == id ==> j.next.None?
  }

  lemma LoggedWhenDue(jobs: seq<Job>, now: int, j: Job)
    requires Distinct(jobs) && j in jobs && Due(j, now) && forall id :: id in DueIds(jobs, now) ==> Find(jobs, id) >= 0
    ensures Dispatch(j.id, j.schedule, now) in Collected(jobs, DueIds(jobs, now), now)
  {
    var n :| 0 <= n < |jobs| && jobs[n] == j;
    var ids := DueIds(jobs, now);
    assert j.id in ids;
    FindsIt(jobs, j);
    hide DueIds, Find, Due;
    var i :| 0 <= i < |ids| && ids[i] == j.id;
    assert Collected(jobs, ids, now)[i] == Dispatch(j.id, j.schedule, now);
  }

  lemma CollectLogs(s: State, e: nat, j: Job)
    requires Distinct(s.jobs) && s.running && j in s.jobs && Due(j, s.clock) && e < |s.executors|
    ensures var t := AfterCollect(s, e);
            && s.collected <= t.collected
            && Dispatch(j.id, j.schedule, s.clock) in t.collected[|s.collected|..]
  {
    DueAreFound(s.jobs, s.clock);
    LoggedWhenDue(s.jobs, s.clock, j);
    hide DueIds, Find, Disarm, Due, Collected;
    var more := Collected(s.jobs, DueIds(s.jobs, s.clock), s.clock);
    assert (s.collected + more)[|s.collected|..] == more;
  }

  lemma CollectQueues(s: State, e: nat, now: int, j: Job, tick: Ticker)
    requires s.running && j in s.jobs && Due(j, now) && Legal(s, Step(now, Collect(e)))
    ensures var t := Apply(s, Step(now, Collect(e)), tick);
            && e < |t.executors| && j.id in t.executors[e].queue
            && forall k :: k in t.jobs && k.id == j.id ==> k.next.None?
  {
    var ids := DueIds(s.jobs, now);
    var n :| 0 <= n < |s.jobs| && s.jobs[n] == j;
    assert j.id in ids;
    hide DueIds, Due, Collected;
    DueAreFound(s.jobs, now);
  }

  lemma ArmedIsDue(j: Job, now: int)
    requires j.enabled && j.next.Some? && j.next.value <= now
    ensures Due(j, now)
  {
  }

  lemma CollectGets(s: State, e: nat, now: int, id: string, schedule: Schedule, time: int, tick: Ticker)
    requires Named(s) && s.running && Armed(s, id, schedule, time) && time <= now
    requires Legal(s, Step(now, Collect(e)))
    ensures Gets(s, Apply(s, Step(now, Collect(e)), tick), e, id, schedule, now)
  {
    assert Distinct(s.jobs);
    hide Named, Due, AfterCollect;
    var j :| j in s.jobs && j.id == id && j.schedule == schedule && j.enabled && j.next == Some(time);
    assert Due(j, now) by { ArmedIsDue(j, now); }
    CollectLogs(s.(clock := now), e, j);
    CollectQueues(s, e, now, j, tick);
  }

  /**
   * Over every run, in every interleaving: a job that is added, enabled, started with or armed again after its run, so
   * that its schedule asks for the next run at `time`, is collected by the first tick at or after that time that finds
   * the service running, unless it is removed, toggled, finished by another loop or armed afresh before that.
   */
  lemma ArmedJobsAreCollected(init: State, before: seq<Step>, s: State, step: Step, steps: seq<Step>, t: State, e: nat,
                              now: int, id: string, schedule: Schedule, time: int, tick: Ticker)
    requires Init(init) && IsRun(init, before, s, tick)
    requires Legal(s, step) && Arms(s, step.op, id, schedule) && RunsNext(schedule, step.now, tick, time)
    requires SparingRun(Apply(s, step, tick), steps, t, id, schedule, time, tick)
    requires t.running && time <= now && Legal(t, Step(now, Collect(e)))
    ensures Gets(t, Apply(t, Step(now, Collect(e)), tick), e, id, schedule, now)
  {
    CollectionsAreSpaced(init, before, s, tick);
    assert Named(s) by { SafeIsNamed(s); }
    hide Init, IsRun, Safe, Named, Armed, Apply, Legal, Arms, SparingRun, RunsNext, Gets;
    ArmedIff(s, step, id, schedule, tick, time);
    StepKeepsNames(s, step, tick);
    ArmedThroughout(Apply(s, step, tick), steps, t, id, schedule, time, tick);
    CollectGets(t, e, now, id, schedule, time, tick);
  }

  lemma SafeIsNamed(s: State)
    requires Safe(s)
    ensures Named(s)
  {
  }

  // ----- someone is there to collect --------------------------------------------------------------------------

  /** While the service runs, the run loop of its last start has not returned. */
  predicate LoopAlive(s: State) {
    Named(s) && (s.running ==> s.executors != [] && |s.executors| - 1 !in s.exited)
  }

  lemma StepLoopAlive(s: State, step: Step, tick: Ticker)
    requires LoopAlive(s) && Legal(s, step)
    ensures LoopAlive(Apply(s, step, tick))
  {
    StepKeepsNames(s, step, tick);
    assert ExitedAreIdle(s);
    hide Named, Find, Without, ComputeNextRun, DueIds, Disarm, RecomputeAll, FinishIn, EnableIn;
  }

  /**
   * Over every run, in every interleaving: while the service runs there is a run loop that can take its next step: it
   * may tick, or turn to the next job of its batch, or its handler may return.
   */
  lemma RunningServiceHasALoop(init: State, steps: seq<Step>, s: State, tick: Ticker)
    requires Init(init) && IsRun(init, steps, s, tick) && s.running
    ensures s.executors != []
    ensures var e := |s.executors| - 1;
            || Legal(s, Step(s.clock, Collect(e))) || Legal(s, Step(s.clock, Begin(e)))
            || Legal(s, Step(s.clock, Finish(e, None)))
  {
    hide Apply, Legal, IsRun, LoopAlive;
    forall u, step | LoopAlive(u) && Legal(u, step)
      ensures LoopAlive(Apply(u, step, tick))
    {
      StepLoopAlive(u, step, tick);
    }
    InitIsExclusive(init);
    assert LoopAlive(init) by { StoppedIsAlive(init); }
    Invariant(init, steps, s, tick, u => LoopAlive(u));
    AliveMoves(s);
  }

  lemma StoppedIsAlive(s: State)
    requires Named(s) && !s.running
    ensures LoopAlive(s)
  {
  }

  lemma AliveMoves(s: State)
    requires LoopAlive(s) && s.running
    ensures s.executors != []
    ensures var e := |s.executors| - 1;
            || Legal(s, Step(s.clock, Collect(e))) || Legal(s, Step(s.clock, Begin(e)))
            || Legal(s, Step(s.clock, Finish(e, None)))
  {
    var x := s.executors[|s.executors| - 1];
    if x.current.None? && x.queue == [] {
      assert x == Executor([], None);
    }
  }

  // ----- what is collected is called -------------------------------------------------------------------------

  /** The job stays in the store: it is not removed, nor deleted after its run. */
  predicate Keeps(s: State, step: Step, id: string, schedule: Schedule) {
    match step.op
    case Remove(x) => x != id
    case Finish(e, _) =>
      schedule.kind != "at"
      || (e < |s.executors| && s.executors[e].current.Some? ==> s.executors[e].current.value.id != id)
    case _ => true
  }

  predicate KeepingRun(s: State, steps: seq<Step>, t: State, id: string, schedule: Schedule, tick: Ticker)
    decreases |steps|
  {
    if steps == [] then s == t
    else
      && Legal(s, steps[0]) && Keeps(s, steps[0], id, schedule)
      && KeepingRun(Apply(s, steps[0], tick), steps[1..], t, id, schedule, tick)
  }

  /** The handler has been called for the job since the log had n entries. */
  predicate CalledSince(s: State, n: nat, id: string, schedule: Schedule) {
    exists k :: n <= k < |s.started| && s.started[k].id == id && s.started[k].schedule == schedule
  }

  /** The job waits in the batch of the run loop, or its handler has been called. */
  predicate Pending(s: State, e: nat, n: nat, id: string, schedule: Schedule) {
    && Named(s) && HasJob(s.jobs, id, schedule) && e < |s.executors|
    && (id in s.executors[e].queue || CalledSince(s, n, id, schedule))
  }

  lemma RefitStores(jobs: seq<Job>, jobs': seq<Job>, id: string, schedule: Schedule)
    requires Refit(jobs, jobs') && HasJob(jobs, id, schedule)
    ensures HasJob(jobs', id, schedule)
  {
    var j :| j in jobs && j.id == id && j.schedule == schedule;
    var i :| 0 <= i < |jobs| && jobs[i] == j;
    assert jobs'[i].id == id;
  }

  lemma FinishStores(jobs: seq<Job>, run: Running, error: Option<string>, now: int, tick: Ticker, id: string,
                     schedule: Schedule)
    requires Distinct(jobs) && HasJob(jobs, id, schedule) && (run.id == id ==> schedule.kind != "at")
    ensures HasJob(FinishIn(jobs, run.id, run.start, error, now, tick), id, schedule)
  {
    var j :| j in jobs && j.id == id && j.schedule == schedule;
    if run.id == id {
      FindsIt(jobs, j);
      hide Find, ComputeNextRun;
      assert FinishIn(jobs, id, run.start, error, now, tick)[Find(jobs, id)].schedule == schedule;
    } else {
      FinishSpares(jobs, j, run, error, now, tick);
    }
  }

  lemma AddStores(jobs: seq<Job>, more: Job, id: string, schedule: Schedule)
    requires HasJob(jobs, id, schedule)
    ensures HasJob(jobs + [more], id, schedule)
  {
    var j :| j in jobs && j.id == id && j.schedule == schedule;
    assert j in jobs + [more];
  }

  lemma RemoveStores(jobs: seq<Job>, gone: string, id: string, schedule: Schedule)
    requires HasJob(jobs, id, schedule) && gone != id
    ensures HasJob(Without(jobs, gone), id, schedule)
  {
    hide Without;
    var j :| j in jobs && j.id == id && j.schedule == schedule;
    assert j in Without(jobs, gone);
  }

  lemma EnableStores(s: State, x: string, enabled: bool, id: string, schedule: Schedule, tick: Ticker)
    requires HasJob(s.jobs, id, schedule)
    ensures HasJob(AfterEnable(s, x, enabled, tick).jobs, id, schedule)
  {
    hide EnableIn, HasJob;
    OpRefits(s.jobs, x, enabled, 0, None, s.clock, tick);
    RefitStores(s.jobs, EnableIn(s.jobs, x, enabled, s.clock, tick), id, schedule);
  }

  lemma CollectStores(s: State, e: nat, id: string, schedule: Schedule)
    requires e < |s.executors| && HasJob(s.jobs, id, schedule)
    ensures HasJob(AfterCollect(s, e).jobs, id, schedule)
  {
    hide DueIds, HasJob;
    RefitStores(s.jobs, Disarm(s.jobs, DueIds(s.jobs, s.clock)), id, schedule);
  }

  lemma StartStores(s: State, id: string, schedule: Schedule, tick: Ticker)
    requires HasJob(s.jobs, id, schedule) && s.disk == s.jobs
    ensures HasJob(AfterStart(s, tick).jobs, id, schedule)
  {
    hide RecomputeAll, HasJob;
    OpRefits(s.jobs, "", false, 0, None, s.clock, tick);
    RefitStores(s.jobs, RecomputeAll(s.jobs, s.clock, tick), id, schedule);
  }

  lemma StoredStays(s: State, step: Step, id: string, schedule: Schedule, tick: Ticker)
    requires Named(s) && Legal(s, step) && HasJob(s.jobs, id, schedule) && Keeps(s, step, id, schedule)
    ensures HasJob(Apply(s, step, tick).jobs, id, schedule)
  {
    assert s.disk == s.jobs && Distinct(s.jobs);
    var now := s.(clock := step.now);
    hide Named, Without, FinishIn, HasJob, NewJob, AfterEnable, AfterCollect, AfterStart;
    match step.op
    case Add(x, sch) => AddStores(s.jobs, NewJob(x, sch, step.now, tick), id, schedule);
    case Remove(x) => RemoveStores(s.jobs, x, id, schedule);
    case Enable(x, enabled) => EnableStores(now, x, enabled, id, schedule, tick);
    case Finish(e, error) => FinishStores(s.jobs, s.executors[e].current.value, error, step.now, tick, id, schedule);
    case Collect(e) => CollectStores(now, e, id, schedule);
    case Start => StartStores(now, id, schedule, tick);
    case _ =>
  }

  lemma LogGrows(s: State, step: Step, tick: Ticker)
    requires Legal(s, step)
    ensures s.started <= Apply(s, step, tick).started
  {
    hide Find, Without, ComputeNextRun, DueIds, Disarm, RecomputeAll, FinishIn, EnableIn;
  }

  lemma BeginCalls(s: State, e: nat, now: int, id: string, schedule: Schedule, tick: Ticker)
    requires Named(s) && Legal(s, Step(now, Begin(e))) && HasJob(s.jobs, id, schedule) && s.executors[e].queue[0] == id
    ensures CalledSince(Apply(s, Step(now, Begin(e)), tick), |s.started|, id, schedule)
  {
    var j :| j in s.jobs && j.id == id && j.schedule == schedule;
    FindsIt(s.jobs, j);
    hide Find, Named;
    var t := Apply(s, Step(now, Begin(e)), tick);
    assert t.started[|s.started|] == Dispatch(id, schedule, now);
  }

  lemma WaitsOn(s: State, step: Step, e: nat, id: string, tick: Ticker)
    requires Legal(s, step) && e < |s.executors| && id in s.executors[e].queue
    requires !(step.op == Begin(e) && s.executors[e].queue[0] == id)
    ensures var t := Apply(s, step, tick); e < |t.executors| && id in t.executors[e].queue
  {
    hide Find, Without, ComputeNextRun, DueIds, Disarm, RecomputeAll, FinishIn, EnableIn;
  }

  lemma StepPending(s: State, step: Step, e: nat, n: nat, id: string, schedule: Schedule, tick: Ticker)
    requires Pending(s, e, n, id, schedule) && n <= |s.started| && Legal(s, step) && Keeps(s, step, id, schedule)
    ensures var t := Apply(s, step, tick); Pending(t, e, n, id, schedule) && n <= |t.started|
  {
    StepKeepsNames(s, step, tick);
    StoredStays(s, step, id, schedule, tick);
    LogGrows(s, step, tick);
    StepAddsLoops(s, step, tick);
    hide Named, HasJob, Apply, Keeps, Orderly;
    if id in s.executors[e].queue {
      if step.op == Begin(e) && s.executors[e].queue[0] == id {
        BeginCalls(s, e, step.now, id, schedule, tick);
      } else {
        WaitsOn(s, step, e, id, tick);
      }
    }
  }

  lemma {:induction false} PendingThroughout(s: State, steps: seq<Step>, t: State, e: nat, n: nat, id: string,
                                             schedule: Schedule, tick: Ticker)
    requires Pending(s, e, n, id, schedule) && n <= |s.started|
    requires KeepingRun(s, steps, t, id, schedule, tick)
    ensures Pending(t, e, n, id, schedule)
    decreases |steps|
  {
    hide Apply, Legal, Keeps, Pending;
    if steps != [] {
      StepPending(s, steps[0], e, n, id, schedule, tick);
      PendingThroughout(Apply(s, steps[0], tick), steps[1..], t, e, n, id, schedule, tick);
    }
  }

  /**
   * Over every run, in every interleaving: a job in the batch of a run loop that stays in the store has had its handler
   * called by the time the batch does not hold it any more; and a loop with a batch can always go on.
   */
  lemma CollectedJobsAreCalled(init: State, before: seq<Step>, s: State, steps: seq<Step>, t: State, e: nat,
                               id: string, schedule: Schedule, tick: Ticker)
    requires Init(init) && IsRun(init, before, s, tick)
    requires e < |s.executors| && id in s.executors[e].queue && HasJob(s.jobs, id, schedule)
    requires KeepingRun(s, steps, t, id, schedule, tick)
    ensures e < |t.executors| && (id !in t.executors[e].queue ==> CalledSince(t, |s.started|, id, schedule))
    ensures id in t.executors[e].queue ==>
              Legal(t, Step(t.clock, Begin(e))) || Legal(t, Step(t.clock, Finish(e, None)))
  {
    CollectionsAreSpaced(init, before, s, tick);
    SafeIsNamed(s);
    hide Init, IsRun, Safe, Named, HasJob, KeepingRun;
    PendingThroughout(s, steps, t, e, |s.started|, id, schedule, tick);
  }

  // ----- a job that is switched off ----------------------------------------------------------------------------

  /** The job has been handed out, and is now gone or disabled. */
  predicate Off(s: State, id: string) {
    id in s.used && forall j :: j in s.jobs && j.id == id ==> !j.enabled
  }

  lemma StepOff(s: State, step: Step, id: string, tick: Ticker)
    requires Named(s) && Off(s, id) && Legal(s, step) && step.op != Enable(id, true)
    ensures Off(Apply(s, step, tick), id)
  {
    assert s.disk == s.jobs;
    hide Named, Find, Without, ComputeNextRun, DueIds;
  }

  lemma StepCollectsOthers(s: State, step: Step, id: string, tick: Ticker)
    requires Off(s, id) && Legal(s, step)
    ensures s.collected <= Apply(s, step, tick).collected
    ensures forall d :: d in Apply(s, step, tick).collected[|s.collected|..] ==> d.id != id
  {
    hide AfterCollect, Find, Without, RecomputeAll, FinishIn, EnableIn;
    match step.op
    case Collect(e) => CollectsOthers(s.(clock := step.now), e, id);
    case _ =>
  }

  lemma CollectsOthers(s: State, e: nat, id: string)
    requires e < |s.executors| && forall j :: j in s.jobs && j.id == id ==> !j.enabled
    ensures s.collected <= AfterCollect(s, e).collected
    ensures forall d :: d in AfterCollect(s, e).collected[|s.collected|..] ==> d.id != id
  {
    if s.running {
      DueAreFound(s.jobs, s.clock);
      var ids := DueIds(s.jobs, s.clock);
      assert id !in ids;
      hide DueIds, Find, Disarm;
      var more := Collected(s.jobs, ids, s.clock);
      assert (s.collected + more)[|s.collected|..] == more;
    }
  }

  /** Over every run, in every interleaving: a job that was removed or disabled is not collected until it is enabled. */
  lemma {:induction false} OffIsNotCollected(s: State, steps: seq<Step>, t: State, id: string, tick: Ticker)
    requires Named(s) && Off(s, id) && IsRun(s, steps, t, tick)
    requires forall step :: step in steps ==> step.op != Enable(id, true)
    ensures s.collected <= t.collected && forall d :: d in t.collected[|s.collected|..] ==> d.id != id
    decreases |steps|
  {
    hide Apply, Legal, Named, Off;
    if steps != [] {
      var u := Apply(s, steps[0], tick);
      StepKeepsNames(s, steps[0], tick);
      StepOff(s, steps[0], id, tick);
      StepCollectsOthers(s, steps[0], id, tick);
      OffIsNotCollected(u, steps[1..], t, id, tick);
      assert t.collected[|s.collected|..] == u.collected[|s.collected|..] + t.collected[|u.collected|..];
    }
  }

  // ----- what a run leaves behind ------------------------------------------------------------------------------

  /**
   * When a handler has returned: a one-shot job that is to be deleted is gone; any other bears the start and the error
   * of that run, and a one-shot one among them is switched off for good.
   */
  lemma FinishRecords(s: State, e: nat, error: Option<string>, now: int, j: Job, tick: Ticker)
    requires Named(s) && Legal(s, Step(now, Finish(e, error)))
    requires j in s.jobs && j.id == s.executors[e].current.value.id
    ensures var t := Apply(s, Step(now, Finish(e, error)), tick);
            if j.schedule.kind == "at" && j.deleteAfterRun then forall k :: k in t.jobs ==> k.id != j.id
            else exists k :: k in t.jobs && k.id == j.id && k.lastRun == Some(s.executors[e].current.value.start)
                             && k.lastError == error && (j.schedule.kind == "at" ==> !k.enabled && k.next.None?)
  {
    FindsIt(s.jobs, j);
    hide Find, ComputeNextRun, Without;
    var t := Apply(s, Step(now, Finish(e, error)), tick);
    if j.schedule.kind != "at" || !j.deleteAfterRun {
      assert t.jobs[Find(s.jobs, j.id)].id == j.id;
    }
  }
}
