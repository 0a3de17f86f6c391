/** How far apart two calls of a periodic job's handler are, with any number of run loops. */
module CronRestarts {
  import opened Text
  import opened Cron
  import opened CronRuns
  import opened CronSafety

  predicate Apart(started: seq<Dispatch>) {
    forall i, j :: 0 <= i < j < |started| && started[i].id == started[j].id && started[j].schedule.kind == "every" ==>
      started[i].time + Gap(started[j].schedule) <= started[j].time
  }

  /** All calls of the job so far lie at least its period before the time. */
  predicate Over(started: seq<Dispatch>, id: string, schedule: Schedule, time: int) {
    schedule.kind == "every" ==> forall d :: d in started && d.id == id ==> d.time + Gap(schedule) <= time
  }

  predicate Ready(j: Job, started: seq<Dispatch>) {
    j.enabled && j.next.Some? ==> Over(started, j.id, j.schedule, j.next.value)
  }

  lemma ComputedIsReady(j: Job, now: int, tick: Ticker, started: seq<Dispatch>)
    requires forall d :: d in started ==> d.time <= now
    requires j.next == ComputeNextRun(j.schedule, now, tick)
    ensures Ready(j, started)
  {
  }

  lemma ApartMore(started: seq<Dispatch>, d: Dispatch)
    requires Apart(started) && Over(started, d.id, d.schedule, d.time)
    ensures Apart(started + [d])
  {
  }

  /** The job is in the batch of the executor, waiting or being run. */
  predicate Busy(x: Executor, id: string) {
    id in x.queue || (x.current.Some? && x.current.value.id == id)
  }

  predicate Periodic(s: Schedule) { s.kind == "every" && Gap(s) > 0 }

  predicate BusyAnywhere(executors: seq<Executor>, id: string) {
    exists e :: 0 <= e < |executors| && Busy(executors[e], id)
  }

  /** There are two run loops that have not returned. */
  predicate Several(executors: seq<Executor>, exited: set<nat>) {
    exists e, f :: 0 <= e < f < |executors| && e !in exited && f !in exited
  }

  /**
   * The step arms no periodic job while a run loop is busy with it. Enabling such a job does no harm as long as there
   * is no second run loop to collect it, or the service is stopped.
   */
  predicate Orderly(s: State, step: Step) {
    match step.op
    case Enable(id, enabled) =>
      enabled && s.running && Several(s.executors, s.exited) ==>
        forall j :: j in s.jobs && j.id == id && Periodic(j.schedule) ==> !BusyAnywhere(s.executors, id)
    case Start =>
      s.running || forall j :: j in s.jobs && j.enabled && Periodic(j.schedule) ==> !BusyAnywhere(s.executors, j.id)
    case _ => true
  }

  predicate IsOrderlyRun(s: State, steps: seq<Step>, t: State, tick: Ticker)
    decreases |steps|
  {
    if steps == [] then s == t
    else Legal(s, steps[0]) && Orderly(s, steps[0]) && IsOrderlyRun(Apply(s, steps[0], tick), steps[1..], t, tick)
  }

  // ----- what orderly steps keep -----------------------------------------------------------------------

  predicate Tidy(x: Executor) {
    && (forall i, j :: 0 <= i < j < |x.queue| ==> x.queue[i] != x.queue[j])
    && (x.current.Some? ==> x.current.value.id !in x.queue)
  }

  /**
   * At most one run loop is busy with a periodic job. What waits in a batch, and what is armed outside all batches,
   * keeps its distance; with several run loops, what is armed is outside all batches.
   */
  predicate Held(j: Job, executors: seq<Executor>, exited: set<nat>, started: seq<Dispatch>, clock: int,
                 running: bool)
  {
    Periodic(j.schedule) ==>
      && (forall e, f :: 0 <= e < f < |executors| && Busy(executors[e], j.id) ==> !Busy(executors[f], j.id))
      && (forall e :: 0 <= e < |executors| && j.id in executors[e].queue ==> Over(started, j.id, j.schedule, clock))
      && (running && !BusyAnywhere(executors, j.id) ==> Ready(j, started))
      && (running && Several(executors, exited) && j.enabled && j.next.Some? ==> !BusyAnywhere(executors, j.id))
  }

  predicate AllHeld(jobs: seq<Job>, executors: seq<Executor>, exited: set<nat>, started: seq<Dispatch>, clock: int,
                    running: bool)
  {
    forall j :: j in jobs ==> Held(j, executors, exited, started, clock, running)
  }

  ghost predicate Exclusive(s: State) {
    && Apart(s.started)
    && (forall e :: 0 <= e < |s.executors| ==> Tidy(s.executors[e]))
    && (forall id :: BusyAnywhere(s.executors, id) ==> id in s.used)
    && AllHeld(s.jobs, s.executors, s.exited, s.started, s.clock, s.running)
  }

  lemma ExclusiveTick(s: State, now: int)
    requires Exclusive(s) && now >= s.clock
    ensures Exclusive(s.(clock := now))
  {
    hide BusyAnywhere;
    forall j | j in s.jobs
      ensures Held(j, s.executors, s.exited, s.started, now, s.running)
    {
      assert Held(j, s.executors, s.exited, s.started, s.clock, s.running);
    }
  }

  lemma ExclusiveAdd(s: State, id: string, schedule: Schedule, tick: Ticker)
    requires Exclusive(s) && Named(s) && id !in s.used
    ensures Exclusive(AfterAdd(s, id, schedule, tick))
  {
    hide ComputeNextRun, Apart, Tidy, BusyAnywhere;
    var j := NewJob(id, schedule, s.clock, tick);
    assert !BusyAnywhere(s.executors, id);
    IdleIsHeld(j, s.executors, s.exited, s.started, s.clock, s.running);
  }

  lemma IdleIsHeld(j: Job, executors: seq<Executor>, exited: set<nat>, started: seq<Dispatch>, clock: int,
                   running: bool)
    requires !BusyAnywhere(executors, j.id) && Ready(j, started)
    ensures Held(j, executors, exited, started, clock, running)
  {
    hide Ready, Over;
    assert forall e :: 0 <= e < |executors| ==> !Busy(executors[e], j.id);
  }

  lemma ExclusiveRemove(s: State, id: string)
    requires Exclusive(s)
    ensures Exclusive(AfterRemove(s, id))
  {
    hide Find, Without, Apart, Tidy, BusyAnywhere, Held;
  }

  lemma ExclusiveJob(s: State, i: nat, j: Job)
    requires Exclusive(s) && i < |s.jobs| && Held(j, s.executors, s.exited, s.started, s.clock, s.running)
    ensures Exclusive(s.(jobs := s.jobs[i := j], disk := s.jobs[i := j]))
  {
    hide Apart, Tidy, BusyAnywhere, Held;
  }

  lemma ExclusiveEnable(s: State, id: string, enabled: bool, tick: Ticker)
    requires Exclusive(s) && Named(s) && Orderly(s, Step(s.clock, Enable(id, enabled)))
    ensures Exclusive(AfterEnable(s, id, enabled, tick))
  {
    hide Find, ComputeNextRun, Apart, Tidy, BusyAnywhere;
    var i := Find(s.jobs, id);
    if i >= 0 {
      var j := Enabled(s.jobs[i], enabled, s.clock, tick);
      assert Held(s.jobs[i], s.executors, s.exited, s.started, s.clock, s.running);
      if enabled {
        ComputedIsReady(j, s.clock, tick, s.started);
      }
      ExclusiveJob(s, i, j);
    }
  }

  lemma ExclusiveStart(s: State, tick: Ticker)
    requires Exclusive(s) && Named(s) && !s.running && Orderly(s, Step(s.clock, Start))
    ensures Exclusive(AfterStart(s, tick))
  {
    hide ComputeNextRun, Apart, BusyAnywhere, Held;
    var executors := s.executors + [Executor([], None)];
    forall id
      ensures BusyAnywhere(executors, id) <==> BusyAnywhere(s.executors, id)
    {
      OneMoreIdle(s.executors, id);
    }
    forall i | 0 <= i < |s.jobs|
      ensures Held(Recomputed(s.jobs[i], s.clock, tick), executors, s.exited, s.started, s.clock, true)
    {
      var j := Recomputed(s.jobs[i], s.clock, tick);
      assert Held(s.jobs[i], s.executors, s.exited, s.started, s.clock, false);
      if Periodic(j.schedule) && j.enabled {
        ComputedIsReady(j, s.clock, tick, s.started);
        IdleIsHeld(j, executors, s.exited, s.started, s.clock, true);
      } else {
        HeldAfterStart(j, s.executors, s.exited, s.started, s.clock);
      }
    }
  }

  lemma OneMoreIdle(executors: seq<Executor>, id: string)
    ensures BusyAnywhere(executors + [Executor([], None)], id) <==> BusyAnywhere(executors, id)
  {
    var more := executors + [Executor([], None)];
    if BusyAnywhere(executors, id) {
      var e :| 0 <= e < |executors| && Busy(executors[e], id);
      assert Busy(more[e], id);
    }
  }

  lemma HeldAfterStart(j: Job, executors: seq<Executor>, exited: set<nat>, started: seq<Dispatch>, clock: int)
    requires Periodic(j.schedule) ==> !j.enabled && Held(j, executors, exited, started, clock, false)
    ensures Held(j, executors + [Executor([], None)], exited, started, clock, true)
  {
    hide Over;
  }

  /** A run loop that stays as busy as it was with a job leaves it as it was. */
  lemma HeldAsBefore(j: Job, executors: seq<Executor>, exited: set<nat>, e: nat, x: Executor, started: seq<Dispatch>,
                     clock: int, running: bool)
    requires e < |executors| && Held(j, executors, exited, started, clock, running)
    requires Busy(x, j.id) <==> Busy(executors[e], j.id)
    requires j.id in x.queue ==> j.id in executors[e].queue
    ensures Held(j, executors[e := x], exited, started, clock, running)
  {
    hide Over, Ready, Busy;
    BusyLess(executors, e, x, j.id);
    assert executors == executors[e := x][e := executors[e]];
    BusyLess(executors[e := x], e, executors[e], j.id);
  }

  lemma BusyLess(executors: seq<Executor>, e: nat, x: Executor, id: string)
    requires e < |executors| && (Busy(x, id) ==> Busy(executors[e], id))
    ensures BusyAnywhere(executors[e := x], id) ==> BusyAnywhere(executors, id)
  {
    hide Busy;
    var less := executors[e := x];
    if BusyAnywhere(less, id) {
      var f :| 0 <= f < |less| && Busy(less[f], id);
      assert Busy(executors[f], id);
    }
  }

  lemma ExclusiveFinish(s: State, e: nat, error: Option<string>, tick: Ticker)
    requires Exclusive(s) && Named(s) && e < |s.executors| && s.executors[e].current.Some?
    ensures Exclusive(AfterFinish(s, e, error, tick))
  {
    hide Find, Without, ComputeNextRun, Apart, Held, BusyAnywhere;
    var run := s.executors[e].current.value;
    var x := Executor(s.executors[e].queue, None);
    var t := AfterFinish(s, e, error, tick);
    var i := Find(s.jobs, run.id);
    forall id | BusyAnywhere(t.executors, id)
      ensures id in s.used
    {
      BusyLess(s.executors, e, x, id);
    }
    forall j | j in s.jobs && j.id != run.id
      ensures Held(j, t.executors, t.exited, s.started, s.clock, s.running)
    {
      HeldAsBefore(j, s.executors, s.exited, e, x, s.started, s.clock, s.running);
    }
    if i >= 0 && s.jobs[i].schedule.kind != "at" {
      var j := Finished(s.jobs[i], run.start, error, s.clock, tick);
      assert Held(s.jobs[i], s.executors, s.exited, s.started, s.clock, s.running);
      ComputedIsReady(j, s.clock, tick, s.started);
      if Periodic(j.schedule) {
        NoLongerBusy(s.jobs[i], s, e);
        IdleIsHeld(j, t.executors, t.exited, s.started, s.clock, s.running);
      } else {
        assert Held(j, t.executors, t.exited, s.started, s.clock, s.running) by { NotPeriodicIsHeld(j, t); }
      }
    } else if i >= 0 {
      NotPeriodicIsHeld(Finished(s.jobs[i], run.start, error, s.clock, tick), t);
    }
  }

  lemma NotPeriodicIsHeld(j: Job, s: State)
    requires !Periodic(j.schedule)
    ensures Held(j, s.executors, s.exited, s.started, s.clock, s.running)
  {
  }

  lemma NoLongerBusy(j: Job, s: State, e: nat)
    requires e < |s.executors| && Tidy(s.executors[e]) && Periodic(j.schedule)
    requires Held(j, s.executors, s.exited, s.started, s.clock, s.running)
    requires s.executors[e].current.Some? && s.executors[e].current.value.id == j.id
    ensures !BusyAnywhere(s.executors[e := Executor(s.executors[e].queue, None)], j.id)
  {
    hide Ready, Over;
  }

  lemma ExclusiveCollect(s: State, e: nat)
    requires Exclusive(s) && Named(s) && IsIdle(s, e) && e !in s.exited
    ensures Exclusive(AfterCollect(s, e))
  {
    hide Find, DueIds, Apart, Held, BusyAnywhere, Distinct;
    if s.running {
      DueAreFound(s.jobs, s.clock);
      var ids := DueIds(s.jobs, s.clock);
      DueOnce(s.jobs, s.clock);
      var x := Executor(ids, None);
      forall id | BusyAnywhere(s.executors[e := x], id)
        ensures id in s.used
      {
        BusyMore(s.executors, e, ids, id);
        if id in ids {
          assert s.jobs[Find(s.jobs, id)] in s.jobs;
        }
      }
      forall i | 0 <= i < |s.jobs|
        ensures Held(Disarm(s.jobs, ids)[i], s.executors[e := x], s.exited, s.started, s.clock, true)
      {
        var j := s.jobs[i];
        assert Held(j, s.executors, s.exited, s.started, s.clock, true);
        if j.id in ids {
          DueFound(s.jobs, s.clock, j.id);
          FindsIt(s.jobs, j);
          HeldWhenCollected(j, s, e, ids);
        } else {
          HeldAsBefore(j, s.executors, s.exited, e, x, s.started, s.clock, true);
        }
      }
    }
  }

  lemma BusyMore(executors: seq<Executor>, e: nat, ids: seq<string>, id: string)
    requires e < |executors| && BusyAnywhere(executors[e := Executor(ids, None)], id)
    ensures id in ids || BusyAnywhere(executors, id)
  {
    var more := executors[e := Executor(ids, None)];
    var f :| 0 <= f < |more| && Busy(more[f], id);
    if f != e {
      assert Busy(executors[f], id);
    }
  }

  /** A busy run loop has not returned. */
  lemma BusyElsewhere(s: State, e: nat, id: string)
    requires ExitedAreIdle(s) && IsIdle(s, e) && e !in s.exited
    ensures BusyAnywhere(s.executors, id) ==> Several(s.executors, s.exited)
  {
    if f: nat :| f < |s.executors| && Busy(s.executors[f], id) {
      assert f !in s.exited && e !in s.exited;
    }
  }

  lemma HeldWhenCollected(j: Job, s: State, e: nat, ids: seq<string>)
    requires e < |s.executors| && Held(j, s.executors, s.exited, s.started, s.clock, true) && Due(j, s.clock)
    requires s.executors[e] == Executor([], None) && e !in s.exited && ExitedAreIdle(s)
    ensures Held(j.(next := None), s.executors[e := Executor(ids, None)], s.exited, s.started, s.clock, true)
  {
    if Periodic(j.schedule) {
      BusyElsewhere(s, e, j.id);
      assert forall f :: 0 <= f < |s.executors| ==> !Busy(s.executors[f], j.id);
    }
  }

  lemma ExclusiveBegin(s: State, e: nat)
    requires Exclusive(s) && Named(s) && e < |s.executors| && s.executors[e].queue != [] && s.executors[e].current.None?
    ensures Exclusive(AfterBegin(s, e))
  {
    hide Find, Apart, Held, BusyAnywhere;
    var id, t := s.executors[e].queue[0], AfterBegin(s, e);
    var x := t.executors[e];
    assert Tidy(s.executors[e]) && t.executors == s.executors[e := x];
    forall id | BusyAnywhere(t.executors, id)
      ensures id in s.used
    {
      BusyLess(s.executors, e, x, id);
    }
    forall j | j in s.jobs && (j.id != id || Find(s.jobs, id) >= 0)
      ensures Held(j, t.executors, t.exited, s.started, s.clock, s.running)
    {
      HeldAsBefore(j, s.executors, s.exited, e, x, s.started, s.clock, s.running);
    }
    if Find(s.jobs, id) >= 0 {
      var job := s.jobs[Find(s.jobs, id)];
      var d := Dispatch(id, job.schedule, s.clock);
      assert Over(s.started, id, job.schedule, s.clock) by { OverNow(job, s, e); }
      ApartMore(s.started, d);
      forall j | j in s.jobs
        ensures Held(j, t.executors, t.exited, t.started, s.clock, s.running)
      {
        FindsIt(s.jobs, j);
        if j.id == id {
          HeldWhenCalled(j, s, e);
        } else {
          HeldByOthers(j, t.executors, t.exited, s.started, d, s.clock, s.running);
        }
      }
    }
  }

  lemma OverNow(job: Job, s: State, e: nat)
    requires Named(s) && e < |s.executors| && job.id in s.executors[e].queue
    requires Held(job, s.executors, s.exited, s.started, s.clock, s.running)
    ensures Over(s.started, job.id, job.schedule, s.clock)
  {
  }

  lemma HeldWhenCalled(j: Job, s: State, e: nat)
    requires e < |s.executors| && s.executors[e].queue != [] && s.executors[e].queue[0] == j.id && Tidy(s.executors[e])
    requires Held(j, s.executors, s.exited, s.started, s.clock, s.running)
    ensures var x := Executor(s.executors[e].queue[1..], Some(Running(j.id, s.clock)));
            Held(j, s.executors[e := x], s.exited, s.started + [Dispatch(j.id, j.schedule, s.clock)], s.clock,
                 s.running)
  {
    var x := Executor(s.executors[e].queue[1..], Some(Running(j.id, s.clock)));
    var executors := s.executors[e := x];
    assert Busy(s.executors[e], j.id) && BusyAnywhere(s.executors, j.id);
    assert Busy(executors[e], j.id) && BusyAnywhere(executors, j.id);
  }

  lemma HeldByOthers(j: Job, executors: seq<Executor>, exited: set<nat>, started: seq<Dispatch>, d: Dispatch,
                     clock: int, running: bool)
    requires Held(j, executors, exited, started, clock, running) && d.id != j.id
    ensures Held(j, executors, exited, started + [d], clock, running)
  {
    hide BusyAnywhere;
  }

  lemma StepExclusive(s: State, step: Step, tick: Ticker)
    requires Named(s) && Exclusive(s) && Legal(s, step) && Orderly(s, step)
    ensures Exclusive(Apply(s, step, tick))
  {
    var t := s.(clock := step.now);
    assert Named(t);
    ExclusiveTick(s, step.now);
    hide Named, AfterAdd, AfterRemove, AfterEnable, AfterCollect, AfterBegin, AfterFinish, BusyAnywhere, AllHeld, Apart;
    match step.op
    case Add(id, schedule) => ExclusiveAdd(t, id, schedule, tick);
    case Remove(id) => ExclusiveRemove(t, id);
    case Enable(id, enabled) => ExclusiveEnable(t, id, enabled, tick);
    case Collect(e) => ExclusiveCollect(t, e);
    case Begin(e) => ExclusiveBegin(t, e);
    case Finish(e, error) => ExclusiveFinish(t, e, error, tick);
    case Exit(e) => ExclusiveExit(t, e);
    case Start => if !s.running { ExclusiveStart(t, tick); }
    case Stop => ExclusiveStop(t);
  }

  lemma ExclusiveExit(s: State, e: nat)
    requires Exclusive(s)
    ensures Exclusive(s.(exited := s.exited + {e}))
  {
    hide BusyAnywhere, Apart, Ready, Over, Busy;
    forall j | j in s.jobs
      ensures Held(j, s.executors, s.exited + {e}, s.started, s.clock, s.running)
    {
      assert Held(j, s.executors, s.exited, s.started, s.clock, s.running);
    }
  }

  lemma ExclusiveStop(s: State)
    requires Exclusive(s)
    ensures Exclusive(s.(running := false))
  {
    hide BusyAnywhere, Apart, Ready, Over;
    forall j | j in s.jobs
      ensures Held(j, s.executors, s.exited, s.started, s.clock, false)
    {
      assert Held(j, s.executors, s.exited, s.started, s.clock, s.running);
    }
  }

  lemma {:induction false} OrderlyRunIsExclusive(s: State, steps: seq<Step>, t: State, tick: Ticker)
    requires IsOrderlyRun(s, steps, t, tick) && Named(s) && Exclusive(s)
    ensures Named(t) && Exclusive(t)
    decreases |steps|
  {
    hide Apply, Legal, Orderly, Named, Exclusive;
    if steps != [] {
      StepKeepsNames(s, steps[0], tick);
      StepExclusive(s, steps[0], tick);
      OrderlyRunIsExclusive(Apply(s, steps[0], tick), steps[1..], t, tick);
    }
  }

  lemma InitIsExclusive(s: State)
    requires Init(s)
    ensures Named(s) && Exclusive(s)
  {
  }

  /**
   * However often the service is restarted: two calls of a periodic job are at least its period apart, provided that
   * no job is armed by a restart, or with several run loops by enabling it, while a run loop is busy with it.
   */
  lemma OrderlyRunsKeepPeriods(s: State, steps: seq<Step>, t: State, tick: Ticker)
    requires Init(s) && IsOrderlyRun(s, steps, t, tick)
    ensures Apart(t.started)
  {
    InitIsExclusive(s);
    hide Init, IsOrderlyRun;
    OrderlyRunIsExclusive(s, steps, t, tick);
  }

  lemma StepAddsLoops(s: State, step: Step, tick: Ticker)
    requires Legal(s, step)
    ensures |s.executors| <= |Apply(s, step, tick).executors|
    ensures |Apply(s, step, tick).executors| <= 1 ==> Orderly(s, step)
  {
    hide Find, Without, FinishIn, EnableIn, RecomputeAll, Disarm, DueIds, Periodic;
  }

  lemma {:induction false} OneLoopIsOrderly(s: State, steps: seq<Step>, t: State, tick: Ticker)
    requires IsRun(s, steps, t, tick)
    ensures |s.executors| <= |t.executors|
    ensures |t.executors| <= 1 ==> IsOrderlyRun(s, steps, t, tick)
    decreases |steps|
  {
    hide Apply, Legal, Orderly;
    if steps != [] {
      StepAddsLoops(s, steps[0], tick);
      OneLoopIsOrderly(Apply(s, steps[0], tick), steps[1..], t, tick);
    }
  }

  /**
   * While the service has been started at most once, two calls of a periodic job are at least its period apart,
   * even if the job is toggled while it waits or runs.
   */
  lemma OneLoopKeepsPeriods(s: State, steps: seq<Step>, t: State, tick: Ticker)
    requires Init(s) && IsRun(s, steps, t, tick) && |t.executors| <= 1
    ensures Apart(t.started)
  {
    hide IsRun, IsOrderlyRun, Init;
    OneLoopIsOrderly(s, steps, t, tick);
    OrderlyRunsKeepPeriods(s, steps, t, tick);
  }
}
