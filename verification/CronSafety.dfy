/** When jobs are dispatched, over every run of the cron service. */
module CronSafety {
  import opened Text
  import opened Cron
  import opened CronRuns

  function Gap(s: Schedule): int {
    if s.everyMS.Some? then s.everyMS.value else 0
  }

  /** A one-shot job occurs at most once and not before its time; a periodic job's occurrences keep their distance. */
  predicate Spaced(log: seq<Dispatch>) {
    && (forall i, j :: 0 <= i < j < |log| && log[i].id == log[j].id ==>
          && log[j].schedule.kind != "at"
          && (log[j].schedule.kind == "every" ==> log[i].time + Gap(log[j].schedule) <= log[j].time))
    && (forall d :: d in log && d.schedule.kind == "at" ==> d.schedule.atMS.Some? && d.schedule.atMS.value <= d.time)
  }

  /** An armed job may be dispatched as soon as its time comes. */
  predicate WellArmed(j: Job, log: seq<Dispatch>) {
    j.enabled && j.next.Some? ==>
      && (j.schedule.kind == "at" ==> j.schedule.atMS == j.next && forall d :: d in log ==> d.id != j.id)
      && (j.schedule.kind == "every" ==>
            forall d :: d in log && d.id == j.id ==> d.time + Gap(j.schedule) <= j.next.value)
  }

  predicate AllArmed(jobs: seq<Job>, log: seq<Dispatch>) {
    forall j :: j in jobs ==> WellArmed(j, log)
  }

  predicate Safe(s: State) {
    Named(s) && Spaced(s.collected) && (s.running ==> AllArmed(s.jobs, s.collected))
  }

  /** Arming a job from the clock is safe: its one-shot time is over once it was collected. */
  lemma ComputedIsWellArmed(j: Job, j': Job, now: int, tick: Ticker, log: seq<Dispatch>)
    requires j'.schedule == j.schedule && j'.id == j.id && j'.next == ComputeNextRun(j.schedule, now, tick)
    requires Spaced(log) && forall d :: d in log && d.id == j.id ==> d.schedule == j.schedule && d.time <= now
    ensures WellArmed(j', log)
  {
  }

  lemma AddSafe(s: State, id: string, schedule: Schedule, tick: Ticker)
    requires Safe(s) && id !in s.used
    ensures Safe(AfterAdd(s, id, schedule, tick))
  {
    hide ComputeNextRun, Spaced;
    AddKeepsNames(s, id, schedule, tick);
  }

  lemma RemoveSafe(s: State, id: string)
    requires Safe(s)
    ensures Safe(AfterRemove(s, id))
  {
    hide Spaced, WellArmed, Without, Find, Named;
    RemoveKeepsNames(s, id);
  }

  lemma EnableSafe(s: State, id: string, enabled: bool, tick: Ticker)
    requires Safe(s)
    ensures Safe(AfterEnable(s, id, enabled, tick))
  {
    hide Find, ComputeNextRun, Spaced;
    EnableKeepsNames(s, id, enabled, tick);
    var i := Find(s.jobs, id);
    if i >= 0 && enabled {
      ComputedIsWellArmed(s.jobs[i], Enabled(s.jobs[i], enabled, s.clock, tick), s.clock, tick, s.collected);
    }
  }

  lemma FinishSafe(s: State, e: nat, error: Option<string>, tick: Ticker)
    requires Safe(s) && e < |s.executors| && s.executors[e].current.Some?
    ensures Safe(AfterFinish(s, e, error, tick))
  {
    hide Find, ComputeNextRun, Spaced, Without;
    FinishKeepsNames(s, e, error, tick);
    var run := s.executors[e].current.value;
    var i := Find(s.jobs, run.id);
    if i >= 0 && s.jobs[i].schedule.kind != "at" {
      ComputedIsWellArmed(s.jobs[i], Finished(s.jobs[i], run.start, error, s.clock, tick), s.clock, tick, s.collected);
    }
  }

  lemma StartSafe(s: State, tick: Ticker)
    requires Safe(s)
    ensures Safe(AfterStart(s, tick))
  {
    hide ComputeNextRun, Spaced;
    StartKeepsNames(s, tick);
    if !s.running {
      forall i | 0 <= i < |s.jobs|
        ensures WellArmed(Recomputed(s.jobs[i], s.clock, tick), s.collected)
      {
        if s.jobs[i].enabled {
          ComputedIsWellArmed(s.jobs[i], Recomputed(s.jobs[i], s.clock, tick), s.clock, tick, s.collected);
        }
      }
    }
  }

  lemma {:induction false} DueOnce(jobs: seq<Job>, now: int)
    requires Distinct(jobs)
    ensures forall i, j :: 0 <= i < j < |DueIds(jobs, now)| ==> DueIds(jobs, now)[i] != DueIds(jobs, now)[j]
  {
    if jobs != [] {
      var k := |jobs| - 1;
      DueOnce(jobs[..k], now);
      var before := DueIds(jobs[..k], now);
      forall i | 0 <= i < |before|
        ensures before[i] != jobs[k].id
      {
        assert before[i] in before;
      }
    }
  }

  /** A due job that is well armed may be appended to the log. */
  lemma CollectedSpaced(s: State, ids: seq<string>)
    requires Named(s) && s.running && Spaced(s.collected) && AllArmed(s.jobs, s.collected)
    requires forall i, j :: 0 <= i < j < |ids| ==> ids[i] != ids[j]
    requires forall id :: id in ids ==> Find(s.jobs, id) >= 0 && Due(s.jobs[Find(s.jobs, id)], s.clock)
    ensures Spaced(s.collected + Collected(s.jobs, ids, s.clock))
  {
    hide Find;
    var earlier, added := s.collected, Collected(s.jobs, ids, s.clock);
    var log := earlier + added;
    forall i, j | 0 <= i < j < |log| && log[i].id == log[j].id
      ensures log[j].schedule.kind != "at"
      ensures log[j].schedule.kind == "every" ==> log[i].time + Gap(log[j].schedule) <= log[j].time
    {
      if i < |earlier| <= j {
        var job := s.jobs[Find(s.jobs, log[j].id)];
        assert log[i] in earlier && job in s.jobs && WellArmed(job, earlier);
      }
    }
    forall d | d in added && d.schedule.kind == "at"
      ensures d.schedule.atMS.Some? && d.schedule.atMS.value <= d.time
    {
      assert WellArmed(s.jobs[Find(s.jobs, d.id)], earlier);
    }
  }

  lemma DueFound(jobs: seq<Job>, now: int, id: string)
    requires Distinct(jobs) && id in DueIds(jobs, now)
    ensures Find(jobs, id) >= 0 && Due(jobs[Find(jobs, id)], now)
  {
    hide Find, DueIds;
    var i :| 0 <= i < |jobs| && jobs[i].id == id && Due(jobs[i], now);
    FindsIt(jobs, jobs[i]);
  }

  lemma CollectSafe(s: State, e: nat)
    requires Safe(s) && e < |s.executors| && e !in s.exited
    ensures Safe(AfterCollect(s, e))
  {
    CollectKeepsNames(s, e);
    if s.running {
      hide Find, DueIds, Spaced, Named;
      var ids := DueIds(s.jobs, s.clock);
      DistinctJobs(s);
      DueAreFound(s.jobs, s.clock);
      DueOnce(s.jobs, s.clock);
      forall id | id in ids
        ensures Find(s.jobs, id) >= 0 && Due(s.jobs[Find(s.jobs, id)], s.clock)
      {
        DueFound(s.jobs, s.clock, id);
      }
      CollectedSpaced(s, ids);
      DisarmedSafe(s.jobs, ids, s.collected, Collected(s.jobs, ids, s.clock));
    }
  }

  lemma DistinctJobs(s: State)
    requires Named(s)
    ensures Distinct(s.jobs)
  {
  }

  lemma DisarmedSafe(jobs: seq<Job>, ids: seq<string>, log: seq<Dispatch>, more: seq<Dispatch>)
    requires AllArmed(jobs, log) && forall d :: d in more ==> d.id in ids
    ensures AllArmed(Disarm(jobs, ids), log + more)
  {
    forall i | 0 <= i < |jobs|
      ensures WellArmed(Disarm(jobs, ids)[i], log + more)
    {
      assert WellArmed(jobs[i], log);
    }
  }

  lemma StepSafe(s: State, step: Step, tick: Ticker)
    requires Safe(s) && Legal(s, step)
    ensures Safe(Apply(s, step, tick))
  {
    var t := s.(clock := step.now);
    assert Safe(t);
    StepKeepsNames(s, step, tick);
    hide Safe, Named, AfterAdd, AfterRemove, AfterEnable, AfterCollect, AfterBegin, AfterFinish, AfterStart;
    match step.op
    case Add(id, schedule) => AddSafe(t, id, schedule, tick);
    case Remove(id) => RemoveSafe(t, id);
    case Enable(id, enabled) => EnableSafe(t, id, enabled, tick);
    case Collect(e) => CollectSafe(t, e);
    case Begin(e) => BeginSafe(t, e);
    case Finish(e, error) => FinishSafe(t, e, error, tick);
    case Exit(e) => ExitSafe(t, e);
    case Start => StartSafe(t, tick);
    case Stop => StopSafe(t);
  }

  lemma ExitSafe(s: State, e: nat)
    requires Safe(s) && IsIdle(s, e)
    ensures Safe(s.(exited := s.exited + {e}))
  {
    ExitKeepsNames(s, e);
  }

  lemma BeginSafe(s: State, e: nat)
    requires Safe(s) && e < |s.executors| && s.executors[e].queue != []
    ensures Safe(AfterBegin(s, e))
  {
    BeginKeepsNames(s, e);
  }

  lemma StopSafe(s: State)
    requires Safe(s)
    ensures Safe(s.(running := false))
  {
  }

  /**
   * Over every run, in every interleaving, with jobs toggled and the service restarted at any time: a one-shot job is
   * collected at most once and never before its time, and two collections of a periodic job are at least its period
   * apart.
   */
  lemma CollectionsAreSpaced(s: State, steps: seq<Step>, t: State, tick: Ticker)
    requires Init(s) && IsRun(s, steps, t, tick)
    ensures Safe(t) && Spaced(t.collected)
  {
    hide Apply, Legal, IsRun;
    forall u, step | Safe(u) && Legal(u, step)
      ensures Safe(Apply(u, step, tick))
    {
      StepSafe(u, step, tick);
    }
    Invariant(s, steps, t, tick, u => Safe(u));
  }
}
