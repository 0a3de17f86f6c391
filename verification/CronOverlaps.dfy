/** Arming a periodic job while a run loop is busy with it: how the period comes to be broken, and exactly when. */
module CronOverlaps {
  import opened Text
  import opened Cron
  import opened CronRuns
  import opened CronSafety
  import opened CronRestarts

  lemma {:induction false} Append(s: State, first: seq<Step>, u: State, second: seq<Step>, t: State, tick: Ticker)
    requires IsOrderlyRun(s, first, u, tick) && IsOrderlyRun(u, second, t, tick)
    ensures IsOrderlyRun(s, first + second, t, tick)
    decreases |first|
  {
    hide Apply, Legal, Orderly;
    if first == [] {
      assert first + second == second;
    } else {
      assert (first + second)[1..] == first[1..] + second;
      Append(Apply(s, first[0], tick), first[1..], u, second, t, tick);
    }
  }

  lemma Once(s: State, step: Step, tick: Ticker)
    requires Legal(s, step) && Orderly(s, step)
    ensures IsOrderlyRun(s, [step], Apply(s, step, tick), tick)
  {
    hide Apply, Legal, Orderly;
    assert [step][1..] == [];
  }

  /** Everything but the e-th run loop is as it was. */
  predicate OthersWait(executors: seq<Executor>, executors': seq<Executor>, e: nat) {
    |executors'| == |executors| && forall f :: 0 <= f < |executors| && f != e ==> executors'[f] == executors[f]
  }

  lemma FinishOther(jobs: seq<Job>, id: string, start: int, now: int, tick: Ticker, j: Job)
    requires Distinct(jobs) && j in jobs && j.id != id
    ensures j in FinishIn(jobs, id, start, None, now, tick)
  {
    hide Find, Without, ComputeNextRun;
    var i := Find(jobs, id);
    var k := IndexOf(jobs, j);
    if i >= 0 {
      assert jobs[i := Finished(jobs[i], start, None, now, tick)][k] == j;
    }
  }

  lemma IndexOf(jobs: seq<Job>, j: Job) returns (k: nat)
    requires j in jobs
    ensures k < |jobs| && jobs[k] == j
  {
    k :| 0 <= k < |jobs| && jobs[k] == j;
  }

  lemma FinishSame(jobs: seq<Job>, j: Job, start: int, now: int, tick: Ticker)
    requires Distinct(jobs) && j in jobs && Periodic(j.schedule)
    ensures Finished(j, start, None, now, tick) in FinishIn(jobs, j.id, start, None, now, tick)
  {
    FindsIt(jobs, j);
    hide Find, Without, ComputeNextRun;
    var i := Find(jobs, j.id);
    assert FinishIn(jobs, j.id, start, None, now, tick)[i] == Finished(j, start, None, now, tick);
  }

  /** The e-th run loop ends its call; a periodic job stays in the store. */
  lemma FinishOne(s: State, e: nat, tick: Ticker) returns (t: State)
    requires Named(s) && e < |s.executors| && s.executors[e].current.Some?
    ensures IsOrderlyRun(s, [Step(s.clock, Finish(e, None))], t, tick) && Named(t)
    ensures t.clock == s.clock && t.running == s.running && t.started == s.started && t.exited == s.exited
    ensures t.executors == s.executors[e := Executor(s.executors[e].queue, None)]
    ensures forall j :: j in s.jobs && j.id != s.executors[e].current.value.id ==> j in t.jobs
    ensures forall j :: j in s.jobs && j.id == s.executors[e].current.value.id && Periodic(j.schedule) ==>
              Finished(j, s.executors[e].current.value.start, None, s.clock, tick) in t.jobs
  {
    var step := Step(s.clock, Finish(e, None));
    StepKeepsNames(s, step, tick);
    Once(s, step, tick);
    t := Apply(s, step, tick);
    hide FinishIn, Find;
    var run := s.executors[e].current.value;
    forall j | j in s.jobs && j.id != run.id
      ensures j in t.jobs
    {
      FinishOther(s.jobs, run.id, run.start, s.clock, tick, j);
    }
    forall j | j in s.jobs && j.id == run.id && Periodic(j.schedule)
      ensures Finished(j, run.start, None, s.clock, tick) in t.jobs
    {
      FinishSame(s.jobs, j, run.start, s.clock, tick);
    }
  }

  /** The e-th run loop turns to the next job in its batch. */
  lemma BeginNext(s: State, e: nat, tick: Ticker) returns (t: State)
    requires Named(s) && e < |s.executors| && s.executors[e].current.None? && s.executors[e].queue != []
    ensures IsOrderlyRun(s, [Step(s.clock, Begin(e))], t, tick) && Named(t)
    ensures t.clock == s.clock && t.running == s.running && t.jobs == s.jobs && t.exited == s.exited
    ensures OthersWait(s.executors, t.executors, e) && t.executors[e].queue == s.executors[e].queue[1..]
    ensures t.executors[e].current.Some? ==> t.executors[e].current.value.id == s.executors[e].queue[0]
    ensures s.started <= t.started
    ensures forall j :: j in s.jobs && j.id == s.executors[e].queue[0] ==>
              t.started == s.started + [Dispatch(j.id, j.schedule, s.clock)]
  {
    var step := Step(s.clock, Begin(e));
    StepKeepsNames(s, step, tick);
    Once(s, step, tick);
    t := Apply(s, step, tick);
    hide Find;
    forall j | j in s.jobs && j.id == s.executors[e].queue[0]
      ensures t.started == s.started + [Dispatch(j.id, j.schedule, s.clock)]
    {
      FindsIt(s.jobs, j);
    }
  }

  /** The log has grown, and ends with the call. */
  predicate Called(before: seq<Dispatch>, after: seq<Dispatch>, d: Dispatch) {
    before <= after && |before| < |after| && after[|after| - 1] == d
  }

  /** At a standing clock the e-th run loop works through its batch until it calls the job. */
  lemma {:induction false} DrainTo(s: State, e: nat, id: string, schedule: Schedule, tick: Ticker)
    returns (steps: seq<Step>, t: State)
    requires Named(s) && e < |s.executors| && id in s.executors[e].queue
    requires HasJob(s.jobs, id, schedule) && Periodic(schedule)
    ensures IsOrderlyRun(s, steps, t, tick) && Named(t) && t.clock == s.clock && HasJob(t.jobs, id, schedule)
    ensures OthersWait(s.executors, t.executors, e)
    ensures Called(s.started, t.started, Dispatch(id, schedule, s.clock))
    decreases |s.executors[e].queue|, if s.executors[e].current.Some? then 1 else 0
  {
    hide Named, IsOrderlyRun;
    var j :| j in s.jobs && j.id == id && j.schedule == schedule;
    if s.executors[e].current.Some? {
      var run := s.executors[e].current.value;
      var u := FinishOne(s, e, tick);
      assert HasJob(u.jobs, id, schedule) by {
        if run.id == id {
          assert Finished(j, run.start, None, s.clock, tick) in u.jobs;
        } else {
          assert j in u.jobs;
        }
      }
      steps, t := DrainTo(u, e, id, schedule, tick);
      Append(s, [Step(s.clock, Finish(e, None))], u, steps, t, tick);
      steps := [Step(s.clock, Finish(e, None))] + steps;
    } else {
      var u := BeginNext(s, e, tick);
      steps := [Step(s.clock, Begin(e))];
      if s.executors[e].queue[0] == id {
        assert u.started == s.started + [Dispatch(j.id, j.schedule, s.clock)];
        t := u;
      } else {
        var rest;
        rest, t := DrainTo(u, e, id, schedule, tick);
        Append(s, steps, u, rest, t, tick);
        steps := steps + rest;
      }
    }
  }

  /** At a standing clock the e-th run loop works through its whole batch; a job outside it is not touched. */
  lemma {:induction false} DrainAll(s: State, e: nat, j: Job, tick: Ticker) returns (steps: seq<Step>, t: State)
    requires Named(s) && e < |s.executors| && j in s.jobs && !Busy(s.executors[e], j.id)
    ensures IsOrderlyRun(s, steps, t, tick) && Named(t) && t.clock == s.clock && t.running == s.running && j in t.jobs
    ensures t.exited == s.exited
    ensures OthersWait(s.executors, t.executors, e) && t.executors[e] == Executor([], None)
    decreases |s.executors[e].queue|, if s.executors[e].current.Some? then 1 else 0
  {
    hide Named, IsOrderlyRun;
    var rest;
    if s.executors[e].current.Some? {
      var u := FinishOne(s, e, tick);
      rest, t := DrainAll(u, e, j, tick);
      steps := [Step(s.clock, Finish(e, None))];
      Append(s, steps, u, rest, t, tick);
      steps := steps + rest;
    } else if s.executors[e].queue != [] {
      var u := BeginNext(s, e, tick);
      rest, t := DrainAll(u, e, j, tick);
      steps := [Step(s.clock, Begin(e))];
      Append(s, steps, u, rest, t, tick);
      steps := steps + rest;
    } else {
      steps, t := [], s;
      NoSteps(s, tick);
    }
  }

  lemma NoSteps(s: State, tick: Ticker)
    ensures IsOrderlyRun(s, [], s, tick)
  {
  }

  /** Two run loops that both have the job in their batch call it at the same time. */
  lemma TwiceWaiting(s: State, e: nat, f: nat, id: string, schedule: Schedule, tick: Ticker)
    returns (steps: seq<Step>, t: State)
    requires Named(s) && e < |s.executors| && f < |s.executors| && e != f
    requires id in s.executors[e].queue && id in s.executors[f].queue
    requires HasJob(s.jobs, id, schedule) && Periodic(schedule)
    ensures IsOrderlyRun(s, steps, t, tick) && !Apart(t.started)
  {
    hide Named, IsOrderlyRun, HasJob;
    var first, u := DrainTo(s, e, id, schedule, tick);
    var second;
    second, t := DrainTo(u, f, id, schedule, tick);
    Append(s, first, u, second, t, tick);
    steps := first + second;
    var i, k := |u.started| - 1, |t.started| - 1;
    assert t.started[i] == u.started[i];
    assert t.started[i].id == t.started[k].id;
  }

  /** A due job gets into the batch of an idle run loop. */
  lemma CollectIt(s: State, e: nat, j: Job, now: int, tick: Ticker) returns (t: State)
    requires Named(s) && s.running && IsIdle(s, e) && e !in s.exited
    requires j in s.jobs && now >= s.clock && Due(j, now)
    ensures IsOrderlyRun(s, [Step(now, Collect(e))], t, tick) && Named(t) && t.clock == now && t.running
    ensures OthersWait(s.executors, t.executors, e) && j.id in t.executors[e].queue && t.executors[e].current.None?
    ensures j.(next := None) in t.jobs && |t.jobs| == |s.jobs|
  {
    var step := Step(now, Collect(e));
    StepKeepsNames(s, step, tick);
    Once(s, step, tick);
    t := Apply(s, step, tick);
    DisarmsIt(s.jobs, j, now);
    hide Find, DueIds, Disarm, Named, Due;
  }

  lemma DisarmsIt(jobs: seq<Job>, j: Job, now: int)
    requires j in jobs && Due(j, now)
    ensures j.id in DueIds(jobs, now) && j.(next := None) in Disarm(jobs, DueIds(jobs, now))
  {
    hide DueIds;
    var i := IndexOf(jobs, j);
    assert Disarm(jobs, DueIds(jobs, now))[i] == j.(next := None);
  }

  lemma StartIt(s: State, j: Job, now: int, tick: Ticker)
    requires Named(s) && !s.running && j in s.jobs && j.enabled && Periodic(j.schedule) && now >= s.clock
    ensures var t := Apply(s, Step(now, Start), tick);
            && Named(t) && t.running && t.clock == now && t.executors == s.executors + [Executor([], None)]
            && t.exited == s.exited && j.(next := Some(now + Gap(j.schedule))) in t.jobs && |t.jobs| == |s.jobs|
  {
    StepKeepsNames(s, Step(now, Start), tick);
    hide Named;
    var i :| 0 <= i < |s.jobs| && s.jobs[i] == j;
    assert s.disk == s.jobs by { NamedDisk(s); }
    assert RecomputeAll(s.jobs, now, tick)[i] == j.(next := Some(now + Gap(j.schedule)));
  }

  lemma NamedDisk(s: State)
    requires Named(s)
    ensures s.disk == s.jobs
  {
  }

  lemma NotReturned(s: State, e: nat)
    requires Named(s) && (e < |s.executors| ==> s.executors[e] != Executor([], None))
    ensures e !in s.exited
  {
  }

  /** The call ends and arms the job again, and the old run loop collects it too. */
  lemma CalledAgain(s: State, j: Job, n: nat, e: nat, tick: Ticker) returns (steps: seq<Step>, t: State)
    requires Named(s) && s.running && j in s.jobs && j.enabled && Periodic(j.schedule)
    requires e < |s.executors| && n < |s.executors| && e != n && j.id in s.executors[n].queue
    requires s.executors[e].current.Some? && s.executors[e].current.value.id == j.id && j.id !in s.executors[e].queue
    ensures IsOrderlyRun(s, steps, t, tick) && !Apart(t.started)
  {
    hide Named, IsOrderlyRun, Apart;
    NotReturned(s, e);
    var run, gap := s.executors[e].current.value, Gap(j.schedule);
    var u := FinishOne(s, e, tick);
    var j' := Finished(j, run.start, None, s.clock, tick);
    var idle, v := DrainAll(u, e, j', tick);
    var w := CollectIt(v, e, j', s.clock + gap, tick);
    assert HasJob(w.jobs, j.id, j.schedule) by { assert j'.(next := None) in w.jobs; }
    var rest;
    rest, t := TwiceWaiting(w, n, e, j.id, j.schedule, tick);
    var finished, collected := [Step(s.clock, Finish(e, None))], [Step(s.clock + gap, Collect(e))];
    Append(v, collected, w, rest, t, tick);
    Append(u, idle, v, collected + rest, t, tick);
    Append(s, finished, u, idle + (collected + rest), t, tick);
    steps := finished + (idle + (collected + rest));
  }

  /** An armed job with which one run loop is busy is collected by another, idle one; both then call it at one time. */
  lemma CollectedTwice(s: State, j: Job, e: nat, f: nat, tick: Ticker) returns (more: seq<Step>, t: State)
    requires Named(s) && s.running && j in s.jobs && j.enabled && j.next.Some? && Periodic(j.schedule)
    requires e < |s.executors| && f < |s.executors| && e != f
    requires Busy(s.executors[e], j.id) && s.executors[f] == Executor([], None) && f !in s.exited
    ensures IsOrderlyRun(s, more, t, tick) && !Apart(t.started)
  {
    hide Named, IsOrderlyRun, Apart;
    var now := if s.clock > j.next.value then s.clock else j.next.value;
    var v := CollectIt(s, f, j, now, tick);
    var rest;
    if j.id in s.executors[e].queue {
      assert HasJob(v.jobs, j.id, j.schedule);
      rest, t := TwiceWaiting(v, f, e, j.id, j.schedule, tick);
    } else {
      rest, t := CalledAgain(v, j.(next := None), f, e, tick);
    }
    Append(s, [Step(now, Collect(f))], v, rest, t, tick);
    more := [Step(now, Collect(f))] + rest;
  }

  /** If a stopped service is started while a run loop is busy with an enabled periodic job, both loops may call it. */
  lemma RestartOverlaps(s: State, j: Job, e: nat, now: int, tick: Ticker) returns (more: seq<Step>, t: State)
    requires Named(s) && !s.running && now >= s.clock
    requires j in s.jobs && j.enabled && Periodic(j.schedule) && e < |s.executors| && Busy(s.executors[e], j.id)
    ensures IsOrderlyRun(Apply(s, Step(now, Start), tick), more, t, tick) && !Apart(t.started)
  {
    hide Named, IsOrderlyRun, Apart;
    StartIt(s, j, now, tick);
    NotReturned(s, |s.executors|);
    var u := Apply(s, Step(now, Start), tick);
    more, t := CollectedTwice(u, j.(next := Some(now + Gap(j.schedule))), e, |s.executors|, tick);
  }

  lemma EnableIt(s: State, j: Job, enabled: bool, now: int, tick: Ticker)
    requires Named(s) && j in s.jobs && Periodic(j.schedule) && now >= s.clock
    ensures var t := Apply(s, Step(now, Enable(j.id, enabled)), tick);
            && Named(t) && t.running == s.running && t.clock == now && t.executors == s.executors
            && t.exited == s.exited
            && j.(enabled := enabled, updatedAt := now, next := if enabled then Some(now + Gap(j.schedule)) else None)
               in t.jobs
            && |t.jobs| == |s.jobs|
  {
    StepKeepsNames(s, Step(now, Enable(j.id, enabled)), tick);
    assert Distinct(s.jobs);
    FindsIt(s.jobs, j);
    hide Named, Find;
    var t := Apply(s, Step(now, Enable(j.id, enabled)), tick);
    assert t.jobs[Find(s.jobs, j.id)] == Enabled(j, enabled, now, tick);
  }

  /**
   * If a job is enabled while one run loop is busy with it and there is another one that has not returned, both loops
   * may call it.
   */
  lemma EnableOverlaps(s: State, j: Job, e: nat, f: nat, now: int, tick: Ticker) returns (more: seq<Step>, t: State)
    requires Named(s) && s.running && now >= s.clock && j in s.jobs && Periodic(j.schedule)
    requires e < |s.executors| && f < |s.executors| && e != f
    requires Busy(s.executors[e], j.id) && !Busy(s.executors[f], j.id) && f !in s.exited
    ensures IsOrderlyRun(Apply(s, Step(now, Enable(j.id, true)), tick), more, t, tick) && !Apart(t.started)
  {
    EnableIt(s, j, true, now, tick);
    hide Named, IsOrderlyRun, Apart, Apply;
    var u := Apply(s, Step(now, Enable(j.id, true)), tick);
    var armed := j.(enabled := true, updatedAt := now, next := Some(now + Gap(j.schedule)));
    var idle, v := DrainAll(u, f, armed, tick);
    var rest;
    rest, t := CollectedTwice(v, armed, e, f, tick);
    Append(u, idle, v, rest, t, tick);
    more := idle + rest;
  }

  /** However things go on in an orderly way, calls of periodic jobs keep their distance. */
  ghost predicate KeepsPeriods(s: State, tick: Ticker) {
    forall more, t :: IsOrderlyRun(s, more, t, tick) ==> Apart(t.started)
  }

  lemma OrderlyStepKeepsPeriods(s: State, step: Step, tick: Ticker)
    requires Named(s) && Exclusive(s) && Legal(s, step) && Orderly(s, step)
    ensures KeepsPeriods(Apply(s, step, tick), tick)
  {
    StepKeepsNames(s, step, tick);
    StepExclusive(s, step, tick);
    hide Named, Exclusive, IsOrderlyRun, Apply, Apart;
    var u := Apply(s, step, tick);
    forall more, t | IsOrderlyRun(u, more, t, tick)
      ensures Apart(t.started)
    {
      OrderlyRunIsExclusive(u, more, t, tick);
      ExclusiveIsApart(t);
    }
  }

  lemma BusyOnce(s: State, j: Job, e: nat, f: nat)
    requires Exclusive(s) && j in s.jobs && Periodic(j.schedule)
    requires e < |s.executors| && f < |s.executors| && e != f && Busy(s.executors[e], j.id)
    ensures !Busy(s.executors[f], j.id)
  {
    assert Held(j, s.executors, s.exited, s.started, s.clock, s.running);
  }

  lemma OtherLoop(s: State, e: nat) returns (f: nat)
    requires Several(s.executors, s.exited)
    ensures f < |s.executors| && f != e && f !in s.exited
  {
    var a, b :| 0 <= a < b < |s.executors| && a !in s.exited && b !in s.exited;
    f := if a == e then b else a;
  }

  lemma DisorderlyStepOverlaps(s: State, step: Step, tick: Ticker) returns (more: seq<Step>, t: State)
    requires Named(s) && Exclusive(s) && Legal(s, step) && !Orderly(s, step)
    ensures IsOrderlyRun(Apply(s, step, tick), more, t, tick) && !Apart(t.started)
  {
    hide Named, Exclusive, IsOrderlyRun, Apply, Apart;
    match step.op
    case Enable(id, _) =>
      var j :| j in s.jobs && j.id == id && Periodic(j.schedule);
      var e :| 0 <= e < |s.executors| && Busy(s.executors[e], id);
      var f := OtherLoop(s, e);
      BusyOnce(s, j, e, f);
      more, t := EnableOverlaps(s, j, e, f, step.now, tick);
    case Start =>
      var j :| j in s.jobs && j.enabled && Periodic(j.schedule) && BusyAnywhere(s.executors, j.id);
      var e :| 0 <= e < |s.executors| && Busy(s.executors[e], j.id);
      more, t := RestartOverlaps(s, j, e, step.now, tick);
  }

  /**
   * At the end of every orderly run a step keeps the periods, however things go on, if and only if it is orderly. Only
   * a start and an enabling can fail to be.
   */
  lemma StepKeepsPeriodsIff(init: State, steps: seq<Step>, s: State, step: Step, tick: Ticker)
    requires Init(init) && IsOrderlyRun(init, steps, s, tick) && Legal(s, step)
    ensures KeepsPeriods(Apply(s, step, tick), tick) <==> Orderly(s, step)
  {
    InitIsExclusive(init);
    hide Init, IsOrderlyRun, Named, Exclusive, Apply, Legal, Orderly, Apart;
    OrderlyRunIsExclusive(init, steps, s, tick);
    if Orderly(s, step) {
      OrderlyStepKeepsPeriods(s, step, tick);
    } else {
      var more, t := DisorderlyStepOverlaps(s, step, tick);
    }
  }

  /**
   * A restart keeps the periods if and only if at that moment no run loop of an earlier start is busy with an enabled
   * periodic job, be it waiting in a batch or being executed.
   */
  lemma RestartKeepsPeriodsIff(init: State, steps: seq<Step>, s: State, now: int, tick: Ticker)
    requires Init(init) && IsOrderlyRun(init, steps, s, tick) && !s.running && Legal(s, Step(now, Start))
    ensures KeepsPeriods(Apply(s, Step(now, Start), tick), tick)
            <==> forall j :: j in s.jobs && j.enabled && Periodic(j.schedule) ==> !BusyAnywhere(s.executors, j.id)
  {
    hide Init, IsOrderlyRun, Apply, KeepsPeriods;
    StepKeepsPeriodsIff(init, steps, s, Step(now, Start), tick);
  }

  /**
   * Enabling a periodic job keeps the periods if and only if no run loop is busy with it, or all other run loops have
   * returned, or the service is stopped.
   */
  lemma EnableKeepsPeriodsIff(init: State, steps: seq<Step>, s: State, j: Job, now: int, tick: Ticker)
    requires Init(init) && IsOrderlyRun(init, steps, s, tick) && j in s.jobs && Periodic(j.schedule) && now >= s.clock
    ensures KeepsPeriods(Apply(s, Step(now, Enable(j.id, true)), tick), tick)
            <==> !BusyAnywhere(s.executors, j.id) || !Several(s.executors, s.exited) || !s.running
  {
    hide Init, IsOrderlyRun, Apply, KeepsPeriods, BusyAnywhere;
    StepKeepsPeriodsIff(init, steps, s, Step(now, Enable(j.id, true)), tick);
  }

  lemma ExclusiveIsApart(s: State)
    requires Exclusive(s)
    ensures Apart(s.started)
  {
  }

  // ----- one such run ------------------------------------------------------------------------------

  const TENTHS := Schedule("every", None, Some(10), "")

  function Every(next: Option<int>): Job {
    Job("b", true, TENTHS, next, None, None, 0, false)
  }

  lemma {:induction false} OrderlyRunIsRun(s: State, steps: seq<Step>, t: State, tick: Ticker)
    requires IsOrderlyRun(s, steps, t, tick)
    ensures IsRun(s, steps, t, tick)
    decreases |steps|
  {
    hide Apply, Legal, Orderly;
    if steps != [] {
      OrderlyRunIsRun(Apply(s, steps[0], tick), steps[1..], t, tick);
    }
  }

  lemma {:induction false} AppendRun(s: State, first: seq<Step>, u: State, second: seq<Step>, t: State, tick: Ticker)
    requires IsRun(s, first, u, tick) && IsRun(u, second, t, tick)
    ensures IsRun(s, first + second, t, tick)
    decreases |first|
  {
    hide Apply, Legal;
    if first == [] {
      assert first + second == second;
    } else {
      assert (first + second)[1..] == first[1..] + second;
      AppendRun(Apply(s, first[0], tick), first[1..], u, second, t, tick);
    }
  }

  lemma StopIt(s: State, tick: Ticker)
    requires Named(s)
    ensures IsOrderlyRun(s, [Step(s.clock, Stop)], s.(running := false), tick) && Named(s.(running := false))
  {
    StepKeepsNames(s, Step(s.clock, Stop), tick);
    Once(s, Step(s.clock, Stop), tick);
    hide Named, IsOrderlyRun;
    assert Apply(s, Step(s.clock, Stop), tick) == s.(running := false);
  }

  lemma FirstStart(s: State, tick: Ticker)
    requires s.executors == []
    ensures Legal(s, Step(s.clock, Start))
    ensures IsOrderlyRun(s, [Step(s.clock, Start)], Apply(s, Step(s.clock, Start), tick), tick)
  {
    hide Apply, IsOrderlyRun;
    Once(s, Step(s.clock, Start), tick);
  }

  lemma CollectedAtTen(tick: Ticker) returns (s: State, steps: seq<Step>, t: State)
    ensures Init(s) && s.jobs == [Every(None)] && steps == [Step(0, Start), Step(10, Collect(0))]
    ensures IsOrderlyRun(s, steps, t, tick) && Named(t) && t.running && t.clock == 10
    ensures t.jobs == [Every(None)] && |t.executors| == 1 && t.exited == {} && Busy(t.executors[0], "b")
  {
    s := State([Every(None)], [Every(None)], false, 0, [], {}, {"b"}, [], []);
    InitIsExclusive(s);
    FirstStart(s, tick);
    hide Named, IsOrderlyRun, Apply, Legal;
    StartIt(s, Every(None), 0, tick);
    var u := Apply(s, Step(0, Start), tick);
    t := CollectIt(u, 0, Every(Some(10)), 10, tick);
    Append(s, [Step(0, Start)], u, [Step(10, Collect(0))], t, tick);
    steps := [Step(0, Start)] + [Step(10, Collect(0))];
  }

  lemma StoppedWhileWaiting(tick: Ticker) returns (s: State, steps: seq<Step>, t: State)
    ensures Init(s) && s.jobs == [Every(None)] && steps == [Step(0, Start), Step(10, Collect(0)), Step(10, Stop)]
    ensures IsOrderlyRun(s, steps, t, tick) && Named(t) && !t.running && t.clock == 10
    ensures Every(None) in t.jobs && |t.executors| == 1 && t.exited == {} && Busy(t.executors[0], "b")
  {
    hide Init, Named, IsOrderlyRun;
    var v;
    s, steps, v := CollectedAtTen(tick);
    t := v.(running := false);
    StopIt(v, tick);
    Append(s, steps, v, [Step(10, Stop)], t, tick);
    steps := steps + [Step(10, Stop)];
  }

  /**
   * A job with a period of 10, started at 0: the run loop collects it at 10, and before it has called it the service is
   * stopped and started again. The run goes on so that two calls are less than the period apart.
   */
  lemma RestartBreaksThePeriod(tick: Ticker) returns (s: State, steps: seq<Step>, t: State)
    ensures Init(s) && s.jobs == [Every(None)] && IsRun(s, steps, t, tick) && !Apart(t.started)
    ensures [Step(0, Start), Step(10, Collect(0)), Step(10, Stop), Step(10, Start)] <= steps
  {
    var before, w;
    s, before, w := StoppedWhileWaiting(tick);
    hide Init, Named, IsOrderlyRun, Apart, Apply, Orderly;
    var more;
    more, t := RestartOverlaps(w, Every(None), 0, 10, tick);
    OrderlyRunIsRun(s, before, w, tick);
    OrderlyRunIsRun(Apply(w, Step(10, Start), tick), more, t, tick);
    assert ([Step(10, Start)] + more)[1..] == more;
    AppendRun(s, before, w, [Step(10, Start)] + more, t, tick);
    steps := before + ([Step(10, Start)] + more);
  }

  function Disabled(): Job {
    Every(None).(enabled := false, updatedAt := 10)
  }

  lemma DisableOnce(s: State, id: string, tick: Ticker)
    ensures IsOrderlyRun(s, [Step(s.clock, Enable(id, false))], Apply(s, Step(s.clock, Enable(id, false)), tick), tick)
  {
    hide Apply, IsOrderlyRun;
    Once(s, Step(s.clock, Enable(id, false)), tick);
  }

  lemma StoppedDisabled(tick: Ticker) returns (s: State, steps: seq<Step>, t: State)
    ensures Init(s) && s.jobs == [Every(None)]
    ensures steps == [Step(0, Start), Step(10, Collect(0)), Step(10, Enable("b", false)), Step(10, Stop)]
    ensures IsOrderlyRun(s, steps, t, tick) && Named(t) && !t.running && t.clock == 10
    ensures t.jobs == [Disabled()] && |t.executors| == 1 && t.exited == {} && Busy(t.executors[0], "b")
  {
    hide Init, Named, IsOrderlyRun, Apply;
    var v;
    s, steps, v := CollectedAtTen(tick);
    EnableIt(v, Every(None), false, 10, tick);
    DisableOnce(v, "b", tick);
    var w := Apply(v, Step(10, Enable("b", false)), tick);
    StopIt(w, tick);
    t := w.(running := false);
    Append(s, steps, v, [Step(10, Enable("b", false))], w, tick);
    steps := steps + [Step(10, Enable("b", false))];
    Append(s, steps, w, [Step(10, Stop)], t, tick);
    steps := steps + [Step(10, Stop)];
  }

  lemma StartDisabled(s: State, j: Job, tick: Ticker)
    requires Named(s) && !s.running && s.jobs == [j] && !j.enabled
    ensures var t := Apply(s, Step(s.clock, Start), tick);
            && Named(t) && t.running && t.clock == s.clock && t.jobs == [j]
            && t.executors == s.executors + [Executor([], None)] && t.exited == s.exited
            && IsOrderlyRun(s, [Step(s.clock, Start)], t, tick)
  {
    StepKeepsNames(s, Step(s.clock, Start), tick);
    hide Named, IsOrderlyRun;
    NamedDisk(s);
    Once(s, Step(s.clock, Start), tick);
    assert RecomputeAll([j], s.clock, tick) == [j];
  }

  /**
   * The same job, collected at 10 and then disabled: this time the restart is harmless, but enabling the job while the
   * first run loop still has it in its batch is not. The run goes on so that two calls are less than the period apart.
   */
  lemma EnableBreaksThePeriod(tick: Ticker) returns (s: State, steps: seq<Step>, t: State)
    ensures Init(s) && s.jobs == [Every(None)] && IsRun(s, steps, t, tick) && !Apart(t.started)
    ensures [Step(0, Start), Step(10, Collect(0)), Step(10, Enable("b", false)), Step(10, Stop), Step(10, Start),
             Step(10, Enable("b", true))] <= steps
  {
    var before, w;
    s, before, w := StoppedDisabled(tick);
    hide Init, Named, IsOrderlyRun, Apart, Apply, Orderly;
    StartDisabled(w, Disabled(), tick);
    var u := Apply(w, Step(10, Start), tick);
    Append(s, before, w, [Step(10, Start)], u, tick);
    var more;
    more, t := EnableOverlaps(u, Disabled(), 0, 1, 10, tick);
    OrderlyRunIsRun(s, before + [Step(10, Start)], u, tick);
    OrderlyRunIsRun(Apply(u, Step(10, Enable("b", true)), tick), more, t, tick);
    assert ([Step(10, Enable("b", true))] + more)[1..] == more;
    AppendRun(s, before + [Step(10, Start)], u, [Step(10, Enable("b", true))] + more, t, tick);
    steps := before + [Step(10, Start)] + ([Step(10, Enable("b", true))] + more);
  }
}
