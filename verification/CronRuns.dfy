/**
 * Every interleaving of the cron service's locked sections. An executor is one run loop: it collects a batch of due
 * jobs and then runs them one after the other outside the lock. Each start of a stopped service adds an executor, and
 * an older one may still be busy after a restart. Once idle it may exit, or even collect again: when its stop channel
 * is closed and its ticker has fired, its select takes either.
 */
module CronRuns {
  import opened Text
  import opened Cron

  /** A collection of a job by a tick, or a call of the job's handler. */
  datatype Dispatch = Dispatch(id: string, schedule: Schedule, time: int)

  datatype Running = Running(id: string, start: int)

  datatype Executor = Executor(queue: seq<string>, current: Option<Running>)

  datatype State = State(
    jobs: seq<Job>,
    disk: seq<Job>,
    running: bool,
    clock: int,
    executors: seq<Executor>,
    exited: set<nat>,            // run loops that have returned
    used: set<string>,           // identifiers handed out so far
    collected: seq<Dispatch>,    // what ticks have collected
    started: seq<Dispatch>)      // handler calls

  datatype Op =
    | Add(id: string, schedule: Schedule)
    | Remove(id: string)
    | Enable(id: string, enabled: bool)
    | Collect(e: nat)
    | Begin(e: nat)
    | Finish(e: nat, error: Option<string>)
    | Exit(e: nat)
    | Start
    | Stop

  /** A step: an operation and the reading of the clock it makes. */
  datatype Step = Step(now: int, op: Op)

  /** A service that has loaded its store and has not been started. */
  predicate Init(s: State) {
    && !s.running && s.disk == s.jobs && s.executors == [] && s.exited == {} && s.collected == [] && s.started == []
    && Distinct(s.jobs) && forall j :: j in s.jobs ==> j.id in s.used
  }

  predicate IsIdle(s: State, e: nat) {
    e < |s.executors| && s.executors[e] == Executor([], None)
  }

  /** The stop channel of a run loop is closed by the first stop after its start. */
  predicate StopClosed(s: State, e: nat) {
    e + 1 < |s.executors| || !s.running
  }

  predicate Legal(s: State, step: Step) {
    && step.now >= s.clock
    && match step.op
       case Add(id, _) => id !in s.used
       case Collect(e) => IsIdle(s, e) && e !in s.exited
       case Begin(e) => e < |s.executors| && s.executors[e].current.None? && s.executors[e].queue != []
       case Finish(e, _) => e < |s.executors| && s.executors[e].current.Some?
       case Exit(e) => IsIdle(s, e) && StopClosed(s, e)
       case _ => true
  }

  function Collected(jobs: seq<Job>, ids: seq<string>, now: int): (r: seq<Dispatch>)
    requires forall id :: id in ids ==> Find(jobs, id) >= 0
    ensures |r| == |ids|
    ensures forall i :: 0 <= i < |ids| ==> r[i] == Dispatch(ids[i], jobs[Find(jobs, ids[i])].schedule, now)
  {
    seq(|ids|, i requires 0 <= i < |ids| => Dispatch(ids[i], jobs[Find(jobs, ids[i])].schedule, now))
  }

  lemma DueAreFound(jobs: seq<Job>, now: int)
    ensures forall id :: id in DueIds(jobs, now) ==> Find(jobs, id) >= 0
  {
  }

  function AfterCollect(s: State, e: nat): State
    requires e < |s.executors|
  {
    if !s.running then s
    else
      DueAreFound(s.jobs, s.clock);
      var ids := DueIds(s.jobs, s.clock);
      s.(jobs := Disarm(s.jobs, ids), disk := Disarm(s.jobs, ids),
         executors := s.executors[e := Executor(ids, None)],
         collected := s.collected + Collected(s.jobs, ids, s.clock))
  }

  function AfterBegin(s: State, e: nat): State
    requires e < |s.executors| && s.executors[e].queue != []
  {
    var id, rest := s.executors[e].queue[0], s.executors[e].queue[1..];
    var i := Find(s.jobs, id);
    if i < 0 then s.(executors := s.executors[e := Executor(rest, None)])
    else s.(executors := s.executors[e := Executor(rest, Some(Running(id, s.clock)))],
            started := s.started + [Dispatch(id, s.jobs[i].schedule, s.clock)])
  }

  function AfterFinish(s: State, e: nat, error: Option<string>, tick: Ticker): State
    requires e < |s.executors| && s.executors[e].current.Some?
  {
    var run := s.executors[e].current.value;
    var jobs := FinishIn(s.jobs, run.id, run.start, error, s.clock, tick);
    s.(jobs := jobs, disk := if Find(s.jobs, run.id) >= 0 then jobs else s.disk,
       executors := s.executors[e := Executor(s.executors[e].queue, None)])
  }

  function AfterStart(s: State, tick: Ticker): State {
    if s.running then s
    else
      var jobs := RecomputeAll(s.disk, s.clock, tick);
      s.(jobs := jobs, disk := jobs, running := true, executors := s.executors + [Executor([], None)])
  }

  function AfterAdd(s: State, id: string, schedule: Schedule, tick: Ticker): State {
    var jobs := s.jobs + [NewJob(id, schedule, s.clock, tick)];
    s.(jobs := jobs, disk := jobs, used := s.used + {id})
  }

  function AfterRemove(s: State, id: string): State {
    s.(jobs := Without(s.jobs, id), disk := if Find(s.jobs, id) >= 0 then Without(s.jobs, id) else s.disk)
  }

  function AfterEnable(s: State, id: string, enabled: bool, tick: Ticker): State {
    var jobs := EnableIn(s.jobs, id, enabled, s.clock, tick);
    s.(jobs := jobs, disk := if Find(s.jobs, id) >= 0 then jobs else s.disk)
  }

  function Apply(before: State, step: Step, tick: Ticker): State
    requires Legal(before, step)
  {
    var s := before.(clock := step.now);
    match step.op
    case Add(id, schedule) => AfterAdd(s, id, schedule, tick)
    case Remove(id) => AfterRemove(s, id)
    case Enable(id, enabled) => AfterEnable(s, id, enabled, tick)
    case Collect(e) => AfterCollect(s, e)
    case Begin(e) => AfterBegin(s, e)
    case Finish(e, error) => AfterFinish(s, e, error, tick)
    case Exit(e) => s.(exited := s.exited + {e})
    case Start => AfterStart(s, tick)
    case Stop => s.(running := false)
  }

  /** The states of a run: every step is legal where it is taken. */
  predicate IsRun(s: State, steps: seq<Step>, t: State, tick: Ticker)
    decreases |steps|
  {
    if steps == [] then s == t
    else Legal(s, steps[0]) && IsRun(Apply(s, steps[0], tick), steps[1..], t, tick)
  }

  /** What every legal step keeps holds at the end of every run. */
  lemma {:induction false} Invariant(s: State, steps: seq<Step>, t: State, tick: Ticker, keeps: State -> bool)
    requires IsRun(s, steps, t, tick) && keeps(s)
    requires forall u, step :: keeps(u) && Legal(u, step) ==> keeps(Apply(u, step, tick))
    ensures keeps(t)
    decreases |steps|
  {
    hide Apply, Legal;
    if steps != [] {
      Invariant(Apply(s, steps[0], tick), steps[1..], t, tick, keeps);
    }
  }

  // ----- names, schedules and the clock --------------------------------------------------------

  predicate Distinct(jobs: seq<Job>) {
    forall i, j :: 0 <= i < j < |jobs| ==> jobs[i].id != jobs[j].id
  }

  /** The log only knows handed-out identifiers and past times, and agrees with the jobs on their schedules. */
  predicate Known(log: seq<Dispatch>, jobs: seq<Job>, used: set<string>, clock: int) {
    && (forall d :: d in log ==> d.id in used && d.time <= clock)
    && (forall d, j :: d in log && j in jobs && d.id == j.id ==> d.schedule == j.schedule)
  }

  /** A run loop that has returned has nothing left to do. */
  predicate ExitedAreIdle(s: State) {
    forall e :: e in s.exited ==> IsIdle(s, e)
  }

  predicate Named(s: State) {
    && ExitedAreIdle(s)
    && s.disk == s.jobs && Distinct(s.jobs) && (forall j :: j in s.jobs ==> j.id in s.used)
    && Known(s.collected, s.jobs, s.used, s.clock) && Known(s.started, s.jobs, s.used, s.clock)
  }

  predicate HasJob(jobs: seq<Job>, id: string, schedule: Schedule) {
    exists j :: j in jobs && j.id == id && j.schedule == schedule
  }

  /** Jobs that differ at most in their state. */
  predicate Refit(jobs: seq<Job>, jobs': seq<Job>) {
    && |jobs| == |jobs'|
    && forall i :: 0 <= i < |jobs| ==> jobs[i].id == jobs'[i].id && jobs[i].schedule == jobs'[i].schedule
  }

  lemma RefitKeepsNames(s: State, jobs': seq<Job>)
    requires Named(s) && Refit(s.jobs, jobs')
    ensures Named(s.(jobs := jobs', disk := jobs'))
  {
  }

  lemma {:induction false} WithoutKeepsDistinct(jobs: seq<Job>, id: string)
    requires Distinct(jobs)
    ensures Distinct(Without(jobs, id))
  {
    if jobs != [] {
      WithoutKeepsDistinct(jobs[..|jobs| - 1], id);
    }
  }

  lemma OpRefits(jobs: seq<Job>, id: string, enabled: bool, start: int, error: Option<string>, now: int, tick: Ticker)
    ensures Refit(jobs, EnableIn(jobs, id, enabled, now, tick))
    ensures Refit(jobs, RecomputeAll(jobs, now, tick))
    ensures FinishIn(jobs, id, start, error, now, tick) != Without(jobs, id) ==>
              Refit(jobs, FinishIn(jobs, id, start, error, now, tick))
  {
    hide Find, Without, ComputeNextRun;
  }

  lemma CollectKeepsNames(s: State, e: nat)
    requires Named(s) && e < |s.executors| && e !in s.exited
    ensures Named(AfterCollect(s, e))
  {
    hide DueIds, Find;
    DueAreFound(s.jobs, s.clock);
    var ids := DueIds(s.jobs, s.clock);
    RefitKeepsNames(s, Disarm(s.jobs, ids));
    forall d, j | d in Collected(s.jobs, ids, s.clock) && j in s.jobs && d.id == j.id
      ensures d.schedule == j.schedule && d.id in s.used
    {
      FindsIt(s.jobs, j);
    }
  }

  lemma FindsIt(jobs: seq<Job>, j: Job)
    requires Distinct(jobs) && j in jobs
    ensures Find(jobs, j.id) >= 0 && jobs[Find(jobs, j.id)] == j
  {
    hide Find;
  }

  lemma BeginKeepsNames(s: State, e: nat)
    requires Named(s) && e < |s.executors| && s.executors[e].queue != []
    ensures Named(AfterBegin(s, e))
  {
    hide Find;
    forall j | j in s.jobs && j.id == s.executors[e].queue[0]
      ensures j.schedule == s.jobs[Find(s.jobs, j.id)].schedule
    {
      FindsIt(s.jobs, j);
    }
  }

  lemma FinishKeepsNames(s: State, e: nat, error: Option<string>, tick: Ticker)
    requires Named(s) && e < |s.executors| && s.executors[e].current.Some?
    ensures Named(AfterFinish(s, e, error, tick))
  {
    hide Find, Without;
    var run := s.executors[e].current.value;
    WithoutKeepsDistinct(s.jobs, run.id);
    OpRefits(s.jobs, run.id, false, run.start, error, s.clock, tick);
  }

  lemma AddKeepsNames(s: State, id: string, schedule: Schedule, tick: Ticker)
    requires Named(s) && id !in s.used
    ensures Named(AfterAdd(s, id, schedule, tick))
  {
  }

  lemma {:induction false} NotFoundWithout(jobs: seq<Job>, id: string)
    requires Find(jobs, id) < 0
    ensures Without(jobs, id) == jobs
  {
    hide Find;
    WithoutShrinks(jobs, id);
  }

  lemma RemoveKeepsNames(s: State, id: string)
    requires Named(s)
    ensures Named(AfterRemove(s, id))
  {
    hide Find, Without;
    WithoutKeepsDistinct(s.jobs, id);
    if Find(s.jobs, id) < 0 {
      NotFoundWithout(s.jobs, id);
    }
  }

  lemma NotFoundEnable(jobs: seq<Job>, id: string, enabled: bool, now: int, tick: Ticker)
    requires Find(jobs, id) < 0
    ensures EnableIn(jobs, id, enabled, now, tick) == jobs
  {
    hide Find;
  }

  lemma EnableKeepsNames(s: State, id: string, enabled: bool, tick: Ticker)
    requires Named(s)
    ensures Named(AfterEnable(s, id, enabled, tick))
  {
    hide Find, EnableIn, Named;
    OpRefits(s.jobs, id, enabled, 0, None, s.clock, tick);
    RefitKeepsNames(s, EnableIn(s.jobs, id, enabled, s.clock, tick));
    if Find(s.jobs, id) < 0 {
      NotFoundEnable(s.jobs, id, enabled, s.clock, tick);
      DiskIsStore(s);
    }
  }

  lemma DiskIsStore(s: State)
    requires Named(s)
    ensures s.disk == s.jobs
  {
  }

  lemma StartKeepsNames(s: State, tick: Ticker)
    requires Named(s)
    ensures Named(AfterStart(s, tick))
  {
    OpRefits(s.jobs, "", false, 0, None, s.clock, tick);
  }

  lemma StepKeepsNames(s: State, step: Step, tick: Ticker)
    requires Named(s) && Legal(s, step)
    ensures Named(Apply(s, step, tick))
  {
    var t := s.(clock := step.now);
    assert Named(t);
    hide Named, AfterAdd, AfterRemove, AfterEnable, AfterCollect, AfterBegin, AfterFinish, AfterStart;
    match step.op
    case Add(id, schedule) => AddKeepsNames(t, id, schedule, tick);
    case Remove(id) => RemoveKeepsNames(t, id);
    case Enable(id, enabled) => EnableKeepsNames(t, id, enabled, tick);
    case Collect(e) => CollectKeepsNames(t, e);
    case Begin(e) => BeginKeepsNames(t, e);
    case Finish(e, error) => FinishKeepsNames(t, e, error, tick);
    case Exit(e) => ExitKeepsNames(t, e);
    case Start => StartKeepsNames(t, tick);
    case Stop => StopKeepsNames(t);
  }

  lemma ExitKeepsNames(s: State, e: nat)
    requires Named(s) && IsIdle(s, e)
    ensures Named(s.(exited := s.exited + {e}))
  {
  }

  lemma StopKeepsNames(s: State)
    requires Named(s)
    ensures Named(s.(running := false))
  {
  }
}
