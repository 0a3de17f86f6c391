/** Handler calls: every one stems from a collection, but it may come much later than the collection. */
module CronCallbacks {
  import opened Text
  import opened Cron
  import opened CronRuns
  import opened CronSafety

  /** The identifiers that have been collected and wait in some batch for their turn. */
  function Waiting(executors: seq<Executor>): multiset<string> {
    if executors == [] then multiset{}
    else Waiting(executors[..|executors| - 1]) + multiset(executors[|executors| - 1].queue)
  }

  function Ids(log: seq<Dispatch>): (r: seq<string>)
    ensures |r| == |log| && forall i :: 0 <= i < |log| ==> r[i] == log[i].id
  {
    seq(|log|, i requires 0 <= i < |log| => log[i].id)
  }

  lemma WaitingMore(executors: seq<Executor>, x: Executor)
    ensures Waiting(executors + [x]) == Waiting(executors) + multiset(x.queue)
  {
    assert (executors + [x])[..|executors|] == executors;
  }

  lemma {:induction false} WaitingUpdate(executors: seq<Executor>, e: nat, x: Executor)
    requires e < |executors|
    ensures multiset(executors[e].queue) <= Waiting(executors)
    ensures Waiting(executors[e := x]) == Waiting(executors) - multiset(executors[e].queue) + multiset(x.queue)
  {
    hide Waiting;
    var k := |executors| - 1;
    var front, last := executors[..k], executors[k];
    assert executors == front + [last];
    WaitingMore(front, last);
    if e < k {
      WaitingUpdate(front, e, x);
      assert executors[e := x] == front[e := x] + [last];
      WaitingMore(front[e := x], last);
    } else {
      assert executors[e := x] == front + [x];
      WaitingMore(front, x);
    }
  }

  lemma WaitingIdle(executors: seq<Executor>)
    ensures Waiting(executors + [Executor([], None)]) == Waiting(executors)
  {
    hide Waiting;
    WaitingMore(executors, Executor([], None));
  }

  /** Every call, past or still waiting, stems from a collection of its own. */
  predicate Counted(s: State) {
    multiset(Ids(s.started)) + Waiting(s.executors) <= multiset(Ids(s.collected))
  }

  predicate Agree(started: seq<Dispatch>, collected: seq<Dispatch>) {
    forall c, d :: c in collected && d in started && c.id == d.id ==> c.schedule == d.schedule
  }

  /** No one-shot job is called before its time. */
  predicate OnTime(started: seq<Dispatch>) {
    forall d :: d in started && d.schedule.kind == "at" ==> d.schedule.atMS.Some? && d.schedule.atMS.value <= d.time
  }

  predicate Accounted(s: State) {
    Counted(s) && Agree(s.started, s.collected) && OnTime(s.started)
  }

  lemma IdsAppend(log: seq<Dispatch>, more: seq<Dispatch>)
    ensures multiset(Ids(log + more)) == multiset(Ids(log)) + multiset(Ids(more))
  {
    assert Ids(log + more) == Ids(log) + Ids(more);
  }

  lemma BeginCounted(s: State, e: nat)
    requires Counted(s) && e < |s.executors| && s.executors[e].queue != []
    ensures Counted(AfterBegin(s, e))
    ensures s.executors[e].queue[0] in Ids(s.collected)
  {
    hide Find, Waiting, Ids;
    var queue := s.executors[e].queue;
    var id := queue[0];
    assert queue == [id] + queue[1..];
    var t := AfterBegin(s, e);
    WaitingUpdate(s.executors, e, t.executors[e]);
    assert id in multiset(queue);
    if Find(s.jobs, id) >= 0 {
      var d := Dispatch(id, s.jobs[Find(s.jobs, id)].schedule, s.clock);
      IdsAppend(s.started, [d]);
      assert Ids([d]) == [id];
    }
    assert id in multiset(Ids(s.collected));
  }

  lemma BeginAccounted(s: State, e: nat)
    requires Safe(s) && Accounted(s) && e < |s.executors| && s.executors[e].queue != []
    ensures Accounted(AfterBegin(s, e))
  {
    hide Find, Spaced, AllArmed, Counted;
    var id := s.executors[e].queue[0];
    BeginCounted(s, e);
    var i :| 0 <= i < |s.collected| && Ids(s.collected)[i] == id;
    if Find(s.jobs, id) >= 0 {
      var job := s.jobs[Find(s.jobs, id)];
      assert s.collected[i] in s.collected && job in s.jobs;
      if job.schedule.kind == "at" {
        SpacedAt(s.collected, s.collected[i]);
      }
    }
  }

  lemma SpacedAt(log: seq<Dispatch>, d: Dispatch)
    requires Spaced(log) && d in log && d.schedule.kind == "at"
    ensures d.schedule.atMS.Some? && d.schedule.atMS.value <= d.time
  {
  }

  lemma SpacedPair(log: seq<Dispatch>, i: nat, j: nat)
    requires Spaced(log) && i < j < |log| && log[i].id == log[j].id
    ensures log[j].schedule.kind != "at"
  {
  }

  lemma CollectCounted(s: State, e: nat)
    requires Counted(s) && e < |s.executors| && s.executors[e] == Executor([], None)
    ensures Counted(AfterCollect(s, e))
  {
    hide Find, DueIds, Waiting, Ids;
    if s.running {
      DueAreFound(s.jobs, s.clock);
      var ids := DueIds(s.jobs, s.clock);
      WaitingUpdate(s.executors, e, Executor(ids, None));
      IdsAppend(s.collected, Collected(s.jobs, ids, s.clock));
      assert Ids(Collected(s.jobs, ids, s.clock)) == ids;
    }
  }

  lemma CollectAccounted(s: State, e: nat)
    requires Safe(s) && Accounted(s) && e < |s.executors| && s.executors[e] == Executor([], None)
    ensures Accounted(AfterCollect(s, e))
  {
    hide Find, DueIds, Spaced, AllArmed, Counted, OnTime;
    CollectCounted(s, e);
    if s.running {
      DueAreFound(s.jobs, s.clock);
      forall c, d | c in Collected(s.jobs, DueIds(s.jobs, s.clock), s.clock) && d in s.started && c.id == d.id
        ensures c.schedule == d.schedule
      {
        assert s.jobs[Find(s.jobs, c.id)] in s.jobs;
      }
    }
  }

  lemma StepAccounted(s: State, step: Step, tick: Ticker)
    requires Safe(s) && Accounted(s) && Legal(s, step)
    ensures Accounted(Apply(s, step, tick))
  {
    var t := s.(clock := step.now);
    assert Safe(t) && Accounted(t);
    hide Safe, Accounted, AfterCollect, AfterBegin;
    match step.op
    case Collect(e) => CollectAccounted(t, e);
    case Begin(e) => BeginAccounted(t, e);
    case _ => OtherAccounted(t, step, tick);
  }

  lemma OtherAccounted(s: State, step: Step, tick: Ticker)
    requires Accounted(s) && Legal(s, step) && step.now == s.clock && !step.op.Collect? && !step.op.Begin?
    ensures Accounted(Apply(s, step, tick))
  {
    hide FinishIn, EnableIn, RecomputeAll, Without, Waiting, OnTime, Agree, Ids;
    match step.op
    case Finish(e, error) =>
      WaitingUpdate(s.executors, e, Executor(s.executors[e].queue, None));
    case Start => WaitingIdle(s.executors);
    case _ =>
  }

  predicate OneShot(started: seq<Dispatch>) {
    && (forall i, j :: 0 <= i < j < |started| && started[i].schedule.kind == "at" ==> started[i].id != started[j].id)
    && OnTime(started)
  }

  lemma {:induction false} Twice(log: seq<string>, i: nat, j: nat)
    requires i < j < |log| && log[i] == log[j]
    ensures multiset(log)[log[i]] >= 2
  {
    assert log == log[..j] + [log[j]] + log[j + 1..];
    assert log[i] in log[..j];
  }

  lemma {:induction false} TwiceAt(log: seq<string>, id: string) returns (i: nat, j: nat)
    requires multiset(log)[id] >= 2
    ensures i < j < |log| && log[i] == log[j] == id
  {
    var k := |log| - 1;
    assert log == log[..k] + [log[k]];
    if log[k] == id {
      assert multiset(log[..k])[id] >= 1;
      i :| 0 <= i < k && log[..k][i] == id;
      j := k;
    } else {
      i, j := TwiceAt(log[..k], id);
    }
  }

  lemma OneShotIsCalledOnce(s: State)
    requires Safe(s) && Accounted(s)
    ensures OneShot(s.started)
  {
    hide Waiting;
    forall i, j | 0 <= i < j < |s.started| && s.started[i].schedule.kind == "at"
      ensures s.started[i].id != s.started[j].id
    {
      if s.started[i].id == s.started[j].id {
        var id := s.started[i].id;
        Twice(Ids(s.started), i, j);
        assert multiset(Ids(s.collected))[id] >= 2;
        var a, b := TwiceAt(Ids(s.collected), id);
        SpacedPair(s.collected, a, b);
      }
    }
  }

  /**
   * Over every run the handler is called at most once for a one-shot job, and never before its time, however often
   * the job is toggled and the service restarted while the job waits or runs.
   */
  lemma OneShotJobs(s: State, steps: seq<Step>, t: State, tick: Ticker)
    requires Init(s) && IsRun(s, steps, t, tick)
    ensures OneShot(t.started)
  {
    hide Apply, Legal, IsRun, OneShot;
    forall u, step | Safe(u) && Accounted(u) && Legal(u, step)
      ensures Safe(Apply(u, step, tick)) && Accounted(Apply(u, step, tick))
    {
      hide Safe, Accounted;
      StepSafe(u, step, tick);
      StepAccounted(u, step, tick);
    }
    Invariant(s, steps, t, tick, u => Safe(u) && Accounted(u));
    OneShotIsCalledOnce(t);
  }
}
