/** The job store of the cron service: what each locked section does to it. */
module Cron {
  import opened Text

  datatype Schedule = Schedule(kind: string, atMS: Option<int>, everyMS: Option<int>, expr: string)

  datatype Job = Job(
    id: string,
    enabled: bool,
    schedule: Schedule,
    next: Option<int>,          // State.NextRunAtMS
    lastRun: Option<int>,       // State.LastRunAtMS
    lastError: Option<string>,  // None for status "ok"
    updatedAt: int,
    deleteAfterRun: bool)

  /** The next tick of a cron expression after a time, if the expression is valid. */
  type Ticker = (string, int) -> Option<int>

  function ComputeNextRun(s: Schedule, now: int, tick: Ticker): (r: Option<int>)
    ensures s.kind == "at" && r.Some? ==> s.atMS == r && r.value > now
    ensures s.kind == "every" && r.Some? ==> s.everyMS.Some? && s.everyMS.value > 0 && r.value == now + s.everyMS.value
  {
    if s.kind == "at" then (if s.atMS.Some? && s.atMS.value > now then s.atMS else None)
    else if s.kind == "every" then
      if s.everyMS.None? || s.everyMS.value <= 0 then None else Some(now + s.everyMS.value)
    else if s.kind == "cron" then (if s.expr == "" then None else tick(s.expr, now))
    else None
  }

  predicate Due(j: Job, now: int) {
    j.enabled && j.next.Some? && j.next.value <= now
  }

  /** The identifiers of the due jobs, in store order. */
  function DueIds(jobs: seq<Job>, now: int): (ids: seq<string>)
    ensures forall id :: id in ids <==> exists i :: 0 <= i < |jobs| && jobs[i].id == id && Due(jobs[i], now)
  {
    if jobs == [] then []
    else
      var k := |jobs| - 1;
      var before := DueIds(jobs[..k], now);
      if Due(jobs[k], now) then before + [jobs[k].id] else before
  }

  function Disarm(jobs: seq<Job>, ids: seq<string>): (r: seq<Job>)
    ensures |r| == |jobs|
    ensures forall i :: 0 <= i < |jobs| ==> r[i] == if jobs[i].id in ids then jobs[i].(next := None) else jobs[i]
  {
    seq(|jobs|, i requires 0 <= i < |jobs| => if jobs[i].id in ids then jobs[i].(next := None) else jobs[i])
  }

  /** The position of the first job with the identifier, or -1. */
  function Find(jobs: seq<Job>, id: string): (r: int)
    ensures -1 <= r < |jobs|
    ensures r >= 0 ==> jobs[r].id == id
    ensures forall i :: 0 <= i < (if r < 0 then |jobs| else r) ==> jobs[i].id != id
  {
    FindFrom(jobs, id, 0)
  }

  function FindFrom(jobs: seq<Job>, id: string, i: nat): (r: int)
    ensures r == -1 || (i <= r < |jobs| && jobs[r].id == id)
    ensures forall k :: i <= k < (if r < 0 then |jobs| else r) ==> jobs[k].id != id
    decreases |jobs| - i
  {
    if i >= |jobs| then -1 else if jobs[i].id == id then i else FindFrom(jobs, id, i + 1)
  }

  function Without(jobs: seq<Job>, id: string): (r: seq<Job>)
    ensures forall j :: j in r <==> j in jobs && j.id != id
    ensures |r| <= |jobs|
    ensures |r| == |jobs| ==> r == jobs
  {
    if jobs == [] then []
    else
      var k := |jobs| - 1;
      var before := Without(jobs[..k], id);
      if jobs[k].id != id then before + [jobs[k]] else before
  }

  function Enabled(j: Job, enabled: bool, now: int, tick: Ticker): Job {
    j.(enabled := enabled, updatedAt := now, next := if enabled then ComputeNextRun(j.schedule, now, tick) else None)
  }

  function EnableIn(jobs: seq<Job>, id: string, enabled: bool, now: int, tick: Ticker): seq<Job> {
    var i := Find(jobs, id);
    if i < 0 then jobs else jobs[i := Enabled(jobs[i], enabled, now, tick)]
  }

  /** A job after a run that started at `start` and ended at `now`; a one-shot job that stays is switched off. */
  function Finished(j: Job, start: int, error: Option<string>, now: int, tick: Ticker): Job {
    var ran := j.(lastRun := Some(start), updatedAt := now, lastError := error);
    if j.schedule.kind == "at" then ran.(enabled := false, next := None)
    else ran.(next := ComputeNextRun(j.schedule, now, tick))
  }

  function FinishIn(jobs: seq<Job>, id: string, start: int, error: Option<string>, now: int, tick: Ticker): seq<Job> {
    var i := Find(jobs, id);
    if i < 0 then jobs
    else if jobs[i].schedule.kind == "at" && jobs[i].deleteAfterRun then Without(jobs, id)
    else jobs[i := Finished(jobs[i], start, error, now, tick)]
  }

  function Recomputed(j: Job, now: int, tick: Ticker): Job {
    if j.enabled then j.(next := ComputeNextRun(j.schedule, now, tick)) else j
  }

  function RecomputeAll(jobs: seq<Job>, now: int, tick: Ticker): (r: seq<Job>)
    ensures |r| == |jobs|
    ensures forall i :: 0 <= i < |jobs| ==> r[i] == Recomputed(jobs[i], now, tick)
  {
    seq(|jobs|, i requires 0 <= i < |jobs| => Recomputed(jobs[i], now, tick))
  }

  function NewJob(id: string, schedule: Schedule, now: int, tick: Ticker): Job {
    Job(id, true, schedule, ComputeNextRun(schedule, now, tick), None, None, now, schedule.kind == "at")
  }

  /**
   * The service's mutable state. `disk` is the store file; every save succeeds. Each method is one section that
   * holds the lock, and takes the clock reading it makes as a parameter.
   */
  class CronService {
    var jobs: seq<Job>
    var disk: seq<Job>
    var running: bool
    const tick: Ticker

    constructor (stored: seq<Job>, tick: Ticker)
      ensures jobs == disk == stored && !running && this.tick == tick
    {
      this.tick := tick;
      jobs, disk, running := stored, stored, false;
    }

    method AddJob(id: string, schedule: Schedule, now: int) returns (job: Job)
      modifies this
      ensures job == NewJob(id, schedule, now, tick)
      ensures jobs == disk == old(jobs) + [job] && running == old(running)
    {
      var deleteAfterRun := schedule.kind == "at";
      job := Job(id, true, schedule, ComputeNextRun(schedule, now, tick), None, None, now, deleteAfterRun);
      jobs := jobs + [job];
      disk := jobs;
    }

    method RemoveJob(id: string) returns (removed: bool)
      modifies this
      ensures jobs == Without(old(jobs), id) && running == old(running)
      ensures removed <==> exists j :: j in old(jobs) && j.id == id
      ensures disk == if removed then jobs else old(disk)
    {
      hide Without;
      var kept: seq<Job> := [];
      for i := 0 to |jobs|
        invariant jobs == old(jobs) && kept == Without(jobs[..i], id)
        invariant running == old(running) && disk == old(disk)
      {
        WithoutLast(jobs[..i], jobs[i], id);
        assert jobs[..i + 1] == jobs[..i] + [jobs[i]];
        if jobs[i].id != id {
          kept := kept + [jobs[i]];
        }
      }
      assert jobs[..|jobs|] == jobs;
      removed := |kept| < |jobs|;
      WithoutShrinks(jobs, id);
      jobs := kept;
      if removed {
        disk := jobs;
      }
    }

    method EnableJob(id: string, enabled: bool, now: int) returns (found: bool)
      modifies this
      ensures jobs == EnableIn(old(jobs), id, enabled, now, tick) && running == old(running)
      ensures found <==> Find(old(jobs), id) >= 0
      ensures disk == if found then jobs else old(disk)
    {
      var i := 0;
      while i < |jobs|
        invariant 0 <= i <= |jobs| && jobs == old(jobs)
        invariant Find(jobs, id) == FindFrom(jobs, id, i)
        invariant disk == old(disk) && running == old(running)
      {
        if jobs[i].id == id {
          var job := jobs[i].(enabled := enabled, updatedAt := now);
          if enabled {
            job := job.(next := ComputeNextRun(job.schedule, now, tick));
          } else {
            job := job.(next := None);
          }
          jobs := jobs[i := job];
          disk := jobs;
          return true;
        }
        i := i + 1;
      }
      return false;
    }

    /** checkJobs, up to the point where it releases the lock: the due jobs are collected and disarmed. */
    method Collect(now: int) returns (due: seq<string>)
      modifies this
      ensures running == old(running)
      ensures !running ==> due == [] && jobs == old(jobs) && disk == old(disk)
      ensures running ==> due == DueIds(old(jobs), now) && jobs == disk == Disarm(old(jobs), due)
    {
      due := [];
      if !running {
        return;
      }
      for i := 0 to |jobs|
        invariant due == DueIds(jobs[..i], now) && jobs == old(jobs) && running == old(running)
      {
        assert jobs[..i + 1][..i] == jobs[..i];
        if Due(jobs[i], now) {
          due := due + [jobs[i].id];
        }
      }
      assert jobs[..|jobs|] == jobs;
      for i := 0 to |jobs|
        invariant |jobs| == |old(jobs)| && running == old(running)
        invariant forall k :: 0 <= k < i ==> jobs[k] == Disarm(old(jobs), due)[k]
        invariant forall k :: i <= k < |jobs| ==> jobs[k] == old(jobs)[k]
      {
        if jobs[i].id in due {
          jobs := jobs[i := jobs[i].(next := None)];
        }
      }
      disk := jobs;
    }

    /** executeJobByID, first half: the copy of the job that the handler is called with, if it still exists. */
    method Lookup(id: string) returns (job: Option<Job>)
      ensures job == var i := Find(jobs, id); if i < 0 then None else Some(jobs[i])
    {
      var i := 0;
      while i < |jobs|
        invariant 0 <= i <= |jobs| && Find(jobs, id) == FindFrom(jobs, id, i)
      {
        if jobs[i].id == id {
          return Some(jobs[i]);
        }
        i := i + 1;
      }
      return None;
    }

    /** executeJobByID, second half: the handler has returned. */
    method FinishJob(id: string, start: int, error: Option<string>, now: int)
      modifies this
      ensures jobs == FinishIn(old(jobs), id, start, error, now, tick) && running == old(running)
      ensures disk == if Find(old(jobs), id) >= 0 then jobs else old(disk)
    {
      var i := 0;
      while i < |jobs| && jobs[i].id != id
        invariant 0 <= i <= |jobs| && Find(jobs, id) == FindFrom(jobs, id, i)
      {
        i := i + 1;
      }
      if i == |jobs| {
        return;
      }
      var job := jobs[i].(lastRun := Some(start), updatedAt := now, lastError := error);
      jobs := jobs[i := job];
      if job.schedule.kind == "at" {
        if job.deleteAfterRun {
          WithoutUpdated(old(jobs), i, job);
          var _ := RemoveJob(id);
        } else {
          jobs := jobs[i := job.(enabled := false, next := None)];
        }
      } else {
        jobs := jobs[i := job.(next := ComputeNextRun(job.schedule, now, tick))];
      }
      disk := jobs;
    }

    method Start(now: int)
      modifies this
      ensures running
      ensures old(running) ==> jobs == old(jobs) && disk == old(disk)
      ensures !old(running) ==> jobs == disk == RecomputeAll(old(disk), now, tick)
    {
      if running {
        return;
      }
      jobs := disk;
      for i := 0 to |jobs|
        invariant |jobs| == |old(disk)| && disk == old(disk)
        invariant forall k :: 0 <= k < i ==> jobs[k] == Recomputed(old(disk)[k], now, tick)
        invariant forall k :: i <= k < |jobs| ==> jobs[k] == old(disk)[k]
      {
        if jobs[i].enabled {
          jobs := jobs[i := jobs[i].(next := ComputeNextRun(jobs[i].schedule, now, tick))];
        }
      }
      disk := jobs;
      running := true;
    }

    method Stop()
      modifies this
      ensures !running && jobs == old(jobs) && disk == old(disk)
    {
      if !running {
        return;
      }
      running := false;
    }
  }

  lemma {:induction false} WithoutShrinks(jobs: seq<Job>, id: string)
    ensures |Without(jobs, id)| < |jobs| <==> exists j :: j in jobs && j.id == id
  {
    if jobs != [] {
      WithoutShrinks(jobs[..|jobs| - 1], id);
      assert jobs == jobs[..|jobs| - 1] + [jobs[|jobs| - 1]];
    }
  }

  lemma WithoutLast(jobs: seq<Job>, last: Job, id: string)
    ensures Without(jobs + [last], id) == if last.id != id then Without(jobs, id) + [last] else Without(jobs, id)
  {
    assert (jobs + [last])[..|jobs|] == jobs;
  }

  lemma {:induction false} WithoutUpdated(jobs: seq<Job>, i: nat, job: Job)
    requires i < |jobs| && jobs[i].id == job.id
    ensures Without(jobs[i := job], job.id) == Without(jobs, job.id)
  {
    hide Without;
    var k := |jobs| - 1;
    var front := jobs[..k];
    WithoutLast(front, jobs[k], job.id);
    assert jobs == front + [jobs[k]];
    if i < k {
      WithoutUpdated(front, i, job);
      WithoutLast(front[i := job], jobs[k], job.id);
      assert jobs[i := job] == front[i := job] + [jobs[k]];
    } else {
      WithoutLast(front, job, job.id);
      assert jobs[i := job] == front + [job];
    }
  }
}
