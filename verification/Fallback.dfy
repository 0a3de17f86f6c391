/** The fallback chain: the candidates in order, until one of them can be run and succeeds. */
module Fallback {
  import opened Text
  import opened Cooldown

  datatype Candidate = Candidate(provider: string, model: string)

  /** A run's response, or its error as the classifier sees it: a reason, or None if it has no idea. */
  datatype RunResult<R> = Response(response: R) | Error(reason: Option<Reason>)

  datatype Attempt = Attempt(candidate: Candidate, skipped: bool, reason: Reason)

  datatype Result<R> =
    | Success(response: R, candidate: Candidate, attempts: seq<Attempt>)
    | NoCandidates
    | Canceled
    | Unclassified
    | NonRetriable(reason: Reason)
    | Exhausted(attempts: seq<Attempt>)

  /**
   * What the outside world does at the i-th candidate: whether the context is cancelled before and after the run, what
   * the run comes to, and what the clock shows when availability is checked and when a failure is marked.
   */
  datatype World<R> = World(
    canceledBefore: nat -> bool,
    run: nat -> RunResult<R>,
    canceledAfter: nat -> bool,
    checkedAt: nat -> int,
    markedAt: nat -> int)

  ghost predicate ClockRuns<R>(w: World<R>) {
    forall i: nat :: w.checkedAt(i) <= w.markedAt(i) <= w.checkedAt(i + 1)
  }

  /** What happens at a candidate. Only the first two let the chain go on. */
  datatype Verdict<R> =
    | Skipped
    | FailedRetriably(reason: Reason)
    | CanceledEarly
    | Succeeds(response: R)
    | CanceledLate
    | NotClassified
    | Rejected(reason: Reason)
  {
    predicate GoesOn() { Skipped? || FailedRetriably? }

    /** The candidate's run function was called. */
    predicate Ran() { !Skipped? && !CanceledEarly? }
  }

  function Judge<R>(entries: Entries, c: Candidate, i: nat, w: World<R>): Verdict<R> {
    if w.canceledBefore(i) then CanceledEarly
    else if !Available(EntryOf(entries, c.provider), w.checkedAt(i)) then Skipped
    else
      match w.run(i)
      case Response(r) => Succeeds(r)
      case Error(reason) =>
        if w.canceledAfter(i) then CanceledLate
        else if reason.None? then NotClassified
        else if reason.value == Format then Rejected(reason.value)
        else FailedRetriably(reason.value)
  }

  /** The tracker after the first n candidates have been passed over. */
  function Tracker<R>(entries: Entries, candidates: seq<Candidate>, w: World<R>, n: nat): Entries
    requires n <= |candidates|
  {
    if n == 0 then entries
    else
      var before := Tracker(entries, candidates, w, n - 1);
      match Judge(before, candidates[n - 1], n - 1, w)
      case FailedRetriably(reason) => Failed(before, candidates[n - 1].provider, reason, w.markedAt(n - 1))
      case _ => before
  }

  function VerdictAt<R>(entries: Entries, candidates: seq<Candidate>, w: World<R>, i: nat): Verdict<R>
    requires i < |candidates|
  {
    Judge(Tracker(entries, candidates, w, i), candidates[i], i, w)
  }

  /** One attempt for each candidate passed over; a skipped one is booked as rate-limited. */
  function Attempts<R>(entries: Entries, candidates: seq<Candidate>, w: World<R>, n: nat): seq<Attempt>
    requires n <= |candidates|
  {
    seq(n, i requires 0 <= i < n => AttemptFor(candidates[i], VerdictAt(entries, candidates, w, i)))
  }

  function AttemptFor<R>(c: Candidate, v: Verdict<R>): Attempt {
    Attempt(c, v.Skipped?, if v.FailedRetriably? then v.reason else RateLimit)
  }

  /** What a candidate's turn leaves in the tracker: a retriable failure and a success are marked, nothing else is. */
  function Marked<R>(entries: Entries, c: Candidate, v: Verdict<R>, now: int): Entries {
    match v
    case FailedRetriably(reason) => Failed(entries, c.provider, reason, now)
    case Succeeds(_) => Succeeded(entries, c.provider)
    case _ => entries
  }

  lemma AttemptsMore<R>(entries: Entries, candidates: seq<Candidate>, w: World<R>, n: nat)
    requires n < |candidates|
    ensures Attempts(entries, candidates, w, n + 1)
            == Attempts(entries, candidates, w, n) + [AttemptFor(candidates[n], VerdictAt(entries, candidates, w, n))]
  {
    hide VerdictAt, AttemptFor;
  }

  lemma TrackerMore<R>(entries: Entries, candidates: seq<Candidate>, w: World<R>, n: nat)
    requires n < |candidates|
    ensures var v, before := VerdictAt(entries, candidates, w, n), Tracker(entries, candidates, w, n);
            && v == Judge(before, candidates[n], n, w)
            && (v.GoesOn() ==>
                  Tracker(entries, candidates, w, n + 1) == Marked(before, candidates[n], v, w.markedAt(n)))
  {
    hide Judge, Failed;
  }

  /** The candidate is run when its turn comes: nothing was cancelled before, and its provider is available. */
  predicate IsRun<R>(entries: Entries, candidates: seq<Candidate>, w: World<R>, i: nat)
    requires i < |candidates|
  {
    && !w.canceledBefore(i)
    && Available(EntryOf(Tracker(entries, candidates, w, i), candidates[i].provider), w.checkedAt(i))
  }

  /** The chain goes on exactly past a candidate in cooldown and one whose run failed retriably. */
  lemma VerdictMeans<R>(entries: Entries, candidates: seq<Candidate>, w: World<R>, i: nat)
    requires i < |candidates|
    ensures var v := VerdictAt(entries, candidates, w, i);
            && (v.Ran() <==> IsRun(entries, candidates, w, i))
            && (v.GoesOn() <==>
                !w.canceledBefore(i)
                && (IsRun(entries, candidates, w, i) ==>
                      && w.run(i).Error? && !w.canceledAfter(i)
                      && w.run(i).reason.Some? && w.run(i).reason.value != Format))
            && (v.FailedRetriably? ==> w.run(i) == Error(Some(v.reason)))
            && (v.Ran() && w.run(i).Error? && w.canceledAfter(i) ==> v.CanceledLate?)
            && (v.Ran() && w.run(i) == Error(None) && !w.canceledAfter(i) ==> v.NotClassified?)
            && (v.Ran() && w.run(i) == Error(Some(Format)) && !w.canceledAfter(i) ==> v == Rejected(Format))
            && (v.Ran() && w.run(i).Response? ==> v == Succeeds(w.run(i).response))
  {
    hide Tracker, Available;
  }

  /**
   * The chain stops at the first candidate that is neither skipped nor fails retriably, with an attempt for each one
   * before it, and marks what comes of it; or it goes past all of them.
   */
  ghost predicate Executed<R>(entries: Entries, candidates: seq<Candidate>, w: World<R>, stop: nat, result: Result<R>,
                              after: Entries)
  {
    && stop <= |candidates|
    && (forall i :: 0 <= i < stop ==> VerdictAt(entries, candidates, w, i).GoesOn())
    && (candidates == [] ==> result == NoCandidates && after == entries)
    && (stop == |candidates| > 0 ==>
          && result == Exhausted(Attempts(entries, candidates, w, stop))
          && after == Tracker(entries, candidates, w, stop))
    && (stop < |candidates| ==>
          var v, before := VerdictAt(entries, candidates, w, stop), Tracker(entries, candidates, w, stop);
          && !v.GoesOn()
          && result == Outcome(v, candidates[stop], Attempts(entries, candidates, w, stop))
          && after == Marked(before, candidates[stop], v, w.markedAt(stop)))
  }

  /** Of the first n candidates exactly those were run whose turn it was. */
  predicate RanExactly<R>(ran: set<nat>, entries: Entries, candidates: seq<Candidate>, w: World<R>, n: nat)
    requires n <= |candidates|
  {
    (forall i :: i in ran ==> i < n) && forall i: nat :: i < n ==> (i in ran <==> IsRun(entries, candidates, w, i))
  }

  lemma NothingToRun<R>(entries: Entries, candidates: seq<Candidate>, w: World<R>)
    requires candidates == []
    ensures Executed(entries, candidates, w, 0, NoCandidates, entries) && RanExactly({}, entries, candidates, w, 0)
    ensures AbortsAreFinal(entries, candidates, w, 0, NoCandidates, entries)
  {
  }

  function RanNow<R>(ran: set<nat>, v: Verdict<R>, i: nat): set<nat> {
    if v.Ran() then ran + {i} else ran
  }

  lemma RanMore<R>(ran: set<nat>, entries: Entries, candidates: seq<Candidate>, w: World<R>, n: nat)
    requires n < |candidates| && RanExactly(ran, entries, candidates, w, n)
    ensures RanExactly(RanNow(ran, VerdictAt(entries, candidates, w, n), n), entries, candidates, w, n + 1)
  {
    hide IsRun, VerdictAt;
    VerdictMeans(entries, candidates, w, n);
  }

  /**
   * A format error, a cancellation and an error that cannot be classified end the chain at the candidate that was run,
   * and none of them, nor a cancellation before a run, is marked.
   */
  ghost predicate AbortsAreFinal<R>(entries: Entries, candidates: seq<Candidate>, w: World<R>, stop: nat,
                                    result: Result<R>, after: Entries)
  {
    && (result.Canceled? || result.Unclassified? || result.NonRetriable? ==>
          stop < |candidates| && after == Tracker(entries, candidates, w, stop))
    && (forall i: nat :: i <= stop && i < |candidates| && IsRun(entries, candidates, w, i) && w.run(i).Error? ==>
          && (w.canceledAfter(i) ==> i == stop && result == Canceled)
          && (!w.canceledAfter(i) && w.run(i).reason == None ==> i == stop && result == Unclassified)
          && (!w.canceledAfter(i) && w.run(i).reason == Some(Format) ==> i == stop && result == NonRetriable(Format)))
  }

  lemma AbortIsFinal<R>(entries: Entries, candidates: seq<Candidate>, w: World<R>, stop: nat)
    requires stop < |candidates| && !VerdictAt(entries, candidates, w, stop).GoesOn()
    requires forall k :: 0 <= k < stop ==> VerdictAt(entries, candidates, w, k).GoesOn()
    ensures var v, before := VerdictAt(entries, candidates, w, stop), Tracker(entries, candidates, w, stop);
            var result := Outcome(v, candidates[stop], Attempts(entries, candidates, w, stop));
            var after := Marked(before, candidates[stop], v, w.markedAt(stop));
            Executed(entries, candidates, w, stop, result, after)
            && AbortsAreFinal(entries, candidates, w, stop, result, after)
  {
    hide Judge, Tracker, VerdictAt, IsRun, Attempts;
    forall i | 0 <= i <= stop
      ensures var v := VerdictAt(entries, candidates, w, i);
              IsRun(entries, candidates, w, i) && w.run(i).Error? ==>
                && (w.canceledAfter(i) ==> v.CanceledLate?)
                && (!w.canceledAfter(i) && w.run(i).reason == None ==> v.NotClassified?)
                && (!w.canceledAfter(i) && w.run(i).reason == Some(Format) ==> v == Rejected(Format))
    {
      VerdictMeans(entries, candidates, w, i);
    }
  }

  lemma ExhaustionIsFinal<R>(entries: Entries, candidates: seq<Candidate>, w: World<R>)
    requires candidates != [] && forall k :: 0 <= k < |candidates| ==> VerdictAt(entries, candidates, w, k).GoesOn()
    ensures var result := Exhausted(Attempts(entries, candidates, w, |candidates|));
            var after := Tracker(entries, candidates, w, |candidates|);
            Executed(entries, candidates, w, |candidates|, result, after)
            && AbortsAreFinal(entries, candidates, w, |candidates|, result, after)
  {
    hide Judge, Tracker, VerdictAt, IsRun, Attempts;
    forall i | 0 <= i < |candidates|
      ensures IsRun(entries, candidates, w, i) ==>
                && w.run(i).Error? && !w.canceledAfter(i)
                && w.run(i).reason.Some? && w.run(i).reason.value != Format
    {
      VerdictMeans(entries, candidates, w, i);
    }
  }

  /** The outcome that belongs to the first candidate at which the chain does not go on. */
  function Outcome<R>(v: Verdict<R>, c: Candidate, attempts: seq<Attempt>): Result<R>
    requires !v.GoesOn()
  {
    match v
    case Succeeds(r) => Success(r, c, attempts)
    case CanceledEarly => Canceled
    case CanceledLate => Canceled
    case NotClassified => Unclassified
    case Rejected(reason) => NonRetriable(reason)
  }

  /** The first n candidates have been passed over. */
  ghost predicate Passed<R>(entries: Entries, candidates: seq<Candidate>, w: World<R>, n: nat, attempts: seq<Attempt>,
                            ran: set<nat>, now: Entries)
    requires n <= |candidates|
  {
    && attempts == Attempts(entries, candidates, w, n) && now == Tracker(entries, candidates, w, n)
    && (forall k :: 0 <= k < n ==> VerdictAt(entries, candidates, w, k).GoesOn())
    && RanExactly(ran, entries, candidates, w, n)
  }

  lemma NonePassed<R>(entries: Entries, candidates: seq<Candidate>, w: World<R>)
    ensures Passed(entries, candidates, w, 0, [], {}, entries)
  {
  }

  lemma OneMoreTurn<R>(entries: Entries, candidates: seq<Candidate>, w: World<R>, i: nat, attempts: seq<Attempt>,
                       ran: set<nat>, now: Entries, v: Verdict<R>, after: Entries)
    requires i < |candidates| && Passed(entries, candidates, w, i, attempts, ran, now)
    requires v == Judge(now, candidates[i], i, w) && after == Marked(now, candidates[i], v, w.markedAt(i))
    ensures var ran' := RanNow(ran, v, i);
            if v.GoesOn()
            then Passed(entries, candidates, w, i + 1, attempts + [AttemptFor(candidates[i], v)], ran', after)
            else var result := Outcome(v, candidates[i], attempts);
                 && Executed(entries, candidates, w, i, result, after)
                 && AbortsAreFinal(entries, candidates, w, i, result, after)
                 && RanExactly(ran', entries, candidates, w, i + 1)
  {
    hide Judge, Attempts, AttemptFor, Marked, Tracker, VerdictAt, Outcome, AbortsAreFinal, RanExactly, RanNow, Executed;
    TrackerMore(entries, candidates, w, i);
    RanMore(ran, entries, candidates, w, i);
    if v.GoesOn() {
      AttemptsMore(entries, candidates, w, i);
    } else {
      AbortIsFinal(entries, candidates, w, i);
    }
  }

  lemma AllPassed<R>(entries: Entries, candidates: seq<Candidate>, w: World<R>, attempts: seq<Attempt>, ran: set<nat>,
                     now: Entries)
    requires candidates != [] && Passed(entries, candidates, w, |candidates|, attempts, ran, now)
    ensures Executed(entries, candidates, w, |candidates|, Exhausted(attempts), now)
    ensures AbortsAreFinal(entries, candidates, w, |candidates|, Exhausted(attempts), now)
    ensures RanExactly(ran, entries, candidates, w, |candidates|)
  {
    ExhaustionIsFinal(entries, candidates, w);
    hide Executed, AbortsAreFinal, RanExactly, Attempts, Tracker;
  }

  /** One attempt for each candidate: skipped, and booked as rate-limited, or run and failed for its reason. */
  lemma AttemptMeans<R>(entries: Entries, candidates: seq<Candidate>, w: World<R>, n: nat, i: nat)
    requires i < n <= |candidates| && VerdictAt(entries, candidates, w, i).GoesOn()
    ensures var ran := IsRun(entries, candidates, w, i);
            && (ran ==> w.run(i).Error? && w.run(i).reason.Some?)
            && Attempts(entries, candidates, w, n)[i]
               == Attempt(candidates[i], !ran, if ran then w.run(i).reason.value else RateLimit)
  {
    VerdictMeans(entries, candidates, w, i);
    hide IsRun, VerdictAt;
  }

  class FallbackChain<R> {
    const cooldown: CooldownTracker

    constructor (cooldown: CooldownTracker)
      ensures this.cooldown == cooldown
    {
      this.cooldown := cooldown;
    }

    /**
     * `stop` is the number of candidates passed over. The chain stops at the first candidate that is neither skipped
     * nor fails retriably; if it succeeds its provider's cooldowns are cleared, and an abort marks nothing. If all are
     * passed over, the error lists exactly one attempt for each candidate. `ran` are the candidates that were run.
     */
    method Execute(candidates: seq<Candidate>, w: World<R>)
      returns (result: Result<R>, ghost stop: nat, ghost ran: set<nat>)
      modifies cooldown
      ensures Executed(old(cooldown.entries), candidates, w, stop, result, cooldown.entries)
      ensures RanExactly(ran, old(cooldown.entries), candidates, w, Min(stop + 1, |candidates|))
      ensures AbortsAreFinal(old(cooldown.entries), candidates, w, stop, result, cooldown.entries)
    {
      hide Judge, AttemptFor, Marked, Outcome, AbortsAreFinal, RanExactly, Executed, Passed, RanNow;
      stop, ran := 0, {};
      ghost var entries := cooldown.entries;
      if |candidates| == 0 {
        NothingToRun(entries, candidates, w);
        return NoCandidates, 0, {};
      }
      NonePassed(entries, candidates, w);
      var attempts: seq<Attempt> := [];
      for i := 0 to |candidates|
        invariant stop == i && Passed(entries, candidates, w, i, attempts, ran, cooldown.entries)
      {
        ghost var before := cooldown.entries;
        var verdict := TryCandidate(candidates[i], i, w);
        OneMoreTurn(entries, candidates, w, i, attempts, ran, before, verdict, cooldown.entries);
        ran := RanNow(ran, verdict, i);
        if !verdict.GoesOn() {
          return Outcome(verdict, candidates[i], attempts), i, ran;
        }
        attempts := attempts + [AttemptFor(candidates[i], verdict)];
        stop := i + 1;
      }
      AllPassed(entries, candidates, w, attempts, ran, cooldown.entries);
      result := Exhausted(attempts);
    }

    /** One candidate's turn: the checks, the run (of an available provider only), and what is marked afterwards. */
    method TryCandidate(candidate: Candidate, i: nat, w: World<R>) returns (verdict: Verdict<R>)
      modifies cooldown
      ensures verdict == Judge(old(cooldown.entries), candidate, i, w)
      ensures verdict.Ran() ==> Available(EntryOf(old(cooldown.entries), candidate.provider), w.checkedAt(i))
      ensures cooldown.entries == Marked(old(cooldown.entries), candidate, verdict, w.markedAt(i))
    {
      hide Available, Failed, Succeeded;
      if w.canceledBefore(i) {
        return CanceledEarly;
      }
      if !cooldown.IsAvailable(candidate.provider, w.checkedAt(i)) {
        return Skipped;
      }
      var ran := w.run(i);
      if ran.Response? {
        cooldown.MarkSuccess(candidate.provider);
        return Succeeds(ran.response);
      }
      if w.canceledAfter(i) {
        return CanceledLate;
      }
      if ran.reason.None? {
        return NotClassified;
      }
      if ran.reason.value == Format {
        return Rejected(ran.reason.value);
      }
      cooldown.MarkFailure(candidate.provider, ran.reason.value, w.markedAt(i));
      return FailedRetriably(ran.reason.value);
    }
  }

  // ----- what the chain promises ---------------------------------------------------------------------------

  lemma {:induction false} TrackerSound<R>(entries: Entries, candidates: seq<Candidate>, w: World<R>, n: nat)
    requires n <= |candidates| && ClockRuns(w) && AllSound(entries, w.checkedAt(0))
    ensures AllSound(Tracker(entries, candidates, w, n), w.checkedAt(n))
  {
    hide Judge, Sound, Failed;
    if n > 0 {
      var m := n - 1;
      TrackerSound(entries, candidates, w, m);
      assert w.checkedAt(m) <= w.markedAt(m) <= w.checkedAt(m + 1);
      var before := Tracker(entries, candidates, w, m);
      AllSoundLater(before, w.checkedAt(m), w.checkedAt(n));
      match Judge(before, candidates[m], m, w)
      case FailedRetriably(reason) =>
        MarkingsAreSound(before, candidates[m].provider, reason, w.checkedAt(m), w.markedAt(m));
        AllSoundLater(Tracker(entries, candidates, w, n), w.markedAt(m), w.checkedAt(n));
      case _ =>
    }
  }

  lemma AllSoundLater(entries: Entries, now: int, later: int)
    requires AllSound(entries, now) && now <= later
    ensures AllSound(entries, later)
  {
    hide Sound;
    forall p | p in entries
      ensures Sound(entries[p], later)
    {
      SoundLater(entries[p], now, later);
    }
  }

  /** While candidates are passed over no provider becomes available again before its time. */
  lemma {:induction false} StaysUnavailable<R>(entries: Entries, candidates: seq<Candidate>, w: World<R>,
                                               provider: string, m: nat, n: nat, later: int)
    requires m <= n <= |candidates| && ClockRuns(w) && AllSound(entries, w.checkedAt(0))
    requires !Available(EntryOf(Tracker(entries, candidates, w, m), provider), later)
    ensures !Available(EntryOf(Tracker(entries, candidates, w, n), provider), later)
    decreases n - m
  {
    hide Judge, Sound, Fail;
    if m < n {
      StaysUnavailable(entries, candidates, w, provider, m, n - 1, later);
      TrackerSound(entries, candidates, w, n - 1);
      assert w.checkedAt(n - 1) <= w.markedAt(n - 1);
      var before := Tracker(entries, candidates, w, n - 1);
      match Judge(before, candidates[n - 1], n - 1, w)
      case FailedRetriably(reason) =>
        FailDelays(before, candidates[n - 1].provider, reason, w.checkedAt(n - 1), w.markedAt(n - 1));
      case _ =>
    }
  }

  lemma EntrySound(entries: Entries, provider: string, now: int, later: int)
    requires AllSound(entries, now) && now <= later
    ensures Sound(EntryOf(entries, provider), later)
  {
  }

  lemma FailDelays(entries: Entries, provider: string, reason: Reason, start: int, now: int)
    requires AllSound(entries, start) && start <= now
    ensures var e, e' := EntryOf(entries, provider), Fail(EntryOf(entries, provider), reason, now);
            NotEarlier(e.cooldownEnd, e'.cooldownEnd) && NotEarlier(e.disabledUntil, e'.disabledUntil)
  {
    hide Fail;
    SoundLater(EntryOf(entries, provider), start, now);
    FailSound(EntryOf(entries, provider), reason, now);
  }

  /**
   * A provider that failed retriably at the i-th candidate is not run again in the same Execute, for whatever later
   * candidate, before a minute has passed.
   */
  lemma NotRunAgainWithinAMinute<R>(entries: Entries, candidates: seq<Candidate>, w: World<R>, i: nat, j: nat)
    requires i < j < |candidates| && ClockRuns(w) && AllSound(entries, w.checkedAt(0))
    requires VerdictAt(entries, candidates, w, i).FailedRetriably?
    requires candidates[j].provider == candidates[i].provider && w.checkedAt(j) < w.markedAt(i) + MINUTE
    ensures !VerdictAt(entries, candidates, w, j).Ran()
  {
    hide Sound, Fail;
    var provider, later := candidates[i].provider, w.checkedAt(j);
    var before := Tracker(entries, candidates, w, i);
    TrackerSound(entries, candidates, w, i);
    assert w.checkedAt(i) <= w.markedAt(i);
    EntrySound(before, provider, w.checkedAt(i), w.markedAt(i));
    FailedIsUnavailable(EntryOf(before, provider), VerdictAt(entries, candidates, w, i).reason, w.markedAt(i), later);
    StaysUnavailable(entries, candidates, w, provider, i + 1, j, later);
  }

  /**
   * When nothing is cancelled and every failure is retriable, the chain is "the first available candidate
   * whose run succeeds": candidate k answers if and only if it is available and succeeds, and every earlier one is
   * unavailable when its turn comes or fails.
   */
  lemma FirstAvailableSuccess<R>(entries: Entries, candidates: seq<Candidate>, w: World<R>, k: nat)
    requires k < |candidates|
    requires forall i: nat :: !w.canceledBefore(i) && !w.canceledAfter(i)
    requires forall i: nat :: w.run(i).Error? ==> w.run(i).reason.Some? && w.run(i).reason.value != Format
    ensures (&& VerdictAt(entries, candidates, w, k).Succeeds?
             && forall i :: 0 <= i < k ==> VerdictAt(entries, candidates, w, i).GoesOn())
            <==> (Runs(entries, candidates, w, k) && forall i :: 0 <= i < k ==> !Runs(entries, candidates, w, i))
  {
    hide Tracker, Available;
    forall i | 0 <= i <= k
      ensures VerdictAt(entries, candidates, w, i).Succeeds? == Runs(entries, candidates, w, i)
      ensures VerdictAt(entries, candidates, w, i).GoesOn() == !Runs(entries, candidates, w, i)
    {
    }
  }

  predicate Runs<R>(entries: Entries, candidates: seq<Candidate>, w: World<R>, i: nat)
    requires i < |candidates|
  {
    Available(EntryOf(Tracker(entries, candidates, w, i), candidates[i].provider), w.checkedAt(i)) && w.run(i).Response?
  }
}
