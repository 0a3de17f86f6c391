/** Cooldowns of model providers: exponential, by kind of failure, with a reset window. */
module Cooldown {
  import opened Text

  datatype Reason = Auth | RateLimit | Billing | Timeout | Format | Overloaded | Unknown

  /** Times and durations are in milliseconds; None is the zero time. */
  type Time = Option<int>

  datatype Entry = Entry(
    errorCount: nat,
    failureCounts: map<Reason, nat>,
    cooldownEnd: Time,
    disabledUntil: Time,
    lastFailure: Time)

  const MINUTE: nat := 60_000
  const HOUR: nat := 3_600_000
  const FAILURE_WINDOW: nat := 24 * HOUR

  function Power(base: nat, exponent: nat): nat {
    if exponent == 0 then 1 else base * Power(base, exponent - 1)
  }

  /** One minute, times five for each further error, at most an hour. */
  function StandardCooldown(errors: nat): nat {
    Min(HOUR, MINUTE * Power(5, Min(Max(1, errors) - 1, 3)))
  }

  /** Five hours, doubled for each further billing error, at most a day. */
  function BillingCooldown(errors: nat): nat {
    Min(24 * HOUR, 5 * HOUR * Power(2, Min(Max(1, errors) - 1, 10)))
  }

  lemma {:induction false} PowerGrows(base: nat, m: nat, n: nat)
    requires base >= 1 && m <= n
    ensures 1 <= Power(base, m) <= Power(base, n)
    decreases n
  {
    if n > 0 {
      if m < n {
        PowerGrows(base, m, n - 1);
      } else {
        PowerGrows(base, m - 1, n - 1);
      }
      assert Power(base, n) == base * Power(base, n - 1);
      assert base * Power(base, n - 1) >= Power(base, n - 1);
    }
  }

  /** More errors never mean a shorter cooldown, and a cooldown keeps within its bounds. */
  lemma CooldownsGrow(m: nat, n: nat)
    requires m <= n
    ensures MINUTE <= StandardCooldown(m) <= StandardCooldown(n) <= HOUR
    ensures 5 * HOUR <= BillingCooldown(m) <= BillingCooldown(n) <= 24 * HOUR
  {
    PowerGrows(5, Min(Max(1, m) - 1, 3), Min(Max(1, n) - 1, 3));
    PowerGrows(2, Min(Max(1, m) - 1, 10), Min(Max(1, n) - 1, 10));
  }

  /** The documented table. */
  lemma CooldownTable()
    ensures StandardCooldown(1) == MINUTE && StandardCooldown(2) == 5 * MINUTE && StandardCooldown(3) == 25 * MINUTE
    ensures forall n :: n >= 4 ==> StandardCooldown(n) == HOUR
    ensures BillingCooldown(1) == 5 * HOUR && BillingCooldown(2) == 10 * HOUR && BillingCooldown(3) == 20 * HOUR
    ensures forall n :: n >= 4 ==> BillingCooldown(n) == 24 * HOUR
  {
    assert Power(5, 1) == 5 && Power(5, 2) == 25 && Power(5, 3) == 125;
    assert Power(2, 1) == 2 && Power(2, 2) == 4 && Power(2, 3) == 8;
    forall n | n >= 4
      ensures StandardCooldown(n) == HOUR && BillingCooldown(n) == 24 * HOUR
    {
      PowerGrows(2, 3, Min(n - 1, 10));
    }
  }

  // ----- one provider --------------------------------------------------------------------------------------

  function Count(counts: map<Reason, nat>, reason: Reason): nat {
    if reason in counts then counts[reason] else 0
  }

  function Total(counts: map<Reason, nat>): nat {
    Count(counts, Auth) + Count(counts, RateLimit) + Count(counts, Billing) + Count(counts, Timeout)
    + Count(counts, Format) + Count(counts, Overloaded) + Count(counts, Unknown)
  }

  const NEW := Entry(0, map[], None, None, None)

  /** The last failure is more than the failure window ago. */
  predicate Resets(e: Entry, now: int) {
    e.lastFailure.Some? && now - e.lastFailure.value > FAILURE_WINDOW
  }

  function Fail(e: Entry, reason: Reason, now: int): Entry {
    var base := if Resets(e, now) then e.(errorCount := 0, failureCounts := map[]) else e;
    var counted := base.(errorCount := base.errorCount + 1, lastFailure := Some(now),
                         failureCounts := base.failureCounts[reason := Count(base.failureCounts, reason) + 1]);
    if reason == Billing then
      counted.(disabledUntil := Some(now + BillingCooldown(Count(counted.failureCounts, Billing))))
    else counted.(cooldownEnd := Some(now + StandardCooldown(counted.errorCount)))
  }

  function Succeed(e: Entry): Entry {
    Entry(0, map[], None, None, e.lastFailure)
  }

  predicate Before(now: int, t: Time) { t.Some? && now < t.value }

  predicate Available(e: Entry, now: int) {
    !Before(now, e.disabledUntil) && !Before(now, e.cooldownEnd)
  }

  function Remaining(e: Entry, now: int): nat {
    Max(if Before(now, e.disabledUntil) then e.disabledUntil.value - now else 0,
        if Before(now, e.cooldownEnd) then e.cooldownEnd.value - now else 0)
  }

  /** The bookkeeping of a provider as of a clock reading. */
  predicate Sound(e: Entry, now: int) {
    && e.errorCount == Total(e.failureCounts)
    && (e.lastFailure.None? ==> e.cooldownEnd.None? && e.disabledUntil.None?)
    && (e.lastFailure.Some? ==> e.lastFailure.value <= now)
    && (e.cooldownEnd.Some? ==> e.cooldownEnd.value <= e.lastFailure.value + StandardCooldown(e.errorCount))
    && (e.disabledUntil.Some? ==>
          e.disabledUntil.value <= e.lastFailure.value + BillingCooldown(Count(e.failureCounts, Billing)))
  }

  predicate NotEarlier(t: Time, t': Time) {
    t.Some? ==> t'.Some? && t.value <= t'.value
  }

  /** A failure never shortens a cooldown; the counters are reset only after both cooldowns have run out. */
  lemma FailSound(e: Entry, reason: Reason, now: int)
    requires Sound(e, now)
    ensures var e' := Fail(e, reason, now);
            && Sound(e', now) && e'.lastFailure == Some(now)
            && NotEarlier(e.cooldownEnd, e'.cooldownEnd) && NotEarlier(e.disabledUntil, e'.disabledUntil)
    ensures Resets(e, now) ==> Available(e, now)
  {
    hide StandardCooldown, BillingCooldown, Total, Count;
    var billing := Count(e.failureCounts, Billing);
    OneMore(e.failureCounts, reason);
    OneMore(map[], reason);
    CooldownsGrow(e.errorCount, e.errorCount + 1);
    CooldownsGrow(billing, billing + 1);
    CooldownsGrow(1, 1);
  }

  lemma OneMore(counts: map<Reason, nat>, reason: Reason)
    ensures var counts' := counts[reason := Count(counts, reason) + 1];
            && Total(counts') == Total(counts) + 1
            && Count(counts', Billing) == Count(counts, Billing) + if reason == Billing then 1 else 0
    ensures Total(map[]) == 0 && Count(map[], Billing) == 0
  {
  }

  /** Cooldowns end at most an hour, and billing disables at most a day, after the last failure. */
  lemma CooldownBounds(e: Entry, now: int)
    requires Sound(e, now)
    ensures e.cooldownEnd.Some? ==> e.cooldownEnd.value <= e.lastFailure.value + HOUR
    ensures e.disabledUntil.Some? ==> e.disabledUntil.value <= e.lastFailure.value + 24 * HOUR
  {
    hide StandardCooldown, BillingCooldown;
    CooldownsGrow(e.errorCount, e.errorCount);
    CooldownsGrow(Count(e.failureCounts, Billing), Count(e.failureCounts, Billing));
  }

  datatype Failure = Failure(reason: Reason, time: int)

  function FailAll(e: Entry, failures: seq<Failure>): Entry
    decreases |failures|
  {
    if failures == [] then e else FailAll(Fail(e, failures[0].reason, failures[0].time), failures[1..])
  }

  predicate InOrder(start: int, failures: seq<Failure>)
    decreases |failures|
  {
    failures == [] || (start <= failures[0].time && InOrder(failures[0].time, failures[1..]))
  }

  /** Between two successes, through any number of failures with a non-decreasing clock, no cooldown moves back. */
  lemma {:induction false} CooldownsOnlyGrow(e: Entry, start: int, failures: seq<Failure>)
    requires Sound(e, start) && InOrder(start, failures)
    ensures var e' := FailAll(e, failures);
            NotEarlier(e.cooldownEnd, e'.cooldownEnd) && NotEarlier(e.disabledUntil, e'.disabledUntil)
    ensures failures != [] ==> Sound(FailAll(e, failures), failures[|failures| - 1].time)
    decreases |failures|
  {
    hide Fail, Sound;
    if failures != [] {
      var now := failures[0].time;
      SoundLater(e, start, now);
      FailSound(e, failures[0].reason, now);
      CooldownsOnlyGrow(Fail(e, failures[0].reason, now), now, failures[1..]);
    }
  }

  lemma SoundLater(e: Entry, now: int, later: int)
    requires Sound(e, now) && now <= later
    ensures Sound(e, later)
  {
  }

  /** A provider that has just failed stays unavailable for at least a minute. */
  lemma FailedIsUnavailable(e: Entry, reason: Reason, now: int, later: int)
    requires Sound(e, now) && later < now + MINUTE
    ensures var e' := Fail(e, reason, now); Before(later, e'.cooldownEnd) || Before(later, e'.disabledUntil)
  {
    hide StandardCooldown, BillingCooldown;
    forall n: nat
      ensures StandardCooldown(n) >= MINUTE && BillingCooldown(n) >= MINUTE
    {
      CooldownsGrow(n, n);
    }
  }

  // ----- from when on a provider is available ------------------------------------------------------------

  /** Unavailable before the time, available from then on. */
  ghost predicate AvailableFrom(e: Entry, now: int, time: int) {
    forall later :: now <= later ==> (Available(e, later) <==> time <= later)
  }

  function FirstCooldown(reason: Reason): nat {
    if reason == Billing then 5 * HOUR else MINUTE
  }

  /** A failure more than a day after the last one counts as the first: a minute, or five hours for billing. */
  lemma LateFailureIsTheFirst(e: Entry, reason: Reason, now: int)
    requires Sound(e, now) && e.lastFailure.Some? && e.lastFailure.value + FAILURE_WINDOW < now
    ensures AvailableFrom(Fail(e, reason, now), now, now + FirstCooldown(reason))
    ensures Fail(e, reason, now).errorCount == 1
  {
    CooldownBounds(e, now);
    CooldownTable();
    hide StandardCooldown, BillingCooldown;
    assert Count(map[reason := 1], reason) == 1;
  }

  /** So does the first failure after a success, which makes the provider available at once. */
  lemma SuccessStartsOver(e: Entry, reason: Reason, now: int)
    ensures forall later :: Available(Succeed(e), later)
    ensures AvailableFrom(Fail(Succeed(e), reason, now), now, now + FirstCooldown(reason))
    ensures Fail(Succeed(e), reason, now).errorCount == 1
  {
    CooldownTable();
    hide StandardCooldown, BillingCooldown;
    assert Count(map[reason := 1], reason) == 1;
  }

  /** Each failure comes after the one before, and within the failure window. */
  predicate InWindow(start: int, failures: seq<Failure>)
    decreases |failures|
  {
    failures == []
    || (start <= failures[0].time <= start + FAILURE_WINDOW && InWindow(failures[0].time, failures[1..]))
  }

  lemma {:induction false} FailuresAddUp(e: Entry, failures: seq<Failure>, billing: bool)
    requires failures != [] && forall f :: f in failures ==> (f.reason == Billing) == billing
    requires e.lastFailure.Some? ==> InWindow(e.lastFailure.value, failures)
    requires e.lastFailure.None? ==> InWindow(failures[0].time, failures)
    ensures var e', last := FailAll(e, failures), failures[|failures| - 1].time;
            && e'.errorCount == e.errorCount + |failures|
            && Count(e'.failureCounts, Billing) == Count(e.failureCounts, Billing) + (if billing then |failures| else 0)
            && e'.cooldownEnd == (if billing then e.cooldownEnd else Some(last + StandardCooldown(e'.errorCount)))
            && e'.disabledUntil == if billing then Some(last + BillingCooldown(Count(e'.failureCounts, Billing)))
                                   else e.disabledUntil
    decreases |failures|
  {
    hide StandardCooldown, BillingCooldown;
    var f := failures[0];
    var next := Fail(e, f.reason, f.time);
    assert !Resets(e, f.time);
    if |failures| == 1 {
      assert FailAll(e, failures) == next;
    } else {
      hide Fail, InWindow;
      StepInWindow(e, failures);
      FailuresAddUp(next, failures[1..], billing);
    }
  }

  lemma StepInWindow(e: Entry, failures: seq<Failure>)
    requires |failures| > 1
    requires e.lastFailure.Some? ==> InWindow(e.lastFailure.value, failures)
    requires e.lastFailure.None? ==> InWindow(failures[0].time, failures)
    ensures var f := failures[0];
            var next := Fail(e, f.reason, f.time);
            && !Resets(e, f.time) && next.lastFailure == Some(f.time) && InWindow(f.time, failures[1..])
            && next.errorCount == e.errorCount + 1
            && Count(next.failureCounts, Billing) ==
               Count(e.failureCounts, Billing) + (if f.reason == Billing then 1 else 0)
            && (f.reason == Billing ==> next.cooldownEnd == e.cooldownEnd)
            && (f.reason != Billing ==> next.disabledUntil == e.disabledUntil)
  {
    hide StandardCooldown, BillingCooldown;
  }

  /**
   * From a new provider, or one that has just succeeded: n failures of one kind within the window make it unavailable
   * for exactly the n-th cooldown of that kind after the last of them.
   */
  lemma FailuresEscalate(e: Entry, failures: seq<Failure>, billing: bool)
    requires e == NEW || e == Succeed(e)
    requires failures != [] && forall f :: f in failures ==> (f.reason == Billing) == billing
    requires e.lastFailure.Some? ==> InWindow(e.lastFailure.value, failures)
    requires e.lastFailure.None? ==> InWindow(failures[0].time, failures)
    ensures var n, last := |failures|, failures[|failures| - 1].time;
            AvailableFrom(FailAll(e, failures), last,
                          last + if billing then BillingCooldown(n) else StandardCooldown(n))
  {
    hide StandardCooldown, BillingCooldown, FailAll, InWindow;
    FailuresAddUp(e, failures, billing);
  }

  // ----- the tracker -----------------------------------------------------------------------------------------

  type Entries = map<string, Entry>

  function EntryOf(entries: Entries, provider: string): Entry {
    if provider in entries then entries[provider] else NEW
  }

  predicate AllSound(entries: Entries, now: int) {
    forall p :: p in entries ==> Sound(entries[p], now)
  }

  function Failed(entries: Entries, provider: string, reason: Reason, now: int): Entries {
    entries[provider := Fail(EntryOf(entries, provider), reason, now)]
  }

  function Succeeded(entries: Entries, provider: string): Entries {
    if provider in entries then entries[provider := Succeed(entries[provider])] else entries
  }

  /** Every marking keeps the bookkeeping of every provider sound. */
  lemma MarkingsAreSound(entries: Entries, provider: string, reason: Reason, start: int, now: int)
    requires AllSound(entries, start) && start <= now
    ensures AllSound(Failed(entries, provider, reason, now), now) && AllSound(Succeeded(entries, provider), now)
  {
    hide Fail;
    SoundLater(EntryOf(entries, provider), start, now);
    FailSound(EntryOf(entries, provider), reason, now);
  }

  class CooldownTracker {
    var entries: Entries

    constructor ()
      ensures entries == map[]
    {
      entries := map[];
    }

    method MarkFailure(provider: string, reason: Reason, now: int)
      modifies this
      ensures entries == Failed(old(entries), provider, reason, now)
    {
      ghost var was := EntryOf(entries, provider);
      hide Sound, StandardCooldown, BillingCooldown, Count;
      var entry := if provider in entries then entries[provider] else Entry(0, map[], None, None, None);
      if entry.lastFailure.Some? && now - entry.lastFailure.value > FAILURE_WINDOW {
        entry := entry.(errorCount := 0, failureCounts := map[]);
      }
      entry := entry.(errorCount := entry.errorCount + 1);
      entry := entry.(failureCounts := entry.failureCounts[reason := Count(entry.failureCounts, reason) + 1]);
      entry := entry.(lastFailure := Some(now));
      if reason == Billing {
        var billingCount := Count(entry.failureCounts, Billing);
        entry := entry.(disabledUntil := Some(now + BillingCooldown(billingCount)));
      } else {
        entry := entry.(cooldownEnd := Some(now + StandardCooldown(entry.errorCount)));
      }
      assert entry == Fail(was, reason, now);
      entries := entries[provider := entry];
    }

    method MarkSuccess(provider: string)
      modifies this
      ensures entries == Succeeded(old(entries), provider)
    {
      if provider in entries {
        entries := entries[provider := Succeed(entries[provider])];
      }
    }

    predicate IsAvailable(provider: string, now: int)
      reads this
    {
      Available(EntryOf(entries, provider), now)
    }

    method CooldownRemaining(provider: string, now: int) returns (remaining: nat)
      ensures remaining == Remaining(EntryOf(entries, provider), now)
      ensures remaining == 0 <==> IsAvailable(provider, now)
    {
      remaining := 0;
      if provider !in entries {
        return;
      }
      var entry := entries[provider];
      if Before(now, entry.disabledUntil) {
        var d := entry.disabledUntil.value - now;
        if d > remaining {
          remaining := d;
        }
      }
      if Before(now, entry.cooldownEnd) {
        var d := entry.cooldownEnd.value - now;
        if d > remaining {
          remaining := d;
        }
      }
    }
  }
}
