/**
 * The millisecond deadlines of the scheduled-push client, kept in wrapping 32-bit arithmetic with 0
 * standing for "no deadline".
 */
module Deadlines {
  import opened WakePolicy

  const WRAP := 0x1_0000_0000
  const HALF := 0x8000_0000

  type uint32 = x: int | 0 <= x < WRAP

  /** The 32-bit reading of a millisecond clock that has really run for `elapsed` milliseconds. */
  function Reading(elapsed: nat): uint32 {
    elapsed % WRAP
  }

  function WrapAdd(a: uint32, b: nat): uint32 {
    (a + b) % WRAP
  }

  /** `static_cast<int32_t>(a - b)`. */
  function SignedDifference(a: uint32, b: uint32): int {
    var d := (a - b) % WRAP;
    if d >= HALF then d - WRAP else d
  }

  class SyncTimers {
    var nextSyncMs: uint32
    var nextDisplayAttemptMs: uint32

    constructor ()
      ensures nextSyncMs == 0 && nextDisplayAttemptMs == 0
    {
      nextSyncMs, nextDisplayAttemptMs := 0, 0;
    }

    method DeferPeriodicRetry(nowMs: uint32)
      modifies this`nextSyncMs
      ensures nextSyncMs == WrapAdd(nowMs, RETRY_SECONDS * 1000)
    {
      nextSyncMs := (nowMs + RETRY_SECONDS * 1000) % WRAP;
    }

    method DeferDisplayRetry(nowMs: uint32)
      modifies this`nextDisplayAttemptMs
      ensures nextDisplayAttemptMs == WrapAdd(nowMs, RETRY_SECONDS * 1000)
    {
      nextDisplayAttemptMs := (nowMs + RETRY_SECONDS * 1000) % WRAP;
    }

    method DeferPeriodicSync(nowMs: uint32, pollMinutes: nat, rtcNow: int, serverNextSyncAt: int)
      modifies this`nextSyncMs
      ensures nextSyncMs == WrapAdd(nowMs, SyncDelayMs(pollMinutes, rtcNow, serverNextSyncAt))
    {
      var delaySeconds := (if pollMinutes > 1 then pollMinutes else 1) * 60;
      if rtcNow >= MIN_VALID_EPOCH {
        var deadline := SelectNextSyncDeadline(rtcNow, serverNextSyncAt, pollMinutes);
        delaySeconds := if deadline - rtcNow > 1 then deadline - rtcNow else 1;
      }
      nextSyncMs := (nowMs + delaySeconds * 1000) % WRAP;
    }

    predicate PeriodicSyncDue(enabled: bool, nowMs: uint32)
      reads this`nextSyncMs
    {
      enabled && IsDue(nextSyncMs, nowMs)
    }

    /**
     * A synchronization deferred by `delay` at real time `start` comes due exactly then, whatever the clock
     * has wrapped in between, unless the deadline's 32-bit form is the sentinel: then it is due at once.
     */
    lemma SyncDueIsExact(start: nat, delay: nat, enabled: bool, now: nat)
      requires nextSyncMs == WrapAdd(Reading(start), delay) && delay <= HALF
      requires start <= now < start + delay + HALF
      ensures PeriodicSyncDue(enabled, Reading(now)) <==>
              enabled && (now >= start + delay || (start + delay) % WRAP == 0)
    {
      DeadlineIsExact(start, delay, now);
    }

    predicate DisplayAttemptDeferred(nowMs: uint32)
      reads this`nextDisplayAttemptMs
    {
      !IsDue(nextDisplayAttemptMs, nowMs)
    }
  }

  predicate IsDue(deadline: uint32, nowMs: uint32) {
    deadline == 0 || SignedDifference(nowMs, deadline) >= 0
  }

  /** The delay that a successful synchronization asks for. */
  function SyncDelayMs(pollMinutes: nat, rtcNow: int, serverNextSyncAt: int): (delay: nat)
    ensures 1 <= pollMinutes <= 1440 ==> 1000 <= delay <= 86_400_000
  {
    var seconds :=
      if rtcNow >= MIN_VALID_EPOCH then
        SelectNextSyncDeadline(rtcNow, serverNextSyncAt, pollMinutes) - rtcNow
      else (if pollMinutes > 1 then pollMinutes else 1) * 60;
    1000 * if seconds > 1 then seconds else 1
  }

  /**
   * With a valid clock the delay ends at the server's time when that comes sooner than a poll period, else, and
   * without a valid clock, after a poll period; it is at least a second and in whole seconds.
   */
  lemma SyncDelayIs(pollMinutes: nat, rtcNow: int, serverNextSyncAt: int)
    requires pollMinutes >= 1
    ensures var delay := SyncDelayMs(pollMinutes, rtcNow, serverNextSyncAt);
      if rtcNow >= MIN_VALID_EPOCH && rtcNow < serverNextSyncAt <= rtcNow + 60 * pollMinutes
      then delay == (serverNextSyncAt - rtcNow) * 1000
      else delay == pollMinutes * 60_000
  {
  }

  /**
   * A deadline set at real time `start` answers correctly at every real time from then until 2^31 ms
   * past it: due exactly from the deadline on, across any number of wraps of the clock, except that
   * a deadline whose 32-bit form is 0 reads as "no deadline" and is due at once.
   */
  lemma DeadlineIsExact(start: nat, delay: nat, now: nat)
    requires delay <= HALF
    requires start <= now < start + delay + HALF
    ensures IsDue(WrapAdd(Reading(start), delay), Reading(now)) <==>
            now >= start + delay || (start + delay) % WRAP == 0
  {
    ModShift(start, delay);
    var deadline := start + delay;
    var d := now - deadline;
    assert WrapAdd(Reading(start), delay) == deadline % WRAP;
    ModDifference(now, deadline);
    assert (Reading(now) - deadline % WRAP) % WRAP == d % WRAP;
    if d >= 0 {
      assert d % WRAP == d;
    } else {
      assert d % WRAP == d + WRAP;
    }
  }

  lemma ModShift(a: nat, b: nat)
    ensures (a % WRAP + b) % WRAP == (a + b) % WRAP
  {
    assert a == a / WRAP * WRAP + a % WRAP;
    ModMultiple(a % WRAP + b, a / WRAP);
  }

  lemma ModDifference(a: nat, b: nat)
    ensures (a % WRAP - b % WRAP) % WRAP == (a - b) % WRAP
  {
    ModMultiple(a % WRAP - b % WRAP, a / WRAP - b / WRAP);
    assert a - b == a % WRAP - b % WRAP + (a / WRAP - b / WRAP) * WRAP;
  }

  lemma ModMultiple(x: int, k: int)
    ensures (x + k * WRAP) % WRAP == x % WRAP
  {
  }

  /** A failed synchronization is retried five minutes later, not before. */
  lemma PeriodicRetryIsExact(start: nat, now: nat)
    requires start <= now < start + RETRY_SECONDS * 1000 + HALF
    ensures IsDue(WrapAdd(Reading(start), RETRY_SECONDS * 1000), Reading(now)) <==>
            now >= start + RETRY_SECONDS * 1000 || (start + RETRY_SECONDS * 1000) % WRAP == 0
  {
    DeadlineIsExact(start, RETRY_SECONDS * 1000, now);
  }

  /** A successful synchronization schedules the next one exactly, for every delay the settings allow. */
  lemma PeriodicSyncIsExact(start: nat, pollMinutes: nat, rtcNow: int, serverNextSyncAt: int, now: nat)
    requires 1 <= pollMinutes <= 1440
    requires start <= now < start + SyncDelayMs(pollMinutes, rtcNow, serverNextSyncAt) + HALF
    ensures var deadline := start + SyncDelayMs(pollMinutes, rtcNow, serverNextSyncAt);
            IsDue(WrapAdd(Reading(start), deadline - start), Reading(now)) <==>
            now >= deadline || deadline % WRAP == 0
  {
    DeadlineIsExact(start, SyncDelayMs(pollMinutes, rtcNow, serverNextSyncAt), now);
  }

  /** The sentinel does bite: this start and delay are due 999 ms early. */
  lemma SentinelIsReachable()
    ensures var start := WRAP - 1000;
            IsDue(WrapAdd(Reading(start), 1000), Reading(start + 1)) && start + 1 < start + 1000
  {
    DeadlineIsExact(WRAP - 1000, 1000, WRAP - 999);
  }
}
