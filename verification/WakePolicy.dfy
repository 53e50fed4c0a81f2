/**
 * Which cached job the device shows, and when it wakes for the next one.
 *
 * The selection loops and the calendar-alarm rule are modelled as they stand in the firmware; the
 * lemmas compose them into the two promises a reader of any single loop cannot see: the device
 * never sleeps through a job, and the jobs it shows come in strictly increasing display order.
 */
module WakePolicy {

  datatype Window = Window(displayAt: int, expiresAt: int, displayed: bool)

  const DISPLAY_WAKE_LEAD_SECONDS := 0
  const DISPLAY_WAKE_WAIT_SECONDS := 65
  const RETRY_SECONDS := 300
  const MIN_VALID_EPOCH := 1735689600
  const ARMING_MARGIN_SECONDS := 5
  const MAX_HORIZON_SECONDS := 24 * 60 * 60

  predicate Expired(job: Window, at: int) {
    job.expiresAt > 0 && job.expiresAt <= at
  }

  predicate Due(job: Window, now: int) {
    !job.displayed && 0 < job.displayAt <= now && !Expired(job, now)
  }

  predicate Imminent(job: Window, now: int, wait: int) {
    !job.displayed && now < job.displayAt <= now + wait && !Expired(job, job.displayAt)
  }

  /** The latest due job, the last of them when several share a display time; -1 when none is due. */
  ghost predicate IsDueChoice(jobs: seq<Window>, now: int, selected: int) {
    if selected == -1 then
      forall i :: 0 <= i < |jobs| ==> !Due(jobs[i], now)
    else
      && 0 <= selected < |jobs|
      && Due(jobs[selected], now)
      && (forall i :: 0 <= i < |jobs| && Due(jobs[i], now) ==> jobs[i].displayAt <= jobs[selected].displayAt)
      && (forall i :: selected < i < |jobs| && Due(jobs[i], now) ==> jobs[i].displayAt < jobs[selected].displayAt)
  }

  /** The earliest imminent job, the first of them on a tie; -1 when none is imminent. */
  ghost predicate IsImminentChoice(jobs: seq<Window>, now: int, wait: int, selected: int) {
    if selected == -1 then
      forall i :: 0 <= i < |jobs| ==> !Imminent(jobs[i], now, wait)
    else
      && 0 <= selected < |jobs|
      && Imminent(jobs[selected], now, wait)
      && (forall i :: 0 <= i < |jobs| && Imminent(jobs[i], now, wait) ==> jobs[selected].displayAt <= jobs[i].displayAt)
      && (forall i :: 0 <= i < selected && Imminent(jobs[i], now, wait) ==>
            jobs[selected].displayAt < jobs[i].displayAt)
  }

  method SelectDueJob(jobs: array<Window>, now: int) returns (selected: int)
    ensures IsDueChoice(jobs[..], now, selected)
  {
    selected := -1;
    for index := 0 to jobs.Length
      invariant IsDueChoice(jobs[..index], now, selected)
    {
      var job := jobs[index];
      if !job.displayed && 0 < job.displayAt <= now && !(job.expiresAt > 0 && job.expiresAt <= now) {
        if selected < 0 || job.displayAt >= jobs[selected].displayAt {
          selected := index;
        }
      }
      assert jobs[..index + 1] == jobs[..index] + [job];
    }
    assert jobs[..jobs.Length] == jobs[..];
  }

  method SelectImminentJob(jobs: array<Window>, now: int, maximumWait: int) returns (selected: int)
    ensures IsImminentChoice(jobs[..], now, maximumWait, selected)
  {
    selected := -1;
    for index := 0 to jobs.Length
      invariant IsImminentChoice(jobs[..index], now, maximumWait, selected)
    {
      var job := jobs[index];
      if !job.displayed && now < job.displayAt <= now + maximumWait
         && !(job.expiresAt > 0 && job.expiresAt <= job.displayAt) {
        if selected < 0 || job.displayAt < jobs[selected].displayAt {
          selected := index;
        }
      }
      assert jobs[..index + 1] == jobs[..index] + [job];
    }
    assert jobs[..jobs.Length] == jobs[..];
  }

  /** The windows once `selected` was shown: every other due job not newer than it is closed too. */
  function Suppressed(jobs: seq<Window>, selected: nat, now: int): (r: seq<Window>)
    requires selected < |jobs|
    ensures |r| == |jobs|
  {
    seq(|jobs|, i requires 0 <= i < |jobs| =>
      if i != selected && Due(jobs[i], now) && jobs[i].displayAt <= jobs[selected].displayAt
      then jobs[i].(displayed := true) else jobs[i])
  }

  function NewlyMarked(before: seq<Window>, after: seq<Window>): nat
    requires |before| == |after|
  {
    if before == [] then 0
    else
      var last := |before| - 1;
      NewlyMarked(before[..last], after[..last]) + (if before[last] != after[last] then 1 else 0)
  }

  method SuppressOlderDueJobs(jobs: array<Window>, selected: nat, now: int) returns (suppressed: nat)
    modifies jobs
    ensures selected >= jobs.Length ==> suppressed == 0 && jobs[..] == old(jobs[..])
    ensures selected < jobs.Length ==>
      && jobs[..] == Suppressed(old(jobs[..]), selected, now)
      && suppressed == NewlyMarked(old(jobs[..]), jobs[..])
  {
    if selected >= jobs.Length { return 0; }
    suppressed := 0;
    var selectedTime := jobs[selected].displayAt;
    ghost var before := jobs[..];
    for index := 0 to jobs.Length
      invariant forall i :: index <= i < jobs.Length ==> jobs[i] == before[i]
      invariant forall i :: 0 <= i < index ==> jobs[i] == Suppressed(before, selected, now)[i]
      invariant suppressed == NewlyMarked(before[..index], jobs[..index])
    {
      var job := jobs[index];
      ghost var prefix := jobs[..index];
      if index != selected && !job.displayed && 0 < job.displayAt <= now && job.displayAt <= selectedTime
         && !(job.expiresAt > 0 && job.expiresAt <= now) {
        jobs[index] := job.(displayed := true);
        suppressed := suppressed + 1;
      }
      assert jobs[..index + 1][..index] == prefix;
      assert before[..index + 1][..index] == before[..index];
    }
    assert jobs[..] == Suppressed(before, selected, now);
    assert before[..jobs.Length] == before && jobs[..jobs.Length] == jobs[..];
  }

  function SelectNextSyncDeadline(now: int, serverNextSyncAt: int, pollMinutes: nat): int {
    var localDeadline := now + (if pollMinutes > 0 then pollMinutes else 1) * 60;
    if now < serverNextSyncAt < localDeadline then serverNextSyncAt else localDeadline
  }

  /** The next synchronization is a poll period ahead, or at the server's time when that is sooner and still to come. */
  lemma SoonerServerTimeIsFollowed(now: int, serverNextSyncAt: int, pollMinutes: nat)
    ensures var deadline := SelectNextSyncDeadline(now, serverNextSyncAt, pollMinutes);
      && now < deadline <= now + 60 * (if pollMinutes == 0 then 1 else pollMinutes)
      && (serverNextSyncAt > now ==> deadline <= serverNextSyncAt)
      && (deadline == serverNextSyncAt || deadline == now + 60 * (if pollMinutes == 0 then 1 else pollMinutes))
  {
  }

  /** A job is due exactly from its display time until it expires, once, and only at a positive time. */
  lemma DueWindow(job: Window, now: int)
    ensures Due(job, now) <==>
      && !job.displayed && job.displayAt > 0 && job.displayAt <= now && (job.expiresAt <= 0 || now < job.expiresAt)
  {
  }

  /** A job is imminent exactly when it becomes due within the wait. */
  lemma ImminentBecomesDue(job: Window, now: int, wait: nat)
    requires now >= 0
    ensures Imminent(job, now, wait) <==> !Due(job, now) && now < job.displayAt <= now + wait && Due(job, job.displayAt)
  {
  }

  /** When an open job asks the device to be awake. */
  function WakeCandidate(job: Window, now: int, lead: int, retry: int): int {
    var candidate := if job.displayAt <= now then now + retry else job.displayAt - lead;
    if candidate <= now then now + 1 else candidate
  }

  predicate AsksForWake(job: Window, now: int) {
    !job.displayed && job.displayAt > 0 && !Expired(job, now)
  }

  /** The earliest of the synchronization deadline and the open jobs' candidates; 0 when there is none. */
  ghost predicate IsNextWake(jobs: seq<Window>, now: int, nextSyncAt: int, lead: int, retry: int, wake: int) {
    && (nextSyncAt > now ==> wake != 0 && wake <= nextSyncAt)
    && (forall i :: 0 <= i < |jobs| && AsksForWake(jobs[i], now) ==>
          wake != 0 && wake <= WakeCandidate(jobs[i], now, lead, retry))
    && (wake == 0
        || (nextSyncAt > now && wake == nextSyncAt)
        || (exists i ::
              0 <= i < |jobs| && AsksForWake(jobs[i], now) && wake == WakeCandidate(jobs[i], now, lead, retry)))
  }

  /** The value the loop holds after the jobs: 0 stands for none yet, whatever the clock reads. */
  function NextWake(jobs: seq<Window>, now: int, nextSyncAt: int, lead: int, retry: int): int {
    if jobs == [] then (if nextSyncAt > now then nextSyncAt else 0)
    else
      var job := jobs[|jobs| - 1];
      var earlier := NextWake(jobs[..|jobs| - 1], now, nextSyncAt, lead, retry);
      var candidate := WakeCandidate(job, now, lead, retry);
      if AsksForWake(job, now) && (earlier == 0 || candidate < earlier) then candidate else earlier
  }

  /** On every clock that is not before the epoch, where no candidate is 0, that value is the earliest wake. */
  lemma {:induction false} NextWakeIsEarliest(jobs: seq<Window>, now: int, nextSyncAt: int, lead: int, retry: int)
    requires now >= 0
    ensures IsNextWake(jobs, now, nextSyncAt, lead, retry, NextWake(jobs, now, nextSyncAt, lead, retry))
  {
    if jobs != [] {
      var rest := jobs[..|jobs| - 1];
      NextWakeIsEarliest(rest, now, nextSyncAt, lead, retry);
      assert jobs == rest + [jobs[|jobs| - 1]];
      assert forall i :: 0 <= i < |rest| ==> jobs[i] == rest[i];
    }
  }

  method SelectNextWake(jobs: array<Window>, now: int, nextSyncAt: int, lead: int, retry: int)
    returns (nextWake: int)
    ensures nextWake == NextWake(jobs[..], now, nextSyncAt, lead, retry)
    ensures now >= 0 ==> IsNextWake(jobs[..], now, nextSyncAt, lead, retry, nextWake)
  {
    nextWake := if nextSyncAt > now then nextSyncAt else 0;
    for index := 0 to jobs.Length
      invariant nextWake == NextWake(jobs[..index], now, nextSyncAt, lead, retry)
    {
      var job := jobs[index];
      assert jobs[..index + 1][..index] == jobs[..index];
      if !job.displayed && job.displayAt > 0 && !(job.expiresAt > 0 && job.expiresAt <= now) {
        var candidate := if job.displayAt <= now then now + retry else job.displayAt - lead;
        if candidate <= now { candidate := now + 1; }
        if nextWake == 0 || candidate < nextWake { nextWake := candidate; }
      }
    }
    assert jobs[..jobs.Length] == jobs[..];
    if now >= 0 { NextWakeIsEarliest(jobs[..], now, nextSyncAt, lead, retry); }
  }

  /** The wake `next_wake_epoch` plans: none while the clock is invalid, else always one after now. */
  ghost predicate IsPlannedWake(jobs: seq<Window>, now: int, serverNextSyncAt: int, pollMinutes: nat, wake: int) {
    if now < MIN_VALID_EPOCH then wake == 0
    else
      exists selected ::
        && IsNextWake(jobs, now, SelectNextSyncDeadline(now, serverNextSyncAt, pollMinutes),
                      DISPLAY_WAKE_LEAD_SECONDS, RETRY_SECONDS, selected)
        && wake == if selected > now then selected else now + RETRY_SECONDS
  }

  method NextWakeEpoch(jobs: array<Window>, now: int, serverNextSyncAt: int, pollMinutes: nat)
    returns (wake: int)
    ensures IsPlannedWake(jobs[..], now, serverNextSyncAt, pollMinutes, wake)
  {
    if now < MIN_VALID_EPOCH { return 0; }
    var nextSync := SelectNextSyncDeadline(now, serverNextSyncAt, pollMinutes);
    var selected := SelectNextWake(jobs, now, nextSync, DISPLAY_WAKE_LEAD_SECONDS, RETRY_SECONDS);
    wake := if selected > now then selected else now + RETRY_SECONDS;
  }

  /** The minute the calendar alarm is armed for; 0 when it is refused. */
  function SelectCalendarAlarmEpoch(now: int, target: int): int {
    if now <= 0 || target <= now || target - now > MAX_HORIZON_SECONDS then 0
    else
      var alarm := target - target % 60;
      if alarm <= now + ARMING_MARGIN_SECONDS then 0 else alarm
  }

  /**
   * A planned wake lies after now and at most one poll period, hence at most a day, ahead; it is no
   * later than any job still to be shown. The alarm rule, asked at any later clock reading before
   * the wake, therefore never refuses it for its horizon: it refuses exactly when the minute starts
   * within the arming margin.
   */
  lemma PlannedWakeBounds(jobs: seq<Window>, now: int, serverNextSyncAt: int, pollMinutes: nat, wake: int)
    requires now >= MIN_VALID_EPOCH && 1 <= pollMinutes <= 1440
    requires IsPlannedWake(jobs, now, serverNextSyncAt, pollMinutes, wake)
    ensures now < wake <= now + pollMinutes * 60 <= now + MAX_HORIZON_SECONDS
    ensures forall i :: 0 <= i < |jobs| && AsksForWake(jobs[i], now) && jobs[i].displayAt > now ==>
              wake <= jobs[i].displayAt
    ensures forall later {:trigger SelectCalendarAlarmEpoch(later, wake)} :: now <= later < wake ==>
              (SelectCalendarAlarmEpoch(later, wake) == 0 <==> wake - wake % 60 <= later + ARMING_MARGIN_SECONDS)
  {
    var selected :|
      && IsNextWake(jobs, now, SelectNextSyncDeadline(now, serverNextSyncAt, pollMinutes),
                    DISPLAY_WAKE_LEAD_SECONDS, RETRY_SECONDS, selected)
      && wake == if selected > now then selected else now + RETRY_SECONDS;
    assert selected > now;
    forall i | 0 <= i < |jobs| && AsksForWake(jobs[i], now) && jobs[i].displayAt > now
      ensures wake <= jobs[i].displayAt
    {
      assert WakeCandidate(jobs[i], now, DISPLAY_WAKE_LEAD_SECONDS, RETRY_SECONDS) == jobs[i].displayAt;
    }
  }

  /** An armed alarm is the start of the target's minute. */
  lemma AlarmIsTheMinute(now: int, target: int)
    ensures var alarm := SelectCalendarAlarmEpoch(now, target);
      && (alarm != 0 ==> alarm % 60 == 0 && alarm <= target < alarm + 60 && now + 5 < alarm)
      && (alarm == 0 <==> now <= 0 || target <= now || target > now + 86400 || target - target % 60 <= now + 5)
  {
  }

  /** A job that is open and overdue, as after a failed attempt, is tried again within five minutes. */
  lemma OverdueIsRetried(jobs: seq<Window>, now: int, serverNextSyncAt: int, pollMinutes: nat, wake: int, job: int)
    requires now >= MIN_VALID_EPOCH && 1 <= pollMinutes <= 1440
    requires IsPlannedWake(jobs, now, serverNextSyncAt, pollMinutes, wake)
    requires 0 <= job < |jobs| && AsksForWake(jobs[job], now) && jobs[job].displayAt <= now
    ensures now < wake <= now + 300
    ensures serverNextSyncAt > now ==> wake <= serverNextSyncAt
  {
    var selected :|
      && IsNextWake(jobs, now, SelectNextSyncDeadline(now, serverNextSyncAt, pollMinutes),
                    DISPLAY_WAKE_LEAD_SECONDS, RETRY_SECONDS, selected)
      && wake == if selected > now then selected else now + RETRY_SECONDS;
    assert selected > now;
    assert WakeCandidate(jobs[job], now, DISPLAY_WAKE_LEAD_SECONDS, RETRY_SECONDS) == now + 300;
  }

  /**
   * No oversleep. If the planned wake is some open job's display time and the alarm was armed for
   * it, then at every clock reading from the alarm on, until that job expires, the boot-time check
   * finds a job: due, or imminent within the wait the firmware allows.
   */
  lemma NoOversleep(jobs: seq<Window>, armedAt: int, wake: int, job: int, check: int, due: int, imminent: int)
    requires 0 <= job < |jobs| && !jobs[job].displayed && jobs[job].displayAt == wake
    requires jobs[job].expiresAt <= 0 || wake < jobs[job].expiresAt
    requires SelectCalendarAlarmEpoch(armedAt, wake) != 0
    requires SelectCalendarAlarmEpoch(armedAt, wake) <= check
    requires !Expired(jobs[job], check)
    requires IsDueChoice(jobs, check, due)
    requires IsImminentChoice(jobs, check, DISPLAY_WAKE_WAIT_SECONDS, imminent)
    ensures armedAt + ARMING_MARGIN_SECONDS < SelectCalendarAlarmEpoch(armedAt, wake) <= wake
    ensures due >= 0 || imminent >= 0
    ensures due < 0 ==> check < jobs[imminent].displayAt <= wake
  {
    if check < wake {
      assert Imminent(jobs[job], check, DISPLAY_WAKE_WAIT_SECONDS);
    } else {
      assert Due(jobs[job], check);
    }
  }

  lemma EarliestIsPlanned(jobs: seq<Window>, now: int, serverNextSyncAt: int, pollMinutes: nat, wake: int, job: int)
    requires now >= MIN_VALID_EPOCH && 1 <= pollMinutes <= 1440
    requires IsPlannedWake(jobs, now, serverNextSyncAt, pollMinutes, wake)
    requires 0 <= job < |jobs| && AsksForWake(jobs[job], now)
    requires now < jobs[job].displayAt <= SelectNextSyncDeadline(now, serverNextSyncAt, pollMinutes)
    requires forall i :: 0 <= i < |jobs| && AsksForWake(jobs[i], now) ==> jobs[job].displayAt <= jobs[i].displayAt
    ensures wake == jobs[job].displayAt
  {
    PlannedWakeBounds(jobs, now, serverNextSyncAt, pollMinutes, wake);
    var selected :|
      && IsNextWake(jobs, now, SelectNextSyncDeadline(now, serverNextSyncAt, pollMinutes),
                    DISPLAY_WAKE_LEAD_SECONDS, RETRY_SECONDS, selected)
      && wake == if selected > now then selected else now + RETRY_SECONDS;
    if selected != SelectNextSyncDeadline(now, serverNextSyncAt, pollMinutes) {
      var i :| 0 <= i < |jobs| && AsksForWake(jobs[i], now)
               && selected == WakeCandidate(jobs[i], now, DISPLAY_WAKE_LEAD_SECONDS, RETRY_SECONDS);
      assert jobs[job].displayAt <= jobs[i].displayAt;
    }
  }

  /**
   * From plan to display: the earliest open job, when it comes before the next synchronization, is the
   * planned wake; and if the alarm was armed for it, at or after planning, every check from the alarm on
   * until that job expires finds a job.
   */
  lemma EarliestJobIsMet(jobs: seq<Window>, now: int, serverNextSyncAt: int, pollMinutes: nat, wake: int,
                         job: int, armedAt: int, check: int, due: int, imminent: int)
    requires now >= MIN_VALID_EPOCH && 1 <= pollMinutes <= 1440
    requires IsPlannedWake(jobs, now, serverNextSyncAt, pollMinutes, wake)
    requires 0 <= job < |jobs| && AsksForWake(jobs[job], now) && !Expired(jobs[job], jobs[job].displayAt)
    requires now < jobs[job].displayAt <= SelectNextSyncDeadline(now, serverNextSyncAt, pollMinutes)
    requires forall i :: 0 <= i < |jobs| && AsksForWake(jobs[i], now) ==> jobs[job].displayAt <= jobs[i].displayAt
    requires now <= armedAt && 0 < SelectCalendarAlarmEpoch(armedAt, wake) <= check && !Expired(jobs[job], check)
    requires IsDueChoice(jobs, check, due) && IsImminentChoice(jobs, check, DISPLAY_WAKE_WAIT_SECONDS, imminent)
    ensures wake == jobs[job].displayAt && now + ARMING_MARGIN_SECONDS < check
    ensures due >= 0 || imminent >= 0
  {
    EarliestIsPlanned(jobs, now, serverNextSyncAt, pollMinutes, wake, job);
    NoOversleep(jobs, armedAt, wake, job, check, due, imminent);
  }

  /**
   * The wait after an early wake ends with something to show: once the clock reaches the imminent
   * job's display time, and while that job is not expired, some job is due.
   */
  lemma WaitEndsInDisplay(jobs: seq<Window>, early: int, imminent: int, now: int, due: int)
    requires early > 0
    requires IsImminentChoice(jobs, early, DISPLAY_WAKE_WAIT_SECONDS, imminent) && imminent >= 0
    requires jobs[imminent].displayAt <= now && !Expired(jobs[imminent], now)
    requires IsDueChoice(jobs, now, due)
    ensures due >= 0 && jobs[imminent].displayAt <= jobs[due].displayAt <= now
  {
    assert Due(jobs[imminent], now);
  }

  /** The in-memory windows after `selected` was shown at `now`. */
  function AfterDisplay(jobs: seq<Window>, selected: nat, now: int): (r: seq<Window>)
    requires selected < |jobs|
    ensures |r| == |jobs|
  {
    Suppressed(jobs, selected, now)[selected := jobs[selected].(displayed := true)]
  }

  /** Showing the chosen job leaves nothing due at that instant and touches only the flags of due jobs. */
  lemma DisplayClearsDue(jobs: seq<Window>, now: int, selected: nat)
    requires IsDueChoice(jobs, now, selected) && selected < |jobs|
    ensures forall i :: 0 <= i < |jobs| ==> !Due(AfterDisplay(jobs, selected, now)[i], now)
    ensures forall i :: 0 <= i < |jobs| ==>
              AfterDisplay(jobs, selected, now)[i] ==
              if Due(jobs[i], now) then jobs[i].(displayed := true) else jobs[i]
  {
    forall i | 0 <= i < |jobs|
      ensures AfterDisplay(jobs, selected, now)[i] ==
              if Due(jobs[i], now) then jobs[i].(displayed := true) else jobs[i]
    {
      if Due(jobs[i], now) {
        assert jobs[i].displayAt <= jobs[selected].displayAt;
      }
    }
  }

  /** One pass of the display check (nothing due, a failed attempt, or a display), or a reboot's reload. */
  datatype Check = Check(now: int, selected: int, shown: bool) | Reload

  /** A reload finds the same jobs, flags included, in any order. */
  ghost predicate CheckStep(before: seq<Window>, check: Check, after: seq<Window>) {
    match check
    case Check(now, selected, shown) =>
      && IsDueChoice(before, now, selected)
      && (if shown then 0 <= selected < |before| && after == AfterDisplay(before, selected, now) else after == before)
    case Reload => multiset(after) == multiset(before)
  }

  /** A run of display checks and reloads over one manifest, with a clock that never steps back. */
  ghost predicate CheckRun(states: seq<seq<Window>>, checks: seq<Check>) {
    && |states| == |checks| + 1
    && (forall i {:trigger checks[i]} :: 0 <= i < |checks| ==> CheckStep(states[i], checks[i], states[i + 1]))
    && (forall i, j :: 0 <= i <= j < |checks| && checks[i].Check? && checks[j].Check? ==>
          checks[i].now <= checks[j].now)
  }

  ghost predicate NothingDue(jobs: seq<Window>, at: int) {
    forall i :: 0 <= i < |jobs| ==> !Due(jobs[i], at)
  }

  /** What is not due at an instant does not become due at it by a later check or a reload. */
  lemma StepKeepsNothingDue(before: seq<Window>, check: Check, after: seq<Window>, at: int)
    requires CheckStep(before, check, after) && NothingDue(before, at)
    ensures NothingDue(after, at)
  {
    if check.Reload? {
      forall i | 0 <= i < |after|
        ensures !Due(after[i], at)
      {
        assert after[i] in multiset(before);
        var k :| 0 <= k < |before| && before[k] == after[i];
      }
    } else if check.shown {
      DisplayClearsDue(before, check.now, check.selected);
    }
  }

  lemma {:induction false} NothingDueSince(states: seq<seq<Window>>, checks: seq<Check>, i: nat, j: nat)
    requires CheckRun(states, checks) && i < j < |states| && checks[i].Check? && checks[i].shown
    ensures NothingDue(states[j], checks[i].now)
    decreases j - i
  {
    if j == i + 1 {
      assert CheckStep(states[i], checks[i], states[i + 1]);
      DisplayClearsDue(states[i], checks[i].now, checks[i].selected);
    } else {
      NothingDueSince(states, checks, i, j - 1);
      assert CheckStep(states[j - 1], checks[j - 1], states[j]);
      StepKeepsNothingDue(states[j - 1], checks[j - 1], states[j], checks[i].now);
    }
  }

  /** What is due now and was not due at an earlier instant is displayed after that instant. */
  lemma DueSince(job: Window, earlier: int, now: int)
    requires earlier <= now && Due(job, now) && !Due(job, earlier)
    ensures earlier < job.displayAt <= now
  {
  }

  /**
   * Display order. Over every run of checks, with failed attempts and reboots in between, each displayed
   * job's display time is strictly after that of the job displayed before it.
   */
  lemma DisplaysStrictlyIncrease(states: seq<seq<Window>>, checks: seq<Check>, i: nat, j: nat)
    requires CheckRun(states, checks)
    requires i < j < |checks| && checks[i].Check? && checks[i].shown && checks[j].Check? && checks[j].shown
    ensures 0 <= checks[i].selected < |states[i]| && 0 <= checks[j].selected < |states[j]|
    ensures states[i][checks[i].selected].displayAt < states[j][checks[j].selected].displayAt
  {
    assert CheckStep(states[i], checks[i], states[i + 1]);
    assert CheckStep(states[j], checks[j], states[j + 1]);
    NothingDueSince(states, checks, i, j);
    DueSince(states[j][checks[j].selected], checks[i].now, checks[j].now);
  }
}
