/**
 * The client over many wakes: reboots, reloads and display attempts, with any failures, between two
 * synchronizations. The jobs it shows come in strictly increasing order of their display times wherever the
 * last write before each reboot went through.
 */
module DeviceWakes {
  import opened Wrappers
  import opened Bytes
  import opened ManifestDoc
  import opened ManifestFiles
  import opened DeviceProtocol
  import opened DeviceClient
  import Deadlines
  import WakePolicy

  /** One wake: perhaps a reboot, then a display attempt with these readings and failures. */
  datatype Wake = Wake(
    reboot: bool, removeOk: bool, renameOk: bool, enabled: bool, attemptMs: Deadlines.uint32, now: int,
    rtcWakeBoot: bool, clock: seq<int>, renders: bool, x: Faults, slot: SlotFaults)

  /** What a wake showed, when, and which wake it was. */
  datatype Display = Display(job: Job, at: int, png: Bytes, wake: nat)

  predicate Reads(w: Wake, t: int) {
    t == w.now || t in w.clock
  }

  /** The clock never steps back from one wake to a later one. */
  ghost predicate ForwardClock(wakes: seq<Wake>) {
    forall i, j, s, t {:trigger Reads(wakes[i], s), Reads(wakes[j], t)} ::
      0 <= i < j < |wakes| && Reads(wakes[i], s) && Reads(wakes[j], t) ==> s <= t
  }

  ghost predicate NothingDue(jobs: seq<Job>, at: int) {
    forall i {:trigger AsWindow(jobs[i])} :: 0 <= i < |jobs| ==> !WakePolicy.Due(AsWindow(jobs[i]), at)
  }

  lemma PermutedNothingDue(a: seq<Job>, b: seq<Job>, at: int)
    requires multiset(a) == multiset(b) && NothingDue(a, at)
    ensures NothingDue(b, at)
  {
    forall i | 0 <= i < |b|
      ensures !WakePolicy.Due(AsWindow(b[i]), at)
    {
      assert b[i] in multiset(a);
      var k :| 0 <= k < |a| && a[k] == b[i];
      assert !WakePolicy.Due(AsWindow(a[k]), at);
    }
  }

  /** At every instant at which nothing was due before, nothing is due after. */
  ghost predicate StaysQuiet(before: seq<Job>, after: seq<Job>) {
    forall t :: NothingDue(before, t) ==> NothingDue(after, t)
  }

  lemma PermutedStaysQuiet(a: seq<Job>, b: seq<Job>)
    requires multiset(a) == multiset(b)
    ensures StaysQuiet(a, b)
  {
    forall t | NothingDue(a, t)
      ensures NothingDue(b, t)
    {
      PermutedNothingDue(a, b, t);
    }
  }

  /** Power comes back and the manifest is loaded: if the marks were on the card, the same jobs are held. */
  method Reboot(c: DeviceClient, removeOk: bool, renameOk: bool)
    requires c.Valid() && c.loaded
    modifies c, c.timers
    ensures c.Valid() && c.loaded && c.shown == old(c.shown) && old(c.trail) <= c.trail
    ensures OnCard(c.flash.files, c.manifest)
    ensures OnCard(old(c.flash.files), old(c.manifest)) ==> StaysQuiet(old(c.manifest).jobs, c.manifest.jobs)
  {
    ghost var before := c.manifest.jobs;
    c.PowerCycle();
    c.EnsureManifestLoaded(removeOk, renameOk);
    assert multiset(RecoveredJobs(old(c.flash.files))) == multiset(c.manifest.jobs);
    if multiset(before) == multiset(c.manifest.jobs) {
      PermutedStaysQuiet(before, c.manifest.jobs);
    }
  }

  /** In this state of the client the shown job was held and due, and the panel had shown just `base`. */
  ghost predicate HeldAndDue(s: Device, d: Display, base: seq<Shown>) {
    s.loaded && d.job in s.manifest.jobs && WakePolicy.Due(AsWindow(d.job), d.at) && s.shown == base
  }

  ghost predicate ShownFrom(trail: seq<Device>, d: Display, base: seq<Shown>) {
    exists t :: 0 <= t < |trail| && HeldAndDue(trail[t], d, base)
  }

  /** What a display tells about the jobs before and after it. */
  ghost predicate ShowsNext(before: seq<Job>, d: Display, after: seq<Job>) {
    && WakePolicy.Due(AsWindow(d.job), d.at) && d.job in before
    && NothingDue(after, d.at)
  }

  lemma MarksStayQuiet(before: seq<Job>, after: seq<Job>)
    requires OnlyMarks(before, after)
    ensures StaysQuiet(before, after)
  {
    forall t | NothingDue(before, t)
      ensures NothingDue(after, t)
    {
      forall i | 0 <= i < |after|
        ensures !WakePolicy.Due(AsWindow(after[i]), t)
      {
        assert after[i].(displayed := before[i].displayed) == before[i];
        assert !WakePolicy.Due(AsWindow(before[i]), t);
      }
    }
  }

  method Attempt(c: DeviceClient, w: Wake, ghost k: nat) returns (ghost display: Option<Display>)
    requires c.Valid() && c.loaded
    modifies c, c.timers
    ensures c.Valid() && c.loaded && old(c.trail) <= c.trail
    ensures StaysQuiet(old(c.manifest).jobs, c.manifest.jobs)
    ensures display.None? ==> c.shown == old(c.shown) && c.manifest == old(c.manifest) && c.flash == old(c.flash)
    ensures display.Some? ==>
      && display.value.wake == k && Reads(w, display.value.at) && ShownFrom(c.trail, display.value, old(c.shown))
      && ShowsNext(old(c.manifest).jobs, display.value, c.manifest.jobs)
      && c.shown == old(c.shown) + [Shown(display.value.job.id, display.value.png)]
      && (w.x.AllWell() ==> OnCard(c.flash.files, c.manifest))
  {
    ghost var before, assets, wasShown := c.manifest.jobs, c.flash.assets, c.shown;
    ghost var start := |c.trail| - 1;
    var displayed, at, selected :=
      c.DisplayDueCached(w.enabled, w.attemptMs, w.now, w.rtcWakeBoot, w.clock, w.renders, w.x, w.slot);
    MarksStayQuiet(before, c.manifest.jobs);
    display := None;
    if displayed {
      display := Some(Display.Display(before[selected], at, assets[before[selected].sha], k));
      assert WakePolicy.Due(WindowsOf(before)[selected], at);
      assert HeldAndDue(c.trail[start], display.value, wasShown);
    }
  }

  /** One wake: perhaps a reboot, then an attempt. */
  method OneWake(c: DeviceClient, w: Wake, ghost k: nat) returns (ghost display: Option<Display>)
    requires c.Valid() && c.loaded
    modifies c, c.timers
    ensures c.Valid() && c.loaded && old(c.trail) <= c.trail
    ensures (w.reboot ==> OnCard(old(c.flash.files), old(c.manifest))) ==>
              StaysQuiet(old(c.manifest).jobs, c.manifest.jobs)
    ensures display.None? ==> c.shown == old(c.shown)
    ensures display.None? && OnCard(old(c.flash.files), old(c.manifest)) ==> OnCard(c.flash.files, c.manifest)
    ensures display.Some? ==>
      && display.value.wake == k && Reads(w, display.value.at) && NothingDue(c.manifest.jobs, display.value.at)
      && ShownFrom(c.trail, display.value, old(c.shown))
      && c.shown == old(c.shown) + [Shown(display.value.job.id, display.value.png)]
      && display.value.job.displayAt <= display.value.at
      && (w.x.AllWell() ==> OnCard(c.flash.files, c.manifest))
    ensures display.Some? && (w.reboot ==> OnCard(old(c.flash.files), old(c.manifest))) ==>
              ComesAfterQuiet(old(c.manifest).jobs, display.value)
  {
    ghost var kept := w.reboot ==> OnCard(c.flash.files, c.manifest);
    ghost var before := c.manifest.jobs;
    if w.reboot {
      Reboot(c, w.removeOk, w.renameOk);
    }
    ghost var middle := c.manifest.jobs;
    assert kept ==> StaysQuiet(before, middle);
    display := Attempt(c, w, k);
    if display.Some? && kept {
      QuietThenShown(before, middle, display.value);
    }
  }

  /** The shown job is later than every instant, up to its display, at which nothing was due before. */
  ghost predicate ComesAfterQuiet(before: seq<Job>, d: Display) {
    forall t :: t <= d.at && NothingDue(before, t) ==> t < d.job.displayAt
  }

  lemma QuietThenShown(before: seq<Job>, middle: seq<Job>, d: Display)
    requires StaysQuiet(before, middle) && WakePolicy.Due(AsWindow(d.job), d.at) && d.job in middle
    ensures ComesAfterQuiet(before, d)
  {
    forall t | t <= d.at && NothingDue(before, t)
      ensures t < d.job.displayAt
    {
      assert NothingDue(middle, t);
      var k :| 0 <= k < |middle| && middle[k] == d.job;
      assert !WakePolicy.Due(AsWindow(middle[k]), t);
      WakePolicy.DueSince(AsWindow(d.job), t, d.at);
    }
  }

  /** What the panel showed, in order. */
  function ShownBy(displays: seq<Display>): (r: seq<Shown>)
    ensures |r| == |displays|
  {
    seq(|displays|, i requires 0 <= i < |displays| => Shown(displays[i].job.id, displays[i].png))
  }

  lemma ShownByOneMore(base: seq<Shown>, displays: seq<Display>, d: Display)
    ensures base + ShownBy(displays + [d]) == base + ShownBy(displays) + [Shown(d.job.id, d.png)]
  {
  }

  /** Each display shows a job the client held, due at that reading, after just the displays before it. */
  ghost predicate AllShownFrom(trail: seq<Device>, displays: seq<Display>, base: seq<Shown>) {
    forall a :: 0 <= a < |displays| ==> ShownFrom(trail, displays[a], base + ShownBy(displays)[..a])
  }

  lemma TrailLonger(trail: seq<Device>, more: seq<Device>, displays: seq<Display>, base: seq<Shown>)
    requires trail <= more && AllShownFrom(trail, displays, base)
    ensures AllShownFrom(more, displays, base)
  {
    forall a | 0 <= a < |displays|
      ensures ShownFrom(more, displays[a], base + ShownBy(displays)[..a])
    {
      assert ShownFrom(trail, displays[a], base + ShownBy(displays)[..a]);
      var t :| 0 <= t < |trail| && HeldAndDue(trail[t], displays[a], base + ShownBy(displays)[..a]);
      assert more[t] == trail[t];
    }
  }

  lemma OneMoreShownFrom(trail: seq<Device>, later: seq<Device>, displays: seq<Display>, d: Display, base: seq<Shown>)
    requires trail <= later && AllShownFrom(trail, displays, base) && ShownFrom(later, d, base + ShownBy(displays))
    ensures AllShownFrom(later, displays + [d], base)
    ensures base + ShownBy(displays + [d]) == base + ShownBy(displays) + [Shown(d.job.id, d.png)]
  {
    TrailLonger(trail, later, displays, base);
    ShownByOneMore(base, displays, d);
    var more := displays + [d];
    forall a | 0 <= a < |more|
      ensures ShownFrom(later, more[a], base + ShownBy(more)[..a])
    {
      if a < |displays| {
        assert ShownBy(more)[..a] == ShownBy(displays)[..a];
      } else {
        assert ShownBy(more)[..a] == ShownBy(displays);
      }
    }
  }

  /** The last display before wake `k`. */
  function LastBefore(displays: seq<Display>, k: nat): (r: Option<Display>)
    ensures r.Some? ==> r.value in displays && r.value.wake < k
  {
    if displays == [] then None
    else
      var last := displays[|displays| - 1];
      if last.wake < k then Some(last) else LastBefore(displays[..|displays| - 1], k)
  }

  /** The write of the last display before wake `k` went through. */
  predicate WrittenBefore(wakes: seq<Wake>, displays: seq<Display>, k: nat) {
    var last := LastBefore(displays, k);
    last.Some? && last.value.wake < |wakes| ==> wakes[last.value.wake].x.AllWell()
  }

  /** Each reboot after wake `from` and before wake `until` finds the marks of the last display before it written. */
  ghost predicate Unbroken(wakes: seq<Wake>, displays: seq<Display>, from: nat, until: nat) {
    forall k {:trigger wakes[k]} :: from < k < until && k < |wakes| && wakes[k].reboot ==>
      WrittenBefore(wakes, displays, k)
  }

  lemma LaterDisplay(wakes: seq<Wake>, displays: seq<Display>, d: Display, from: nat, until: nat)
    requires until <= d.wake + 1
    ensures Unbroken(wakes, displays + [d], from, until) <==> Unbroken(wakes, displays, from, until)
  {
    assert (displays + [d])[..|displays|] == displays;
    forall k: nat | k < until
      ensures WrittenBefore(wakes, displays + [d], k) <==> WrittenBefore(wakes, displays, k)
    {
      assert LastBefore(displays + [d], k) == LastBefore(displays, k);
    }
  }

  /** The displays are recorded with the wakes that made them, each wake at most once. */
  ghost predicate Recorded(wakes: seq<Wake>, displays: seq<Display>, k: nat)
    requires k <= |wakes|
  {
    && (forall a :: 0 <= a < |displays| ==>
          && displays[a].wake < k && Reads(wakes[displays[a].wake], displays[a].at)
          && displays[a].job.displayAt <= displays[a].at)
    && (forall a, b :: 0 <= a < b < |displays| ==> displays[a].wake < displays[b].wake)
  }

  /** One display after another comes later in display time if no reboot in between missed its marks. */
  ghost predicate InOrder(wakes: seq<Wake>, displays: seq<Display>) {
    forall a, b :: 0 <= a < b < |displays| && Unbroken(wakes, displays, displays[a].wake, displays[b].wake + 1) ==>
      displays[a].job.displayAt < displays[b].job.displayAt
  }

  /** Before wake `k` nothing is due that was not due at an earlier display, if no reboot missed its marks. */
  ghost predicate QuietSince(wakes: seq<Wake>, displays: seq<Display>, k: nat, jobs: seq<Job>) {
    forall a :: 0 <= a < |displays| && Unbroken(wakes, displays, displays[a].wake, k) ==>
      NothingDue(jobs, displays[a].at)
  }

  /** The last display's write went through. */
  predicate LastWritten(wakes: seq<Wake>, displays: seq<Display>) {
    displays != [] && displays[|displays| - 1].wake < |wakes| && wakes[displays[|displays| - 1].wake].x.AllWell()
  }

  /** What a wake keeps: `onCard` says whether its reboot, if there was one, found the marks in memory. */
  ghost predicate WakeKeeps(w: Wake, onCard: bool, before: seq<Job>, after: seq<Job>) {
    (w.reboot ==> onCard) ==> StaysQuiet(before, after)
  }

  lemma QuietBefore(wakes: seq<Wake>, displays: seq<Display>, k: nat, onCard: bool, jobs: seq<Job>, a: nat)
    requires k < |wakes| && Recorded(wakes, displays, k) && QuietSince(wakes, displays, k, jobs)
    requires LastWritten(wakes, displays) ==> onCard
    requires a < |displays| && Unbroken(wakes, displays, displays[a].wake, k + 1)
    ensures NothingDue(jobs, displays[a].at) && (wakes[k].reboot ==> onCard)
  {
    assert Unbroken(wakes, displays, displays[a].wake, k);
    if wakes[k].reboot {
      assert WrittenBefore(wakes, displays, k);
      assert LastBefore(displays, k) == Some(displays[|displays| - 1]);
    }
  }

  lemma StillQuiet(wakes: seq<Wake>, displays: seq<Display>, k: nat, onCard: bool, before: seq<Job>, after: seq<Job>)
    requires k < |wakes| && Recorded(wakes, displays, k) && QuietSince(wakes, displays, k, before)
    requires (LastWritten(wakes, displays) ==> onCard) && WakeKeeps(wakes[k], onCard, before, after)
    ensures QuietSince(wakes, displays, k + 1, after)
  {
    forall a | 0 <= a < |displays| && Unbroken(wakes, displays, displays[a].wake, k + 1)
      ensures NothingDue(after, displays[a].at)
    {
      QuietBefore(wakes, displays, k, onCard, before, a);
    }
  }

  lemma QuietWithOneMore(wakes: seq<Wake>, displays: seq<Display>, d: Display, after: seq<Job>)
    requires QuietSince(wakes, displays, d.wake + 1, after) && NothingDue(after, d.at)
    ensures QuietSince(wakes, displays + [d], d.wake + 1, after)
  {
    var more := displays + [d];
    forall a | 0 <= a < |more| && Unbroken(wakes, more, more[a].wake, d.wake + 1)
      ensures NothingDue(after, more[a].at)
    {
      if a < |displays| { LaterDisplay(wakes, displays, d, displays[a].wake, d.wake + 1); }
    }
  }

  lemma InOrderWithOneMore(wakes: seq<Wake>, displays: seq<Display>, d: Display, onCard: bool, before: seq<Job>)
    requires d.wake < |wakes| && ForwardClock(wakes) && Reads(wakes[d.wake], d.at)
    requires Recorded(wakes, displays, d.wake) && InOrder(wakes, displays)
    requires QuietSince(wakes, displays, d.wake, before) && (LastWritten(wakes, displays) ==> onCard)
    requires (wakes[d.wake].reboot ==> onCard) ==> ComesAfterQuiet(before, d)
    ensures InOrder(wakes, displays + [d])
  {
    var more := displays + [d];
    forall a, b | 0 <= a < b < |more| && Unbroken(wakes, more, more[a].wake, more[b].wake + 1)
      ensures more[a].job.displayAt < more[b].job.displayAt
    {
      LaterDisplay(wakes, displays, d, more[a].wake, more[b].wake + 1);
      if b == |displays| {
        QuietBefore(wakes, displays, d.wake, onCard, before, a);
        assert displays[a].at <= d.at;
      }
    }
  }

  /** What holds before wake `k`. */
  ghost predicate Progress(wakes: seq<Wake>, displays: seq<Display>, k: nat, onCard: bool, jobs: seq<Job>)
    requires k <= |wakes|
  {
    && Recorded(wakes, displays, k) && InOrder(wakes, displays) && QuietSince(wakes, displays, k, jobs)
    && (LastWritten(wakes, displays) ==> onCard)
  }

  lemma NoDisplay(wakes: seq<Wake>, displays: seq<Display>, k: nat,
                  onCard: bool, before: seq<Job>, nowOnCard: bool, after: seq<Job>)
    requires k < |wakes| && Progress(wakes, displays, k, onCard, before)
    requires WakeKeeps(wakes[k], onCard, before, after) && (onCard ==> nowOnCard)
    ensures Progress(wakes, displays, k + 1, nowOnCard, after)
  {
    StillQuiet(wakes, displays, k, onCard, before, after);
  }

  lemma OneDisplay(wakes: seq<Wake>, displays: seq<Display>, d: Display,
                   onCard: bool, before: seq<Job>, nowOnCard: bool, after: seq<Job>)
    requires d.wake < |wakes| && ForwardClock(wakes) && Progress(wakes, displays, d.wake, onCard, before)
    requires WakeKeeps(wakes[d.wake], onCard, before, after)
    requires Reads(wakes[d.wake], d.at) && d.job.displayAt <= d.at && NothingDue(after, d.at)
    requires (wakes[d.wake].reboot ==> onCard) ==> ComesAfterQuiet(before, d)
    requires wakes[d.wake].x.AllWell() ==> nowOnCard
    ensures Progress(wakes, displays + [d], d.wake + 1, nowOnCard, after)
  {
    StillQuiet(wakes, displays, d.wake, onCard, before, after);
    InOrderWithOneMore(wakes, displays, d, onCard, before);
    QuietWithOneMore(wakes, displays, d, after);
  }

  /**
   * Any sequence of wakes, with reboots, failed attempts and failing writes. Each display comes strictly later
   * in display time than an earlier one, provided that before each rebooting wake in between the write of the
   * last display went through. The displays are all that the panel showed, in order, each of a job held and due.
   */
  method Wakes(c: DeviceClient, wakes: seq<Wake>) returns (ghost displays: seq<Display>)
    requires c.Valid() && c.loaded && ForwardClock(wakes)
    modifies c, c.timers
    ensures c.Valid() && c.loaded && c.shown == old(c.shown) + ShownBy(displays)
    ensures old(c.trail) <= c.trail && AllShownFrom(c.trail, displays, old(c.shown))
    ensures Recorded(wakes, displays, |wakes|) && InOrder(wakes, displays)
  {
    displays := [];
    for k := 0 to |wakes|
      invariant c.Valid() && c.loaded && c.shown == old(c.shown) + ShownBy(displays)
      invariant old(c.trail) <= c.trail && AllShownFrom(c.trail, displays, old(c.shown))
      invariant Progress(wakes, displays, k, OnCard(c.flash.files, c.manifest), c.manifest.jobs)
    {
      ghost var before, onCard, trail := c.manifest.jobs, OnCard(c.flash.files, c.manifest), c.trail;
      ghost var display := OneWake(c, wakes[k], k);
      ghost var after, nowOnCard := c.manifest.jobs, OnCard(c.flash.files, c.manifest);
      if display.None? {
        TrailLonger(trail, c.trail, displays, old(c.shown));
        NoDisplay(wakes, displays, k, onCard, before, nowOnCard, after);
      } else {
        OneDisplay(wakes, displays, display.value, onCard, before, nowOnCard, after);
        OneMoreShownFrom(trail, c.trail, displays, display.value, old(c.shown));
        displays := displays + [display.value];
      }
    }
  }

  /** Where every rebooting wake finds the last display written, all displays are in strict order. */
  lemma AllInOrder(wakes: seq<Wake>, displays: seq<Display>, a: nat, b: nat)
    requires InOrder(wakes, displays) && a < b < |displays|
    requires forall k :: 0 <= k < |wakes| && wakes[k].reboot ==> WrittenBefore(wakes, displays, k)
    ensures displays[a].job.displayAt < displays[b].job.displayAt
  {
  }
}
