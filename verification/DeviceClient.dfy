/**
 * The scheduled-push client: an object over the card, the acknowledgement slot and the manifest in
 * memory. `trail` records every state it passes through, one file operation at a time; each method is
 * proved to extend the trail only by moves of the device protocol, whatever fails on the way. A power
 * loss inside a method leaves some state of the trail.
 *
 * What the card, the clock and the network do is a parameter of each method.
 */
module DeviceClient {
  import opened Wrappers
  import opened Bytes
  import opened ManifestDoc
  import opened ManifestFiles
  import opened ManifestMarks
  import opened DeviceProtocol
  import WakePolicy
  import Deadlines

  /** How the pieces of one asset download's persistence go. */
  datatype PartFaults = PartFaults(
    dir: bool, open: bool, partial: Bytes, write: bool, remove: bool, rename: bool, drop: bool) {
    predicate AllWell() {
      dir && open && write && remove && rename
    }
  }

  /** Which writes to the acknowledgement slot succeed. */
  datatype SlotFaults = SlotFaults(open: bool, job: bool, state: bool, message: bool, commit: bool) {
    predicate AllWell() {
      open && job && state && message && commit
    }
  }

  /** Five minutes after a reading of the millisecond clock. */
  function RetryAt(ms: Deadlines.uint32): Deadlines.uint32 {
    Deadlines.WrapAdd(ms, WakePolicy.RETRY_SECONDS * 1000)
  }

  /** How sending the pending acknowledgement goes. */
  datatype SendFaults = SendFaults(open: bool, delivered: bool, reopen: bool, eraseJob: bool, eraseState: bool)

  /** The acknowledgement slot once the writes for a displayed job went as `x` says. */
  function SlotAfter(flash: Flash, job: string, x: SlotFaults): Flash {
    flash.(ackJob := if x.open && x.job then Some(job) else flash.ackJob,
           ackState := if x.open && x.job && x.state then Some(DISPLAYED) else flash.ackState)
  }

  /** A complete acknowledgement is waiting in the slot. */
  predicate Pending(flash: Flash) {
    flash.ackJob.Some? && flash.ackJob.value != "" && flash.ackState.Some? && flash.ackState.value != ""
  }

  /** What one attempt to report sends. */
  function Report(flash: Flash, x: SendFaults): seq<AckMessage> {
    if x.open && Pending(flash) then [AckMessage(flash.ackJob.value, flash.ackState.value)] else []
  }

  /** The slot after that attempt: erased only once the message was delivered. */
  function SlotReported(flash: Flash, x: SendFaults): Flash {
    var erased := x.open && Pending(flash) && x.delivered && x.reopen;
    flash.(ackJob := if erased && x.eraseJob then None else flash.ackJob,
           ackState := if erased && x.eraseState then None else flash.ackState)
  }

  /** The slot once a display attempt is over: the shown job's acknowledgement, as far as it could be written. */
  ghost predicate SlotSince(now: Flash, before: Flash, jobs: seq<Job>, selected: int, renders: bool, x: SlotFaults) {
    var written := if 0 <= selected < |jobs| && renders then SlotAfter(before, jobs[selected].id, x) else before;
    now.ackJob == written.ackJob && now.ackState == written.ackState
  }

  /** The manifest files after a display attempt: the marks of `m` are written when a job was shown. */
  ghost function StoredFiles(files: Files, m: Manifest, shown: bool, x: Faults): Files {
    if shown then Final(files, WriteTrace(files, Serialize(m), x)) else files
  }

  /** The deadline a display attempt leaves: a retry when what it showed could not all be written down. */
  ghost function DeadlineAfter(before: Deadlines.uint32, displayMs: Deadlines.uint32, selected: int, renders: bool,
                               files: Files, x: Faults, slot: SlotFaults): Deadlines.uint32 {
    if selected < 0 || (renders && WriteReports(files, x) && slot.AllWell()) then before else RetryAt(displayMs)
  }

  /** Nothing was pending, or it was delivered. */
  predicate Reported(flash: Flash, x: SendFaults) {
    x.open && (Pending(flash) ==> x.delivered)
  }

  /**
   * A shown job whose acknowledgement could be written is reported as displayed; delivered and erased, nothing is
   * left to report, and undelivered or not erased, the same report is made the next time the slot opens.
   */
  lemma DisplayIsReported(now: Flash, before: Flash, jobs: seq<Job>, selected: nat, x: SlotFaults,
                          after: SendFaults, next: SendFaults)
    requires selected < |jobs| && jobs[selected].id != "" && x.AllWell() && after.open && next.open
    requires SlotSince(now, before, jobs, selected, true, x)
    ensures Report(now, after) == [AckMessage(jobs[selected].id, DISPLAYED)]
    ensures Reported(now, after) <==> after.delivered
    ensures var left := SlotReported(now, after);
      if after.delivered && after.reopen && (after.eraseJob || after.eraseState) then Report(left, next) == []
      else left == now && Report(left, next) == Report(now, after)
  {
  }

  /** With no job shown, what was pending before is what is reported; an attempt without the slot sends nothing. */
  lemma PendingIsReported(now: Flash, before: Flash, jobs: seq<Job>, renders: bool, x: SlotFaults, after: SendFaults)
    requires SlotSince(now, before, jobs, -1, renders, x)
    ensures after.open ==> Report(now, after) == Report(before, after)
    ensures !after.open ==> Report(now, after) == [] && !Reported(now, after) && SlotReported(now, after) == now
  {
  }

  ghost predicate Steps(h: Digest, universe: set<Bytes>, d: Device, e: Device) {
    exists move :: Step(h, universe, d, move, e)
  }

  /** A trail of protocol moves, every state of which keeps the device's invariant. */
  ghost predicate IsTrail(h: Digest, universe: set<Bytes>, trail: seq<Device>) {
    && trail != []
    && (forall i {:trigger Steps(h, universe, trail[i - 1], trail[i])} ::
          0 < i < |trail| ==> Steps(h, universe, trail[i - 1], trail[i]))
    && (forall i {:trigger DeviceInv(h, universe, trail[i])} :: 0 <= i < |trail| ==> DeviceInv(h, universe, trail[i]))
  }

  lemma TrailGrows(h: Digest, universe: set<Bytes>, trail: seq<Device>, move: Move, e: Device)
    requires CollisionFree(h, universe) && IsTrail(h, universe, trail)
    requires Step(h, universe, trail[|trail| - 1], move, e)
    ensures IsTrail(h, universe, trail + [e])
  {
    var d := trail[|trail| - 1];
    var longer := trail + [e];
    assert DeviceInv(h, universe, trail[|trail| - 1]);
    StepKeepsInvariant(h, universe, d, move, e);
    assert Steps(h, universe, d, e);
    forall i | 0 < i < |longer|
      ensures Steps(h, universe, longer[i - 1], longer[i])
    {
      if i < |trail| { assert Steps(h, universe, trail[i - 1], trail[i]); }
    }
    forall i | 0 <= i < |longer|
      ensures DeviceInv(h, universe, longer[i])
    {
      if i < |trail| { assert DeviceInv(h, universe, trail[i]); }
    }
  }

  /** The manifest files of each state of a trail. */
  ghost function FilesOf(trail: seq<Device>): (r: seq<Files>)
    ensures |r| == |trail|
  {
    seq(|trail|, i requires 0 <= i < |trail| => trail[i].flash.files)
  }

  function WindowsOf(jobs: seq<Job>): (r: seq<WakePolicy.Window>)
    ensures |r| == |jobs|
  {
    seq(|jobs|, i requires 0 <= i < |jobs| => AsWindow(jobs[i]))
  }

  /** The chosen job marked, and every job whose window the suppression closed. */
  method MarkedJobsAfter(before: seq<Job>, selected: nat, now: int) returns (jobs: seq<Job>)
    requires selected < |before|
    ensures OnlyMarks(before, jobs)
    ensures WindowsOf(jobs) == WakePolicy.AfterDisplay(WindowsOf(before), selected, now)
  {
    var windows := new WakePolicy.Window[|before|](i requires 0 <= i < |before| => AsWindow(before[i]));
    assert windows[..] == WindowsOf(before);
    var _ := WakePolicy.SuppressOlderDueJobs(windows, selected, now);
    jobs := before[selected := before[selected].(displayed := true)];
    var index := 0;
    while index < |jobs|
      invariant 0 <= index <= |jobs| == |before|
      invariant forall i :: 0 <= i < |jobs| ==>
        jobs[i] == if i == selected || (i < index && windows[i].displayed)
                   then before[i].(displayed := true) else before[i]
    {
      if windows[index].displayed {
        jobs := jobs[index := jobs[index].(displayed := true)];
      }
      index := index + 1;
    }
    assert WindowsOf(jobs) == WakePolicy.AfterDisplay(WindowsOf(before), selected, now);
  }

  /** A wait for an imminent job ended on an invalid reading, before its display time, or after it expired. */
  ghost predicate WaitFellShort(jobs: seq<Job>, now: int, at: int) {
    forall i ::
      && 0 <= i < |jobs|
      && WakePolicy.IsImminentChoice(WindowsOf(jobs), now, WakePolicy.DISPLAY_WAKE_WAIT_SECONDS, i) ==>
        at < WakePolicy.MIN_VALID_EPOCH || at < jobs[i].displayAt || WakePolicy.Expired(AsWindow(jobs[i]), at)
  }

  /** The wait's last reading: the first that is invalid or reaches the target, or else the last of all. */
  ghost predicate EndsWait(now: int, target: int, clock: seq<int>, at: int) {
    if now >= target || clock == [] then at == now
    else
      exists k ::
        && 0 <= k < |clock| && at == clock[k]
        && (forall j :: 0 <= j < k ==> WakePolicy.MIN_VALID_EPOCH <= clock[j] < target)
        && (at >= target || at < WakePolicy.MIN_VALID_EPOCH || k == |clock| - 1)
  }

  /** The choice and the reading it was made at. */
  ghost predicate Chooses(jobs: seq<Job>, now: int, rtcWakeBoot: bool, clock: seq<int>, selected: int, at: int) {
    var windows := WindowsOf(jobs);
    if now < WakePolicy.MIN_VALID_EPOCH then selected == -1 && at == now
    else if !WakePolicy.IsDueChoice(windows, now, -1) then
      selected >= 0 && at == now && WakePolicy.IsDueChoice(windows, now, selected)
    else if !rtcWakeBoot || WakePolicy.IsImminentChoice(windows, now, WakePolicy.DISPLAY_WAKE_WAIT_SECONDS, -1) then
      selected == -1 && at == now
    else
      exists imminent ::
        && 0 <= imminent < |jobs|
        && WakePolicy.IsImminentChoice(windows, now, WakePolicy.DISPLAY_WAKE_WAIT_SECONDS, imminent)
        && EndsWait(now, jobs[imminent].displayAt, clock, at)
        && if at < WakePolicy.MIN_VALID_EPOCH then selected == -1 else WakePolicy.IsDueChoice(windows, at, selected)
  }

  /** What a choice says about itself, and that a job due at once is chosen at once. */
  lemma ChoiceIsDue(jobs: seq<Job>, now: int, rtcWakeBoot: bool, clock: seq<int>, selected: int, at: int)
    requires Chooses(jobs, now, rtcWakeBoot, clock, selected, at)
    ensures at == now || at in clock
    ensures selected == -1 || (0 <= selected < |jobs| && WakePolicy.MIN_VALID_EPOCH <= at
                               && WakePolicy.IsDueChoice(WindowsOf(jobs), at, selected))
    ensures now >= WakePolicy.MIN_VALID_EPOCH && !WakePolicy.IsDueChoice(WindowsOf(jobs), now, -1) ==>
              selected >= 0 && at == now
  {
  }

  class DeviceClient {
    const sha256: Digest
    ghost const universe: set<Bytes>
    const timers: Deadlines.SyncTimers
    var flash: Flash
    var manifest: Manifest
    var loaded: bool
    ghost var taken: Option<Manifest>
    ghost var heard: set<Json>
    ghost var fetched: set<Bytes>
    ghost var shown: seq<Shown>
    ghost var outbox: seq<AckMessage>
    ghost var trail: seq<Device>

    ghost function State(): Device
      reads this
    {
      Device(flash, manifest, loaded, taken, heard, fetched, shown, outbox)
    }

    ghost predicate Valid()
      reads this
    {
      && CollisionFree(sha256, universe)
      && IsTrail(sha256, universe, trail) && trail[|trail| - 1] == State()
    }

    constructor (sha256: Digest, ghost universe: set<Bytes>)
      requires CollisionFree(sha256, universe)
      ensures this.sha256 == sha256 && this.universe == universe
      ensures Valid() && State() == NEW_DEVICE && trail == [NEW_DEVICE] && fresh(timers)
    {
      this.sha256, this.universe := sha256, universe;
      timers := new Deadlines.SyncTimers();
      flash, manifest, loaded := NEW_DEVICE.flash, EMPTY_MANIFEST, false;
      taken, heard, fetched, shown, outbox := None, {}, {}, [], [];
      trail := [NEW_DEVICE];
      NewDeviceInv(sha256, universe);
    }

    /** Records the move just made. */
    ghost method Note(move: Move)
      requires CollisionFree(sha256, universe) && IsTrail(sha256, universe, trail)
      requires Step(sha256, universe, trail[|trail| - 1], move, State())
      modifies this`trail
      ensures Valid() && trail == old(trail) + [State()]
      ensures FilesOf(trail) == FilesOf(old(trail)) + [flash.files]
    {
      TrailGrows(sha256, universe, trail, move, State());
      trail := trail + [State()];
    }

    lemma Invariant()
      requires Valid()
      ensures DeviceInv(sha256, universe, State())
    {
      assert DeviceInv(sha256, universe, trail[|trail| - 1]);
    }

    lemma HeldIsCached(k: nat)
      requires Valid() && loaded && k < |manifest.jobs|
      ensures Cached(sha256, flash.assets, JobAsset(manifest.jobs[k]))
    {
      Invariant();
      assert JobAsset(manifest.jobs[k]) in JobRefs(manifest.jobs);
    }

    // ---------------------------------------------------------------- single file operations

    /** Leaves `body` in the temp file: emptied by opening it, partly written, or complete. */
    method PutTemp(body: Body)
      requires Valid()
      modifies this`flash, this`trail
      ensures Valid() && trail == old(trail) + [State()]
      ensures flash == old(flash).(files := old(flash.files).(temp := Some(body)))
      ensures FilesOf(trail) == FilesOf(old(trail)) + [flash.files]
    {
      flash := flash.(files := flash.files.(temp := Some(body)));
      Note(WriteTemp(body));
    }

    method RemoveTemp()
      requires Valid()
      modifies this`flash, this`trail
      ensures Valid() && trail == old(trail) + [State()]
      ensures flash == old(flash).(files := old(flash.files).(temp := None))
      ensures FilesOf(trail) == FilesOf(old(trail)) + [flash.files]
    {
      flash := flash.(files := flash.files.(temp := None));
      Note(DropTemp);
    }

    method RemoveBackup()
      requires Valid() && flash.files.active.Some?
      modifies this`flash, this`trail
      ensures Valid() && trail == old(trail) + [State()]
      ensures flash == old(flash).(files := old(flash.files).(backup := None))
      ensures FilesOf(trail) == FilesOf(old(trail)) + [flash.files]
    {
      flash := flash.(files := flash.files.(backup := None));
      Note(DropBackup);
    }

    method RenameActiveToBackup()
      requires Valid() && flash.files.active.Some? && flash.files.backup.None?
      modifies this`flash, this`trail
      ensures Valid() && trail == old(trail) + [State()]
      ensures flash == old(flash).(files := Files(None, old(flash.files).active, old(flash.files).temp))
      ensures FilesOf(trail) == FilesOf(old(trail)) + [flash.files]
    {
      flash := flash.(files := Files(None, flash.files.active, flash.files.temp));
      Note(Retire);
    }

    method RenameBackupToActive()
      requires Valid() && flash.files.active.None? && flash.files.backup.Some?
      modifies this`flash, this`trail
      ensures Valid() && trail == old(trail) + [State()]
      ensures flash == old(flash).(files := Files(old(flash.files).backup, None, old(flash.files).temp))
      ensures FilesOf(trail) == FilesOf(old(trail)) + [flash.files]
    {
      flash := flash.(files := Files(flash.files.backup, None, flash.files.temp));
      Note(Promote);
    }

    /** What the protocol asks before a manifest goes live. */
    ghost predicate MayInstall(m: Manifest)
      reads this
    {
      && loaded && (m == manifest || taken == Some(m)) && WellFormed(m) && NoEmptyAsset(m)
      && AllCached(sha256, flash.assets, Refs(m)) && AllHeard(heard, m.jobs)
    }

    method RenameTempToActive(ghost m: Manifest)
      requires Valid() && MayInstall(m)
      requires flash.files.active.None? && flash.files.temp == Some(Complete(Serialize(m)))
      modifies this`flash, this`trail
      ensures Valid() && trail == old(trail) + [State()]
      ensures flash == old(flash).(files := Files(old(flash.files).temp, old(flash.files).backup, None))
      ensures FilesOf(trail) == FilesOf(old(trail)) + [flash.files]
    {
      flash := flash.(files := Files(flash.files.temp, flash.files.backup, None));
      Note(Install(m));
    }

    // ---------------------------------------------------------------- write_manifest

    method AbandonTemp(x: Faults)
      requires Valid()
      modifies this`flash, this`trail
      ensures Valid() && old(trail) <= trail
      ensures FilesOf(trail) == FilesOf(old(trail)) + Abandon(old(flash.files), x)
      ensures flash == old(flash).(files := Final(old(flash.files), Abandon(old(flash.files), x)))
    {
      if x.dropTemp {
        RemoveTemp();
      }
    }

    /** The last rename, and the rollback when it fails. */
    method InstallTemp(ghost m: Manifest, retired: bool, x: Faults) returns (ok: bool)
      requires Valid() && MayInstall(m)
      requires flash.files.active.None? && flash.files.temp == Some(Complete(Serialize(m)))
      requires retired ==> flash.files.backup.Some?
      modifies this`flash, this`trail
      ensures Valid() && old(trail) <= trail
      ensures FilesOf(trail) == FilesOf(old(trail)) + InstallTrace(old(flash.files), retired, x)
      ensures flash == old(flash).(files := Final(old(flash.files), InstallTrace(old(flash.files), retired, x)))
      ensures ok == x.install
    {
      ok := x.install;
      if ok {
        RenameTempToActive(m);
      } else {
        if retired && x.rollback {
          RenameBackupToActive();
        }
        AbandonTemp(x);
      }
    }

    /** Moves the active file aside, once the old backup is gone. */
    method RetireActive(x: Faults) returns (ok: bool)
      requires Valid() && flash.files.active.Some?
      modifies this`flash, this`trail
      ensures Valid() && old(trail) <= trail
      ensures FilesOf(trail) == FilesOf(old(trail)) + RetireTrace(old(flash.files), x)
      ensures flash == old(flash).(files := Final(old(flash.files), RetireTrace(old(flash.files), x)))
      ensures ok == (x.dropBackup && x.retire)
    {
      ok := x.dropBackup;
      if ok {
        RemoveBackup();
        ok := x.retire;
        if ok {
          RenameActiveToBackup();
        }
      }
    }

    /** Moving the active file aside, then the new one into place. */
    method SwapIn(ghost m: Manifest, x: Faults) returns (ok: bool)
      requires Valid() && MayInstall(m) && flash.files.temp == Some(Complete(Serialize(m)))
      modifies this`flash, this`trail
      ensures Valid() && old(trail) <= trail
      ensures FilesOf(trail) == FilesOf(old(trail)) + SwapTrace(old(flash.files), x)
      ensures flash == old(flash).(files := Final(old(flash.files), SwapTrace(old(flash.files), x)))
      ensures ok == (x.install && (old(flash.files.active).Some? ==> x.dropBackup && x.retire))
    {
      var activeMoved := false;
      ok := true;
      if flash.files.active.Some? {
        activeMoved := RetireActive(x);
        ok := activeMoved;
      }
      ghost var aside := flash.files;
      if ok {
        ok := InstallTemp(m, activeMoved, x);
      } else {
        AbandonTemp(x);
      }
      if old(flash.files).active.Some? {
        ghost var after := if x.dropBackup && x.retire then InstallTrace(aside, true, x) else Abandon(aside, x);
        Associative(FilesOf(old(trail)), RetireTrace(old(flash.files), x), after);
        FinalConcat(old(flash.files), RetireTrace(old(flash.files), x), after);
      }
    }

    method StageTemp(json: Json, x: Faults)
      requires Valid()
      modifies this`flash, this`trail
      ensures Valid() && old(trail) <= trail
      ensures FilesOf(trail) == FilesOf(old(trail)) + StageTrace(old(flash.files), json, x)
      ensures flash == old(flash).(files := Staged(old(flash.files), json, x))
    {
      PutTemp(Torn);
      PutTemp(x.partial);
      if x.write {
        PutTemp(Complete(json));
      }
    }

    /**
     * `write_manifest`: the files pass through exactly `WriteTrace`, for every pattern of faults, and
     * the result is what `WriteReports` says.
     */
    method WriteManifest(m: Manifest, x: Faults) returns (ok: bool)
      requires Valid() && MayInstall(m)
      modifies this`flash, this`trail
      ensures Valid() && old(trail) <= trail
      ensures FilesOf(trail) == FilesOf(old(trail)) + WriteTrace(old(flash.files), Serialize(m), x)
      ensures flash == old(flash).(files := Final(old(flash.files), WriteTrace(old(flash.files), Serialize(m), x)))
      ensures ok == WriteReports(old(flash.files), x)
    {
      ok := x.dir && x.alloc;
      if !ok { return; }
      var json := Serialize(m);
      if x.open {
        StageTemp(json, x);
      }
      ok := x.open && x.write;
      if ok {
        ok := SwapIn(m, x);
      } else {
        AbandonTemp(x);
      }
      if x.open {
        ghost var staged := Staged(old(flash.files), json, x);
        ghost var after := if x.write then SwapTrace(staged, x) else Abandon(staged, x);
        Associative(FilesOf(old(trail)), StageTrace(old(flash.files), json, x), after);
        FinalConcat(old(flash.files), StageTrace(old(flash.files), json, x), after);
      }
    }

    // ---------------------------------------------------------------- load_manifest

    method RestoreBackup(removeOk: bool, renameOk: bool)
      requires Valid() && !Loads(flash.files.active) && Loads(flash.files.backup)
      modifies this`flash, this`trail
      ensures Valid() && old(trail) <= trail
      ensures flash == old(flash).(files := Final(old(flash.files), RestoreTrace(old(flash.files), removeOk, renameOk)))
      ensures Recovered(flash.files) == Recovered(old(flash.files))
    {
      RestoreKeepsRecovered(flash.files, removeOk, renameOk);
      if removeOk && flash.files.active.Some? {
        flash := flash.(files := flash.files.(active := None));
        Note(DropActive);
      }
      if renameOk && flash.files.active.None? {
        RenameBackupToActive();
      }
    }

    /** The manifest a reboot recovers goes into memory; none leaves it empty. */
    method LoadManifest(removeOk: bool, renameOk: bool) returns (ok: bool)
      requires Valid() && !loaded
      modifies this`flash, this`manifest, this`taken, this`loaded, this`trail
      ensures Valid() && old(trail) <= trail && loaded
      ensures ok <==> Recovered(old(flash.files)).Some?
      ensures if ok then Parses(Recovered(old(flash.files)).value, None, manifest) else manifest == EMPTY_MANIFEST
      ensures Recovered(flash.files) == Recovered(old(flash.files))
      ensures flash == old(flash).(files := flash.files)
    {
      var parsed := ParseManifest(DocOf(flash.files.active), None);
      if parsed.None? {
        parsed := ParseManifest(DocOf(flash.files.backup), None);
        if parsed.Some? {
          RestoreBackup(removeOk, renameOk);
        }
      }
      ok := parsed.Some?;
      Remember(if ok then parsed.value else EMPTY_MANIFEST);
    }

    method Remember(m: Manifest)
      requires Valid() && Enabled(sha256, universe, State(), Load(m))
      modifies this`manifest, this`taken, this`loaded, this`trail
      ensures Valid() && old(trail) <= trail && loaded && manifest == m
    {
      manifest, loaded, taken := m, true, None;
      Note(Load(m));
    }

    method EnsureManifestLoaded(removeOk: bool, renameOk: bool)
      requires Valid()
      modifies this`flash, this`manifest, this`taken, this`loaded, this`trail
      ensures Valid() && old(trail) <= trail && loaded
      ensures old(loaded) ==> manifest == old(manifest) && flash == old(flash)
      ensures !old(loaded) ==>
        if Recovered(old(flash.files)).Some? then Parses(Recovered(old(flash.files)).value, None, manifest)
                               else manifest == EMPTY_MANIFEST
      ensures Recovered(flash.files) == Recovered(old(flash.files))
      ensures flash == old(flash).(files := flash.files)
    {
      if !loaded {
        var _ := LoadManifest(removeOk, renameOk);
      }
    }

    // ---------------------------------------------------------------- the asset cache

    /** The body was received: the record of fetched payloads grows by it. */
    ghost method Received(png: Bytes)
      requires Valid() && png in universe
      modifies this`fetched, this`trail
      ensures Valid() && old(trail) <= trail && fetched == old(fetched) + {png}
    {
      fetched := fetched + {png};
      Note(Fetch(png));
    }

    method PutPart(sha: string, png: Bytes)
      requires Valid()
      modifies this`flash, this`trail
      ensures Valid() && old(trail) <= trail && flash == old(flash).(parts := old(flash).parts[sha := png])
    {
      flash := flash.(parts := flash.parts[sha := png]);
      Note(WritePart(sha, png));
    }

    method RemovePart(sha: string)
      requires Valid()
      modifies this`flash, this`trail
      ensures Valid() && old(trail) <= trail && flash == old(flash).(parts := old(flash).parts - {sha})
    {
      flash := flash.(parts := flash.parts - {sha});
      Note(DropPart(sha));
    }

    /** The old file under a payload's name, which serves no asset, goes. */
    method DropReplaced(sha: string, png: Bytes)
      requires Valid() && png in fetched && sha256(png) == sha && sha in flash.assets
      requires sha in flash.parts && flash.parts[sha] == png
      requires !Cached(sha256, flash.assets, AssetRef(sha, |png|))
      modifies this`flash, this`trail
      ensures Valid() && old(trail) <= trail && flash == old(flash).(assets := old(flash).assets - {sha})
      ensures KeepsCached(sha256, old(flash).assets, flash.assets)
    {
      assert KeepsCached(sha256, flash.assets, flash.assets - {sha}) by {
        Invariant();
        forall asset: AssetRef | asset.sha == sha
          ensures !Cached(sha256, flash.assets, asset)
        {
          ReplacedIsUseless(sha256, universe, State(), sha, png, asset.size);
        }
      }
      flash := flash.(assets := flash.assets - {sha});
      Note(ReplaceAsset(sha, png));
    }

    method StorePart(sha: string, png: Bytes)
      requires Valid() && png in fetched && sha256(png) == sha && sha !in flash.assets
      requires sha in flash.parts && flash.parts[sha] == png
      modifies this`flash, this`trail
      ensures Valid() && old(trail) <= trail
      ensures flash == old(flash).(assets := old(flash).assets[sha := png], parts := old(flash).parts - {sha})
    {
      flash := flash.(assets := flash.assets[sha := png], parts := flash.parts - {sha});
      Note(StoreAsset(sha, png));
    }

    /** Replaces the final file by the complete part: remove, then rename, which an existing file blocks. */
    method RenamePart(sha: string, png: Bytes, x: PartFaults) returns (ok: bool)
      requires Valid() && png in fetched && sha256(png) == sha
      requires sha in flash.parts && flash.parts[sha] == png
      requires !Cached(sha256, flash.assets, AssetRef(sha, |png|))
      modifies this`flash, this`trail
      ensures Valid() && old(trail) <= trail
      ensures ok <==> x.rename && (sha in old(flash).assets ==> x.remove)
      ensures flash == old(flash).(assets := flash.assets, parts := flash.parts)
      ensures ok ==> Filed(old(flash), sha, png, flash)
      ensures !ok ==> flash.parts == old(flash).parts && SameButName(old(flash).assets, flash.assets, sha)
      ensures KeepsCached(sha256, old(flash).assets, flash.assets)
    {
      ghost var before := flash;
      if x.remove && sha in flash.assets {
        DropReplaced(sha, png);
      }
      ok := x.rename && sha !in flash.assets;
      if ok {
        StorePart(sha, png);
        assert flash.assets == before.assets[sha := png];
      }
    }

    /** Writes the part and renames it into place; a part that was not is dropped. */
    method PersistAsset(sha: string, png: Bytes, x: PartFaults) returns (ok: bool)
      requires Valid() && png in fetched && sha256(png) == sha
      requires !Cached(sha256, flash.assets, AssetRef(sha, |png|))
      modifies this`flash, this`trail
      ensures Valid() && old(trail) <= trail
      ensures flash == old(flash).(assets := flash.assets, parts := flash.parts)
      ensures ok <==> x.open && x.write && x.rename && (sha in old(flash).assets ==> x.remove)
      ensures ok ==> Filed(old(flash), sha, png, flash)
      ensures !ok ==> SameButName(old(flash).assets, flash.assets, sha) && (x.drop ==> sha !in flash.parts)
      ensures KeepsCached(sha256, old(flash).assets, flash.assets)
    {
      ghost var before := flash;
      ok := x.open;
      if ok {
        PutPart(sha, x.partial);
        ok := x.write;
        if ok {
          PutPart(sha, png);
        }
      }
      if ok {
        ok := RenamePart(sha, png, x);
        assert ok ==> flash.parts == before.parts - {sha};
      }
      if !ok && x.drop {
        RemovePart(sha);
      }
    }

    /**
     * `download_asset`: succeeds exactly when the asset was cached already, or the answer has the
     * announced size and digest and every write went through; nothing cached before is lost.
     */
    method DownloadAsset(asset: AssetRef, response: Option<Bytes>, x: PartFaults) returns (ok: bool)
      requires Valid() && (response.Some? ==> response.value in universe)
      modifies this`flash, this`fetched, this`trail
      ensures Valid() && old(trail) <= trail
      ensures flash == old(flash).(assets := flash.assets, parts := flash.parts)
      ensures Cached(sha256, old(flash).assets, asset) ==> flash == old(flash)
      ensures ok && !Cached(sha256, old(flash).assets, asset) ==>
        response.Some? && Filed(old(flash), asset.sha, response.value, flash)
      ensures !ok ==> SameButName(old(flash).assets, flash.assets, asset.sha)
      ensures ok ==> Cached(sha256, flash.assets, asset)
      ensures KeepsCached(sha256, old(flash).assets, flash.assets)
      ensures ok <==> Cached(sha256, old(flash).assets, asset)
                      || (Delivers(sha256, response, asset) && x.dir && x.open && x.write && x.rename
                          && (asset.sha in old(flash).assets ==> x.remove))
    {
      if Cached(sha256, flash.assets, asset) { return true; }
      if response.None? { return false; }
      var body := response.value;
      Received(body);
      if |body| > MAX_ASSET_BYTES || |body| != asset.size || sha256(body) != asset.sha { return false; }
      if !x.dir { return false; }
      ok := PersistAsset(asset.sha, body, x);
    }

    method RemoveAsset(sha: string)
      requires Valid() && loaded && flash.files.active == Some(Complete(Serialize(manifest)))
      requires forall asset :: asset in Refs(manifest) ==> asset.sha != sha
      modifies this`flash, this`trail
      ensures Valid() && old(trail) <= trail && flash == old(flash).(assets := old(flash).assets - {sha})
    {
      flash := flash.(assets := flash.assets - {sha});
      Note(CleanAsset(sha));
    }

    /** Removes what unfinished downloads left behind. */
    method RemoveLeftovers(stuck: set<string>)
      requires Valid()
      modifies this`flash, this`trail
      ensures Valid() && old(trail) <= trail
      ensures flash == old(flash).(parts := old(flash).parts - (old(flash).parts.Keys - stuck))
    {
      ghost var start := flash;
      var leftovers := flash.parts.Keys - stuck;
      ghost var swept: set<string> := {};
      while leftovers != {}
        invariant Valid() && old(trail) <= trail
        invariant leftovers + swept == start.parts.Keys - stuck
        invariant flash == start.(parts := start.parts - swept)
        decreases leftovers
      {
        var name :| name in leftovers;
        RemovePart(name);
        leftovers, swept := leftovers - {name}, swept + {name};
        assert start.parts - swept == (start.parts - (swept - {name})) - {name};
      }
    }

    /** Removes the cached files that no asset of the manifest uses. */
    method RemoveUnreferenced(stuck: set<string>)
      requires Valid() && loaded && flash.files.active == Some(Complete(Serialize(manifest)))
      modifies this`flash, this`trail
      ensures Valid() && old(trail) <= trail
      ensures flash == old(flash).(assets := old(flash).assets - Unreferenced(old(flash).assets, manifest, stuck))
    {
      ghost var start := flash;
      var unreferenced := Unreferenced(flash.assets, manifest, stuck);
      ghost var swept: set<string> := {};
      while unreferenced != {}
        invariant Valid() && old(trail) <= trail
        invariant unreferenced + swept == Unreferenced(start.assets, manifest, stuck)
        invariant flash == start.(assets := start.assets - swept)
        decreases unreferenced
      {
        var name :| name in unreferenced;
        assert name in Unreferenced(start.assets, manifest, stuck);
        RemoveAsset(name);
        unreferenced, swept := unreferenced - {name}, swept + {name};
        assert start.assets - swept == (start.assets - (swept - {name})) - {name};
      }
    }

    /** `cleanup_unreferenced_assets`: leaves exactly the referenced assets, and the files that refuse to go. */
    method CleanupUnreferencedAssets(dirOpens: bool, stuck: set<string>)
      requires Valid() && loaded && flash.files.active == Some(Complete(Serialize(manifest)))
      modifies this`flash, this`trail
      ensures Valid() && old(trail) <= trail
      ensures flash == old(flash).(assets := flash.assets, parts := flash.parts)
      ensures flash.assets == if dirOpens then old(flash).assets - Unreferenced(old(flash).assets, manifest, stuck)
                              else old(flash).assets
      ensures flash.parts == if dirOpens then old(flash).parts - (old(flash).parts.Keys - stuck) else old(flash).parts
    {
      if !dirOpens { return; }
      RemoveLeftovers(stuck);
      RemoveUnreferenced(stuck);
    }

    // ---------------------------------------------------------------- the acknowledgement slot

    method SetAckJob(job: Option<string>)
      requires Valid() && (job.Some? ==> WasShown(shown, job.value))
      modifies this`flash, this`trail
      ensures Valid() && old(trail) <= trail && flash == old(flash).(ackJob := job)
    {
      flash := flash.(ackJob := job);
      Note(if job.Some? then SaveAckJob(job.value) else EraseAckJob);
    }

    method SetAckState(pending: bool)
      requires Valid()
      modifies this`flash, this`trail
      ensures Valid() && old(trail) <= trail
      ensures flash == old(flash).(ackState := if pending then Some(DISPLAYED) else None)
    {
      flash := flash.(ackState := if pending then Some(DISPLAYED) else None);
      Note(if pending then SaveAckState else EraseAckState);
    }

    method SavePendingAck(job: string, x: SlotFaults) returns (ok: bool)
      requires Valid() && WasShown(shown, job)
      modifies this`flash, this`trail
      ensures Valid() && old(trail) <= trail
      ensures ok == x.AllWell()
      ensures flash == SlotAfter(old(flash), job, x)
    {
      if !x.open || !x.job { return false; }
      SetAckJob(Some(job));
      if !x.state { return false; }
      SetAckState(true);
      return x.message && x.commit;
    }

    method EraseAck(x: SendFaults)
      requires Valid()
      modifies this`flash, this`trail
      ensures Valid() && old(trail) <= trail
      ensures flash == old(flash).(ackJob := if x.eraseJob then None else old(flash).ackJob,
                                   ackState := if x.eraseState then None else old(flash).ackState)
    {
      if x.eraseJob {
        SetAckJob(None);
      }
      if x.eraseState {
        SetAckState(false);
      }
    }

    method SendPendingAck(x: SendFaults) returns (ok: bool)
      requires Valid()
      modifies this`flash, this`outbox, this`trail
      ensures Valid() && old(trail) <= trail
      ensures ok <==> Reported(old(flash), x)
      ensures outbox == old(outbox) + Report(old(flash), x)
      ensures flash == SlotReported(old(flash), x)
    {
      if !x.open { return false; }
      if !Pending(flash) { return true; }
      var message := AckMessage(flash.ackJob.value, flash.ackState.value);
      outbox := outbox + [message];
      Note(Send(message));
      ok := x.delivered;
      if ok && x.reopen {
        EraseAck(x);
      }
    }

    // ---------------------------------------------------------------- showing a due job

    /**
     * Picks the job to show: due now, or imminent after an alarm wake and due once the wait is over.
     * `clock` holds the readings the wait makes before it times out. After an alarm wake with a job
     * imminent, nothing is picked only if a reading was invalid, the wait timed out before the display
     * time, or the job had expired by then.
     */
    method ChooseDue(now: int, rtcWakeBoot: bool, clock: seq<int>) returns (selected: int, at: int)
      ensures Chooses(manifest.jobs, now, rtcWakeBoot, clock, selected, at)
      ensures selected == -1 && now >= WakePolicy.MIN_VALID_EPOCH && rtcWakeBoot ==>
        WaitFellShort(manifest.jobs, now, at)
    {
      at := now;
      selected := -1;
      var jobs := manifest.jobs;
      if now < WakePolicy.MIN_VALID_EPOCH || jobs == [] { return; }
      var windows := new WakePolicy.Window[|jobs|](i requires 0 <= i < |jobs| => AsWindow(jobs[i]));
      assert windows[..] == WindowsOf(jobs);
      selected := WakePolicy.SelectDueJob(windows, at);
      if selected < 0 && rtcWakeBoot {
        var imminent := WakePolicy.SelectImminentJob(windows, at, WakePolicy.DISPLAY_WAKE_WAIT_SECONDS);
        if imminent >= 0 {
          var target := windows[imminent].displayAt;
          at := WaitUntil(at, target, clock);
          if at < WakePolicy.MIN_VALID_EPOCH { return; }
          selected := WakePolicy.SelectDueJob(windows, at);
          if at >= target && !WakePolicy.Expired(windows[imminent], at) {
            WakePolicy.WaitEndsInDisplay(windows[..], now, imminent, at, selected);
          }
        }
      }
    }

    /** Reads the clock until the target is reached, the readings run out, or one is invalid. */
    method WaitUntil(now: int, target: int, clock: seq<int>) returns (at: int)
      requires now >= WakePolicy.MIN_VALID_EPOCH
      ensures EndsWait(now, target, clock, at)
    {
      at := now;
      var reading := 0;
      while at < target && reading < |clock|
        invariant 0 <= reading <= |clock| && at >= WakePolicy.MIN_VALID_EPOCH
        invariant at == if reading == 0 then now else clock[reading - 1]
        invariant reading > 0 ==> now < target
        invariant forall j :: 0 <= j < reading - 1 ==> WakePolicy.MIN_VALID_EPOCH <= clock[j] < target
        decreases |clock| - reading
      {
        at := clock[reading];
        reading := reading + 1;
        if at < WakePolicy.MIN_VALID_EPOCH { return; }
      }
    }

    /** The chosen job and the older due ones are marked in memory. */
    method MarkDisplayed(selected: nat, now: int)
      requires Valid() && loaded && selected < |manifest.jobs|
      modifies this`manifest, this`taken, this`trail
      ensures Valid() && old(trail) <= trail
      ensures manifest == old(manifest).(jobs := manifest.jobs) && OnlyMarks(old(manifest).jobs, manifest.jobs)
      ensures WindowsOf(manifest.jobs) == WakePolicy.AfterDisplay(WindowsOf(old(manifest).jobs), selected, now)
    {
      var jobs := MarkedJobsAfter(manifest.jobs, selected, now);
      manifest := manifest.(jobs := jobs);
      taken := None;
      Note(Mark(jobs));
    }

    /** The panel shows the cached file of a job. */
    method ShowJob(job: Job, now: int)
      requires Valid() && Enabled(sha256, universe, State(), Display(job, now))
      modifies this`shown, this`trail
      ensures Valid() && old(trail) <= trail
      ensures shown == old(shown) + [Shown(job.id, flash.assets[job.sha])]
    {
      shown := shown + [Shown(job.id, flash.assets[job.sha])];
      Note(Display(job, now));
    }

    /** What one display leaves: the chosen job shown byte for byte, and it and the older due jobs marked. */
    ghost predicate ShowedJob(before: seq<Job>, assets: map<string, Bytes>, wasShown: seq<Shown>, at: int,
                              selected: int)
      reads this
    {
      && 0 <= selected < |before|
      && WakePolicy.IsDueChoice(WindowsOf(before), at, selected)
      && Cached(sha256, assets, AssetRef(before[selected].sha, before[selected].size))
      && shown == wasShown + [Shown(before[selected].id, assets[before[selected].sha])]
      && OnlyMarks(before, manifest.jobs)
      && WindowsOf(manifest.jobs) == WakePolicy.AfterDisplay(WindowsOf(before), selected, at)
    }

    method ShowAndMark(selected: nat, at: int)
      requires Valid() && loaded && selected < |manifest.jobs|
      requires WakePolicy.IsDueChoice(WindowsOf(manifest.jobs), at, selected)
      requires Cached(sha256, flash.assets, AssetRef(manifest.jobs[selected].sha, manifest.jobs[selected].size))
      modifies this`manifest, this`taken, this`shown, this`trail
      ensures Valid() && old(trail) <= trail
      ensures ShowedJob(old(manifest).jobs, flash.assets, old(shown), at, selected)
      ensures manifest == old(manifest).(jobs := manifest.jobs) && |manifest.jobs| == |old(manifest).jobs|
      ensures WasShown(shown, old(manifest).jobs[selected].id)
      ensures forall i :: 0 <= i < |manifest.jobs| ==> !WakePolicy.Due(AsWindow(manifest.jobs[i]), at)
    {
      var job := manifest.jobs[selected];
      assert WakePolicy.Due(WindowsOf(manifest.jobs)[selected], at);
      ShowJob(job, at);
      MarkDisplayed(selected, at);
      WakePolicy.DisplayClearsDue(WindowsOf(old(manifest).jobs), at, selected);
      forall i | 0 <= i < |manifest.jobs|
        ensures !WakePolicy.Due(AsWindow(manifest.jobs[i]), at)
      {
        assert WindowsOf(manifest.jobs)[i] == AsWindow(manifest.jobs[i]);
      }
    }

    /**
     * `display_due_cached`, with the manifest loaded. It returns true exactly when it showed the chosen
     * job, and then its acknowledgement is in the slot and its mark in the file, as far as the writes went;
     * a failed attempt changes nothing but the retry deadlines. With a valid clock and a willing panel a
     * due job is always shown, and after an alarm wake an imminent one once a reading reaches its time
     * before it expires: asset closure has the picture cached.
     */
    method DisplayDueCached(enabled: bool, attemptMs: Deadlines.uint32, now: int, rtcWakeBoot: bool, clock: seq<int>,
                            renders: bool, x: Faults, slot: SlotFaults)
      returns (displayed: bool, at: int, ghost selected: int)
      requires Valid() && loaded
      modifies this`flash, this`manifest, this`taken, this`shown, this`trail, timers
      ensures Valid() && old(trail) <= trail
      ensures var attempts := enabled && !old(timers.DisplayAttemptDeferred(attemptMs));
              if attempts then Chooses(old(manifest).jobs, now, rtcWakeBoot, clock, selected, at)
              else selected == -1 && at == now
      ensures displayed <==> selected >= 0 && renders
      ensures displayed ==>
        && ShowedJob(old(manifest).jobs, old(flash).assets, old(shown), at, selected)
        && Persisted(old(flash), old(manifest).jobs[selected].id, x, slot)
      ensures displayed ==> forall i :: 0 <= i < |manifest.jobs| ==> !WakePolicy.Due(AsWindow(manifest.jobs[i]), at)
      ensures !displayed ==> manifest == old(manifest) && shown == old(shown) && flash == old(flash)
      ensures manifest == old(manifest).(jobs := manifest.jobs) && OnlyMarks(old(manifest).jobs, manifest.jobs)
      ensures enabled && !old(timers.DisplayAttemptDeferred(attemptMs)) && now >= WakePolicy.MIN_VALID_EPOCH && renders
              && !WakePolicy.IsDueChoice(WindowsOf(old(manifest).jobs), now, -1) ==>
                displayed && at == now
      ensures enabled && !old(timers.DisplayAttemptDeferred(attemptMs)) && now >= WakePolicy.MIN_VALID_EPOCH && renders
              && rtcWakeBoot && !displayed ==>
                WaitFellShort(old(manifest).jobs, now, at)
      ensures timers.nextDisplayAttemptMs ==
              if selected < 0 then old(timers.nextDisplayAttemptMs) else if displayed then 0 else RetryAt(attemptMs)
      ensures timers.nextSyncMs ==
              if selected < 0 || (displayed && WriteReports(old(flash.files), x) && slot.AllWell())
              then old(timers.nextSyncMs) else RetryAt(attemptMs)
      ensures displayed && WriteReports(old(flash.files), x) ==> OnCard(flash.files, manifest)
      ensures displayed && WriteReports(old(flash.files), x) && UniqueJobIds(old(manifest).jobs) ==>
                ChoiceSettled(old(manifest).jobs, at)
    {
      at, displayed, selected := now, false, -1;
      if !enabled { return; }
      if timers.DisplayAttemptDeferred(attemptMs) { return; }
      var choice;
      choice, at := ChooseDue(now, rtcWakeBoot, clock);
      selected := choice;
      ChoiceIsDue(manifest.jobs, now, rtcWakeBoot, clock, choice, at);
      if choice < 0 { return; }
      HeldIsCached(choice);
      displayed := AttemptDisplay(choice, at, attemptMs, renders, x, slot);
    }

    /** What a display wrote: the marks in the manifest file and the acknowledgement in the slot, as the writes went. */
    ghost predicate Persisted(before: Flash, job: string, x: Faults, slot: SlotFaults)
      reads this
    {
      flash == SlotAfter(
        before.(files := Final(before.files, WriteTrace(before.files, Serialize(manifest), x))), job, slot)
    }

    /** The mark of the job chosen at `at` among the jobs before is on the card and in memory. */
    ghost predicate ChoiceSettled(before: seq<Job>, at: int)
      reads this
    {
      forall selected: nat :: selected < |before| && WakePolicy.IsDueChoice(WindowsOf(before), at, selected) ==>
        Settled(State(), before[selected].id)
    }

    /** Once the marks in memory are on the card, so is that of the job just shown. */
    lemma ShownIsSettled(before: seq<Job>, at: int)
      requires OnlyMarks(before, manifest.jobs) && UniqueJobIds(before) && OnCard(flash.files, manifest)
      requires forall i :: 0 <= i < |manifest.jobs| ==> !WakePolicy.Due(AsWindow(manifest.jobs[i]), at)
      ensures ChoiceSettled(before, at)
    {
      forall selected: nat | selected < |before| && WakePolicy.IsDueChoice(WindowsOf(before), at, selected)
        ensures Settled(State(), before[selected].id)
      {
        assert WakePolicy.Due(WindowsOf(before)[selected], at);
        DueIsMarked(before, manifest.jobs, selected, at);
        MarkedPermuted(manifest.jobs, RecoveredJobs(flash.files), before[selected].id);
      }
    }

    /** Shows the chosen job from the cache and writes that down, or schedules another attempt. */
    method AttemptDisplay(selected: nat, at: int, attemptMs: Deadlines.uint32, renders: bool,
                          x: Faults, slot: SlotFaults)
      returns (displayed: bool)
      requires Valid() && loaded && selected < |manifest.jobs|
      requires WakePolicy.IsDueChoice(WindowsOf(manifest.jobs), at, selected)
      modifies this`flash, this`manifest, this`taken, this`shown, this`trail, timers
      ensures Valid() && old(trail) <= trail
      ensures displayed <==> renders && Cached(sha256, old(flash).assets, JobAsset(old(manifest).jobs[selected]))
      ensures displayed ==>
        && ShowedJob(old(manifest).jobs, old(flash).assets, old(shown), at, selected)
        && Persisted(old(flash), old(manifest).jobs[selected].id, x, slot)
      ensures displayed ==> forall i :: 0 <= i < |manifest.jobs| ==> !WakePolicy.Due(AsWindow(manifest.jobs[i]), at)
      ensures timers.nextDisplayAttemptMs == if displayed then 0 else RetryAt(attemptMs)
      ensures timers.nextSyncMs ==
              if displayed && WriteReports(old(flash.files), x) && slot.AllWell()
              then old(timers.nextSyncMs) else RetryAt(attemptMs)
      ensures !displayed ==> manifest == old(manifest) && shown == old(shown) && flash == old(flash)
      ensures manifest == old(manifest).(jobs := manifest.jobs) && OnlyMarks(old(manifest).jobs, manifest.jobs)
      ensures displayed && WriteReports(old(flash.files), x) ==> OnCard(flash.files, manifest)
      ensures displayed && WriteReports(old(flash.files), x) && UniqueJobIds(old(manifest).jobs) ==>
                ChoiceSettled(old(manifest).jobs, at)
    {
      var job := manifest.jobs[selected];
      displayed := Cached(sha256, flash.assets, JobAsset(job)) && renders;
      if !displayed {
        timers.DeferDisplayRetry(attemptMs);
        timers.DeferPeriodicRetry(attemptMs);
        return;
      }
      ShowAndMark(selected, at);
      PersistDisplay(job.id, attemptMs, x, slot);
      if WriteReports(old(flash.files), x) && UniqueJobIds(old(manifest).jobs) {
        ShownIsSettled(old(manifest).jobs, at);
      }
    }

    lemma HeldMayBeWritten(x: Faults)
      requires Valid() && loaded && manifest.jobs != []
      ensures MayInstall(manifest)
      ensures WriteReports(flash.files, x) ==>
                OnCard(Final(flash.files, WriteTrace(flash.files, Serialize(manifest), x)), manifest)
    {
      Invariant();
      assert MayInstall(manifest);
      MarksReachCard(flash.files, manifest, x);
    }

    /** Writes the manifest in memory, with its marks, over the active file. */
    method PersistMarks(attemptMs: Deadlines.uint32, x: Faults)
      requires Valid() && loaded && manifest.jobs != []
      modifies this`flash, this`trail, timers
      ensures Valid() && old(trail) <= trail
      ensures flash == old(flash).(
        files := Final(old(flash.files), WriteTrace(old(flash.files), Serialize(manifest), x)))
      ensures timers.nextSyncMs ==
              if WriteReports(old(flash.files), x) then old(timers.nextSyncMs) else RetryAt(attemptMs)
      ensures WriteReports(old(flash.files), x) ==> OnCard(flash.files, manifest)
    {
      HeldMayBeWritten(x);
      var written := WriteManifest(manifest, x);
      if !written {
        timers.DeferPeriodicRetry(attemptMs);
      }
    }

    /** Writes the marks and the acknowledgement down; a failure only schedules a retry. */
    method PersistDisplay(job: string, attemptMs: Deadlines.uint32, x: Faults, slot: SlotFaults)
      requires Valid() && loaded && manifest.jobs != [] && WasShown(shown, job)
      modifies this`flash, this`trail, timers
      ensures Valid() && old(trail) <= trail
      ensures timers.nextDisplayAttemptMs == 0
      ensures timers.nextSyncMs ==
              if WriteReports(old(flash.files), x) && slot.AllWell() then old(timers.nextSyncMs) else RetryAt(attemptMs)
      ensures Persisted(old(flash), job, x, slot)
      ensures WriteReports(old(flash.files), x) ==> OnCard(flash.files, manifest)
    {
      PersistMarks(attemptMs, x);
      timers.nextDisplayAttemptMs := 0;
      var saved := SavePendingAck(job, slot);
      if !saved {
        timers.DeferPeriodicRetry(attemptMs);
      }
    }

    // ---------------------------------------------------------------- synchronizing

    /** A manifest document answered the request. */
    ghost method Heard(doc: Json)
      requires Valid() && Enabled(sha256, universe, State(), Hear(doc))
      modifies this`heard, this`trail
      ensures Valid() && old(trail) <= trail && heard == old(heard) + {doc}
    {
      heard := heard + {doc};
      Note(Hear(doc));
    }

    /** Downloads the assets of a list in order, up to the first failure. */
    method DownloadAll(assets: seq<AssetRef>, replies: nat -> Option<Bytes>, faults: nat -> PartFaults)
      returns (ok: bool)
      requires Valid() && forall k {:trigger replies(k)} :: replies(k).Some? ==> replies(k).value in universe
      modifies this`flash, this`fetched, this`trail
      ensures Valid() && old(trail) <= trail
      ensures flash == old(flash).(assets := flash.assets, parts := flash.parts)
      ensures KeepsCached(sha256, old(flash).assets, flash.assets)
      ensures ok ==> forall i :: 0 <= i < |assets| ==> Cached(sha256, flash.assets, assets[i])
      ensures AllArrive(sha256, old(flash).assets, assets, replies, faults) ==> ok
    {
      var next := 0;
      while next < |assets|
        invariant 0 <= next <= |assets|
        invariant Valid() && old(trail) <= trail
        invariant flash == old(flash).(assets := flash.assets, parts := flash.parts)
        invariant KeepsCached(sha256, old(flash).assets, flash.assets)
        invariant forall i :: 0 <= i < next ==> Cached(sha256, flash.assets, assets[i])
      {
        ghost var before := flash.assets;
        ok := DownloadAsset(assets[next], replies(next), faults(next));
        if !ok { return; }
        PrefixKept(sha256, before, flash.assets, assets, next);
        next := next + 1;
      }
      ok := true;
    }

    /** The new manifest replaces the one in memory. */
    method AdoptManifest(m: Manifest)
      requires Valid() && Enabled(sha256, universe, State(), Adopt(m))
      modifies this`manifest, this`taken, this`loaded, this`trail
      ensures Valid() && old(trail) <= trail && loaded && manifest == m
    {
      manifest, loaded, taken := m, true, None;
      Note(Adopt(m));
    }

    /** Downloads what the manifest needs and then writes it; the manifest in memory stays as it is. */
    method FetchAndWrite(incoming: Manifest, net: Network) returns (ok: bool)
      requires Valid() && loaded && net.Within(universe)
      requires WellFormed(incoming) && NoEmptyAsset(incoming) && AllHeard(heard, incoming.jobs)
      requires taken == Some(incoming)
      modifies this`flash, this`fetched, this`trail
      ensures Valid() && old(trail) <= trail
      ensures flash == old(flash).(files := flash.files, assets := flash.assets, parts := flash.parts)
      ensures KeepsCached(sha256, old(flash).assets, flash.assets)
      ensures ok ==> flash.files.active == Some(Complete(Serialize(incoming)))
      ensures !ok ==> Recovered(flash.files) == Recovered(old(flash.files))
      ensures ok ==> WriteReports(old(flash.files), net.write)
      ensures net.Serves(sha256, old(flash).files, old(flash).assets, incoming) ==> ok
    {
      ok := DownloadAll(AssetList(incoming), net.replies, net.parts);
      if !ok { return; }
      assert AllCached(sha256, flash.assets, Refs(incoming)) by { ListedCoversRefs(incoming); }
      assert flash.files.active.Some? ==> Loads(flash.files.active) by { Invariant(); }
      WriteIsAtomicFor(flash.files, incoming, net.write);
      ok := WriteManifest(incoming, net.write);
    }

    /** Downloads what the manifest needs, writes it, and only then switches to it and cleans up. */
    method SwitchTo(incoming: Manifest, net: Network) returns (ok: bool)
      requires Valid() && loaded && net.Within(universe)
      requires WellFormed(incoming) && NoEmptyAsset(incoming) && AllHeard(heard, incoming.jobs)
      requires taken == Some(incoming)
      modifies this`flash, this`manifest, this`taken, this`loaded, this`fetched, this`trail
      ensures Valid() && old(trail) <= trail && loaded
      ensures flash == old(flash).(files := flash.files, assets := flash.assets, parts := flash.parts)
      ensures ok ==> manifest == incoming && flash.files.active == Some(Complete(Serialize(incoming)))
      ensures !ok ==> manifest == old(manifest) && Recovered(flash.files) == Recovered(old(flash.files))
      ensures !ok ==> KeepsCached(sha256, old(flash).assets, flash.assets)
      ensures ok ==> WriteReports(old(flash.files), net.write) && (net.dirOpens ==> Cleaned(flash, incoming, net.stuck))
      ensures net.Serves(sha256, old(flash).files, old(flash).assets, incoming) ==> ok
    {
      ok := FetchAndWrite(incoming, net);
      if !ok { return; }
      AdoptAndClean(incoming, net.dirOpens, net.stuck);
    }

    /** The manifest just written becomes the one in memory, and what it does not name is removed. */
    method AdoptAndClean(incoming: Manifest, dirOpens: bool, stuck: set<string>)
      requires Valid() && Enabled(sha256, universe, State(), Adopt(incoming))
      requires flash.files.active == Some(Complete(Serialize(incoming)))
      modifies this`flash, this`manifest, this`taken, this`loaded, this`trail
      ensures Valid() && old(trail) <= trail && loaded && manifest == incoming
      ensures flash == old(flash).(assets := flash.assets, parts := flash.parts)
      ensures dirOpens ==> Cleaned(flash, incoming, stuck)
    {
      AdoptManifest(incoming);
      CleanupUnreferencedAssets(dirOpens, stuck);
    }

    /** An answer was read with the flags of the manifest in memory, and its expired jobs dropped. */
    ghost method Taken(doc: Json, parsed: Manifest)
      requires Valid() && Enabled(sha256, universe, State(), Take(doc, parsed))
      modifies this`taken, this`trail
      ensures Valid() && old(trail) <= trail && taken == Some(LiveManifest(parsed))
    {
      ghost var before := State();
      taken := Some(LiveManifest(parsed));
      assert State() == After(before, Take(doc, parsed));
      Note(Take(doc, parsed));
    }

    /** Reads the answer with the flags of the manifest in memory, and drops the jobs already expired. */
    method ReadAnswer(net: Network) returns (incoming: Option<Manifest>)
      requires Valid() && loaded
      requires net.body.Some? ==> Enabled(sha256, universe, State(), Hear(net.body.value))
      modifies this`heard, this`taken, this`trail
      ensures Valid() && old(trail) <= trail
      ensures incoming.Some? <==>
                net.body.Some? && net.rtcSet && Validate(net.body.value, Some(manifest.jobs)).Some?
      ensures incoming.Some? ==> TookManifest(net.body.value, manifest.jobs, incoming.value)
      ensures incoming.Some? ==>
                WellFormed(incoming.value) && NoEmptyAsset(incoming.value) && AllHeard(heard, incoming.value.jobs)
                && taken == Some(incoming.value)
    {
      if net.body.None? { return None; }
      Heard(net.body.value);
      var parsed := ParseManifest(net.body, Some(manifest.jobs));
      if parsed.None? || !net.rtcSet { return None; }
      var live := LiveManifest(parsed.value);
      Taken(net.body.value, parsed.value);
      assert PlainHeard(heard) by { Invariant(); }
      IncomingIsGood(heard, net.body.value, Some(manifest.jobs), parsed.value);
      assert TookManifest(net.body.value, manifest.jobs, live);
      return Some(live);
    }

    /**
     * The synchronization proper: the answer is read with the flags of the manifest in memory, expired
     * jobs are dropped, and the device switches to what is left. On any failure it keeps what it had,
     * on the card and in memory, and retries in five minutes.
     */
    method TakeManifest(net: Network, attemptMs: Deadlines.uint32, doneMs: Deadlines.uint32,
                        pollMinutes: nat, rtcNow: int)
      returns (ok: bool)
      requires Valid() && loaded && net.Within(universe)
      requires net.body.Some? ==> Enabled(sha256, universe, State(), Hear(net.body.value))
      modifies this`flash, this`manifest, this`taken, this`loaded, this`heard, this`fetched, this`trail, timers
      ensures Valid() && old(trail) <= trail && loaded
      ensures flash == old(flash).(files := flash.files, assets := flash.assets, parts := flash.parts)
      ensures ok ==> net.body.Some? && TookManifest(net.body.value, old(manifest).jobs, manifest)
                     && flash.files.active == Some(Complete(Serialize(manifest)))
      ensures ok ==> net.rtcSet && WriteReports(old(flash.files), net.write)
                     && (net.dirOpens ==> Cleaned(flash, manifest, net.stuck))
      ensures timers.nextSyncMs ==
              if ok then Deadlines.WrapAdd(doneMs, Deadlines.SyncDelayMs(pollMinutes, rtcNow, manifest.nextSyncAt))
              else RetryAt(attemptMs)
      ensures timers.nextDisplayAttemptMs == if ok then 0 else old(timers.nextDisplayAttemptMs)
      ensures !ok ==> manifest == old(manifest) && Recovered(flash.files) == Recovered(old(flash.files))
      ensures !ok ==> KeepsCached(sha256, old(flash).assets, flash.assets)
      ensures net.Smooth(sha256, old(flash).files, old(flash).assets, old(manifest).jobs) ==> ok
    {
      var incoming := ReadAnswer(net);
      ok := false;
      if incoming.Some? {
        ok := SwitchTo(incoming.value, net);
      }
      if ok {
        timers.DeferPeriodicSync(doneMs, pollMinutes, rtcNow, manifest.nextSyncAt);
        timers.nextDisplayAttemptMs := 0;
      } else {
        timers.DeferPeriodicRetry(attemptMs);
      }
    }

    /** The jobs held after loading: those of the manifest a reboot recovers, or none. */
    ghost predicate HeldAfterLoad(files: Files, jobs: seq<Job>) {
      if Recovered(files).Some? then exists m :: Parses(Recovered(files).value, None, m) && jobs == m.jobs
      else jobs == []
    }

    /** The start of a synchronization: the manifest is loaded and a pending acknowledgement is sent. */
    method BeginSync(removeOk: bool, renameOk: bool, before: SendFaults)
      requires Valid()
      modifies this`flash, this`manifest, this`taken, this`loaded, this`outbox, this`trail
      ensures Valid() && old(trail) <= trail && loaded
      ensures old(loaded) ==> manifest == old(manifest) && flash.files == old(flash.files)
      ensures !old(loaded) ==> HeldAfterLoad(old(flash.files), manifest.jobs)
      ensures Recovered(flash.files) == Recovered(old(flash.files))
      ensures outbox == old(outbox) + Report(old(flash), before)
      ensures flash == SlotReported(old(flash), before).(files := flash.files)
    {
      EnsureManifestLoaded(removeOk, renameOk);
      var _ := SendPendingAck(before);
    }

    /**
     * `sync_now`: the pending acknowledgement, the manifest, a due job, and its acknowledgement. Whatever
     * fails, and wherever power is lost, the device has only made moves of the protocol.
     *
     * `took` says that it switched to what the answer listed (`taken`), read with the flags of the jobs it
     * held (`held`) less the jobs expired at the server's time, which it does when the network and the card
     * let it. Then, and only then, a due job is shown and what is pending is reported, and the result is
     * whether that report went through. Otherwise everything stays and the answer is false.
     */
    method SyncNow(enabled: bool, removeOk: bool, renameOk: bool, before: SendFaults, net: Network,
                   attemptMs: Deadlines.uint32, doneMs: Deadlines.uint32, displayMs: Deadlines.uint32,
                   reportMs: Deadlines.uint32, pollMinutes: nat, rtcNow: int, displayNow: int,
                   rtcWakeBoot: bool, clock: seq<int>, renders: bool, x: Faults, slot: SlotFaults, after: SendFaults)
      returns (ok: bool, ghost held: seq<Job>, ghost taken: Manifest, ghost took: bool, ghost filesThen: Files,
               ghost slotThen: Flash, ghost at: int, ghost selected: int)
      requires Valid() && net.Within(universe)
      requires net.body.Some? ==> Enabled(sha256, universe, State(), Hear(net.body.value))
      modifies this, timers
      ensures Valid() && old(trail) <= trail
      ensures !enabled ==> !ok && !took && State() == old(State())
      ensures enabled ==> if old(loaded) then held == old(manifest).jobs else HeldAfterLoad(old(flash.files), held)
      ensures enabled && old(loaded) && net.Smooth(sha256, old(flash).files, old(flash).assets, held) ==> took
      ensures enabled ==> KeepsMarks(held, manifest.jobs)
      ensures enabled && !took ==>
        && !ok && manifest.jobs == held && shown == old(shown) && outbox == old(outbox) + Report(old(flash), before)
        && Recovered(flash.files) == Recovered(old(flash.files)) && timers.nextSyncMs == RetryAt(attemptMs)
      ensures took ==>
        && enabled && net.body.Some? && net.rtcSet && TookManifest(net.body.value, held, taken)
        && DisplayedAfter(taken.jobs, old(shown), displayNow, rtcWakeBoot, clock, renders, at, selected)
        && manifest == taken.(jobs := manifest.jobs)
      ensures took ==>
        && SlotSince(slotThen, SlotReported(old(flash), before), taken.jobs, selected, renders, slot)
        && outbox == old(outbox) + Report(old(flash), before) + Report(slotThen, after)
        && (ok <==> Reported(slotThen, after))
        && flash == SlotReported(slotThen, after).(files := flash.files, assets := flash.assets, parts := flash.parts)
      ensures took ==>
        && filesThen.active == Some(Complete(Serialize(taken)))
        && flash.files == StoredFiles(filesThen, manifest, selected >= 0 && renders, x)
      ensures took ==>
        var planned := Deadlines.WrapAdd(doneMs, Deadlines.SyncDelayMs(pollMinutes, rtcNow, taken.nextSyncAt));
        timers.nextSyncMs ==
          if !ok then RetryAt(reportMs)
          else DeadlineAfter(planned, displayMs, selected, renders, filesThen, x, slot)
    {
      ok, held, taken, took := false, manifest.jobs, manifest, false;
      filesThen, slotThen, at, selected := flash.files, flash, displayNow, -1;
      if !enabled { return; }
      BeginSync(removeOk, renameOk, before);
      held := manifest.jobs;
      ok, taken, took, filesThen, slotThen, at, selected :=
        TakeAndShow(net, attemptMs, doneMs, displayMs, reportMs, pollMinutes, rtcNow, displayNow, rtcWakeBoot,
                    clock, renders, x, slot, after);
    }

    /** What the display attempt after a switch to `jobs` did: the choice, and whether it was shown. */
    ghost predicate DisplayedAfter(jobs: seq<Job>, wasShown: seq<Shown>, now: int, rtcWakeBoot: bool, clock: seq<int>,
                                   renders: bool, at: int, selected: int)
      reads this
    {
      && Chooses(jobs, now, rtcWakeBoot, clock, selected, at)
      && OnlyMarks(jobs, manifest.jobs)
      && if selected >= 0 && renders then ShowedJob(jobs, flash.assets, wasShown, at, selected)
         else shown == wasShown && manifest.jobs == jobs
    }

    /** The rest of a synchronization, once the manifest is loaded. */
    method TakeAndShow(net: Network, attemptMs: Deadlines.uint32, doneMs: Deadlines.uint32, displayMs: Deadlines.uint32,
                       reportMs: Deadlines.uint32, pollMinutes: nat, rtcNow: int, displayNow: int,
                       rtcWakeBoot: bool, clock: seq<int>, renders: bool,
                       x: Faults, slot: SlotFaults, after: SendFaults)
      returns (ok: bool, ghost taken: Manifest, ghost took: bool, ghost filesThen: Files, ghost slotThen: Flash,
               ghost at: int, ghost selected: int)
      requires Valid() && loaded && net.Within(universe)
      requires net.body.Some? ==> Enabled(sha256, universe, State(), Hear(net.body.value))
      modifies this, timers
      ensures Valid() && old(trail) <= trail
      ensures net.Smooth(sha256, old(flash).files, old(flash).assets, old(manifest).jobs) ==> took
      ensures KeepsMarks(old(manifest).jobs, manifest.jobs)
      ensures !took ==>
        && !ok && manifest == old(manifest) && shown == old(shown) && outbox == old(outbox)
        && Recovered(flash.files) == Recovered(old(flash.files)) && timers.nextSyncMs == RetryAt(attemptMs)
      ensures took ==>
        && net.body.Some? && net.rtcSet && TookManifest(net.body.value, old(manifest).jobs, taken)
        && DisplayedAfter(taken.jobs, old(shown), displayNow, rtcWakeBoot, clock, renders, at, selected)
        && manifest == taken.(jobs := manifest.jobs)
      ensures took ==>
        && SlotSince(slotThen, old(flash), taken.jobs, selected, renders, slot)
        && outbox == old(outbox) + Report(slotThen, after)
        && (ok <==> Reported(slotThen, after))
        && flash == SlotReported(slotThen, after).(files := flash.files, assets := flash.assets, parts := flash.parts)
      ensures took ==>
        && filesThen.active == Some(Complete(Serialize(taken)))
        && flash.files == StoredFiles(filesThen, manifest, selected >= 0 && renders, x)
      ensures took ==>
        var planned := Deadlines.WrapAdd(doneMs, Deadlines.SyncDelayMs(pollMinutes, rtcNow, taken.nextSyncAt));
        timers.nextSyncMs ==
          if !ok then RetryAt(reportMs)
          else DeadlineAfter(planned, displayMs, selected, renders, filesThen, x, slot)
    {
      ok := TakeManifest(net, attemptMs, doneMs, pollMinutes, rtcNow);
      taken, took, filesThen, slotThen, at, selected := manifest, ok, flash.files, flash, displayNow, -1;
      if ok {
        ok, slotThen, at, selected :=
          ShowAndReport(displayMs, reportMs, displayNow, rtcWakeBoot, clock, renders, x, slot, after);
        SyncKeepsMarks(net.body.value, old(manifest).jobs, taken, manifest.jobs);
      }
    }

    /** The display attempt after a switch, which no deadline defers. */
    method ShowDue(displayMs: Deadlines.uint32, now: int, rtcWakeBoot: bool, clock: seq<int>, renders: bool,
                   x: Faults, slot: SlotFaults)
      returns (ghost at: int, ghost selected: int)
      requires Valid() && loaded && timers.nextDisplayAttemptMs == 0
      modifies this`flash, this`manifest, this`taken, this`shown, this`trail, timers
      ensures Valid() && old(trail) <= trail
      ensures manifest == old(manifest).(jobs := manifest.jobs)
      ensures DisplayedAfter(old(manifest).jobs, old(shown), now, rtcWakeBoot, clock, renders, at, selected)
      ensures flash.assets == old(flash.assets)
      ensures SlotSince(flash, old(flash), old(manifest).jobs, selected, renders, slot)
      ensures flash.files == StoredFiles(old(flash.files), manifest, selected >= 0 && renders, x)
      ensures timers.nextSyncMs ==
              DeadlineAfter(old(timers.nextSyncMs), displayMs, selected, renders, old(flash.files), x, slot)
    {
      var displayed;
      displayed, at, selected := DisplayDueCached(true, displayMs, now, rtcWakeBoot, clock, renders, x, slot);
    }

    /** The end of a synchronization: show what is due and send the acknowledgement. */
    method ShowAndReport(displayMs: Deadlines.uint32, reportMs: Deadlines.uint32, now: int,
                         rtcWakeBoot: bool, clock: seq<int>, renders: bool,
                         x: Faults, slot: SlotFaults, after: SendFaults)
      returns (ok: bool, ghost slotThen: Flash, ghost at: int, ghost selected: int)
      requires Valid() && loaded && timers.nextDisplayAttemptMs == 0
      modifies this`flash, this`manifest, this`taken, this`shown, this`outbox, this`trail, timers
      ensures Valid() && old(trail) <= trail
      ensures manifest == old(manifest).(jobs := manifest.jobs)
      ensures DisplayedAfter(old(manifest).jobs, old(shown), now, rtcWakeBoot, clock, renders, at, selected)
      ensures SlotSince(slotThen, old(flash), old(manifest).jobs, selected, renders, slot)
      ensures outbox == old(outbox) + Report(slotThen, after)
      ensures ok <==> Reported(slotThen, after)
      ensures flash == SlotReported(slotThen, after)
      ensures flash.files == StoredFiles(old(flash.files), manifest, selected >= 0 && renders, x)
      ensures timers.nextSyncMs ==
              if !ok then RetryAt(reportMs)
              else DeadlineAfter(old(timers.nextSyncMs), displayMs, selected, renders, old(flash.files), x, slot)
    {
      at, selected := ShowDue(displayMs, now, rtcWakeBoot, clock, renders, x, slot);
      slotThen := flash;
      ok := SendPendingAck(after);
      if !ok {
        timers.DeferPeriodicRetry(reportMs);
      }
    }

    /** A reboot: memory and deadlines are gone, the card and the acknowledgement slot are not. */
    method PowerCycle()
      requires Valid()
      modifies this`manifest, this`taken, this`loaded, this`trail, timers
      ensures Valid() && old(trail) <= trail && State() == After(old(State()), Reboot)
      ensures timers.nextSyncMs == 0 && timers.nextDisplayAttemptMs == 0
    {
      manifest, loaded, taken := EMPTY_MANIFEST, false, None;
      timers.nextSyncMs, timers.nextDisplayAttemptMs := 0, 0;
      Note(Reboot);
    }
  }

  /** What the network and the card do during one synchronization. */
  datatype Network = Network(
    body: Option<Json>, rtcSet: bool, replies: nat -> Option<Bytes>, parts: nat -> PartFaults,
    write: Faults, dirOpens: bool, stuck: set<string>)
  {
    ghost predicate Within(universe: set<Bytes>) {
      forall k {:trigger replies(k)} :: replies(k).Some? ==> replies(k).value in universe
    }

    /** Nothing on the network or the card stands in the way of a switch to `m`. */
    ghost predicate Serves(h: Digest, files: Files, assets: map<string, Bytes>, m: Manifest) {
      AllArrive(h, assets, AssetList(m), replies, parts) && WriteReports(files, write)
    }

    /** The same, for whatever manifest the answer is read as. */
    ghost predicate Smooth(h: Digest, files: Files, assets: map<string, Bytes>, previous: seq<Job>) {
      && body.Some? && rtcSet && Validate(body.value, Some(previous)).Some?
      && forall m {:trigger TookManifest(body.value, previous, m)} ::
           TookManifest(body.value, previous, m) ==> Serves(h, files, assets, m)
    }
  }

  function JobAsset(job: Job): AssetRef {
    AssetRef(job.sha, job.size)
  }

  function AssetList(m: Manifest): seq<AssetRef> {
    seq(|m.jobs|, i requires 0 <= i < |m.jobs| => AssetRef(m.jobs[i].sha, m.jobs[i].size))
    + seq(|m.pages|, i requires 0 <= i < |m.pages| => AssetRef(m.pages[i].sha, m.pages[i].size))
  }

  lemma ListedCoversRefs(m: Manifest)
    ensures forall asset :: asset in Refs(m) ==> asset in AssetList(m)
  {
    forall asset | asset in Refs(m)
      ensures asset in AssetList(m)
    {
      if asset in JobRefs(m.jobs) {
        var i :| 0 <= i < |m.jobs| && asset == AssetRef(m.jobs[i].sha, m.jobs[i].size);
        assert AssetList(m)[i] == asset;
      } else {
        var i :| 0 <= i < |m.pages| && asset == AssetRef(m.pages[i].sha, m.pages[i].size);
        assert AssetList(m)[|m.jobs| + i] == asset;
      }
    }
  }

  lemma {:induction false} LiveBytes(jobs: seq<Job>, serverTime: int)
    ensures JobBytes(LiveJobs(jobs, serverTime)) <= JobBytes(jobs)
  {
    if jobs != [] {
      var front := LiveJobs(jobs[..|jobs| - 1], serverTime);
      LiveBytes(jobs[..|jobs| - 1], serverTime);
      assert (front + [jobs[|jobs| - 1]])[..|front|] == front;
      assert front + [] == front;
    }
  }

  lemma IncomingIsGood(heard: set<Json>, doc: Json, previous: Option<seq<Job>>, parsed: Manifest)
    requires doc in heard && PlainHeard(heard) && Parses(doc, previous, parsed)
    ensures var incoming := LiveManifest(parsed);
            WellFormed(incoming) && NoEmptyAsset(incoming) && AllHeard(heard, incoming.jobs)
  {
    ParsedManifest(doc, previous, parsed);
    ParsedIsHeard(heard, doc, previous, parsed);
    LiveBytes(parsed.jobs, parsed.serverTime);
  }

  lemma SyncKeepsMarks(doc: Json, previous: seq<Job>, taken: Manifest, after: seq<Job>)
    requires TookManifest(doc, previous, taken) && OnlyMarks(taken.jobs, after)
    ensures KeepsMarks(previous, after)
  {
    forall id | Marked(previous, id) && Lists(after, id)
      ensures Marked(after, id)
    {
      var i :| 0 <= i < |after| && after[i].id == id;
      assert after[i].(displayed := taken.jobs[i].displayed) == taken.jobs[i];
      assert taken.jobs[i].id == id;
      TakeKeepsMark(doc, previous, taken, id);
      OnlyMarksKeepsMark(taken.jobs, after, id);
    }
  }

  lemma WriteIsAtomicFor(files: Files, m: Manifest, x: Faults)
    requires (files.active.Some? ==> Loads(files.active)) && WellFormed(m) && NoEmptyAsset(m)
    ensures WriteReports(files, x) ==>
              Final(files, WriteTrace(files, Serialize(m), x)).active == Some(Complete(Serialize(m)))
    ensures !WriteReports(files, x) ==> Recovered(Final(files, WriteTrace(files, Serialize(m), x))) == Recovered(files)
  {
    ReadBack(m);
    WriteIsAtomic(files, Serialize(m), x);
  }

  lemma MarksReachCard(files: Files, m: Manifest, x: Faults)
    requires (files.active.Some? ==> Loads(files.active)) && WellFormed(m) && NoEmptyAsset(m)
    ensures WriteReports(files, x) ==> OnCard(Final(files, WriteTrace(files, Serialize(m), x)), m)
  {
    if WriteReports(files, x) {
      WriteIsAtomicFor(files, m, x);
      WrittenIsOnCard(Final(files, WriteTrace(files, Serialize(m), x)), m);
    }
  }

  function DocOf(file: Option<Body>): Option<Json> {
    if file.Some? && file.value.Complete? then Some(file.value.doc) else None
  }

  /** Every asset is cached already, or its download arrives whole and can be stored. */
  ghost predicate AllArrive(h: Digest, cached: map<string, Bytes>, assets: seq<AssetRef>,
                            replies: nat -> Option<Bytes>, faults: nat -> PartFaults) {
    forall i :: 0 <= i < |assets| ==>
      Cached(h, cached, assets[i]) || (Delivers(h, replies(i), assets[i]) && faults(i).AllWell())
  }

  /** The answer to a download that is worth keeping. */
  predicate Delivers(h: Digest, response: Option<Bytes>, asset: AssetRef) {
    && response.Some? && |response.value| <= MAX_ASSET_BYTES
    && |response.value| == asset.size && h(response.value) == asset.sha
  }

  /** A job that was due and is not any more, with at most marks changed, is marked. */
  lemma DueIsMarked(before: seq<Job>, after: seq<Job>, k: nat, at: int)
    requires OnlyMarks(before, after) && UniqueJobIds(before) && k < |before|
    requires WakePolicy.Due(AsWindow(before[k]), at) && !WakePolicy.Due(AsWindow(after[k]), at)
    ensures Marked(after, before[k].id)
  {
    forall i | 0 <= i < |after|
      ensures after[i].id == before[i].id
    {
      assert after[i].(displayed := before[i].displayed) == before[i];
    }
    assert after[k].(displayed := before[k].displayed) == before[k];
  }

  /** The payload is filed under its name, and no part of its download is left. */
  ghost predicate Filed(before: Flash, sha: string, png: Bytes, after: Flash) {
    after == before.(assets := before.assets[sha := png], parts := before.parts - {sha})
  }

  ghost predicate SameButName(before: map<string, Bytes>, after: map<string, Bytes>, sha: string) {
    before - {sha} == after - {sha}
  }

  ghost predicate KeepsCached(h: Digest, before: map<string, Bytes>, after: map<string, Bytes>) {
    forall asset :: Cached(h, before, asset) ==> Cached(h, after, asset)
  }

  lemma PrefixKept(h: Digest, before: map<string, Bytes>, after: map<string, Bytes>, assets: seq<AssetRef>, n: nat)
    requires n < |assets| && KeepsCached(h, before, after) && Cached(h, after, assets[n])
    requires forall i :: 0 <= i < n ==> Cached(h, before, assets[i])
    ensures forall i :: 0 <= i < n + 1 ==> Cached(h, after, assets[i])
  {
  }

  /** Only what the manifest names is cached, and no part of a download is left, but for files that cannot go. */
  ghost predicate Cleaned(flash: Flash, m: Manifest, stuck: set<string>) {
    && (forall sha :: sha in flash.assets && sha !in stuck ==> exists asset :: asset in Refs(m) && asset.sha == sha)
    && flash.parts.Keys <= stuck
  }

  /** Cached files that no asset of the manifest uses and that can be removed. */
  function Unreferenced(assets: map<string, Bytes>, m: Manifest, stuck: set<string>): set<string> {
    set sha | sha in assets && sha !in stuck && forall asset :: asset in Refs(m) ==> asset.sha != sha
  }
}
