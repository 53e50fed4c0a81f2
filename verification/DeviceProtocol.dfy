/**
 * The device's side of the protocol as single steps: each move is one file operation, one change of
 * the in-memory manifest, one display or one message. Power may be lost between any two moves.
 *
 * `Intrude` is the one move that is not the firmware's: the card doubles as a USB drive, so any content
 * may appear in the cache under a name that no current manifest uses.
 *
 * A move's guard is what the firmware has checked, or just done, when it makes that move; the
 * `DeviceClient` module proves that its methods only ever make moves whose guards hold.
 */
module DeviceProtocol {
  import opened Wrappers
  import opened Bytes
  import opened ManifestDoc
  import opened ManifestFiles
  import opened ManifestMarks
  import WakePolicy

  datatype Shown = Shown(job: string, png: Bytes)
  datatype AckMessage = AckMessage(job: string, state: string)
  datatype AssetRef = AssetRef(sha: string, size: nat)

  /** What survives a power loss: the manifest files, the asset cache and the acknowledgement slot. */
  datatype Flash = Flash(
    files: Files, assets: map<string, Bytes>, parts: map<string, Bytes>,
    ackJob: Option<string>, ackState: Option<string>)

  /**
   * The device, with the manifest it has taken from an answer and not yet switched to, and beside it the
   * record of what it heard and fetched, and of what it showed and sent, in order.
   */
  datatype Device = Device(
    flash: Flash, manifest: Manifest, loaded: bool, taken: Option<Manifest>,
    heard: set<Json>, fetched: set<Bytes>, shown: seq<Shown>, outbox: seq<AckMessage>)

  const NEW_DEVICE :=
    Device(Flash(NO_FILES, map[], map[], None, None), EMPTY_MANIFEST, false, None, {}, {}, [], [])

  const DISPLAYED := "displayed"

  datatype Move =
    | Reboot
    | Load(m: Manifest)
    | DropActive
    | Promote
    | WriteTemp(body: Body)
    | DropTemp
    | DropBackup
    | Retire
    | Install(m: Manifest)
    | Adopt(m: Manifest)
    | WritePart(sha: string, png: Bytes)
    | DropPart(sha: string)
    | ReplaceAsset(sha: string, png: Bytes)
    | StoreAsset(sha: string, png: Bytes)
    | CleanAsset(sha: string)
    | Intrude(sha: string, png: Bytes)
    | Hear(doc: Json)
    | Take(doc: Json, parsed: Manifest)
    | Fetch(png: Bytes)
    | Display(job: Job, now: int)
    | Mark(jobs: seq<Job>)
    | SaveAckJob(id: string)
    | SaveAckState
    | EraseAckJob
    | EraseAckState
    | Send(ack: AckMessage)

  // ------------------------------------------------------------------ assets and provenance

  function JobRefs(jobs: seq<Job>): set<AssetRef> {
    set job | job in jobs :: AssetRef(job.sha, job.size)
  }

  function Refs(m: Manifest): set<AssetRef> {
    JobRefs(m.jobs) + set page | page in m.pages :: AssetRef(page.sha, page.size)
  }

  /** The assets of the manifest a reboot would recover. */
  function RecoveredRefs(files: Files): set<AssetRef> {
    var doc := Recovered(files);
    if doc.Some? && Validate(doc.value, None).Some? then Refs(Validate(doc.value, None).value) else {}
  }

  function RecoveredJobs(files: Files): seq<Job> {
    var doc := Recovered(files);
    if doc.Some? && Validate(doc.value, None).Some? then Validate(doc.value, None).value.jobs else []
  }

  /** A reboot would recover the jobs of `m`, flags included. */
  ghost predicate OnCard(files: Files, m: Manifest) {
    multiset(RecoveredJobs(files)) == multiset(m.jobs)
  }

  /** The job's mark is on the card, and in memory too once the manifest is loaded. */
  ghost predicate Settled(d: Device, id: string) {
    Marked(RecoveredJobs(d.flash.files), id) && (d.loaded ==> Marked(d.manifest.jobs, id))
  }

  /** A manifest that was written is on the card. */
  lemma WrittenIsOnCard(files: Files, m: Manifest)
    requires files.active == Some(Complete(Serialize(m))) && WellFormed(m) && NoEmptyAsset(m)
    ensures OnCard(files, m)
  {
    ReadBack(m);
  }

  predicate Cached(h: Digest, assets: map<string, Bytes>, asset: AssetRef) {
    asset.sha in assets && |assets[asset.sha]| == asset.size && h(assets[asset.sha]) == asset.sha
  }

  ghost predicate AllCached(h: Digest, assets: map<string, Bytes>, refs: set<AssetRef>) {
    forall asset :: asset in refs ==> Cached(h, assets, asset)
  }

  /** Some manifest heard from the gateway lists this job with this asset. */
  ghost predicate HeardJob(heard: set<Json>, id: string, asset: AssetRef) {
    exists doc, k: nat ::
      && doc in heard && Validate(doc, Some([])).Some? && k < |Validate(doc, Some([])).value.jobs|
      && Validate(doc, Some([])).value.jobs[k].id == id
      && Validate(doc, Some([])).value.jobs[k].sha == asset.sha
      && Validate(doc, Some([])).value.jobs[k].size == asset.size
  }

  ghost predicate AllHeard(heard: set<Json>, jobs: seq<Job>) {
    forall job :: job in jobs ==> HeardJob(heard, job.id, AssetRef(job.sha, job.size))
  }

  function AsWindow(job: Job): WakePolicy.Window {
    WakePolicy.Window(job.displayAt, job.expiresAt, job.displayed)
  }

  /** The same jobs, with at most more of them marked displayed. */
  ghost predicate OnlyMarks(before: seq<Job>, after: seq<Job>) {
    && |before| == |after|
    && forall i :: 0 <= i < |before| ==>
         && after[i].(displayed := before[i].displayed) == before[i]
         && (before[i].displayed ==> after[i].displayed)
  }

  lemma OnlyMarksKeepsMark(before: seq<Job>, after: seq<Job>, id: string)
    requires OnlyMarks(before, after) && Marked(before, id)
    ensures Marked(after, id)
  {
    var i :| 0 <= i < |before| && before[i].id == id;
    forall k | 0 <= k < |after|
      ensures after[k].id == before[k].id && (before[k].displayed ==> after[k].displayed)
    {
      assert after[k].(displayed := before[k].displayed) == before[k];
    }
    assert after[i].id == id;
  }

  // ------------------------------------------------------------------ guards and effects

  ghost predicate Enabled(h: Digest, universe: set<Bytes>, d: Device, move: Move) {
    var files, assets, parts := d.flash.files, d.flash.assets, d.flash.parts;
    match move
    case Reboot => true
    case Load(m) =>
      !d.loaded && if Recovered(files).Some? then Parses(Recovered(files).value, None, m) else m == EMPTY_MANIFEST
    case DropActive => files.active.Some? && !Loads(files.active) && Loads(files.backup)
    case Promote => files.active.None? && files.backup.Some?
    case WriteTemp(_) => true
    case DropTemp => true
    case DropBackup => files.active.Some?
    case Retire => files.active.Some? && files.backup.None?
    case Install(m) =>
      && d.loaded && (m == d.manifest || d.taken == Some(m))
      && files.active.None? && files.temp == Some(Complete(Serialize(m)))
      && WellFormed(m) && NoEmptyAsset(m) && AllCached(h, assets, Refs(m)) && AllHeard(d.heard, m.jobs)
    case Adopt(m) =>
      && d.loaded && files.active == Some(Complete(Serialize(m)))
      && WellFormed(m) && NoEmptyAsset(m) && AllHeard(d.heard, m.jobs) && d.taken == Some(m)
    case WritePart(_, _) => true
    case DropPart(_) => true
    case ReplaceAsset(sha, png) =>
      && sha in parts && parts[sha] == png && png in d.fetched && h(png) == sha
      && !Cached(h, assets, AssetRef(sha, |png|))
    case StoreAsset(sha, png) =>
      sha !in assets && sha in parts && parts[sha] == png && png in d.fetched && h(png) == sha
    case CleanAsset(sha) =>
      && d.loaded && files.active == Some(Complete(Serialize(d.manifest)))
      && forall asset :: asset in Refs(d.manifest) ==> asset.sha != sha
    case Intrude(sha, png) =>
      && png in universe
      && (forall asset :: asset in RecoveredRefs(files) ==> asset.sha != sha)
      && (d.loaded ==> forall asset :: asset in Refs(d.manifest) ==> asset.sha != sha)
    case Hear(doc) => Validate(doc, Some([])).Some? ==> NoEmptyAsset(Validate(doc, Some([])).value)
    case Take(doc, parsed) => d.loaded && doc in d.heard && Parses(doc, Some(d.manifest.jobs), parsed)
    case Fetch(png) => png in universe
    case Display(job, now) =>
      && d.loaded && job in d.manifest.jobs && WakePolicy.Due(AsWindow(job), now)
      && Cached(h, assets, AssetRef(job.sha, job.size))
    case Mark(jobs) => d.loaded && OnlyMarks(d.manifest.jobs, jobs)
    case SaveAckJob(id) => exists png :: Shown(id, png) in d.shown
    case SaveAckState => true
    case EraseAckJob => true
    case EraseAckState => true
    case Send(ack) => d.flash.ackJob == Some(ack.job) && d.flash.ackState == Some(ack.state)
  }

  ghost function FilesAfter(files: Files, move: Move): Files {
    match move
    case DropActive => files.(active := None)
    case Promote => files.(active := files.backup, backup := None)
    case WriteTemp(body) => files.(temp := Some(body))
    case DropTemp => files.(temp := None)
    case DropBackup => files.(backup := None)
    case Retire => files.(active := None, backup := files.active)
    case Install(_) => files.(active := files.temp, temp := None)
    case _ => files
  }

  ghost function FlashAfter(flash: Flash, move: Move): Flash {
    match move
    case WritePart(sha, png) => flash.(parts := flash.parts[sha := png])
    case DropPart(sha) => flash.(parts := flash.parts - {sha})
    case ReplaceAsset(sha, _) => flash.(assets := flash.assets - {sha})
    case StoreAsset(sha, png) => flash.(assets := flash.assets[sha := png], parts := flash.parts - {sha})
    case CleanAsset(sha) => flash.(assets := flash.assets - {sha})
    case Intrude(sha, png) => flash.(assets := flash.assets[sha := png])
    case SaveAckJob(id) => flash.(ackJob := Some(id))
    case SaveAckState => flash.(ackState := Some(DISPLAYED))
    case EraseAckJob => flash.(ackJob := None)
    case EraseAckState => flash.(ackState := None)
    case _ => flash.(files := FilesAfter(flash.files, move))
  }

  ghost function After(d: Device, move: Move): Device {
    match move
    case Reboot => d.(manifest := EMPTY_MANIFEST, loaded := false, taken := None)
    case Load(m) => d.(manifest := m, loaded := true, taken := None)
    case Adopt(m) => d.(manifest := m, loaded := true, taken := None)
    case Mark(jobs) => d.(manifest := d.manifest.(jobs := jobs), taken := None)
    case Hear(doc) => d.(heard := d.heard + {doc})
    case Take(_, parsed) => d.(taken := Some(LiveManifest(parsed)))
    case Fetch(png) => d.(fetched := d.fetched + {png})
    case Display(job, _) =>
      if job.sha in d.flash.assets then d.(shown := d.shown + [Shown(job.id, d.flash.assets[job.sha])]) else d
    case Send(ack) => d.(outbox := d.outbox + [ack])
    case _ => d.(flash := FlashAfter(d.flash, move))
  }

  ghost predicate Step(h: Digest, universe: set<Bytes>, d: Device, move: Move, e: Device) {
    Enabled(h, universe, d, move) && e == After(d, move)
  }

  /** The device can make these moves, one after the other. */
  ghost predicate CanMake(h: Digest, universe: set<Bytes>, d: Device, moves: seq<Move>)
    decreases |moves|
  {
    moves != [] ==> Enabled(h, universe, d, moves[0]) && CanMake(h, universe, After(d, moves[0]), moves[1..])
  }

  lemma OneThen(h: Digest, universe: set<Bytes>, d: Device, move: Move, rest: seq<Move>)
    requires Enabled(h, universe, d, move) && CanMake(h, universe, After(d, move), rest)
    ensures CanMake(h, universe, d, [move] + rest)
  {
    assert ([move] + rest)[1..] == rest;
  }

  // ------------------------------------------------------------------ what every step keeps

  ghost predicate CacheInv(universe: set<Bytes>, d: Device) {
    && d.fetched <= universe
    && forall sha :: sha in d.flash.assets ==> d.flash.assets[sha] in universe
  }

  /** Asset closure: whatever manifest a reboot would recover, and the one in memory, are fully cached. */
  ghost predicate Closed(h: Digest, d: Device) {
    && AllCached(h, d.flash.assets, RecoveredRefs(d.flash.files))
    && (d.loaded ==> AllCached(h, d.flash.assets, Refs(d.manifest)))
  }

  /** A manifest file that is present loads, names no empty asset and lists only heard jobs. */
  ghost predicate FileInv(heard: set<Json>, file: Option<Body>) {
    file.Some? ==>
      && Loads(file) && NoEmptyAsset(Validate(file.value.doc, None).value)
      && AllHeard(heard, Validate(file.value.doc, None).value.jobs)
  }

  ghost predicate MemoryInv(heard: set<Json>, m: Manifest) {
    && (m == EMPTY_MANIFEST || (WellFormed(m) && NoEmptyAsset(m)))
    && AllHeard(heard, m.jobs)
  }

  ghost predicate PlainHeard(heard: set<Json>) {
    forall doc :: doc in heard && Validate(doc, Some([])).Some? ==> NoEmptyAsset(Validate(doc, Some([])).value)
  }

  ghost predicate ManifestInv(d: Device) {
    && FileInv(d.heard, d.flash.files.active) && FileInv(d.heard, d.flash.files.backup)
    && MemoryInv(d.heard, d.manifest) && PlainHeard(d.heard)
  }

  /** Everything shown was the asset of a job heard from the gateway, byte for byte up to the digest. */
  ghost predicate ShownInv(h: Digest, universe: set<Bytes>, d: Device) {
    forall s :: s in d.shown ==> s.png in universe && HeardJob(d.heard, s.job, AssetRef(h(s.png), |s.png|))
  }

  ghost predicate WasShown(shown: seq<Shown>, job: string) {
    exists png :: Shown(job, png) in shown
  }

  /** The acknowledgement slot and the messages sent from it speak only of jobs that were shown. */
  ghost predicate AckInv(d: Device) {
    && (d.flash.ackJob.Some? ==> WasShown(d.shown, d.flash.ackJob.value))
    && (d.flash.ackState.Some? ==> d.flash.ackState.value == DISPLAYED)
    && (forall ack :: ack in d.outbox ==> WasShown(d.shown, ack.job) && ack.state == DISPLAYED)
  }

  ghost predicate DeviceInv(h: Digest, universe: set<Bytes>, d: Device) {
    CacheInv(universe, d) && Closed(h, d) && ManifestInv(d) && ShownInv(h, universe, d) && AckInv(d)
  }

  lemma NewDeviceInv(h: Digest, universe: set<Bytes>)
    ensures DeviceInv(h, universe, NEW_DEVICE)
  {
  }

  // ---- reading a document with or without earlier flags

  lemma {:induction false} FlagsOnly(items: seq<Json>, a: Option<seq<Job>>, b: Option<seq<Job>>)
    ensures ParseJobs(items, a).Some? <==> ParseJobs(items, b).Some?
    ensures ParseJobs(items, a).Some? ==>
              && |ParseJobs(items, a).value| == |ParseJobs(items, b).value|
              && JobBytes(ParseJobs(items, a).value) == JobBytes(ParseJobs(items, b).value)
              && forall i :: 0 <= i < |ParseJobs(items, a).value| ==>
                   SameJob(ParseJobs(items, a).value[i], ParseJobs(items, b).value[i])
  {
    if items != [] {
      FlagsOnly(items[..|items| - 1], a, b);
    }
  }

  predicate SameJob(a: Job, b: Job) {
    a.(displayed := false) == b.(displayed := false)
  }

  lemma ReadingDiffersInFlags(doc: Json, a: Option<seq<Job>>, b: Option<seq<Job>>)
    requires Validate(doc, a).Some?
    ensures Validate(doc, b).Some?
    ensures var ma, mb := Validate(doc, a).value, Validate(doc, b).value;
            && ma.pages == mb.pages && |ma.jobs| == |mb.jobs|
            && forall i :: 0 <= i < |ma.jobs| ==> SameJob(ma.jobs[i], mb.jobs[i])
  {
    FlagsOnly(Get(doc, "jobs").value.items, a, b);
  }

  lemma ListedIsHeard(heard: set<Json>, doc: Json, previous: Option<seq<Job>>, k: nat)
    requires doc in heard && Validate(doc, previous).Some? && k < |Validate(doc, previous).value.jobs|
    ensures var job := Validate(doc, previous).value.jobs[k];
            && HeardJob(heard, job.id, AssetRef(job.sha, job.size))
            && Validate(doc, Some([])).Some?
            && (NoEmptyAsset(Validate(doc, Some([])).value) ==> job.size >= 1)
  {
    ReadingDiffersInFlags(doc, previous, Some([]));
    var read, plain := Validate(doc, previous).value.jobs, Validate(doc, Some([])).value.jobs;
    assert SameJob(read[k], plain[k]);
    assert plain[k] in plain;
  }

  /** A manifest read from a document that was heard lists only heard jobs, and has no empty asset. */
  lemma ParsedIsHeard(heard: set<Json>, doc: Json, previous: Option<seq<Job>>, m: Manifest)
    requires doc in heard && Parses(doc, previous, m)
    ensures AllHeard(heard, m.jobs)
    ensures PlainHeard(heard) ==> NoEmptyAsset(m)
  {
    var read := Validate(doc, previous).value;
    forall job | job in m.jobs
      ensures HeardJob(heard, job.id, AssetRef(job.sha, job.size))
      ensures PlainHeard(heard) ==> job.size >= 1
    {
      assert job in multiset(m.jobs);
      assert job in multiset(read.jobs);
      var k: nat :| k < |read.jobs| && read.jobs[k] == job;
      ListedIsHeard(heard, doc, previous, k);
      ReadingDiffersInFlags(doc, previous, Some([]));
    }
    ReadingDiffersInFlags(doc, previous, Some([]));
  }

  lemma HeardGrows(heard: set<Json>, more: set<Json>, jobs: seq<Job>)
    requires heard <= more && AllHeard(heard, jobs)
    ensures AllHeard(more, jobs)
  {
    forall job | job in jobs
      ensures HeardJob(more, job.id, AssetRef(job.sha, job.size))
    {
      HeardJobGrows(heard, more, job.id, AssetRef(job.sha, job.size));
    }
  }

  lemma HeardJobGrows(heard: set<Json>, more: set<Json>, id: string, asset: AssetRef)
    requires heard <= more && HeardJob(heard, id, asset)
    ensures HeardJob(more, id, asset)
  {
    var doc, k: nat :|
      && doc in heard && Validate(doc, Some([])).Some? && k < |Validate(doc, Some([])).value.jobs|
      && Validate(doc, Some([])).value.jobs[k].id == id
      && Validate(doc, Some([])).value.jobs[k].sha == asset.sha
      && Validate(doc, Some([])).value.jobs[k].size == asset.size;
    assert doc in more;
  }

  // ---- manifest moves

  lemma SameJobsSameRefs(m: Manifest, jobs: seq<Job>, heard: set<Json>)
    requires multiset(jobs) == multiset(m.jobs)
    ensures Refs(m.(jobs := jobs)) == Refs(m)
    ensures AllHeard(heard, jobs) <==> AllHeard(heard, m.jobs)
  {
    assert forall job :: job in jobs <==> job in multiset(jobs);
    assert forall job :: job in m.jobs <==> job in multiset(m.jobs);
    assert JobRefs(jobs) == JobRefs(m.jobs);
  }

  /** Reading a good file gives a manifest with the file's assets. */
  lemma LoadedManifest(heard: set<Json>, file: Option<Body>, m: Manifest)
    requires file.Some? && FileInv(heard, file) && Parses(file.value.doc, None, m)
    ensures MemoryInv(heard, m) && Refs(m) == Refs(Validate(file.value.doc, None).value)
  {
    var read := Validate(file.value.doc, None).value;
    SameJobsSameRefs(read, m.jobs, heard);
    ParsedManifest(file.value.doc, None, m);
    PermutedJobs(read, m.jobs);
  }

  lemma LoadStep(h: Digest, universe: set<Bytes>, d: Device, move: Move)
    requires DeviceInv(h, universe, d) && move.Load? && Enabled(h, universe, d, move)
    ensures DeviceInv(h, universe, After(d, move))
  {
    var files := d.flash.files;
    if Loads(files.active) {
      LoadedManifest(d.heard, files.active, move.m);
    } else if Loads(files.backup) {
      LoadedManifest(d.heard, files.backup, move.m);
    }
  }

  /** The written form of a good manifest is a good file, and a reboot would recover that manifest's assets. */
  lemma WrittenFile(heard: set<Json>, m: Manifest)
    requires WellFormed(m) && NoEmptyAsset(m) && AllHeard(heard, m.jobs)
    ensures FileInv(heard, Some(Complete(Serialize(m))))
    ensures Validate(Serialize(m), None) == Some(m)
  {
    ReadBack(m);
  }

  lemma InstallStep(h: Digest, universe: set<Bytes>, d: Device, move: Move)
    requires DeviceInv(h, universe, d) && move.Install? && Enabled(h, universe, d, move)
    ensures DeviceInv(h, universe, After(d, move))
  {
    WrittenFile(d.heard, move.m);
  }

  lemma AdoptStep(h: Digest, universe: set<Bytes>, d: Device, move: Move)
    requires DeviceInv(h, universe, d) && move.Adopt? && Enabled(h, universe, d, move)
    ensures DeviceInv(h, universe, After(d, move))
  {
    WrittenFile(d.heard, move.m);
  }

  /** Moving the files about never changes what would be recovered, except by installing. */
  lemma FileMoveStep(h: Digest, universe: set<Bytes>, d: Device, move: Move)
    requires DeviceInv(h, universe, d) && Enabled(h, universe, d, move)
    requires MovesFiles(move)
    ensures DeviceInv(h, universe, After(d, move))
    ensures Recovered(After(d, move).flash.files) == Recovered(d.flash.files)
  {
  }

  lemma MarkStep(h: Digest, universe: set<Bytes>, d: Device, move: Move)
    requires DeviceInv(h, universe, d) && move.Mark? && Enabled(h, universe, d, move)
    ensures DeviceInv(h, universe, After(d, move))
  {
    MarkedManifest(d.manifest, move.jobs, d.heard);
  }

  lemma {:induction false} MarkedBytes(before: seq<Job>, after: seq<Job>)
    requires OnlyMarks(before, after)
    ensures JobBytes(after) == JobBytes(before)
  {
    if before != [] {
      var last := |before| - 1;
      MarkedBytes(before[..last], after[..last]);
      assert after[last].(displayed := before[last].displayed) == before[last];
    }
  }

  lemma MarkedJob(before: seq<Job>, after: seq<Job>, i: nat)
    requires OnlyMarks(before, after) && i < |before|
    ensures SameJob(before[i], after[i]) && before[i] in before && after[i] in after
  {
    assert after[i].(displayed := before[i].displayed) == before[i];
  }

  lemma MarkedRefs(before: seq<Job>, after: seq<Job>)
    requires OnlyMarks(before, after)
    ensures JobRefs(after) == JobRefs(before)
  {
    forall i | 0 <= i < |before|
      ensures SameJob(before[i], after[i]) && before[i] in before && after[i] in after
    {
      MarkedJob(before, after, i);
    }
    assert forall asset :: asset in JobRefs(after) ==> asset in JobRefs(before);
    assert forall asset :: asset in JobRefs(before) ==> asset in JobRefs(after);
  }

  lemma MarkedWellFormed(before: seq<Job>, after: seq<Job>)
    requires OnlyMarks(before, after)
    ensures (forall job :: job in before ==> WellFormedJob(job)) ==> forall job :: job in after ==> WellFormedJob(job)
    ensures (forall job :: job in before ==> job.size >= 1) ==> forall job :: job in after ==> job.size >= 1
  {
    forall i | 0 <= i < |before|
      ensures SameJob(before[i], after[i]) && before[i] in before
    {
      MarkedJob(before, after, i);
    }
  }

  lemma MarkedHeard(before: seq<Job>, after: seq<Job>, heard: set<Json>)
    requires OnlyMarks(before, after) && AllHeard(heard, before)
    ensures AllHeard(heard, after)
  {
    forall i | 0 <= i < |after|
      ensures HeardJob(heard, after[i].id, AssetRef(after[i].sha, after[i].size))
    {
      MarkedJob(before, after, i);
    }
  }

  lemma MarkedManifest(m: Manifest, jobs: seq<Job>, heard: set<Json>)
    requires OnlyMarks(m.jobs, jobs)
    ensures Refs(m.(jobs := jobs)) == Refs(m)
    ensures WellFormed(m) ==> WellFormed(m.(jobs := jobs))
    ensures NoEmptyAsset(m) ==> NoEmptyAsset(m.(jobs := jobs))
    ensures AllHeard(heard, m.jobs) ==> AllHeard(heard, jobs)
    ensures m == EMPTY_MANIFEST ==> m.(jobs := jobs) == EMPTY_MANIFEST
  {
    MarkedBytes(m.jobs, jobs);
    MarkedRefs(m.jobs, jobs);
    MarkedWellFormed(m.jobs, jobs);
    if AllHeard(heard, m.jobs) { MarkedHeard(m.jobs, jobs, heard); }
  }

  // ---- asset moves

  lemma PartStep(h: Digest, universe: set<Bytes>, d: Device, move: Move)
    requires DeviceInv(h, universe, d) && Enabled(h, universe, d, move)
    requires move.WritePart? || move.DropPart?
    ensures DeviceInv(h, universe, After(d, move))
  {
  }

  /** With no colliding payloads, the file a download replaces serves no asset at all. */
  lemma ReplacedIsUseless(h: Digest, universe: set<Bytes>, d: Device, sha: string, png: Bytes, size: nat)
    requires CacheInv(universe, d) && CollisionFree(h, universe)
    requires png in d.fetched && h(png) == sha && !Cached(h, d.flash.assets, AssetRef(sha, |png|))
    ensures !Cached(h, d.flash.assets, AssetRef(sha, size))
  {
  }

  lemma ReplaceStep(h: Digest, universe: set<Bytes>, d: Device, move: Move)
    requires DeviceInv(h, universe, d) && CollisionFree(h, universe) && Enabled(h, universe, d, move)
    requires move.ReplaceAsset?
    ensures DeviceInv(h, universe, After(d, move))
  {
    var left := After(d, move).flash.assets;
    forall asset | Cached(h, d.flash.assets, asset)
      ensures Cached(h, left, asset)
    {
      ReplacedIsUseless(h, universe, d, move.sha, move.png, asset.size);
    }
    assert AllCached(h, left, RecoveredRefs(d.flash.files));
  }

  lemma StoreStep(h: Digest, universe: set<Bytes>, d: Device, move: Move)
    requires DeviceInv(h, universe, d) && Enabled(h, universe, d, move) && move.StoreAsset?
    ensures DeviceInv(h, universe, After(d, move))
  {
    var more := After(d, move).flash.assets;
    assert forall asset :: Cached(h, d.flash.assets, asset) ==> Cached(h, more, asset);
    assert AllCached(h, more, RecoveredRefs(d.flash.files));
  }

  lemma UnusedNameChanges(h: Digest, assets: map<string, Bytes>, sha: string, png: Bytes, refs: set<AssetRef>)
    requires AllCached(h, assets, refs) && forall asset :: asset in refs ==> asset.sha != sha
    ensures AllCached(h, assets[sha := png], refs)
  {
    forall asset | asset in refs
      ensures Cached(h, assets[sha := png], asset)
    {
      assert Cached(h, assets, asset);
    }
  }

  lemma IntrudeStep(h: Digest, universe: set<Bytes>, d: Device, move: Move)
    requires DeviceInv(h, universe, d) && move.Intrude? && Enabled(h, universe, d, move)
    ensures DeviceInv(h, universe, After(d, move))
  {
    UnusedNameChanges(h, d.flash.assets, move.sha, move.png, RecoveredRefs(d.flash.files));
    if d.loaded {
      UnusedNameChanges(h, d.flash.assets, move.sha, move.png, Refs(d.manifest));
    }
  }

  /** Where the active file is the manifest in memory, that manifest's assets are all a reboot would need. */
  lemma ActiveIsMemory(h: Digest, d: Device)
    requires ManifestInv(d) && d.flash.files.active == Some(Complete(Serialize(d.manifest)))
    ensures RecoveredRefs(d.flash.files) == Refs(d.manifest)
  {
    if d.manifest == EMPTY_MANIFEST {
      EmptyIsNotWritten(d.flash.files.active, d.heard);
    } else {
      WrittenFile(d.heard, d.manifest);
    }
  }

  lemma CleanStep(h: Digest, universe: set<Bytes>, d: Device, move: Move)
    requires DeviceInv(h, universe, d) && move.CleanAsset? && Enabled(h, universe, d, move)
    ensures DeviceInv(h, universe, After(d, move))
  {
    ActiveIsMemory(h, d);
    var left := d.flash.assets - {move.sha};
    forall asset | asset in Refs(d.manifest)
      ensures Cached(h, left, asset)
    {
      assert Cached(h, d.flash.assets, asset);
    }
  }

  lemma EmptyIsNotWritten(file: Option<Body>, heard: set<Json>)
    requires FileInv(heard, file)
    ensures file != Some(Complete(Serialize(EMPTY_MANIFEST)))
  {
  }

  // ---- hearing, fetching, showing, acknowledging

  lemma HearStep(h: Digest, universe: set<Bytes>, d: Device, move: Move)
    requires DeviceInv(h, universe, d) && move.Hear? && Enabled(h, universe, d, move)
    ensures DeviceInv(h, universe, After(d, move))
  {
    var more := d.heard + {move.doc};
    var files := d.flash.files;
    if files.active.Some? { HeardGrows(d.heard, more, Validate(files.active.value.doc, None).value.jobs); }
    if files.backup.Some? { HeardGrows(d.heard, more, Validate(files.backup.value.doc, None).value.jobs); }
    HeardGrows(d.heard, more, d.manifest.jobs);
    forall s | s in d.shown
      ensures HeardJob(more, s.job, AssetRef(h(s.png), |s.png|))
    {
      HeardJobGrows(d.heard, more, s.job, AssetRef(h(s.png), |s.png|));
    }
  }

  lemma TakeStep(h: Digest, universe: set<Bytes>, d: Device, move: Move)
    requires DeviceInv(h, universe, d) && move.Take? && Enabled(h, universe, d, move)
    ensures DeviceInv(h, universe, After(d, move))
  {
  }

  lemma FetchStep(h: Digest, universe: set<Bytes>, d: Device, move: Move)
    requires DeviceInv(h, universe, d) && move.Fetch? && Enabled(h, universe, d, move)
    ensures DeviceInv(h, universe, After(d, move))
  {
  }

  lemma DisplayStep(h: Digest, universe: set<Bytes>, d: Device, move: Move)
    requires DeviceInv(h, universe, d) && move.Display? && Enabled(h, universe, d, move)
    ensures DeviceInv(h, universe, After(d, move))
  {
    var e := After(d, move);
    assert d.shown <= e.shown;
  }

  lemma AckSlotStep(h: Digest, universe: set<Bytes>, d: Device, move: Move)
    requires DeviceInv(h, universe, d) && Enabled(h, universe, d, move)
    requires MovesAcks(move)
    ensures DeviceInv(h, universe, After(d, move))
  {
  }

  predicate MovesFiles(move: Move) {
    move.DropActive? || move.Promote? || move.WriteTemp? || move.DropTemp? || move.DropBackup? || move.Retire?
  }

  predicate MovesAssets(move: Move) {
    move.WritePart? || move.DropPart? || move.ReplaceAsset? || move.StoreAsset? || move.CleanAsset? || move.Intrude?
  }

  predicate MovesAcks(move: Move) {
    move.SaveAckJob? || move.SaveAckState? || move.EraseAckJob? || move.EraseAckState? || move.Send?
  }

  lemma AssetStep(h: Digest, universe: set<Bytes>, d: Device, move: Move)
    requires DeviceInv(h, universe, d) && CollisionFree(h, universe) && Enabled(h, universe, d, move)
    requires MovesAssets(move)
    ensures DeviceInv(h, universe, After(d, move))
  {
    if move.CleanAsset? {
      CleanStep(h, universe, d, move);
    } else if move.Intrude? {
      IntrudeStep(h, universe, d, move);
    } else if move.StoreAsset? {
      StoreStep(h, universe, d, move);
    } else if move.ReplaceAsset? {
      ReplaceStep(h, universe, d, move);
    } else {
      PartStep(h, universe, d, move);
    }
  }

  /** Every step keeps the invariant: asset closure, good files, and honest acknowledgements. */
  lemma StepKeepsInvariant(h: Digest, universe: set<Bytes>, d: Device, move: Move, e: Device)
    requires DeviceInv(h, universe, d) && CollisionFree(h, universe) && Step(h, universe, d, move, e)
    ensures DeviceInv(h, universe, e)
  {
    if MovesFiles(move) {
      FileMoveStep(h, universe, d, move);
    } else if MovesAssets(move) {
      AssetStep(h, universe, d, move);
    } else if MovesAcks(move) {
      AckSlotStep(h, universe, d, move);
    } else {
      MemoryStep(h, universe, d, move);
    }
  }

  lemma MemoryStep(h: Digest, universe: set<Bytes>, d: Device, move: Move)
    requires DeviceInv(h, universe, d) && Enabled(h, universe, d, move)
    requires !MovesFiles(move) && !MovesAssets(move) && !MovesAcks(move)
    ensures DeviceInv(h, universe, After(d, move))
  {
    match move
    case Reboot => RebootStep(h, universe, d);
    case Load(_) => LoadStep(h, universe, d, move);
    case Install(_) => InstallStep(h, universe, d, move);
    case Adopt(_) => AdoptStep(h, universe, d, move);
    case Hear(_) => HearStep(h, universe, d, move);
    case Take(_, _) => TakeStep(h, universe, d, move);
    case Fetch(_) => FetchStep(h, universe, d, move);
    case Display(_, _) => DisplayStep(h, universe, d, move);
    case Mark(_) => MarkStep(h, universe, d, move);
  }

  lemma RebootStep(h: Digest, universe: set<Bytes>, d: Device)
    requires DeviceInv(h, universe, d)
    ensures DeviceInv(h, universe, After(d, Reboot))
  {
  }
}
