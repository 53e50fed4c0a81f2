/**
 * The mark that is lost: a display whose mark did not reach the card before the power went is made again.
 * From a new device on, one answer, one download and one failed write are enough.
 */
module LostMark {
  import opened Wrappers
  import opened Bytes
  import opened ManifestDoc
  import opened ManifestFiles
  import opened ManifestMarks
  import opened DeviceProtocol
  import WakePolicy

  /** The jobs with every flag set. */
  function AllMarked(jobs: seq<Job>): (r: seq<Job>)
    ensures |r| == |jobs|
  {
    seq(|jobs|, i requires 0 <= i < |jobs| => jobs[i].(displayed := true))
  }

  /** A power loss, and a display after the reload. */
  function RebootAndShow(m: Manifest, job: Job, now: int): seq<Move> {
    [Reboot] + ([Load(m)] + [Display(job, now)])
  }

  /** The same, just after that display, whose mark stayed in memory. */
  function ShowTwice(held: seq<Job>, m: Manifest, job: Job, now: int): seq<Move> {
    [Display(job, now)] + ([Mark(AllMarked(held))] + RebootAndShow(m, job, now))
  }

  lemma ShownAfterReboot(h: Digest, universe: set<Bytes>, d: Device, m: Manifest, job: Job, now: int)
    requires WakePolicy.Due(AsWindow(job), now) && Cached(h, d.flash.assets, AssetRef(job.sha, job.size))
    requires job in RecoveredJobs(d.flash.files) && Enabled(h, universe, After(d, Reboot), Load(m))
    ensures CanMake(h, universe, d, RebootAndShow(m, job, now))
  {
    var off := After(d, Reboot);
    var on := After(off, Load(m));
    assert job in multiset(RecoveredJobs(d.flash.files));
    assert job in m.jobs;
    OneThen(h, universe, on, Display(job, now), []);
    OneThen(h, universe, off, Load(m), [Display(job, now)]);
    OneThen(h, universe, d, Reboot, [Load(m)] + [Display(job, now)]);
  }

  lemma MayMarkAll(jobs: seq<Job>)
    ensures OnlyMarks(jobs, AllMarked(jobs))
  {
  }

  /** The device just after a display, its marks in memory only. */
  ghost function MarkedInMemory(d: Device, job: Job, now: int): (e: Device)
    ensures e.flash == d.flash
  {
    After(After(d, Display(job, now)), Mark(AllMarked(d.manifest.jobs)))
  }

  lemma ShownThen(h: Digest, universe: set<Bytes>, d: Device, job: Job, now: int, rest: seq<Move>)
    requires Enabled(h, universe, d, Display(job, now)) && CanMake(h, universe, MarkedInMemory(d, job, now), rest)
    ensures CanMake(h, universe, d, [Display(job, now)] + ([Mark(AllMarked(d.manifest.jobs))] + rest))
  {
    var mark := Mark(AllMarked(d.manifest.jobs));
    MayMarkAll(d.manifest.jobs);
    OneThen(h, universe, After(d, Display(job, now)), mark, rest);
    OneThen(h, universe, d, Display(job, now), [mark] + rest);
  }

  /**
   * The mark of a display that did not reach the card is lost with the power: from any state in which the
   * card still recovers the shown job unmarked, the device can show it twice.
   */
  lemma ShownTwice(h: Digest, universe: set<Bytes>, d: Device, m: Manifest, job: Job, now: int)
    requires Enabled(h, universe, d, Display(job, now)) && job in RecoveredJobs(d.flash.files)
    requires Enabled(h, universe, After(d, Reboot), Load(m))
    ensures CanMake(h, universe, d, ShowTwice(d.manifest.jobs, m, job, now))
  {
    ShownAfterReboot(h, universe, MarkedInMemory(d, job, now), m, job, now);
    ShownThen(h, universe, d, job, now, RebootAndShow(m, job, now));
  }

  // ------------------------------------------------------------------ from a new device

  /** A manifest of one job, due from its first second on and never expiring. */
  function OneJob(h: Digest, png: Bytes): Job {
    Job("a", ASSET_PREFIX, h(png), |png|, 1, 0, false)
  }

  function OneJobManifest(h: Digest, png: Bytes): Manifest {
    Manifest(WakePolicy.MIN_VALID_EPOCH, WakePolicy.MIN_VALID_EPOCH + 1, 1, [OneJob(h, png)], [])
  }

  predicate Payload(png: Bytes) {
    1 <= |png| <= MAX_ASSET_BYTES
  }

  lemma OneJobIsWellFormed(h: Digest, png: Bytes)
    requires WritesLowerHex(h) && Payload(png)
    ensures WellFormed(OneJobManifest(h, png)) && NoEmptyAsset(OneJobManifest(h, png))
  {
    AsciiLength("a");
    AsciiLength(ASSET_PREFIX);
    var job, nothing: seq<Job> := OneJob(h, png), [];
    assert IsHexSha256(h(png)) && LowerAscii(h(png)) == h(png);
    assert [job][..0] == nothing && JobBytes([job]) == JobBytes(nothing) + |png|;
  }

  lemma OneJobReadsBack(h: Digest, png: Bytes)
    requires WritesLowerHex(h) && Payload(png)
    ensures var m := OneJobManifest(h, png);
      Validate(Serialize(m), None) == Some(m) && Parses(Serialize(m), None, m)
  {
    OneJobIsWellFormed(h, png);
    ReadBack(OneJobManifest(h, png));
  }

  /** The answer that carries it is read as it stands, and nothing in it is expired. */
  lemma OneJobIsTaken(h: Digest, png: Bytes)
    requires WritesLowerHex(h) && Payload(png)
    ensures var m := OneJobManifest(h, png);
      && Validate(Serialize(m), Some([])) == Some(m) && Parses(Serialize(m), Some([]), m)
      && LiveManifest(m) == m
  {
    var m := OneJobManifest(h, png);
    OneJobReadsBack(h, png);
    ReadingDiffersInFlags(Serialize(m), None, Some([]));
    var read := Validate(Serialize(m), Some([])).value;
    assert SameJob(m.jobs[0], read.jobs[0]);
    assert Parses(Serialize(m), Some([]), read);
    CarriedFlags(Serialize(m), [], read, 0);
    assert read.jobs == m.jobs;
    AllLive(m.jobs, m.serverTime);
  }

  lemma ThreeThen(h: Digest, universe: set<Bytes>, d: Device, a: Move, b: Move, c: Move, rest: seq<Move>)
    requires Enabled(h, universe, d, a) && Enabled(h, universe, After(d, a), b)
    requires Enabled(h, universe, After(After(d, a), b), c)
    requires CanMake(h, universe, After(After(After(d, a), b), c), rest)
    ensures CanMake(h, universe, d, [a, b, c] + rest)
  {
    OneThen(h, universe, After(After(d, a), b), c, rest);
    OneThen(h, universe, After(d, a), b, [c] + rest);
    OneThen(h, universe, d, a, [b] + ([c] + rest));
    assert [a] + ([b] + ([c] + rest)) == [a, b, c] + rest;
  }

  /** A device that took `m` from an answer, and nothing else yet. */
  ghost function Answered(doc: Json, m: Manifest): Device {
    NEW_DEVICE.(heard := {doc}, loaded := true, taken := Some(m))
  }

  lemma HeardThen(h: Digest, universe: set<Bytes>, doc: Json, m: Manifest, rest: seq<Move>)
    requires Validate(doc, Some([])) == Some(m) && NoEmptyAsset(m)
    requires CanMake(h, universe, NEW_DEVICE.(heard := {doc}), rest)
    ensures CanMake(h, universe, NEW_DEVICE, [Hear(doc)] + rest)
  {
    var none: set<Json> := {};
    assert none + {doc} == {doc};
    assert After(NEW_DEVICE, Hear(doc)) == NEW_DEVICE.(heard := {doc});
    OneThen(h, universe, NEW_DEVICE, Hear(doc), rest);
  }

  lemma LoadedThen(h: Digest, universe: set<Bytes>, d: Device, rest: seq<Move>)
    requires !d.loaded && d.taken == None && d.flash.files == NO_FILES
    requires CanMake(h, universe, d.(manifest := EMPTY_MANIFEST, loaded := true), rest)
    ensures CanMake(h, universe, d, [Load(EMPTY_MANIFEST)] + rest)
  {
    assert After(d, Load(EMPTY_MANIFEST)) == d.(manifest := EMPTY_MANIFEST, loaded := true);
    OneThen(h, universe, d, Load(EMPTY_MANIFEST), rest);
  }

  lemma TakenThen(h: Digest, universe: set<Bytes>, d: Device, doc: Json, m: Manifest, rest: seq<Move>)
    requires d.loaded && doc in d.heard && Parses(doc, Some(d.manifest.jobs), m) && LiveManifest(m) == m
    requires CanMake(h, universe, d.(taken := Some(m)), rest)
    ensures CanMake(h, universe, d, [Take(doc, m)] + rest)
  {
    assert After(d, Take(doc, m)) == d.(taken := Some(m));
    OneThen(h, universe, d, Take(doc, m), rest);
  }

  lemma AnsweredThen(h: Digest, universe: set<Bytes>, doc: Json, m: Manifest, rest: seq<Move>)
    requires Validate(doc, Some([])) == Some(m) && NoEmptyAsset(m)
    requires Parses(doc, Some([]), m) && LiveManifest(m) == m
    requires CanMake(h, universe, Answered(doc, m), rest)
    ensures CanMake(h, universe, NEW_DEVICE, [Hear(doc)] + ([Load(EMPTY_MANIFEST)] + ([Take(doc, m)] + rest)))
  {
    var heard := NEW_DEVICE.(heard := {doc});
    TakenThen(h, universe, heard.(loaded := true), doc, m, rest);
    LoadedThen(h, universe, heard, [Take(doc, m)] + rest);
    HeardThen(h, universe, doc, m, [Load(EMPTY_MANIFEST)] + ([Take(doc, m)] + rest));
  }

  /** The same device with one payload downloaded. */
  ghost function Stocked(d: Device, sha: string, png: Bytes): Device {
    d.(fetched := {png}, flash := d.flash.(assets := map[sha := png]))
  }

  lemma StockedThen(h: Digest, universe: set<Bytes>, d: Device, png: Bytes, rest: seq<Move>)
    requires png in universe && d.fetched == {} && d.flash.assets == map[] && d.flash.parts == map[]
    requires CanMake(h, universe, Stocked(d, h(png), png), rest)
    ensures CanMake(h, universe, d, [Fetch(png), WritePart(h(png), png), StoreAsset(h(png), png)] + rest)
  {
    var a := After(d, Fetch(png));
    var b := After(a, WritePart(h(png), png));
    var c := After(b, StoreAsset(h(png), png));
    assert a.fetched == {png};
    assert c.flash.parts == d.flash.parts;
    assert c.flash.assets == map[h(png) := png];
    assert c == Stocked(d, h(png), png);
    ThreeThen(h, universe, d, Fetch(png), WritePart(h(png), png), StoreAsset(h(png), png), rest);
  }

  /** The same device with `m` written and in memory. */
  ghost function Switched(d: Device, m: Manifest): Device {
    d.(flash := d.flash.(files := Files(Some(Complete(Serialize(m))), None, None)), manifest := m, taken := None)
  }

  lemma SwitchedThen(h: Digest, universe: set<Bytes>, d: Device, m: Manifest, rest: seq<Move>)
    requires d.loaded && d.taken == Some(m) && d.flash.files == NO_FILES && WellFormed(m) && NoEmptyAsset(m)
    requires AllCached(h, d.flash.assets, Refs(m)) && AllHeard(d.heard, m.jobs)
    requires CanMake(h, universe, Switched(d, m), rest)
    ensures CanMake(h, universe, d, [WriteTemp(Complete(Serialize(m))), Install(m), Adopt(m)] + rest)
  {
    ThreeThen(h, universe, d, WriteTemp(Complete(Serialize(m))), Install(m), Adopt(m), rest);
  }

  lemma OneJobRefs(h: Digest, png: Bytes)
    ensures Refs(OneJobManifest(h, png)) == {AssetRef(h(png), |png|)}
  {
  }

  lemma OneJobIsHeard(h: Digest, png: Bytes)
    requires WritesLowerHex(h) && Payload(png)
    ensures var m := OneJobManifest(h, png); AllHeard({Serialize(m)}, m.jobs)
  {
    var doc := Serialize(OneJobManifest(h, png));
    OneJobIsTaken(h, png);
    var read := Validate(doc, Some([])).value.jobs;
    assert doc in {doc} && read[0] == OneJob(h, png);
    assert HeardJob({doc}, read[0].id, AssetRef(read[0].sha, read[0].size));
  }

  /** The device once that manifest is taken, downloaded and switched to. */
  ghost function Synced(h: Digest, png: Bytes): Device {
    var m := OneJobManifest(h, png);
    Switched(Stocked(Answered(Serialize(m), m), h(png), png), m)
  }

  /** Downloading and switching, once the answer is taken. */
  function Fetching(h: Digest, png: Bytes, rest: seq<Move>): seq<Move> {
    var m := OneJobManifest(h, png);
    [Fetch(png), WritePart(h(png), png), StoreAsset(h(png), png)]
    + ([WriteTemp(Complete(Serialize(m))), Install(m), Adopt(m)] + rest)
  }

  function Sync(h: Digest, png: Bytes, rest: seq<Move>): seq<Move> {
    var m := OneJobManifest(h, png);
    [Hear(Serialize(m))] + ([Load(EMPTY_MANIFEST)] + ([Take(Serialize(m), m)] + Fetching(h, png, rest)))
  }

  lemma FetchedThen(h: Digest, universe: set<Bytes>, png: Bytes, rest: seq<Move>)
    requires WritesLowerHex(h) && Payload(png) && png in universe && CanMake(h, universe, Synced(h, png), rest)
    ensures var m := OneJobManifest(h, png);
      CanMake(h, universe, Answered(Serialize(m), m), Fetching(h, png, rest))
  {
    var m := OneJobManifest(h, png);
    var answered := Answered(Serialize(m), m);
    OneJobIsWellFormed(h, png);
    OneJobRefs(h, png);
    OneJobIsHeard(h, png);
    SwitchedThen(h, universe, Stocked(answered, h(png), png), m, rest);
    StockedThen(h, universe, answered, png, [WriteTemp(Complete(Serialize(m))), Install(m), Adopt(m)] + rest);
  }

  lemma SyncedThen(h: Digest, universe: set<Bytes>, png: Bytes, rest: seq<Move>)
    requires WritesLowerHex(h) && Payload(png) && png in universe && CanMake(h, universe, Synced(h, png), rest)
    ensures CanMake(h, universe, NEW_DEVICE, Sync(h, png, rest))
  {
    var m := OneJobManifest(h, png);
    OneJobIsWellFormed(h, png);
    OneJobIsTaken(h, png);
    FetchedThen(h, universe, png, rest);
    AnsweredThen(h, universe, Serialize(m), m, Fetching(h, png, rest));
  }

  /** For every digest function and payload, a new device can come to show a job twice. */
  lemma ShownTwiceFromNew(h: Digest, universe: set<Bytes>, png: Bytes)
    requires WritesLowerHex(h) && Payload(png) && png in universe
    ensures var m := OneJobManifest(h, png);
      CanMake(h, universe, NEW_DEVICE, Sync(h, png, ShowTwice(m.jobs, m, m.jobs[0], 1)))
  {
    var m, d := OneJobManifest(h, png), Synced(h, png);
    OneJobReadsBack(h, png);
    ShownTwice(h, universe, d, m, m.jobs[0], 1);
    SyncedThen(h, universe, png, ShowTwice(m.jobs, m, m.jobs[0], 1));
  }
}
