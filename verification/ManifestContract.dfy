/**
 * The contract between the two ends: which manifests of the gateway the device accepts, and what it
 * reads from them.
 */
module ManifestContract {
  import opened Wrappers
  import opened Bytes
  import opened Cards
  import opened JobTable
  import opened JobTableLaws
  import opened ManifestSelection
  import opened ManifestDoc
  import opened ManifestMarks
  import WakePolicy

  // ------------------------------------------------------------------ the document on the wire

  function AssetPath(sha: string): string {
    ASSET_PREFIX + sha + ".png"
  }

  function GatewayJobItem(job: ManifestJob): Json {
    Obj(map["id" := Str(job.id), "display_at" := Whole(job.displayAt), "expires_at" := Whole(job.expiresAt),
            "asset_path" := Str(AssetPath(job.sha)), "asset_sha256" := Str(job.sha),
            "asset_size" := Whole(job.size), "mime_type" := Str("image/png")])
  }

  function GatewayPageItem(page: ManifestPage): Json {
    Obj(map["index" := Whole(page.index), "name" := Str(page.name), "asset_path" := Str(AssetPath(page.sha)),
            "asset_sha256" := Str(page.sha), "asset_size" := Whole(page.size)])
  }

  function GatewayJobItems(jobs: seq<ManifestJob>): (r: seq<Json>)
    ensures |r| == |jobs|
  {
    seq(|jobs|, i requires 0 <= i < |jobs| => GatewayJobItem(jobs[i]))
  }

  function GatewayPageItems(pages: seq<ManifestPage>): (r: seq<Json>)
    ensures |r| == |pages|
  {
    seq(|pages|, i requires 0 <= i < |pages| => GatewayPageItem(pages[i]))
  }

  function GatewayDoc(m: GatewayManifest): Json {
    var base := map["protocol_version" := Whole(1), "server_time" := Whole(m.serverTime),
                    "manifest_version" := Whole(m.version), "next_sync_at" := Whole(m.nextSyncAt),
                    "jobs" := Arr(GatewayJobItems(m.jobs))];
    Obj(if m.pages == [] then base else base["pulse_pages" := Arr(GatewayPageItems(m.pages))])
  }

  // ------------------------------------------------------------------ what validated input leaves in the tables

  /** Inputs as the API lets them through: cards validated at their own time, bundles as the renderer numbers them. */
  predicate Admitted(op: Op) {
    match op
    case Create(card, _, id, now) => Validated(card, now) && now > 0 && 0 < |id| && Utf8Length(id) < 64
    case Activate(bundle, _) => forall i :: 0 <= i < |bundle.pages| ==> bundle.pages[i].index == i
    case _ => true
  }

  predicate GoodRow(row: JobRow) {
    && 0 < |row.id| && Utf8Length(row.id) < 64 && row.displayAt > 0
    && (row.expiresAt.Some? ==> row.expiresAt.value > row.displayAt)
  }

  ghost predicate GoodRows(jobs: seq<JobRow>) {
    forall i :: 0 <= i < |jobs| ==> GoodRow(jobs[i])
  }

  ghost predicate NumberedPages(generations: seq<Generation>) {
    forall i :: 0 <= i < |generations| ==>
      |generations[i].pages| == 3 && forall k :: 0 <= k < 3 ==> generations[i].pages[k].index == k
  }

  ghost predicate AdmittedStore(s: Store) {
    GoodRows(s.jobs) && NumberedPages(s.generations)
  }

  lemma GoodRowsStay(before: seq<JobRow>, after: seq<JobRow>)
    requires GoodRows(before) && |before| == |after| && RowsEvolve(before, after)
    ensures GoodRows(after)
  {
    forall i | 0 <= i < |after|
      ensures GoodRow(after[i])
    {
      assert RowEvolves(before[i], after[i]);
    }
  }

  lemma AdmittedCreate(h: Digest, s: Store, op: Op)
    requires StoreInv(h, s) && AdmittedStore(s) && Admitted(op) && op.Create?
    ensures AdmittedStore(Apply(h, s, op))
  {
    var (stored, asset) := PutAsset(h, s, op.png, op.now);
    PutAssetStep(h, s, op.png, op.now);
    if asset.Ok? && !HasJob(stored.jobs, op.id) {
      var kept := if op.card.displayAt.None? then SupersedePending(stored.jobs) else stored.jobs;
      assert RowsEvolve(s.jobs, kept);
      GoodRowsStay(s.jobs, kept);
      AcceptedTimes(op.card, op.now);
      assert GoodRow(NewJob(op.card, op.id, op.now, asset.value.sha));
      assert Apply(h, s, op).jobs == kept + [NewJob(op.card, op.id, op.now, asset.value.sha)];
    }
  }

  lemma AdmittedActivate(h: Digest, s: Store, op: Op)
    requires StoreInv(h, s) && AdmittedStore(s) && Admitted(op) && op.Activate?
    ensures AdmittedStore(Apply(h, s, op))
  {
    PutPagesStep(h, s, op.bundle.pages, op.now);
  }

  lemma AdmittedAck(h: Digest, s: Store, op: Op)
    requires StoreInv(h, s) && AdmittedStore(s) && op.Ack?
    ensures AdmittedStore(Apply(h, s, op))
  {
    var t := Apply(h, s, op);
    AckStep(h, s, op);
    if |t.jobs| == |s.jobs| { GoodRowsStay(s.jobs, t.jobs); }
  }

  lemma AdmittedStep(h: Digest, s: Store, op: Op)
    requires StoreInv(h, s) && AdmittedStore(s) && Admitted(op)
    ensures AdmittedStore(Apply(h, s, op))
  {
    match op
    case Register(_, _) =>
    case Create(_, _, _, _) => AdmittedCreate(h, s, op);
    case Build(_, now, _) =>
      ExpireStep(h, s, now);
      GoodRowsStay(s.jobs, ExpireJobs(s, now).jobs);
    case Ack(_, _, _, _, _) => AdmittedAck(h, s, op);
    case Activate(_, _) => AdmittedActivate(h, s, op);
  }

  ghost predicate IsAdmittedRun(h: Digest, states: seq<Store>, ops: seq<Op>) {
    IsRun(h, states, ops) && forall i :: 0 <= i < |ops| ==> Admitted(ops[i])
  }

  lemma {:induction false} AdmittedRun(h: Digest, states: seq<Store>, ops: seq<Op>, i: nat)
    requires IsAdmittedRun(h, states, ops) && i < |states|
    ensures StoreInv(h, states[i]) && AdmittedStore(states[i])
  {
    RunKeepsInvariant(h, states, ops, i);
    if i > 0 {
      AdmittedRun(h, states, ops, i - 1);
      AdmittedStep(h, states[i - 1], ops[i - 1]);
      assert states[i] == Apply(h, states[i - 1], ops[i - 1]);
    }
  }

  // ------------------------------------------------------------------ the manifests such tables give

  ghost predicate GoodManifestJob(job: ManifestJob) {
    && 0 < |job.id| && Utf8Length(job.id) < 64 && job.displayAt > 0
    && (job.expiresAt == 0 || job.expiresAt > job.displayAt)
    && IsHexSha256(job.sha) && LowerAscii(job.sha) == job.sha && job.size >= 1
  }

  ghost predicate GoodManifestPage(page: ManifestPage, index: nat)
    requires index < 3
  {
    && page.index == index && page.name == PAGE_NAMES[index]
    && IsHexSha256(page.sha) && LowerAscii(page.sha) == page.sha && page.size >= 1
  }

  /** A manifest as the gateway builds it, whatever its sizes add up to. */
  ghost predicate GatewayMade(m: GatewayManifest) {
    && m.nextSyncAt > m.serverTime
    && |m.jobs| <= MAX_MANIFEST_JOBS && AssetBytes(m.jobs) <= MAX_MANIFEST_ASSET_BYTES
    && (forall i :: 0 <= i < |m.jobs| ==> GoodManifestJob(m.jobs[i]))
    && (|m.pages| == 0 || |m.pages| == 3)
    && (forall i :: 0 <= i < |m.pages| ==> GoodManifestPage(m.pages[i], i))
  }

  lemma MadeJob(h: Digest, s: Store, row: JobRow)
    requires StoreInv(h, s) && WritesLowerHex(h) && row in s.jobs && GoodRow(row)
    ensures GoodManifestJob(ToManifestJob(s, row))
  {
    var i :| 0 <= i < |s.jobs| && s.jobs[i] == row;
    assert AssetIntact(h, s.assets, s.files, row.sha);
    assert h(s.files[row.sha]) == row.sha;
  }

  /** Every listed job stands for a pending row of the tables. */
  ghost predicate StandsForPending(s: Store, job: ManifestJob) {
    exists row :: row in s.jobs && row.status == Pending && row.sha in s.assets && job == ToManifestJob(s, row)
  }

  lemma FirstIsPending(s: Store)
    ensures forall i :: 0 <= i < |First(s)| ==> StandsForPending(s, First(s)[i])
  {
    if First(s) != [] {
      var row := PendingImmediate(s, s.jobs).value;
      assert First(s)[0] == ToManifestJob(s, row);
    }
  }

  lemma ScheduledArePending(s: Store, now: int)
    ensures forall i :: 0 <= i < |Scheduled(s, now)| ==> StandsForPending(s, Scheduled(s, now)[i])
  {
    var ordered := OrderRows(CandidateRows(s, s.jobs, now));
    forall i | 0 <= i < |ordered|
      ensures StandsForPending(s, Scheduled(s, now)[i])
    {
      assert ordered[i] in multiset(ordered);
      assert ordered[i] in CandidateRows(s, s.jobs, now);
      assert Scheduled(s, now)[i] == ToManifestJob(s, ordered[i]);
    }
  }

  lemma ListedArePending(s: Store, now: int, limit: nat)
    ensures forall i :: 0 <= i < |ManifestOf(s, now, limit).jobs| ==>
              StandsForPending(s, ManifestOf(s, now, limit).jobs[i])
  {
    var first, scheduled := First(s), Scheduled(s, now);
    var rows := ManifestOf(s, now, limit).jobs;
    FirstIsPending(s);
    ScheduledArePending(s, now);
    SelectionIsSubsequence(first, scheduled, limit);
    var positions := Taken(first, scheduled, limit);
    forall i | 0 <= i < |rows|
      ensures StandsForPending(s, rows[i])
    {
      if i >= |first| {
        assert rows[i] == rows[|first|..][i - |first|] == scheduled[positions[i - |first|]];
      }
    }
  }

  lemma MadePages(h: Digest, s: Store)
    requires StoreInv(h, s) && WritesLowerHex(h) && AdmittedStore(s)
    ensures var pages := ToManifestPages(s, ActivePages(s.generations));
            && (|pages| == 0 || |pages| == 3)
            && forall i :: 0 <= i < |pages| ==> GoodManifestPage(pages[i], i)
  {
    ActiveInOrder(s.assets, s.generations);
    var rows := ActivePages(s.generations);
    forall i | 0 <= i < |rows|
      ensures GoodManifestPage(ToManifestPages(s, rows)[i], i)
    {
      assert AssetIntact(h, s.assets, s.files, rows[i].sha);
      assert h(s.files[rows[i].sha]) == rows[i].sha;
    }
  }

  lemma {:induction false} ActiveInOrder(assets: map<string, AssetRow>, generations: seq<Generation>)
    requires GenerationsOk(assets, generations) && NumberedPages(generations)
    ensures var pages := ActivePages(generations);
            && (|pages| == 0 || |pages| == 3)
            && forall i :: 0 <= i < |pages| ==>
                 pages[i].index == i && pages[i].name == PAGE_NAMES[i] && pages[i].sha in assets
  {
    if generations != [] {
      var last := generations[|generations| - 1];
      if last.active {
        assert GenerationOk(assets, last);
        var pages := last.pages;
        assert pages == [pages[0], pages[1], pages[2]];
        assert FindPage(pages, 0) == [pages[0]];
        assert pages[1..][0] == pages[1] && FindPage(pages, 1) == FindPage(pages[1..], 1) == [pages[1]];
        assert pages[1..][1..] == [pages[2]] && FindPage(pages[1..], 2) == FindPage(pages[1..][1..], 2);
        assert FindPage(pages, 2) == [pages[2]];
        assert PagesInOrder(pages) == pages;
      } else {
        ActiveInOrder(assets, generations[..|generations| - 1]);
      }
    }
  }

  lemma BuiltIsGatewayMade(h: Digest, s: Store, device: string, now: int, limit: int)
    requires StoreInv(h, s) && WritesLowerHex(h) && AdmittedStore(s)
    requires BuildManifest(s, device, now, limit).1.Ok?
    ensures GatewayMade(BuildManifest(s, device, now, limit).1.value)
  {
    var t := ExpireJobs(s, now);
    ExpireStep(h, s, now);
    GoodRowsStay(s.jobs, t.jobs);
    GreedySelection(h, t, now, limit);
    ListedArePending(t, now, limit);
    MadePages(h, t);
    NextSyncIsNextGridPoint(now, DEFAULT_POLL_INTERVAL_SECONDS, 0);
    var rows := ManifestOf(t, now, limit).jobs;
    forall i | 0 <= i < |rows|
      ensures GoodManifestJob(rows[i])
    {
      assert StandsForPending(t, rows[i]);
      var row :| row in t.jobs && row.status == Pending && row.sha in t.assets && rows[i] == ToManifestJob(t, row);
      MadeJob(h, t, row);
    }
  }

  // ------------------------------------------------------------------ what the device makes of them

  function DeviceJob(job: ManifestJob, previous: Option<seq<Job>>): Job {
    Job(job.id, AssetPath(job.sha), job.sha, job.size, job.displayAt, job.expiresAt,
        previous.Some? && FirstFlag(previous.value, job.id))
  }

  function DeviceJobs(jobs: seq<ManifestJob>, previous: Option<seq<Job>>): (r: seq<Job>)
    ensures |r| == |jobs|
  {
    seq(|jobs|, i requires 0 <= i < |jobs| => DeviceJob(jobs[i], previous))
  }

  function DevicePages(pages: seq<ManifestPage>): (r: seq<Page>)
    ensures |r| == |pages|
  {
    seq(|pages|, i requires 0 <= i < |pages| =>
      Page(i, pages[i].name, AssetPath(pages[i].sha), pages[i].sha, pages[i].size))
  }

  function ManifestPageBytes(pages: seq<ManifestPage>): nat {
    if pages == [] then 0 else ManifestPageBytes(pages[..|pages| - 1]) + pages[|pages| - 1].size
  }

  /** What the device's limits ask of a manifest beyond what the gateway itself enforces. */
  ghost predicate WithinDeviceLimits(m: GatewayManifest) {
    && m.serverTime >= WakePolicy.MIN_VALID_EPOCH
    && JobsWithinLimit(m.jobs)
    && PagesWithinLimit(m.pages)
    && AssetBytes(m.jobs) + ManifestPageBytes(m.pages) <= MAX_CACHE_MANIFEST_BYTES
  }

  lemma AssetPathIsValid(sha: string)
    requires IsHexSha256(sha)
    ensures ValidPath(AssetPath(sha))
  {
    var path := AssetPath(sha);
    assert path == ASSET_PREFIX + (sha + ".png");
    forall i | 0 <= i < |path| && i != 82
      ensures path[i] != '.'
    {
      if i < 18 {
        assert path[i] == ASSET_PREFIX[i];
      } else if i < 82 {
        assert path[i] == sha[i - 18] && IsHexDigit(sha[i - 18]);
      } else {
        assert path[i] == ".png"[i - 82];
      }
    }
    AssetPathIsAscii(sha);
    AsciiLength(path);
  }

  lemma AssetPathIsAscii(sha: string)
    requires IsHexSha256(sha)
    ensures |AssetPath(sha)| == 86 && forall i :: 0 <= i < 86 ==> (AssetPath(sha)[i] as int) < 0x80
  {
    var path := AssetPath(sha);
    forall i | 0 <= i < |path|
      ensures (path[i] as int) < 0x80
    {
      if 18 <= i < 82 { assert path[i] == sha[i - 18] && IsHexDigit(sha[i - 18]); }
    }
  }

  lemma ReadJob(job: ManifestJob, previous: Option<seq<Job>>)
    requires GoodManifestJob(job)
    ensures ParseJob(GatewayJobItem(job), previous) ==
            if job.size <= MAX_ASSET_BYTES then Some(DeviceJob(job, previous)) else None
  {
    AssetPathIsValid(job.sha);
    TruncateWhole(job.size);
    TruncateWhole(job.displayAt);
    TruncateWhole(job.expiresAt);
  }

  lemma {:induction false} DeviceJobBytes(jobs: seq<ManifestJob>, previous: Option<seq<Job>>)
    ensures JobBytes(DeviceJobs(jobs, previous)) == AssetBytes(jobs)
  {
    if jobs != [] {
      var last := |jobs| - 1;
      assert DeviceJobs(jobs, previous)[..last] == DeviceJobs(jobs[..last], previous);
      DeviceJobBytes(jobs[..last], previous);
    }
  }

  ghost predicate JobsWithinLimit(jobs: seq<ManifestJob>) {
    forall i :: 0 <= i < |jobs| ==> jobs[i].size <= MAX_ASSET_BYTES
  }

  lemma {:induction false} ReadJobList(jobs: seq<ManifestJob>, previous: Option<seq<Job>>)
    requires forall i :: 0 <= i < |jobs| ==> GoodManifestJob(jobs[i])
    requires AssetBytes(jobs) <= MAX_CACHE_MANIFEST_BYTES
    ensures ParseJobs(GatewayJobItems(jobs), previous) ==
            if JobsWithinLimit(jobs) then Some(DeviceJobs(jobs, previous)) else None
  {
    if jobs != [] {
      var last := |jobs| - 1;
      var front := if JobsWithinLimit(jobs[..last]) then Some(DeviceJobs(jobs[..last], previous)) else None;
      var job := if jobs[last].size <= MAX_ASSET_BYTES then Some(DeviceJob(jobs[last], previous)) else None;
      SplitJobLists(jobs, previous);
      assert ParseJobs(GatewayJobItems(jobs)[..last], previous) == front by { ReadJobList(jobs[..last], previous); }
      assert ParseJob(GatewayJobItems(jobs)[last], previous) == job by { ReadJob(jobs[last], previous); }
      ParseJobsStep(GatewayJobItems(jobs), previous, front, job);
      DeviceJobBytes(jobs[..last], previous);
    }
  }

  lemma SplitJobLists(jobs: seq<ManifestJob>, previous: Option<seq<Job>>)
    requires jobs != []
    ensures GatewayJobItems(jobs)[..|jobs| - 1] == GatewayJobItems(jobs[..|jobs| - 1])
    ensures DeviceJobs(jobs, previous) ==
            DeviceJobs(jobs[..|jobs| - 1], previous) + [DeviceJob(jobs[|jobs| - 1], previous)]
    ensures JobsWithinLimit(jobs) <==>
            JobsWithinLimit(jobs[..|jobs| - 1]) && jobs[|jobs| - 1].size <= MAX_ASSET_BYTES
  {
    var front := jobs[..|jobs| - 1];
    assert jobs == front + [jobs[|jobs| - 1]];
    assert forall i :: 0 <= i < |front| ==> front[i] == jobs[i];
  }

  lemma ReadPage(page: ManifestPage, index: nat)
    requires index < 3 && GoodManifestPage(page, index)
    ensures ParsePage(GatewayPageItem(page), index) ==
            if page.size <= MAX_ASSET_BYTES
            then Some(Page(index, page.name, AssetPath(page.sha), page.sha, page.size)) else None
  {
    AssetPathIsValid(page.sha);
    TruncateWhole(page.size);
    TruncateWhole(page.index);
  }

  ghost predicate PagesWithinLimit(pages: seq<ManifestPage>) {
    forall i :: 0 <= i < |pages| ==> pages[i].size <= MAX_ASSET_BYTES
  }

  lemma SplitPageLists(pages: seq<ManifestPage>)
    requires pages != []
    ensures GatewayPageItems(pages)[..|pages| - 1] == GatewayPageItems(pages[..|pages| - 1])
    ensures DevicePages(pages)[..|pages| - 1] == DevicePages(pages[..|pages| - 1])
    ensures DevicePages(pages) == DevicePages(pages[..|pages| - 1]) + [DevicePages(pages)[|pages| - 1]]
    ensures PagesWithinLimit(pages) <==>
            PagesWithinLimit(pages[..|pages| - 1]) && pages[|pages| - 1].size <= MAX_ASSET_BYTES
  {
    var front := pages[..|pages| - 1];
    assert forall i :: 0 <= i < |front| ==> front[i] == pages[i];
  }

  lemma {:induction false} DevicePageBytes(pages: seq<ManifestPage>)
    ensures PageBytes(DevicePages(pages)) == ManifestPageBytes(pages)
  {
    if pages != [] {
      SplitPageLists(pages);
      DevicePageBytes(pages[..|pages| - 1]);
    }
  }

  lemma {:induction false} ReadPageList(pages: seq<ManifestPage>, jobBytes: nat)
    requires |pages| <= 3 && forall i :: 0 <= i < |pages| ==> GoodManifestPage(pages[i], i)
    requires jobBytes <= MAX_CACHE_MANIFEST_BYTES
    ensures ParsePages(GatewayPageItems(pages), jobBytes) ==
            if PagesWithinLimit(pages) && jobBytes + ManifestPageBytes(pages) <= MAX_CACHE_MANIFEST_BYTES
            then Some(DevicePages(pages)) else None
  {
    if pages != [] {
      var last := |pages| - 1;
      var taken :=
        PagesWithinLimit(pages[..last]) && jobBytes + ManifestPageBytes(pages[..last]) <= MAX_CACHE_MANIFEST_BYTES;
      var front := if taken then Some(DevicePages(pages[..last])) else None;
      var page := if pages[last].size <= MAX_ASSET_BYTES then Some(DevicePages(pages)[last]) else None;
      SplitPageLists(pages);
      assert ParsePages(GatewayPageItems(pages)[..last], jobBytes) == front by {
        ReadPageList(pages[..last], jobBytes);
      }
      assert ParsePage(GatewayPageItems(pages)[last], last) == page by { ReadPage(pages[last], last); }
      ParsePagesStep(GatewayPageItems(pages), jobBytes, front, page);
      DevicePageBytes(pages[..last]);
    }
  }

  lemma GatewayHeader(m: GatewayManifest)
    requires m.nextSyncAt > m.serverTime
    ensures ValidHeader(GatewayDoc(m)) <==> m.serverTime >= WakePolicy.MIN_VALID_EPOCH
    ensures Truncate(Get(GatewayDoc(m), "server_time").value.number) == m.serverTime
    ensures Truncate(Get(GatewayDoc(m), "next_sync_at").value.number) == m.nextSyncAt
    ensures Truncate(Get(GatewayDoc(m), "manifest_version").value.number) == m.version
    ensures Get(GatewayDoc(m), "jobs") == Some(Arr(GatewayJobItems(m.jobs)))
    ensures Get(GatewayDoc(m), "pulse_pages") == if m.pages == [] then None else Some(Arr(GatewayPageItems(m.pages)))
  {
    TruncateWhole(1);
    TruncateWhole(m.serverTime);
    TruncateWhole(m.nextSyncAt);
    TruncateWhole(m.version);
  }

  /** What the device reads from a gateway manifest: exactly its jobs and pages, or nothing. */
  lemma GatewayDocReads(m: GatewayManifest, previous: Option<seq<Job>>)
    requires GatewayMade(m)
    ensures Validate(GatewayDoc(m), previous) ==
            if WithinDeviceLimits(m)
            then Some(Manifest(m.serverTime, m.nextSyncAt, m.version,
                               DeviceJobs(m.jobs, previous), DevicePages(m.pages)))
            else None
  {
    GatewayHeader(m);
    ReadJobList(m.jobs, previous);
    DeviceJobBytes(m.jobs, previous);
    ReadPageList(m.pages, AssetBytes(m.jobs));
    DevicePageBytes(m.pages);
  }

  /** A gateway manifest the device accepts names no empty asset. */
  lemma AcceptedIsPlain(m: GatewayManifest, previous: Option<seq<Job>>)
    requires GatewayMade(m) && Validate(GatewayDoc(m), previous).Some?
    ensures NoEmptyAsset(Validate(GatewayDoc(m), previous).value)
  {
    GatewayDocReads(m, previous);
    PlainLists(m, previous);
  }

  lemma PlainLists(m: GatewayManifest, previous: Option<seq<Job>>)
    requires GatewayMade(m)
    ensures forall job :: job in DeviceJobs(m.jobs, previous) ==> job.size >= 1
    ensures forall page :: page in DevicePages(m.pages) ==> page.size >= 1
  {
    forall job | job in DeviceJobs(m.jobs, previous)
      ensures job.size >= 1
    {
      var i :| 0 <= i < |m.jobs| && DeviceJobs(m.jobs, previous)[i] == job;
      assert GoodManifestJob(m.jobs[i]);
    }
    forall page | page in DevicePages(m.pages)
      ensures page.size >= 1
    {
      var i :| 0 <= i < |m.pages| && DevicePages(m.pages)[i] == page;
      assert GoodManifestPage(m.pages[i], i);
    }
  }

  /** No listed job is already expired at the server's time. */
  lemma ListedAreLive(h: Digest, s: Store, device: string, now: int, limit: int, k: nat)
    requires StoreInv(h, s) && BuildManifest(s, device, now, limit).1.Ok?
    requires k < |BuildManifest(s, device, now, limit).1.value.jobs|
    ensures var job := BuildManifest(s, device, now, limit).1.value.jobs[k];
            !(job.expiresAt > 0 && job.expiresAt <= now)
  {
    var t := ExpireJobs(s, now);
    var job := BuildManifest(s, device, now, limit).1.value.jobs[k];
    ExpireStep(h, s, now);
    assert StandsForPending(t, job) by { ListedArePending(t, now, limit); }
    var row :| row in t.jobs && row.status == Pending && row.sha in t.assets && job == ToManifestJob(t, row);
    var r :| 0 <= r < |t.jobs| && t.jobs[r] == row;
    assert !Lapsed(t.jobs[r], now);
  }

  /** No job is listed twice, and none is expired at the server's time. */
  ghost predicate ListsOnceAlive(m: GatewayManifest) {
    && UniqueManifestIds(m.jobs)
    && forall k :: 0 <= k < |m.jobs| ==> !(m.jobs[k].expiresAt > 0 && m.jobs[k].expiresAt <= m.serverTime)
  }

  lemma BuiltListsOnceAlive(h: Digest, s: Store, device: string, now: int, limit: int)
    requires StoreInv(h, s) && BuildManifest(s, device, now, limit).1.Ok?
    ensures ListsOnceAlive(BuildManifest(s, device, now, limit).1.value)
  {
    var m := BuildManifest(s, device, now, limit).1.value;
    assert UniqueManifestIds(m.jobs) by {
      ExpireStep(h, s, now);
      SelectionIsUnique(ExpireJobs(s, now), now, limit);
    }
    forall k | 0 <= k < |m.jobs|
      ensures !(m.jobs[k].expiresAt > 0 && m.jobs[k].expiresAt <= m.serverTime)
    {
      ListedAreLive(h, s, device, now, limit, k);
    }
  }

  lemma ParsedIsListed(m: GatewayManifest, previous: seq<Job>, parsed: Manifest)
    requires GatewayMade(m) && Parses(GatewayDoc(m), Some(previous), parsed)
    ensures parsed.serverTime == m.serverTime
    ensures multiset(parsed.jobs) == multiset(DeviceJobs(m.jobs, Some(previous)))
  {
    GatewayDocReads(m, Some(previous));
  }

  lemma DeviceJobsOnceAlive(m: GatewayManifest, previous: seq<Job>, jobs: seq<Job>)
    requires ListsOnceAlive(m) && multiset(jobs) == multiset(DeviceJobs(m.jobs, Some(previous)))
    ensures UniqueJobIds(jobs)
    ensures forall i :: 0 <= i < |jobs| ==> !(jobs[i].expiresAt > 0 && jobs[i].expiresAt <= m.serverTime)
  {
    var read := DeviceJobs(m.jobs, Some(previous));
    forall i, j | 0 <= i < j < |read|
      ensures read[i].id != read[j].id
    {
      assert m.jobs[i].id != m.jobs[j].id;
    }
    UniquePermuted(read, jobs);
    forall i | 0 <= i < |jobs|
      ensures !(jobs[i].expiresAt > 0 && jobs[i].expiresAt <= m.serverTime)
    {
      assert jobs[i] in multiset(read);
      var k :| 0 <= k < |read| && read[k] == jobs[i];
      assert read[k].expiresAt == m.jobs[k].expiresAt;
    }
  }

  /** What the device takes from such a manifest: every listed job, each once, in some order. */
  lemma TakenIsAllListed(m: GatewayManifest, previous: seq<Job>, taken: Manifest)
    requires GatewayMade(m) && ListsOnceAlive(m) && TookManifest(GatewayDoc(m), previous, taken)
    ensures multiset(taken.jobs) == multiset(DeviceJobs(m.jobs, Some(previous))) && UniqueJobIds(taken.jobs)
  {
    var parsed :| Parses(GatewayDoc(m), Some(previous), parsed) && taken == LiveManifest(parsed);
    ParsedIsListed(m, previous, parsed);
    DeviceJobsOnceAlive(m, previous, parsed.jobs);
    AllLive(parsed.jobs, parsed.serverTime);
  }

  /**
   * Each listed job is taken with the listing's own times and asset, from that asset's path, and marked exactly
   * when the first job held with its id was; and no other job is taken.
   */
  lemma TakenAsListed(m: GatewayManifest, previous: seq<Job>, taken: Manifest, k: nat)
    requires GatewayMade(m) && ListsOnceAlive(m) && TookManifest(GatewayDoc(m), previous, taken) && k < |m.jobs|
    ensures |taken.jobs| == |m.jobs|
    ensures exists i ::
      && 0 <= i < |taken.jobs| && taken.jobs[i].id == m.jobs[k].id && taken.jobs[i].displayAt == m.jobs[k].displayAt
      && taken.jobs[i].expiresAt == m.jobs[k].expiresAt && taken.jobs[i].sha == m.jobs[k].sha
      && taken.jobs[i].size == m.jobs[k].size
      && taken.jobs[i].path == "/device/v1/assets/" + m.jobs[k].sha + ".png"
      && (taken.jobs[i].displayed <==> FirstIsMarked(previous, m.jobs[k].id))
  {
    TakenIsAllListed(m, previous, taken);
    var listed := DeviceJobs(m.jobs, Some(previous));
    assert |multiset(taken.jobs)| == |multiset(listed)|;
    assert listed[k] in multiset(listed);
    assert listed[k] in taken.jobs;
    var i :| 0 <= i < |taken.jobs| && taken.jobs[i] == listed[k];
    TakenFlag(GatewayDoc(m), previous, taken, i);
  }

  /**
   * The manifest contract, over every run fed by admitted inputs: a built manifest is accepted by the
   * device exactly when its clock is valid and it is within the device's byte limits, the device then
   * reads exactly the listed jobs and pages, and none of them is already expired at the server's time.
   */
  lemma Contract(h: Digest, states: seq<Store>, ops: seq<Op>, i: nat, previous: Option<seq<Job>>)
    requires IsAdmittedRun(h, states, ops) && WritesLowerHex(h)
    requires i < |ops| && ops[i].Build?
    requires BuildManifest(states[i], ops[i].device, ops[i].now, ops[i].limit).1.Ok?
    ensures var m := BuildManifest(states[i], ops[i].device, ops[i].now, ops[i].limit).1.value;
            && (Validate(GatewayDoc(m), previous).Some? <==> WithinDeviceLimits(m))
            && (WithinDeviceLimits(m) ==>
                  Validate(GatewayDoc(m), previous).value.jobs == DeviceJobs(m.jobs, previous)
                  && Validate(GatewayDoc(m), previous).value.pages == DevicePages(m.pages))
            && forall k :: 0 <= k < |m.jobs| ==> !(m.jobs[k].expiresAt > 0 && m.jobs[k].expiresAt <= m.serverTime)
  {
    AdmittedRun(h, states, ops, i);
    var s, op := states[i], ops[i];
    var m := BuildManifest(s, op.device, op.now, op.limit).1.value;
    assert GatewayMade(m) by { BuiltIsGatewayMade(h, s, op.device, op.now, op.limit); }
    GatewayDocReads(m, previous);
    forall k | 0 <= k < |m.jobs|
      ensures !(m.jobs[k].expiresAt > 0 && m.jobs[k].expiresAt <= m.serverTime)
    {
      ListedAreLive(h, s, op.device, op.now, op.limit, k);
    }
  }
}
