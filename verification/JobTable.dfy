/**
 * The gateway's tables as values, and what each transaction makes of them.
 *
 * The functions here are the specification that the `JobStore` class is proved against; the lemmas
 * about whole runs are stated over them.
 */
module JobTable {
  import opened Wrappers
  import opened Bytes
  import opened Cards
  import opened Characters

  const MANIFEST_HORIZON_SECONDS := 24 * 60 * 60
  const MAX_MANIFEST_JOBS := 16
  const MAX_MANIFEST_ASSET_BYTES := 4 * 1024 * 1024
  const MAX_ACK_MESSAGE_CHARACTERS := 240
  const PNG_SIGNATURE: Bytes := [0x89, 0x50, 0x4E, 0x47, 0x0D, 0x0A, 0x1A, 0x0A]
  const PAGE_NAMES := ["01-now", "02-work", "03-ideas"]

  datatype Status = Pending | Superseded | Displayed | Failed | Expired {
    predicate Acked() { Displayed? || Failed? }
    predicate Final() { Displayed? || Failed? || Expired? }
  }

  datatype JobRow = JobRow(
    id: string, title: string, body: string, style: string,
    createdAt: int, displayAt: int, expiresAt: Option<int>,
    immediate: bool, guaranteed: bool, status: Status, sha: string)

  datatype AssetRow = AssetRow(size: nat, createdAt: int)
  datatype AckRow = AckRow(device: string, job: string, state: Status, message: string, at: int)
  datatype PageRow = PageRow(index: int, name: string, sha: string)
  datatype Generation = Generation(generatedAt: int, active: bool, pages: seq<PageRow>)

  datatype Store = Store(
    version: nat, devices: set<string>, assets: map<string, AssetRow>, files: map<string, Bytes>,
    jobs: seq<JobRow>, acks: seq<AckRow>, generations: seq<Generation>)

  const EMPTY_STORE := Store(0, {}, map[], map[], [], [], [])

  datatype StoreError = Validation | NotFound | InvalidTransition | Integrity

  datatype AssetRecord = AssetRecord(sha: string, size: nat)
  datatype AckResult = AckResult(created: bool, state: Status)

  datatype BundlePage = BundlePage(index: int, name: string, png: Bytes)
  datatype PulseBundle = PulseBundle(generatedAt: int, pages: seq<BundlePage>)

  // ------------------------------------------------------------------ assets

  function PutAsset(h: Digest, s: Store, png: Bytes, now: int): (Store, Result<AssetRecord, StoreError>) {
    if !(PNG_SIGNATURE <= png) || |png| > MAX_MANIFEST_ASSET_BYTES then (s, Err(Validation))
    else
      var digest := h(png);
      if digest in s.files && (|s.files[digest]| != |png| || h(s.files[digest]) != digest) then (s, Err(Integrity))
      else
        var filed := if digest in s.files then s else s.(files := s.files[digest := png]);
        if digest in s.assets && s.assets[digest].size != |png| then (filed, Err(Integrity))
        else
          var rows := if digest in s.assets then s.assets else s.assets[digest := AssetRow(|png|, now)];
          (filed.(assets := rows), Ok(AssetRecord(digest, |png|)))
  }

  // ------------------------------------------------------------------ jobs

  function SupersedeRow(row: JobRow): JobRow {
    if row.immediate && row.status == Pending then row.(status := Superseded) else row
  }

  function SupersedePending(jobs: seq<JobRow>): (r: seq<JobRow>)
    ensures |r| == |jobs|
  {
    seq(|jobs|, i requires 0 <= i < |jobs| => SupersedeRow(jobs[i]))
  }

  predicate HasJob(jobs: seq<JobRow>, id: string) {
    exists i :: 0 <= i < |jobs| && jobs[i].id == id
  }

  function FindJob(jobs: seq<JobRow>, id: string): (r: Option<JobRow>)
    ensures r.Some? <==> HasJob(jobs, id)
    ensures r.Some? ==> exists i :: 0 <= i < |jobs| && jobs[i] == r.value && r.value.id == id
  {
    if jobs == [] then None
    else if jobs[0].id == id then Some(jobs[0])
    else
      var rest := FindJob(jobs[1..], id);
      assert HasJob(jobs, id) ==> HasJob(jobs[1..], id) by {
        if HasJob(jobs, id) {
          var i :| 0 <= i < |jobs| && jobs[i].id == id;
          assert jobs[1..][i - 1].id == id;
        }
      }
      rest
  }

  function NewJob(card: CardRequest, id: string, now: int, sha: string): JobRow {
    JobRow(id, card.title, card.body, card.style, now, EffectiveDisplayAt(card, now), card.expiresAt,
           card.displayAt.None?, IsExactDeliveryGuaranteed(card.displayAt, now), Pending, sha)
  }

  function CreateJob(h: Digest, s: Store, card: CardRequest, png: Bytes, id: string, now: int)
    : (Store, Result<JobRow, StoreError>)
  {
    var (stored, asset) := PutAsset(h, s, png, now);
    if asset.Err? then (stored, Err(asset.error))
    else if HasJob(stored.jobs, id) then (stored, Err(Integrity))
    else
      var kept := if card.displayAt.None? then SupersedePending(stored.jobs) else stored.jobs;
      var job := NewJob(card, id, now, asset.value.sha);
      (stored.(jobs := kept + [job], version := stored.version + 1), Ok(job))
  }

  predicate Lapsed(row: JobRow, now: int) {
    row.status == Pending && row.expiresAt.Some? && row.expiresAt.value <= now
  }

  function ExpireRows(jobs: seq<JobRow>, now: int): (r: seq<JobRow>)
    ensures |r| == |jobs|
  {
    seq(|jobs|, i requires 0 <= i < |jobs| =>
      if Lapsed(jobs[i], now) then jobs[i].(status := Expired) else jobs[i])
  }

  function ExpireJobs(s: Store, now: int): Store {
    if exists i :: 0 <= i < |s.jobs| && Lapsed(s.jobs[i], now)
    then s.(jobs := ExpireRows(s.jobs, now), version := s.version + 1)
    else s
  }

  // ------------------------------------------------------------------ acknowledgements

  predicate ValidMessage(message: string) {
    && |message| <= MAX_ACK_MESSAGE_CHARACTERS
    && forall i :: 0 <= i < |message| ==> !IsForbiddenControl(message[i])
  }

  function SetStatus(jobs: seq<JobRow>, id: string, status: Status): (r: seq<JobRow>)
    ensures |r| == |jobs|
  {
    seq(|jobs|, i requires 0 <= i < |jobs| => if jobs[i].id == id then jobs[i].(status := status) else jobs[i])
  }

  predicate HasAck(acks: seq<AckRow>, device: string, job: string, state: Status) {
    exists i :: 0 <= i < |acks| && acks[i].device == device && acks[i].job == job && acks[i].state == state
  }

  function Acknowledge(s: Store, device: string, job: string, state: Status, message: string, now: int)
    : (Store, Result<AckResult, StoreError>)
  {
    if !state.Acked() || !ValidMessage(message) then (s, Err(Validation))
    else if device !in s.devices || !HasJob(s.jobs, job) then (s, Err(NotFound))
    else if HasAck(s.acks, device, job, state) then (s, Ok(AckResult(false, state)))
    else if FindJob(s.jobs, job).value.status.Final() then (s, Err(InvalidTransition))
    else
      (s.(acks := s.acks + [AckRow(device, job, state, message, now)],
          jobs := SetStatus(s.jobs, job, state),
          version := s.version + 1),
       Ok(AckResult(true, state)))
  }

  // ------------------------------------------------------------------ pulse generations

  function PutPages(h: Digest, s: Store, pages: seq<BundlePage>, now: int)
    : (Store, Result<seq<AssetRecord>, StoreError>)
  {
    if pages == [] then (s, Ok([]))
    else
      var last := |pages| - 1;
      var (before, records) := PutPages(h, s, pages[..last], now);
      if records.Err? then (before, records)
      else
        var (after, record) := PutAsset(h, before, pages[last].png, now);
        if record.Err? then (after, Err(record.error)) else (after, Ok(records.value + [record.value]))
  }

  function TotalSize(records: seq<AssetRecord>): nat {
    if records == [] then 0 else TotalSize(records[..|records| - 1]) + records[|records| - 1].size
  }

  function Deactivated(generations: seq<Generation>): (r: seq<Generation>)
    ensures |r| == |generations|
  {
    seq(|generations|, i requires 0 <= i < |generations| => generations[i].(active := false))
  }

  function PageRows(pages: seq<BundlePage>, records: seq<AssetRecord>): (r: seq<PageRow>)
    requires |pages| == |records|
    ensures |r| == |pages|
  {
    seq(|pages|, i requires 0 <= i < |pages| => PageRow(pages[i].index, pages[i].name, records[i].sha))
  }

  predicate ExpectedNames(pages: seq<BundlePage>) {
    |pages| == 3 && forall i :: 0 <= i < 3 ==> pages[i].name == PAGE_NAMES[i]
  }

  /** The page-index constraints of the table: between 0 and 2, and no two alike. */
  predicate AllowedIndexes(pages: seq<BundlePage>) {
    && (forall i :: 0 <= i < |pages| ==> 0 <= pages[i].index <= 2)
    && (forall i, j :: 0 <= i < j < |pages| ==> pages[i].index != pages[j].index)
  }

  lemma {:induction false} PutPagesCount(h: Digest, s: Store, pages: seq<BundlePage>, now: int)
    ensures PutPages(h, s, pages, now).1.Ok? ==> |PutPages(h, s, pages, now).1.value| == |pages|
  {
    if pages != [] { PutPagesCount(h, s, pages[..|pages| - 1], now); }
  }

  function ActivatePulse(h: Digest, s: Store, bundle: PulseBundle, now: int): (Store, Result<nat, StoreError>) {
    if !ExpectedNames(bundle.pages) then (s, Err(Validation))
    else
      var (stored, records) := PutPages(h, s, bundle.pages, now);
      if records.Err? then (stored, Err(records.error))
      else if TotalSize(records.value) > MAX_MANIFEST_ASSET_BYTES then (stored, Err(Validation))
      else if !AllowedIndexes(bundle.pages) then (stored, Err(Integrity))
      else
        PutPagesCount(h, s, bundle.pages, now);
        var generation := Generation(bundle.generatedAt, true, PageRows(bundle.pages, records.value));
        (stored.(generations := Deactivated(stored.generations) + [generation], version := stored.version + 1),
         Ok(|stored.generations| + 1))
  }

  // ------------------------------------------------------------------ the manifest

  datatype ManifestJob = ManifestJob(id: string, displayAt: int, expiresAt: int, sha: string, size: nat)
  datatype ManifestPage = ManifestPage(index: int, name: string, sha: string, size: nat)
  datatype GatewayManifest = GatewayManifest(
    serverTime: int, version: nat, nextSyncAt: int, jobs: seq<ManifestJob>, pages: seq<ManifestPage>)

  /** SQLite's order on text: the first differing character decides, a proper prefix comes first. */
  predicate TextLeq(a: string, b: string) {
    a == [] || (b != [] && (a[0] < b[0] || (a[0] == b[0] && TextLeq(a[1..], b[1..]))))
  }

  /** ORDER BY display_at, created_at, id. */
  predicate RowLeq(a: JobRow, b: JobRow) {
    || a.displayAt < b.displayAt
    || (a.displayAt == b.displayAt
        && (a.createdAt < b.createdAt || (a.createdAt == b.createdAt && TextLeq(a.id, b.id))))
  }

  function InsertRow(row: JobRow, rows: seq<JobRow>): (r: seq<JobRow>)
    ensures multiset(r) == multiset(rows) + multiset{row}
  {
    if rows == [] then [row]
    else if RowLeq(row, rows[0]) then [row] + rows
    else
      assert rows == [rows[0]] + rows[1..];
      [rows[0]] + InsertRow(row, rows[1..])
  }

  function OrderRows(rows: seq<JobRow>): (r: seq<JobRow>)
    ensures multiset(r) == multiset(rows)
  {
    if rows == [] then []
    else
      assert rows == rows[..|rows| - 1] + [rows[|rows| - 1]];
      InsertRow(rows[|rows| - 1], OrderRows(rows[..|rows| - 1]))
  }

  predicate IsCandidate(s: Store, row: JobRow, now: int) {
    && row.status == Pending && !row.immediate
    && row.displayAt <= now + MANIFEST_HORIZON_SECONDS
    && row.sha in s.assets
  }

  function CandidateRows(s: Store, jobs: seq<JobRow>, now: int): (r: seq<JobRow>)
    ensures forall i :: 0 <= i < |r| ==> r[i] in jobs && IsCandidate(s, r[i], now)
  {
    if jobs == [] then []
    else
      var last := jobs[|jobs| - 1];
      var rest := CandidateRows(s, jobs[..|jobs| - 1], now);
      if IsCandidate(s, last, now) then rest + [last] else rest
  }

  predicate IsImmediate(s: Store, row: JobRow) {
    row.status == Pending && row.immediate && row.sha in s.assets
  }

  /** ORDER BY created_at DESC, id DESC LIMIT 1. */
  function PendingImmediate(s: Store, jobs: seq<JobRow>): (r: Option<JobRow>)
    ensures r.Some? ==> r.value in jobs && IsImmediate(s, r.value)
    ensures r.None? ==> forall i :: 0 <= i < |jobs| ==> !IsImmediate(s, jobs[i])
  {
    if jobs == [] then None
    else
      var last := jobs[|jobs| - 1];
      var best := PendingImmediate(s, jobs[..|jobs| - 1]);
      if !IsImmediate(s, last) then best
      else if best.Some? && (best.value.createdAt > last.createdAt
                             || (best.value.createdAt == last.createdAt && TextLeq(last.id, best.value.id)))
      then best
      else Some(last)
  }

  function ToManifestJob(s: Store, row: JobRow): ManifestJob {
    ManifestJob(row.id, row.displayAt, if row.expiresAt.Some? then row.expiresAt.value else 0, row.sha,
                if row.sha in s.assets then s.assets[row.sha].size else 0)
  }

  function ToManifestJobs(s: Store, rows: seq<JobRow>): (r: seq<ManifestJob>)
    ensures |r| == |rows|
  {
    seq(|rows|, i requires 0 <= i < |rows| => ToManifestJob(s, rows[i]))
  }

  /** The scheduled jobs a manifest may list, in the order the query yields them. */
  function Scheduled(s: Store, now: int): seq<ManifestJob> {
    ToManifestJobs(s, OrderRows(CandidateRows(s, s.jobs, now)))
  }

  function First(s: Store): (r: seq<ManifestJob>)
    ensures |r| <= 1
  {
    var row := PendingImmediate(s, s.jobs);
    if row.Some? then [ToManifestJob(s, row.value)] else []
  }

  function AssetBytes(jobs: seq<ManifestJob>): nat {
    if jobs == [] then 0 else AssetBytes(jobs[..|jobs| - 1]) + jobs[|jobs| - 1].size
  }

  /** A candidate is taken when there is room for it in both count and bytes. */
  predicate Fits(taken: seq<ManifestJob>, job: ManifestJob, limit: nat) {
    |taken| < limit && AssetBytes(taken) + job.size <= MAX_MANIFEST_ASSET_BYTES
  }

  function Take(first: seq<ManifestJob>, scheduled: seq<ManifestJob>, limit: nat): seq<ManifestJob> {
    if scheduled == [] then first
    else
      var last := |scheduled| - 1;
      var taken := Take(first, scheduled[..last], limit);
      if Fits(taken, scheduled[last], limit) then taken + [scheduled[last]] else taken
  }

  function FindPage(pages: seq<PageRow>, index: int): seq<PageRow> {
    if pages == [] then []
    else if pages[0].index == index then [pages[0]]
    else FindPage(pages[1..], index)
  }

  /** The pages of a generation ORDER BY page_index, which the table keeps unique and within 0..2. */
  function PagesInOrder(pages: seq<PageRow>): seq<PageRow> {
    FindPage(pages, 0) + FindPage(pages, 1) + FindPage(pages, 2)
  }

  function ActivePages(generations: seq<Generation>): seq<PageRow> {
    if generations == [] then []
    else if generations[|generations| - 1].active then PagesInOrder(generations[|generations| - 1].pages)
    else ActivePages(generations[..|generations| - 1])
  }

  function ToManifestPages(s: Store, rows: seq<PageRow>): (r: seq<ManifestPage>)
    ensures |r| == |rows|
  {
    seq(|rows|, i requires 0 <= i < |rows| =>
      ManifestPage(rows[i].index, rows[i].name, rows[i].sha,
                   if rows[i].sha in s.assets then s.assets[rows[i].sha].size else 0))
  }

  /** The manifest the tables stand for, once lapsed jobs have been expired. */
  function ManifestOf(s: Store, now: int, limit: nat): GatewayManifest {
    GatewayManifest(now, s.version, NextRegularSync(now, DEFAULT_POLL_INTERVAL_SECONDS),
                    Take(First(s), Scheduled(s, now), limit),
                    ToManifestPages(s, ActivePages(s.generations)))
  }

  function BuildManifest(s: Store, device: string, now: int, limit: int)
    : (Store, Result<GatewayManifest, StoreError>)
  {
    if limit <= 0 || limit > MAX_MANIFEST_JOBS then (s, Err(Validation))
    else if device !in s.devices then (s, Err(NotFound))
    else
      var current := ExpireJobs(s, now);
      (current, Ok(ManifestOf(current, now, limit)))
  }

  // ------------------------------------------------------------------ runs

  datatype Op =
    | Register(device: string, token: string)
    | Create(card: CardRequest, png: Bytes, id: string, now: int)
    | Build(device: string, now: int, limit: int)
    | Ack(device: string, job: string, state: Status, message: string, now: int)
    | Activate(bundle: PulseBundle, now: int)

  function RegisterDevice(s: Store, device: string, token: string): (Store, Result<(), StoreError>) {
    if device == "" || |device| > 128 || token == "" then (s, Err(Validation))
    else (s.(devices := s.devices + {device}), Ok(()))
  }

  function Apply(h: Digest, s: Store, op: Op): Store {
    match op
    case Register(device, token) => RegisterDevice(s, device, token).0
    case Create(card, png, id, now) => CreateJob(h, s, card, png, id, now).0
    case Build(device, now, limit) => BuildManifest(s, device, now, limit).0
    case Ack(device, job, state, message, now) => Acknowledge(s, device, job, state, message, now).0
    case Activate(bundle, now) => ActivatePulse(h, s, bundle, now).0
  }

  /** A run of the gateway from its empty database. */
  ghost predicate IsRun(h: Digest, states: seq<Store>, ops: seq<Op>) {
    && |states| == |ops| + 1
    && states[0] == EMPTY_STORE
    && forall i :: 0 <= i < |ops| ==> states[i + 1] == Apply(h, states[i], ops[i])
  }
}
