/**
 * What each transaction of the gateway answers and changes, in terms of the caller's arguments and the
 * fields of the rows: which requests are accepted, what is recorded, and what a manifest lists.
 */
module StoreAnswers {
  import opened Wrappers
  import opened Bytes
  import opened Cards
  import opened JobTable
  import opened JobTableLaws
  import opened ManifestSelection

  // ------------------------------------------------------------------ devices and assets

  lemma RegistrationIsRecorded(s: Store, device: string, token: string)
    ensures var (t, r) := RegisterDevice(s, device, token);
      && (r.Ok? <==> 1 <= |device| <= 128 && |token| >= 1)
      && (r.Ok? ==> device in t.devices && t == s.(devices := t.devices)
                    && t.devices - {device} == s.devices - {device})
      && (r.Err? ==> r.error == Validation && t == s)
  {
  }

  /** A PNG the gateway takes, and what it is filed under agrees with it. */
  predicate MayFile(h: Digest, s: Store, png: Bytes) {
    && PNG_SIGNATURE <= png && |png| <= 4 * 1024 * 1024
    && (h(png) in s.files ==> |s.files[h(png)]| == |png| && h(s.files[h(png)]) == h(png))
    && (h(png) in s.assets ==> s.assets[h(png)].size == |png|)
  }

  /** A payload is filed exactly when it may be; then it, or its equal in digest and length, is under its digest. */
  lemma AssetIsFiled(h: Digest, s: Store, png: Bytes, now: int)
    ensures var (t, r) := PutAsset(h, s, png, now);
      && (r.Ok? <==> MayFile(h, s, png))
      && (r.Ok? ==>
            && r.value == AssetRecord(h(png), |png|)
            && t.files == (if h(png) in s.files then s.files else s.files[h(png) := png])
            && t.assets == (if h(png) in s.assets then s.assets else s.assets[h(png) := AssetRow(|png|, now)]))
      && (r.Err? ==> r.error == if PNG_SIGNATURE <= png && |png| <= 4 * 1024 * 1024 then Integrity else Validation)
      && t == s.(files := t.files, assets := t.assets)
  {
  }

  /** Where no two payloads share a digest, every PNG within the size limit may be filed. */
  lemma EveryPngIsTaken(h: Digest, universe: set<Bytes>, s: Store, png: Bytes)
    requires StoreInv(h, s) && CollisionFree(h, universe) && png in universe
    requires forall sha :: sha in s.files ==> s.files[sha] in universe
    ensures MayFile(h, s, png) <==> PNG_SIGNATURE <= png && |png| <= 4 * 1024 * 1024
  {
    if h(png) in s.files { assert s.files[h(png)] == png; }
    if h(png) in s.assets { assert AssetIntact(h, s.assets, s.files, h(png)); }
  }

  // ------------------------------------------------------------------ cards

  /** The row of a new card: its own text and times, shown at once when it names no time. */
  predicate IsRowOf(row: JobRow, card: CardRequest, id: string, now: int, sha: string) {
    && row.id == id && row.title == card.title && row.body == card.body && row.style == card.style
    && row.createdAt == now && row.expiresAt == card.expiresAt && row.sha == sha && row.status == Pending
    && row.displayAt == (match card.displayAt case Some(at) => at case None => now)
    && (row.immediate <==> card.displayAt.None?)
    && (row.guaranteed <==> card.displayAt.Some? && card.displayAt.value >= now + 1200)
  }

  /**
   * A card is accepted exactly when its picture may be filed and its id is new; then its row is the one
   * appended and returned, and the version grows by one. A refusal changes no row and not the version.
   */
  lemma CardIsRecorded(h: Digest, s: Store, card: CardRequest, png: Bytes, id: string, now: int)
    ensures var (t, r) := CreateJob(h, s, card, png, id, now);
      && (r.Ok? <==> MayFile(h, s, png) && forall i :: 0 <= i < |s.jobs| ==> s.jobs[i].id != id)
      && (r.Ok? ==>
            && |t.jobs| == |s.jobs| + 1 && r.value == t.jobs[|s.jobs|]
            && IsRowOf(t.jobs[|s.jobs|], card, id, now, h(png))
            && t.version == s.version + 1 && h(png) in t.files && h(png) in t.assets)
      && (r.Err? ==>
            && t.jobs == s.jobs && t.version == s.version
            && r.error == if PNG_SIGNATURE <= png && |png| <= 4 * 1024 * 1024 then Integrity else Validation)
      && t.acks == s.acks && t.generations == s.generations && t.devices == s.devices
  {
    AssetIsFiled(h, s, png, now);
    var stored := PutAsset(h, s, png, now).0;
    assert stored.jobs == s.jobs && stored.version == s.version;
  }

  // ------------------------------------------------------------------ expiry

  /** A pending job that has an expiry which is not after `now`. */
  predicate RunsOut(row: JobRow, now: int) {
    row.status == Pending && match row.expiresAt case Some(at) => at <= now case None => false
  }

  /** Exactly the pending rows that ran out become expired; the version grows when there is one. */
  lemma ExpiryIsExact(s: Store, now: int)
    ensures var t := ExpireJobs(s, now);
      && |t.jobs| == |s.jobs| && t == s.(jobs := t.jobs, version := t.version)
      && (forall i :: 0 <= i < |s.jobs| ==>
            t.jobs[i] == if RunsOut(s.jobs[i], now) then s.jobs[i].(status := Expired) else s.jobs[i])
      && t.version == s.version + if exists i :: 0 <= i < |s.jobs| && RunsOut(s.jobs[i], now) then 1 else 0
  {
    assert forall i :: 0 <= i < |s.jobs| ==> (Lapsed(s.jobs[i], now) <==> RunsOut(s.jobs[i], now));
  }

  // ------------------------------------------------------------------ acknowledgements

  /** The firmware's own message, and every text without control characters up to 240 characters, is valid. */
  lemma ValidMessages(message: string)
    ensures ValidMessage("")
    ensures ValidMessage(message) <==>
            |message| <= 240
            && forall i :: 0 <= i < |message| ==>
                 message[i] == '\n' || message[i] == '\t' || 32 <= message[i] as int <= 126 || 160 <= message[i] as int
  {
  }

  /**
   * The answer to an acknowledgement of the job in row `k`, in a table without repeated ids. A pending or
   * superseded row takes the state; a repeated acknowledgement changes nothing; every other row is final.
   */
  lemma AckIsRecorded(s: Store, device: string, state: Status, message: string, now: int, k: nat)
    requires UniqueIds(s.jobs) && k < |s.jobs| && device in s.devices
    requires (state == Displayed || state == Failed) && ValidMessage(message)
    ensures var row := s.jobs[k];
      var (t, r) := Acknowledge(s, device, row.id, state, message, now);
      if exists i :: 0 <= i < |s.acks|
                     && s.acks[i].device == device && s.acks[i].job == row.id && s.acks[i].state == state
      then r == Ok(AckResult(false, state)) && t == s
      else if row.status == Pending || row.status == Superseded then
        && r == Ok(AckResult(true, state))
        && t == s.(jobs := s.jobs[k := row.(status := state)],
                   acks := s.acks + [AckRow(device, row.id, state, message, now)], version := s.version + 1)
      else r == Err(InvalidTransition) && t == s
  {
    var row := s.jobs[k];
    var found := FindJob(s.jobs, row.id).value;
    var i :| 0 <= i < |s.jobs| && s.jobs[i] == found && found.id == row.id;
    assert i == k;
    assert SetStatus(s.jobs, row.id, state) == s.jobs[k := row.(status := state)];
  }

  /** The acknowledgements refused before any row is looked at, and those of unknown devices and jobs. */
  lemma AckIsRefused(s: Store, device: string, job: string, state: Status, message: string, now: int)
    ensures var (t, r) := Acknowledge(s, device, job, state, message, now);
      && (!(state == Displayed || state == Failed) || !ValidMessage(message) ==> r == Err(Validation) && t == s)
      && ((state == Displayed || state == Failed) && ValidMessage(message)
          && (device !in s.devices || forall i :: 0 <= i < |s.jobs| ==> s.jobs[i].id != job) ==>
            r == Err(NotFound) && t == s)
  {
  }

  // ------------------------------------------------------------------ manifests

  /** The listing of a row: its own fields and its asset's size. */
  predicate IsListingOf(job: ManifestJob, row: JobRow, assets: map<string, AssetRow>) {
    && job.id == row.id && job.displayAt == row.displayAt && job.sha == row.sha
    && job.expiresAt == (match row.expiresAt case Some(at) => at case None => 0)
    && row.sha in assets && job.size == assets[row.sha].size
  }

  /** A scheduled job that is pending, not run out, and within 24 hours or overdue. */
  predicate MayBeListed(row: JobRow, assets: map<string, AssetRow>, now: int) {
    row.status == Pending && !row.immediate && row.displayAt <= now + 86400 && !RunsOut(row, now) && row.sha in assets
  }

  predicate IsNow(row: JobRow, assets: map<string, AssetRow>, now: int) {
    row.status == Pending && row.immediate && !RunsOut(row, now) && row.sha in assets
  }

  lemma ScheduledIsQueried(s: Store, now: int, k: nat) returns (p: nat)
    requires k < |s.jobs| && IsCandidate(s, s.jobs[k], now)
    ensures p < |Scheduled(s, now)| && Scheduled(s, now)[p] == ToManifestJob(s, s.jobs[k])
  {
    var row, candidates := s.jobs[k], CandidateRows(s, s.jobs, now);
    CandidatesAreAll(s, s.jobs, now, k);
    assert row in multiset(candidates);
    assert row in multiset(OrderRows(candidates));
    p :| p < |OrderRows(candidates)| && OrderRows(candidates)[p] == row;
  }

  /** Every job that may be listed is, unless the count is full or its asset would overflow the byte limit. */
  lemma DueJobsAreListed(h: Digest, s: Store, device: string, now: int, limit: int, k: nat)
    requires StoreInv(h, s) && k < |s.jobs| && MayBeListed(s.jobs[k], s.assets, now)
    requires BuildManifest(s, device, now, limit).1.Ok?
    ensures var jobs := BuildManifest(s, device, now, limit).1.value.jobs;
      || (exists i :: 0 <= i < |jobs| && IsListingOf(jobs[i], s.jobs[k], s.assets))
      || |jobs| == limit
      || AssetBytes(jobs) + s.assets[s.jobs[k].sha].size > 4 * 1024 * 1024
  {
    var t := ExpireJobs(s, now);
    ExpiryIsExact(s, now);
    ExpireStep(h, s, now);
    var p := ScheduledIsQueried(t, now, k);
    GreedySelection(h, t, now, limit);
    var jobs, positions := ManifestOf(t, now, limit).jobs, Taken(First(t), Scheduled(t, now), limit);
    if p in positions {
      var q :| 0 <= q < |positions| && positions[q] == p;
      assert jobs[|First(t)|..][q] == Scheduled(t, now)[p];
      assert jobs[|First(t)| + q] == Scheduled(t, now)[p];
      assert IsListingOf(jobs[|First(t)| + q], s.jobs[k], s.assets);
    }
  }

  /** A pending immediate job is the manifest's first. */
  lemma ImmediateIsFirst(h: Digest, s: Store, device: string, now: int, limit: int, k: nat)
    requires StoreInv(h, s) && k < |s.jobs| && IsNow(s.jobs[k], s.assets, now)
    requires BuildManifest(s, device, now, limit).1.Ok?
    ensures var jobs := BuildManifest(s, device, now, limit).1.value.jobs;
      jobs != [] && IsListingOf(jobs[0], s.jobs[k], s.assets)
  {
    var t := ExpireJobs(s, now);
    ExpiryIsExact(s, now);
    ExpireStep(h, s, now);
    assert IsImmediate(t, t.jobs[k]);
    var row := PendingImmediate(t, t.jobs).value;
    var i :| 0 <= i < |t.jobs| && t.jobs[i] == row;
    assert i == k;
    SelectionIsSubsequence(First(t), Scheduled(t, now), limit);
    assert First(t)[0] == ManifestOf(t, now, limit).jobs[0];
  }

  /** The row behind one line of the query. */
  lemma QueriedRow(t: Store, now: int, p: nat) returns (k: nat)
    requires p < |Scheduled(t, now)|
    ensures k < |t.jobs| && Scheduled(t, now)[p] == ToManifestJob(t, t.jobs[k]) && IsCandidate(t, t.jobs[k], now)
  {
    var ordered := OrderRows(CandidateRows(t, t.jobs, now));
    assert ordered[p] in multiset(ordered);
    assert ordered[p] in CandidateRows(t, t.jobs, now);
    k :| k < |t.jobs| && t.jobs[k] == ordered[p];
  }

  lemma FirstRow(t: Store) returns (k: nat)
    requires First(t) != []
    ensures k < |t.jobs| && First(t)[0] == ToManifestJob(t, t.jobs[k]) && IsImmediate(t, t.jobs[k])
  {
    var row := PendingImmediate(t, t.jobs).value;
    k :| k < |t.jobs| && t.jobs[k] == row;
  }

  /** The line of the query behind a listing after the immediate one. */
  lemma ListedLine(t: Store, now: int, limit: nat, i: nat) returns (p: nat)
    requires |First(t)| <= i < |ManifestOf(t, now, limit).jobs|
    ensures p < |Scheduled(t, now)| && ManifestOf(t, now, limit).jobs[i] == Scheduled(t, now)[p]
    ensures |Taken(First(t), Scheduled(t, now), limit)| == |ManifestOf(t, now, limit).jobs| - |First(t)|
    ensures p == Taken(First(t), Scheduled(t, now), limit)[i - |First(t)|]
  {
    var first, scheduled := First(t), Scheduled(t, now);
    SelectionIsSubsequence(first, scheduled, limit);
    p := Taken(first, scheduled, limit)[i - |first|];
    assert Take(first, scheduled, limit)[|first|..][i - |first|] == Take(first, scheduled, limit)[i];
  }

  /** Where the listing at `i` comes from. */
  lemma ListedRow(t: Store, now: int, limit: nat, i: nat) returns (k: nat)
    requires i < |ManifestOf(t, now, limit).jobs|
    ensures k < |t.jobs| && ManifestOf(t, now, limit).jobs[i] == ToManifestJob(t, t.jobs[k])
    ensures if i < |First(t)| then IsImmediate(t, t.jobs[k]) else IsCandidate(t, t.jobs[k], now)
  {
    if i < |First(t)| {
      SelectionIsSubsequence(First(t), Scheduled(t, now), limit);
      k := FirstRow(t);
    } else {
      var p := ListedLine(t, now, limit, i);
      k := QueriedRow(t, now, p);
    }
  }

  /** Nothing else is listed: each listing is of a row that may be, and an immediate one only stands first. */
  lemma OnlyDueJobsAreListed(h: Digest, s: Store, device: string, now: int, limit: int, i: nat)
    requires StoreInv(h, s) && BuildManifest(s, device, now, limit).1.Ok?
    requires i < |BuildManifest(s, device, now, limit).1.value.jobs|
    ensures exists k ::
      && 0 <= k < |s.jobs| && IsListingOf(BuildManifest(s, device, now, limit).1.value.jobs[i], s.jobs[k], s.assets)
      && (MayBeListed(s.jobs[k], s.assets, now) || (i == 0 && IsNow(s.jobs[k], s.assets, now)))
  {
    var t := ExpireJobs(s, now);
    ExpiryIsExact(s, now);
    ExpireStep(h, s, now);
    var k := ListedRow(t, now, limit, i);
    assert t.jobs[k] == s.jobs[k];
    assert IsListingOf(ManifestOf(t, now, limit).jobs[i], s.jobs[k], s.assets);
  }

  /** After the immediate job the listings are in order of display time. */
  lemma ListedInOrder(h: Digest, s: Store, device: string, now: int, limit: int, i: nat, j: nat)
    requires StoreInv(h, s) && BuildManifest(s, device, now, limit).1.Ok?
    requires i < j < |BuildManifest(s, device, now, limit).1.value.jobs|
    ensures var jobs := BuildManifest(s, device, now, limit).1.value.jobs;
      jobs[i].displayAt <= jobs[j].displayAt
      || (i == 0 && exists k :: 0 <= k < |s.jobs| && IsNow(s.jobs[k], s.assets, now))
  {
    var t := ExpireJobs(s, now);
    ExpiryIsExact(s, now);
    ExpireStep(h, s, now);
    if i < |First(t)| {
      var k := ListedRow(t, now, limit, i);
      assert t.jobs[k] == s.jobs[k] && IsNow(s.jobs[k], s.assets, now);
    } else {
      SelectionIsSubsequence(First(t), Scheduled(t, now), limit);
      var p := ListedLine(t, now, limit, i);
      var q := ListedLine(t, now, limit, j);
      QueryIsOrdered(CandidateRows(t, t.jobs, now));
      assert RowLeq(OrderRows(CandidateRows(t, t.jobs, now))[p], OrderRows(CandidateRows(t, t.jobs, now))[q]);
    }
  }

  /** When a manifest is built, what else it says, and which request is refused how. */
  lemma ManifestIsAnswered(s: Store, device: string, now: int, limit: int)
    ensures var (t, r) := BuildManifest(s, device, now, limit);
      && (r.Ok? <==> 1 <= limit <= 16 && device in s.devices)
      && (r.Err? ==> t == s && r.error == if 1 <= limit <= 16 then NotFound else Validation)
      && (r.Ok? ==>
            && t == ExpireJobs(s, now)
            && r.value.serverTime == now && r.value.version == t.version
            && r.value.nextSyncAt % 900 == 0 && now < r.value.nextSyncAt <= now + 900)
  {
    NextSyncIsNextGridPoint(now, 900, 0);
  }

  /** Its pages are those of the active generation, by number, with the sizes of their assets. */
  lemma PagesAreListed(h: Digest, s: Store, device: string, now: int, limit: int, g: nat, i: nat)
    requires StoreInv(h, s) && BuildManifest(s, device, now, limit).1.Ok?
    requires g < |s.generations| && s.generations[g].active && i < 3
    ensures var pages := BuildManifest(s, device, now, limit).1.value.pages;
      && |pages| == 3
      && pages[i].index == i && pages[i].sha in s.assets && pages[i].size == s.assets[pages[i].sha].size
      && exists k ::
           && 0 <= k < 3 && s.generations[g].pages[k].index == i
           && pages[i].name == s.generations[g].pages[k].name && pages[i].sha == s.generations[g].pages[k].sha
  {
    assert ExpireJobs(s, now).generations == s.generations && ExpireJobs(s, now).assets == s.assets;
    ActiveAre(s.assets, s.generations, g);
    assert GenerationOk(s.assets, s.generations[g]);
    ThreeInOrder(s.generations[g].pages, i);
  }

  lemma NoPagesAreListed(s: Store, device: string, now: int, limit: int)
    requires BuildManifest(s, device, now, limit).1.Ok?
    requires forall g :: 0 <= g < |s.generations| ==> !s.generations[g].active
    ensures BuildManifest(s, device, now, limit).1.value.pages == []
  {
    assert ExpireJobs(s, now).generations == s.generations;
    NoneActive(s.generations);
  }

  lemma {:induction false} NoneActive(generations: seq<Generation>)
    requires forall g :: 0 <= g < |generations| ==> !generations[g].active
    ensures ActivePages(generations) == []
  {
    if generations != [] { NoneActive(generations[..|generations| - 1]); }
  }

  lemma {:induction false} ActiveAre(assets: map<string, AssetRow>, generations: seq<Generation>, g: nat)
    requires GenerationsOk(assets, generations) && g < |generations| && generations[g].active
    ensures ActivePages(generations) == PagesInOrder(generations[g].pages)
  {
    var last := |generations| - 1;
    if g < last {
      assert !generations[last].active;
      ActiveAre(assets, generations[..last], g);
    }
  }

  lemma {:induction false} FoundPage(pages: seq<PageRow>, k: nat)
    requires k < |pages| && forall i, j :: 0 <= i < j < |pages| ==> pages[i].index != pages[j].index
    ensures FindPage(pages, pages[k].index) == [pages[k]]
  {
    if k > 0 {
      var rest := pages[1..];
      assert rest[k - 1] == pages[k] && pages[0].index != pages[k].index;
      FoundPage(rest, k - 1);
    }
  }

  lemma ThreeInOrder(pages: seq<PageRow>, i: nat)
    requires |pages| == 3 && i < 3
    requires forall k :: 0 <= k < 3 ==> 0 <= pages[k].index <= 2
    requires forall k, j :: 0 <= k < j < 3 ==> pages[k].index != pages[j].index
    ensures |PagesInOrder(pages)| == 3
    ensures exists k :: 0 <= k < 3 && pages[k].index == i && PagesInOrder(pages)[i] == pages[k]
  {
    forall n: nat | n < 3
      ensures exists k :: 0 <= k < 3 && pages[k].index == n && FindPage(pages, n) == [pages[k]]
    {
      var k := if pages[0].index == n then 0 else if pages[1].index == n then 1 else 2;
      assert pages[k].index == n;
      FoundPage(pages, k);
    }
  }

  // ------------------------------------------------------------------ pulse bundles

  /** The files of a store are payloads of a universe without collisions. */
  ghost predicate Distinct(h: Digest, universe: set<Bytes>, s: Store) {
    StoreInv(h, s) && CollisionFree(h, universe) && forall sha :: sha in s.files ==> s.files[sha] in universe
  }

  predicate GoodPngs(pages: seq<BundlePage>) {
    forall i :: 0 <= i < |pages| ==> PNG_SIGNATURE <= pages[i].png && |pages[i].png| <= 4 * 1024 * 1024
  }

  function BundleBytes(pages: seq<BundlePage>): nat {
    if pages == [] then 0 else BundleBytes(pages[..|pages| - 1]) + |pages[|pages| - 1].png|
  }

  lemma {:induction false} PagesAreFiled(h: Digest, universe: set<Bytes>, s: Store, pages: seq<BundlePage>, now: int)
    requires Distinct(h, universe, s) && forall i :: 0 <= i < |pages| ==> pages[i].png in universe
    ensures var (t, r) := PutPages(h, s, pages, now);
      && Distinct(h, universe, t) && t.generations == s.generations
      && (r.Ok? <==> GoodPngs(pages)) && (r.Ok? ==> TotalSize(r.value) == BundleBytes(pages))
  {
    if pages != [] {
      var front, last := pages[..|pages| - 1], pages[|pages| - 1];
      PagesAreFiled(h, universe, s, front, now);
      var (t, r) := PutPages(h, s, front, now);
      assert GoodPngs(pages) <==> GoodPngs(front) && GoodPngs([last]) by { assert pages == front + [last]; }
      if r.Ok? {
        PageIsFiled(h, universe, t, last, now);
        var record := PutAsset(h, t, last.png, now).1;
        if record.Ok? { assert (r.value + [record.value])[..|r.value|] == r.value; }
      }
    }
  }

  lemma PageIsFiled(h: Digest, universe: set<Bytes>, s: Store, page: BundlePage, now: int)
    requires Distinct(h, universe, s) && page.png in universe
    ensures var (t, r) := PutAsset(h, s, page.png, now);
      && Distinct(h, universe, t) && t.generations == s.generations
      && (r.Ok? <==> GoodPngs([page])) && (r.Ok? ==> r.value.size == |page.png|)
  {
    PutAssetStep(h, s, page.png, now);
    AssetIsFiled(h, s, page.png, now);
    EveryPngIsTaken(h, universe, s, page.png);
    assert [page][0] == page;
  }

  /** The three named pages, each a PNG, together within the byte limit and numbered apart. */
  predicate MayPublish(pages: seq<BundlePage>) {
    && |pages| == 3 && pages[0].name == "01-now" && pages[1].name == "02-work" && pages[2].name == "03-ideas"
    && GoodPngs(pages) && BundleBytes(pages) <= 4 * 1024 * 1024
    && (forall i :: 0 <= i < 3 ==> 0 <= pages[i].index <= 2)
    && (forall i, j :: 0 <= i < j < 3 ==> pages[i].index != pages[j].index)
  }

  lemma MayPublishIs(pages: seq<BundlePage>)
    ensures MayPublish(pages)
       <==> ExpectedNames(pages) && AllowedIndexes(pages) && GoodPngs(pages) && BundleBytes(pages) <= 4 * 1024 * 1024
  {
  }

  /** A bundle is activated exactly when it may be; the new generation has its time and the next number. */
  lemma BundleIsAccepted(h: Digest, universe: set<Bytes>, s: Store, bundle: PulseBundle, now: int)
    requires Distinct(h, universe, s) && forall i :: 0 <= i < |bundle.pages| ==> bundle.pages[i].png in universe
    ensures var (t, r) := ActivatePulse(h, s, bundle, now);
      && (r.Ok? <==> MayPublish(bundle.pages))
      && (r.Ok? ==>
            && r.value == |s.generations| + 1 == |t.generations|
            && t.generations[|s.generations|].generatedAt == bundle.generatedAt)
      && (r.Err? ==> t.generations == s.generations)
  {
    MayPublishIs(bundle.pages);
    PagesAreFiled(h, universe, s, bundle.pages, now);
  }
}
