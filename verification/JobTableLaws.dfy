/** What every run of the gateway keeps: the life of a job, its acknowledgements, and the version counter. */
module JobTableLaws {
  import opened Wrappers
  import opened Bytes
  import opened Cards
  import opened JobTable

  ghost predicate UniqueIds(jobs: seq<JobRow>) {
    forall i, j :: 0 <= i < j < |jobs| ==> jobs[i].id != jobs[j].id
  }

  /** The acknowledgement rows of one job, oldest first. */
  function AcksFor(acks: seq<AckRow>, id: string): seq<AckRow> {
    if acks == [] then []
    else
      var last := acks[|acks| - 1];
      AcksFor(acks[..|acks| - 1], id) + if last.job == id then [last] else []
  }

  /** An acknowledged job has exactly one acknowledgement row, which says the same; any other has none. */
  ghost predicate AcksAgree(acks: seq<AckRow>, job: JobRow) {
    var rows := AcksFor(acks, job.id);
    if job.status.Acked() then |rows| == 1 && rows[0].state == job.status else rows == []
  }

  ghost predicate AcksMatch(acks: seq<AckRow>, jobs: seq<JobRow>) {
    forall i :: 0 <= i < |jobs| ==> AcksAgree(acks, jobs[i])
  }

  ghost predicate AcksKnown(acks: seq<AckRow>, jobs: seq<JobRow>, devices: set<string>) {
    forall i :: 0 <= i < |acks| ==> HasJob(jobs, acks[i].job) && acks[i].device in devices
  }

  predicate PendingImmediateRow(row: JobRow) {
    row.immediate && row.status == Pending
  }

  ghost predicate OneImmediate(jobs: seq<JobRow>) {
    forall i, j :: 0 <= i < j < |jobs| ==> !(PendingImmediateRow(jobs[i]) && PendingImmediateRow(jobs[j]))
  }

  ghost predicate JobAssets(jobs: seq<JobRow>, assets: map<string, AssetRow>) {
    forall i :: 0 <= i < |jobs| ==> jobs[i].sha in assets
  }

  ghost predicate AssetIntact(h: Digest, assets: map<string, AssetRow>, files: map<string, Bytes>, sha: string) {
    && sha in assets && sha in files
    && 0 < assets[sha].size == |files[sha]| <= MAX_MANIFEST_ASSET_BYTES
  }

  ghost predicate AssetsOk(h: Digest, assets: map<string, AssetRow>, files: map<string, Bytes>) {
    && (forall sha :: sha in assets ==> AssetIntact(h, assets, files, sha))
    && (forall sha :: sha in files ==> h(files[sha]) == sha)
  }

  ghost predicate GenerationOk(assets: map<string, AssetRow>, g: Generation) {
    && |g.pages| == 3
    && (forall i :: 0 <= i < 3 ==> g.pages[i].name == PAGE_NAMES[i] && 0 <= g.pages[i].index <= 2
                                   && g.pages[i].sha in assets)
    && (forall i, j :: 0 <= i < j < 3 ==> g.pages[i].index != g.pages[j].index)
  }

  ghost predicate GenerationsOk(assets: map<string, AssetRow>, generations: seq<Generation>) {
    && (forall i :: 0 <= i < |generations| ==> GenerationOk(assets, generations[i]))
    && (forall i, j :: 0 <= i < j < |generations| ==> !(generations[i].active && generations[j].active))
  }

  ghost predicate StoreInv(h: Digest, s: Store) {
    && UniqueIds(s.jobs) && OneImmediate(s.jobs) && JobAssets(s.jobs, s.assets)
    && AcksMatch(s.acks, s.jobs) && AcksKnown(s.acks, s.jobs, s.devices)
    && AssetsOk(h, s.assets, s.files)
    && GenerationsOk(s.assets, s.generations)
  }

  // ------------------------------------------------------------------ one step

  ghost predicate StatusMayBecome(before: Status, after: Status) {
    || before == after
    || (before == Pending && after != Pending)
    || (before == Superseded && after.Acked())
  }

  ghost predicate RowEvolves(before: JobRow, after: JobRow) {
    before.(status := Pending) == after.(status := Pending) && StatusMayBecome(before.status, after.status)
  }

  ghost predicate RowsEvolve(before: seq<JobRow>, after: seq<JobRow>) {
    |before| <= |after| && forall i :: 0 <= i < |before| ==> RowEvolves(before[i], after[i])
  }

  ghost predicate MapGrows<T>(before: map<string, T>, after: map<string, T>) {
    forall k :: k in before ==> k in after && after[k] == before[k]
  }

  /** Everything a later state still has from an earlier one. */
  ghost predicate Evolves(s: Store, t: Store) {
    && s.version <= t.version
    && (s.version == t.version ==> s.jobs == t.jobs && s.acks == t.acks && s.generations == t.generations)
    && RowsEvolve(s.jobs, t.jobs)
    && s.acks <= t.acks
    && s.devices <= t.devices
    && MapGrows(s.assets, t.assets)
    && MapGrows(s.files, t.files)
  }

  lemma EvolvesReflexive(s: Store)
    ensures Evolves(s, s)
  {
  }

  lemma RowsEvolveTransitive(a: seq<JobRow>, b: seq<JobRow>, c: seq<JobRow>)
    requires RowsEvolve(a, b) && RowsEvolve(b, c)
    ensures RowsEvolve(a, c)
  {
    forall i | 0 <= i < |a|
      ensures RowEvolves(a[i], c[i])
    {
      assert RowEvolves(a[i], b[i]) && RowEvolves(b[i], c[i]);
    }
  }

  lemma EvolvesTransitive(a: Store, b: Store, c: Store)
    requires Evolves(a, b) && Evolves(b, c)
    ensures Evolves(a, c)
  {
    RowsEvolveTransitive(a.jobs, b.jobs, c.jobs);
  }

  /** Rows that only changed status keep everything but the agreement with the acknowledgements. */
  lemma RestatusedRows(before: seq<JobRow>, after: seq<JobRow>, assets: map<string, AssetRow>,
                       acks: seq<AckRow>, devices: set<string>)
    requires |before| == |after| && RowsEvolve(before, after)
    requires UniqueIds(before) && OneImmediate(before) && JobAssets(before, assets) && AcksKnown(acks, before, devices)
    ensures UniqueIds(after) && OneImmediate(after) && JobAssets(after, assets) && AcksKnown(acks, after, devices)
  {
    forall i, j | 0 <= i < j < |after|
      ensures after[i].id != after[j].id
      ensures !(PendingImmediateRow(after[i]) && PendingImmediateRow(after[j]))
    {
      assert RowEvolves(before[i], after[i]) && RowEvolves(before[j], after[j]);
      assert !(PendingImmediateRow(before[i]) && PendingImmediateRow(before[j]));
    }
    forall i | 0 <= i < |after|
      ensures after[i].sha in assets
    {
      assert RowEvolves(before[i], after[i]);
    }
    forall i | 0 <= i < |acks|
      ensures HasJob(after, acks[i].job)
    {
      KnownStaysKnown(before, after, acks[i].job);
    }
  }

  lemma KnownStaysKnown(before: seq<JobRow>, after: seq<JobRow>, id: string)
    requires RowsEvolve(before, after) && HasJob(before, id)
    ensures HasJob(after, id)
  {
    var k :| 0 <= k < |before| && before[k].id == id;
    assert RowEvolves(before[k], after[k]);
    assert after[k].id == id;
  }

  lemma UnackedChangesAgree(acks: seq<AckRow>, before: seq<JobRow>, after: seq<JobRow>)
    requires |before| == |after| && RowsEvolve(before, after) && AcksMatch(acks, before)
    requires forall i :: 0 <= i < |before| ==> after[i].status == before[i].status || !after[i].status.Acked()
    ensures AcksMatch(acks, after)
  {
    forall i | 0 <= i < |after|
      ensures AcksAgree(acks, after[i])
    {
      assert RowEvolves(before[i], after[i]) && AcksAgree(acks, before[i]);
    }
  }

  lemma GrownAssets(jobs: seq<JobRow>, generations: seq<Generation>,
                    before: map<string, AssetRow>, after: map<string, AssetRow>)
    requires MapGrows(before, after) && JobAssets(jobs, before) && GenerationsOk(before, generations)
    ensures JobAssets(jobs, after) && GenerationsOk(after, generations)
  {
    forall i | 0 <= i < |generations|
      ensures GenerationOk(after, generations[i])
    {
      assert GenerationOk(before, generations[i]);
    }
  }

  lemma PutAssetKeepsAssets(h: Digest, s: Store, png: Bytes, now: int)
    requires AssetsOk(h, s.assets, s.files)
    ensures var (t, r) := PutAsset(h, s, png, now);
            && AssetsOk(h, t.assets, t.files) && MapGrows(s.assets, t.assets) && MapGrows(s.files, t.files)
            && t == s.(assets := t.assets, files := t.files)
            && (r.Ok? ==> r.value == AssetRecord(h(png), |png|) && h(png) in t.assets && t.assets[h(png)].size == |png|)
  {
    var t := PutAsset(h, s, png, now).0;
    forall sha | sha in t.assets
      ensures AssetIntact(h, t.assets, t.files, sha)
    {
      if sha in s.assets { assert AssetIntact(h, s.assets, s.files, sha); }
    }
  }

  /** Filing more assets leaves everything else of the store, and so its invariant, as it was. */
  lemma MoreAssets(h: Digest, s: Store, t: Store)
    requires StoreInv(h, s) && t == s.(assets := t.assets, files := t.files)
    requires AssetsOk(h, t.assets, t.files) && MapGrows(s.assets, t.assets) && MapGrows(s.files, t.files)
    ensures StoreInv(h, t) && Evolves(s, t)
  {
    GrownAssets(s.jobs, s.generations, s.assets, t.assets);
  }

  lemma PutAssetStep(h: Digest, s: Store, png: Bytes, now: int)
    requires StoreInv(h, s)
    ensures var (t, r) := PutAsset(h, s, png, now);
            && StoreInv(h, t) && Evolves(s, t)
            && t == s.(assets := t.assets, files := t.files)
            && (r.Ok? ==> r.value == AssetRecord(h(png), |png|) && h(png) in t.assets && t.assets[h(png)].size == |png|)
  {
    PutAssetKeepsAssets(h, s, png, now);
    MoreAssets(h, s, PutAsset(h, s, png, now).0);
  }

  lemma AppendedAck(acks: seq<AckRow>, ack: AckRow, id: string)
    ensures AcksFor(acks + [ack], id) == AcksFor(acks, id) + if ack.job == id then [ack] else []
  {
    assert (acks + [ack])[..|acks|] == acks;
  }

  lemma {:induction false} NoAcksForUnknown(acks: seq<AckRow>, id: string)
    requires forall i :: 0 <= i < |acks| ==> acks[i].job != id
    ensures AcksFor(acks, id) == []
  {
    if acks != [] { NoAcksForUnknown(acks[..|acks| - 1], id); }
  }

  lemma InsertedRow(kept: seq<JobRow>, job: JobRow, assets: map<string, AssetRow>)
    requires UniqueIds(kept) && OneImmediate(kept) && JobAssets(kept, assets)
    requires !HasJob(kept, job.id) && job.sha in assets
    requires job.immediate ==> forall i :: 0 <= i < |kept| ==> !PendingImmediateRow(kept[i])
    ensures UniqueIds(kept + [job]) && OneImmediate(kept + [job]) && JobAssets(kept + [job], assets)
  {
    assert forall i :: 0 <= i < |kept| ==> (kept + [job])[i] == kept[i] && kept[i].id != job.id;
  }

  lemma InsertedUnacked(kept: seq<JobRow>, job: JobRow, acks: seq<AckRow>, devices: set<string>)
    requires AcksMatch(acks, kept) && AcksKnown(acks, kept, devices)
    requires !HasJob(kept, job.id) && job.status == Pending
    ensures AcksMatch(acks, kept + [job]) && AcksKnown(acks, kept + [job], devices)
  {
    var jobs := kept + [job];
    forall i | 0 <= i < |acks|
      ensures HasJob(jobs, acks[i].job) && acks[i].job != job.id
    {
      var k :| 0 <= k < |kept| && kept[k].id == acks[i].job;
      assert jobs[k].id == acks[i].job;
    }
    NoAcksForUnknown(acks, job.id);
    forall i | 0 <= i < |jobs|
      ensures AcksAgree(acks, jobs[i])
    {
      if i < |kept| { assert AcksAgree(acks, kept[i]); }
    }
  }

  /** Row changes that touch no acknowledgement: the store's invariant moves along. */
  lemma RestatusedStore(h: Digest, s: Store, kept: seq<JobRow>)
    requires StoreInv(h, s) && |kept| == |s.jobs| && RowsEvolve(s.jobs, kept)
    requires forall i :: 0 <= i < |s.jobs| ==> kept[i].status == s.jobs[i].status || !kept[i].status.Acked()
    ensures StoreInv(h, s.(jobs := kept, version := s.version + 1))
    ensures Evolves(s, s.(jobs := kept, version := s.version + 1))
  {
    RestatusedRows(s.jobs, kept, s.assets, s.acks, s.devices);
    UnackedChangesAgree(s.acks, s.jobs, kept);
  }

  lemma InsertedStore(h: Digest, s: Store, job: JobRow)
    requires StoreInv(h, s) && !HasJob(s.jobs, job.id) && job.sha in s.assets && job.status == Pending
    requires job.immediate ==> forall i :: 0 <= i < |s.jobs| ==> !PendingImmediateRow(s.jobs[i])
    ensures StoreInv(h, s.(jobs := s.jobs + [job])) && RowsEvolve(s.jobs, s.jobs + [job])
  {
    InsertedRow(s.jobs, job, s.assets);
    InsertedUnacked(s.jobs, job, s.acks, s.devices);
  }

  lemma SupersededRows(jobs: seq<JobRow>)
    ensures RowsEvolve(jobs, SupersedePending(jobs))
    ensures forall i :: 0 <= i < |jobs| ==> !PendingImmediateRow(SupersedePending(jobs)[i])
    ensures forall i :: 0 <= i < |jobs| ==>
              SupersedePending(jobs)[i].status == jobs[i].status || !SupersedePending(jobs)[i].status.Acked()
  {
  }

  /** The rows an insertion keeps: superseded when the new job is immediate. */
  lemma KeptStore(h: Digest, s: Store, kept: seq<JobRow>, immediate: bool)
    requires StoreInv(h, s) && kept == if immediate then SupersedePending(s.jobs) else s.jobs
    ensures StoreInv(h, s.(jobs := kept, version := s.version + 1))
    ensures Evolves(s, s.(jobs := kept, version := s.version + 1))
    ensures forall id :: HasJob(kept, id) <==> HasJob(s.jobs, id)
    ensures immediate ==> forall i :: 0 <= i < |kept| ==> !PendingImmediateRow(kept[i])
  {
    SupersededRows(s.jobs);
    RestatusedStore(h, s, kept);
    forall id
      ensures HasJob(kept, id) <==> HasJob(s.jobs, id)
    {
      if HasJob(s.jobs, id) { KnownStaysKnown(s.jobs, kept, id); }
      if HasJob(kept, id) {
        var k :| 0 <= k < |kept| && kept[k].id == id;
        assert s.jobs[k].id == id;
      }
    }
  }

  lemma CreateStep(h: Digest, s: Store, op: Op)
    requires StoreInv(h, s) && op.Create?
    ensures StoreInv(h, Apply(h, s, op)) && Evolves(s, Apply(h, s, op))
  {
    var (stored, asset) := PutAsset(h, s, op.png, op.now);
    PutAssetStep(h, s, op.png, op.now);
    if asset.Ok? && !HasJob(stored.jobs, op.id) {
      var kept := if op.card.displayAt.None? then SupersedePending(stored.jobs) else stored.jobs;
      var job := NewJob(op.card, op.id, op.now, asset.value.sha);
      var middle := stored.(jobs := kept, version := stored.version + 1);
      KeptStore(h, stored, kept, op.card.displayAt.None?);
      InsertedStore(h, middle, job);
      assert Apply(h, s, op) == middle.(jobs := kept + [job]);
      RowsEvolveTransitive(s.jobs, kept, kept + [job]);
    }
  }

  /**
   * A new immediate job replaces every pending one: those become superseded and it is the only pending
   * immediate row. No other row changes, and a scheduled job changes none.
   */
  lemma CreateSupersedes(h: Digest, s: Store, card: CardRequest, png: Bytes, id: string, now: int)
    requires CreateJob(h, s, card, png, id, now).1.Ok?
    ensures var after := CreateJob(h, s, card, png, id, now).0.jobs;
      && |after| == |s.jobs| + 1 && after[|s.jobs|].id == id && after[|s.jobs|].status == Pending
      && (forall i :: 0 <= i < |s.jobs| ==>
            after[i] == if card.displayAt.None? && PendingImmediateRow(s.jobs[i])
                        then s.jobs[i].(status := Superseded) else s.jobs[i])
      && (card.displayAt.None? ==> forall i :: 0 <= i < |after| ==> (PendingImmediateRow(after[i]) <==> i == |s.jobs|))
  {
    var (stored, asset) := PutAsset(h, s, png, now);
    assert stored.jobs == s.jobs;
  }

  lemma ExpireStep(h: Digest, s: Store, now: int)
    requires StoreInv(h, s)
    ensures StoreInv(h, ExpireJobs(s, now)) && Evolves(s, ExpireJobs(s, now))
    ensures forall i :: 0 <= i < |s.jobs| ==> !Lapsed(ExpireJobs(s, now).jobs[i], now)
  {
    var t := ExpireJobs(s, now);
    if t != s {
      assert RowsEvolve(s.jobs, t.jobs);
      RestatusedStore(h, s, t.jobs);
    }
  }

  lemma FindJobIs(jobs: seq<JobRow>, i: nat)
    requires UniqueIds(jobs) && i < |jobs|
    ensures FindJob(jobs, jobs[i].id) == Some(jobs[i])
  {
    assert HasJob(jobs, jobs[i].id);
  }

  /** Acknowledging an open job: its only row is the new one. Any other job's rows are untouched. */
  lemma AckedRow(acks: seq<AckRow>, row: JobRow, ack: AckRow)
    requires AcksAgree(acks, row)
    requires row.id == ack.job ==> !row.status.Final() && ack.state.Acked()
    ensures AcksAgree(acks + [ack], if row.id == ack.job then row.(status := ack.state) else row)
    ensures RowEvolves(row, if row.id == ack.job then row.(status := ack.state) else row)
  {
    AppendedAck(acks, ack, row.id);
  }

  lemma AckAccepted(acks: seq<AckRow>, jobs: seq<JobRow>, ack: AckRow)
    requires UniqueIds(jobs) && AcksMatch(acks, jobs)
    requires HasJob(jobs, ack.job) && ack.state.Acked()
    requires !FindJob(jobs, ack.job).value.status.Final()
    ensures RowsEvolve(jobs, SetStatus(jobs, ack.job, ack.state))
    ensures AcksMatch(acks + [ack], SetStatus(jobs, ack.job, ack.state))
  {
    var after := SetStatus(jobs, ack.job, ack.state);
    forall i | 0 <= i < |after|
      ensures AcksAgree(acks + [ack], after[i]) && RowEvolves(jobs[i], after[i])
    {
      assert AcksAgree(acks, jobs[i]);
      FindJobIs(jobs, i);
      AckedRow(acks, jobs[i], ack);
    }
  }

  lemma AppendedAckKnown(acks: seq<AckRow>, ack: AckRow, jobs: seq<JobRow>, devices: set<string>)
    requires AcksKnown(acks, jobs, devices) && HasJob(jobs, ack.job) && ack.device in devices
    ensures AcksKnown(acks + [ack], jobs, devices)
  {
  }

  lemma AckedStore(h: Digest, s: Store, ack: AckRow)
    requires StoreInv(h, s) && HasJob(s.jobs, ack.job) && ack.device in s.devices && ack.state.Acked()
    requires !FindJob(s.jobs, ack.job).value.status.Final()
    ensures var t :=
              s.(acks := s.acks + [ack], jobs := SetStatus(s.jobs, ack.job, ack.state), version := s.version + 1);
            StoreInv(h, t) && Evolves(s, t)
  {
    AckAccepted(s.acks, s.jobs, ack);
    AppendedAckKnown(s.acks, ack, s.jobs, s.devices);
    RestatusedRows(s.jobs, SetStatus(s.jobs, ack.job, ack.state), s.assets, s.acks + [ack], s.devices);
  }

  lemma AckStep(h: Digest, s: Store, op: Op)
    requires StoreInv(h, s) && op.Ack?
    ensures StoreInv(h, Apply(h, s, op)) && Evolves(s, Apply(h, s, op))
  {
    var r := Acknowledge(s, op.device, op.job, op.state, op.message, op.now).1;
    if r.Ok? && r.value.created {
      AckedStore(h, s, AckRow(op.device, op.job, op.state, op.message, op.now));
    } else {
      assert Apply(h, s, op) == s;
      EvolvesReflexive(s);
    }
  }

  lemma BuildStep(h: Digest, s: Store, op: Op)
    requires StoreInv(h, s) && op.Build?
    ensures StoreInv(h, Apply(h, s, op)) && Evolves(s, Apply(h, s, op))
  {
    assert Apply(h, s, op) == s || Apply(h, s, op) == ExpireJobs(s, op.now);
    ExpireStep(h, s, op.now);
    EvolvesReflexive(s);
  }

  lemma {:induction false} PutPagesStep(h: Digest, s: Store, pages: seq<BundlePage>, now: int)
    requires StoreInv(h, s)
    ensures var (t, r) := PutPages(h, s, pages, now);
            && StoreInv(h, t) && Evolves(s, t)
            && t == s.(assets := t.assets, files := t.files)
            && (r.Ok? ==> |r.value| == |pages| && forall i :: 0 <= i < |pages| ==> r.value[i].sha in t.assets)
  {
    if pages != [] {
      var last := |pages| - 1;
      var (before, records) := PutPages(h, s, pages[..last], now);
      PutPagesStep(h, s, pages[..last], now);
      if records.Ok? {
        PutAssetStep(h, before, pages[last].png, now);
        EvolvesTransitive(s, before, PutAsset(h, before, pages[last].png, now).0);
      }
    }
  }

  lemma ActivatedGeneration(assets: map<string, AssetRow>, generations: seq<Generation>, g: Generation)
    requires GenerationsOk(assets, generations) && GenerationOk(assets, g)
    ensures GenerationsOk(assets, Deactivated(generations) + [g])
  {
    var all := Deactivated(generations) + [g];
    forall i | 0 <= i < |all|
      ensures GenerationOk(assets, all[i])
    {
      if i < |generations| { assert GenerationOk(assets, generations[i]); }
    }
  }

  lemma ActivateStep(h: Digest, s: Store, op: Op)
    requires StoreInv(h, s) && op.Activate?
    ensures StoreInv(h, Apply(h, s, op)) && Evolves(s, Apply(h, s, op))
  {
    var pages := op.bundle.pages;
    var (t, r) := ActivatePulse(h, s, op.bundle, op.now);
    if ExpectedNames(pages) {
      var (stored, records) := PutPages(h, s, pages, op.now);
      PutPagesStep(h, s, pages, op.now);
      if r.Ok? {
        var g := Generation(op.bundle.generatedAt, true, PageRows(pages, records.value));
        ActivatedGeneration(stored.assets, stored.generations, g);
      }
    }
  }

  /** Each page filed is recorded with its own digest and size. */
  lemma {:induction false} PutPagesRecords(h: Digest, s: Store, pages: seq<BundlePage>, now: int)
    requires StoreInv(h, s) && PutPages(h, s, pages, now).1.Ok?
    ensures var records := PutPages(h, s, pages, now).1.value;
      && |records| == |pages|
      && forall i :: 0 <= i < |pages| ==> records[i] == AssetRecord(h(pages[i].png), |pages[i].png|)
  {
    if pages != [] {
      var last := |pages| - 1;
      PutPagesRecords(h, s, pages[..last], now);
      PutPagesStep(h, s, pages[..last], now);
      PutAssetStep(h, PutPages(h, s, pages[..last], now).0, pages[last].png, now);
    }
  }

  /** The page rows of a bundle that was filed. */
  predicate RowsOfBundle(h: Digest, rows: seq<PageRow>, pages: seq<BundlePage>) {
    && |rows| == |pages|
    && forall i :: 0 <= i < |pages| ==> rows[i] == PageRow(pages[i].index, pages[i].name, h(pages[i].png))
  }

  lemma BundleFiled(h: Digest, s: Store, pages: seq<BundlePage>, now: int)
    requires StoreInv(h, s) && PutPages(h, s, pages, now).1.Ok?
    ensures var (stored, records) := PutPages(h, s, pages, now);
      && |records.value| == |pages| && RowsOfBundle(h, PageRows(pages, records.value), pages)
      && forall i :: 0 <= i < |pages| ==> h(pages[i].png) in stored.files
  {
    var (stored, records) := PutPages(h, s, pages, now);
    PutPagesStep(h, s, pages, now);
    PutPagesRecords(h, s, pages, now);
    forall i | 0 <= i < |pages|
      ensures h(pages[i].png) in stored.files
    {
      assert AssetIntact(h, stored.assets, stored.files, records.value[i].sha);
    }
  }

  /**
   * Activating a bundle is all or nothing: refused, the generations and jobs stay and only assets may have
   * been filed; accepted, the one active generation is the bundle's own three pages, each filed by its digest.
   */
  lemma ActivationIsAtomic(h: Digest, s: Store, bundle: PulseBundle, now: int)
    requires StoreInv(h, s)
    ensures var (t, r) := ActivatePulse(h, s, bundle, now);
      && (r.Err? ==> t == s.(assets := t.assets, files := t.files))
      && (r.Ok? ==>
            && t.jobs == s.jobs && t.acks == s.acks && t.version == s.version + 1 && t.generations != []
            && t.generations[|t.generations| - 1].active
            && (forall i :: 0 <= i < |t.generations| - 1 ==> !t.generations[i].active)
            && RowsOfBundle(h, t.generations[|t.generations| - 1].pages, bundle.pages)
            && ExpectedNames(bundle.pages)
            && forall i :: 0 <= i < |bundle.pages| ==> h(bundle.pages[i].png) in t.files)
  {
    if ExpectedNames(bundle.pages) {
      var (stored, records) := PutPages(h, s, bundle.pages, now);
      PutPagesStep(h, s, bundle.pages, now);
      if records.Ok? { BundleFiled(h, s, bundle.pages, now); }
    }
  }

  lemma RegisterStep(h: Digest, s: Store, op: Op)
    requires StoreInv(h, s) && op.Register?
    ensures StoreInv(h, Apply(h, s, op)) && Evolves(s, Apply(h, s, op))
  {
  }

  /** Every transaction keeps the store's invariant, and nothing an earlier state settled is unsettled. */
  lemma StepKeepsInvariant(h: Digest, s: Store, op: Op)
    requires StoreInv(h, s)
    ensures StoreInv(h, Apply(h, s, op)) && Evolves(s, Apply(h, s, op))
  {
    match op
    case Register(_, _) => RegisterStep(h, s, op);
    case Create(_, _, _, _) => CreateStep(h, s, op);
    case Build(_, _, _) => BuildStep(h, s, op);
    case Ack(_, _, _, _, _) => AckStep(h, s, op);
    case Activate(_, _) => ActivateStep(h, s, op);
  }

  // ------------------------------------------------------------------ whole runs

  lemma {:induction false} RunKeepsInvariant(h: Digest, states: seq<Store>, ops: seq<Op>, i: nat)
    requires IsRun(h, states, ops) && i < |states|
    ensures StoreInv(h, states[i])
  {
    if i > 0 {
      RunKeepsInvariant(h, states, ops, i - 1);
      StepKeepsInvariant(h, states[i - 1], ops[i - 1]);
      assert states[i] == Apply(h, states[i - 1], ops[i - 1]);
    }
  }

  lemma {:induction false} RunEvolves(h: Digest, states: seq<Store>, ops: seq<Op>, i: nat, j: nat)
    requires IsRun(h, states, ops) && i <= j < |states|
    ensures Evolves(states[i], states[j])
    decreases j - i
  {
    if i < j {
      RunEvolves(h, states, ops, i, j - 1);
      RunKeepsInvariant(h, states, ops, j - 1);
      StepKeepsInvariant(h, states[j - 1], ops[j - 1]);
      assert states[j] == Apply(h, states[j - 1], ops[j - 1]);
      EvolvesTransitive(states[i], states[j - 1], states[j]);
    }
  }

  /**
   * The life of a job, over every run: its row keeps its identity, its displayed, failed or expired
   * status is never rewritten, and in every state its acknowledgement rows say exactly its status.
   */
  lemma JobLifecycle(h: Digest, states: seq<Store>, ops: seq<Op>, i: nat, j: nat, k: nat)
    requires IsRun(h, states, ops) && i <= j < |states| && k < |states[i].jobs|
    ensures k < |states[j].jobs| && RowEvolves(states[i].jobs[k], states[j].jobs[k])
    ensures states[i].jobs[k].status.Final() ==> states[j].jobs[k] == states[i].jobs[k]
    ensures AcksAgree(states[j].acks, states[j].jobs[k])
    ensures forall m :: 0 <= m < |states[j].jobs| && m != k ==>
              && states[j].jobs[m].id != states[j].jobs[k].id
              && !(PendingImmediateRow(states[j].jobs[m]) && PendingImmediateRow(states[j].jobs[k]))
  {
    RunEvolves(h, states, ops, i, j);
    RunKeepsInvariant(h, states, ops, j);
    assert RowEvolves(states[i].jobs[k], states[j].jobs[k]);
  }

  /** Repeating an accepted acknowledgement is accepted again and changes nothing, at any later state. */
  lemma RepeatedAckChangesNothing(h: Digest, states: seq<Store>, ops: seq<Op>, i: nat, j: nat,
                                  message: string, now: int)
    requires IsRun(h, states, ops) && i < j < |states|
    requires ops[i].Ack?
    requires Acknowledge(states[i], ops[i].device, ops[i].job, ops[i].state, ops[i].message, ops[i].now).1.Ok?
    requires ValidMessage(message)
    ensures Acknowledge(states[j], ops[i].device, ops[i].job, ops[i].state, message, now)
            == (states[j], Ok(AckResult(false, ops[i].state)))
  {
    var op := ops[i];
    var t := states[i + 1];
    assert t == Apply(h, states[i], op);
    RunKeepsInvariant(h, states, ops, i);
    RunKeepsInvariant(h, states, ops, j);
    RunEvolves(h, states, ops, i + 1, j);
    assert HasAck(t.acks, op.device, op.job, op.state) by {
      if !HasAck(states[i].acks, op.device, op.job, op.state) {
        assert t.acks[|t.acks| - 1] == AckRow(op.device, op.job, op.state, op.message, op.now);
      }
    }
    var k :|
      0 <= k < |t.acks| && t.acks[k].device == op.device && t.acks[k].job == op.job && t.acks[k].state == op.state;
    assert states[j].acks[k] == t.acks[k];
  }

  // ------------------------------------------------------------------ the version counter

  lemma {:induction false} SameCandidates(s: Store, t: Store, jobs: seq<JobRow>, now: int)
    requires forall i :: 0 <= i < |jobs| ==> jobs[i].sha in s.assets && jobs[i].sha in t.assets
    ensures CandidateRows(s, jobs, now) == CandidateRows(t, jobs, now)
    ensures PendingImmediate(s, jobs) == PendingImmediate(t, jobs)
  {
    if jobs != [] { SameCandidates(s, t, jobs[..|jobs| - 1], now); }
  }

  lemma FoundPage(pages: seq<PageRow>, index: int)
    ensures forall i :: 0 <= i < |FindPage(pages, index)| ==> FindPage(pages, index)[i] in pages
  {
  }

  lemma {:induction false} ActivePagesKnown(assets: map<string, AssetRow>, generations: seq<Generation>)
    requires GenerationsOk(assets, generations)
    ensures forall i :: 0 <= i < |ActivePages(generations)| ==> ActivePages(generations)[i].sha in assets
  {
    if generations != [] {
      var last := generations[|generations| - 1];
      if last.active {
        FoundPage(last.pages, 0);
        FoundPage(last.pages, 1);
        FoundPage(last.pages, 2);
      } else {
        ActivePagesKnown(assets, generations[..|generations| - 1]);
      }
    }
  }

  lemma SameTablesSameManifest(h: Digest, s: Store, t: Store, now: int, limit: nat)
    requires StoreInv(h, s) && StoreInv(h, t) && Evolves(s, t) && s.version == t.version
    ensures ManifestOf(s, now, limit) == ManifestOf(t, now, limit)
  {
    SameCandidates(s, t, s.jobs, now);
    SameRows(s, t, CandidateRows(s, s.jobs, now));
    assert First(s) == First(t);
    ActivePagesKnown(s.assets, s.generations);
    var pages := ActivePages(s.generations);
    assert ToManifestPages(s, pages) == ToManifestPages(t, pages);
  }

  lemma SameRows(s: Store, t: Store, rows: seq<JobRow>)
    requires MapGrows(s.assets, t.assets)
    requires forall i :: 0 <= i < |rows| ==> rows[i].sha in s.assets
    ensures ToManifestJobs(s, OrderRows(rows)) == ToManifestJobs(t, OrderRows(rows))
  {
    var ordered := OrderRows(rows);
    forall i | 0 <= i < |ordered|
      ensures ToManifestJob(s, ordered[i]) == ToManifestJob(t, ordered[i])
    {
      assert ordered[i] in multiset(ordered);
      assert ordered[i] in rows;
    }
  }

  /**
   * Version soundness. Along every run the version never decreases, and two states with the same
   * version have the same jobs, acknowledgements and pulse generations.
   */
  lemma VersionSound(h: Digest, states: seq<Store>, ops: seq<Op>, i: nat, j: nat)
    requires IsRun(h, states, ops) && i <= j < |states|
    ensures states[i].version <= states[j].version
    ensures states[i].version == states[j].version ==>
              && states[i].jobs == states[j].jobs
              && states[i].acks == states[j].acks
              && states[i].generations == states[j].generations
  {
    RunEvolves(h, states, ops, i, j);
  }

  /** Two manifests of one run with the same version, server time and limit are the same manifest. */
  lemma EqualVersionEqualManifest(h: Digest, states: seq<Store>, ops: seq<Op>, i: nat, j: nat)
    requires IsRun(h, states, ops) && i < |ops| && j < |ops| && ops[i].Build? && ops[j].Build?
    requires ops[i].limit == ops[j].limit
    requires BuildManifest(states[i], ops[i].device, ops[i].now, ops[i].limit).1.Ok?
    requires BuildManifest(states[j], ops[j].device, ops[j].now, ops[j].limit).1.Ok?
    ensures var a := BuildManifest(states[i], ops[i].device, ops[i].now, ops[i].limit).1.value;
            var b := BuildManifest(states[j], ops[j].device, ops[j].now, ops[j].limit).1.value;
            a.version == b.version && a.serverTime == b.serverTime ==> a == b
  {
    var s, t := states[i + 1], states[j + 1];
    assert s == Apply(h, states[i], ops[i]) && t == Apply(h, states[j], ops[j]);
    RunKeepsInvariant(h, states, ops, i + 1);
    RunKeepsInvariant(h, states, ops, j + 1);
    if ops[i].now == ops[j].now && s.version == t.version {
      if i <= j {
        RunEvolves(h, states, ops, i + 1, j + 1);
        SameTablesSameManifest(h, s, t, ops[i].now, ops[i].limit);
      } else {
        RunEvolves(h, states, ops, j + 1, i + 1);
        SameTablesSameManifest(h, t, s, ops[i].now, ops[i].limit);
      }
    }
  }
}
