/**
 * The gateway's job store: an object over its tables whose methods are the transactions. Each method
 * is proved to take the tables exactly where the table function of the same name says.
 */
module JobStore {
  import opened Wrappers
  import opened Bytes
  import opened Cards
  import opened JobTable
  import opened JobTableLaws

  class JobStore {
    const sha256: Digest
    var version: nat
    var devices: set<string>
    var assets: map<string, AssetRow>
    var files: map<string, Bytes>
    var jobs: seq<JobRow>
    var acks: seq<AckRow>
    var generations: seq<Generation>

    ghost function Tables(): Store
      reads this
    {
      Store(version, devices, assets, files, jobs, acks, generations)
    }

    ghost predicate Valid()
      reads this
    {
      StoreInv(sha256, Tables())
    }

    constructor (sha256: Digest)
      ensures this.sha256 == sha256 && Tables() == EMPTY_STORE && Valid()
    {
      this.sha256 := sha256;
      version, devices, assets, files, jobs, acks, generations := 0, {}, map[], map[], [], [], [];
    }

    method RegisterDevice(device: string, token: string) returns (result: Result<(), StoreError>)
      requires Valid()
      modifies this
      ensures Valid() && Evolves(old(Tables()), Tables())
      ensures (Tables(), result) == JobTable.RegisterDevice(old(Tables()), device, token)
    {
      StepKeepsInvariant(sha256, Tables(), Register(device, token));
      if device == "" || |device| > 128 { return Err(Validation); }
      if token == "" { return Err(Validation); }
      devices := devices + {device};
      return Ok(());
    }

    method PutAsset(png: Bytes, now: int) returns (result: Result<AssetRecord, StoreError>)
      requires Valid()
      modifies this`files, this`assets
      ensures Valid() && Evolves(old(Tables()), Tables())
      ensures (Tables(), result) == JobTable.PutAsset(sha256, old(Tables()), png, now)
    {
      PutAssetStep(sha256, Tables(), png, now);
      if !(PNG_SIGNATURE <= png) { return Err(Validation); }
      if |png| > MAX_MANIFEST_ASSET_BYTES { return Err(Validation); }
      var digest := sha256(png);
      if digest !in files {
        files := files[digest := png];
      } else if |files[digest]| != |png| || sha256(files[digest]) != digest {
        return Err(Integrity);
      }
      if digest in assets {
        if assets[digest].size != |png| { return Err(Integrity); }
      } else {
        assets := assets[digest := AssetRow(|png|, now)];
      }
      return Ok(AssetRecord(digest, |png|));
    }

    method CreateJob(card: CardRequest, png: Bytes, id: string, now: int) returns (result: Result<JobRow, StoreError>)
      requires Valid()
      modifies this
      ensures Valid() && Evolves(old(Tables()), Tables())
      ensures (Tables(), result) == JobTable.CreateJob(sha256, old(Tables()), card, png, id, now)
    {
      StepKeepsInvariant(sha256, Tables(), Create(card, png, id, now));
      var asset := PutAsset(png, now);
      if asset.Err? { return Err(asset.error); }
      var isImmediate := card.displayAt.None?;
      var displayAt := if isImmediate then now else card.displayAt.value;
      var guaranteed := IsExactDeliveryGuaranteed(card.displayAt, now);
      if HasJob(jobs, id) { return Err(Integrity); }
      if isImmediate {
        jobs := SupersedePending(jobs);
      }
      var job := JobRow(id, card.title, card.body, card.style, now, displayAt, card.expiresAt,
                        isImmediate, guaranteed, Pending, asset.value.sha);
      jobs := jobs + [job];
      version := version + 1;
      return Ok(job);
    }

    method ExpireJobs(now: int)
      requires Valid()
      modifies this`jobs, this`version
      ensures Valid() && Evolves(old(Tables()), Tables())
      ensures Tables() == JobTable.ExpireJobs(old(Tables()), now)
    {
      ExpireStep(sha256, Tables(), now);
      if exists i :: 0 <= i < |jobs| && Lapsed(jobs[i], now) {
        jobs := ExpireRows(jobs, now);
        version := version + 1;
      }
    }

    /** The immediate job, then the greedy pass over the scheduled ones, as the loop of `build_manifest` makes it. */
    method SelectRows(first: seq<ManifestJob>, scheduled: seq<ManifestJob>, limit: nat) returns (rows: seq<ManifestJob>)
      ensures rows == Take(first, scheduled, limit)
    {
      rows := first;
      var totalAssetBytes := if first == [] then 0 else AssetBytes(first);
      var next := 0;
      while next < |scheduled|
        invariant 0 <= next <= |scheduled|
        invariant rows == Take(first, scheduled[..next], limit)
        invariant totalAssetBytes == AssetBytes(rows)
      {
        var row := scheduled[next];
        assert scheduled[..next + 1][..next] == scheduled[..next];
        if |rows| >= limit {
          TakeWhenFull(first, scheduled, limit, next);
          return;
        }
        if totalAssetBytes + row.size <= MAX_MANIFEST_ASSET_BYTES {
          assert (rows + [row])[..|rows|] == rows;
          rows := rows + [row];
          totalAssetBytes := totalAssetBytes + row.size;
        }
        next := next + 1;
      }
      assert scheduled[..|scheduled|] == scheduled;
    }

    method BuildManifest(device: string, now: int, limit: int) returns (result: Result<GatewayManifest, StoreError>)
      requires Valid()
      modifies this`jobs, this`version
      ensures Valid() && Evolves(old(Tables()), Tables())
      ensures (Tables(), result) == JobTable.BuildManifest(old(Tables()), device, now, limit)
    {
      if limit <= 0 || limit > MAX_MANIFEST_JOBS { return Err(Validation); }
      if device !in devices { return Err(NotFound); }
      ExpireJobs(now);
      var tables := Store(version, devices, assets, files, jobs, acks, generations);
      var rows := SelectRows(First(tables), Scheduled(tables, now), limit);
      var pages := ToManifestPages(tables, ActivePages(generations));
      return Ok(GatewayManifest(now, version, NextRegularSync(now, DEFAULT_POLL_INTERVAL_SECONDS), rows, pages));
    }

    method Acknowledge(device: string, job: string, state: Status, message: string, now: int)
      returns (result: Result<AckResult, StoreError>)
      requires Valid()
      modifies this`jobs, this`acks, this`version
      ensures Valid() && Evolves(old(Tables()), Tables())
      ensures (Tables(), result) == JobTable.Acknowledge(old(Tables()), device, job, state, message, now)
    {
      ghost var before := Tables();
      result := AcknowledgeRows(device, job, state, message, now);
      StepKeepsInvariant(sha256, before, Ack(device, job, state, message, now));
    }

    /** The body of the acknowledgement's transaction. */
    method AcknowledgeRows(device: string, job: string, state: Status, message: string, now: int)
      returns (result: Result<AckResult, StoreError>)
      modifies this`jobs, this`acks, this`version
      ensures (Tables(), result) == JobTable.Acknowledge(old(Tables()), device, job, state, message, now)
    {
      if !state.Acked() { return Err(Validation); }
      if !ValidMessage(message) { return Err(Validation); }
      if device !in devices { return Err(NotFound); }
      var row := FindJob(jobs, job);
      if row.None? { return Err(NotFound); }
      if HasAck(acks, device, job, state) { return Ok(AckResult(false, state)); }
      if row.value.status.Acked() || row.value.status == Expired { return Err(InvalidTransition); }
      acks := acks + [AckRow(device, job, state, message, now)];
      jobs := SetStatus(jobs, job, state);
      version := version + 1;
      return Ok(AckResult(true, state));
    }

    /** Files the pages' assets in order, each in its own transaction, up to the first failure. */
    method PutPageAssets(pages: seq<BundlePage>, now: int) returns (result: Result<seq<AssetRecord>, StoreError>)
      requires Valid()
      modifies this`files, this`assets
      ensures (Tables(), result) == PutPages(sha256, old(Tables()), pages, now)
    {
      ghost var before := Tables();
      var records: seq<AssetRecord> := [];
      var next := 0;
      while next < |pages|
        invariant 0 <= next <= |pages|
        invariant Valid()
        invariant (Tables(), Result<seq<AssetRecord>, StoreError>.Ok(records))
               == PutPages(sha256, before, pages[..next], now)
      {
        var asset := PutAsset(pages[next].png, now);
        assert pages[..next + 1][..next] == pages[..next];
        if asset.Err? {
          PutPagesFails(sha256, before, pages, now, next + 1);
          return Err(asset.error);
        }
        records := records + [asset.value];
        next := next + 1;
      }
      assert pages[..next] == pages;
      return Ok(records);
    }

    method ActivatePulseBundle(bundle: PulseBundle, now: int) returns (result: Result<nat, StoreError>)
      requires Valid()
      modifies this
      ensures Valid() && Evolves(old(Tables()), Tables())
      ensures (Tables(), result) == JobTable.ActivatePulse(sha256, old(Tables()), bundle, now)
    {
      ghost var before := Tables();
      result := ActivateRows(bundle, now);
      StepKeepsInvariant(sha256, before, Activate(bundle, now));
    }

    /** The body of `activate_pulse_bundle`. */
    method ActivateRows(bundle: PulseBundle, now: int) returns (result: Result<nat, StoreError>)
      requires Valid()
      modifies this`files, this`assets, this`generations, this`version
      ensures (Tables(), result) == JobTable.ActivatePulse(sha256, old(Tables()), bundle, now)
    {
      if !ExpectedNames(bundle.pages) { return Err(Validation); }
      PutPagesCount(sha256, Tables(), bundle.pages, now);
      var records := PutPageAssets(bundle.pages, now);
      if records.Err? { return Err(records.error); }
      if TotalSize(records.value) > MAX_MANIFEST_ASSET_BYTES { return Err(Validation); }
      if !AllowedIndexes(bundle.pages) { return Err(Integrity); }
      generations :=
        Deactivated(generations) + [Generation(bundle.generatedAt, true, PageRows(bundle.pages, records.value))];
      version := version + 1;
      return Ok(|generations|);
    }

    /** The status of a job, in the store's current tables. */
    method JobStatus(id: string) returns (result: Result<Status, StoreError>)
      requires Valid()
      ensures result.Ok? <==> HasJob(jobs, id)
      ensures result.Ok? ==> exists i :: 0 <= i < |jobs| && jobs[i].id == id && jobs[i].status == result.value
      ensures result.Err? ==> result.error == NotFound
    {
      var row := FindJob(jobs, id);
      if row.None? { return Err(NotFound); }
      return Ok(row.value.status);
    }
  }

  lemma {:induction false} TakeWhenFull(first: seq<ManifestJob>, scheduled: seq<ManifestJob>, limit: nat, from: nat)
    requires from <= |scheduled|
    requires |Take(first, scheduled[..from], limit)| >= limit
    ensures Take(first, scheduled, limit) == Take(first, scheduled[..from], limit)
    decreases |scheduled|
  {
    if from < |scheduled| {
      var last := |scheduled| - 1;
      assert scheduled[..last][..from] == scheduled[..from];
      TakeWhenFull(first, scheduled[..last], limit, from);
    } else {
      assert scheduled[..from] == scheduled;
    }
  }

  lemma {:induction false} PutPagesFails(h: Digest, s: Store, pages: seq<BundlePage>, now: int, upTo: nat)
    requires upTo <= |pages|
    requires PutPages(h, s, pages[..upTo], now).1.Err?
    ensures PutPages(h, s, pages, now) == PutPages(h, s, pages[..upTo], now)
    decreases |pages|
  {
    if upTo < |pages| {
      var last := |pages| - 1;
      assert pages[..last][..upTo] == pages[..upTo];
      PutPagesFails(h, s, pages[..last], now, upTo);
    } else {
      assert pages[..upTo] == pages;
    }
  }
}
