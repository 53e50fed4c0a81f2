/**
 * Gateway and device together: every interleaving of transactions, manifests built and lost, messages
 * lost, repeated and delivered late, file operations, and power losses.
 */
module DisplaySystem {
  import opened Wrappers
  import opened Bytes
  import JobTable
  import opened JobTableLaws
  import opened ManifestSelection
  import opened ManifestDoc
  import opened ManifestContract
  import opened DeviceProtocol

  type Store = JobTable.Store

  /** The gateway's tables, every manifest document it has answered with, and the device. */
  datatype System = System(gateway: Store, issued: seq<Json>, device: Device)

  const INITIAL := System(JobTable.EMPTY_STORE, [], NEW_DEVICE)

  datatype Action =
    | Transact(op: JobTable.Op)
    | Issue(device: string, now: int, limit: int)
    | Deliver(device: string, ack: AckMessage, message: string, now: int)
    | Device(move: Move)

  predicate InUniverse(universe: set<Bytes>, op: JobTable.Op) {
    match op
    case Create(_, png, _, _) => png in universe
    case Activate(bundle, _) => forall i :: 0 <= i < |bundle.pages| ==> bundle.pages[i].png in universe
    case _ => true
  }

  /** The acknowledgement state a message names; any other text is refused. */
  function NamedState(state: string): JobTable.Status {
    if state == DISPLAYED then JobTable.Displayed
    else if state == "failed" then JobTable.Failed
    else JobTable.Pending
  }

  ghost predicate Next(h: Digest, universe: set<Bytes>, s: System, action: Action, t: System) {
    match action
    case Transact(op) =>
      && !op.Ack? && !op.Build? && Admitted(op) && InUniverse(universe, op)
      && t == s.(gateway := JobTable.Apply(h, s.gateway, op))
    case Issue(device, now, limit) =>
      var (gateway, answer) := JobTable.BuildManifest(s.gateway, device, now, limit);
      t == s.(gateway := gateway, issued := if answer.Ok? then s.issued + [GatewayDoc(answer.value)] else s.issued)
    case Deliver(device, ack, message, now) =>
      && ack in s.device.outbox
      && t == s.(gateway := JobTable.Acknowledge(s.gateway, device, ack.job, NamedState(ack.state), message, now).0)
    case Device(move) =>
      && Step(h, universe, s.device, move, t.device) && t == s.(device := t.device)
      && (move.Hear? ==> move.doc in s.issued)
  }

  ghost predicate IsSystemRun(h: Digest, universe: set<Bytes>, states: seq<System>, actions: seq<Action>) {
    && |states| == |actions| + 1
    && states[0] == INITIAL
    && forall i {:trigger actions[i]} :: 0 <= i < |actions| ==> Next(h, universe, states[i], actions[i], states[i + 1])
  }

  /** A move of the device extends a run. */
  lemma OneMoreStep(h: Digest, universe: set<Bytes>, states: seq<System>, actions: seq<Action>, move: Move, e: Device)
    requires IsSystemRun(h, universe, states, actions)
    requires Step(h, universe, states[|states| - 1].device, move, e)
    requires move.Hear? ==> move.doc in states[|states| - 1].issued
    ensures IsSystemRun(h, universe, states + [states[|states| - 1].(device := e)], actions + [Action.Device(move)])
  {
    var s := states[|states| - 1];
    var longer, more := states + [s.(device := e)], actions + [Action.Device(move)];
    forall i | 0 <= i < |more|
      ensures Next(h, universe, longer[i], more[i], longer[i + 1])
    {
      if i < |actions| {
        assert more[i] == actions[i] && longer[i] == states[i] && longer[i + 1] == states[i + 1];
      }
    }
  }

  // ------------------------------------------------------------------ the invariant

  /** A listed job is one of the gateway's rows, with that row's asset. */
  ghost predicate RowFor(gateway: Store, job: JobTable.ManifestJob) {
    exists row ::
      && row in gateway.jobs && row.id == job.id && row.sha == job.sha
      && row.sha in gateway.assets && gateway.assets[row.sha].size == job.size
  }

  ghost predicate ListsRows(gateway: Store, m: JobTable.GatewayManifest) {
    forall k :: 0 <= k < |m.jobs| ==> RowFor(gateway, m.jobs[k])
  }

  ghost predicate IssuedDoc(gateway: Store, doc: Json) {
    exists m :: doc == GatewayDoc(m) && GatewayMade(m) && ListsOnceAlive(m) && ListsRows(gateway, m)
  }

  ghost predicate IssuedInv(gateway: Store, issued: seq<Json>) {
    forall i :: 0 <= i < |issued| ==> IssuedDoc(gateway, issued[i])
  }

  ghost predicate RowHonest(shown: seq<Shown>, row: JobTable.JobRow) {
    row.status != JobTable.Failed && (row.status == JobTable.Displayed ==> WasShown(shown, row.id))
  }

  ghost predicate RowsHonest(shown: seq<Shown>, jobs: seq<JobTable.JobRow>) {
    forall i :: 0 <= i < |jobs| ==> RowHonest(shown, jobs[i])
  }

  ghost predicate FilesWithin(universe: set<Bytes>, gateway: Store) {
    forall sha :: sha in gateway.files ==> gateway.files[sha] in universe
  }

  ghost predicate HeardWithin(heard: set<Json>, issued: seq<Json>) {
    forall doc :: doc in heard ==> doc in issued
  }

  ghost predicate SystemInv(h: Digest, universe: set<Bytes>, s: System) {
    && StoreInv(h, s.gateway) && AdmittedStore(s.gateway) && FilesWithin(universe, s.gateway)
    && DeviceInv(h, universe, s.device)
    && HeardWithin(s.device.heard, s.issued)
    && IssuedInv(s.gateway, s.issued)
    && RowsHonest(s.device.shown, s.gateway.jobs)
  }

  lemma RowForStays(a: Store, b: Store, job: JobTable.ManifestJob)
    requires Evolves(a, b) && RowFor(a, job)
    ensures RowFor(b, job)
  {
    var row :| row in a.jobs && row.id == job.id && row.sha == job.sha
               && row.sha in a.assets && a.assets[row.sha].size == job.size;
    var i :| 0 <= i < |a.jobs| && a.jobs[i] == row;
    assert RowEvolves(a.jobs[i], b.jobs[i]);
    assert b.jobs[i] in b.jobs;
  }

  lemma IssuedStays(a: Store, b: Store, issued: seq<Json>)
    requires Evolves(a, b) && IssuedInv(a, issued)
    ensures IssuedInv(b, issued)
  {
    forall i | 0 <= i < |issued|
      ensures IssuedDoc(b, issued[i])
    {
      assert IssuedDoc(a, issued[i]);
      var m :| issued[i] == GatewayDoc(m) && GatewayMade(m) && ListsOnceAlive(m) && ListsRows(a, m);
      forall k | 0 <= k < |m.jobs|
        ensures RowFor(b, m.jobs[k])
      {
        RowForStays(a, b, m.jobs[k]);
      }
    }
  }

  // ---- gateway actions

  lemma {:induction false} PagesFiled(h: Digest, universe: set<Bytes>, s: Store,
                                      pages: seq<JobTable.BundlePage>, now: int)
    requires FilesWithin(universe, s) && forall i :: 0 <= i < |pages| ==> pages[i].png in universe
    ensures FilesWithin(universe, JobTable.PutPages(h, s, pages, now).0)
  {
    if pages != [] { PagesFiled(h, universe, s, pages[..|pages| - 1], now); }
  }

  lemma TransactFiles(h: Digest, universe: set<Bytes>, s: Store, op: JobTable.Op)
    requires FilesWithin(universe, s) && InUniverse(universe, op)
    ensures FilesWithin(universe, JobTable.Apply(h, s, op))
  {
    match op
    case Activate(bundle, now) => PagesFiled(h, universe, s, bundle.pages, now);
    case _ =>
  }

  lemma {:induction false} PagesKeepJobs(h: Digest, s: Store, pages: seq<JobTable.BundlePage>, now: int)
    ensures JobTable.PutPages(h, s, pages, now).0.jobs == s.jobs
  {
    if pages != [] { PagesKeepJobs(h, s, pages[..|pages| - 1], now); }
  }

  lemma CreatedRows(h: Digest, s: Store, op: JobTable.Op, shown: seq<Shown>)
    requires RowsHonest(shown, s.jobs) && op.Create?
    ensures RowsHonest(shown, JobTable.Apply(h, s, op).jobs)
  {
    var jobs := JobTable.Apply(h, s, op).jobs;
    forall i | 0 <= i < |jobs|
      ensures RowHonest(shown, jobs[i])
    {
      if i < |s.jobs| { assert RowHonest(shown, s.jobs[i]); }
    }
  }

  lemma ExpiredRows(s: Store, now: int, shown: seq<Shown>)
    requires RowsHonest(shown, s.jobs)
    ensures RowsHonest(shown, JobTable.ExpireJobs(s, now).jobs)
  {
    forall i | 0 <= i < |s.jobs|
      ensures RowHonest(shown, JobTable.ExpireJobs(s, now).jobs[i])
    {
      assert RowHonest(shown, s.jobs[i]);
    }
  }

  /** No transaction other than an acknowledgement makes a row displayed or failed. */
  lemma TransactRows(h: Digest, s: Store, op: JobTable.Op, shown: seq<Shown>)
    requires RowsHonest(shown, s.jobs) && !op.Ack?
    ensures RowsHonest(shown, JobTable.Apply(h, s, op).jobs)
  {
    match op
    case Activate(bundle, now) => PagesKeepJobs(h, s, bundle.pages, now);
    case Create(_, _, _, _) => CreatedRows(h, s, op, shown);
    case Build(_, now, _) => ExpiredRows(s, now, shown);
    case _ =>
  }

  /** A gateway that evolved within its own invariants leaves the whole system's invariant standing. */
  lemma GatewayAdvances(h: Digest, universe: set<Bytes>, s: System, gateway: Store)
    requires SystemInv(h, universe, s) && Evolves(s.gateway, gateway)
    requires StoreInv(h, gateway) && AdmittedStore(gateway) && FilesWithin(universe, gateway)
    requires RowsHonest(s.device.shown, gateway.jobs)
    ensures SystemInv(h, universe, s.(gateway := gateway))
  {
    IssuedStays(s.gateway, gateway, s.issued);
  }

  lemma TransactStep(h: Digest, universe: set<Bytes>, s: System, action: Action, t: System)
    requires SystemInv(h, universe, s) && Next(h, universe, s, action, t) && action.Transact?
    ensures SystemInv(h, universe, t) && Evolves(s.gateway, t.gateway)
  {
    JobTableLaws.StepKeepsInvariant(h, s.gateway, action.op);
    AdmittedStep(h, s.gateway, action.op);
    TransactFiles(h, universe, s.gateway, action.op);
    TransactRows(h, s.gateway, action.op, s.device.shown);
    GatewayAdvances(h, universe, s, t.gateway);
  }

  lemma BuiltDoc(h: Digest, s: Store, device: string, now: int, limit: int)
    requires StoreInv(h, s) && AdmittedStore(s) && WritesLowerHex(h)
    requires JobTable.BuildManifest(s, device, now, limit).1.Ok?
    ensures IssuedDoc(JobTable.ExpireJobs(s, now), GatewayDoc(JobTable.BuildManifest(s, device, now, limit).1.value))
  {
    var t := JobTable.ExpireJobs(s, now);
    var m := JobTable.BuildManifest(s, device, now, limit).1.value;
    BuiltIsGatewayMade(h, s, device, now, limit);
    BuiltListsOnceAlive(h, s, device, now, limit);
    ListedArePending(t, now, limit);
    forall k | 0 <= k < |m.jobs|
      ensures RowFor(t, m.jobs[k])
    {
      assert StandsForPending(t, m.jobs[k]);
    }
  }

  lemma IssuedMore(h: Digest, universe: set<Bytes>, s: System, doc: Json)
    requires SystemInv(h, universe, s) && IssuedDoc(s.gateway, doc)
    ensures SystemInv(h, universe, s.(issued := s.issued + [doc]))
  {
    assert forall d :: d in s.issued ==> d in s.issued + [doc];
  }

  lemma BuildIsApplied(h: Digest, s: Store, device: string, now: int, limit: int)
    ensures JobTable.BuildManifest(s, device, now, limit).0 == JobTable.Apply(h, s, JobTable.Build(device, now, limit))
    ensures JobTable.BuildManifest(s, device, now, limit).1.Ok? ==>
              JobTable.BuildManifest(s, device, now, limit).0 == JobTable.ExpireJobs(s, now)
  {
  }

  lemma BuiltGateway(h: Digest, universe: set<Bytes>, s: System, op: JobTable.Op)
    requires SystemInv(h, universe, s) && op.Build?
    ensures SystemInv(h, universe, s.(gateway := JobTable.Apply(h, s.gateway, op)))
    ensures Evolves(s.gateway, JobTable.Apply(h, s.gateway, op))
  {
    JobTableLaws.StepKeepsInvariant(h, s.gateway, op);
    AdmittedStep(h, s.gateway, op);
    TransactRows(h, s.gateway, op, s.device.shown);
    TransactFiles(h, universe, s.gateway, op);
    GatewayAdvances(h, universe, s, JobTable.Apply(h, s.gateway, op));
  }

  lemma IssueStep(h: Digest, universe: set<Bytes>, s: System, action: Action, t: System)
    requires SystemInv(h, universe, s) && WritesLowerHex(h) && Next(h, universe, s, action, t) && action.Issue?
    ensures SystemInv(h, universe, t) && Evolves(s.gateway, t.gateway)
  {
    var device, now, limit := action.device, action.now, action.limit;
    var (gateway, answer) := JobTable.BuildManifest(s.gateway, device, now, limit);
    BuildIsApplied(h, s.gateway, device, now, limit);
    BuiltGateway(h, universe, s, JobTable.Build(device, now, limit));
    if answer.Ok? {
      assert IssuedDoc(gateway, GatewayDoc(answer.value)) by { BuiltDoc(h, s.gateway, device, now, limit); }
      IssuedMore(h, universe, s.(gateway := gateway), GatewayDoc(answer.value));
    }
  }

  lemma AckedRowsHonest(s: Store, device: string, job: string, message: string, now: int, shown: seq<Shown>)
    requires RowsHonest(shown, s.jobs) && WasShown(shown, job)
    ensures RowsHonest(shown, JobTable.Acknowledge(s, device, job, JobTable.Displayed, message, now).0.jobs)
  {
    var jobs := JobTable.SetStatus(s.jobs, job, JobTable.Displayed);
    forall i | 0 <= i < |jobs|
      ensures RowHonest(shown, jobs[i])
    {
      assert RowHonest(shown, s.jobs[i]);
    }
  }

  lemma OutboxAck(d: Device, ack: AckMessage)
    requires AckInv(d) && ack in d.outbox
    ensures NamedState(ack.state) == JobTable.Displayed && WasShown(d.shown, ack.job)
  {
  }

  /** Delivering a message of the outbox is the acknowledgement of a job that was shown. */
  lemma DeliverIs(h: Digest, universe: set<Bytes>, s: System, action: Action, t: System, op: JobTable.Op)
    requires AckInv(s.device) && Next(h, universe, s, action, t) && action.Deliver?
    requires op == JobTable.Ack(action.device, action.ack.job, JobTable.Displayed, action.message, action.now)
    ensures t == s.(gateway := JobTable.Apply(h, s.gateway, op)) && WasShown(s.device.shown, op.job)
  {
    OutboxAck(s.device, action.ack);
  }

  lemma DeliverStep(h: Digest, universe: set<Bytes>, s: System, action: Action, t: System)
    requires SystemInv(h, universe, s) && Next(h, universe, s, action, t) && action.Deliver?
    ensures SystemInv(h, universe, t) && Evolves(s.gateway, t.gateway)
  {
    var op := JobTable.Ack(action.device, action.ack.job, JobTable.Displayed, action.message, action.now);
    DeliverIs(h, universe, s, action, t, op);
    DeliveredGateway(h, universe, s.gateway, op, s.device.shown);
    GatewayAdvances(h, universe, s, JobTable.Apply(h, s.gateway, op));
  }

  lemma DeliveredGateway(h: Digest, universe: set<Bytes>, s: Store, op: JobTable.Op, shown: seq<Shown>)
    requires StoreInv(h, s) && AdmittedStore(s) && FilesWithin(universe, s) && RowsHonest(shown, s.jobs)
    requires op.Ack? && op.state == JobTable.Displayed && WasShown(shown, op.job)
    ensures var t := JobTable.Apply(h, s, op);
            && Evolves(s, t) && StoreInv(h, t) && AdmittedStore(t) && FilesWithin(universe, t)
            && RowsHonest(shown, t.jobs)
  {
    JobTableLaws.StepKeepsInvariant(h, s, op);
    AdmittedStep(h, s, op);
    AckedRowsHonest(s, op.device, op.job, op.message, op.now, shown);
    TransactFiles(h, universe, s, op);
  }

  // ---- device actions

  lemma StepGrows(h: Digest, universe: set<Bytes>, d: Device, move: Move, e: Device)
    requires Step(h, universe, d, move, e)
    ensures d.shown <= e.shown
    ensures e.heard == if move.Hear? then d.heard + {move.doc} else d.heard
  {
  }

  lemma DeviceStep(h: Digest, universe: set<Bytes>, s: System, action: Action, t: System)
    requires SystemInv(h, universe, s) && CollisionFree(h, universe)
    requires Next(h, universe, s, action, t) && action.Device?
    ensures SystemInv(h, universe, t) && t.gateway == s.gateway
  {
    DeviceProtocol.StepKeepsInvariant(h, universe, s.device, action.move, t.device);
    StepGrows(h, universe, s.device, action.move, t.device);
    forall i | 0 <= i < |t.gateway.jobs|
      ensures RowHonest(t.device.shown, t.gateway.jobs[i])
    {
      assert RowHonest(s.device.shown, s.gateway.jobs[i]);
    }
  }

  lemma NextKeepsInvariant(h: Digest, universe: set<Bytes>, s: System, action: Action, t: System)
    requires SystemInv(h, universe, s) && WritesLowerHex(h) && CollisionFree(h, universe)
    requires Next(h, universe, s, action, t)
    ensures SystemInv(h, universe, t) && Evolves(s.gateway, t.gateway)
  {
    match action
    case Transact(_) => TransactStep(h, universe, s, action, t);
    case Issue(_, _, _) => IssueStep(h, universe, s, action, t);
    case Deliver(_, _, _, _) => DeliverStep(h, universe, s, action, t);
    case Device(_) =>
      DeviceStep(h, universe, s, action, t);
      EvolvesReflexive(s.gateway);
  }

  lemma {:induction false} RunKeepsSystemInv(h: Digest, universe: set<Bytes>, states: seq<System>,
                                             actions: seq<Action>, i: nat)
    requires IsSystemRun(h, universe, states, actions) && WritesLowerHex(h) && CollisionFree(h, universe)
    requires i < |states|
    ensures SystemInv(h, universe, states[i])
  {
    if i == 0 {
      NewDeviceInv(h, universe);
    } else {
      RunKeepsSystemInv(h, universe, states, actions, i - 1);
      assert Next(h, universe, states[i - 1], actions[i - 1], states[i]);
      NextKeepsInvariant(h, universe, states[i - 1], actions[i - 1], states[i]);
    }
  }

  lemma RunStep(h: Digest, universe: set<Bytes>, states: seq<System>, actions: seq<Action>, i: nat)
    requires IsSystemRun(h, universe, states, actions) && WritesLowerHex(h) && CollisionFree(h, universe)
    requires i < |actions|
    ensures Next(h, universe, states[i], actions[i], states[i + 1])
    ensures SystemInv(h, universe, states[i]) && Evolves(states[i].gateway, states[i + 1].gateway)
  {
    RunKeepsSystemInv(h, universe, states, actions, i);
    NextKeepsInvariant(h, universe, states[i], actions[i], states[i + 1]);
  }

  lemma RunAdvances(h: Digest, universe: set<Bytes>, states: seq<System>, actions: seq<Action>, i: nat)
    requires IsSystemRun(h, universe, states, actions) && WritesLowerHex(h) && CollisionFree(h, universe)
    requires i < |actions|
    ensures Evolves(states[i].gateway, states[i + 1].gateway) && states[i].issued <= states[i + 1].issued
  {
    RunStep(h, universe, states, actions, i);
    IssuedIsKept(h, universe, states[i], actions[i], states[i + 1]);
  }

  lemma IssuedIsKept(h: Digest, universe: set<Bytes>, s: System, action: Action, t: System)
    requires Next(h, universe, s, action, t)
    ensures s.issued <= t.issued
  {
  }

  ghost predicate GatewayChain(states: seq<System>) {
    forall i :: 0 < i < |states| ==> Evolves(states[i - 1].gateway, states[i].gateway)
  }

  lemma {:induction false} ChainEvolves(states: seq<System>, i: nat, j: nat)
    requires GatewayChain(states) && i <= j < |states|
    ensures Evolves(states[i].gateway, states[j].gateway)
    decreases j - i
  {
    if i == j {
      EvolvesReflexive(states[i].gateway);
    } else {
      ChainEvolves(states, i, j - 1);
      EvolvesTransitive(states[i].gateway, states[j - 1].gateway, states[j].gateway);
    }
  }

  lemma RunEvolvesGateway(h: Digest, universe: set<Bytes>, states: seq<System>, actions: seq<Action>, i: nat, j: nat)
    requires IsSystemRun(h, universe, states, actions) && WritesLowerHex(h) && CollisionFree(h, universe)
    requires i <= j < |states|
    ensures Evolves(states[i].gateway, states[j].gateway)
  {
    assert GatewayChain(states) by {
      forall k | 0 < k < |states|
        ensures Evolves(states[k - 1].gateway, states[k].gateway)
      {
        RunAdvances(h, universe, states, actions, k - 1);
      }
    }
    ChainEvolves(states, i, j);
  }

  // ------------------------------------------------------------------ what every run guarantees

  /** A job the device heard of is a row of the gateway, with that row's asset. */
  lemma HeardIsRow(h: Digest, universe: set<Bytes>, s: System, id: string, asset: AssetRef)
    requires SystemInv(h, universe, s) && HeardJob(s.device.heard, id, asset)
    ensures exists row ::
      && row in s.gateway.jobs && row.id == id && row.sha == asset.sha
      && row.sha in s.gateway.assets && s.gateway.assets[row.sha].size == asset.size
  {
    var doc, k: nat :|
      && doc in s.device.heard && Validate(doc, Some([])).Some? && k < |Validate(doc, Some([])).value.jobs|
      && Validate(doc, Some([])).value.jobs[k].id == id
      && Validate(doc, Some([])).value.jobs[k].sha == asset.sha
      && Validate(doc, Some([])).value.jobs[k].size == asset.size;
    var n :| 0 <= n < |s.issued| && s.issued[n] == doc;
    assert IssuedDoc(s.gateway, s.issued[n]);
    var m :| doc == GatewayDoc(m) && GatewayMade(m) && ListsOnceAlive(m) && ListsRows(s.gateway, m);
    GatewayDocReads(m, Some([]));
    assert Validate(doc, Some([])).value.jobs[k] == DeviceJob(m.jobs[k], Some([]));
    assert RowFor(s.gateway, m.jobs[k]);
  }

  lemma OneRowPerId(jobs: seq<JobTable.JobRow>, row: JobTable.JobRow, k: nat)
    requires UniqueIds(jobs) && row in jobs && k < |jobs| && row.id == jobs[k].id
    ensures row == jobs[k]
  {
    var r :| 0 <= r < |jobs| && jobs[r] == row;
  }

  /** Two payloads of the universe that the gateway's row ties to one digest are the same PNG. */
  lemma DisplayedRow(h: Digest, universe: set<Bytes>, s: System, k: nat)
    requires SystemInv(h, universe, s) && CollisionFree(h, universe)
    requires k < |s.gateway.jobs| && WasShown(s.device.shown, s.gateway.jobs[k].id)
    ensures s.gateway.jobs[k].sha in s.gateway.files
    ensures Shown(s.gateway.jobs[k].id, s.gateway.files[s.gateway.jobs[k].sha]) in s.device.shown
  {
    var job := s.gateway.jobs[k];
    var png :| Shown(job.id, png) in s.device.shown;
    HeardIsRow(h, universe, s, job.id, AssetRef(h(png), |png|));
    var row :| row in s.gateway.jobs && row.id == job.id && row.sha == h(png);
    OneRowPerId(s.gateway.jobs, row, k);
    assert AssetIntact(h, s.gateway.assets, s.gateway.files, job.sha);
    assert h(s.gateway.files[job.sha]) == h(png);
  }

  /**
   * Displayed means displayed. In every state of every run, with lost and repeated messages and power
   * losses anywhere, a job the gateway records as displayed was shown by the device as exactly the
   * PNG the gateway stores for that job; and none is recorded failed, since no device says so.
   */
  lemma DisplayedMeansShown(h: Digest, universe: set<Bytes>, states: seq<System>, actions: seq<Action>, i: nat, k: nat)
    requires IsSystemRun(h, universe, states, actions) && WritesLowerHex(h) && CollisionFree(h, universe)
    requires i < |states| && k < |states[i].gateway.jobs|
    ensures states[i].gateway.jobs[k].status != JobTable.Failed
    ensures states[i].gateway.jobs[k].status == JobTable.Displayed ==>
              && states[i].gateway.jobs[k].sha in states[i].gateway.files
              && Shown(states[i].gateway.jobs[k].id, states[i].gateway.files[states[i].gateway.jobs[k].sha])
                 in states[i].device.shown
  {
    var s := states[i];
    RunKeepsSystemInv(h, universe, states, actions, i);
    assert RowHonest(s.device.shown, s.gateway.jobs[k]);
    if s.gateway.jobs[k].status == JobTable.Displayed {
      DisplayedRow(h, universe, s, k);
    }
  }

  ghost predicate DocLists(doc: Json, id: string) {
    exists m, k: nat :: doc == GatewayDoc(m) && k < |m.jobs| && m.jobs[k].id == id
  }

  lemma DocDeterminesIds(a: JobTable.GatewayManifest, b: JobTable.GatewayManifest)
    requires GatewayDoc(a) == GatewayDoc(b)
    ensures |a.jobs| == |b.jobs| && forall k :: 0 <= k < |a.jobs| ==> a.jobs[k].id == b.jobs[k].id
  {
    assert Get(GatewayDoc(a), "jobs") == Some(Arr(GatewayJobItems(a.jobs)));
    assert Get(GatewayDoc(b), "jobs") == Some(Arr(GatewayJobItems(b.jobs)));
    assert GatewayJobItems(a.jobs) == GatewayJobItems(b.jobs);
    forall k | 0 <= k < |a.jobs|
      ensures a.jobs[k].id == b.jobs[k].id
    {
      assert GatewayJobItems(a.jobs)[k] == GatewayJobItem(a.jobs[k]);
      assert GatewayJobItems(b.jobs)[k] == GatewayJobItem(b.jobs[k]);
      assert Get(GatewayJobItem(a.jobs[k]), "id") == Some(Str(a.jobs[k].id));
      assert Get(GatewayJobItem(b.jobs[k]), "id") == Some(Str(b.jobs[k].id));
    }
  }

  lemma BuildOmitsFinal(h: Digest, s: Store, now: int, limit: nat, k: nat, n: nat)
    requires StoreInv(h, s) && k < |s.jobs| && s.jobs[k].status.Final()
    requires n < |JobTable.ManifestOf(JobTable.ExpireJobs(s, now), now, limit).jobs|
    ensures JobTable.ManifestOf(JobTable.ExpireJobs(s, now), now, limit).jobs[n].id != s.jobs[k].id
  {
    var t := JobTable.ExpireJobs(s, now);
    var listed := JobTable.ManifestOf(t, now, limit).jobs[n];
    ExpireStep(h, s, now);
    ListedArePending(t, now, limit);
    assert StandsForPending(t, listed);
    var row :|
      && row in t.jobs && row.status == JobTable.Pending && row.sha in t.assets
      && listed == JobTable.ToManifestJob(t, row);
    var r :| 0 <= r < |t.jobs| && t.jobs[r] == row;
    assert RowEvolves(s.jobs[k], t.jobs[k]);
    assert r != k;
  }

  /** A manifest issued now lists no job whose row is already displayed, failed or expired. */
  lemma IssueOmitsFinal(h: Digest, s: Store, device: string, now: int, limit: int, k: nat)
    requires StoreInv(h, s) && k < |s.jobs| && s.jobs[k].status.Final()
    requires JobTable.BuildManifest(s, device, now, limit).1.Ok?
    ensures !DocLists(GatewayDoc(JobTable.BuildManifest(s, device, now, limit).1.value), s.jobs[k].id)
  {
    var m := JobTable.BuildManifest(s, device, now, limit).1.value;
    forall n: nat | n < |m.jobs|
      ensures m.jobs[n].id != s.jobs[k].id
    {
      BuildOmitsFinal(h, s, now, limit, k, n);
    }
    ListsOnly(m, s.jobs[k].id);
  }

  lemma ListsOnly(m: JobTable.GatewayManifest, id: string)
    requires forall n: nat :: n < |m.jobs| ==> m.jobs[n].id != id
    ensures !DocLists(GatewayDoc(m), id)
  {
    forall other, n: nat | GatewayDoc(m) == GatewayDoc(other) && n < |other.jobs|
      ensures other.jobs[n].id != id
    {
      DocDeterminesIds(m, other);
    }
  }

  lemma IssuedOmitsFinal(h: Digest, universe: set<Bytes>, s: System, action: Action, t: System, k: nat, n: nat)
    requires StoreInv(h, s.gateway) && Next(h, universe, s, action, t)
    requires k < |s.gateway.jobs| && s.gateway.jobs[k].status.Final()
    requires |s.issued| <= n < |t.issued|
    ensures !DocLists(t.issued[n], s.gateway.jobs[k].id)
  {
    IssueOmitsFinal(h, s.gateway, action.device, action.now, action.limit, k);
  }

  lemma StepOmitsFinal(
    h: Digest, universe: set<Bytes>, states: seq<System>, actions: seq<Action>, j: nat, k: nat, n: nat)
    requires IsSystemRun(h, universe, states, actions) && WritesLowerHex(h) && CollisionFree(h, universe)
    requires j < |actions| && k < |states[j].gateway.jobs| && states[j].gateway.jobs[k].status.Final()
    requires |states[j].issued| <= n < |states[j + 1].issued|
    ensures !DocLists(states[j + 1].issued[n], states[j].gateway.jobs[k].id)
  {
    RunStep(h, universe, states, actions, j);
    IssuedOmitsFinal(h, universe, states[j], actions[j], states[j + 1], k, n);
  }

  lemma FinalRowStays(
    h: Digest, universe: set<Bytes>, states: seq<System>, actions: seq<Action>, i: nat, j: nat, k: nat)
    requires IsSystemRun(h, universe, states, actions) && WritesLowerHex(h) && CollisionFree(h, universe)
    requires i <= j < |states| && k < |states[i].gateway.jobs| && states[i].gateway.jobs[k].status.Final()
    ensures k < |states[j].gateway.jobs| && states[j].gateway.jobs[k] == states[i].gateway.jobs[k]
  {
    RunEvolvesGateway(h, universe, states, actions, i, j);
    assert RowEvolves(states[i].gateway.jobs[k], states[j].gateway.jobs[k]);
  }

  /**
   * Settled jobs leave the manifest for good: once a row is displayed, failed or expired, no manifest
   * issued later in the run lists that job.
   */
  lemma {:induction false} SettledJobsAreNotListed(
    h: Digest, universe: set<Bytes>, states: seq<System>, actions: seq<Action>, i: nat, j: nat, k: nat, n: nat)
    requires IsSystemRun(h, universe, states, actions) && WritesLowerHex(h) && CollisionFree(h, universe)
    requires i <= j < |states| && k < |states[i].gateway.jobs| && states[i].gateway.jobs[k].status.Final()
    requires |states[i].issued| <= n < |states[j].issued|
    ensures !DocLists(states[j].issued[n], states[i].gateway.jobs[k].id)
    decreases j - i
  {
    if i < j {
      FinalRowStays(h, universe, states, actions, i, j - 1, k);
      RunAdvances(h, universe, states, actions, j - 1);
      if n < |states[j - 1].issued| {
        SettledJobsAreNotListed(h, universe, states, actions, i, j - 1, k, n);
      } else {
        StepOmitsFinal(h, universe, states, actions, j - 1, k, n);
      }
    }
  }

  /**
   * Asset closure, in every state of every run and so at every crash point: each asset named by the
   * manifest a reboot would recover, and by the one in memory, is cached with its size and digest.
   */
  lemma AssetClosure(h: Digest, universe: set<Bytes>, states: seq<System>, actions: seq<Action>, i: nat)
    requires IsSystemRun(h, universe, states, actions) && WritesLowerHex(h) && CollisionFree(h, universe)
    requires i < |states|
    ensures forall asset :: asset in RecoveredRefs(states[i].device.flash.files) ==>
              Cached(h, states[i].device.flash.assets, asset)
    ensures states[i].device.loaded ==>
              forall asset :: asset in Refs(states[i].device.manifest) ==>
                Cached(h, states[i].device.flash.assets, asset)
  {
    RunKeepsSystemInv(h, universe, states, actions, i);
  }

  lemma IssuedIsPlain(gateway: Store, doc: Json)
    requires IssuedDoc(gateway, doc) && Validate(doc, Some([])).Some?
    ensures NoEmptyAsset(Validate(doc, Some([])).value)
  {
    var m :| doc == GatewayDoc(m) && GatewayMade(m) && ListsOnceAlive(m) && ListsRows(gateway, m);
    AcceptedIsPlain(m, Some([]));
  }

  /** The device may hear any manifest the gateway issued: none of them lists an empty asset. */
  lemma IssuedMayBeHeard(h: Digest, universe: set<Bytes>, states: seq<System>, actions: seq<Action>, i: nat, n: nat)
    requires IsSystemRun(h, universe, states, actions) && WritesLowerHex(h) && CollisionFree(h, universe)
    requires i < |states| && n < |states[i].issued|
    ensures Enabled(h, universe, states[i].device, Hear(states[i].issued[n]))
  {
    var doc := states[i].issued[n];
    assert IssuedDoc(states[i].gateway, doc) by { RunKeepsSystemInv(h, universe, states, actions, i); }
    if Validate(doc, Some([])).Some? { IssuedIsPlain(states[i].gateway, doc); }
  }
}
