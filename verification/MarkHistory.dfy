/**
 * What becomes of a displayed job's mark over whole runs: through further displays, synchronizations
 * and reboots, and with it the condition under which a job is shown at most once.
 */
module MarkHistory {
  import opened Wrappers
  import opened Bytes
  import opened ManifestContract
  import opened ManifestDoc
  import opened ManifestFiles
  import opened ManifestMarks
  import opened DeviceProtocol
  import opened DisplaySystem
  import WakePolicy

  /** The jobs in memory, or before loading those that a reboot recovers. */
  function Remembered(d: Device): seq<Job> {
    if d.loaded then d.manifest.jobs else RecoveredJobs(d.flash.files)
  }

  /** A manifest taken and not yet adopted was read with the flags of the one in memory. */
  ghost predicate TakenInv(d: Device) {
    d.taken.Some? ==> d.loaded && exists doc :: doc in d.heard && TookManifest(doc, d.manifest.jobs, d.taken.value)
  }

  lemma StepKeepsTaken(h: Digest, universe: set<Bytes>, d: Device, move: Move, e: Device)
    requires TakenInv(d) && Step(h, universe, d, move, e)
    ensures TakenInv(e)
  {
    if move.Take? {
      assert move.doc in e.heard && TookManifest(move.doc, d.manifest.jobs, e.taken.value);
    }
  }

  // ------------------------------------------------------------------ one step

  /** A manifest put in place on the card still lists the job. */
  ghost predicate Relists(move: Move, id: string) {
    move.Install? ==> Lists(move.m.jobs, id)
  }

  lemma WrittenIsRecovered(files: Files, m: Manifest)
    requires files.active == Some(Complete(Serialize(m))) && WellFormed(m) && NoEmptyAsset(m)
    ensures RecoveredJobs(files) == m.jobs
  {
    ReadBack(m);
  }

  /** Installing a manifest settles exactly the marks in memory of the jobs it lists. */
  lemma InstallSettles(h: Digest, universe: set<Bytes>, d: Device, m: Manifest, id: string)
    requires TakenInv(d) && Enabled(h, universe, d, Install(m)) && Marked(d.manifest.jobs, id)
    ensures Settled(After(d, Install(m)), id) <==> Lists(m.jobs, id)
  {
    WrittenIsRecovered(After(d, Install(m)).flash.files, m);
    if m != d.manifest && Lists(m.jobs, id) {
      var doc :| doc in d.heard && TookManifest(doc, d.manifest.jobs, m);
      TakeKeepsMark(doc, d.manifest.jobs, m, id);
    }
  }

  lemma LoadKeepsSettled(h: Digest, universe: set<Bytes>, d: Device, m: Manifest, id: string)
    requires Enabled(h, universe, d, Load(m)) && Settled(d, id)
    ensures Settled(After(d, Load(m)), id)
  {
    MarkedPermuted(RecoveredJobs(d.flash.files), m.jobs, id);
  }

  lemma FileMoveKeepsSettled(h: Digest, universe: set<Bytes>, d: Device, move: Move, id: string)
    requires DeviceInv(h, universe, d) && Enabled(h, universe, d, move) && MovesFiles(move) && Settled(d, id)
    ensures Settled(After(d, move), id)
  {
    FileMoveStep(h, universe, d, move);
  }

  lemma AdoptKeepsSettled(h: Digest, universe: set<Bytes>, d: Device, m: Manifest, id: string)
    requires Enabled(h, universe, d, Adopt(m)) && Settled(d, id)
    ensures Settled(After(d, Adopt(m)), id)
  {
    WrittenIsRecovered(d.flash.files, m);
  }

  lemma MarkKeepsSettled(h: Digest, universe: set<Bytes>, d: Device, jobs: seq<Job>, id: string)
    requires Enabled(h, universe, d, Mark(jobs)) && Settled(d, id)
    ensures Settled(After(d, Mark(jobs)), id)
  {
    OnlyMarksKeepsMark(d.manifest.jobs, jobs, id);
  }

  lemma OthersKeepSettled(d: Device, move: Move, id: string)
    requires !MovesFiles(move) && !move.Install? && !move.Load? && !move.Adopt? && !move.Mark?
    requires Settled(d, id)
    ensures Settled(After(d, move), id)
  {
    OthersKeepFiles(d, move);
  }

  lemma OthersKeepFiles(d: Device, move: Move)
    requires !MovesFiles(move) && !move.Install?
    ensures After(d, move).flash.files == d.flash.files
  {
  }

  /** Every move but an installation keeps a settled mark. */
  lemma MoveKeepsSettled(h: Digest, universe: set<Bytes>, d: Device, move: Move, id: string)
    requires DeviceInv(h, universe, d) && Enabled(h, universe, d, move) && Settled(d, id) && !move.Install?
    ensures Settled(After(d, move), id)
  {
    if move.Load? {
      LoadKeepsSettled(h, universe, d, move.m, id);
    } else if move.Adopt? {
      AdoptKeepsSettled(h, universe, d, move.m, id);
    } else if move.Mark? {
      MarkKeepsSettled(h, universe, d, move.jobs, id);
    } else if MovesFiles(move) {
      FileMoveKeepsSettled(h, universe, d, move, id);
    } else {
      OthersKeepSettled(d, move, id);
    }
  }

  lemma SettledIsMarked(d: Device, id: string)
    requires Settled(d, id) && d.loaded
    ensures Marked(d.manifest.jobs, id)
  {
  }

  /**
   * A settled mark stays settled through every single move, at every crash point, except exactly when a
   * manifest that does not list the job is put in place.
   */
  lemma SettledIff(h: Digest, universe: set<Bytes>, d: Device, move: Move, e: Device, id: string)
    requires DeviceInv(h, universe, d) && TakenInv(d) && Step(h, universe, d, move, e) && Settled(d, id)
    ensures Settled(e, id) <==> Relists(move, id)
  {
    if move.Install? {
      SettledIsMarked(d, id);
      InstallSettles(h, universe, d, move.m, id);
    } else {
      MoveKeepsSettled(h, universe, d, move, id);
    }
  }

  /** What a mark in memory needs of a move: to be listed by an adopted manifest, to be on the card at a reboot. */
  ghost predicate KeepsInMemory(d: Device, move: Move, id: string) {
    match move
    case Adopt(m) => Lists(m.jobs, id)
    case Reboot => Marked(RecoveredJobs(d.flash.files), id)
    case _ => true
  }

  lemma AdoptKeepsMark(h: Digest, universe: set<Bytes>, d: Device, m: Manifest, id: string)
    requires Enabled(h, universe, d, Adopt(m)) && TakenInv(d) && Marked(Remembered(d), id)
    ensures Marked(m.jobs, id) <==> Lists(m.jobs, id)
  {
    if Lists(m.jobs, id) {
      var doc :| doc in d.heard && TookManifest(doc, d.manifest.jobs, m);
      TakeKeepsMark(doc, d.manifest.jobs, m, id);
    }
  }

  lemma LoadKeepsMark(h: Digest, universe: set<Bytes>, d: Device, m: Manifest, id: string)
    requires Enabled(h, universe, d, Load(m)) && Marked(Remembered(d), id)
    ensures Marked(m.jobs, id)
  {
    MarkedPermuted(RecoveredJobs(d.flash.files), m.jobs, id);
  }

  lemma FileMovesRemember(h: Digest, universe: set<Bytes>, d: Device, move: Move)
    requires DeviceInv(h, universe, d) && Enabled(h, universe, d, move) && MovesFiles(move)
    ensures Remembered(After(d, move)) == Remembered(d)
  {
    FileMoveStep(h, universe, d, move);
  }

  lemma OtherMovesRemember(h: Digest, universe: set<Bytes>, d: Device, move: Move)
    requires Enabled(h, universe, d, move) && !MovesFiles(move)
    requires !move.Reboot? && !move.Load? && !move.Adopt? && !move.Mark?
    ensures Remembered(After(d, move)) == Remembered(d)
  {
  }

  /** A mark in memory, on the card or not, is lost by exactly two moves. */
  lemma MemoryMarkIff(h: Digest, universe: set<Bytes>, d: Device, move: Move, id: string)
    requires DeviceInv(h, universe, d) && TakenInv(d) && Enabled(h, universe, d, move)
    requires Marked(Remembered(d), id)
    ensures Marked(Remembered(After(d, move)), id) <==> KeepsInMemory(d, move, id)
  {
    if move.Load? {
      LoadKeepsMark(h, universe, d, move.m, id);
    } else if move.Adopt? {
      AdoptKeepsMark(h, universe, d, move.m, id);
    } else if move.Mark? {
      OnlyMarksKeepsMark(d.manifest.jobs, move.jobs, id);
    } else if MovesFiles(move) {
      FileMovesRemember(h, universe, d, move);
    } else if !move.Reboot? {
      OtherMovesRemember(h, universe, d, move);
    }
  }

  /** After a power loss a job is marked exactly when its mark had reached the card. */
  lemma LoadedMarkIff(h: Digest, universe: set<Bytes>, d: Device, m: Manifest, id: string)
    requires Enabled(h, universe, After(d, Reboot), Load(m))
    ensures Marked(m.jobs, id) <==> Marked(RecoveredJobs(d.flash.files), id)
  {
    MarkedPermuted(RecoveredJobs(d.flash.files), m.jobs, id);
    MarkedPermuted(m.jobs, RecoveredJobs(d.flash.files), id);
  }

  // ------------------------------------------------------------------ over runs of the system

  lemma {:induction false} RunKeepsTaken(h: Digest, universe: set<Bytes>, states: seq<System>,
                                         actions: seq<Action>, i: nat)
    requires IsSystemRun(h, universe, states, actions) && i < |states|
    ensures TakenInv(states[i].device)
  {
    if i > 0 {
      RunKeepsTaken(h, universe, states, actions, i - 1);
      assert Next(h, universe, states[i - 1], actions[i - 1], states[i]);
      if actions[i - 1].Device? {
        StepKeepsTaken(h, universe, states[i - 1].device, actions[i - 1].move, states[i].device);
      }
    }
  }

  /** Every manifest put in place from `i` to `j` lists the job. */
  ghost predicate AllRelist(actions: seq<Action>, i: nat, j: nat, id: string)
    requires i <= j <= |actions|
  {
    forall k {:trigger actions[k]} :: i <= k < j && actions[k].Device? ==> Relists(actions[k].move, id)
  }

  lemma RelistLater(actions: seq<Action>, i: nat, j: nat, id: string)
    requires i < j <= |actions| && AllRelist(actions, i, j, id)
    ensures AllRelist(actions, i + 1, j, id) && (actions[i].Device? ==> Relists(actions[i].move, id))
  {
  }

  lemma StepInRun(h: Digest, universe: set<Bytes>, states: seq<System>, actions: seq<Action>, i: nat)
    requires IsSystemRun(h, universe, states, actions) && WritesLowerHex(h) && CollisionFree(h, universe)
    requires i < |actions|
    ensures Next(h, universe, states[i], actions[i], states[i + 1])
    ensures SystemInv(h, universe, states[i]) && TakenInv(states[i].device)
  {
    RunStep(h, universe, states, actions, i);
    RunKeepsTaken(h, universe, states, actions, i);
  }

  lemma ActionSettledIff(h: Digest, universe: set<Bytes>, s: System, action: Action, t: System, id: string)
    requires SystemInv(h, universe, s) && TakenInv(s.device) && Next(h, universe, s, action, t)
    requires Settled(s.device, id)
    ensures Settled(t.device, id) <==> (action.Device? ==> Relists(action.move, id))
  {
    if action.Device? {
      SettledIff(h, universe, s.device, action.move, t.device, id);
    }
  }

  lemma {:induction false} MarkStays(
    h: Digest, universe: set<Bytes>, states: seq<System>, actions: seq<Action>, i: nat, j: nat, id: string)
    requires IsSystemRun(h, universe, states, actions) && WritesLowerHex(h) && CollisionFree(h, universe)
    requires i <= j < |states| && Settled(states[i].device, id) && AllRelist(actions, i, j, id)
    ensures Settled(states[j].device, id)
    decreases j - i
  {
    if i < j {
      MarkStays(h, universe, states, actions, i, j - 1, id);
      StepInRun(h, universe, states, actions, j - 1);
      ActionSettledIff(h, universe, states[j - 1], actions[j - 1], states[j], id);
    }
  }

  /**
   * Marks survive. Over every run, through displays, synchronizations, failed writes, lost messages and a
   * power loss at any point, a mark that reached the card is there in every later state exactly as long
   * as every manifest put in place lists the job.
   */
  lemma MarkSurvives(
    h: Digest, universe: set<Bytes>, states: seq<System>, actions: seq<Action>, i: nat, j: nat, id: string)
    requires IsSystemRun(h, universe, states, actions) && WritesLowerHex(h) && CollisionFree(h, universe)
    requires i <= j < |states| && Settled(states[i].device, id)
    ensures (forall k :: i <= k <= j ==> Settled(states[k].device, id)) <==> AllRelist(actions, i, j, id)
  {
    if AllRelist(actions, i, j, id) {
      forall k | i <= k <= j
        ensures Settled(states[k].device, id)
      {
        MarkStays(h, universe, states, actions, i, k, id);
      }
    }
    if forall k :: i <= k <= j ==> Settled(states[k].device, id) {
      forall k | i <= k < j && actions[k].Device?
        ensures Relists(actions[k].move, id)
      {
        StepInRun(h, universe, states, actions, k);
        assert Settled(states[k].device, id) && Settled(states[k + 1].device, id);
        ActionSettledIff(h, universe, states[k], actions[k], states[k + 1], id);
      }
    }
  }

  lemma ShownIsUnmarked(h: Digest, universe: set<Bytes>, d: Device, job: Job, now: int, id: string)
    requires Enabled(h, universe, d, Display(job, now)) && Settled(d, id)
    ensures job.id != id
  {
    var k :| 0 <= k < |d.manifest.jobs| && d.manifest.jobs[k] == job;
    assert job.id == id ==> job.displayed;
  }

  /** A settled job is not shown. */
  lemma SettledIsNotShown(h: Digest, universe: set<Bytes>, s: System, action: Action, t: System, id: string)
    requires Next(h, universe, s, action, t) && Settled(s.device, id)
    ensures action.Device? && action.move.Display? ==> action.move.job.id != id
  {
    if action.Device? && action.move.Display? {
      ShownIsUnmarked(h, universe, s.device, action.move.job, action.move.now, id);
    }
  }

  /** A job whose mark reached the card is not shown again while every manifest put in place lists it. */
  lemma NotShownAgain(
    h: Digest, universe: set<Bytes>, states: seq<System>, actions: seq<Action>, i: nat, j: nat, id: string)
    requires IsSystemRun(h, universe, states, actions) && WritesLowerHex(h) && CollisionFree(h, universe)
    requires i <= j < |actions| && Settled(states[i].device, id) && AllRelist(actions, i, j, id)
    ensures actions[j].Device? && actions[j].move.Display? ==> actions[j].move.job.id != id
  {
    MarkStays(h, universe, states, actions, i, j, id);
    StepInRun(h, universe, states, actions, j);
    SettledIsNotShown(h, universe, states[j], actions[j], states[j + 1], id);
  }

  // ------------------------------------------------------------------ no job is held twice

  function FileJobs(file: Option<Body>): seq<Job> {
    if Loads(file) then Validate(file.value.doc, None).value.jobs else []
  }

  /** In memory, and in every manifest file that loads, no job is listed twice. */
  ghost predicate UniqueInv(d: Device) {
    && UniqueJobIds(d.manifest.jobs)
    && UniqueJobIds(FileJobs(d.flash.files.active)) && UniqueJobIds(FileJobs(d.flash.files.backup))
  }

  /** A manifest taken from an issued document lists no job twice. */
  lemma TakenIsUnique(s: System)
    requires TakenInv(s.device) && HeardWithin(s.device.heard, s.issued) && IssuedInv(s.gateway, s.issued)
    requires s.device.taken.Some?
    ensures UniqueJobIds(s.device.taken.value.jobs)
  {
    var previous, taken := s.device.manifest.jobs, s.device.taken.value;
    var doc :| doc in s.device.heard && TookManifest(doc, previous, taken);
    var n :| 0 <= n < |s.issued| && s.issued[n] == doc;
    assert IssuedDoc(s.gateway, s.issued[n]);
    IssuedIsTakenOnce(s.gateway, doc, previous, taken);
  }

  lemma IssuedIsTakenOnce(gateway: Store, doc: Json, previous: seq<Job>, taken: Manifest)
    requires IssuedDoc(gateway, doc) && TookManifest(doc, previous, taken)
    ensures UniqueJobIds(taken.jobs)
  {
    var m :| doc == GatewayDoc(m) && GatewayMade(m) && ListsOnceAlive(m) && ListsRows(gateway, m);
    TakenIsAllListed(m, previous, taken);
  }

  lemma InstallKeepsUnique(h: Digest, universe: set<Bytes>, d: Device, m: Manifest)
    requires Enabled(h, universe, d, Install(m)) && UniqueInv(d)
    requires d.taken.Some? ==> UniqueJobIds(d.taken.value.jobs)
    ensures UniqueInv(After(d, Install(m)))
  {
    assert Validate(Serialize(m), None) == Some(m) by { ReadBack(m); }
  }

  lemma LoadKeepsUnique(h: Digest, universe: set<Bytes>, d: Device, m: Manifest)
    requires Enabled(h, universe, d, Load(m)) && UniqueInv(d)
    ensures UniqueInv(After(d, Load(m)))
  {
    if Loads(d.flash.files.active) {
      UniquePermuted(FileJobs(d.flash.files.active), m.jobs);
    } else if Loads(d.flash.files.backup) {
      UniquePermuted(FileJobs(d.flash.files.backup), m.jobs);
    }
  }

  lemma MarkKeepsUnique(h: Digest, universe: set<Bytes>, d: Device, jobs: seq<Job>)
    requires Enabled(h, universe, d, Mark(jobs)) && UniqueInv(d)
    ensures UniqueInv(After(d, Mark(jobs)))
  {
    forall i | 0 <= i < |jobs|
      ensures jobs[i].id == d.manifest.jobs[i].id
    {
      assert jobs[i].(displayed := d.manifest.jobs[i].displayed) == d.manifest.jobs[i];
    }
  }

  lemma FilesKeepUnique(h: Digest, universe: set<Bytes>, d: Device, move: Move)
    requires UniqueInv(d) && MovesFiles(move)
    ensures UniqueInv(After(d, move))
  {
  }

  lemma OthersKeepUnique(h: Digest, universe: set<Bytes>, d: Device, move: Move)
    requires UniqueInv(d) && Enabled(h, universe, d, move)
    requires !move.Install? && !move.Load? && !move.Mark? && !MovesFiles(move)
    requires d.taken.Some? ==> UniqueJobIds(d.taken.value.jobs)
    ensures UniqueInv(After(d, move))
  {
  }

  lemma StepKeepsUnique(h: Digest, universe: set<Bytes>, d: Device, move: Move, e: Device)
    requires UniqueInv(d) && Step(h, universe, d, move, e)
    requires d.taken.Some? ==> UniqueJobIds(d.taken.value.jobs)
    ensures UniqueInv(e)
  {
    if move.Install? {
      InstallKeepsUnique(h, universe, d, move.m);
    } else if move.Load? {
      LoadKeepsUnique(h, universe, d, move.m);
    } else if move.Mark? {
      MarkKeepsUnique(h, universe, d, move.jobs);
    } else if MovesFiles(move) {
      FilesKeepUnique(h, universe, d, move);
    } else {
      OthersKeepUnique(h, universe, d, move);
    }
  }

  /** In every state of every run the device holds no job twice. */
  lemma {:induction false} JobsAreUnique(h: Digest, universe: set<Bytes>, states: seq<System>,
                                         actions: seq<Action>, i: nat)
    requires IsSystemRun(h, universe, states, actions) && WritesLowerHex(h) && CollisionFree(h, universe)
    requires i < |states|
    ensures UniqueInv(states[i].device)
  {
    if i > 0 {
      JobsAreUnique(h, universe, states, actions, i - 1);
      StepInRun(h, universe, states, actions, i - 1);
      if states[i - 1].device.taken.Some? { TakenIsUnique(states[i - 1]); }
      ActionKeepsUnique(h, universe, states[i - 1], actions[i - 1], states[i]);
    }
  }

  lemma ActionKeepsUnique(h: Digest, universe: set<Bytes>, s: System, action: Action, t: System)
    requires Next(h, universe, s, action, t) && UniqueInv(s.device)
    requires s.device.taken.Some? ==> UniqueJobIds(s.device.taken.value.jobs)
    ensures UniqueInv(t.device)
  {
    if action.Device? {
      StepKeepsUnique(h, universe, s.device, action.move, t.device);
    }
  }

  /** A flag in memory is on the card after the installation of a manifest that lists the job. */
  lemma InstalledMark(
    h: Digest, universe: set<Bytes>, states: seq<System>, actions: seq<Action>, i: nat, n: nat, k: nat)
    requires IsSystemRun(h, universe, states, actions) && WritesLowerHex(h) && CollisionFree(h, universe)
    requires i < |actions| && n == i + 1 && actions[i].Device? && actions[i].move.Install?
    requires k < |states[i].device.manifest.jobs| && states[i].device.manifest.jobs[k].displayed
    requires Lists(actions[i].move.m.jobs, states[i].device.manifest.jobs[k].id)
    ensures Settled(states[n].device, states[i].device.manifest.jobs[k].id)
  {
    var d, m := states[i].device, actions[i].move.m;
    StepInRun(h, universe, states, actions, i);
    JobsAreUnique(h, universe, states, actions, i);
    MarkedWhenUnique(d.manifest.jobs, k);
    InstallSettles(h, universe, d, m, d.manifest.jobs[k].id);
  }

  /**
   * At most one display. Once a manifest is put in place while a job's flag is set in memory, that job is not
   * shown again, whatever fails and whenever power is lost, while every manifest put in place lists it.
   */
  lemma ShownOnce(
    h: Digest, universe: set<Bytes>, states: seq<System>, actions: seq<Action>, i: nat, j: nat, k: nat)
    requires IsSystemRun(h, universe, states, actions) && WritesLowerHex(h) && CollisionFree(h, universe)
    requires i < j < |actions| && actions[i].Device? && actions[i].move.Install?
    requires k < |states[i].device.manifest.jobs| && states[i].device.manifest.jobs[k].displayed
    requires AllRelist(actions, i, j, states[i].device.manifest.jobs[k].id)
    ensures actions[j].Device? && actions[j].move.Display? ==>
              actions[j].move.job.id != states[i].device.manifest.jobs[k].id
  {
    var id := states[i].device.manifest.jobs[k].id;
    RelistLater(actions, i, j, id);
    InstalledMark(h, universe, states, actions, i, i + 1, k);
    NotShownAgain(h, universe, states, actions, i + 1, j, id);
  }
}
