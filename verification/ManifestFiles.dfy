/**
 * The temp/active/backup protocol of the cached manifest, on a card where every operation may fail
 * and power may be lost between any two of them.
 *
 * `WriteTrace` lists every content the three files pass through in one `write_manifest`, for a given
 * pattern of faults; a power loss leaves the files at some point of that list.
 */
module ManifestFiles {
  import opened Wrappers
  import opened ManifestDoc
  import WakePolicy

  /** A file's content: a whole document, or bytes that do not parse. */
  datatype Body = Torn | Complete(doc: Json)

  datatype Files = Files(active: Option<Body>, backup: Option<Body>, temp: Option<Body>)

  const NO_FILES := Files(None, None, None)

  predicate Loads(file: Option<Body>) {
    file.Some? && file.value.Complete? && Validate(file.value.doc, None).Some?
  }

  /** The document `load_manifest` would use after a reboot. */
  function Recovered(files: Files): Option<Json> {
    if Loads(files.active) then Some(files.active.value.doc)
    else if Loads(files.backup) then Some(files.backup.value.doc)
    else None
  }

  /** Which operations of one `write_manifest` succeed, and what a write in progress may leave behind. */
  datatype Faults = Faults(
    dir: bool, alloc: bool, open: bool, partial: Body, write: bool,
    dropBackup: bool, retire: bool, install: bool, rollback: bool, dropTemp: bool)
  {
    predicate AllWell() {
      dir && alloc && open && write && dropBackup && retire && install
    }
  }

  const NO_FAULTS := Faults(true, true, true, Torn, true, true, true, true, true, true)

  function Abandon(files: Files, x: Faults): seq<Files> {
    if x.dropTemp then [files.(temp := None)] else []
  }

  function InstallTrace(files: Files, retired: bool, x: Faults): seq<Files> {
    if x.install then [Files(files.temp, files.backup, None)]
    else if retired && x.rollback then
      var rolledBack := Files(files.backup, None, files.temp);
      [rolledBack] + Abandon(rolledBack, x)
    else Abandon(files, x)
  }

  /** Moving the active file aside: the old backup goes first. */
  function RetireTrace(files: Files, x: Faults): seq<Files> {
    if !x.dropBackup then []
    else if !x.retire then [files.(backup := None)]
    else [files.(backup := None), Files(None, files.active, files.temp)]
  }

  function SwapTrace(staged: Files, x: Faults): seq<Files> {
    if staged.active.None? then InstallTrace(staged, false, x)
    else
      var aside := Final(staged, RetireTrace(staged, x));
      RetireTrace(staged, x) + if x.dropBackup && x.retire then InstallTrace(aside, true, x) else Abandon(aside, x)
  }

  /** What the temp file holds once writing it is over. */
  function Staged(files: Files, doc: Json, x: Faults): Files {
    files.(temp := Some(if x.write then Complete(doc) else x.partial))
  }

  /** Opening the temp file empties it; then it holds part of the document, and in the end all of it. */
  function StageTrace(files: Files, doc: Json, x: Faults): seq<Files> {
    [files.(temp := Some(Torn)), files.(temp := Some(x.partial))] + if x.write then [Staged(files, doc, x)] else []
  }

  function WriteTrace(files: Files, doc: Json, x: Faults): seq<Files> {
    if !x.dir || !x.alloc then []
    else if !x.open then Abandon(files, x)
    else
      StageTrace(files, doc, x)
      + if x.write then SwapTrace(Staged(files, doc, x), x) else Abandon(Staged(files, doc, x), x)
  }

  /** The result `write_manifest` reports. */
  predicate WriteReports(files: Files, x: Faults) {
    && x.dir && x.alloc && x.open && x.write && x.install
    && (files.active.Some? ==> x.dropBackup && x.retire)
  }

  function Final(files: Files, trace: seq<Files>): Files {
    if trace == [] then files else trace[|trace| - 1]
  }

  lemma FinalConcat(files: Files, a: seq<Files>, b: seq<Files>)
    ensures Final(files, a + b) == Final(Final(files, a), b)
  {
  }

  // ------------------------------------------------------------------ crash atomicity

  /** An active file that is there but does not load must not be hiding a backup that does. */
  predicate Intact(files: Files) {
    files.active.None? || Loads(files.active) || !Loads(files.backup)
  }

  ghost predicate OldOrNew(files: Files, doc: Json, now: Files) {
    Recovered(now) == Recovered(files) || Recovered(now) == Some(doc)
  }

  ghost predicate AllOldOrNew(files: Files, doc: Json, trace: seq<Files>) {
    forall k :: 0 <= k < |trace| ==> OldOrNew(files, doc, trace[k])
  }

  lemma InstallIsAtomic(files: Files, doc: Json, moved: Files, retired: bool, x: Faults)
    requires Validate(doc, None).Some? && moved.temp == Some(Complete(doc)) && moved.active.None?
    requires Recovered(moved) == Recovered(files)
    ensures AllOldOrNew(files, doc, InstallTrace(moved, retired, x))
    ensures x.install ==> Final(moved, InstallTrace(moved, retired, x)).active == Some(Complete(doc))
    ensures !x.install ==> Recovered(Final(moved, InstallTrace(moved, retired, x))) == Recovered(files)
  {
  }

  lemma SwapIsAtomic(files: Files, doc: Json, staged: Files, x: Faults)
    requires Intact(files) && Validate(doc, None).Some?
    requires staged == files.(temp := Some(Complete(doc)))
    ensures AllOldOrNew(files, doc, SwapTrace(staged, x))
    ensures x.install && (files.active.Some? ==> x.dropBackup && x.retire) ==>
              Final(staged, SwapTrace(staged, x)).active == Some(Complete(doc))
    ensures !(x.install && (files.active.Some? ==> x.dropBackup && x.retire)) ==>
              Recovered(Final(staged, SwapTrace(staged, x))) == Recovered(files)
  {
    if staged.active.None? {
      InstallIsAtomic(files, doc, staged, false, x);
    } else {
      var aside := Final(staged, RetireTrace(staged, x));
      var moved := x.dropBackup && x.retire;
      if moved { InstallIsAtomic(files, doc, aside, true, x); }
      Appended(files, doc, RetireTrace(staged, x), if moved then InstallTrace(aside, true, x) else Abandon(aside, x));
    }
  }

  lemma StageIsAtomic(files: Files, doc: Json, x: Faults)
    ensures AllOldOrNew(files, doc, StageTrace(files, doc, x))
    ensures Recovered(Staged(files, doc, x)) == Recovered(files)
    ensures Final(files, StageTrace(files, doc, x))
         == if x.write then Staged(files, doc, x) else files.(temp := Some(x.partial))
  {
  }

  lemma Appended(files: Files, doc: Json, first: seq<Files>, second: seq<Files>)
    requires AllOldOrNew(files, doc, first) && AllOldOrNew(files, doc, second)
    ensures AllOldOrNew(files, doc, first + second)
    ensures Final(files, first + second) == Final(Final(files, first), second)
  {
  }

  /**
   * What one write leaves, for every pattern of faults: at every point a reboot recovers the old or
   * the new manifest; `true` means the new one is active, `false` that the old one is recovered.
   */
  lemma WriteIsAtomic(files: Files, doc: Json, x: Faults)
    requires Intact(files) && Validate(doc, None).Some?
    ensures AllOldOrNew(files, doc, WriteTrace(files, doc, x))
    ensures WriteReports(files, x) ==>
              && Final(files, WriteTrace(files, doc, x)).active == Some(Complete(doc))
              && Recovered(Final(files, WriteTrace(files, doc, x))) == Some(doc)
    ensures !WriteReports(files, x) ==> Recovered(Final(files, WriteTrace(files, doc, x))) == Recovered(files)
  {
    if x.dir && x.alloc && x.open {
      var staged := Staged(files, doc, x);
      StageIsAtomic(files, doc, x);
      if x.write { SwapIsAtomic(files, doc, staged, x); }
      Appended(files, doc, StageTrace(files, doc, x), if x.write then SwapTrace(staged, x) else Abandon(staged, x));
    }
  }

  /** `true` leaves the new document active, the one it replaced as the backup, and no temp file. */
  lemma WriteKeepsBackup(files: Files, doc: Json, x: Faults)
    requires WriteReports(files, x)
    ensures Final(files, WriteTrace(files, doc, x))
         == Files(Some(Complete(doc)), if files.active.Some? then files.active else files.backup, None)
  {
    var staged := Staged(files, doc, x);
    StageIsAtomic(files, doc, x);
    FinalConcat(files, StageTrace(files, doc, x), SwapTrace(staged, x));
    if staged.active.Some? {
      var aside := Final(staged, RetireTrace(staged, x));
      FinalConcat(staged, RetireTrace(staged, x), InstallTrace(aside, true, x));
    }
  }

  /**
   * `false` leaves the active file where it was, or moved aside only if rolling back failed too; the temp file
   * is gone when it could be dropped; and nothing happens where the write did not start.
   */
  lemma FailedWriteLeaves(files: Files, doc: Json, x: Faults)
    requires !WriteReports(files, x)
    ensures var end := Final(files, WriteTrace(files, doc, x));
      && (!x.dir || !x.alloc ==> end == files)
      && (x.dir && x.alloc && x.dropTemp ==> end.temp == None)
      && (x.rollback ==> end.active == files.active)
      && (end.active == files.active || (end.active == None && end.backup == files.active))
      && (!x.open || !x.write ==> end.active == files.active && end.backup == files.backup)
  {
    if x.dir && x.alloc && x.open {
      var staged := Staged(files, doc, x);
      StageIsAtomic(files, doc, x);
      if x.write {
        FailedSwapLeaves(staged, x);
        FinalConcat(files, StageTrace(files, doc, x), SwapTrace(staged, x));
      } else {
        FinalConcat(files, StageTrace(files, doc, x), Abandon(staged, x));
      }
    }
  }

  lemma FailedSwapLeaves(staged: Files, x: Faults)
    requires !(x.install && (staged.active.Some? ==> x.dropBackup && x.retire))
    ensures var end := Final(staged, SwapTrace(staged, x));
      && (x.dropTemp ==> end.temp == None)
      && (x.rollback ==> end.active == staged.active)
      && (end.active == staged.active || (end.active == None && end.backup == staged.active))
  {
    if staged.active.Some? {
      var aside := Final(staged, RetireTrace(staged, x));
      FinalConcat(staged, RetireTrace(staged, x),
                  if x.dropBackup && x.retire then InstallTrace(aside, true, x) else Abandon(aside, x));
    }
  }

  /** A corrupt active file over a good backup: with no fault at all, one crash point loses both. */
  lemma CorruptActiveLosesBackup(files: Files, doc: Json)
    requires !Intact(files)
    ensures |WriteTrace(files, doc, NO_FAULTS)| > 3
    ensures !OldOrNew(files, doc, WriteTrace(files, doc, NO_FAULTS)[3])
  {
  }

  /** A torn active file over a good backup. */
  function TornOver(backup: Json): Files {
    Files(Some(Torn), Some(Complete(backup)), None)
  }

  const SMALL := Manifest(WakePolicy.MIN_VALID_EPOCH, WakePolicy.MIN_VALID_EPOCH + 1, 1, [], [])

  /**
   * Such files: the backup is recovered before the write, and nothing is at the crash point between the
   * removal of the backup and the installation of the new manifest.
   */
  lemma TornActiveLosesBackup(doc: Json)
    ensures !Intact(TornOver(Serialize(SMALL))) && Recovered(TornOver(Serialize(SMALL))) == Some(Serialize(SMALL))
    ensures |WriteTrace(TornOver(Serialize(SMALL)), doc, NO_FAULTS)| > 3
    ensures Recovered(WriteTrace(TornOver(Serialize(SMALL)), doc, NO_FAULTS)[3]) == None
  {
    ReadBack(SMALL);
    CorruptActiveLosesBackup(TornOver(Serialize(SMALL)), doc);
  }

  /**
   * Crash atomicity holds for every pattern of faults and every crash point exactly when the active
   * file, if present, loads, or there is no good backup to lose.
   */
  lemma CrashAtomicIff(files: Files, doc: Json)
    requires Validate(doc, None).Some?
    ensures (forall x :: AllOldOrNew(files, doc, WriteTrace(files, doc, x))) <==> Intact(files)
  {
    if Intact(files) {
      forall x
        ensures AllOldOrNew(files, doc, WriteTrace(files, doc, x))
      {
        WriteIsAtomic(files, doc, x);
      }
    } else {
      CorruptActiveLosesBackup(files, doc);
      assert !AllOldOrNew(files, doc, WriteTrace(files, doc, NO_FAULTS));
    }
  }

  // ------------------------------------------------------------------ recovery at boot

  /** What `restore_manifest_backup` does when the backup had to be used; a rename onto an existing file fails. */
  function RestoreTrace(files: Files, removeOk: bool, renameOk: bool): seq<Files> {
    var removed := if removeOk then files.(active := None) else files;
    if removed.active.None? && renameOk then [removed, Files(removed.backup, None, removed.temp)] else [removed]
  }

  /** Recovery never loses the generation it recovered, and it ends intact exactly when the bad file could go. */
  lemma RestoreKeepsRecovered(files: Files, removeOk: bool, renameOk: bool)
    requires !Loads(files.active) && Loads(files.backup)
    ensures forall k :: 0 <= k < |RestoreTrace(files, removeOk, renameOk)| ==>
              Recovered(RestoreTrace(files, removeOk, renameOk)[k]) == Recovered(files)
    ensures Intact(Final(files, RestoreTrace(files, removeOk, renameOk))) <==> removeOk || files.active.None?
  {
  }

  /** With both operations going well the backup is the active file again. */
  lemma RestoreMoves(files: Files)
    requires files.backup.Some?
    ensures Final(files, RestoreTrace(files, true, true)) == Files(files.backup, None, files.temp)
  {
  }
}
