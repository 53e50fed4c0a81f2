# PaperColor scheduled display, verified

A Dafny model of PaperColor's scheduled-display protocol, with proofs about it, and of a few
self-contained algorithms beside it.

A gateway keeps jobs (a picture, a display time, perhaps an expiry) in SQLite tables and answers a device
with manifests. The device, an e-paper board that sleeps most of the time, downloads the pictures into a
content-addressed cache, keeps the manifest in a temp/active/backup file trio, wakes for the next job, shows
it, and acknowledges it from a one-entry slot. Requests are lost and repeated, file operations fail, and
power goes at any point.

Run `dafny verify dfyconfig.toml` to check everything.

## Reading order

| files | what they hold |
|---|---|
| `Wrappers`, `Bytes`, `Characters` | options and results, bytes and digests, character classes |
| `Cards`, `JobTable`, `JobTableLaws`, `StoreAnswers`, `JobStore` | the gateway's tables: each transaction as a function, what every run keeps, what each transaction answers and records, and the store class proved against the functions |
| `ManifestSelection`, `ManifestDoc`, `ManifestMarks`, `ManifestContract` | which jobs a manifest lists, the document the device reads and writes, the flags it carries over, and the contract between the two ends |
| `ManifestFiles` | the three manifest files under every fault and crash |
| `WakePolicy`, `Deadlines` | choosing jobs, waking for them, and wrapping millisecond deadlines |
| `DeviceProtocol`, `DisplaySystem`, `MarkHistory`, `LostMark` | the device as single atomic moves; gateway and device together, and the theorems over all their runs; when a mark is lost |
| `DeviceClient`, `DeviceRuns`, `DeviceWakes` | the client as a class, proved to make only moves of the protocol; its states continue the system's runs; its displays over many wakes |
| `PulseModels`, `PulseCompose`, `PulseReadings`, `PulseService` | validating and composing the Pulse view from isolated sources, and publishing it through the store |
| `TextFit`, `HalStorage`, `VoiceCapture`, `JpegScan`, `PercentCodec` | measured text wrapping, storage bring-up, the voice recorder, the JPEG scanner, the percent codec |

The main theorems are `DisplaySystem.DisplayedMeansShown`, `SettledJobsAreNotListed` and `AssetClosure`;
`MarkHistory.MarkSurvives` and `ShownOnce`; `ManifestFiles.CrashAtomicIff`; `ManifestContract.Contract`;
`JobTableLaws.JobLifecycle` and `VersionSound`; `StoreAnswers.DueJobsAreListed`, `CardIsRecorded` and
`AckIsRecorded`; `ManifestSelection.GreedySelection`; `ManifestDoc.AcceptedIff` and `ReadBack`;
`DeviceClient.SyncNow`; `WakePolicy.EarliestJobIsMet` and `DisplaysStrictlyIncrease`; `DeviceWakes.Wakes`;
`Deadlines.DeadlineIsExact`; `PulseCompose.NonInterference` and `PulseReadings.ComposesIff`;
`PercentCodec.RoundTrip` and `StrictIff`.

## Assumptions

- SHA-256 is a parameter `h`. Where a proof needs it, `h` has no collision on a finite set of payloads (the
  `universe`), which holds every PNG the gateway stores and every body the device receives, and writes
  lower-case hexadecimal.
- A SQLite transaction happens whole or not at all, one at a time.
- A rename or removal is one atomic step; a rename onto an existing file fails, as on FAT. The temp file
  holds anything at all after a crash in mid-write.
- JSON is modelled as values whose numbers are reals; its text, the size of that text and its escapes are
  not. The limits on ids and paths count UTF-8 bytes, as the firmware does; a NUL inside a string, where the
  firmware's copy would end, is not modelled.
- One storage medium stays mounted, and reading a file that is there gives its content. A read that failed by
  chance would look like a missing asset, whose re-download may remove the good copy first.
- `std::sort` and SQLite's ordering give some sorted permutation; fonts measure any way in which a longer
  prefix is never narrower.
- What the network, the clock, the card and the drivers answer is a parameter of a method or a free choice.
- ISO-8601 writing and reading are a parameter of the Pulse model; where a proof needs it, reading what was
  written gives the time back.
- The card is also a USB drive: foreign content may appear in the cache under any name that no current
  manifest uses (`Intrude`).

## Where the code meets less than its intent

- Crash atomicity of `write_manifest` needs an active file that loads, or no good backup. `CrashAtomicIff`
  says exactly when, and `TornActiveLosesBackup` gives files for which it fails; `restore_manifest_backup`
  re-establishes it exactly when its removal succeeds.
- The parser accepts a fractional asset size between 0 and 1 from the network, truncates it to 0, and then
  rejects the file the device writes (`HalfDoesNotReadBack`). `ReadBack` says exactly when a manifest reads
  back; the gateway issues no such size (`AcceptedIsPlain`).
- A millisecond deadline whose 32-bit form is 0 reads as "no deadline" and is due at once (`DeadlineIsExact`,
  `SentinelIsReachable`).
- An assistant note accepted at 160 characters can exceed them once its tabs are expanded, and then the view
  no longer composes (`AcceptedNoteFits`, `TabbedNoteIsRefused`).
- `url_decode_component` reads `%` escapes with `strtol`, so a sign or a space before one digit is accepted
  (`SignedEscapeIsAccepted`). `StrictIff` says exactly when it reads as section 2.1 of RFC 3986 asks; every
  encoding is such a text (`EncodingHasHexEscapes`).
- A job can be shown twice. A mark that has not reached the card is lost with the power (`LoadedMarkIff`), and
  the display is made again (`ShownTwice`, and from a new device on `ShownTwiceFromNew`). A mark on the card is
  lost exactly when a manifest without the job is put in place (`SettledIff`); `MarkSurvives` and `ShownOnce`
  hold over every other run.
- A line spacing that cancels the line height makes `fit_text` divide by zero when nothing fits, and a more
  negative one leaves the text uncut (`SpacingCancels`, `SpacingOverlaps`); the layouts in use have positive
  spacing. `FitText` gives both outcomes exactly.

## Model

| member | source | states |
|---|---|---|
| `DisplaySystem.DisplayedMeansShown` | main/apps/scheduled_push/scheduled_push.cpp:912-935 | In every state of every run of gateway and device (lost, repeated and late messages, power loss anywhere), a job recorded displayed was shown by the device as exactly the PNG the gateway stores for it; no job is recorded failed |
| `DisplaySystem.SettledJobsAreNotListed` | gateway/src/papercolor_gateway/store.py:664-719 | Once a row is displayed, failed or expired, no manifest issued later in the run lists its job |
| `DisplaySystem.AssetClosure` | main/apps/scheduled_push/scheduled_push.cpp:971-1003 | In every state of every run, and so at every crash point, every asset of the manifest a reboot would recover, and of the one in memory, is cached with its size and digest |
| `DisplaySystem.IssuedMayBeHeard` | main/apps/scheduled_push/scheduled_push.cpp:954-964 | Whatever manifest the gateway issued can reach the device at any time: the device's hearing guard never excludes one |
| `DisplaySystem.RunKeepsSystemInv` | main/apps/scheduled_push/scheduled_push.cpp:940-1013 | The joint invariant of both ends holds in every state of every run |
| `DisplaySystem.HeardIsRow` | gateway/src/papercolor_gateway/store.py:756-766 | A job the device heard of is a row of the gateway's table with that row's asset, digest and size |
| `DisplaySystem.DeliveredGateway` | gateway/src/papercolor_gateway/store.py:786-835 | Delivering an acknowledgement of a shown job, any number of times and at any later state, keeps the gateway's side of the joint invariant |
| `DeviceRuns.TrailContinuesRun` | main/apps/scheduled_push/scheduled_push.cpp:940-1013 | Whatever the imperative client does, fault by fault, continues a run of the system, so the run theorems speak of its states |
| `MarkHistory.MarkSurvives` | main/apps/scheduled_push/scheduled_push.cpp:616-619 | Along every run of gateway and device, through failed writes and a power loss at any point, a mark that reached the card is there in every later state if and only if every manifest put in place lists the job |
| `MarkHistory.NotShownAgain` | main/apps/scheduled_push/scheduled_push.cpp:885-926 | A job whose mark reached the card is not shown again, whatever fails and whenever power is lost, while every manifest put in place lists it |
| `MarkHistory.ShownOnce` | main/apps/scheduled_push/scheduled_push.cpp:885-926 | Once a manifest is put in place while a job's flag is set in memory, that job is not shown again while every manifest put in place lists it |
| `MarkHistory.SettledIff` | main/apps/scheduled_push/scheduled_push.cpp:459-525 | Every single move keeps a mark that is on the card, except exactly the installation of a manifest that does not list the job |
| `MarkHistory.InstallSettles` | main/apps/scheduled_push/scheduled_push.cpp:988-1000 | Installing a manifest puts on the card exactly the marks in memory of the jobs it lists |
| `MarkHistory.MemoryMarkIff` | main/apps/scheduled_push/scheduled_push.cpp:912-1003 | A mark in memory is lost by exactly two moves: adopting a manifest without the job, and a power loss when the card lacks the mark |
| `MarkHistory.LoadedMarkIff` | main/apps/scheduled_push/scheduled_push.cpp:696-708 | After a power loss a job is loaded marked exactly when its mark had reached the card |
| `LostMark.ShownTwice` | main/apps/scheduled_push/scheduled_push.cpp:912-938 | From any state whose card still recovers the shown job unmarked: display, mark in memory, power loss, load, and the same display again are all possible |
| `LostMark.ShownTwiceFromNew` | main/apps/scheduled_push/scheduled_push.cpp:912-1003 | For every digest function and payload, a new device reaches such a state through one answer, one download and one switch, and shows the job twice |
| `MarkHistory.JobsAreUnique` | main/apps/scheduled_push/scheduled_push.cpp:954-974 | In every state of every run no job is listed twice in memory or in a manifest file that loads |
| `JobTableLaws.StepKeepsInvariant` | gateway/src/papercolor_gateway/store.py:132-226 | Every transaction keeps the tables' invariant (unique ids, one acknowledgement per acknowledged job and none otherwise, one pending immediate job, intact assets, ordered page sets, one active generation) and only moves rows forward |
| `JobTableLaws.JobLifecycle` | gateway/src/papercolor_gateway/store.py:604-631 | Over every run each row keeps its identity, a displayed, failed or expired row never changes again, and its acknowledgement rows say exactly its status |
| `JobTableLaws.RepeatedAckChangesNothing` | gateway/src/papercolor_gateway/store.py:798-835 | Repeating an accepted acknowledgement at any later state, with any valid message, is accepted and changes nothing |
| `JobTableLaws.VersionSound` | gateway/src/papercolor_gateway/store.py:644-662 | Along every run the version never decreases, and two states with the same version have the same jobs, acknowledgements and pulse generations |
| `JobTableLaws.EqualVersionEqualManifest` | gateway/src/papercolor_gateway/store.py:720-753 | Two manifests of one run with the same version, server time and limit are the same manifest |
| `JobTableLaws.CreateStep` | gateway/src/papercolor_gateway/store.py:595-632 | Creating a job keeps the invariant, and no settled row is unsettled |
| `JobTableLaws.CreateSupersedes` | gateway/src/papercolor_gateway/store.py:604-632 | An immediate job supersedes every pending immediate one and is then the only one; no other row changes, and a scheduled job changes none |
| `JobTableLaws.ExpireStep` | gateway/src/papercolor_gateway/store.py:650-662 | Expiring keeps the invariant and leaves no lapsed pending row |
| `JobTableLaws.AckStep` | gateway/src/papercolor_gateway/store.py:786-835 | Acknowledging keeps the invariant, in particular the agreement of rows and acknowledgements |
| `JobTableLaws.ActivateStep` | gateway/src/papercolor_gateway/store.py:526-554 | Activating a pulse bundle keeps the invariant: three pages, distinct indexes, one active generation |
| `JobTableLaws.ActivationIsAtomic` | gateway/src/papercolor_gateway/store.py:526-554 | A refused bundle leaves generations, jobs and version as they were; an accepted one becomes the only active generation, its three pages filed under their digests |
| `JobStore.JobStore.RegisterDevice` | gateway/src/papercolor_gateway/store.py:384-398 | Takes the tables exactly where the table function says; refuses empty or long ids and empty tokens |
| `JobStore.JobStore.PutAsset` | gateway/src/papercolor_gateway/store.py:432-479 | Files a PNG under its digest once; refuses what is not a PNG, is too large, or contradicts what is filed |
| `JobStore.JobStore.CreateJob` | gateway/src/papercolor_gateway/store.py:595-642 | Takes the tables exactly where the table function says, keeps the invariant and evolves the tables; `StoreAnswers.CardIsRecorded` says what row is appended |
| `JobStore.JobStore.ExpireJobs` | gateway/src/papercolor_gateway/store.py:650-662 | Expires exactly the lapsed pending rows and bumps the version exactly when there is one |
| `JobStore.JobStore.SelectRows` | gateway/src/papercolor_gateway/store.py:708-719 | The loop over the query's rows computes the greedy selection the selection laws are about |
| `JobStore.JobStore.BuildManifest` | gateway/src/papercolor_gateway/store.py:664-753 | Takes the tables and the answer exactly where the table function says, error cases included; what that lists is pinned by the laws of `StoreAnswers` |
| `JobStore.JobStore.Acknowledge` | gateway/src/papercolor_gateway/store.py:786-835 | Takes the tables and the answer exactly where the table function says, error cases included; `StoreAnswers.AckIsRecorded` says where that is |
| `JobStore.JobStore.PutPageAssets` | gateway/src/papercolor_gateway/store.py:532-532 | Files the pages' assets in order up to the first failure |
| `JobStore.JobStore.ActivatePulseBundle` | gateway/src/papercolor_gateway/store.py:526-554 | Takes the tables and the answer exactly where the table function says, error cases included |
| `JobStore.JobStore.JobStatus` | gateway/src/papercolor_gateway/store.py:854-861 | The status of the job with that id, or NotFound exactly when there is none |
| `JobTable.OrderRows` | gateway/src/papercolor_gateway/store.py:697-707 | The query's ordering is a permutation of the candidate rows |
| `JobTable.PendingImmediate` | gateway/src/papercolor_gateway/store.py:688-696 | A pending immediate row exactly when there is one |
| `StoreAnswers.CardIsRecorded` | gateway/src/papercolor_gateway/store.py:595-642 | A card is accepted exactly when its picture may be filed and its id is new; then one row is appended and returned, with the card's own text, style and expiry, created now, shown at the card's time or now, immediate exactly when it names no time, guaranteed exactly when that time is at least 1200 seconds ahead, under the digest of its picture; the version grows by one; each refusal changes no row |
| `StoreAnswers.AckIsRecorded` | gateway/src/papercolor_gateway/store.py:786-835 | In a table without repeated ids, an acknowledgement of a known job by a known device: a repeated one changes nothing, a pending or superseded row takes the state with one acknowledgement appended and the version grown by one, and any other row is refused as final |
| `StoreAnswers.AckIsRefused` | gateway/src/papercolor_gateway/store.py:795-812 | A wrong state or message is refused before any row is looked at, an unknown device or job is not found, and neither changes anything |
| `StoreAnswers.ValidMessages` | gateway/src/papercolor_gateway/store.py:768-784 | The empty message the firmware sends, and every text up to 240 characters without control characters other than newline and tab, is valid, and nothing else |
| `StoreAnswers.DueJobsAreListed` | gateway/src/papercolor_gateway/store.py:697-719 | Every pending scheduled job that has not expired and is overdue or within the next 24 hours is listed with its row's fields and asset size, unless the manifest is full or the asset would overflow its bytes |
| `StoreAnswers.ImmediateIsFirst` | gateway/src/papercolor_gateway/store.py:688-696 | A pending immediate job that has not expired is the first listing |
| `StoreAnswers.OnlyDueJobsAreListed` | gateway/src/papercolor_gateway/store.py:688-719 | Each listing stands for such a row, an immediate one only in the first place |
| `StoreAnswers.ListedInOrder` | gateway/src/papercolor_gateway/store.py:697-707 | After the immediate job the listings are in order of display time |
| `StoreAnswers.ManifestIsAnswered` | gateway/src/papercolor_gateway/store.py:664-753 | A manifest is given exactly for a registered device and a limit of 1 to 16, with the time asked, the version of the expired tables and the next point of the 900-second grid; each refusal changes nothing |
| `StoreAnswers.PagesAreListed` | gateway/src/papercolor_gateway/store.py:720-753 | The pages are the three of the active generation, by number, with their names, digests and asset sizes |
| `StoreAnswers.ExpiryIsExact` | gateway/src/papercolor_gateway/store.py:650-662 | Exactly the pending rows whose expiry is not after now become expired, and the version grows by one when there is one |
| `StoreAnswers.RegistrationIsRecorded` | gateway/src/papercolor_gateway/store.py:384-398 | A device is registered exactly for an id of 1 to 128 characters and a non-empty token, and nothing else changes |
| `StoreAnswers.AssetIsFiled` | gateway/src/papercolor_gateway/store.py:432-479 | A payload is filed exactly when it is a PNG of at most 4 MiB that does not contradict what is filed; then it is under its digest, and what was filed before stays |
| `StoreAnswers.EveryPngIsTaken` | gateway/src/papercolor_gateway/store.py:432-479 | Where no two payloads share a digest, every PNG within the limit may be filed |
| `StoreAnswers.BundleIsAccepted` | gateway/src/papercolor_gateway/store.py:526-554 | A bundle becomes the next generation exactly when it has the three named pages, each a PNG, together at most 4 MiB, with three different numbers from 0 to 2 |
| `ManifestSelection.QueryIsOrdered` | gateway/src/papercolor_gateway/store.py:697-707 | The scheduled rows come ordered by display time, creation time and id |
| `ManifestSelection.CandidatesAreAll` | gateway/src/papercolor_gateway/store.py:697-707 | Every pending scheduled row that is overdue or at most 24 hours ahead, its asset filed, is queried |
| `ManifestSelection.TakenWhenItFits` | gateway/src/papercolor_gateway/store.py:713-719 | A candidate is taken exactly when it fits, in count and bytes, what was taken before it |
| `ManifestSelection.GreedySelection` | gateway/src/papercolor_gateway/store.py:688-719 | The manifest is the immediate job, then an ordered subsequence of the candidates, within both bounds, and maximal: with room in the count, each omitted candidate would overflow the final total |
| `ManifestSelection.SelectionIsUnique` | gateway/src/papercolor_gateway/store.py:688-719 | A manifest lists no job twice |
| `Cards.AcceptedTimes` | gateway/src/papercolor_gateway/models.py:128-136 | A card's times are accepted exactly when it is shown no earlier than now and outlives its display time |
| `Cards.NextSyncIsNextGridPoint` | gateway/src/papercolor_gateway/schedule.py:15-21 | The next synchronization is the first point of the polling grid strictly after now |
| `ManifestContract.Contract` | main/apps/scheduled_push/scheduled_push.cpp:567-676 | From every reachable store fed by admitted inputs, the built manifest is accepted by the device exactly when its server time is valid and it is within the device's byte limits; the device then reads exactly its jobs and pages, and none is expired at the server's time |
| `ManifestContract.GatewayDocReads` | main/apps/scheduled_push/scheduled_push.cpp:567-676 | What the device reads from a gateway manifest: exactly its jobs and pages, or nothing |
| `ManifestContract.BuiltIsGatewayMade` | gateway/src/papercolor_gateway/store.py:664-766 | Every manifest built from admitted tables has usable ids, times, digests and page sets |
| `ManifestContract.ListedAreLive` | main/apps/scheduled_push/scheduled_push.cpp:971-974 | No listed job is expired at the server's time, so the device drops none of them |
| `ManifestContract.ListedArePending` | gateway/src/papercolor_gateway/store.py:688-719 | Every listed job stands for a pending row of the tables |
| `ManifestContract.AdmittedRun` | gateway/src/papercolor_gateway/models.py:128-136 | Every state fed by validated cards, canonical ids and numbered bundles has only rows the device can accept |
| `ManifestContract.AcceptedIsPlain` | main/apps/scheduled_push/scheduled_push.cpp:590-615 | A gateway manifest the device accepts names no empty asset |
| `ManifestContract.BuiltListsOnceAlive` | gateway/src/papercolor_gateway/store.py:650-719 | Every built manifest lists each job once and no job expired at its server time |
| `ManifestContract.TakenIsAllListed` | main/apps/scheduled_push/scheduled_push.cpp:954-974 | What the device takes from such a manifest is every listed job, each once, with the flag carried over |
| `ManifestContract.TakenAsListed` | main/apps/scheduled_push/scheduled_push.cpp:954-974 | Each listing of such a manifest is taken with its own times and asset, from that asset's path, marked exactly when the first entry held with its id was; nothing else is taken |
| `ManifestDoc.ParseManifest` | main/apps/scheduled_push/scheduled_push.cpp:567-676 | Reads a body or file to a manifest exactly when the document is valid, with the earlier flags, its jobs in some order sorted by display time |
| `ManifestDoc.StdSort` | main/apps/scheduled_push/scheduled_push.cpp:672-673 | The jobs sorted by display time, none lost or added |
| `ManifestDoc.ParsedManifest` | main/apps/scheduled_push/scheduled_push.cpp:567-676 | Whatever the device reads is well-formed: ids, paths, digests, sizes, times, counts and totals within its limits, lengths counted in UTF-8 bytes |
| `ManifestDoc.ReadBack` | main/apps/scheduled_push/scheduled_push.cpp:459-489 | A manifest the device holds reads back from its own file with the same jobs, flags and pages exactly when none of its assets is empty; otherwise the file is rejected |
| `ManifestDoc.HalfDoesNotReadBack` | main/apps/scheduled_push/scheduled_push.cpp:597-615 | The answer naming an asset of half a byte is accepted, and the file the device then writes is not |
| `ManifestDoc.WrittenParses` | main/apps/scheduled_push/scheduled_push.cpp:459-489 | The written form of a manifest without empty assets parses to that manifest |
| `ManifestDoc.CarriedFlags` | main/apps/scheduled_push/scheduled_push.cpp:616-619 | A job of a new manifest is marked displayed exactly when some entry held has its id and a mark and no entry before that one has the id; a job that was not held is read unmarked |
| `ManifestDoc.AcceptedIff` | main/apps/scheduled_push/scheduled_push.cpp:567-676 | Whatever was held before, a document is read exactly when its times, counts, ids, paths, digests, sizes and totals are within the device's limits, stated for the document's fields without the parser's running totals |
| `ManifestDoc.ReadAsSaid` | main/apps/scheduled_push/scheduled_push.cpp:590-625 | Each job read has the fields of its item of the document, in the document's order |
| `ManifestMarks.TakeKeepsMark` | main/apps/scheduled_push/scheduled_push.cpp:954-974 | Taking an answer, dropping its expired jobs included, keeps the mark of every job it still lists |
| `ManifestMarks.TakenFlag` | main/apps/scheduled_push/scheduled_push.cpp:954-974 | A job taken from an answer is marked exactly when the first entry held with its id was; a job that was not held is taken unmarked, and so will be shown |
| `ManifestFiles.WriteIsAtomic` | main/apps/scheduled_push/scheduled_push.cpp:459-525 | For every pattern of failing operations and every crash point of one write, a reboot recovers the old or the new manifest; true means the new one, false the old one |
| `ManifestFiles.WriteKeepsBackup` | main/apps/scheduled_push/scheduled_push.cpp:490-525 | A write that reports success leaves the new document active, the one it replaced as the backup, and no temp file |
| `ManifestFiles.FailedWriteLeaves` | main/apps/scheduled_push/scheduled_push.cpp:490-525 | A failed one leaves the active file, moved aside only when rolling back failed too, and no temp file where that could be removed |
| `ManifestFiles.CrashAtomicIff` | main/apps/scheduled_push/scheduled_push.cpp:459-525 | That holds for all faults and crash points exactly when the active file, if present, loads, or there is no good backup to lose |
| `ManifestFiles.CorruptActiveLosesBackup` | main/apps/scheduled_push/scheduled_push.cpp:494-507 | With a corrupt active file over a good backup, one crash point of a faultless write loses both |
| `ManifestFiles.TornActiveLosesBackup` | main/apps/scheduled_push/scheduled_push.cpp:494-507 | Concrete files for which that happens: a torn active file over a backup that loads |
| `ManifestFiles.RestoreKeepsRecovered` | main/apps/scheduled_push/scheduled_push.cpp:685-694 | Recovery never loses the generation it recovered, and leaves the files intact exactly when the bad file could be removed or was not there |
| `ManifestFiles.RestoreMoves` | main/apps/scheduled_push/scheduled_push.cpp:685-694 | With both of its operations going well the backup is the active file again |
| `DeviceProtocol.StepKeepsInvariant` | main/apps/scheduled_push/scheduled_push.cpp:459-1013 | Every single file operation, display, mark or message keeps asset closure, readable manifest files, provenance of everything shown, and honest acknowledgements |
| `DeviceProtocol.FileMoveStep` | main/apps/scheduled_push/scheduled_push.cpp:490-518 | Moving the manifest files about never changes what a reboot recovers, except by installing the new one |
| `DeviceProtocol.CleanStep` | main/apps/scheduled_push/scheduled_push.cpp:527-556 | Removing an unreferenced asset keeps every asset of the recovered manifest and of the one in memory |
| `DeviceProtocol.ReplaceStep` | main/apps/scheduled_push/scheduled_push.cpp:421-425 | Removing the file a download replaces loses no asset that anything still names |
| `DeviceClient.DeviceClient.WriteManifest` | main/apps/scheduled_push/scheduled_push.cpp:459-525 | The files pass through exactly the specified trace for every pattern of faults, and the result is the specified one |
| `DeviceClient.DeviceClient.LoadManifest` | main/apps/scheduled_push/scheduled_push.cpp:696-708 | The manifest a reboot recovers goes into memory, and what would be recovered stays the same |
| `DeviceClient.DeviceClient.RestoreBackup` | main/apps/scheduled_push/scheduled_push.cpp:685-694 | The files pass through the recovery trace; what would be recovered stays the same |
| `DeviceClient.DeviceClient.DownloadAsset` | main/apps/scheduled_push/scheduled_push.cpp:359-430 | Succeeds exactly when the asset was cached, or the answer has the announced size and digest and every write went through, and then exactly that payload is filed under its name; no other file and nothing cached is lost |
| `DeviceClient.DeviceClient.DownloadAll` | main/apps/scheduled_push/scheduled_push.cpp:975-984 | True means every asset of the list is cached; nothing cached before is lost; it succeeds whenever every answer delivers and every write goes through |
| `DeviceClient.DeviceClient.FetchAndWrite` | main/apps/scheduled_push/scheduled_push.cpp:975-1000 | Downloads everything before writing the manifest; on failure what a reboot recovers is unchanged |
| `DeviceClient.DeviceClient.CleanupUnreferencedAssets` | main/apps/scheduled_push/scheduled_push.cpp:527-556 | Leaves exactly the referenced assets, and the files that refuse to go |
| `DeviceClient.DeviceClient.SavePendingAck` | main/apps/scheduled_push/scheduled_push.cpp:715-724 | Which parts of the slot are written for every pattern of failures |
| `DeviceClient.DeviceClient.SendPendingAck` | main/apps/scheduled_push/scheduled_push.cpp:732-764 | Sends what is in the slot, and erases it only after delivery |
| `DeviceClient.DisplayIsReported` | main/apps/scheduled_push/scheduled_push.cpp:715-764 | A display whose acknowledgement could be written is reported as displayed; delivered and erased, nothing is left to report, and otherwise the same report is made the next time |
| `DeviceClient.DeviceClient.ChooseDue` | main/apps/scheduled_push/scheduled_push.cpp:885-910 | Picks the latest due job, or after an alarm wake the latest due once the wait for the earliest imminent one ends, at the reading that ended it; picks nothing then only if a reading failed, the wait timed out, or the job expired |
| `DeviceClient.DeviceClient.MarkDisplayed` | main/apps/scheduled_push/scheduled_push.cpp:920-926 | Marks the shown job and the older due ones, and nothing else |
| `DeviceClient.DeviceClient.DisplayDueCached` | main/apps/scheduled_push/scheduled_push.cpp:875-938 | The job shown is the one the choice rule names, exactly when the panel takes it: then its acknowledgement is in the slot and the marks in the file as far as the writes went, and nothing is due at that instant; a failed attempt changes only the retry deadlines, to five minutes; with a valid clock and a willing panel a due job is always shown, and after an alarm wake an imminent one, unless a reading failed, the wait timed out, or the job expired |
| `DeviceClient.DeviceClient.AttemptDisplay` | main/apps/scheduled_push/scheduled_push.cpp:912-936 | The chosen job is shown exactly when it is cached and the panel takes it, and then its mark and its acknowledgement are written; a failed attempt, and a failed write, are retried in five minutes |
| `DeviceClient.DeviceClient.PersistDisplay` | main/apps/scheduled_push/scheduled_push.cpp:927-935 | Writes the marks and the acknowledgement; a failure of either only schedules a retry, in five minutes |
| `DeviceClient.DeviceClient.SwitchTo` | main/apps/scheduled_push/scheduled_push.cpp:975-1003 | Downloads, then writes, then switches, then cleans up; on failure the old manifest stays in memory and on the card |
| `DeviceClient.DeviceClient.ReadAnswer` | main/apps/scheduled_push/scheduled_push.cpp:954-974 | Reads the answer with the flags of the manifest held and drops exactly the expired jobs |
| `DeviceClient.DeviceClient.TakeManifest` | main/apps/scheduled_push/scheduled_push.cpp:954-1006 | On success the device holds what the answer listed, less the expired, has it on the card, has removed what it does not name, plans the next synchronization by the answer, and forgets a deferred display; on failure it keeps what it had and retries in five minutes; it succeeds whenever the network and the card let it |
| `DeviceClient.DeviceClient.BeginSync` | main/apps/scheduled_push/scheduled_push.cpp:940-945 | The manifest a reboot recovers is loaded if none is held, and an acknowledgement pending from before is sent, and erased only after delivery |
| `DeviceClient.DeviceClient.ShowAndReport` | main/apps/scheduled_push/scheduled_push.cpp:1004-1012 | The job the choice rule names is shown when the panel takes it; what is then in the slot is sent; the result is whether nothing is left to deliver; the slot, the files, the messages and the deadline are given |
| `DeviceClient.DeviceClient.SyncNow` | main/apps/scheduled_push/scheduled_push.cpp:940-1013 | A whole synchronization makes only moves of the protocol, whatever fails. It takes the answer when the network and the card let it, with the flags of the jobs held, so every job still listed keeps its mark; then it shows the job the choice rule names, writes the marks and the acknowledgement, and reports what is pending; its result is whether that report went through, and what could not be sent stays in the slot. Otherwise everything stays, and it retries in five minutes. The messages sent, the slot, the manifest files and the next deadline are given in every case |
| `DeviceClient.DeviceClient.PowerCycle` | main/apps/scheduled_push/scheduled_push.cpp:80-83 | A reboot keeps the card and the slot and forgets memory and deadlines |
| `DeviceWakes.Wakes` | main/apps/scheduled_push/scheduled_push.cpp:875-938 | Over any sequence of wakes, with reboots, failed attempts and failing writes, the panel's record grows by exactly the displays listed, each of a job held and due at that reading; one display comes strictly later in display time than an earlier one whenever, before each rebooting wake in between, every step of the last display's write succeeded |
| `WakePolicy.SelectDueJob` | main/apps/scheduled_push/scheduled_push_policy.h:14-26 | The latest due job, the last on a tie, or -1 exactly when none is due |
| `WakePolicy.SelectImminentJob` | main/apps/scheduled_push/scheduled_push_policy.h:28-40 | The earliest imminent job, the first on a tie, or -1 exactly when none is imminent |
| `WakePolicy.SuppressOlderDueJobs` | main/apps/scheduled_push/scheduled_push_policy.h:42-58 | Marks in place exactly the other due jobs not newer than the selected one, and counts them |
| `WakePolicy.SelectNextWake` | main/apps/scheduled_push/scheduled_push_policy.h:67-81 | The loop's value on every clock, and on one that is not before the epoch the earliest of the synchronization deadline and the open jobs' wake times |
| `WakePolicy.NextWakeIsEarliest` | main/apps/scheduled_push/scheduled_push_policy.h:67-81 | On every clock that is not before the epoch the fold over the jobs is the earliest wake time, and 0 only when there is none |
| `WakePolicy.NextWakeEpoch` | main/apps/scheduled_push/scheduled_push.cpp:1032-1048 | The planned wake, and 0 while the clock is invalid |
| `WakePolicy.PlannedWakeBounds` | main/hal/rtc_alarm_policy.h:10-17 | For polls of 1 to 1440 minutes the planned wake is after now, at most a day ahead, no later than any job still to be shown, and never refused by the alarm for its horizon |
| `WakePolicy.SoonerServerTimeIsFollowed` | main/apps/scheduled_push/scheduled_push_policy.h:60-65 | The next synchronization is the server's time when that is still to come and sooner than a poll period, and a poll period ahead otherwise |
| `WakePolicy.OverdueIsRetried` | main/apps/scheduled_push/scheduled_push_policy.h:67-81 | An overdue job that is still open is woken for within five minutes |
| `WakePolicy.AlarmIsTheMinute` | main/hal/rtc_alarm_policy.h:10-17 | An armed alarm is the start of its target's minute, and none is armed exactly for a target not ahead, more than a day ahead, or within a minute that has begun or begins within five seconds |
| `WakePolicy.NoOversleep` | main/hal/rtc_alarm_policy.h:10-17 | If the planned wake is an open job's display time and the alarm was armed for it, every check from the floored alarm until that job expires finds a due or imminent job |
| `WakePolicy.EarliestJobIsMet` | main/apps/scheduled_push/scheduled_push.cpp:1032-1071 | From plan to display: the earliest open job before the next synchronization is the planned wake, and once the alarm is armed for it every later check until it expires finds a job |
| `WakePolicy.WaitEndsInDisplay` | main/apps/scheduled_push/scheduled_push.cpp:893-907 | Once the clock reaches the imminent job's display time, and while that job is not expired, some job at least as new is due |
| `WakePolicy.DisplayClearsDue` | main/apps/scheduled_push/scheduled_push_policy.h:42-58 | Showing the chosen job marks exactly the due jobs, so nothing is due at that instant |
| `WakePolicy.DisplaysStrictlyIncrease` | main/apps/scheduled_push/scheduled_push_policy.h:14-58 | Over every run of checks and reloads in any order of the jobs, with a clock that never steps back, successive displays have strictly increasing display times |
| `Deadlines.DeadlineIsExact` | main/apps/scheduled_push/scheduled_push.cpp:1015-1018 | A wrapped deadline is due exactly from its real time on, for the next 2^31 ms and across any number of wraps, except when its wrapped value is the sentinel 0 |
| `Deadlines.PeriodicRetryIsExact` | main/apps/scheduled_push/scheduled_push.cpp:91-94 | The same for the five-minute retry |
| `Deadlines.PeriodicSyncIsExact` | main/apps/scheduled_push/scheduled_push.cpp:1020-1030 | The same for every delay the settings allow |
| `Deadlines.SyncDelayIs` | main/apps/scheduled_push/scheduled_push.cpp:1020-1030 | With a valid clock the delay ends at the server's time when that comes within a poll period, and otherwise after the poll period |
| `Deadlines.SentinelIsReachable` | main/apps/scheduled_push/scheduled_push.cpp:1015-1018 | A start and delay for which the sentinel makes the deadline due early |
| `Deadlines.SyncTimers.DeferPeriodicSync` | main/apps/scheduled_push/scheduled_push.cpp:1020-1030 | Sets the wrapped deadline of the specified delay |
| `Deadlines.SyncTimers.SyncDueIsExact` | main/apps/scheduled_push/scheduled_push.cpp:1015-1018 | The synchronization check answers true exactly when enabled and at or past the deadline, or at once when its wrapped value is the sentinel |
| `TextFit.WrapMeasured` | gateway/src/papercolor_gateway/renderer.py:81-102 | The nested loops compute the wrapping the laws are about |
| `TextFit.WrapIsSound` | gateway/src/papercolor_gateway/renderer.py:81-102 | Every line is at most one character or within the width, there is at least one line, and the characters that are not whitespace keep their order |
| `TextFit.BreaksAreForced` | gateway/src/papercolor_gateway/renderer.py:93-99 | The loop cuts a paragraph at increasing places, each before the first character that would have made the line from the previous cut too wide, and nowhere else; its lines are the stretches between the cuts, stripped on the right |
| `TextFit.CutsAreUnique` | gateway/src/papercolor_gateway/renderer.py:87-101 | Any such cuts of a paragraph are the ones the loop makes: the widths leave no choice |
| `TextFit.ParagraphsJoin` | gateway/src/papercolor_gateway/renderer.py:81-86 | The paragraphs of a text are what stands between its newlines, none lost |
| `TextFit.ParagraphLines` | gateway/src/papercolor_gateway/renderer.py:81-102 | A paragraph adds the stretches between its forced cuts and then the rest, stripped on the right; an empty paragraph keeps its line |
| `TextFit.Ellipsize` | gateway/src/papercolor_gateway/renderer.py:105-115 | The longest stripped prefix that fits with the ellipsis, or the ellipsis alone |
| `TextFit.FitText` | gateway/src/papercolor_gateway/renderer.py:118-152 | The largest size at which the whole text fits; otherwise the smallest size with as many leading lines as fit and an ellipsis, flagged truncated, or one line taller than the box; for a negative spacing that overlaps lines entirely, a division by zero or the whole text, too tall; the error cases exactly |
| `TextFit.SpacingCancels` | gateway/src/papercolor_gateway/renderer.py:137-146 | A line height, spacing and box for which no text fits at any size and the division is by zero |
| `TextFit.SpacingOverlaps` | gateway/src/papercolor_gateway/renderer.py:137-152 | The same for a spacing that leaves a text of two lines uncut and too tall |
| `TextFit.LinesThatFit` | gateway/src/papercolor_gateway/renderer.py:146-151 | How many lines the box holds, and that the text needs more |
| `HalStorage.HalStorage.Init` | main/hal/storage/hal_storage.cpp:438-450 | Refused exactly when storage is up; otherwise all of it comes up, or a driver refused and none of it does; the lock is released |
| `HalStorage.HalStorage.Switch` | main/hal/storage/hal_storage.cpp:452-601 | On success the asked medium is up; on failure a driver refused, and the old storage is still there or nothing is left of either medium; the lock is released on every path |
| `HalStorage.HalStorage.BringUp` | main/hal/storage/hal_storage.cpp:352-436 | All resources, storage and driver, or none of them, whatever the drivers answer |
| `HalStorage.HalStorage.InitSdMmc` | main/hal/storage/hal_storage.cpp:265-332 | Card memory, host and bus device are all held, or all given back |
| `HalStorage.HalStorage.ReleaseCurrent` | main/hal/storage/hal_storage.cpp:464-498 | The current storage goes with its resources, or stays with its handle |
| `HalStorage.HalStorage.AnyCalls` | main/hal/storage/hal_storage.cpp:352-601 | After any sequence of calls with any failures: a handle exactly when storage is created, then exactly that medium's resources, each granted once more than returned; a driver only with storage; the lock free |
| `VoiceCapture.VoiceCapture.Update` | main/apps/voice_capture/voice_capture.cpp:167-191 | A toggle while idle starts a recording; each step while recording adds the block heard since; a stop asked for after the guard, or the limit, sticks, and the step that has streamed the last block saves exactly what was heard as one WAV file; it fails exactly when the card or the microphone refused something; the lock is held exactly while recording, and the record of events stays orderly |
| `VoiceCapture.VoiceCapture.FinalizeCapture` | main/apps/voice_capture/voice_capture.cpp:142-163 | A save leaves the recorded samples behind the final header; every end releases the lock |
| `VoiceCapture.VoiceCapture.BeginCapture` | main/apps/voice_capture/voice_capture.cpp:105-140 | Started with the lock held and a block queued, or failed with nothing held |
| `VoiceCapture.StartIsClosedOnce` | main/apps/voice_capture/voice_capture.cpp:88-191 | In every record of events, between one start and the next the recording was closed by a save or a failure, and nothing is saved after that close |
| `VoiceCapture.HeaderIsRight` | main/apps/voice_capture/voice_capture.cpp:52-69 | The header before any samples states the size of what follows, 16 kHz and 16-bit mono PCM, for every size a WAV file can have |
| `VoiceCapture.RecordingIsWav` | main/apps/voice_capture/voice_capture.cpp:142-163 | The header and the samples make a file within the upload limit that says its own length, its rate, and 16-bit mono PCM, and holds exactly those samples |
| `VoiceCapture.SavedFileFitsUpload` | main/apps/scheduled_push/scheduled_push.cpp:227-227 | No recording exceeds 960512 samples, so none exceeds the 2 MiB the uploader takes |
| `PulseCompose.ComposeView` | gateway/src/papercolor_gateway/pulse_service.py:63-140 | Filling the pages in place and validating them computes the specified view, and none where `compose_view` raises |
| `PulseCompose.NonInterference` | gateway/src/papercolor_gateway/pulse_service.py:121-130 | Two source maps that differ only in the assistant's entry, when both compose, show the same view except the note and the focus summary |
| `PulseCompose.ShowsFreshFacts` | gateway/src/papercolor_gateway/pulse_service.py:63-120 | Each device, Home Assistant or mac fact is shown if and only if a snapshot inside its window carries it, with that snapshot's value and time |
| `PulseCompose.ShownFactsAreFresh` | gateway/src/papercolor_gateway/pulse_service.py:25-33 | No fact is shown from outside its source's freshness window, and each idea is a voice capture's or one of a fresh mac snapshot, at its place |
| `PulseCompose.AssistantBlocksOnlyByText` | gateway/src/papercolor_gateway/pulse_service.py:121-130 | A view composes exactly when it composes with a plain assistant entry and the texts shown in the assistant's two places are acceptable |
| `PulseCompose.AcceptedNoteFits` | gateway/src/papercolor_gateway/pulse_models.py:39-46 | An accepted note fits the view exactly when its tab-expanded form is within 160 characters |
| `PulseCompose.SourceTimesNeverFall` | gateway/src/papercolor_gateway/store.py:481-510 | Along any run of updates no source is lost and no source's time goes back |
| `PulseCompose.NewestIsStored` | gateway/src/papercolor_gateway/store.py:481-510 | After any run of updates each source's row is that of its newest update, the last where times are equal, whatever was refused on the way |
| `PulseCompose.ShownTimesNeverFall` | gateway/src/papercolor_gateway/pulse_service.py:43-49 | A later view never shows an older measurement, weather report or focus than an earlier one |
| `PulseReadings.ComposesIff` | gateway/src/papercolor_gateway/pulse_service.py:63-140 | A view composes exactly when the times shown can be written and every fact of the fresh snapshots is within its own limits, stated fact by fact for the snapshots' fields |
| `PulseReadings.FreshAre` | gateway/src/papercolor_gateway/pulse_service.py:63-75 | The snapshots used are exactly the stored ones no older than two hours, six hours and seven days, and at most five minutes ahead |
| `PulseReadings.IdeasAreMerged` | gateway/src/papercolor_gateway/pulse_service.py:63-120 | With voice captures they come first and then the mac's ideas, three in all; without, the mac's |
| `PulseReadings.TextIsRead` | gateway/src/papercolor_gateway/pulse_models.py:31-46 | A text is read without the white space around it, exactly when the rest fits the limit and has no control character but newlines and tabs, with its tabs expanded |
| `PulseReadings.LineBreaksAre` | gateway/src/papercolor_gateway/pulse_models.py:36-36 | A carriage return, with the newline after it if there is one, is one line break |
| `PulseReadings.SessionIs` | gateway/src/papercolor_gateway/pulse_models.py:258-273 | A session is read exactly when it has only its three texts, each acceptable within its own limit, and then as they are |
| `PulseReadings.IdeaIs` | gateway/src/papercolor_gateway/pulse_models.py:299-314 | An idea is read exactly when it has only its two texts and its time, each acceptable, and then as they are |
| `PulseReadings.WeatherIs` | gateway/src/papercolor_gateway/pulse_models.py:106-131 | A weather report is read exactly when it has only its fields, each within its limits and the low not above the high, and then as they are |
| `PulseReadings.FocusIs` | gateway/src/papercolor_gateway/pulse_models.py:134-157 | A focus is read exactly when it has only its fields, each acceptable, and then as they are |
| `PulseService.PublicationIsAtomic` | gateway/src/papercolor_gateway/pulse_service.py:142-148 | A publication that succeeds makes the rendered pages the only active generation; one that fails leaves generations, jobs and version as they were |
| `PulseService.PublishesIff` | gateway/src/papercolor_gateway/pulse_service.py:142-148 | A publication succeeds exactly when there is a view, it renders, and its pages are the three named ones, each a PNG, within the byte limit and numbered apart; it fails as not composed or not rendered exactly where it does |
| `PulseService.PulseService.RenderAndActivate` | gateway/src/papercolor_gateway/pulse_service.py:142-148 | Takes the store's tables and the outcome exactly where composing, rendering and activating say |
| `PulseService.PulseService.UpdateSource` | gateway/src/papercolor_gateway/pulse_service.py:43-49 | An update older than the stored one is refused and changes nothing; an accepted one stays even when the publication fails |
| `PulseService.PulseService.UpdateAssistant` | gateway/src/papercolor_gateway/pulse_service.py:51-61 | Only the assistant's row changes, and a published view keeps every fact the view had without the update |
| `PulseModels.AcceptedTextReadsBack` | gateway/src/papercolor_gateway/pulse_models.py:31-46 | A text accepted once is accepted again with the same limit exactly when its expanded form still fits, and then unchanged |
| `PulseModels.TabbedNoteIsRefused` | gateway/src/papercolor_gateway/pulse_models.py:39-46 | A family of accepted notes that the second validation refuses |
| `JpegScan.GetJpgSize` | main/hal/utils/image/image_utils.cpp:35-64 | Ends on every buffer, reads only inside it, and reports a size exactly when the walk finds a frame header with both dimensions positive |
| `JpegScan.FindsFrameSize` | main/hal/utils/image/image_utils.cpp:40-62 | For every stream of an SOI marker, length-bearing segments with fill bytes, and a frame header, the walk finds that header's size |
| `JpegScan.ScanSkips` | main/hal/utils/image/image_utils.cpp:41-61 | The walk steps over one segment exactly, whatever it contains |
| `PercentCodec.UrlEncodeComponent` | main/apps/app_server/app_server.cpp:170-203 | Succeeds exactly when the encoding and its terminator fit the buffer, which then holds it |
| `PercentCodec.UrlDecodeComponent` | main/apps/app_server/app_server.cpp:205-244 | Succeeds exactly when the text decodes and the result and its terminator fit the buffer, which then holds it |
| `PercentCodec.RoundTrip` | main/apps/app_server/app_server.cpp:170-244 | Decoding the encoding of a NUL-free string gives the string |
| `PercentCodec.EncodingIsSafe` | main/apps/app_server/app_server.cpp:181-197 | An encoding has only unreserved bytes and percent signs |
| `PercentCodec.EncodesEach` | main/apps/app_server/app_server.cpp:181-197 | An encoding is that of its bytes, one by one and in order |
| `PercentCodec.ByteIsEncoded` | main/apps/app_server/app_server.cpp:181-197 | An unreserved byte is written as it is, any other as a percent sign and its two upper-case digits |
| `PercentCodec.PlainBytesDecode` | main/apps/app_server/app_server.cpp:205-240 | A plus sign decodes to a space, and every other byte but a percent sign to itself |
| `PercentCodec.StrictIff` | main/apps/app_server/app_server.cpp:214-225 | The decoder agrees with one that takes only two hexadecimal digits exactly on the texts it refuses and those whose every percent sign is followed by two such digits |
| `PercentCodec.SignedEscapeIsAccepted` | main/apps/app_server/app_server.cpp:214-225 | A text where it does not: %+5 decodes to the byte 5 |
| `PercentCodec.EncodingHasHexEscapes` | main/apps/app_server/app_server.cpp:181-197 | Every encoding has only such escapes |

## Left out

- HTTP, TLS, NVS, I2C, Wi-Fi, USB, LED, audio and e-paper drivers: each call is a success or a failure.
- JSON and SQL text, including the 64 KiB limit on manifest files; strings are sequences of characters.
- The Pulse page index, the buttons and the slideshow, which only choose among pages already cached.
- Voice upload and telemetry inside a synchronization: they read other files and ignore their own failures.
- Factory reset (`reset_state`), which deletes the cache under the manifest and is outside asset closure.
- The acknowledgement's message text in the device's slot, which no decision reads.
- Eventual delivery of acknowledgements: the slot holds one entry, can be overwritten, and a refused
  acknowledgement is retried unchanged.
- At most one display per job without any condition: it is false of the code (`LostMark.ShownTwiceFromNew`).
- A failed storage switch ending on SPI flash: the code leaves nothing mounted in that case.
- Null pointers handed to the codec and the scanner; the caller's buffers are always there.
- The web page, the MCP and HTTP handlers, authentication, the Cloudflare worker and provisioning.
- The shape check of a source snapshot as it arrives (`SourceUpdate.from_mapping`); what is stored is composed whatever its shape.
- Rendering of cards and Pulse pages beyond text fitting; the renderer is a success or a failure.
- Image downloads by URL and DNS, which concern the network.
- DeviceClient.DeviceClient.SyncNow: an answer naming an asset of size between 0 and 1 is excluded, because the device would then hold a manifest it cannot read back; the gateway issues none (`DisplaySystem.IssuedMayBeHeard`).
- DeviceClient.DeviceClient.TakeManifest: the same answers are excluded.
- DeviceClient.DeviceClient.ReadAnswer: the same answers are excluded.
- JobStore.JobStore.RegisterDevice: the token's hash is not modelled, because no modelled decision reads it.
- HalStorage.HalStorage.AnyCalls: counts a storage object whose deletion failed as given up, because the code drops the handle without it; the results of void releases are not modelled either.
- PulseCompose.ShowsFreshFacts: measurements are reals, because rounding in floating point is not the point.
