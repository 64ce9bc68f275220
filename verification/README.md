# Verification of the writer lease, the restore, the inventory and the backfills

A Dafny model of the parts of the repository whose correctness rests on the order of steps, on what other
processes do in between, or on agreement between two programs, with proofs of what those parts promise.
`dafny verify dfyconfig.toml` checks everything.

| files | what they model |
|---|---|
| `Lease`, `LeaseProtocol`, `LeaseCommands` | the lease record and its policy; the four lease commands as interleaved steps, one file operation a step; the same commands as written, statement by statement |
| `LeaseSafety`, `LeaseContention`, `LeaseExclusion`, `LeaseConservation`, `LeaseBoundary` | complete or absent, ancestry and receipts; one winner; mutual exclusion; conservation of leases and evidence; where the assumptions bite |
| `Porcelain`, `AllowedPaths` | the `git status -z` parser and the path allowlist of the lease tool |
| `CrashDisk`, `Restore`, `Attest` | a disk that loses power and keeps any subset of its unflushed directory operations; the coupled restore; the record path of the attestation tool |
| `InventoryRows`, `InventoryTables`, `InventoryKeys`, `InventoryJournal`, `InventoryBots`, `InventoryBoundary`, `Inventory` | the phone inventory: rows and identity resolution, the transactions, keys, audit journal, assignment history, calls that reach the exceptions, and the class itself |
| `StableSort`, `BackfillManifest`, `BackfillExecute`, `BackfillSafety` | the manifest generator and its digest, the executor, and their agreement and atomicity |
| `Enrichment`, `EnrichmentSafety`, `EnrichmentRuns`, `EnrichmentOutcome` | the enrichment backfill; grouping, accounting and what a mark means; retries with any limits and faults; the queue they end in when findings repeat |
| `Frames`, `Expiry` | the frame protocol of the growth guard; the expiry predictor of the parity guard against the age checks it predicts |

## How to read the model

* **Leases.** A state holds the files, every command in flight, and history variables. An action starts a command,
  lets one command do its next file operation, or kills a process; a run is any sequence of actions, so crashes
  are commands that take no further step. Every answer of the outside world (process probe, second look at the
  repository, failing system call) is an input of the step. Exclusion and conservation are stated for runs that
  meet four assumptions: writers are fail-stop (a dead writer takes no step), each runs one command at a time,
  the probe says `absent` only of dead processes, and a claim moves the lease that the takeover validated.
  Completeness, ancestry, the receipt and the single winner need none of them. The header of the source says that
  takeover is quarantined (scripts/agent-lease.ts:41-44); `LeaseBoundary` shows why: heartbeat, release and
  takeover rename without comparing again. The doc comment of `acquireLease` speaks of a single exclusive open;
  the code stages the record and links it, and the model follows the code.
* **Crashes.** Data and directory entries are durable separately. Power loss keeps an arbitrary subset of the
  directory operations since the last directory flush and scrambles bytes that were not flushed. A restore may
  also just stop, between any two steps, and be started again on the disk as it then is, pending operations and all.
  The source swallows whatever an unlink throws, so which unlinks fail is an input of every run.
* **Inventory.** The tables are maps, a transaction either yields a new database or a refusal that rolls back.
  Texts are `None` or any text; where the source treats the empty text as absent in Python and as a value in SQL
  the model does too, and the theorems say where that matters. Keyed digests are injective; case folding and
  white space are the ASCII ones. Timestamps are integers, passed in.
* **Backfills.** SHA-256 is injective. The executor reads the database once per descriptor, each time at a moment
  of its own, and once more under the lock; other writers may do anything in between that the schema lets them:
  obligations are never deleted and their identity never changes (src/core/database-migration-58.ts).
* **Restated sources.** Where the code turned out not to keep a promise everywhere, the model keeps the code, one
  theorem says exactly when the promise holds, and another gives an input on which it does not:

  | exact condition | input | the exception |
  |---|---|---|
  | `LeaseBoundary.ClaimIsSafeExactly`, `LeaseBoundary.ClaimConservesExactly` | `LeaseBoundary.UnvalidatedClaimBreaksBoth` | a claim of a lease other than the validated one |
  | `Restore.NothingIsPairedIff` | the condition itself: any sidecar whose unlink fails | an unlink that fails on a file that is there |
  | `InventoryRows.ResolutionProtectsKeys` | `InventoryBoundary.SerialsThatDifferInCaseCollide` | the digest of the serial number; the empty text as a serial |
  | `InventoryRows.SerialsNeverChangeIff`, `InventoryKeys.IdentityChangesIff` | `InventoryBoundary.EmptyTextErasesSerial` | the empty text over a serial |
  | `InventoryRows.DigestsNeverChangeIff` | `InventoryBoundary.EmptiedSerialChangesDigest` | the serial number after its serial became the empty text |
  | `InventoryKeys.SimStaysInStepIff` | `InventoryBoundary.BlankTextBreaksStep` | a blank text |
  | `EnrichmentSafety.OkIffMarked` | `EnrichmentSafety.SilentFailureHappens` | a thrown value of empty text |
  | `Expiry.PredictionIsExactIff` | `Expiry.UnreachableRowMisleads` | rows whose capabilities are malformed, which the age checks skip and the predictor reads |
  | `Expiry.LastGoodDayIff` | `Expiry.LastGoodDayMisses` | a budget that ends on the last millisecond of a day |

  `EnrichmentRuns.FailingChatsStarveTheRest` shows that the backlog drains only by runs without faults. The comment on
  the predictor says that a claim fails from `failsFrom` on; the check is strict, and so is the model.

## Model

| member | source | states |
|---|---|---|
| `Lease.CheckIncumbent` | scripts/agent-lease.ts:1083-1129 | a takeover gets past its first checks exactly for an expired lease of the same worktree, on the expected branch and head, with a writer whose process identity parses; each refusal says which of the five failed first, with one or two lines of receipt |
| `LeaseSafety.CompleteOrAbsent` | scripts/agent-lease.ts:783-829 | in every run, crashes included, the lease path and every evidence file is absent or holds a whole published record |
| `LeaseSafety.RunIsSound` | scripts/agent-lease.ts:861-1319 | what every interleaving keeps: lineages, whole files, and the state of each command at each of its steps |
| `LeaseSafety.Ancestry` | scripts/agent-lease.ts:1279-1319 | every published record traces to one root acquire; its generation is one plus the takeovers between them and its base OID is the root's |
| `LeaseSafety.TakeoverReceipt` | scripts/agent-lease.ts:1083-1319 | a takeover that reports success published its own lease as a successor and its receipt lists prerequisites 1 to 7 in order, all satisfied |
| `LeaseSafety.RefusalPublishesNothing` | scripts/agent-lease.ts:1183-1319 | a command that reports a refusal published no lease, wherever it was refused |
| `LeaseContention.AtMostOneWinner` | scripts/agent-lease.ts:735-888 | in any run in which nothing moves the lease away, whatever commands, faults and crashes it has, at most one acquire succeeds |
| `LeaseContention.ExactlyOneWinner` | scripts/agent-lease.ts:735-888 | when nothing moves the lease away, whatever else is started, refused, faulty or killed: every acquire that passed its planning and loses without a failing call reports a conflict or an expired lease, never unaccountable state; and once all of them have returned, one at least without a failing call, exactly one command has succeeded |
| `LeaseExclusion.MutualExclusion` | scripts/agent-lease.ts:861-1319 | at no moment of a run meeting the four assumptions do two granted leases have live holders, and the held one is at the lease path |
| `LeaseExclusion.RunExcludes` | scripts/agent-lease.ts:861-1319 | the inductive invariant behind it holds in every such run |
| `LeaseConservation.LeaseConservation` | scripts/agent-lease.ts:983-1212 | in those runs every lease ever published is in exactly one place: lease path, claim file, released or abandoned, and evidence is filed under its own name |
| `LeaseConservation.EvidenceIsWriteOnce` | scripts/agent-lease.ts:1009-1246 | what a released, abandoned or abandonment-record file holds once, it holds at every later moment |
| `LeaseBoundary.ClaimIsSafeExactly` | scripts/agent-lease.ts:1180-1195 | a claim leaves mutual exclusion to hold in every continuation if and only if the writer of the lease it moves is dead |
| `LeaseBoundary.ClaimConservesExactly` | scripts/agent-lease.ts:1180-1212 | a claim leaves every lease in one place under its own name, and evidence write-once, in every continuation if and only if the lease it moves has the id of the validated one |
| `LeaseBoundary.UnvalidatedClaimBreaksBoth` | scripts/agent-lease.ts:1052-1212 | a concrete fail-stop run with truthful probes in which an unvalidated claim leaves two live holders and overwrites evidence |
| `LeaseBoundary.NewcomerBreaksExclusion` | scripts/agent-lease.ts:861-873 | once a live holder has lost the lease path, an ordinary acquire by a newcomer makes a second holder |
| `LeaseCommands.LeaseDirectory.PublishLease` | scripts/agent-lease.ts:809-831 | run alone, it links the whole record onto a free path, leaves a taken path alone, leaves no staging file, and takes exactly the steps of the interleaved model |
| `LeaseCommands.LeaseDirectory.AcquireLease` | scripts/agent-lease.ts:861-873 | a free path gets the planned record; a taken one yields the classified refusal and nothing changes |
| `LeaseCommands.LeaseDirectory.LoadOwnedLease` | scripts/agent-lease.ts:946-980 | the record at the path exactly when its session and process are the caller's; otherwise which refusal |
| `LeaseCommands.LeaseDirectory.HeartbeatLease` | scripts/agent-lease.ts:994-1007 | granted exactly to the owner, refused with which reason; only heartbeat and expiry change |
| `LeaseCommands.LeaseDirectory.ReleaseLease` | scripts/agent-lease.ts:1009-1029 | granted exactly to the owner; the record moves to the released file of its own name |
| `LeaseCommands.LeaseDirectory.FileEvidence` | scripts/agent-lease.ts:1197-1277 | whatever the second look says, the claimed record ends up as evidence with its note; the last four lines of the receipt, and what follows, are as the look decides |
| `LeaseCommands.LeaseDirectory.TakeoverLease` | scripts/agent-lease.ts:1052-1319 | exactly when it claims: the lease passes its checks and the probe says absent; refused before that it changes nothing, refused after it the record is evidence and the path empty, granted the successor is at the path with a full receipt |
| `Porcelain.CollectTargets` | scripts/agent-lease.ts:474-485 | the loop collects exactly the target paths, skipping the origin field of renames and copies and fields too short |
| `Porcelain.ParsePorcelainZ` | scripts/agent-lease.ts:474-485 | the result is sorted and is a rearrangement of the target paths |
| `Porcelain.RoundTrip` | scripts/agent-lease.ts:469-485 | printing any well-formed entries and reading the fields back gives exactly their target paths; no origin is read as an entry |
| `Porcelain.SortedIsUnique` | scripts/agent-lease.ts:484 | two sorted arrangements of the same paths are equal, so the two together pin the result down |
| `AllowedPaths.CheckAllowedPaths` | scripts/agent-lease.ts:637-652 | the violations are, in order, the candidates that are not accepted |
| `AllowedPaths.Covered` | scripts/agent-lease.ts:646-649 | the string test finds an entry exactly when some entry contains the path as whole segments |
| `AllowedPaths.PrefixIsContainment` | scripts/agent-lease.ts:646-649 | equal or prefix-with-slash is the same as being a prefix of segments |
| `AllowedPaths.MoreEntriesViolateLess` | scripts/agent-lease.ts:637-652 | adding entries never adds violations |
| `AllowedPaths.EmptyDeniesAll` | scripts/agent-lease.ts:637-652 | an empty list rejects every candidate |
| `AllowedPaths.ParentAlwaysViolates` | scripts/agent-lease.ts:641-645 | a path with a `..` segment is a violation whatever is allowed |
| `Frames.ReadWorkingDocuments` | scripts/baseline-growth-guard.ts:116-162 | accepts exactly the encodings of documents for the requested distinct paths, returns documents that encode back to the bytes it was given, and returns every documents that do |
| `Frames.RoundTrip` | scripts/baseline-growth-guard.ts:146-162 | decoding the encoding of any documents returns them |
| `Frames.DecodingIsUnique` | scripts/lib/ci-control/working-document-reader.ts:117-127 | no two documents have the same encoding |
| `Frames.ReadFrame` | scripts/baseline-growth-guard.ts:149-160 | a frame is read exactly when its header, kind and length pass, and yields the bytes up to its end |
| `Frames.UInt32RoundTrip` | scripts/lib/ci-control/working-document-reader.ts:120-127 | a length written big-endian is read back |
| `Frames.UInt32Inverse` | scripts/baseline-growth-guard.ts:152 | any four bytes are the encoding of the length read from them |
| `Expiry.CheckAges` | scripts/check-fleet-bot-hardening-parity.ts:821-836 | the age checks report stale at `now` exactly when some date they reach is older than the budget |
| `Expiry.CollectDates` | scripts/check-fleet-bot-hardening-parity.ts:892-908 | the predictor collects exactly the dates of the manifest, its rows and their receipts |
| `Expiry.PredictExpiry` | scripts/check-fleet-bot-hardening-parity.ts:887-919 | no prediction exactly when there is no date, else the one of an earliest date |
| `Expiry.PredictionIsExactIff` | scripts/check-fleet-bot-hardening-parity.ts:426-437 | stale at t if and only if t is after `failsFrom`, for all t, exactly when a date the checks reach is as early as the predictor's |
| `Expiry.PredictionIsExact` | scripts/check-fleet-bot-hardening-parity.ts:541-556 | so the predictor is exact for every manifest of well-formed rows |
| `Expiry.UnreachableRowMisleads` | scripts/check-fleet-bot-hardening-parity.ts:376-380 | a row whose capabilities are malformed makes the predictor cry stale when no check does |
| `Expiry.DaysRunOut` | scripts/check-fleet-bot-hardening-parity.ts:909-918 | `daysRemaining` is negative exactly after `failsFrom` |
| `Expiry.LastGoodDayIff` | scripts/check-fleet-bot-hardening-parity.ts:909-917 | `lastGoodDay` is the last day wholly inside the budget unless the budget ends on the last millisecond of a day |
| `Expiry.LastGoodDayMisses` | scripts/check-fleet-bot-hardening-parity.ts:909-917 | the exception happens for a claim made on the last millisecond of a day |
| `Expiry.LastGoodDayOfDate` | scripts/check-fleet-bot-hardening-parity.ts:258-262 | so for a claim that is a date it always is |
| `Restore.ReadyIsSafe` | scripts/capability-obligation-as01-rehearsal.ts:368-386 | a migrated clone with a synced main file, whatever its main bytes and sidecars, meets the invariant that every possible outcome of a power loss is recoverable |
| `Restore.CrashIsRecoverable` | scripts/capability-obligation-as01-rehearsal.ts:386-424 | power lost after any number of steps, with any subset of unflushed directory operations kept, leaves the un-restored main file or the whole backup with no sidecar, and the invariant again, unless the run renamed beside a sidecar it could not unlink |
| `Restore.NothingIsPairedIff` | scripts/capability-obligation-as01-rehearsal.ts:404-419 | a run cut anywhere can leave the backup paired with a sidecar if and only if it got as far as the rename and the unlink of a sidecar that was there has failed |
| `Restore.RestoreConverges` | scripts/capability-obligation-as01-rehearsal.ts:368-424 | after any number of attempts, each stopped, cut by power loss or given up, with any unlinks failing, a run that finishes leaves the file set equal to the backup if and only if no sidecar that is there fails to be unlinked |
| `Restore.NothingIsEverPaired` | scripts/capability-obligation-as01-rehearsal.ts:386-424 | after any number of harmless attempts a further power loss leaves a recoverable disk, and unless the clone started out as the backup beside a sidecar, nothing is ever paired |
| `Restore.UnflushedPairs` | scripts/capability-obligation-as01-rehearsal.ts:414-419 | without the directory flush between the unlinks and the rename, a crash can pair the restored main file with the stale log |
| `Restore.RestoreHost.RehearseCoupledRestore` | scripts/capability-obligation-as01-rehearsal.ts:386-431 | may be called again after any of its outcomes; which outcome it has and exactly which steps it has taken; a bad backup leaves every file of the clone alone; a finished run has restored the backup exactly unless an unlink of a sidecar failed, and reports success exactly when the log that is left has the bytes of the backup's own |
| `Restore.SuccessOverlooksSidecarIff` | scripts/capability-obligation-as01-rehearsal.ts:217-226 | the file-set hashes agree although a sidecar outlived the restore exactly when an unlink failed and the log that is left, if any, has the bytes of the backup's log |
| `Attest.EvidenceBeforeAdmission` | scripts/capability-obligation-attest.ts:472-519 | at every moment of every history of runs and power losses, a row implies that the receipt of its run is durable |
| `Attest.DurableReceiptNeverChanges` | scripts/capability-obligation-attest.ts:496-506 | once durable, a receipt keeps its bytes whatever happens later |
| `Attest.ReusedPathRecordsNothing` | scripts/capability-obligation-attest.ts:496-506 | no two rows ever share a receipt path |
| `Attest.OccupiedPathEndsTheRun` | scripts/capability-obligation-attest.ts:496-506 | a run that reaches its link when its path is occupied, with a row or without, removes its temp file and ends without a row, and the receipt there is kept |
| `Attest.Recorder.WriteReceiptDurably` | scripts/capability-obligation-attest.ts:486-519 | succeeds exactly on a free path, and then the receipt is durable; receipts already there are kept either way |
| `Attest.Recorder.Record` | scripts/capability-obligation-attest.ts:612-637 | inserts its row exactly when the path was free and the nonce unused, and every row keeps its durable receipt |
| `InventoryRows.CoalesceKeepsStepIff` | phonectl/asset_inventory.py:492-507 | raw, digest and display column, coalesced one by one, stay in step exactly unless a blank text meets a row with a value |
| `InventoryRows.ResolutionProtectsKeys` | phonectl/asset_inventory.py:411-450 | a device upsert that gets past resolution breaks no unique key of the schema, except exactly when the digest of its read-only serial is another device's serial number, or an empty text it gives for a serial is another device's |
| `InventoryBoundary.SerialsThatDifferInCaseCollide` | phonectl/asset_inventory.py:391-450 | reached by calls from the empty inventory: two serials that differ only in case match nobody, and the schema refuses the second |
| `InventoryBoundary.EmptyTextErasesSerial` | phonectl/asset_inventory.py:300-320 | reached by calls: an upsert that names a device by one serial and gives the empty text for the other erases that one |
| `InventoryBoundary.EmptiedSerialChangesDigest` | phonectl/asset_inventory.py:437-518 | reached by calls: after that a different serial is accepted, and the digest of the serial number changes |
| `InventoryBoundary.BlankTextBreaksStep` | phonectl/asset_inventory.py:557-600 | reached by calls: a blank phone number leaves a SIM's columns out of step |
| `InventoryRows.SerialsNeverChangeIff` | phonectl/asset_inventory.py:437-442 | once set, either serial of a device is kept by an accepted upsert exactly unless the empty text is given for it |
| `InventoryRows.DigestsNeverChangeIff` | phonectl/asset_inventory.py:443-449 | once set, an identifier digest of a device changes in an accepted upsert exactly when it is the serial number's, the read-only serial has become the empty text, and another serial is given |
| `InventoryKeys.SchemaRefusesDeviceIff` | phonectl/asset_inventory.py:1192-1249 | with a fresh id the schema refuses a device upsert exactly when it got past resolution and its serial digest, or an empty text it gives for a serial, is taken |
| `InventoryKeys.SimUpsertIsUnique` | phonectl/asset_inventory.py:539-560 | a SIM upsert with at most one candidate keeps each of the three digests unique |
| `InventoryKeys.SchemaRefusesSimIff` | phonectl/asset_inventory.py:1251-1276 | the schema refuses a SIM upsert exactly for an assigned device that does not exist |
| `InventoryKeys.SimStaysInStepIff` | phonectl/asset_inventory.py:557-600 | a SIM's columns stay in step exactly unless a blank text is given where the row has a value |
| `InventoryKeys.RunKeepsKeys` | phonectl/asset_inventory.py:1192-1311 | after any calls, every unique and foreign key holds and every identifier's three columns are in step |
| `InventoryKeys.IdentityChangesIff` | phonectl/asset_inventory.py:411-518 | in any history, a call changes the identity of a device exactly when it puts the empty text over one of its serials |
| `InventoryKeys.IdentityIsForever` | phonectl/asset_inventory.py:411-518 | over whole runs: once a device has a serial or an identifier digest, every later state has the same one, as long as no such call comes |
| `InventoryJournal.JournalRefinesTables` | phonectl/asset_inventory.py:1084-1131 | after any calls, replaying the after-images gives exactly the non-sensitive part of every device, SIM and bot-assignment row |
| `InventoryJournal.BeforeIsPreviousAfter` | phonectl/asset_inventory.py:1084-1131 | each before-image is the after-image of the entity's previous event, and the first event has none |
| `InventoryJournal.JournalOnlyGrows` | phonectl/asset_inventory.py:1101-1126 | the journal is append-only: no later call changes or removes an event |
| `InventoryBots.AssignExtendsHistory` | phonectl/asset_inventory.py:670-739 | an accepted assignment appends one open row to its bot's history, closes the previous one at the same instant, and changes no other row |
| `InventoryBots.AssignIsRefusedOnlyByChecks` | phonectl/asset_inventory.py:670-739 | an assignment that passes its own checks never meets a unique index |
| `InventoryBots.HistoryIsOneChain` | phonectl/asset_inventory.py:670-739 | after any calls with a monotone clock a bot's assignments are contiguous intervals and only the last is active |
| `InventoryBots.NoDuplicates` | phonectl/asset_inventory.py:1169-1177 | no phone is active on two bots and `_duplicate_findings` is empty, after any calls |
| `InventoryBots.VerifyPassesIff` | phonectl/asset_inventory.py:920-937 | `verify_bot` passes exactly when an active row exists, which is as soon as the bot was ever assigned |
| `Inventory.AssetInventory.CollectCandidates` | phonectl/asset_inventory.py:418-432 | one row per query collects every device that any key matches |
| `Inventory.AssetInventory.ResolveExistingDevice` | phonectl/asset_inventory.py:411-450 | the only match, nobody, or a conflict, as resolution is specified |
| `Inventory.AssetInventory.UpsertPhysicalDevice` | phonectl/asset_inventory.py:275-409 | the tables become what the call makes of them or are rolled back, with the specified refusal, and all invariants are kept |
| `Inventory.AssetInventory.UpsertSimProfile` | phonectl/asset_inventory.py:520-643 | the same for a SIM profile |
| `Inventory.AssetInventory.ResolveDeviceReference` | phonectl/asset_inventory.py:452-470 | the device named by id, asset tag, serial or earlier USB serial, or why there is none |
| `Inventory.AssetInventory.ResolveSimReference` | phonectl/asset_inventory.py:472-490 | the SIM named by id or by a digest, or why there is none |
| `Inventory.AssetInventory.Assign` | phonectl/asset_inventory.py:645-739 | the same for a bot assignment |
| `Inventory.AssetInventory.VerifyBot` | phonectl/asset_inventory.py:920-937 | passes exactly when the bot has an active row, and returns it |
| `StableSort.SortEqualIff` | scripts/capability-obligation-backfill-manifest.ts:190-212 | two lists sort to the same one exactly when for every key they have the same values in the same order |
| `BackfillManifest.DigestEqualIff` | scripts/capability-obligation-backfill-manifest.ts:189-214 | two manifests have the same digest exactly when they have the same id and, per source sequence number, the same covered fields in the same order |
| `BackfillManifest.GenerateBackfillManifest` | scripts/capability-obligation-backfill-manifest.ts:230-401 | the entries, the count and the digest are those of the confirmed entries |
| `BackfillManifest.NothingIsDropped` | scripts/capability-obligation-backfill-manifest.ts:242-392 | every confirmed entry has its descriptor in its place, with a reason exactly when it is not eligible |
| `BackfillExecute.ExecuteBackfill` | scripts/capability-obligation-backfill-execute.ts:105-309 | the report and the ledger are those of a run with the given views, whatever other writers do between them |
| `BackfillExecute.Recheck` | scripts/capability-obligation-backfill-execute.ts:280-291 | the re-check under the lock stops at the first row whose job or key changed |
| `BackfillExecute.InsertPrepared` | scripts/capability-obligation-backfill-execute.ts:292-306 | an existing row wins, a new one is appended, and one invalid row undoes them all |
| `BackfillSafety.AllOrNothing` | scripts/capability-obligation-backfill-execute.ts:155-309 | a run that does not commit changes nothing and reports nothing created; one that commits only adds to the ledger, leaves the recovery rows as they were, and has the obligation of every approved descriptor in it |
| `BackfillSafety.InsertedIsConfirmed` | scripts/capability-obligation-backfill-execute.ts:274-300 | every inserted row comes from an approved descriptor, was absent from the ledger it was inserted into, and had a confirmable recovery job in that state |
| `BackfillSafety.SecondRunCreatesNothing` | scripts/capability-obligation-backfill-execute.ts:177-182 | after a run that completed, no later run of the same descriptors inserts a row, whatever other writers do |
| `BackfillSafety.EligibleIsSound` | scripts/capability-obligation-backfill-manifest.ts:230-392 | what the generator marks eligible has everything the executor checks, in the same world |
| `BackfillSafety.GeneratorAndExecutorAgree` | scripts/capability-obligation-backfill-execute.ts:125-309 | a run approved with the digest of a generated manifest, given its eligible descriptors in any order that keeps those of one sequence number in order, on an unchanged database: the digest check passes, nothing is skipped, and every descriptor is created or exists already |
| `BackfillSafety.InsertAllAdds` | src/core/capability-obligation-store.ts:284-321 | the inserts put every prepared key into the ledger and add only prepared rows whose key was nowhere before |
| `Enrichment.GroupByChatJid` | scripts/backfill-enrichment.ts:69-77 | the map holds for each chat its messages in order, with the chats in the order of their first message |
| `Enrichment.EnqueueFacts` | src/runtimes/chat/enrichment/fact-export-queue.ts:134-229 | the queue after insert-or-ignore of every fact, and counts that add up |
| `EnrichmentSafety.KeyedEnqueueKeepsItsWord` | src/runtimes/chat/enrichment/fact-export-queue.ts:134-229 | that queue meets what the theorems ask of an injected one: nothing leaves it, no key is in it twice, only given facts get in, and all of them when the accounting adds up |
| `Enrichment.EnrichmentDb.ProcessBatch` | scripts/backfill-enrichment.ts:331-429 | for any injected queue and accounting, the store and the report follow from what throws first, if anything does, and whether the accounting adds up |
| `Enrichment.EnrichmentDb.RunBackfill` | scripts/backfill-enrichment.ts:463-638 | every fetched chat is run once, in order, and the counters are those of the reports |
| `EnrichmentSafety.GroupsPartition` | scripts/backfill-enrichment.ts:69-77 | the groups hold every message exactly as often as the list, no chat twice, order kept |
| `EnrichmentSafety.OkIffMarked` | scripts/backfill-enrichment.ts:548-552 | in a real run a batch counts ok exactly when its messages are marked, or a value of empty text was thrown before anything was queued |
| `EnrichmentSafety.OkCountsMarked` | scripts/backfill-enrichment.ts:548-552 | over a whole real run, `batchesOk` is the number of batches marked plus the number of such silent failures |
| `EnrichmentSafety.SilentFailureHappens` | scripts/backfill-enrichment.ts:425 | that exception exists |
| `EnrichmentSafety.MarkedMeansQueued` | scripts/backfill-enrichment.ts:384-393 | for any injected queue, the marks change exactly by the batches reported marked, and a batch that throws nothing is marked exactly when it had nothing to queue or its accounting adds up; all its validated facts are then queued; a dry run changes nothing |
| `EnrichmentSafety.EnqueueKeeps` | src/runtimes/chat/enrichment/fact-export-queue.ts:134-229 | every fact ends up queued, nothing else does, and no key gets in twice |
| `EnrichmentRuns.RunsAreAccounted` | scripts/backfill-enrichment.ts:463-638 | after any runs, with any limits, faults and dry runs, the queue has grown without a duplicate, holds the facts of every marked batch and only facts of batches that got to it, and exactly the messages of the marked batches are marked, each by one batch |
| `EnrichmentRuns.BacklogDrains` | src/core/messages.ts:261-271 | among any other runs, the runs without faults take from the backlog what their limits add up to |
| `EnrichmentRuns.CleanRunsTakeOldest` | src/core/messages.ts:261-271 | without faults exactly the oldest messages are taken, in order |
| `EnrichmentRuns.RetriesConverge` | scripts/backfill-enrichment.ts:463-638 | once the limits of the runs without faults add up to the backlog, every incoming message is marked, through exactly one marked batch whose facts are queued, and further runs change nothing |
| `EnrichmentRuns.CapacityOfSameLimit` | scripts/backfill-enrichment.ts:480 | with one limit that takes as many runs without faults as the limit fits into the backlog, rounded up |
| `EnrichmentRuns.FailingChatsStarveTheRest` | src/core/messages.ts:261-271 | while the oldest messages, as many as the limit, are of chats whose extraction throws, no run changes anything |
| `EnrichmentOutcome.SameFindingsConverge` | scripts/backfill-enrichment.ts:463-638 | when findings repeat and the backlog fits the limit, retries with any faults, one of them without, leave exactly the queue one run without faults leaves |
| `EnrichmentSafety.SummaryCountsMarks` | scripts/backfill-enrichment.ts:532-533 | `messagesProcessed` is the number of messages the run marked, all of them fetched |

## Left out

- Lease files: a file holds a value, because every file of the protocol is written once under a fresh name before it is linked or renamed; free text of messages and steps, file modes and `fsync` of a staging file are not modelled, and a failing call is an input of its step.
- Lease identifiers: UUIDs are the number of the command that draws them, so they never collide.
- LeaseCommands.LeaseDirectory.TakeoverLease: run alone and without I/O errors; interleaving and failing calls are in `LeaseProtocol`, whose steps it is proved to take.
- Record parsing, repository facts, bindings and the CLI of the lease tool: inputs; a record that does not parse is a file that holds no whole record.
- AllowedPaths.CheckAllowedPaths: entries are compared as they stand, without the candidate's normalisation, as in the source.
- Restore.RestoreHost.RehearseCoupledRestore: SQLite itself; the integrity check is a predicate on the bytes, and the `-shm` file is outside the file-set hash, as in the source.
- Attest: the canary, the binding and the configuration checks decide only whether a run begins.
- Inventory: administrators, network topology, discovery, exports and the CLI; the timestamps of USB serials, identifiers and events; the migration check.
- BackfillManifest.GenerateBackfillManifest: contract evaluation is a parameter, of which only is used that a source token never comes from an empty text.
- BackfillExecute.ExecuteBackfill: the flag `recoveryRowsUnchanged`, the sender's name and the audit events; a digest is always well formed; `undefined` and `null` fields of a descriptor are one.
- BackfillSafety.GeneratorAndExecutorAgree: states that retention of the media of the eligible descriptors succeeds and that journal sequence numbers are positive.
- Enrichment.EnrichmentDb.RunBackfill: telemetry, the run table and elapsed time; a thrown `null`, on which the catch itself fails.
- EnrichmentRuns.RetriesConverge: no message arrives between the runs; a negative limit, which SQLite takes for none, is any limit that covers the backlog.
- EnrichmentOutcome.SameFindingsConverge: the limit covers the backlog, because with a smaller one the extractor sees other batches; `EnrichmentRuns.RetriesConverge` has any limits.
- Frames.ReadWorkingDocuments: the subprocess, its deadline and the identity checks of the repository root.
- Expiry.PredictExpiry: the rest of the manifest's validation.
- Regex-driven guards, drift and presence checks, thin wrappers over SQL, and configuration: no order of steps or agreement to prove.
