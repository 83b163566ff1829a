# Smartware: a verified model of the derived side and the recovery side

Smartware keeps append-only logs (evidence, claim versions, operations) as the truth. Row tables,
status indexes, job queues and pages are derived from them, cached, or repaired after a crash.
This project models the parts that keep the derived side and the crash-recovery side consistent
with the logs, and proves what they promise for every input, every run or every reachable state.

Where the source updates things in place the model is a class or a method with loops, specified by
a function or predicate on values; the theorems are about those. Pure code is functions and lemmas.

| file | component |
|---|---|
| `Evidence.dfy`, `HashChain.dfy` | evidence records and the per-writer hash chain |
| `OpsLog.dfy`, `Exactness.dfy`, `Recovery.dfy`, `RecoveryScan.dfy`, `RecoveryProofs.dfy`, `RecoveryDecisions.dfy` | intents, the epoch fence, the artifact predicates, the recovery scan, its guarantees and what each operation has coming |
| `CommitProtocol.dfy` | writers, epoch claims, any number of recovery scans with and without the fence, and crashes as one state machine |
| `StatusIndex.dfy`, `StatusHistory.dfy` | the evidence status table: live, rebuilt, caught up; which events of the log a status goes back to |
| `Suppression.dfy` | the suppression graph: acyclicity, currentness, forgetting, reviving |
| `ClaimStore.dfy`, `Admission.dfy`, `ValidTime.dfy`, `FactMatches.dfy` | the claim rows and their version log, admission, valid time, duplicate resolution |
| `NearDuplicates.dfy` | union-find with path halving |
| `ContextPacking.dfy` | two-pass budget packing |
| `JaroWinkler.dfy` | entity-name similarity |
| `CompileQueue.dfy`, `CompileRuns.dfy` | the durable compile queue, and its workers, crashes and syncs as one state machine |
| `FingerprintIndex.dfy`, `CompileProduction.dfy` | the fingerprint index: rebuilt, caught up, written live or in batches; what the worker leaves for one observation |
| `YamlText.dfy`, `YamlLines.dfy`, `Frontmatter.dfy`, `FrontmatterProofs.dfy`, `FrontmatterRoundTrip.dfy` | the page-header printer and parser |

`dafny verify dfyconfig.toml` checks everything.

## Findings

Properties that the code does not have in general; each is stated with the input or the run that
breaks it and the exact condition under which it holds.

- Recovery accepts an intent that names one demotion or one claim identity twice together with a
  version the intent never described (`RepeatedDemotionAdmitsForeignVersion`,
  `RepeatedIdentityAdmitsForeignVersion`). A re-pick is exact if and only if it names no artifact
  twice; the endorsement check is exact if and only if no identity is named twice
  (`EndorseCheckIsExactIff`).
- A finalized operation is everything under its id if and only if nothing stands on the surfaces its
  kind does not write; the scan does not look there (`FinalizedIsWholeIff`).
- An intent with an empty actor or timestamp is accepted by the reader, but its signal cannot be
  appended: the error is thrown out of the scan. A scan, first or repeated, reports if and only if no file
  of its plan throws (`CrashAndRerunConverges`); otherwise every later start throws again
  (`ThrowsAgain`), and recovery is blocked for good (`BlockedForGood`).
- A scan that is given the evidence alone, as OBSERVE does on a retry, drops an operation that a full scan
  would finalize if and only if it is a prepared REFLECT claim (`PartialScanDropsIff`).
- A scan that read mark 0 finalizes an unstamped set although a claim has fenced the brain since
  (`UnstampedSetOutlivesClaim`), even after another scan has rejected it
  (`SecondScanFinalizesRejected`). A rejected set stays out if and only if no writer is past the gate with
  it and no scan has let it through or still would (`RejectedStaysOutIff`).
- A scan or a writer without the fence commits anything: on one disk the scan with the fence rejects a
  stamped set behind the mark and the scan without it finalizes the set (`FenceDecides`,
  `UnfencedScanCommitsStale`). Every state of a run is authorized if and only if every step holds the
  fence or commits what was let through already (`RunAuthorizedIff`).
- Catch-up of the status index differs from rebuild exactly when some replayed event still touches the
  table (`CatchUpEqualsRebuildIff`): a redaction skipped while its target was quarantined resurfaces
  (`SkippedRedactionResurfaces`), and a record that entered a scope after its erasure marker is erased
  (`LateRecordIsErased`).
- Admission keeps the windows of a fact slot apart if and only if the newcomer starts after the last
  claim or restates it (`AdmissionKeepsWindowsApartIff`); any earlier start, and a rival value at the
  last start, leaves two claims open at once.
- The compile queue has no lock against a second process: `openCompileQueue` resets running jobs while
  other workers are alive, and `fail` is unconditional. A sync is safe if and only if everything the
  living workers hold is done or receipted and still accepted (`SyncIsSafeIff`); otherwise two workers
  hold one observation, and a done job can become failed (`SyncUnderWorkerLosesDone`).
- A retry of a failed job is safe if and only if no worker still buffers a failure mark for it
  (`RetryIsSafeIff`): a mark that lands after the receipt wins at the next sync.
- An effectively accepted observation is on the ledger after a sync if and only if its raw status is
  accepted or it was there before (`SyncCoversIff`): an approved quarantined observation is skipped. A
  done job of a compilable accepted observation has a receipt if and only if its raw status is accepted
  (`ReceiptsExact` in `QueueIsSafe`, `ApprovedAfterDone`). The repository's own hooks never enqueue the
  other kind, and then every such job has its receipt (`HookedRunsHaveReceipts`).
- Size-keyed catch-up of the fingerprint index equals a rebuild if and only if every row it holds is
  backed by a committed record and no month taken for unchanged holds anything newer
  (`CatchUpMatchesRebuildIff`). On files that only grow, and right after an erasure, nothing is missed
  (`ReplayedMissesNothing`, `PurgeMissesNothing`); an append that brings an erased month back to its
  recorded size is (`SizeCoincidenceMisses`).
- The worker writes the index before it commits. After a crash in between, the re-run finds its own row,
  produces nothing, and the observation is receipted although no file holds its claim
  (`CrashedWorkerLosesClaim`); a receipted observation is on file if and only if the index did not answer
  with an uncommitted version of it (`ReceiptedIsOnFileIff`).
- A batched write agrees with an unbatched one if and only if the overlay entry it displaces is not
  needed (`WriteAgreesIff`, `SlotRule`); a second new claim under the same fingerprint loses the first
  (`SharedFingerprintLosesClaim`). A batched lookup is wrong exactly when an inactive overlay entry
  hides an active claim (`ActiveByFingerprint`).
- Context packing ignores unknown lanes when the first one found has the empty name
  (`PlanContextPacking`).
- The header writer's comment promises that everything it writes reads back. A bare string with a tab
  or another non-space blank at its edge does not (`ScalarReadsBackIff` says exactly which do), a
  multi-line text comes back if and only if `BlockCarried` holds of its lines, and a carriage return on
  an item's dash line ends the array on reading (`DashLine`).

## Model

| member | source | states |
|---|---|---|
| `HashChain.VerifyChain` | src/layer0/integrity.ts:55-78 | The early-exit loop says valid exactly for valid chains; otherwise it returns the first broken link, and everything before it is a valid chain. |
| `HashChain.AssignIntegrity` | src/layer0/integrity.ts:39-53 | The stored hash is the hash of the finished record, the link fields are the ones given, the content is untouched. |
| `HashChain.EveryWriterChainValid` | src/layer0/index.ts:270-280 | Any interleaving of writers, each appending with its own latest hash, leaves every writer's subsequence a valid chain. |
| `HashChain.PrefixClosed` | src/layer0/integrity.ts:55-78 | Cutting a valid chain anywhere leaves a valid chain. |
| `HashChain.LastHashDeterminesChain` | src/layer0/integrity.ts:15-78 | With a collision-free hash, two valid chains ending in the same hash are the same chain. |
| `Exactness.ExactReviseIffDistinct` | src/ops_log/recovery.ts:191-235 | An accepted revise set is exactly the expected set, each once, if and only if the intent names no artifact twice. |
| `Exactness.CompleteReviseIsExact` | src/ops_log/recovery.ts:191-235 | A complete once-each set with the released owner is accepted. |
| `Exactness.RepeatedDemotionAdmitsForeignVersion` | src/ops_log/recovery.ts:206-235 | With one demotion named twice a foreign version is accepted in the set. |
| `Exactness.ExactEndorseIffComplete` | src/ops_log/recovery.ts:326-341 | With distinct identities the endorsement check accepts exactly the complete once-each sets. |
| `Exactness.EndorseCheckIsExactIff` | src/ops_log/recovery.ts:326-341 | For expected records that exist: on everything that can stand under the operation the check accepts exactly the complete once-each sets if and only if no identity is named twice. |
| `Exactness.RepeatedIdentityAdmitsForeignVersion` | src/ops_log/recovery.ts:326-341 | In any list with a repeated record, any version may stand in for one copy and the check still accepts. |
| `Exactness.ConflictingRepeatAcceptsNothing` | src/ops_log/recovery.ts:326-341 | One identity named with two hashes: no set is accepted. |
| `RecoveryScan.Brain.FinalizeRecovered` | src/ops_log/recovery.ts:414-455 | Refused exactly when the gate refuses, changing nothing; otherwise the authorization is recorded and the one signal appended, unless the append throws for an empty actor or timestamp. |
| `RecoveryScan.Brain.ProcessFile` | src/ops_log/recovery.ts:457-811 | One intent file: carries out exactly the verdict its snapshot and the live fence call for, on the log, the intent files and the fence. |
| `RecoveryScan.Brain.ScanFiles` | src/ops_log/recovery.ts:457-811 | The loop over the files leaves the disk and the tallies that the per-file verdicts determine, whatever claims land in between, and stops at the first file whose signal throws. |
| `RecoveryScan.Brain.RunRecovery` | src/ops_log/recovery.ts:365-868 | The whole scan: the resulting disk and report are those of the plan read at scan start; if a signal cannot be appended the error leaves the disk done up to the first such file, with its authorization recorded. |
| `RecoveryScan.DiskGrows` | src/ops_log/recovery.ts:457-811 | Reading one more file changes the disk by that file's verdict alone. |
| `RecoveryScan.CommittedByScan` | src/ops_log/recovery.ts:813-855 | The running committed set agrees with the log: what it held plus exactly the finalized operations. |
| `RecoveryProofs.FinalizedSetIsExact` | src/ops_log/recovery.ts:166-363 | For all seven intent kinds, what is finalized is, on the surfaces the kind writes, the expected artifact set, each exactly once and hash-exact. |
| `RecoveryProofs.FinalizedIsWholeIff` | src/ops_log/recovery.ts:434-811 | It is everything under the operation id if and only if nothing stands on the other surfaces. |
| `RecoveryProofs.ScanFinalizesOnlyExactSets` | src/ops_log/recovery.ts:434-811 | The same for every operation any scan finalizes, with claims landing mid-scan. |
| `RecoveryProofs.OwnEntryMatches` | src/ops_log/recovery.ts:414-432 | The entry recovery writes is recognised as the commit of its intent, for all seven kinds. |
| `RecoveryProofs.OwnEntryIsCleared` | src/ops_log/recovery.ts:457-811 | A crash between appending the entry and removing the intent: the next scan finds its own entry and clears the intent. |
| `RecoveryProofs.EveryArtifactAccountedFor` | src/ops_log/recovery.ts:813-855 | In the report of a scan every artifact with an operation id is committed, stale-rejected or an orphan, and every orphan's operation is pending or in manual review. |
| `RecoveryProofs.ScanAppendsOncePerFinalized` | src/ops_log/recovery.ts:414-432 | A scan that gets to its end has appended one entry for exactly the operations it finalizes, and none of them had one before. |
| `RecoveryProofs.CrashedVerdict` | src/ops_log/recovery.ts:414-811 | After a crash anywhere every surviving file gets the verdict it had, except that a written signal is now cleared. |
| `RecoveryProofs.CrashAndRerunConverges` | src/ops_log/recovery.ts:365-868 | Crashing a scan anywhere the code can die and running it again: the re-run reports if and only if no file of the plan throws; then intent files, entries per operation and (apart from completed and aborted) the report are those of the uninterrupted scan; otherwise the throwing files are still there. |
| `RecoveryProofs.ThrownIsCrashed` | src/ops_log/recovery.ts:414-455 | A scan thrown out by an append leaves the disk of a crash past the gate. |
| `RecoveryProofs.ThrowsAgain` | src/ops_log/recovery.ts:414-455 | A thrown scan throws again at the next start, over every listing. |
| `RecoveryProofs.BlockedForGood` | src/ops_log/recovery.ts:457-811 | Over any number of restarts a throwing file stays, no scan reports, and a file listed behind it is never reached. |
| `RecoveryProofs.RerunIsIdle` | src/ops_log/recovery.ts:365-868 | Running a scan that reported again changes nothing and reports the same, with nothing to complete or abort. |
| `RecoveryProofs.PartialScanDropsIff` | src/protocol/observe.ts:240-245 | A scan without claim log and wiki drops what a full scan would finalize if and only if it is a prepared REFLECT claim; any other kind is finalized or waits. |
| `RecoveryDecisions.VouchesIff` | src/ops_log/recovery.ts:166-188 | For every arrangement of the writer's records by rising sequence: a chain vouches for a record if and only if it is found there and everything up to it is a valid chain. |
| `RecoveryDecisions.PresentIff` | src/ops_log/recovery.ts:326-341 | For distinct identities: every present version is one the intent names, hash-exact, and none stands twice, if and only if the set is part of the expected set. |
| `RecoveryDecisions.UncommittedIs` | src/ops_log/recovery.ts:457-811 | For all seven kinds: with no entry and no epoch in the way an operation is finalized if and only if what stands under its id is the expected set with the recorded status, owner, scope, reason and a vouching chain; an empty set waits (a prepared REFLECT claim is aborted); part of a FORGET or ENDORSE set waits; anything else goes to review. |
| `RecoveryDecisions.ReadableIff` | src/ops_log/intent.ts:300-582 | A file is read if and only if it holds an intent under its own operation id (a prefixed ULID), with hexadecimal digests, a positive stamp of a named writer, and a result that says of its kind what the intent expects. |
| `RecoveryDecisions.SignalIs` | src/ops_log/recovery.ts:457-811 | The signal of a recovered operation names its operation, actor, preparation time and stamp, that it was recovered, and exactly what the intent expected of its kind's artifacts. |
| `RecoveryDecisions.MatchingIff` | src/ops_log/recovery.ts:457-811 | An entry counts as the commit of its intent if and only if kind, actor, payload hash and the result fields of its kind are those of the signal recovery would write. |
| `RecoveryDecisions.VerdictIs` | src/ops_log/recovery.ts:390-811 | Every readable intent, with claims landing during the scan, gets exactly the verdict that entries, epochs and the expected set call for. |
| `RecoveryDecisions.VerdictIsCarriedOut` | src/ops_log/recovery.ts:457-868 | In every scan that reports, each file is dealt with by its verdict: in the log, among the intent files, in the fence and in the report. |
| `RecoveryDecisions.OrphansAre` | src/ops_log/recovery.ts:813-846 | The orphans are, field by field, the observations, claim versions and pages whose operation is neither committed nor rejected, pages of tombstones told from the others. |
| `RecoveryDecisions.ManualReviewIs` | src/ops_log/recovery.ts:457-868 | An operation is up for manual review if and only if its verdict is, its file is unreadable and named like an operation, or it has an orphan and is not pending. |
| `RecoveryDecisions.ExactSetIsFinalized` | src/ops_log/recovery.ts:764-811 | An uncommitted operation that no epoch keeps out is reported completed if and only if its expected set stands; then its signal is in the log and its intent gone. |
| `CommitProtocol.StepKeepsInvIff` | src/storage/fence.ts:163-311 | From an authorized state a step of writers, claims, any scans and crashes leaves an authorized state if and only if it holds the fence or commits what was let through already. |
| `CommitProtocol.StepKeepsBase` | src/storage/fence.ts:163-311 | Every step, with the fence or without, keeps the rest of the invariant: rows written while their epoch was current, unstamped passes only on a mark read as 0, gated scans let through; log and mark only grow. |
| `CommitProtocol.RunAuthorizedIff` | src/ops_log/log.ts:93-114 | Every state of a run is authorized if and only if every step holds the fence or commits what was let through already. |
| `CommitProtocol.EveryCommitWasAuthorized` | src/ops_log/log.ts:93-114 | In every such run, with any number of scans, every committed operation has a fence row whose epoch was not behind the mark when the row was written, or was let through unstamped by a gate that had read mark 0. |
| `CommitProtocol.StampedCommitsHaveRows` | src/storage/fence.ts:250-311 | With stamped writers and steps that hold the fence every committed operation has a row written while its epoch was current. |
| `CommitProtocol.UnstampedSetOutlivesClaim` | src/ops_log/recovery.ts:390-455 | A scan that read mark 0 commits an unstamped set after a claim, with no row. |
| `CommitProtocol.SecondScanFinalizesRejected` | src/ops_log/recovery.ts:390-455 | One scan rejects an unstamped set; another that had read mark 0 commits it afterwards, and nothing revived it. |
| `CommitProtocol.UnfencedScanCommitsStale` | src/index.ts:126-132 | A scan without the fence commits any exact set with no row, and the state is not authorized. |
| `CommitProtocol.FenceDecides` | src/ops_log/recovery.ts:390-405 | On one disk the scan with the fence rejects a stamped set behind the mark, and the scan without it finalizes the set. |
| `CommitProtocol.GateRows` | src/ops_log/recovery.ts:414-432 | What the recovery gate leaves: at most the operation's own row, in its epoch; none if and only if it is unstamped and was not authorized before, and then the scan had read mark 0. |
| `CommitProtocol.RejectedIsDead` | src/ops_log/recovery.ts:390-455 | A set rejected as stale, with its intent unchanged and nothing in flight that still lets it in, stays out of the log in every continuation that does not revive it. |
| `CommitProtocol.RejectedStaysOutIff` | src/ops_log/recovery.ts:390-455 | A rejected set stays out if and only if no writer is past the gate with it and no scan has let it through or still would. |
| `CommitProtocol.StaleRejectedNeverFinalized` | src/ops_log/recovery.ts:390-455 | In every continuation, with any number of scans, a dead set is never committed unless the writer gate authorizes the id, the intent is replaced, or a step without the fence takes it up. |
| `CommitProtocol.GateSteps` | src/storage/fence.ts:163-311 | A claim succeeds if and only if its token is positive and not behind the mark; a stamped writer passes if and only if its epoch is, moves the mark to it and leaves each operation a row; an unstamped one passes a mark of 0 only and leaves none. |
| `CommitProtocol.PersistIff` | src/ops_log/intent.ts:584-623 | An intent is written if and only if it is well formed and its name is free or holds itself or an intent of the same kind, actor and payload. |
| `CommitProtocol.PendingIdentityIsKept` | src/ops_log/intent.ts:584-623 | Over any run, as long as a file stands under the name: it stays one operation of one kind, actor and payload, and an unreadable one stays unreadable. |
| `CommitProtocol.ScanSees` | src/ops_log/recovery.ts:365-399 | A scan starts with what stood on disk, less claim versions, pages and fence where it is not given them. |
| `CommitProtocol.AppendSteps` | src/ops_log/log.ts:93-114 | A writer past the gate appends one entry per operation it passed with, one without the fence any; never without an actor or a time. |
| `StatusIndex.Layer0Index.InsertOrSkip` | src/layer0/index.ts:138-171 | Inserts unless the id or one of the two unique keys is taken. |
| `StatusIndex.Layer0Index.ApplyMutationEvent` | src/layer0/index.ts:173-232 | The branch-by-branch updates equal one effect per row: scope-wide, single-target by the transition matrix, or none. |
| `StatusIndex.Layer0Index.RebuildIndex` | src/layer0/index.ts:101-116 | The table is the replay of the whole log; the checkpoint is the last record's sequence. |
| `StatusIndex.Layer0Index.CatchUp` | src/layer0/index.ts:118-136 | The table is the old one with the records past the checkpoint replayed; the checkpoint becomes the highest sequence seen. |
| `StatusIndex.TerminalLeftOnlyForErased` | src/layer0/types.ts:130-142 | Over any continuation a terminal status is left only for erased, and erased is never left. |
| `StatusIndex.IdleReplay` | src/layer0/index.ts:118-232 | Replaying logged records over a table that holds them changes nothing if and only if none of them still touches it: a first effect is never undone. |
| `StatusIndex.CatchUpEqualsRebuildIff` | src/layer0/index.ts:101-136 | Catch-up over a populated index equals rebuild if and only if no replayed event still touches the table. |
| `StatusIndex.CleanLogIsSpent` | src/layer0/index.ts:173-232 | On a log where no per-observation event was lost and nothing entered a scope after its marker, no event touches the final table. |
| `StatusIndex.CatchUpEqualsRebuild` | src/layer0/index.ts:101-136 | On such a log catch-up from any earlier checkpoint over any live prefix gives the rebuilt table. |
| `StatusIndex.CatchUpMatchesRebuild` | src/layer0/index.ts:101-136 | The two index objects end with the same table and checkpoint when sequences increase along the log. |
| `StatusIndex.SkippedRedactionResurfaces` | src/layer0/index.ts:173-232 | Redaction while quarantined, then approval: live says accepted, the caught-up index redacted. |
| `StatusIndex.LateRecordIsErased` | src/layer0/index.ts:173-232 | A record that enters a scope after its erasure marker is erased by catch-up. |
| `StatusHistory.RowHistory` | src/layer0/index.ts:173-232 | Over any log a row changes only in its status, and its status is its history: event by event, told in the events' own fields. |
| `StatusHistory.StatusIsStory` | src/layer0/index.ts:101-232 | In a rebuilt index a row has the scope of the first record of its id that no key kept out, and the status its raw status and the events from there on tell. |
| `StatusHistory.FromAccepted` | src/layer0/types.ts:130-142 | Without an erasure an accepted row stays accepted if and only if nothing retires it; it ends redacted or tombstoned if and only if the first event that retires it is a redaction, or a tombstone or scope marker; it is never rejected. |
| `StatusHistory.FromQuarantined` | src/layer0/types.ts:130-142 | Without an erasure a quarantined row stays so if and only if nothing settles it; it is rejected if and only if the first event that settles it is a rejecting review, tombstoned by a tombstone or scope marker, and approved it goes on as an accepted row. |
| `StatusHistory.ErasedIff` | src/layer0/index.ts:185-207 | A row ends erased if and only if it was or an erasure of its scope is among the events. |
| `StatusHistory.StatusGoesBackTo` | src/layer0/index.ts:101-232 | Over whole logs: accepted goes back to an accepted raw status or an approving review, rejected to a rejecting review, redacted to a redaction, tombstoned to a tombstone or scope marker, and a row is erased if and only if an erasure of its scope follows its record. |
| `Suppression.CheckAcyclicity` | src/layer1/effective_current.ts:81-112 | The search terminates on every finite graph and approves exactly when the kind does not suppress or no live path leads from target to source. |
| `Suppression.PushUnvisited` | src/layer1/effective_current.ts:81-112 | The queue grows by exactly the unvisited successors. |
| `Suppression.EdgeIff` | src/layer1/effective_current.ts:81-112 | The graph's edges are the supersedes and corrects relations that are not invalidated. |
| `Suppression.ApprovedBatchKeepsAcyclic` | src/layer1/effective_current.ts:81-112 | Several edges of one new source, each approved against the old graph, keep it acyclic together. |
| `Suppression.RunStaysAcyclic` | src/layer1/effective_current.ts:81-112 | Over any run of approved additions and invalidations the graph stays acyclic. |
| `Suppression.RevalidateOnRevive` | src/layer1/effective_current.ts:132-155 | Splits the revived claim's edges into those off every cycle and those on one. |
| `Suppression.ReviveLeavesAcyclic` | src/layer1/effective_current.ts:132-155 | Dropping just the edges on a cycle leaves the graph acyclic exactly when dropping all of the claim's edges would. |
| `Suppression.IsEffectiveCurrent` | src/layer1/effective_current.ts:23-69 | True exactly for a live, unsuppressed claim whose evidence stands. |
| `Suppression.CurrentIff` | src/layer1/effective_current.ts:23-69 | In the fields: a live claim, of whose known evidence some is accepted, is current unless a live claim supersedes or corrects it by a relation that is not invalidated. |
| `Suppression.ComputeReleasedClaims` | src/layer1/effective_current.ts:114-130 | The released list is the live suppression targets that are current. |
| `Suppression.ForgettingIsLocal` | src/layer1/effective_current.ts:23-130 | Forgetting a claim changes currentness only for itself and its live suppression targets. |
| `Suppression.ReleasedAreTheNewlyCurrent` | src/layer1/effective_current.ts:114-130 | What is released is exactly what was not current before and is current after. |
| `Suppression.EverySuppressedHasActiveTop` | src/layer1/effective_current.ts:23-69 | In an acyclic graph every live claim is reachable from a live unsuppressed one. |
| `NearDuplicates.Forest.Find` | src/dream/phases.ts:171-177 | Path halving terminates, returns the root, and changes no node's root. |
| `NearDuplicates.Forest.Union` | src/dream/phases.ts:178-182 | Exactly the two classes are merged. |
| `NearDuplicates.HalvingKeepsRoots` | src/dream/phases.ts:171-177 | One halving step keeps the forest well founded with the same roots and climbs strictly. |
| `NearDuplicates.AddLink` | src/dream/phases.ts:184-191 | Connectivity after one more link, in both directions. |
| `NearDuplicates.MergeFollowsLink` | src/dream/phases.ts:178-191 | Merging two classes follows adding one link to the relation. |
| `NearDuplicates.UnionSimilar` | src/dream/phases.ts:184-191 | After the nested loop two claims share a root exactly when similar pairs connect them. |
| `NearDuplicates.GroupByRoot` | src/dream/phases.ts:192-198 | Each cluster lists exactly the members of one root, in order, and no claim is missing. |
| `NearDuplicates.NearDuplicateCandidates` | src/dream/phases.ts:167-202 | The candidates are exactly the connected components of size two or more of the similar-pair relation over the first 500 active claims, in order. |
| `NearDuplicates.LinksAre` | src/dream/phases.ts:145-191 | Two claims are a similar pair if and only if they are of one type, differ in fingerprint, have three tokens each at least, and share 41 in 50 of all their tokens. |
| `NearDuplicates.CohortIs` | src/dream/phases.ts:168-169 | The cohort is the active claims in order, all of them or the first 500. |
| `ClaimStore.ReadLatestVersion` | src/layer1/jsonl.ts:307-320 | Finds the record of the highest version, and on a version chain that is the last one. |
| `ClaimStore.Store.InsertClaim` | src/layer1/store.ts:408-583 | Replaces the row and appends the next version naming its predecessor; rows stay rebuildable. |
| `ClaimStore.Store.SyncFromLog` | src/layer1/store.ts:667-738 | Writes a row, existing or new, from its latest record; nothing is appended, rows stay rebuildable. |
| `ClaimStore.Store.AppendAndSync` | src/layer1/store.ts:851-885 | A version built by hand is appended and its row synced: chains and agreement are kept. |
| `ClaimStore.Store.UpdateClaimStatus` | src/layer1/store.ts:889-922 | Field by field: the status is set; the pointer is set, kept or cleared; a given invalidation time is recorded; an open window is closed by a given end; nothing else of the row and no other row changes, with one version appended. |
| `ClaimStore.Store.UpdateClaimSupportingEvidence` | src/layer1/store.ts:924-929 | Only that row's evidence changes. |
| `ClaimStore.Store.UpdateClaimConfidence` | src/layer1/store.ts:931-936 | Only that row's confidence changes. |
| `ClaimStore.Store.MarkContested` | src/layer1/store.ts:938-950 | Both rows become contested and name each other; no other row changes. |
| `ClaimStore.Store.AddCorroborationEvidence` | src/layer1/corroboration.ts:12-27 | The observation joins the row's evidence once; only the confidence changes besides. |
| `ClaimStore.InsertKeeps` | src/layer1/store.ts:509-583 | Each row write keeps every claim's versions 1..n with predecessors and every row in agreement with its latest record. |
| `ClaimStore.AppendKeeps` | src/layer1/jsonl.ts:201-216 | Appending the next version, by hand or for a row, keeps all chains and leaves only its own row to be synced. |
| `ClaimStore.SyncKeeps` | src/layer1/store.ts:667-738 | A sync brings its row, existing or new, into agreement whatever it was before. |
| `ClaimStore.RunKeepsLog` | src/layer1/store.ts:408-583 | Over any run of row writes, hand-built versions and syncs every claim's versions are 1..n with predecessors, and every row agrees with its latest record except where a hand-built version awaits its sync; the log only grows. |
| `ClaimStore.RowIsRebuildable` | src/layer1/store.ts:667-738 | Re-materialising the latest record restores life state and evidence always, status exactly for active, retracted and superseded-with-pointer rows, with the pointer, and for a demoted row its invalidation time; ingestion comes back if and only if it was the creation time, confidence as the middle of its bucket. |
| `ClaimStore.CarriedDemotionSurvives` | src/layer1/jsonl.ts:174-186 | However many versions flows build by hand, a demotion keeps its survivor and its time. |
| `Admission.AdmitClaim` | src/layer1/conflicts.ts:48-194 | Corroborates, contests, supersedes or inserts, each if and only if the fields subject, predicate, scope, start, status and normalised value call for it, with every field of every row afterwards stated for each. |
| `Admission.OutcomeByFields` | src/layer1/conflicts.ts:48-85 | The four outcomes as equivalences on the fields: live is active, stale or contested; a rival has the newcomer's subject, predicate, scope and start; only an active claim with an earlier start is superseded. |
| `Admission.RowsByFields` | src/layer1/conflicts.ts:91-194 | A row of another subject, predicate or scope stays exactly what it was; a contested side gains an opponent, a superseded one is closed on both time axes and points to the newcomer, a corroborated one gains evidence; nothing else changes but confidence. |
| `Admission.ApplySemanticConflict` | src/layer1/conflicts.ts:91-103 | Both sides become contested with each other; no other row changes. |
| `Admission.ContestAll` | src/layer1/conflicts.ts:164-177 | The loop contests the newcomer with every live claim of its key and touches nothing else. |
| `Admission.Corroborate` | src/layer1/conflicts.ts:156-162 | All new evidence joins the existing claim; nothing else changes but its confidence. |
| `Admission.AdmissionKeepsUnresolved` | src/layer1/conflicts.ts:48-194 | One admission keeps: live claims of one key are contested, list each other, and differ pairwise in normalised value. |
| `Admission.DisagreementsStayOpen` | src/layer1/conflicts.ts:48-194 | The same over every run of admissions with fresh ids. |
| `Admission.AdmissionKeeps` | src/layer1/conflicts.ts:69-81 | One admission moves no claim out of contested, drops no listed opponent and no evidence, and the newcomer's evidence has a holder. |
| `Admission.NothingIsLost` | src/layer1/conflicts.ts:153-194 | Over any run recency never moves a claim out of contested, no row and no supporting evidence is lost, and every admitted claim's evidence stays on the claim that carries its assertion. |
| `Admission.SlotsNeverLinked` | src/layer1/conflicts.ts:48-194 | Over every run: claims of different subjects, predicates or scopes list or supersede each other only where the store began so or a claim was handed in so. |
| `ValidTime.OverlapIsCommonInstant` | src/layer3/temporal.ts:71-104 | An overlap constraint matches exactly when some as-of instant inside its range does. |
| `ValidTime.LaterStartExtends` | src/layer1/conflicts.ts:69-81 | A later start supersedes the last claim of its slot and extends the chain of abutting windows, with the superseded claim invalidated when the new one was ingested. |
| `ValidTime.RunBuildsChain` | src/layer1/conflicts.ts:115-124 | A run of admissions in order of start, with anything else in between, builds the chain. |
| `ValidTime.ChainPartitionsTime` | src/layer3/temporal.ts:56-62 | Every instant from the first start on is held by exactly one claim of a chain, none before; exactly the last is active. |
| `ValidTime.EveryInstantHasOneClaim` | src/layer3/temporal.ts:56-104 | The same for every run: as-of reads match exactly one claim. |
| `ValidTime.SupersededInSystemTime` | src/layer1/conflicts.ts:106-124 | Once superseded, a claim matches an as-of read on the transaction axis at t if and only if t is from its own ingestion on and before its replacement's. |
| `ValidTime.EveryInstantIsKnownOnce` | src/layer1/conflicts.ts:106-124 | After every run in order of start each superseded claim of the slot is found from its ingestion to that of the next; when ingestion is in order too, the one found at an instant is the last ingested by then. |
| `ValidTime.AdmissionKeepsWindowsApartIff` | src/layer1/conflicts.ts:48-124 | For every chained slot and every open newcomer: no two claims of the slot hold at one instant afterwards if and only if the newcomer starts after the last claim or restates it. |
| `ValidTime.EarlierOrRivalStartOverlaps` | src/layer1/conflicts.ts:55-83 | Any earlier start is inserted and a rival value at the last start contested; both leave the newcomer and the last claim open together. |
| `ValidTime.RestatementKeepsChain` | src/layer1/conflicts.ts:55-66 | A restatement of the last claim is folded into it and the windows stay. |
| `FactMatches.MergeEvidence` | src/layer1/corroboration.ts:71-133 | The merged list holds exactly the survivor's, the losers' and the new evidence. |
| `FactMatches.DemoteAll` | src/layer1/corroboration.ts:71-133 | Exactly the losers are superseded by the survivor. |
| `FactMatches.ResolveFactMatches` | src/layer1/corroboration.ts:71-133 | The matches are the active, open claims of the fact's subject, predicate, scope and normalised value; the earliest alone keeps the fact with the union of the evidence; the others are demoted to it, and their own records restore that. |
| `FactMatches.BeforeIff` | src/layer1/corroboration.ts:71-94 | The order of survival: a proper prefix comes first, otherwise the smaller unit at the first difference. |
| `FactMatches.DemotedRow` | src/layer1/store.ts:667-738 | A demoted row re-materialises as demoted to the same survivor. |
| `ContextPacking.SharesFit` | src/layer4/context-planning.ts:109-122 | The floored shares add up to at most the budget, so the protected pass is never cut by it. |
| `ContextPacking.FillShare` | src/layer4/context-planning.ts:120-132 | One lane takes the longest prefix that fits its share; no other lane moves. |
| `ContextPacking.ProtectedPass` | src/layer4/context-planning.ts:120-132 | Every lane takes the longest prefix that fits its share, whatever the other lanes hold. |
| `ContextPacking.Sweep` | src/layer4/context-planning.ts:140-153 | One sweep gives every lane of the order its turn, once each; it makes strict progress or leaves every lane stuck and the plan unchanged. |
| `ContextPacking.OverflowPass` | src/layer4/context-planning.ts:134-153 | Whole rounds over the order, each begun with budget to spare; terminates, only grows the plan, and stops with the budget used up or every lane stuck. |
| `ContextPacking.PlanContextPacking` | src/layer4/context-planning.ts:88-156 | Refuses exactly when a policy lane has no costs or the first unknown cost lane has a non-empty name; otherwise every lane keeps each prefix that costs no more than its weight's part of the budget, no next positive-cost item fits, and the plan is what round-robin rounds over the overflow order make of the protected shares. |
| `ContextPacking.WeightsArePolicy` | src/layer4/context-planning.ts:109-118 | The weights are the only ones the policy can mean: the positive finite entry, nothing for an entry that is not positive, one where there is no finite entry, and all ones when every lane is weighted with nothing. |
| `ContextPacking.WithinShare` | src/layer4/context-planning.ts:120-122 | What fits the lane's exact part of the budget fits its floored share. |
| `ContextPacking.OneOrder` | src/layer4/context-planning.ts:134-138 | There is one overflow order: the configured lanes that exist, then the others as listed, each once. |
| `JaroWinkler.MatchFlags` | src/layer1/entities.ts:44-58 | The two flag arrays are the first-fit matching inside the window and hold the same number of matches. |
| `JaroWinkler.OpenIff` | src/layer1/entities.ts:44-58 | Two equal, free units may match if and only if twice their distance and two more does not exceed the longer string. |
| `JaroWinkler.FirstFitIsUnique` | src/layer1/entities.ts:44-58 | There is only one first-fit matching. |
| `JaroWinkler.NextSet` | src/layer1/entities.ts:61-67 | The inner scan stops at the next set flag, before the end of the string. |
| `JaroWinkler.Transpositions` | src/layer1/entities.ts:61-67 | Counts the places where the two matched subsequences differ, and never runs past the second string. |
| `JaroWinkler.PrefixIsCommonPrefix` | src/layer1/entities.ts:69 | Without surrogate pairs the boosted prefix is the common prefix up to four units. |
| `JaroWinkler.PrefixIs` | src/layer1/entities.ts:69 | For all strings the boosted prefix is what they share up to the first surrogate pair of the first one, at most four units. |
| `JaroWinkler.ScoreIs` | src/layer1/entities.ts:68-70 | The score is nothing without a match; otherwise it exceeds the Jaro mean by a tenth of what is missing to one for every unit of the prefix. |
| `JaroWinkler.ScoreBounds` | src/layer1/entities.ts:68-70 | The score of two different strings is at least 0 and below 1. |
| `JaroWinkler.Similarity` | src/layer1/entities.ts:38-71 | For all strings the score is in [0, 1], is 1 exactly for equal strings, and otherwise is the Jaro-Winkler score of the first-fit matching. |
| `CompileQueue.Queue.Enqueue` | src/compile_queue/queue.ts:72-97 | A new or retried failed job becomes pending; done is refused; nothing else changes. |
| `CompileQueue.Queue.ClaimBatch` | src/compile_queue/queue.ts:99-116 | As many pending jobs as the limit allows become running, and only those. |
| `CompileQueue.Queue.Sync` | src/compile_queue/worker.ts:294-352 | After stale jobs are reset, every eligible observation is settled by its last mark in the operations log. |
| `CompileQueue.SyncOne` | src/compile_queue/worker.ts:294-352 | One more observation of the log settles its own job and no other. |
| `CompileQueue.SyncCoversIff` | src/compile_queue/worker.ts:294-352 | Every effectively accepted observation is on the ledger after a sync if and only if its raw status is accepted or it was there; its last mark or its old status decides, and nothing is left running. |
| `CompileQueue.ApprovedQuarantineIsSkipped` | src/compile_queue/worker.ts:322-332 | An approved quarantined observation is never put on the ledger by a sync. |
| `CompileRuns.ProcessJobs` | src/compile_queue/worker.ts:110-225 | Each job is completed as not worthwhile, made ready with a resolved mark, or failed with a failure mark; a refinement of the machine's steps. |
| `CompileRuns.CompleteReady` | src/compile_queue/worker.ts:226-259 | After the flush exactly the ready raw-accepted jobs become done. |
| `CompileRuns.RunCompileBatch` | src/compile_queue/worker.ts:110-259 | The whole batch is a run of the state machine: the invariant holds after it, the batch is empty, and every claimed job ended as its observation calls for. |
| `CompileRuns.StepKeepsInv` | src/compile_queue/worker.ts:110-352 | Every step of several workers, users, status changes, crashes of any workers and syncs that wait keeps the queue invariant. |
| `CompileRuns.DoneStays` | src/compile_queue/queue.ts:72-142 | From a state that meets the invariant no step leaves done. |
| `CompileRuns.QueueIsSafe` | src/compile_queue/worker.ts:110-352 | In every such run done is never left, no observation is in two outstanding batches, and a done job of a compilable, effectively accepted observation has a receipt if and only if its raw status is accepted. |
| `CompileRuns.SyncIsSafeIff` | src/compile_queue/worker.ts:294-375 | A sync while workers are alive keeps every continuation safe if and only if what they hold is done, or receipted and still accepted. |
| `CompileRuns.SyncUnderWorkerLosesDone` | src/compile_queue/queue.ts:99-142 | The losing run: sync, second claim, compile, flush, finish, and then the first worker fails the done job. |
| `CompileRuns.RetryIsSafeIff` | src/compile_queue/queue.ts:72-97 | From every invariant state a retry of a failed, still due job keeps every continuation safe if and only if no worker still buffers a failure mark for it. |
| `CompileRuns.LateMarkIsUnsafe` | src/compile_queue/worker.ts:186-216 | From any batch that still buffers a failure mark for a done job a run turns the job into failed. |
| `CompileRuns.HookedRunsHaveReceipts` | src/core.ts:761-766 | With hooks that enqueue only raw-accepted observations every done job of a compilable accepted observation has its receipt. |
| `CompileRuns.ApprovedAfterDone` | src/compile_queue/worker.ts:140-156 | Enqueued by hand, a quarantined observation is done as not worthwhile and, once approved, has no receipt. |
| `CompileRuns.ApprovedQuarantineNeverDone` | src/compile_queue/worker.ts:236-246 | Enqueued by hand after approval it is never completed while it stays accepted; the hooks never enqueue it. |
| `FingerprintIndex.ReplayOrderIrrelevant` | src/compile_queue/fingerprint.ts:279-305 | Replaying the same records in any order and number keeps the highest version per claim. |
| `FingerprintIndex.HighestIsUnique` | src/compile_queue/fingerprint.ts:279-305 | The table is determined by the set of records it was fed. |
| `FingerprintIndex.OnlyNewerWrites` | src/compile_queue/fingerprint.ts:279-305 | A record of the version already held, or an older one, changes nothing; a newer one replaces that row alone. |
| `FingerprintIndex.SameTableIff` | src/compile_queue/fingerprint.ts:279-305 | Two sets of records give the same table if and only if each dominates the other. |
| `FingerprintIndex.AppendKeepsReplayed` | src/compile_queue/fingerprint.ts:319-351 | Appending to month files keeps what was replayed, whatever was written live. |
| `FingerprintIndex.ReplayedMissesNothing` | src/compile_queue/fingerprint.ts:319-351 | On files that only grow, no skipped month holds a record that was not fed. |
| `FingerprintIndex.PurgeMissesNothing` | src/protocol/forget_scope.ts:489-516 | Nor after an erasure that takes claims out of index and files. |
| `FingerprintIndex.SizeCoincidenceMisses` | src/compile_queue/fingerprint.ts:319-326 | A skipped month with a record newer than all the index knows breaks the second condition of catch-up. |
| `FingerprintIndex.LiveWriteBackedIff` | src/compile_queue/fingerprint.ts:267-305 | A live write keeps the table backed by the files if and only if it, or a newer version, is on file. |
| `FingerprintIndex.AppendKeepsBacked` | src/layer1/jsonl.ts:256-277 | Appending to the files keeps a backed table backed. |
| `FingerprintIndex.Index.IndexMonth` | src/compile_queue/fingerprint.ts:319-351 | One month is skipped by its size, or exactly its records are fed; its size is remembered. |
| `FingerprintIndex.Index.CatchUp` | src/compile_queue/fingerprint.ts:106-130 | Whatever happened to index and files before: exactly the records of the months of another size are fed, and the sizes are the files'. |
| `FingerprintIndex.Index.Rebuild` | src/compile_queue/fingerprint.ts:93-104 | Holds the highest version of every claim in all the files, from nothing. |
| `FingerprintIndex.CatchUpMatchesRebuildIff` | src/compile_queue/fingerprint.ts:93-130 | After any replays, appends, erasures and live writes, size-keyed catch-up ends with the table of a rebuild if and only if every row was backed by the files and no skipped month holds anything newer. |
| `FingerprintIndex.Index.UpsertVersion` | src/compile_queue/fingerprint.ts:267-305 | Any write in or out of a batch: what unbatched writes would hold, and the batch still agrees with it if and only if the displaced overlay entry is not needed. |
| `FingerprintIndex.WriteAgreesIff` | src/compile_queue/fingerprint.ts:267-277 | The condition over table and overlay, in both directions. |
| `FingerprintIndex.SlotRule` | src/compile_queue/fingerprint.ts:267-277 | In a disciplined batch the condition is: the slot is free or holds an older version of the same claim. |
| `FingerprintIndex.Index.ActiveByFingerprint` | src/compile_queue/fingerprint.ts:139-163 | In a disciplined batch the answer is one of the unbatched table if and only if no inactive overlay entry hides an active claim. |
| `FingerprintIndex.Index.RemoveByClaimIds` | src/compile_queue/fingerprint.ts:190-217 | Removal, also mid-batch, removes exactly those claims and keeps agreement. |
| `FingerprintIndex.Index.BeginBatch` | src/compile_queue/fingerprint.ts:219-242 | A batch may start over any table, also one where claims share a fingerprint, and changes nothing it stands for. |
| `FingerprintIndex.Index.FlushBatch` | src/compile_queue/fingerprint.ts:244-254 | Flushing, in whatever order, gives the unbatched table if and only if the batch agreed; a disciplined batch does. |
| `FingerprintIndex.Index.DiscardBatch` | src/compile_queue/fingerprint.ts:256-260 | Discarding drops the overlay and leaves the stored table. |
| `FingerprintIndex.SharedFingerprintLosesClaim` | src/compile_queue/fingerprint.ts:267-277 | Over any table and overlay, a second claim under the fingerprint of a new one breaks agreement. |
| `CompileProduction.ReceiptedIsOnFileIff` | src/protocol/reflect.ts:408-433 | A batch that ends leaves a receipt, and a claim on file if and only if the index did not answer with an uncommitted version of the same observation. |
| `CompileProduction.ProductionExtends` | src/protocol/reflect.ts:408-433 | Production adds the observation exactly once: a found claim goes on as its next version with all it had, a new one starts at version one, and the index then holds what was produced. |
| `CompileProduction.CrashedWorkerLosesClaim` | src/compile_queue/worker.ts:158-190 | Produce, crash before the commit, re-run: nothing is produced, the observation is receipted, and no file holds the claim. |
| `YamlText.UnescapeInvertsEscape` | src/layer2/frontmatter.ts:278-290 | The two-pass unescape inverts the two-pass escape, for every text. |
| `YamlText.YamlStringReads` | src/layer2/frontmatter.ts:278-290 | What is written for a carried string is one tight line that unquotes to it. |
| `YamlText.BareIff` | src/layer2/frontmatter.ts:278-302 | A string is written as it is if and only if it is not empty, reads as no other type, holds none of the listed characters and neither starts nor ends with a space; any other is written escaped in quotes. |
| `YamlText.SplitInlineArray` | src/layer2/frontmatter.ts:382-410 | The loop with its quote state computes the scan of the text, element by element trimmed and unquoted. |
| `YamlText.ScanJoined` | src/layer2/frontmatter.ts:382-410 | The scanner undoes the joined quoted elements: every array of carried strings comes back. |
| `YamlLines.ClosingAfterLines` | src/layer2/frontmatter.ts:27-33 | The closing marker found is the one written after the header, whatever the body holds. |
| `YamlLines.ReadBlockScalar` | src/layer2/frontmatter.ts:418-440 | The loop takes the blank or deeper lines and returns them less their common indentation. |
| `YamlLines.BlockReadsBackIff` | src/layer2/frontmatter.ts:418-440 | A text laid out as a block at any column reads back as itself if and only if none of its lines is blank without being empty and some line is not indented (or all are empty). |
| `Frontmatter.ParseYAML` | src/layer2/frontmatter.ts:314-366 | The index loop computes the line-by-line parse of the text. |
| `Frontmatter.ParseBlockArray` | src/layer2/frontmatter.ts:495-533 | The array loop, which joins an item's lines and parses them again, reads the items and stops at the first line that is no item. |
| `Frontmatter.HasDeeperNonBlankLine` | src/layer2/frontmatter.ts:443-450 | Tells whether the next non-blank line is deeper. |
| `Frontmatter.ToYAML` | src/layer2/frontmatter.ts:218-276 | The printing loops, which split nested output into lines again, compute the printed text of the properties in order. |
| `Frontmatter.SerialiseFrontmatter` | src/layer2/frontmatter.ts:52-135 | Refuses exactly the shapes outside the vocabulary; otherwise writes header and body. |
| `Frontmatter.ParseFrontmatter` | src/layer2/frontmatter.ts:27-41 | Nothing without an opening and a closing marker; otherwise the parsed header and the body after it. |
| `FrontmatterProofs.ScalarReadsBackIff` | src/layer2/frontmatter.ts:278-311 | A string on one line comes back as the string it was if and only if it is empty, written in quotes, or has no blank at its edges. |
| `FrontmatterProofs.HeadReads` | src/layer2/frontmatter.ts:299-366 | What stands on the key's line reads back as the value, for every carried value that is not a block. |
| `FrontmatterProofs.DashLine` | src/layer2/frontmatter.ts:452-502 | A dash line is recognised with its column and content if and only if the content holds no line terminator. |
| `FrontmatterProofs.AdmittedIs` | src/layer2/frontmatter.ts:73-135 | Admitted at a value position: scalars, arrays of strings, and arrays of non-empty mappings of such values; nothing else. |
| `FrontmatterProofs.AssignIs` | src/layer2/frontmatter.ts:314-366 | A property assigned again keeps its place with the new value; a new one comes last. |
| `FrontmatterProofs.ParsedKeysDiffer` | src/layer2/frontmatter.ts:314-366 | Whatever text is parsed, no property comes out twice. |
| `FrontmatterProofs.MappingItemIff` | src/layer2/frontmatter.ts:459-475 | An item opens a mapping if and only if it is not one quoted scalar, starts with neither a blank nor a colon, and its first colon ends it or is followed by a blank. |
| `FrontmatterRoundTrip.AllPushed` | src/layer2/frontmatter.ts:218-276 | The printed text of nested properties is its physical lines, joined. |
| `FrontmatterRoundTrip.ParseItems` | src/layer2/frontmatter.ts:495-533 | The array reader returns exactly the written mappings and leaves what follows. |
| `FrontmatterRoundTrip.ParseTextItems` | src/layer2/frontmatter.ts:495-533 | The same for string arrays with multi-line elements. |
| `FrontmatterRoundTrip.ParseFields` | src/layer2/frontmatter.ts:314-366 | The parser reads the lines of any nested mapping as that mapping, in order, and goes on after them. |
| `FrontmatterRoundTrip.RoundTrip` | src/layer2/frontmatter.ts:27-55 | Every admitted header of carried values, with any body, is written and parsed back as the same properties in the same order and the same body. |

## Left out

- The file system, fsync and rename, SQLite, FTS5, git and the directory layout: logs are sequences, tables are maps, and where row order is not fixed by a key any order is allowed.
- SHA-256, canonical JSON and id generation: a hash function, an opaque record and fresh ids.
- Monthly and daily log files are one sequence, except in the fingerprint index, where the month files are the point.
- Confidence and recency formulas and value normalisation: parameters of the policy; rows are compared up to the recomputed confidence.
- Clock values are integers; a time value is present or absent, and a claim always has a start.
- `runCommit` and `runCommitSync` (src/ops_log/commit.ts:89-146): their idempotency lookup and result closures; the writer appears as its gate, append and removal steps.
- The fence store's refusal counters and the `guard` of read-side operations.
- `removeEvidenceFromClaims`, entity resolution, adjacency refresh and the unused conflict helpers: one-branch updates over the same rows.
- The purge of a missing month in the fingerprint index: not equivalent to a rebuild when an older version survives elsewhere.
- MCP servers, command line, schemas, wiring, extraction, language-model and embedding calls.
- RecoveryProofs.CrashAndRerunConverges: no other writer and no claim between the two scans; the state machine of CommitProtocol covers interleaved claims and scans.
- CommitProtocol.RejectedStaysOutIff: the intents that living scans have before them carry an actor and a timestamp, so that their signals can be appended; RejectedIsDead does not need this.
- RecoveryProofs.FinalizedSetIsExact: needs re-picks and endorsements to name each artifact once, and speaks of the surfaces the kind writes; Exactness and FinalizedIsWholeIff state what is accepted otherwise.
- RecoveryDecisions.UncommittedIs: needs re-picks and endorsements to name each artifact once, as do VerdictIs and ExactSetIsFinalized; Exactness states what is accepted otherwise.
- RecoveryDecisions.VouchesIff: the writer's sequence numbers are distinct; the source's sort does not say which of two equal ones comes first.
- StatusIndex.Layer0Index.ApplyMutationEvent: states the result for the four mutation event types, the only ones its callers pass.
- StatusIndex.CatchUpMatchesRebuild: sequences increase along the log and start above 0, as the writer assigns them.
- ClaimStore.Store.SyncFromLog: the subject is taken to resolve to the entity it had; entity resolution is not modelled.
- ClaimStore.RowIsRebuildable: contested and stale rows come back as active; the record has no field for either.
- Admission.AdmitClaim: the claim's id is fresh; re-admitting an existing id is not modelled.
- CompileQueue.Queue.Sync: one log line per observation and no step of another process during the pass; scopes, attempts and timestamps of jobs are not modelled.
- CompileRuns.QueueIsSafe: a retry waits until the failure mark is flushed and a sync until the living workers are settled; RetryIsSafeIff and SyncIsSafeIff prove both waits necessary. The code waits for neither.
- FingerprintIndex.Index.ActiveByFingerprint: which of several active claims is returned (highest version, then lowest id) is not modelled; any active one counts as an answer.
- FingerprintIndex.CatchUpMatchesRebuildIff: assumes that no claim has two different records of one version and that no month the index has seen is missing; sizes are counted in records.
- CompileProduction.ReceiptedIsOnFileIff: protected claims, demoted duplicates and the fact-identity fallback are not modelled; one candidate per observation.
- ValidTime.AdmissionKeepsWindowsApartIff: starts are instants on both sides; the source compares the ISO strings on admission and parses them on reading, so different spellings of one instant are outside the model.
- JaroWinkler.Similarity: exact arithmetic instead of rounding.
- ContextPacking.PlanContextPacking: exact arithmetic instead of rounding in the weighted shares.
- FrontmatterRoundTrip.RoundTrip: number spellings are a parameter, required to read back only for the numbers that occur; NaN, negative zero and undefined are outside. Property names are non-empty, without colon, newline or edge blanks, and do not start with a dash or a quote; what stands on an item's dash line holds no line terminator (DashLine shows why); the name `__proto__` is not modelled.
- Page validation (src/layer2/frontmatter.ts:196-214) and the error messages of refused shapes.
