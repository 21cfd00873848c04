# Verified model of the recovery engine

This project models the local recovery engine in Dafny and proves what its parts promise each other: the
crash-consistent Case Store, the Coordinator that writes through it, the snapshot validator between them, the Windows
boot target resolver with the Boot Doctor on top, and the bounded agent runtime.

`dafny verify dfyconfig.toml` checks the whole project.

## What is modelled

**The documents and their rules.** `Domain`, `Semantics` and `Validation` hold the recovery documents, the workflow
relation and `Snapshot.Validate` as one predicate over the documents of a snapshot. Digests are constructors over
their content (`Digest(content)`, `SnapshotDigest(body)`, `CommitDigest(body)`), so they are injective; a file holds
either the canonical encoding of a document or other bytes that may still decode to something. `Validator` has the
passes of the validator, proved to decide that predicate. `Replay` shows that the events of a valid snapshot are one
legal run of the workflow, and `Preservation` why later steps never invalidate what earlier events reference.

**The store.** `Codec`, `Manifests` and `Loading` are the two directions between a snapshot and its published
directory, and `Reader` the loader's loops, proved against them. `Chain` is the commit directory and its loader;
`History` is what a whole case directory means: a chain, and the snapshot of each of its commits. `Publication` decides
what a commit request should do, and `Store` has the case directory as a class with mutable maps of commits, snapshots,
blobs and staging directories, whose methods follow the source step by step. A `fuse` counts the file-system steps the
process still makes, so every commit can stop before any step; three further sets hold the names whose directory has
not been synced. `PowerLoss` says which directories survive losing any of those names. `Recovery` has the health
report, the recovery inspection and the cleanup.

**The coordinator.** `Commands` gives the successor each command builds, as a function of the head; `Drafts` and
`Coordinators` have the loops and in-place edits that compute it and hand it to the store. `Audit` says field by field
what each accepted command writes, and `Evolution` what one command does to a case. `Runs` puts any number of coordinators, their stale reads, crashes inside commits, refused
locks and cleanups into one transition system and follows every run of it. `Retries` covers repeated requests.

**The analyzers and the runtime.** `Resolver` and `BootDoctor` derive the topology and the findings; `Runtime` is the
consultation loop, driven by a provider that may answer anything, while other coordinators may run commands between any
two of its calls.

## What the proofs found

* **Create-only commits are never idempotent.** The comment that a retry after an unknown outcome "must be idempotent"
  (`internal/recovery/casestore/errors.go:31-33`) holds for every parent expectation except create-only, where the
  retry is refused as an existing case (`Retries.RetryAfterUnknown`).
* **The idempotent head is looked up before the parent is checked** (`internal/recovery/casestore/commit.go:106`,
  `internal/recovery/casestore/commit.go:120`), so two writers with the same snapshot both succeed. The answer names the
  right snapshot (`Publication.IdempotentIsHead`) and appends nothing (`Runs.AtMostOneAppends`), but it syncs nothing
  either: after an unknown outcome it reports success for a record that a power loss can still take back, where
  `internal/recovery/casestore/doc.go:23-28` promises that limits of durability are never silent successes.
  `PowerLoss.AcknowledgedSurvives` has the exact condition.
* **Reuse never syncs.** A commit that finds its snapshot directory or a blob already in place publishes a record over
  names that may still be unsynced, unless a new blob of the same commit happens to share the prefix directory.
  `PowerLoss.CommitPowerSafety` gives the exact condition under which a completed commit survives a power loss; where it
  fails, some loss leaves no readable case, earlier commits included (`PowerLoss.PowerSafety`), since a broken commit is
  never skipped.
* **The chain loader's prefix is not always the longest.** The comment at `internal/recovery/casestore/load.go:600-602`
  fails on forks: `Chain.ForkHidesChain` has a directory of three valid records. Call trunk the longest linked prefix
  whose sequence numbers each occur once. Whatever order the directory is listed in, no chain is longer than what the
  loader returns, if and only if no record continues the trunk, or every record of the next sequence number does and
  none of them has a successor (`Chain.LongestIffForkIsEven`). No listing hides any chain at all if and only if no
  record continues the trunk (`Chain.OnlyLongestIffTrunkEnds`), in particular whenever no two records share a sequence
  number (`Chain.DistinctEndsTrunk`).
* **A round that fails halfway leaves no answer.** When a read fails after its round has appended a commit, the runtime
  records its failure on the commit id from before the round
  (`internal/recovery/agentruntime/runtime.go:150-153`), which the coordinator refuses as stale: the reads stay in the
  case, the consultation does not (`Runtime.Run`).
* **A consultation without a source commit conflicts with itself.** The coordinator fills in the head, so the same
  request repeated later is a divergent payload (`Retries.ConsultationReplayNeedsSource`).
* **Dual boot on one disk cannot be resolved.** Two Windows installations that share a disk or a partition give two
  candidates one id, and the topology validator rejects the result, with or without a technician's selection
  (`Resolver.Resolve`, `Resolver.DualBootIsUnresolvable`).
* **Suppression only ever removes the consistent verdict.** On resolved evidence no other code of the table at
  `internal/recovery/bootdoctor/suppress.go:19-79` is drafted together with a code that would suppress it
  (`BootDoctor.OnlyConsistentIsDropped`).
* **The loader does not compare the case document with the directory.** A snapshot loads under the case id of its
  manifest and record, whatever its case document says (`Loading.LoadsUnderAnyCase`); commands work on the head's own
  case id. Coordinated histories keep the two equal (part of the invariant in `Runs.StepRefines`).
* **An unknown health word hides a failure.** In one record, `unknown` in either status field decides before a failure
  word in the other is looked at (`internal/recovery/targetresolver/resolver.go:661-677`); both block, so eligibility is
  unaffected (`Resolver.SafeMediaIff`).

## Model

| member | source | states |
|---|---|---|
| Validator.CheckTransitionIntegrity | internal/recovery/casestore/snapshot.go:334-434 | The validator's index by revision and its passes over neighbours decide exactly the declarative relation between all pairs of events: one event per revision 1..N, chained by state and time, opened by create or adopt, last event explaining the stored state. |
| Replay.IndexEvents | internal/recovery/casestore/snapshot.go:338-362 | Indexing succeeds exactly when every event obeys the rules of its type and no two share a revision. |
| Replay.CheckContinuity | internal/recovery/casestore/snapshot.go:370-400 | Succeeds exactly when each event starts in the state, and not before the time, in which its predecessor ended. |
| Replay.IntegrityByRevision | internal/recovery/casestore/snapshot.go:363-434 | With as many events as the stored revision and one for each revision, integrity holds if and only if neighbours fit, the first event opens the case, the last explains the stored state, and findings and plans have provenance. |
| Replay.LogIsLegalRun | internal/recovery/casestore/snapshot.go:334-434 | Whatever the order, ids and equal times of its events, the log of a valid snapshot is exactly one legal run of the transition relation that ends in the stored state, event id and time. |
| Replay.LegalRunHasIntegrity | internal/recovery/casestore/snapshot.go:334-434 | Conversely, a legal run that ends in the stored state is accepted, in whatever order its events are stored. |
| Replay.RunCoversLog | internal/recovery/casestore/snapshot.go:334-370 | Counting argument: the events found at revisions 1..N are all the events there are. |
| Replay.NothingAfterTerminal | internal/recovery/domain/coordinator_event_semantics.go:40-60 | After case_failed or case_cancelled there is no further event, and the stored state is terminal. |
| Replay.PlanEventIsNearlyLast | internal/recovery/domain/coordinator_event_semantics.go:40-60 | A plan_committed event is the last event, or the last but one in front of a terminal event. |
| Replay.PlanUniqueness | internal/recovery/casestore/snapshot.go:436-505 | A valid snapshot has as many repair plans as plan_committed events and never more than one; one exactly is present in plan_proposed, none in evidence_collected and analyzed. |
| Replay.PlansAreThoseOf | internal/recovery/casestore/snapshot.go:679-701 | A plan_committed event cites the only plan of the snapshot, its findings and step targets, and nothing else. |
| Semantics.TransitionTablesAgree | internal/recovery/coordinator/transitions.go:9-85 | The event type the writer chooses for a transition is the one for which the reader's relation admits it, in both directions. |
| Validator.Validate | internal/recovery/casestore/snapshot.go:45-327 | The passes of Snapshot.Validate, over look-up sets and maps, accept exactly the snapshots that satisfy the declarative rules the lemmas are about. |
| Validator.CheckCase | internal/recovery/casestore/snapshot.go:46-101 | Accepts exactly when the manifest, the emptiness rules, the target documents and the equality of the two target id sets hold. |
| Validator.DistinctEitherWay | internal/recovery/casestore/snapshot.go:75-198 | No repeated id in any list, request ids included, if and only if no document occurs twice and no two documents share an id. |
| Validator.CheckArtifacts | internal/recovery/casestore/snapshot.go:104-126 | Comparing each reference with the first of its id only decides that all references of an id agree pairwise. |
| Validator.CheckEvent | internal/recovery/casestore/snapshot.go:507-554 | An event passes if and only if its references exist, are distinct, name case and workflow and no event, and are exactly the set its type demands. |
| Validator.OpeningRefs | internal/recovery/casestore/snapshot.go:556-586 | The loops yield case, workflow and precisely the targets and evidence no acquisition claims. |
| Validator.AnalysisClosure | internal/recovery/casestore/snapshot.go:660-677 | The loop yields the closure of the cited findings, or nothing if no finding is cited. |
| Validator.CheckPlanRefs | internal/recovery/casestore/snapshot.go:679-701 | Succeeds if and only if the event cites exactly one plan, the active one in plan_proposed, and its references are that plan's closure. |
| Validator.CheckLifecycle | internal/recovery/casestore/snapshot.go:436-505 | The last pass of the transition check: collecting audited references first and then looking findings and plans up decides lifecycle provenance. |
| Validator.CheckOrigins | internal/recovery/casestore/snapshot.go:588-658 | Rejects exactly when two acquisitions claim one document; the further checks, that each document is initial or acquired and not both, never fail. |
| Validator.CollectClaims | internal/recovery/casestore/snapshot.go:588-620 | Fails exactly on an id claimed twice, within one acquisition or by two; otherwise yields all claims. |
| Reader.CollectArtifactRefs | internal/recovery/casestore/snapshot.go:985-1013 | The table and the sorted ids compute the merge the lemmas are about: none on a divergence, else each reference once, by id. |
| Reader.CheckManifest | internal/recovery/casestore/load.go:358-495 | Accepts exactly the manifests with canonical, distinct paths, one case manifest, distinct sized artifacts, and digests equal to those recomputed. |
| Reader.CheckFiles | internal/recovery/casestore/load.go:108-152 | Walking the directory and then the manifest accepts exactly when files and listed paths coincide and every digest matches. |
| Reader.ReadDocuments | internal/recovery/casestore/load.go:154-328 | Reading the case manifest and then every file into its collection, sorted at the end, yields the assembled snapshot, or nothing if any file fails to decode or sits at a foreign path. |
| Reader.CompareManifestArtifacts | internal/recovery/casestore/load.go:497-529 | Crossing manifest artifacts off a table decides that they are exactly the snapshot's references. |
| Reader.CrossOff | internal/recovery/casestore/load.go:505-528 | With equal counts and distinct ids, every artifact found means none left over: the final check never fails. |
| Reader.CompareCanonicalDocuments | internal/recovery/casestore/load.go:563-586 | The entry-by-entry comparison decides equality with the re-derived documents; the count of case manifests is then always one. |
| Reader.LoadSnapshotAtCommit | internal/recovery/casestore/load.go:77-356 | The loader step by step returns what the specification of loading says, errors included. |
| Preservation.TransitionKeepsValid | internal/recovery/casestore/snapshot.go:45-327 | A workflow transition from a valid snapshot, whose own event and new documents check out, leads to a valid snapshot: every earlier event keeps its exact reference set. |
| Preservation.OldEventSurvivesTransition | internal/recovery/casestore/snapshot.go:507-554 | No later finding, plan or transition changes what an earlier event must reference. |
| Preservation.OldEventSurvivesAcquisition | internal/recovery/casestore/snapshot.go:507-586 | No later acquisition changes what an earlier event must reference, the opening event's initial set included. |
| Preservation.InitialDocumentsConserved | internal/recovery/casestore/snapshot.go:564-586 | An acquisition that claims exactly what it adds leaves the computed initial targets and evidence as they were. |
| Preservation.AcquisitionKeepsValid | internal/recovery/casestore/snapshot.go:588-658 | Appending valid evidence with an acquisition that claims exactly what is new keeps a valid snapshot valid. |
| Preservation.ConsultationKeepsValid | internal/recovery/casestore/snapshot.go:45-327 | Appending a valid consultation with new ids keeps a valid snapshot valid. |
| Preservation.OpeningKeepsValid | internal/recovery/casestore/snapshot.go:556-586 | The create or adopt event with the exact initial reference set turns a valid workflow-less snapshot into a valid one at revision 1. |
| Commands.AnalysisAcceptance | internal/recovery/coordinator/commit_analysis.go:128-189 | From any valid snapshot the successor CommitAnalysis builds passes validation if and only if the request is legal: transition allowed, findings valid and not in conflict with stored ones, event id fresh, codes well formed. |
| Commands.PlanAcceptance | internal/recovery/coordinator/commit_analysis.go:192-251 | From any valid snapshot the successor CommitPlan builds passes validation if and only if the case is at analyzed, the plan is a valid draft, actor and codes are allowed and the event id is fresh. |
| Commands.TerminalAcceptance | internal/recovery/coordinator/commit_analysis.go:254-350 | FailCase and CancelCase build a valid successor if and only if the case is open, actor and codes are allowed and the event id is fresh. |
| Commands.CreateAcceptance | internal/recovery/coordinator/create_case.go:15-71 | A valid import becomes a valid case at revision 1 if and only if actor and codes are allowed. |
| Commands.AdoptAcceptance | internal/recovery/coordinator/adopt_legacy.go:25-83 | A valid snapshot is adopted if and only if it has no workflow, is SNAPSHOTTED, and actor and codes are allowed. |
| Commands.ReadAcceptance | internal/recovery/coordinator/acquire.go:405-438 | A reading is appended as a valid successor if and only if its evidence is new and valid, its artifacts agree with the stored ones, its ids are fresh and its inputs are known and distinct. |
| Commands.ClaimedTwiceIsInvalid | internal/recovery/casestore/snapshot.go:588-658 | An acquisition that claims evidence the case already had is always rejected: by the opening event's reference set if it was initial, by the one-origin rule if it was acquired. |
| Commands.ConsultationAcceptance | internal/recovery/coordinator/consultation.go:270-288 | A consultation is appended if and only if it is valid and its id and request id are new; then nothing else changes. |
| Commands.AnalysisRefsSet | internal/recovery/coordinator/refs.go:37-46 | The writer's list for analysis_committed is, without repetition, the case, the workflow and the closure of the findings that the reader re-derives. |
| Commands.PlanRefsSet | internal/recovery/coordinator/refs.go:48-56 | The writer's list for plan_committed is, without repetition, the case, the workflow and the plan closure the reader re-derives. |
| Commands.TerminalRefsSet | internal/recovery/coordinator/refs.go:58-64 | The writer's list for a terminal event is the case, the workflow and the active plan if there is one. |
| Commands.CreateRefsSet | internal/recovery/coordinator/refs.go:24-35 | Before any acquisition the writer's list for create and adopt is the initial set the reader computes. |
| Commands.StampTaken | internal/recovery/coordinator/audit.go:49-57 | Stamping by event id hits the first event with that id: if the new id is taken, the new event keeps its empty reference list and the snapshot is rejected. |
| Commands.TakenIdIsRejected | internal/recovery/coordinator/audit.go:49-57 | A transition under an event id that is already taken never yields a valid snapshot. |
| Collections.UniqueRefsIsSet | internal/recovery/coordinator/refs.go:8-22 | De-duplication keeps exactly the references given, each once. |
| Collections.MergeAppends | internal/recovery/coordinator/findings.go:14-37 | A successful append-only merge extends the stored list, keeps ids distinct, and holds exactly the stored and the incoming documents. |
| Collections.MergeConflicts | internal/recovery/coordinator/findings.go:14-37 | The merge succeeds if and only if no two of the stored and incoming documents share an id and differ. |
| Drafts.MergeFindings | internal/recovery/coordinator/findings.go:14-37 | The loop over an id map computes the merge the lemmas are about. |
| Drafts.MergeEvidence | internal/recovery/coordinator/acquire.go:467-492 | The loop with an index into the output computes the same merge for evidence. |
| Drafts.MergePlansImmutable | internal/recovery/coordinator/plans.go:14-31 | The loop accepts a new plan id, repeats an identical plan, and rejects a divergent one. |
| Drafts.Draft.MonotonicNow | internal/recovery/coordinator/state.go:39-59 | The stamped time is the maximum of the clock and every time the snapshot carries, so at least its creation and update times. |
| Drafts.Draft.SetWorkflow | internal/recovery/coordinator/state.go:14-35 | State, revision, last event, active plan and failure are replaced; manifest time and case state follow; nothing else changes. |
| Drafts.Draft.StampAuditEvent | internal/recovery/coordinator/audit.go:49-57 | Only the first event with the id is overwritten, and only its references and time. |
| Codec.AssembleInvertsPrepare | internal/recovery/casestore/snapshot.go:829-968 | Reading prepared documents back by path gives the snapshot in canonical order. |
| Codec.CanonicalForgetsOrder | internal/recovery/casestore/snapshot.go:20-43 | Snapshots that differ in the order of their collections have one canonical form. |
| Manifests.PreparedExactly | internal/recovery/casestore/snapshot.go:829-968 | The prepared list holds exactly the documents of the snapshot, in path order, no path twice. |
| Manifests.ArtifactsCollected | internal/recovery/casestore/snapshot.go:985-1013 | Artifact references are collected if and only if all evidence agrees on each artifact id; then each id occurs once, sorted, with a lower-case digest. |
| Manifests.ManifestForgetsOrder | internal/recovery/casestore/snapshot.go:1015-1073 | Permuting any document collection of a valid snapshot leaves the documents, the artifacts and hence the manifest bytes and the snapshot id unchanged. |
| Loading.ManifestIsValid | internal/recovery/casestore/load.go:358-495 | The manifest the writer builds passes the reader's manifest checks, its recomputed content digest and snapshot id included, whatever case id it is built for. |
| Loading.RoundTrip | internal/recovery/casestore/load.go:77-356 | A valid snapshot, once its directory and blobs are in place, is loaded back as itself in canonical order. |
| Loading.LoadsUnderAnyCase | internal/recovery/casestore/load.go:97-103 | The documents of any valid snapshot, listed in a manifest for any case id, load for that case: the case id inside the case document is not compared with it. |
| Loading.LoadIsSound | internal/recovery/casestore/load.go:77-356 | Whatever loads is valid and canonical, its blobs verify, and the snapshot id is the digest of exactly its own documents and artifacts. |
| Loading.IdNamesOneSnapshot | internal/recovery/casestore/load.go:460-495 | A snapshot id names one snapshot: two stores that load it, under whatever manifest digest, load the same. |
| Loading.SameNameSameSnapshot | internal/recovery/casestore/load.go:563-586 | Two valid snapshots with one snapshot id are rearrangements of each other. |
| Loading.LoadIsStable | internal/recovery/casestore/load.go:77-356 | Adding snapshots or blobs never changes what a successful load returns. |
| Chain.LoadCommitChainPrefix | internal/recovery/casestore/load.go:602-727 | For any directory contents it succeeds if and only if every final file is valid and the records form one chain 1..n linked by parent; otherwise the prefix returned is linked, it is where the loop stops in some listing of the records, and the broken list is exactly the malformed files and the records left out. Where no record continues the trunk, or with distinct sequence numbers, it contains every chain of records; where the trunk ends in an even fork, no chain is longer. |
| Chain.ReadRecords | internal/recovery/casestore/load.go:616-648 | Each final file is sorted into valid records or malformed names, none lost, none twice. |
| Chain.NoOtherArrangement | internal/recovery/casestore/load.go:650-706 | Duplicates, gaps and forks: if the records sorted by sequence do not link, no arrangement of them does. |
| Chain.ChainIsUnique | internal/recovery/casestore/load.go:602-727 | A commit directory holds at most one chain. |
| Chain.LongestIffForkIsEven | internal/recovery/casestore/load.go:600-602 | For any set of records: in every listing order no chain is longer than the prefix where the loader stops, if and only if no record continues the trunk (the longest linked prefix all of whose sequence numbers occur once), or every record of the next sequence number does and nothing continues any of them. |
| Chain.OnlyLongestIffTrunkEnds | internal/recovery/casestore/load.go:600-602 | In every listing order the prefix where the loader stops contains every chain of records, if and only if no record continues the trunk. |
| Chain.StopsNearTrunk | internal/recovery/casestore/load.go:650-706 | In any listing the loader goes through the trunk, takes the record behind it if that one continues the trunk, and stops there. |
| Chain.StrayHidesChain | internal/recovery/casestore/load.go:650-706 | Where a record continues the trunk and another one of its sequence number does not, the loader misses a longer chain in the listing that puts the other one first. |
| Chain.LongBranchIsMissed | internal/recovery/casestore/load.go:650-706 | Where two records go on behind the trunk at a fork, the loader misses a longer chain in every listing. |
| Chain.SymmetricFork | internal/recovery/casestore/load.go:600-602 | With two branches of one record each behind a first commit, the loader returns a longest chain in every listing, but not the only one. |
| Chain.DistinctEndsTrunk | internal/recovery/casestore/load.go:600-602 | With distinct sequence numbers no record continues the trunk, so the comment holds for every such directory. |
| Chain.ForkHidesChain | internal/recovery/casestore/load.go:600-602 | The comment's "longest valid prefix" fails on a fork: a commit directory of three valid, properly named records, one of them a stray second record of sequence 2, in which the loader can stop after one commit although a chain of two exists. |
| Chain.ChainGrows | internal/recovery/casestore/commit.go:226-253 | Publishing one more record under its own name extends the chain by exactly that record, whatever temporary files exist. |
| Chain.FreshName | internal/recovery/casestore/commit.go:247-249 | In an intact directory the next record's file name is never taken. |
| Chain.CommitIdsAreUnique | internal/recovery/casestore/commit.go:499-527 | A commit id occurs at one position of a chain only. |
| History.HistoryIsUnique | internal/recovery/casestore/load.go:22-75 | A case directory has at most one history: one chain and one snapshot for each of its commits. |
| History.HistoryKept | internal/recovery/casestore/commit.go:124-253 | Every step short of the record rename leaves the history, with every earlier snapshot, as it was. |
| History.HistoryAppended | internal/recovery/casestore/commit.go:253-253 | A record renamed into place over a published snapshot appends exactly one entry. |
| History.BrokenCommitNoHistory | internal/recovery/casestore/commit.go:308-327 | One commit that does not load, anywhere in the chain, makes the whole case unreadable: there is no fallback. |
| Publication.IngestResumes | internal/recovery/casestore/commit.go:329-415 | Ingesting after an interrupted ingestion gives the blobs an uninterrupted one would have given. |
| Publication.OrphanVerifiesIff | internal/recovery/casestore/commit.go:296-303 | An already published snapshot directory is reused if and only if it is, file by file, what this commit would publish. |
| Publication.IdempotentIsHead | internal/recovery/casestore/commit.go:101-118 | The idempotent answer is right: a head under the requested snapshot's id is that snapshot in canonical order. |
| Publication.PublishedLoads | internal/recovery/casestore/commit.go:194-215 | A published snapshot with its blobs loads as itself in canonical order. |
| Publication.RecordPublishes | internal/recovery/casestore/commit.go:226-253 | With snapshot and blobs in place, the rename of the record turns the old history into the old history plus the new snapshot. |
| Publication.MaterialKept | internal/recovery/casestore/commit.go:168-215 | What an interrupted attempt leaves behind never blocks the same commit from completing later. |
| Store.CaseDirectory.CreateStagingTransaction | internal/recovery/casestore/commit.go:438-472 | A fresh staging directory under one of up to eight drawn names; no other staging directory is touched. |
| Store.CaseDirectory.WriteDocuments | internal/recovery/casestore/commit.go:136-160 | If it finishes, the staging directory holds exactly the prepared files and no temporary one; other staging directories are untouched. |
| Store.CaseDirectory.IngestArtifact | internal/recovery/casestore/commit.go:329-415 | An existing blob is verified, a missing one copied and checked; a failure adds no blob; no blob is ever replaced. |
| Store.CaseDirectory.PublishSnapshot | internal/recovery/casestore/commit.go:177-215 | Either the staging directory becomes the snapshot or an intact orphan is reused; a damaged orphan is refused, and nothing else changes. |
| Store.CaseDirectory.PublishRecord | internal/recovery/casestore/commit.go:247-279 | The record appears under its own name, or the final files are unchanged; after the rename the only remaining failure is an unknown outcome. |
| Store.CaseDirectory.VerifyCommittedHistory | internal/recovery/casestore/commit.go:308-327 | Succeeds if and only if every commit of the chain loads; then it yields the history. |
| Store.CaseDirectory.LoadLatest | internal/recovery/casestore/load.go:22-75 | Returns the last entry of the history, not-found for an empty one, and corrupt if there is none. |
| Store.CaseDirectory.ValidateProvenance | internal/recovery/casestore/acquisition_provenance.go:18-74 | The index from commit id to position, and the loops over sources and inputs, decide exactly whether each acquisition names an earlier commit that holds all its inputs and none of what it added. |
| Store.CheckSource | internal/recovery/casestore/acquisition_provenance.go:36-72 | The loops over input and added ids accept exactly an acquisition whose inputs are ids of the source snapshot and whose added evidence and targets are not. |
| Publication.ProvenanceIff | internal/recovery/casestore/acquisition_provenance.go:18-74 | On a readable history the provenance check passes if and only if every acquisition has a commit whose id it names, whose documents include all its inputs, and include none of the evidence or targets it claims to have added. |
| Store.CaseDirectory.DecideCommit | internal/recovery/casestore/commit.go:52-122 | The steps before the first write decide as specified: corrupt where the chain, a commit of it or the provenance fails; otherwise reuse of an identical head before the parent check, and publication where that passes. |
| Store.CaseDirectory.CommitLocked | internal/recovery/casestore/commit.go:52-291 | Crash atomicity: whatever step it stops at, the directory has the old history or the old history with exactly the new snapshot on top, under the time and reason of the request, the latter once the record was renamed; decisions, errors and the idempotent answer are those of the specification, and past the decision nothing is refused as a conflict; without a crash it commits whenever its blobs are available. |
| Store.CaseDirectory.Commit | internal/recovery/casestore/commit.go:18-50 | Invalid requests and a held lock change nothing; otherwise the effect is that of the locked commit; and whatever is published or answered idempotently, each of its acquisitions has a source commit that holds its inputs and nothing it added. |
| Store.NoStrayFiles | internal/recovery/casestore/atomic.go:28-91 | No document is ever written under a temporary name. |
| Recovery.Verify | internal/recovery/casestore/verify.go:11-200 | The status set site by site is corrupt if and only if an error is listed, and ok if and only if nothing at all is; the errors are exactly the broken files and the commits that do not load or lack provenance; orphan, staging and temporary lists are exact. |
| Recovery.VerifiedHeadLoads | internal/recovery/casestore/verify.go:11-200 | A report that is not corrupt implies that LoadLatest returns the last commit it lists. |
| Recovery.CleanupStaging | internal/recovery/casestore/recover.go:200-312 | Removes every staging directory and temporary file that can be removed and nothing else; what resists deletion stays, in part or whole; chain, snapshots, blobs and history are unchanged; refuses while the lock is held. |
| Recovery.InspectRecovery | internal/recovery/casestore/recover.go:11-195 | Classifies exactly: commits that load or mismatch, broken tail and its snapshots, malformed files, uncommitted snapshots with and without manifest, unreferenced blobs. |
| Recovery.UncommittedIsDispensable | internal/recovery/casestore/recover.go:57-107 | Deleting any snapshots that the inspection calls uncommitted leaves the history as it was. |
| PowerLoss.PowerSafety | internal/recovery/casestore/atomic.go:101-133 | A directory survives every loss of unsynced names, giving up at most its last commit, if every snapshot and blob of its history and every record but the last is synced; if not, some loss leaves no readable case at all. |
| PowerLoss.CommitPowerSafety | internal/recovery/casestore/commit.go:187-279 | A completed commit keeps a power-safe directory power-safe if and only if the snapshot directory it reused was already synced, and so was every blob it reused unless a new blob of the commit goes to the same prefix directory, which is synced as a whole; an unknown outcome also needs the previous record to have been synced; a refused or stopped commit never endangers it. |
| PowerLoss.AcknowledgedSurvives | internal/recovery/casestore/commit.go:101-118 | Of commits reported as done on a power-safe directory: a published one survives every loss with all earlier ones if and only if what it reused was synced; an idempotent answer, which syncs nothing, if and only if its record had been synced by then. |
| PowerLoss.GapIsCorrupt | internal/recovery/casestore/load.go:652-677 | A record lost in front of a later one makes the case unreadable. |
| PowerLoss.LostSnapshotIsCorrupt | internal/recovery/casestore/load.go:77-110 | A snapshot directory lost under its record makes the case unreadable. |
| PowerLoss.LostBlobIsCorrupt | internal/recovery/casestore/load.go:300-356 | A blob lost under a snapshot that lists it makes the case unreadable. |
| Evolution.CommandEvolves | internal/recovery/coordinator/commit_analysis.go:98-350 | Every command's successor is valid, keeps every document of its head with identical content, and gives each new target and evidence one origin. |
| Evolution.CommandAddsOne | internal/recovery/coordinator/commit_analysis.go:98-350 | Every command adds exactly one event, acquisition or consultation. |
| Runs.NothingIsLost | internal/recovery/coordinator/state.go:61-81 | No lost updates: in every coordinated history each commit contains all documents of every earlier one. |
| Runs.InitialDocumentsAreConserved | internal/recovery/casestore/snapshot.go:564-586 | At every commit the computed initial targets and evidence are those of the first commit. |
| Runs.EvidenceIsPartitioned | internal/recovery/casestore/snapshot.go:588-658 | At every commit each piece of evidence is initial or claimed by exactly one acquisition. |
| Runs.TargetsArePartitioned | internal/recovery/casestore/snapshot.go:588-658 | At every commit each target is initial or claimed by exactly one acquisition. |
| Runs.EveryAcquisitionHasOrigin | internal/recovery/coordinator/acquire.go:161-195 | The source commit of an acquisition is the parent of the commit that first contains it, and what was added between the two is exactly what it claims. |
| Runs.ProvenanceAcrossTheChain | internal/recovery/casestore/acquisition_provenance.go:18-74 | The store's provenance check at a commit passes if and only if every acquisition names as inputs evidence its source commit has. |
| Runs.ProvenanceAppended | internal/recovery/casestore/acquisition_provenance.go:18-74 | A snapshot that was published passed the check, and the check keeps passing for every commit as the history grows. |
| Runs.SwapHitsHead | internal/recovery/casestore/parent_expectation.go:56-81 | Compare-and-swap: a command whose parent check passes was built on the current head, however old its read. |
| Runs.StepRefines | internal/recovery/coordinator/commit_analysis.go:98-109 | Refinement: every step of every writer, crash, lock refusal and cleanup leaves the log alone or appends to it the successor of its last entry. |
| Runs.CommandIsStep | internal/recovery/coordinator/commit_analysis.go:98-109 | What a coordinator command does to the directory, proved of its method, is a step of the concurrent system. |
| Runs.CreationIsStep | internal/recovery/coordinator/create_case.go:15-71 | What case creation does to the directory, proved of its method, is a step of the concurrent system: the opened import is the first commit. |
| Runs.EveryRun | internal/recovery/casestore/doc.go:4-9 | In every run from an empty directory the case stays readable, and its histories only grow by coordinator commands. |
| Runs.NeverCorrupt | internal/recovery/casestore/verify.go:11-200 | In every state of every run the integrity report finds no error. |
| Runs.AtMostOneAppends | internal/recovery/casestore/commit.go:101-122 | In any run, of two commits made on the same parent, with whatever steps between them and whatever outcome the first was told, at most one appends; the later changes nothing, and is refused if the snapshots differ. |
| Runs.LedgerCounts | internal/recovery/coordinator/commit_analysis.go:98-350 | The number of events, acquisitions and consultations in a snapshot is that of any earlier commit plus the commits between: a snapshot tells how far it is from any other commit of its history. |
| Retries.RetryAfterUnknown | internal/recovery/casestore/errors.go:31-33 | After an unknown outcome, a retry with no commit between returns the same commit and changes nothing, except that a create-only retry is refused as existing. |
| Retries.RetryAfterStop | internal/recovery/casestore/commit.go:124-253 | After a stop before the record, the same request is decided as before and finds everything it needs to complete. |
| Retries.AcquisitionIsRemembered | internal/recovery/coordinator/acquire.go:92-118 | A stored acquisition answers every request under its id: the identical one with the record, any other with a conflict. |
| Retries.ReplayAtEveryLaterHead | internal/recovery/coordinator/acquire.go:92-118 | An acquisition once committed is found unchanged at every later commit of the history. |
| Retries.ConsultationIsRemembered | internal/recovery/coordinator/consultation.go:228-268 | A stored consultation answers every one under its request id: equal up to its time it is replayed, otherwise it conflicts. |
| Retries.ConsultationReplayNeedsSource | internal/recovery/coordinator/consultation.go:70-72 | At any later head the same request is replayed if the caller named the source commit, and conflicts with itself if not. |
| Audit.EndIsRecorded | internal/recovery/coordinator/commit_analysis.go:254-350 | An accepted end adds one event with the given actor or the default, the given reason or the default, command, head as expected commit, old state and next state, and sets the workflow accordingly: a failure holds reason and detail, a cancelled case has none. |
| Audit.AnalysisIsRecorded | internal/recovery/coordinator/commit_analysis.go:128-189 | An accepted analysis adds its filled findings and one event with actor, reason, command, expected commit, old state and analyzed, and nothing else. |
| Audit.PlanIsRecorded | internal/recovery/coordinator/commit_analysis.go:192-251 | An accepted proposal adds the filled plan, makes it the active one, and adds one event with actor, reason, command, expected commit, old state and plan proposed. |
| Audit.AdoptionIsRecorded | internal/recovery/coordinator/adopt_legacy.go:25-83 | An accepted adoption adds the one event that opens a legacy case at evidence collected, with actor, reason, command and expected commit. |
| Audit.CreationIsRecorded | internal/recovery/coordinator/create_case.go:15-71 | An accepted creation opens the import with one event, from created to evidence collected, with no expected commit. |
| Audit.ReadingIsRecorded | internal/recovery/coordinator/acquire.go:405-438 | An accepted reading adds its evidence and one acquisition naming request, head, target, sorted inputs, added evidence and parameter digest. |
| Coordinators.Coordinator.LoadLatestVerified | internal/recovery/coordinator/commit_analysis.go:71-94 | Returns the head if and only if the directory exists, the chain is whole and not empty and every commit is sound; not-found and corrupt are told apart exactly. |
| Coordinators.Coordinator.LoadExpected | internal/recovery/coordinator/commit_analysis.go:51-67 | Returns the verified head if it is the expected commit, a revision conflict if it is another, and the load error otherwise. |
| Coordinators.Coordinator.MapStoreWriteError | internal/recovery/coordinator/commit_analysis.go:12-49 | A held lock is reported as a conflict exactly when the head is no longer the expected commit; other errors pass through. |
| Coordinators.Coordinator.CommitSnapshot | internal/recovery/coordinator/commit_analysis.go:98-109 | The store sees the successor with the commit it was built on as expected parent; the reply is the store's outcome for it. |
| Coordinators.Coordinator.CommitAnalysis | internal/recovery/coordinator/commit_analysis.go:128-189 | The in-place edits build the specified successor of the head that was read, and its publication has the specified effect, whatever was committed meanwhile. |
| Coordinators.Coordinator.CommitPlan | internal/recovery/coordinator/commit_analysis.go:192-251 | The same for a plan. |
| Coordinators.Coordinator.EndCase | internal/recovery/coordinator/commit_analysis.go:254-350 | The same for FailCase and CancelCase; what the successor holds is Audit.EndIsRecorded. |
| Coordinators.Coordinator.AdoptLegacyCase | internal/recovery/coordinator/adopt_legacy.go:25-83 | The same for adopting a legacy snapshot. |
| Coordinators.Coordinator.CreateCase | internal/recovery/coordinator/create_case.go:15-71 | A create-only commit of the opened import; a refusal changes nothing. |
| Coordinators.Coordinator.Acquire | internal/recovery/coordinator/acquire.go:61-205 | Actor, state, replay, conflict and expectation are decided in that order; only a new request on the expected head is executed and published. |
| Coordinators.Coordinator.CommitAgentConsultation | internal/recovery/coordinator/consultation.go:35-112 | Refusal, replay, conflict and expectation are decided in that order; only a new consultation on the expected head is published. |
| Coordinators.Coordinator.FindConsultationReplay | internal/recovery/coordinator/consultation.go:228-268 | The loop finds the first record that shares either id and compares it up to its time. |
| Resolver.Resolve | internal/recovery/targetresolver/resolver.go:52-230 | Succeeds if and only if there is a firmware target, no two Windows installations share a partition or a disk, and the technician's selection, if any, fits the evidence. Then every one of the twenty blocker codes, every ambiguity code, every candidate and the firmware mode is there if and only if the evidence says so, code by code; eligible iff no blocker; and eligibility and selection are characterised on the evidence, with a technician and without. |
| Resolver.IdsUniqueIffNothingShared | internal/recovery/domain/windows_boot_topology.go:186-216 | Over all roles, candidate and relation ids are unique if and only if no two installations share a partition or a disk. |
| Resolver.DualBootIsUnresolvable | internal/recovery/targetresolver/resolver.go:412-418 | Two installations whose partitions lie on one disk always share, so every resolution of such evidence fails. |
| Resolver.UnblockedIsSelected | internal/recovery/targetresolver/resolver.go:688-750 | Every way to end without a selection raises some blocker, so an unblocked resolution has one. |
| Resolver.UnblockedIsActionable | internal/recovery/targetresolver/resolver.go:800-842 | An unblocked selection is UEFI on a GPT disk with proven or strong hosts_windows, contains, hosts_esp and, if chosen, contains_bcd_store links. |
| Resolver.TechnicianValidIffFits | internal/recovery/targetresolver/resolver.go:752-798 | The technician check over the computed relations accepts exactly the selections that fit the evidence itself. |
| Resolver.TechnicianEligibility | internal/recovery/targetresolver/resolver.go:115-146 | With a fitting technician selection, eligibility is exactly UEFI, safe media and no link known only from the running system. |
| Resolver.AutomaticEligibility | internal/recovery/targetresolver/resolver.go:688-750 | Without a technician a chain is selected and unblocked if and only if, on the evidence, it is the only installation on its only partition and GPT disk with the only and proven EFI system partition and at most one boot store, on that partition, under UEFI, with safe media, and with no link resting on a drive letter. |
| Resolver.AutomaticIsUnique | internal/recovery/targetresolver/resolver.go:688-750 | An eligible automatic selection had one Windows installation, one partition with any sign of being an EFI system partition, and at most one boot store to choose from, told on the evidence. |
| Resolver.BlockersAre | internal/recovery/targetresolver/resolver.go:52-230 | For every code: the blocker is raised if and only if what it says of the evidence holds, with a technician and without. |
| Resolver.ChoiceBlocks | internal/recovery/targetresolver/resolver.go:688-750 | Why there is no automatic choice: the stages of the selection, computed on candidates and relations, block exactly where mode, installations, disk, EFI system partition, boot stores and their links on the evidence do. |
| Resolver.AmbiguitiesExact | internal/recovery/targetresolver/resolver.go:52-230 | The collected ambiguities are exactly what the evidence leaves open, code by code. |
| Resolver.CandidatesPlay | internal/recovery/targetresolver/resolver.go:360-549 | The candidates of all roles are exactly the targets the evidence shows in these roles, with the confidence it gives them. |
| Resolver.ModeFitsIff | internal/recovery/targetresolver/resolver.go:295-358 | The mode computed from the set of reported words is the one the words add up to: one word alone decides, two different words conflict. |
| Resolver.SafeMediaIff | internal/recovery/targetresolver/resolver.go:551-651 | Neither BitLocker nor health raises a blocker if and only if all volumes are known unlocked, health was recorded, and every record is healthy. |
| Resolver.ResolveWindows | internal/recovery/targetresolver/resolver.go:360-440 | Candidates and relations are exactly those of the installations in order; ambiguities only for an unresolved partition or disk. |
| Resolver.ResolveEsp | internal/recovery/targetresolver/resolver.go:442-506 | One relation for every disk a candidate partition is related to, and no other, with distinct ids. |
| Resolver.ResolveBcd | internal/recovery/targetresolver/resolver.go:508-549 | A store is linked exactly to the one partition it is related to, and to none if there are several. |
| Resolver.ResolveBitLocker | internal/recovery/targetresolver/resolver.go:551-602 | The blockers are those of the lock states, and every ambiguity has its blocker. |
| Resolver.ResolveHealth | internal/recovery/targetresolver/resolver.go:604-651 | An unsafe record outweighs an unknown one within a record set, no record counts as unknown, and every ambiguity has its blocker. |
| Resolver.RelatedDiskList | internal/recovery/targetresolver/resolver.go:860-882 | The disks related to a partition, by reference or by disk number, each once. |
| BootDoctor.CollectDrafts | internal/recovery/bootdoctor/analyze.go:121-301 | The parts in source order, with their switches and the closure that merges what several of them draft, yield exactly the emitted codes, each marked as lacking evidence if and only if one of the places that draft it marks it; what that means on the evidence is DraftedIffFound and MarkedIffLacking. |
| BootDoctor.DraftedIffFound | internal/recovery/bootdoctor/analyze.go:121-301 | For every topology Resolve returns, each code is drafted if and only if what it says of the evidence and the selection holds, code by code; the consistent verdict exactly for eligible ones. |
| BootDoctor.MarkedIffLacking | internal/recovery/bootdoctor/analyze.go:121-301 | A drafted code is marked as lacking evidence if and only if its code says so, or, for the one code two places draft, some volume is undecided. |
| BootDoctor.OnlyConsistentIsDropped | internal/recovery/bootdoctor/suppress.go:19-79 | On resolved evidence no suppressing code holds together with a code it suppresses, the consistent verdict apart. |
| BootDoctor.PartsAddUp | internal/recovery/bootdoctor/analyze.go:123-137 | Over all parts, a code is drafted where it is emitted and its marks are joined by or. |
| BootDoctor.ApplySuppression | internal/recovery/bootdoctor/suppress.go:81-99 | The two loops keep exactly the drafts that no present code suppresses. |
| BootDoctor.SuppressionSettles | internal/recovery/bootdoctor/suppress.go:19-99 | No kept code is a victim of another kept code, and suppressing again changes nothing. |
| BootDoctor.SuppressionKeepsSome | internal/recovery/bootdoctor/suppress.go:19-99 | Non-empty drafts stay non-empty. |
| BootDoctor.FindingsRemain | internal/recovery/bootdoctor/analyze.go:121-301 | For every topology Resolve returns some drafts survive suppression. |
| BootDoctor.EligibleSuppressors | internal/recovery/bootdoctor/suppress.go:19-79 | Of the codes that suppress boot_topology_consistent, an eligible topology can have two: the store on another partition and the ambiguous topology. |
| BootDoctor.ConsistentSurvivesIff | internal/recovery/bootdoctor/suppress.go:19-79 | boot_topology_consistent survives if and only if nothing blocks and the evidence has one installation, one EFI system partition and at most one boot store, which is on one partition, one of the selected ones. |
| BootDoctor.AnalyzeEvidence | internal/recovery/bootdoctor/analyze.go:35-119 | Resolver and Boot Doctor together: findings exist for exactly the resolvable evidence, and every code is among them if and only if what it says of the evidence and the selection holds, told apart from the tests, the drafting and the suppression table; for instance bitlocker_locked iff some volume is reported locked or inaccessible. The marks are exact too. |
| Runtime.Authorize | internal/recovery/agentruntime/authorize.go:25-104 | A round is authorized if and only if it is within both budgets, all requests are permitted on targets of the case, and no key repeats within or across rounds. |
| Runtime.ExecuteReads | internal/recovery/agentruntime/bridge.go:25-73 | Reads are issued in order until one fails; whatever others do meanwhile, the run itself appends at most one commit for each read, and these only add evidence and acquisitions. If none fails, the case holds the acquisition of every read, under its request id and with its parameters; alone, from the head, none is refused as stale. |
| Runtime.Persist | internal/recovery/agentruntime/runtime.go:182-214 | The run appends at most one terminal consultation, whatever others do meanwhile; a persisted outcome is in the case under its request, consultation id, status, round and content, and refers to exactly the findings, evidence and targets the run saw last; on a stale commit id a new request adds none; alone, on the head, a new record is handed over to the store and its answer decides. |
| Runtime.RoundIsBounded | internal/recovery/agentruntime/authorize.go:25-104 | Authorized rounds stay within 3 rounds, 4 reads each, 8 in all, no key twice, however many of the reads were issued. |
| Runtime.HandOverAdvances | internal/recovery/coordinator/commit_analysis.go:98-109 | A command on a head read earlier appends its successor if that head still is the head, and otherwise leaves the history alone; a success means the head holds that successor. |
| Runtime.LetOthersAct | internal/recovery/coordinator/commit_analysis.go:51-109 | Whatever commands other coordinators run between two calls, wherever they stop, they only append successors and lose no document. |
| Runtime.OwnSharesAreAdvisory | internal/recovery/agentruntime/runtime.go:52-180 | Reads and at most one answer leave workflow state, findings, plans and events untouched. |
| Runtime.Run | internal/recovery/agentruntime/runtime.go:52-180 | A known request is answered from the case; a stale expected commit, an unreadable case and one that is not analyzed are refused; every other run ends with an attempt to record its outcome. For every provider and all commands of other coordinators between the calls: at most 3 rounds, 4 reads each, 8 in all, no key twice; every commit added is accounted for, at most one per issued read, at most one answer. A persisted status and round are those of the first round that ends the run: a well-formed reply that asks for nothing gives its own status and content, refused reads give blocked, and an error, a malformed reply, a failed read or exhausted rounds give failed; in all earlier rounds the case holds every read asked for. Where nobody else acts, the workflow is untouched, no read and, unless a read failed, no answer is refused as stale; and if a read failed in a round that had appended a commit, and the consultation id was new, the run ends without any answer recorded. |
| Runtime.RunRounds | internal/recovery/agentruntime/runtime.go:92-180 | The loop ends in the round and with the status that the replies call for, on the head the last finished round led to, unless the case became unreadable; alone, the commit id it goes on from is the head unless a read failed. |
| Runtime.ReadAndReload | internal/recovery/agentruntime/runtime.go:150-160 | If a read fails, the run stays at the commit id from before the round, whatever the round committed; otherwise it goes on from the last read, on the head it finds then, which holds all acquisitions of the round. |

## Left out

- Digest truncation: snapshot and commit ids use 24 hexadecimal digits of a digest; the model's digests are injective.
- Bytes of JSON, document sizes in manifests, media types and relative paths: the encoding is an injective constructor with a left inverse on canonical contents.
- Identifier grammars: ids are ordered numbers, kept apart by the document they name; path order is the order of directories, then of ids.
- Sub-second times and time zones: times are whole seconds, and the candidates of `monotonicNow` are compared as numbers.
- Per-field shape checks of documents: each document carries one flag saying whether it passes them.
- Lock files, symbolic links, reparse points, path escaping and permissions: the lock is a flag, and paths are map keys.
- Directory creation inside the case tree (`ensureManagedDir`) and its syncs: only the entries of commits, snapshots and blobs can be unsynced, and the directories that hold them, blob prefix directories included, count as synced.
- Windows directory syncs that only warn: a failing sync is a stopped process or an unknown outcome; durability warnings are not modelled.
- Errors of the operating system that are neither a crash nor an existing name: they behave like a stop at the same step.
- Cancellation, timeouts and size limits: they are refusals before the work, stops, or provider errors.
- Read-operation handlers, the importer's entity building and the artifact provider: oracles that may return anything; what they return is validated as in the source.
- The registry of read operations and the rejection of command-bearing JSON: one flag on a requested read.
- `CommitBootDoctorAnalysis` and its replay look-up, and the texts, evidence lists and target lists of findings and ambiguities: only codes matter.
- Import of legacy reports, the HTTP gateway, the language model provider, collector, shell and export: input and output around the engine.
- `Normalize` as a separate step: collections are sorted when they are prepared, and nil and empty lists are the same.
- Derivation of consultation and read request ids from digests: consultation ids are given, and read request ids are an injective pairing.
- Validator.CheckEvent: reference lists are compared as sets, where the source compares them de-duplicated and sorted.
- Codec.AssembleInvertsPrepare: the loops of `prepareDocuments` that append each collection are a concatenation of mapped lists.
- Store.CaseDirectory.CreateStagingTransaction: randomness is a list of drawn names; the promise that it succeeds assumes that one of the first eight is free.
- Store.CaseDirectory.WriteDocuments: each document is one temporary write and one rename; short writes inside a file are not steps.
- Store.CaseDirectory.IngestArtifact: all copies of one commit draw the same temporary name, which the source makes distinct by blob and draw.
- Store.CaseDirectory.PublishSnapshot: the removal of the staging directory beside a reused orphan is one step, and its errors are ignored as in the source.
- PowerLoss.CommitPowerSafety: a power loss takes back whole directory entries, never parts of synced files, following the durability notes in `internal/recovery/casestore/doc.go:23-28`.
- Chain.LoadCommitChainPrefix: unreadable files and unsafe paths abort the source's scan with an error; here every file can be read.
- Recovery.Verify: counters, warnings and the time of the check are not part of the report.
- Recovery.InspectRecovery: repeated entries are compared as sets; staging entries and temporary commit files, listed as in the health report, are not repeated here.
- Runs.ProvenanceAcrossTheChain: whether a reading's inputs exist at its source commit is up to the handler; the store checks it, and the lemma states exactly that condition.
- Coordinators.Coordinator.Acquire: decoding the stored result of a replay, and the separate bodies of `ExecuteReadOperation` and `ResolveWindowsBootTopology` up to their common publication, are represented by the reading they produce.
- Coordinators.Coordinator.CommitAgentConsultation: the consultation's own id and content checks are one flag.
- Runtime.Run: others act between the calls of a run and between the read and the commit inside a call, not inside a commit, which the lock covers; a command of another coordinator works on the head it loads, since one on an older head changes nothing (`Runs.AtMostOneAppends`).
- Runtime.Persist: the normalised content of the record is a value of the provider's last proposal; the detail line that failures and refusals put in front of its limitations is not part of it.
- BootDoctor.CollectDrafts: the questions asked of the topology are a record of booleans, and the candidate lists behind their counts are sets of targets.
- Resolver.Resolve: evidence facts are typed records; facts of an unsupported schema contribute nothing, and facts that fail to decode, which are a further error in the source, are not modelled.
