/** The recovery documents, their identifiers and the digests that name them. */
module Domain {

  datatype Option<+T> = None | Some(value: T)

  /** Identifiers are ordered as their strings are; the sort of an identifier is its field or its `DocId` wrapper. */
  type Id = nat

  /** RFC 3339 timestamps in whole seconds. */
  type Time = nat

  /** A SHA-256 digest, injective by construction. */
  datatype Digest<T> = Digest(content: T)

  /** The remaining fields of a document; `wellFormed` says whether they pass their per-field shape checks. */
  datatype Fields = Fields(wellFormed: bool, value: nat)

  datatype WorkflowName =
    | Created | EvidenceCollected | Analyzed | PlanProposed | AwaitingApproval | Approved
    | BackingUp | ReadyToExecute | Executing | Verifying | Completed | Failed
    | RollbackRequired | RollingBack | RolledBack | Cancelled

  datatype CaseState =
    | CaseNew | CaseDiscovering | CaseSnapshotted | CaseDiagnosing | CaseDiagnosed | CasePlanned
    | CaseAwaitingApproval | CaseExecuting | CaseVerifying | CaseResolved | CasePartiallyResolved
    | CaseBlocked | CaseEscalated | CaseCancelled | CaseFailed | CaseRollbackRequired | CaseRolledBack
    | CaseDataPreservationRequired

  datatype Actor =
    | System | Technician | DeterministicAnalyzer | LlmAdvisor | Policy | Executor | Verifier

  datatype EventType =
    | CaseCreatedEvent | LegacyCaseAdopted | AnalysisCommitted | PlanCommitted | CaseFailedEvent | CaseCancelledEvent

  /** A referenceable document: the prefixes of the id grammars keep the sorts apart. */
  datatype DocId =
    | CaseRef(caseId: Id) | TargetRef(id: Id) | EvidenceRef(id: Id) | FindingRef(id: Id) | PlanRef(id: Id)
    | ExecutionRef(id: Id) | VerificationRef(id: Id) | EventRef(id: Id) | AcquisitionRef(id: Id)
    | ConsultationRef(id: Id) | WorkflowRef

  datatype CaseManifest = CaseManifest(
    caseId: Id, createdAt: Time, updatedAt: Time, currentState: CaseState, targetIds: seq<Id>, fields: Fields)

  datatype Target = Target(targetId: Id, fields: Fields)

  /** The bytes of an artifact. `shard` is the directory that the first two digits of their digest assign them to. */
  datatype Blob = Blob(content: nat, size: nat, shard: nat)

  /** `upperCase` is the letter case the digest is written in; the store compares digests in lower case. */
  datatype ArtifactRef = ArtifactRef(
    artifactId: Id, sha: Digest<Blob>, upperCase: bool, sizeBytes: int, kind: nat, media: nat, fields: Fields)

  datatype Evidence = Evidence(
    evidenceId: Id, caseId: Id, targetId: Id, artifacts: seq<ArtifactRef>, fields: Fields)

  datatype Finding = Finding(
    findingId: Id, caseId: Id, evidenceRefs: seq<Id>, affectedTargets: seq<Id>, fields: Fields)

  datatype PlanStatus = Draft | OtherStatus(code: nat)

  datatype Plan = Plan(
    planId: Id, caseId: Id, findingRefs: seq<Id>, stepTargets: seq<Id>, status: PlanStatus, fields: Fields)

  datatype Execution = Execution(executionId: Id, caseId: Id, fields: Fields)

  datatype Verification = Verification(verificationId: Id, caseId: Id, fields: Fields)

  /** A reason, detail or command code; `wellFormed` says whether it matches its grammar. */
  datatype Code = Code(wellFormed: bool, value: nat)

  datatype Failure = Failure(reason: Code, detail: Option<Code>)

  datatype Workflow = Workflow(
    caseId: Id, state: WorkflowName, revision: nat, updatedAt: Time, lastTransition: Id,
    activePlan: Option<Id>, activeExecution: Option<Id>, failure: Option<Failure>)

  datatype Event = Event(
    eventId: Id, caseId: Id, kind: EventType, actor: Actor, occurredAt: Time,
    previous: Option<WorkflowName>, next: Option<WorkflowName>, expectedCommit: Option<CommitId>,
    revision: nat, refs: seq<DocId>, reason: Code, command: Option<Code>)

  datatype Acquisition = Acquisition(
    acquisitionId: Id, caseId: Id, requestId: Id, sourceCommit: CommitId, actor: Actor,
    targetIds: seq<Id>, inputEvidence: seq<Id>, addedTargets: seq<Id>, addedEvidence: seq<Id>,
    parameters: Digest<nat>, fields: Fields)

  datatype ConsultationStatus = ConsultationCompleted | NeedsMoreEvidence | ConsultationBlocked | ConsultationFailed

  datatype Consultation = Consultation(
    consultationId: Id, caseId: Id, requestId: Id, sourceCommit: CommitId, status: ConsultationStatus,
    roundCount: nat, generatedAt: Time, findingRefs: seq<Id>, evidenceRefs: seq<Id>, targetRefs: seq<Id>,
    fields: Fields)

  datatype Snapshot = Snapshot(
    manifest: CaseManifest, targets: seq<Target>, evidence: seq<Evidence>, findings: seq<Finding>,
    plans: seq<Plan>, executions: seq<Execution>, verifications: seq<Verification>,
    workflow: Option<Workflow>, events: seq<Event>, acquisitions: seq<Acquisition>,
    consultations: seq<Consultation>)

  datatype Document =
    | CaseDocument(manifest: CaseManifest)
    | WorkflowDocument(workflow: Workflow)
    | TargetDocument(target: Target)
    | EvidenceDocument(evidence: Evidence)
    | FindingDocument(finding: Finding)
    | PlanDocument(plan: Plan)
    | ExecutionDocument(execution: Execution)
    | VerificationDocument(verification: Verification)
    | EventDocument(event: Event)
    | AcquisitionDocument(acquisition: Acquisition)
    | ConsultationDocument(consultation: Consultation)

  /** Document directories in the order of their names; the two singletons have no identifier. */
  datatype Kind =
    | ConsultationKind | CaseKind | WorkflowKind | EventKind | AcquisitionKind | EvidenceKind
    | ExecutionKind | FindingKind | PlanKind | TargetKind | VerificationKind

  /** A file below `documents/`; `Stray` is any name outside the canonical layout. */
  datatype Path = Path(kind: Kind, id: Id) | Stray(name: nat)

  /** File contents: the canonical encoding of a document, or other bytes that may still decode to one. */
  datatype DocumentBytes = CanonicalJson(doc: Document) | OtherJson(decoded: Option<Document>, tag: nat)

  datatype DocumentEntry = DocumentEntry(path: Path, sha: Digest<DocumentBytes>)

  datatype ArtifactEntry = ArtifactEntry(artifactId: Id, sha: Digest<Blob>, sizeBytes: int, kind: nat, media: nat)

  datatype ManifestBody = ManifestBody(
    caseId: Id, createdAt: Time, documents: seq<DocumentEntry>, artifacts: seq<ArtifactEntry>)

  /** A snapshot is named by the digest of its manifest body. */
  datatype SnapshotId = SnapshotDigest(body: ManifestBody)

  datatype Manifest = Manifest(
    snapshotId: SnapshotId, contentSha: Digest<ManifestBody>, caseId: Id, createdAt: Time,
    documents: seq<DocumentEntry>, artifacts: seq<ArtifactEntry>, wellFormed: bool)

  datatype ManifestBytes = CanonicalManifest(manifest: Manifest) | OtherManifest(decoded: Option<Manifest>, tag: nat)

  datatype CommitReason = LegacyImport | CaseSnapshotReason | OtherReason(code: nat)

  datatype CommitBody = CommitBody(
    caseId: Id, sequence: nat, parent: Parent, snapshotId: SnapshotId,
    manifestSha: Digest<ManifestBytes>, committedAt: Time, reason: CommitReason)

  /** The `parent_commit_id` of a record, null for the first commit. */
  datatype Parent = NoParent | ParentCommit(id: CommitId)

  /** A commit is named by the digest of its record without the commit id. */
  datatype CommitId = CommitDigest(body: CommitBody)

  datatype CommitRecord = CommitRecord(commitId: CommitId, body: CommitBody, wellFormed: bool)

  datatype Result<+T> = Ok(value: T) | Err(error: Error)

  datatype Error =
    | InvalidArgument | IllegalTransition | ActorNotAllowed | MissingDocument | AdoptionRejected
    | RevisionConflict | CaseExists | CaseBusy | CaseCorrupt | CaseNotFound | RequestConflict
    | OutcomeUnknown | Interrupted

  predicate NoRepeats<T(==)>(s: seq<T>) {
    forall i, j :: 0 <= i < j < |s| ==> s[i] != s[j]
  }

  function Elements<T>(s: seq<T>): set<T> {
    set x | x in s
  }
}
