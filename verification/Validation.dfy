/** What a snapshot must satisfy before it is committed and after it is loaded. */
module Validation {
  import opened Domain
  import opened Semantics

  /** The documents of a snapshot without their order, which no check depends on. */
  datatype View = View(
    manifest: CaseManifest, targets: set<Target>, evidence: set<Evidence>, findings: set<Finding>,
    plans: set<Plan>, executions: set<Execution>, verifications: set<Verification>,
    workflow: Option<Workflow>, events: set<Event>, acquisitions: set<Acquisition>,
    consultations: set<Consultation>)
  {
    function TargetIds(): set<Id> { set t | t in targets :: t.targetId }
    function EvidenceIds(): set<Id> { set e | e in evidence :: e.evidenceId }
    function FindingIds(): set<Id> { set f | f in findings :: f.findingId }
    function PlanIds(): set<Id> { set p | p in plans :: p.planId }
    function EventIds(): set<Id> { set e | e in events :: e.eventId }
  }

  function ViewOf(s: Snapshot): View {
    View(s.manifest, Elements(s.targets), Elements(s.evidence), Elements(s.findings), Elements(s.plans),
         Elements(s.executions), Elements(s.verifications), s.workflow, Elements(s.events),
         Elements(s.acquisitions), Elements(s.consultations))
  }

  /** Whether a referenced document exists in the snapshot. */
  predicate Known(v: View, ref: DocId) {
    match ref
    case CaseRef(id) => id == v.manifest.caseId
    case TargetRef(id) => id in v.TargetIds()
    case EvidenceRef(id) => id in v.EvidenceIds()
    case FindingRef(id) => id in v.FindingIds()
    case PlanRef(id) => id in v.PlanIds()
    case ExecutionRef(id) => exists e :: e in v.executions && e.executionId == id
    case VerificationRef(id) => exists x :: x in v.verifications && x.verificationId == id
    case EventRef(id) => id in v.EventIds()
    case AcquisitionRef(id) => exists a :: a in v.acquisitions && a.acquisitionId == id
    case ConsultationRef(id) => exists c :: c in v.consultations && c.consultationId == id
    case WorkflowRef => v.workflow.Some?
  }

  // ---------------------------------------------------------------- identifiers

  /** No two different documents share an identifier (or a request identifier). */
  predicate DistinctIds(v: View) {
    && (forall a, b | a in v.targets && b in v.targets && a.targetId == b.targetId :: a == b)
    && (forall a, b | a in v.evidence && b in v.evidence && a.evidenceId == b.evidenceId :: a == b)
    && (forall a, b | a in v.findings && b in v.findings && a.findingId == b.findingId :: a == b)
    && (forall a, b | a in v.plans && b in v.plans && a.planId == b.planId :: a == b)
    && (forall a, b | a in v.executions && b in v.executions && a.executionId == b.executionId :: a == b)
    && (forall a, b | a in v.verifications && b in v.verifications && a.verificationId == b.verificationId :: a == b)
    && (forall a, b | a in v.events && b in v.events && a.eventId == b.eventId :: a == b)
    && (forall a, b | a in v.acquisitions && b in v.acquisitions
          && (a.acquisitionId == b.acquisitionId || a.requestId == b.requestId) :: a == b)
    && (forall a, b | a in v.consultations && b in v.consultations
          && (a.consultationId == b.consultationId || a.requestId == b.requestId) :: a == b)
  }

  /** No document occurs twice in its collection. */
  predicate NoDuplicates(s: Snapshot) {
    && NoRepeats(s.targets) && NoRepeats(s.evidence) && NoRepeats(s.findings) && NoRepeats(s.plans)
    && NoRepeats(s.executions) && NoRepeats(s.verifications) && NoRepeats(s.events)
    && NoRepeats(s.acquisitions) && NoRepeats(s.consultations)
  }

  // ---------------------------------------------------------------- documents and references

  predicate ValidCase(v: View) {
    && v.manifest.fields.wellFormed
    && v.manifest.createdAt <= v.manifest.updatedAt
    && v.targets != {}
    && v.evidence != {}
    && (v.workflow.None? ==>
          && v.findings == {} && v.plans == {} && v.executions == {} && v.verifications == {}
          && v.events == {} && v.acquisitions == {} && v.consultations == {})
    && (forall t | t in v.targets :: t.fields.wellFormed)
    && Elements(v.manifest.targetIds) == v.TargetIds()
  }

  predicate SameArtifact(a: ArtifactRef, b: ArtifactRef) {
    a.(upperCase := false) == b.(upperCase := false)
  }

  predicate ValidArtifact(a: ArtifactRef) {
    a.fields.wellFormed && a.sizeBytes >= 0
  }

  predicate ValidEvidence(v: View, e: Evidence) {
    && e.fields.wellFormed
    && e.caseId == v.manifest.caseId
    && e.targetId in v.TargetIds()
    && (forall a | a in e.artifacts :: ValidArtifact(a))
  }

  /** An artifact identifier carries the same metadata wherever it occurs. */
  predicate ArtifactsAgree(v: View) {
    forall d, e, a, b | d in v.evidence && e in v.evidence && a in d.artifacts && b in e.artifacts
                        && a.artifactId == b.artifactId :: SameArtifact(a, b)
  }

  predicate ValidFinding(v: View, f: Finding) {
    && f.fields.wellFormed
    && f.caseId == v.manifest.caseId
    && Elements(f.evidenceRefs) <= v.EvidenceIds()
    && Elements(f.affectedTargets) <= v.TargetIds()
  }

  predicate ValidPlan(v: View, p: Plan) {
    && p.fields.wellFormed
    && p.caseId == v.manifest.caseId
    && Elements(p.findingRefs) <= v.FindingIds()
    && Elements(p.stepTargets) <= v.TargetIds()
  }

  predicate ValidAcquisition(v: View, a: Acquisition) {
    && a.fields.wellFormed
    && a.caseId == v.manifest.caseId
    && (a.actor == System || a.actor == Technician)
    && NoRepeats(a.targetIds) && NoRepeats(a.inputEvidence)
    && NoRepeats(a.addedTargets) && NoRepeats(a.addedEvidence)
    && (a.addedTargets != [] || a.addedEvidence != [])
    && Elements(a.targetIds) <= v.TargetIds()
    && Elements(a.inputEvidence) <= v.EvidenceIds()
    && Elements(a.addedTargets) <= v.TargetIds()
    && Elements(a.addedEvidence) <= v.EvidenceIds()
  }

  /** A consultation's own checks; the references of its hypotheses are part of its reference lists. */
  predicate ConsultationShape(c: Consultation) {
    c.fields.wellFormed && 1 <= c.roundCount <= 3
  }

  predicate ValidConsultation(v: View, c: Consultation) {
    && ConsultationShape(c)
    && c.caseId == v.manifest.caseId
    && Elements(c.findingRefs) <= v.FindingIds()
    && Elements(c.evidenceRefs) <= v.EvidenceIds()
    && Elements(c.targetRefs) <= v.TargetIds()
  }

  predicate ValidDocuments(v: View) {
    && (forall e | e in v.evidence :: ValidEvidence(v, e))
    && ArtifactsAgree(v)
    && (forall f | f in v.findings :: ValidFinding(v, f))
    && (forall p | p in v.plans :: ValidPlan(v, p))
    && (forall a | a in v.acquisitions :: ValidAcquisition(v, a))
    && (forall c | c in v.consultations :: ValidConsultation(v, c))
  }

  // ---------------------------------------------------------------- the reference set of an event

  function BaseRefs(caseId: Id): set<DocId> {
    {CaseRef(caseId), WorkflowRef}
  }

  function AddedTargets(v: View): set<Id> {
    set a, id | a in v.acquisitions && id in a.addedTargets :: id
  }

  function AddedEvidence(v: View): set<Id> {
    set a, id | a in v.acquisitions && id in a.addedEvidence :: id
  }

  /** Targets and evidence no acquisition claims. */
  function InitialTargets(v: View): set<Id> {
    v.TargetIds() - AddedTargets(v)
  }

  function InitialEvidence(v: View): set<Id> {
    v.EvidenceIds() - AddedEvidence(v)
  }

  function InitialRefs(v: View): set<DocId> {
    (set id | id in InitialTargets(v) :: TargetRef(id)) + (set id | id in InitialEvidence(v) :: EvidenceRef(id))
  }

  /** Findings with all the evidence and targets they cite. */
  function FindingClosure(findings: set<Finding>): set<DocId> {
    (set f | f in findings :: FindingRef(f.findingId)) +
    (set f, id | f in findings && id in f.evidenceRefs :: EvidenceRef(id)) +
    (set f, id | f in findings && id in f.affectedTargets :: TargetRef(id))
  }

  /** A plan with its findings and the targets of its steps. */
  function PlanClosure(p: Plan): set<DocId> {
    {PlanRef(p.planId)} +
    (set id | id in p.findingRefs :: FindingRef(id)) +
    (set id | id in p.stepTargets :: TargetRef(id))
  }

  function ActivePlanRefs(w: Option<Workflow>): set<DocId> {
    if w.Some? && w.value.activePlan.Some? then {PlanRef(w.value.activePlan.value)} else {}
  }

  function CitedFindings(v: View, refs: seq<DocId>): set<Finding> {
    set f | f in v.findings && FindingRef(f.findingId) in refs
  }

  function CitedPlans(v: View, refs: seq<DocId>): set<Plan> {
    set p | p in v.plans && PlanRef(p.planId) in refs
  }

  predicate CitesFindings(v: View, e: Event) {
    && CitedFindings(v, e.refs) != {}
    && Elements(e.refs) == BaseRefs(v.manifest.caseId) + FindingClosure(CitedFindings(v, e.refs))
  }

  /** The event cites this plan and no other, the active one while the case is at plan_proposed. */
  predicate CitesPlan(v: View, e: Event, p: Plan) {
    && CitedPlans(v, e.refs) == {p}
    && (v.workflow.Some? && v.workflow.value.state.PlanProposed? ==> v.workflow.value.activePlan == Some(p.planId))
    && Elements(e.refs) == BaseRefs(v.manifest.caseId) + PlanClosure(p)
  }

  /** The documents an event of this kind must reference, re-derived from the snapshot. */
  predicate ExactRefs(v: View, e: Event) {
    match e.kind
    case CaseCreatedEvent | LegacyCaseAdopted =>
      Elements(e.refs) == BaseRefs(v.manifest.caseId) + InitialRefs(v)
    case AnalysisCommitted => CitesFindings(v, e)
    case PlanCommitted =>
      exists p | p in v.plans :: CitesPlan(v, e, p)
    case CaseFailedEvent | CaseCancelledEvent =>
      Elements(e.refs) == BaseRefs(v.manifest.caseId) + ActivePlanRefs(v.workflow)
  }

  predicate ValidEvent(v: View, e: Event) {
    && EventShape(e)
    && e.caseId == v.manifest.caseId
    && NoRepeats(e.refs)
    && (forall r | r in e.refs :: Known(v, r) && !r.EventRef?)
    && CaseRef(v.manifest.caseId) in e.refs
    && WorkflowRef in e.refs
    && ExactRefs(v, e)
  }

  predicate ValidEvents(v: View) {
    forall e | e in v.events :: ValidEvent(v, e)
  }

  // ---------------------------------------------------------------- the workflow

  predicate CommitsFinding(e: Event, f: Finding) {
    e.kind.AnalysisCommitted? && FindingRef(f.findingId) in e.refs
  }

  predicate CommitsPlan(e: Event, p: Plan) {
    e.kind.PlanCommitted? && PlanRef(p.planId) in e.refs
  }

  predicate FindingsCommitted(v: View) {
    forall f | f in v.findings :: exists e | e in v.events :: CommitsFinding(e, f)
  }

  predicate PlansCommitted(v: View) {
    forall p | p in v.plans :: exists e | e in v.events :: CommitsPlan(e, p)
  }

  /** Every finding and plan is named by an event that committed it, and fits the current state. */
  predicate LifecycleProvenance(v: View)
    requires v.workflow.Some?
  {
    var w := v.workflow.value;
    && v.executions == {}
    && v.verifications == {}
    && FindingsCommitted(v)
    && PlansCommitted(v)
    && (w.state.EvidenceCollected? ==> v.findings == {} && v.plans == {})
    && (w.state.Analyzed? ==> v.findings != {} && v.plans == {})
    && (w.state.PlanProposed? ==>
          v.findings != {} && w.activePlan.Some? && w.activePlan.value in v.PlanIds())
  }

  predicate IsLast(v: View, e: Event)
    requires v.workflow.Some?
  {
    var w := v.workflow.value;
    && e in v.events
    && e.eventId == w.lastTransition
    && e.caseId == v.manifest.caseId
    && e.revision == w.revision
    && e.next == Some(w.state)
    && WorkflowSemantics(w, v.manifest, e)
  }

  predicate HasRevision(events: set<Event>, revision: nat) {
    exists e :: e in events && e.revision == revision
  }

  /** The events are one per revision 1..N, chained by state and time, and the last one explains the stored state. */
  predicate TransitionIntegrity(v: View)
    requires v.workflow.Some?
  {
    var w := v.workflow.value;
    && (forall e | e in v.events :: EventSemantics(e))
    && (forall a, b | a in v.events && b in v.events && a.revision == b.revision :: a == b)
    && |v.events| == w.revision >= 1
    && (forall r | 1 <= r <= w.revision :: HasRevision(v.events, r))
    && (forall a, b | a in v.events && b in v.events && b.revision == a.revision + 1 ::
          a.occurredAt <= b.occurredAt && b.previous == a.next)
    && (forall e | e in v.events && e.revision == 1 :: e.kind.CaseCreatedEvent? || e.kind.LegacyCaseAdopted?)
    && (exists e | e in v.events :: IsLast(v, e))
    && LifecycleProvenance(v)
  }

  /** No target and no evidence is claimed by two acquisitions. */
  predicate OneOrigin(v: View) {
    forall a, b | a in v.acquisitions && b in v.acquisitions && a != b ::
      && Elements(a.addedTargets) !! Elements(b.addedTargets)
      && Elements(a.addedEvidence) !! Elements(b.addedEvidence)
  }

  predicate ValidWorkflow(v: View)
    requires v.workflow.Some?
  {
    var w := v.workflow.value;
    && w.revision >= 1
    && ValidFailure(w.failure)
    && w.caseId == v.manifest.caseId
    && (w.activePlan.Some? ==> w.activePlan.value in v.PlanIds())
    && (w.activeExecution.Some? ==> Known(v, ExecutionRef(w.activeExecution.value)))
    && w.lastTransition in v.EventIds()
    && CaseStateFor(w.state) == v.manifest.currentState
    && TransitionIntegrity(v)
    && OneOrigin(v)
  }

  predicate ValidView(v: View) {
    && ValidCase(v)
    && DistinctIds(v)
    && ValidDocuments(v)
    && ValidEvents(v)
    && (v.workflow.Some? ==> ValidWorkflow(v))
  }

  /** `Snapshot.Validate`. */
  predicate Valid(s: Snapshot) {
    NoDuplicates(s) && ValidView(ViewOf(s))
  }
}
