/** Why a step of the workflow keeps a valid snapshot valid: each earlier check survives the additions. */
module Preservation {
  import opened Domain
  import opened Semantics
  import opened Validation
  import opened Replay

  /** `w` keeps every document of `v`, case identity and creation time included. */
  predicate Keeps(v: View, w: View) {
    && w.manifest.caseId == v.manifest.caseId
    && w.manifest.createdAt == v.manifest.createdAt
    && v.targets <= w.targets && v.evidence <= w.evidence && v.findings <= w.findings && v.plans <= w.plans
    && v.executions <= w.executions && v.verifications <= w.verifications && v.events <= w.events
    && v.acquisitions <= w.acquisitions && v.consultations <= w.consultations
    && (v.workflow.Some? ==> w.workflow.Some?)
  }

  lemma IdsGrow(v: View, w: View)
    requires Keeps(v, w)
    ensures v.TargetIds() <= w.TargetIds() && v.EvidenceIds() <= w.EvidenceIds()
    ensures v.FindingIds() <= w.FindingIds() && v.PlanIds() <= w.PlanIds() && v.EventIds() <= w.EventIds()
  {
  }

  lemma KnownGrows(v: View, w: View, r: DocId)
    requires Keeps(v, w) && Known(v, r)
    ensures Known(w, r)
  {
    IdsGrow(v, w);
  }

  /** Old documents stay valid where documents are only added. */
  lemma DocumentsStayValid(v: View, w: View)
    requires Keeps(v, w) && ValidDocuments(v)
    ensures forall e | e in v.evidence :: ValidEvidence(w, e)
    ensures forall f | f in v.findings :: ValidFinding(w, f)
    ensures forall p | p in v.plans :: ValidPlan(w, p)
    ensures forall a | a in v.acquisitions :: ValidAcquisition(w, a)
    ensures forall c | c in v.consultations :: ValidConsultation(w, c)
  {
    IdsGrow(v, w);
  }

  /** Added findings are not among those an old event cites. */
  lemma SameCitedFindings(v: View, w: View, refs: seq<DocId>)
    requires Keeps(v, w) && DistinctIds(w)
    requires forall r | r in refs :: Known(v, r)
    ensures CitedFindings(w, refs) == CitedFindings(v, refs)
  {
    forall f | f in CitedFindings(w, refs) ensures f in CitedFindings(v, refs) {
      assert Known(v, FindingRef(f.findingId));
      var g :| g in v.findings && g.findingId == f.findingId;
      assert g in w.findings;
    }
  }

  lemma SameCitedPlans(v: View, w: View, refs: seq<DocId>)
    requires Keeps(v, w) && DistinctIds(w)
    requires forall r | r in refs :: Known(v, r)
    ensures CitedPlans(w, refs) == CitedPlans(v, refs)
  {
    forall p | p in CitedPlans(w, refs) ensures p in CitedPlans(v, refs) {
      assert Known(v, PlanRef(p.planId));
      var q :| q in v.plans && q.planId == p.planId;
      assert q in w.plans;
    }
  }

  /** The parts of an old event's check that do not depend on its kind, and the two citation lists. */
  lemma OldEventKept(v: View, w: View, e: Event)
    requires Keeps(v, w) && DistinctIds(w)
    requires e in v.events && ValidEvent(v, e)
    requires ExactRefs(v, e) ==> ExactRefs(w, e)
    ensures ValidEvent(w, e)
  {
    forall r | r in e.refs ensures Known(w, r) {
      KnownGrows(v, w, r);
    }
  }

  lemma ClosureOfSum(findings: set<Finding>, f: Finding)
    ensures FindingClosure(findings + {f}) == FindingClosure(findings) + FindingClosure({f})
  {
  }

  // ---------------------------------------------------------------- workflow transitions

  /** `w` is `v` after the transition `e`: possibly new findings and plans, one more event, a new workflow state. */
  predicate Transition(v: View, w: View, e: Event)
    requires v.workflow.Some?
  {
    && w.workflow.Some?
    && var before := v.workflow.value;
    && var after := w.workflow.value;
    && w == v.(
         manifest := v.manifest.(updatedAt := e.occurredAt, currentState := CaseStateFor(after.state)),
         findings := w.findings, plans := w.plans, workflow := w.workflow, events := v.events + {e})
    && v.findings <= w.findings && v.plans <= w.plans
    && (w.plans == v.plans || e.kind.PlanCommitted?)
    && e.eventId !in v.EventIds()
    && e.caseId == v.manifest.caseId
    && e.revision == before.revision + 1
    && e.occurredAt >= v.manifest.updatedAt
    && e.previous == Some(before.state) && e.next == Some(after.state)
    && EventSemantics(e)
    && after.caseId == v.manifest.caseId
    && after.revision == e.revision
    && after.updatedAt == e.occurredAt
    && after.lastTransition == e.eventId
  }

  lemma OldEventSurvivesTransition(v: View, w: View, e: Event, old_: Event)
    requires ValidView(v) && v.workflow.Some? && Transition(v, w, e) && DistinctIds(w)
    requires old_ in v.events
    ensures ValidEvent(w, old_)
  {
    hide TransitionIntegrity, DistinctIds, ValidDocuments, ValidCase, Known, FindingClosure, PlanClosure, OneOrigin;
    assert ValidEvent(v, old_);
    match old_.kind {
      case CaseCreatedEvent =>
      case LegacyCaseAdopted =>
      case AnalysisCommitted => SameCitedFindings(v, w, old_.refs);
      case PlanCommitted =>
        PlanEventIsNearlyLast(v, old_);
        SameCitedPlans(v, w, old_.refs);
        var p :| p in v.plans && CitesPlan(v, old_, p);
        assert CitesPlan(w, old_, p);
      case CaseFailedEvent =>
        NothingAfterTerminal(v, old_);
        assert false;
      case CaseCancelledEvent =>
        NothingAfterTerminal(v, old_);
        assert false;
    }
    OldEventKept(v, w, old_);
  }

  lemma LogExtends(v: View, w: View, e: Event)
    requires v.workflow.Some? && TransitionIntegrity(v) && Transition(v, w, e)
    requires w.workflow.Some? && WorkflowSemantics(w.workflow.value, w.manifest, e)
    requires LifecycleProvenance(w)
    ensures TransitionIntegrity(w)
  {
    hide FindingsCommitted, PlansCommitted;
    forall a | a in v.events ensures a.revision < e.revision {
      RevisionBound(v, a);
    }
    assert e !in v.events;
    forall r | 1 <= r <= e.revision ensures HasRevision(w.events, r) {
      if r < e.revision {
        assert HasRevision(v.events, r);
        assert At(v.events, r) in w.events;
      } else {
        assert e in w.events;
      }
    }
    forall a, b | a in w.events && b in w.events && b.revision == a.revision + 1
      ensures a.occurredAt <= b.occurredAt && b.previous == a.next
    {
      if b == e {
        LastEvent(v, a);
      }
    }
    assert IsLast(w, e);
  }

  /** A transition whose own event and new documents check out leads from a valid snapshot to a valid one. */
  lemma TransitionKeepsValid(v: View, w: View, e: Event)
    requires ValidView(v) && v.workflow.Some? && Transition(v, w, e)
    requires DistinctIds(w)
    requires forall f | f in w.findings - v.findings :: ValidFinding(w, f)
    requires forall p | p in w.plans - v.plans :: ValidPlan(w, p)
    requires ValidEvent(w, e)
    requires w.workflow.value.activePlan.Some? ==> w.workflow.value.activePlan.value in w.PlanIds()
    requires w.workflow.value.activeExecution.None?
    requires ValidFailure(w.workflow.value.failure)
    requires WorkflowSemantics(w.workflow.value, w.manifest, e)
    requires LifecycleProvenance(w)
    ensures ValidView(w)
  {
    hide TransitionIntegrity, LifecycleProvenance, ValidEvent, DistinctIds, WorkflowSemantics, EventSemantics;
    DocumentsStayValid(v, w);
    LogExtends(v, w, e);
    forall a | a in v.events ensures ValidEvent(w, a) {
      OldEventSurvivesTransition(v, w, e, a);
    }
    assert e in w.events;
  }

  // ---------------------------------------------------------------- create and adopt

  /** `w` is the workflow-less `v` with the event of revision 1. */
  predicate Opening(v: View, w: View, e: Event) {
    && v.workflow.None?
    && w == v.(
         manifest := v.manifest.(updatedAt := e.occurredAt, currentState := CaseSnapshotted),
         workflow := Some(Workflow(v.manifest.caseId, EvidenceCollected, 1, e.occurredAt, e.eventId, None, None, None)),
         events := {e})
    && e.caseId == v.manifest.caseId
    && e.revision == 1
    && e.occurredAt >= v.manifest.updatedAt
    && EventSemantics(e)
    && e.next == Some(EvidenceCollected)
    && (e.kind.CaseCreatedEvent? || e.kind.LegacyCaseAdopted?)
  }

  lemma OpeningKeepsValid(v: View, w: View, e: Event)
    requires ValidView(v) && Opening(v, w, e)
    requires ValidEvent(w, e)
    ensures ValidView(w)
  {
    hide ValidEvent, TransitionIntegrity, ArtifactsAgree, EventSemantics;
    DocumentsStayValid(v, w);
    SameEvidenceAgrees(v, w);
    OpeningLog(v, w, e);
  }

  lemma OpeningLog(v: View, w: View, e: Event)
    requires ValidCase(v) && Opening(v, w, e)
    ensures TransitionIntegrity(w)
  {
    hide EventSemantics, CommitsFinding, CommitsPlan;
    assert HasRevision(w.events, 1) by {
      assert e in w.events;
    }
    assert IsLast(w, e);
  }

  // ---------------------------------------------------------------- acquisitions and consultations

  /** `w` is `v` with one more acquisition and the new targets and evidence it claims. */
  predicate Acquires(v: View, w: View, a: Acquisition) {
    && w == v.(
         manifest := v.manifest.(targetIds := w.manifest.targetIds),
         targets := w.targets, evidence := w.evidence, acquisitions := v.acquisitions + {a})
    && v.targets <= w.targets && v.evidence <= w.evidence
    && Elements(w.manifest.targetIds) == w.TargetIds()
  }

  /** The claims of `a` are exactly the identifiers that were added. */
  predicate ClaimsWhatIsNew(v: View, w: View, a: Acquisition) {
    && w.TargetIds() == v.TargetIds() + Elements(a.addedTargets)
    && w.EvidenceIds() == v.EvidenceIds() + Elements(a.addedEvidence)
    && v.TargetIds() !! Elements(a.addedTargets)
    && v.EvidenceIds() !! Elements(a.addedEvidence)
  }

  /** Conservation: what no acquisition claims is the same before and after. */
  lemma InitialDocumentsConserved(v: View, w: View, a: Acquisition)
    requires Acquires(v, w, a) && ClaimsWhatIsNew(v, w, a) && ValidDocuments(v)
    ensures InitialTargets(w) == InitialTargets(v)
    ensures InitialEvidence(w) == InitialEvidence(v)
    ensures InitialRefs(w) == InitialRefs(v)
  {
    assert AddedTargets(w) == AddedTargets(v) + Elements(a.addedTargets);
    assert AddedEvidence(w) == AddedEvidence(v) + Elements(a.addedEvidence);
    assert AddedTargets(v) <= v.TargetIds();
    assert AddedEvidence(v) <= v.EvidenceIds();
  }

  lemma OldEventSurvivesAcquisition(v: View, w: View, a: Acquisition, e: Event)
    requires ValidView(v) && v.workflow.Some? && Acquires(v, w, a) && ClaimsWhatIsNew(v, w, a) && DistinctIds(w)
    requires e in v.events
    ensures ValidEvent(w, e)
  {
    hide TransitionIntegrity, DistinctIds, ValidDocuments, ValidCase, Known, FindingClosure, PlanClosure, OneOrigin,
         ClaimsWhatIsNew, InitialRefs;
    assert ValidEvent(v, e);
    InitialDocumentsConserved(v, w, a);
    SameCitedFindings(v, w, e.refs);
    SameCitedPlans(v, w, e.refs);
    if e.kind.PlanCommitted? {
      var p :| p in v.plans && CitesPlan(v, e, p);
      assert CitesPlan(w, e, p);
    }
    OldEventKept(v, w, e);
  }

  lemma ClaimsStayDisjoint(v: View, w: View, a: Acquisition)
    requires ValidDocuments(v) && OneOrigin(v) && Acquires(v, w, a) && ClaimsWhatIsNew(v, w, a)
    ensures OneOrigin(w)
  {
    forall b | b in v.acquisitions
      ensures Elements(b.addedTargets) !! Elements(a.addedTargets)
      ensures Elements(b.addedEvidence) !! Elements(a.addedEvidence)
    {
      assert ValidAcquisition(v, b);
    }
  }

  /** Neither the log nor the state is touched. */
  lemma LogUntouched(v: View, w: View)
    requires v.workflow.Some? && TransitionIntegrity(v)
    requires w == v.(manifest := w.manifest, targets := w.targets, evidence := w.evidence,
                     acquisitions := w.acquisitions, consultations := w.consultations)
    requires w.manifest == v.manifest.(targetIds := w.manifest.targetIds)
    ensures TransitionIntegrity(w)
  {
    hide EventSemantics, CommitsFinding, CommitsPlan;
    var last :| last in v.events && IsLast(v, last);
    assert IsLast(w, last);
  }

  lemma AcquisitionKeepsValid(v: View, w: View, a: Acquisition)
    requires ValidView(v) && v.workflow.Some? && Acquires(v, w, a) && ClaimsWhatIsNew(v, w, a)
    requires DistinctIds(w)
    requires forall t | t in w.targets - v.targets :: t.fields.wellFormed
    requires forall e | e in w.evidence - v.evidence :: ValidEvidence(w, e)
    requires ArtifactsAgree(w)
    requires ValidAcquisition(w, a)
    ensures ValidView(w)
  {
    hide TransitionIntegrity, DistinctIds, ValidEvent, ArtifactsAgree, ClaimsWhatIsNew, OneOrigin;
    DocumentsStayValid(v, w);
    LogUntouched(v, w);
    ClaimsStayDisjoint(v, w, a);
    forall e | e in v.events ensures ValidEvent(w, e) {
      OldEventSurvivesAcquisition(v, w, a, e);
    }
  }

  lemma OldEventSurvivesConsultation(v: View, w: View, e: Event)
    requires ValidView(v) && e in v.events && w == v.(consultations := w.consultations)
    requires v.consultations <= w.consultations && DistinctIds(w)
    ensures ValidEvent(w, e)
  {
    hide TransitionIntegrity, DistinctIds, ValidDocuments, ValidCase, Known, FindingClosure, PlanClosure, OneOrigin;
    assert ValidEvent(v, e);
    SameCitedFindings(v, w, e.refs);
    SameCitedPlans(v, w, e.refs);
    assert InitialRefs(w) == InitialRefs(v);
    if e.kind.PlanCommitted? {
      var p :| p in v.plans && CitesPlan(v, e, p);
      assert CitesPlan(w, e, p);
    }
    OldEventKept(v, w, e);
  }

  lemma SameEvidenceAgrees(v: View, w: View)
    requires ArtifactsAgree(v) && w.evidence == v.evidence
    ensures ArtifactsAgree(w)
  {
  }

  lemma ConsultationKeepsValid(v: View, w: View, c: Consultation)
    requires ValidView(v) && v.workflow.Some? && w == v.(consultations := v.consultations + {c})
    requires DistinctIds(w)
    requires ValidConsultation(v, c)
    ensures ValidView(w)
  {
    hide TransitionIntegrity, DistinctIds, ValidEvent, ArtifactsAgree;
    assert Keeps(v, w);
    DocumentsStayValid(v, w);
    IdsGrow(v, w);
    LogUntouched(v, w);
    forall e | e in v.events ensures ValidEvent(w, e) {
      OldEventSurvivesConsultation(v, w, e);
    }
    SameEvidenceAgrees(v, w);
  }
}
