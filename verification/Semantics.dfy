/** The workflow: which events exist, who may emit them and which states they connect. */
module Semantics {
  import opened Domain

  predicate AllowedActor(kind: EventType, actor: Actor) {
    match kind
    case CaseCreatedEvent | LegacyCaseAdopted => actor == System || actor == Technician
    case AnalysisCommitted => actor == System || actor == DeterministicAnalyzer
    case PlanCommitted | CaseFailedEvent | CaseCancelledEvent =>
      actor == System || actor == Technician || actor == DeterministicAnalyzer
  }

  predicate Open(state: Option<WorkflowName>) {
    state == Some(EvidenceCollected) || state == Some(Analyzed) || state == Some(PlanProposed)
  }

  predicate ValidTransition(kind: EventType, previous: Option<WorkflowName>, next: Option<WorkflowName>) {
    match kind
    case CaseCreatedEvent => previous == Some(Created) && next == Some(EvidenceCollected)
    case LegacyCaseAdopted => previous == None && next == Some(EvidenceCollected)
    case AnalysisCommitted =>
      (previous == Some(EvidenceCollected) || previous == Some(Analyzed)) && next == Some(Analyzed)
    case PlanCommitted => previous == Some(Analyzed) && next == Some(PlanProposed)
    case CaseFailedEvent => Open(previous) && next == Some(Failed)
    case CaseCancelledEvent => Open(previous) && next == Some(Cancelled)
  }

  predicate ValidCode(code: Option<Code>) {
    code.Some? ==> code.value.wellFormed
  }

  /** The single-document checks of an event. */
  predicate EventShape(e: Event) {
    e.revision >= 1 && e.reason.wellFormed && ValidCode(e.command)
  }

  predicate EventSemantics(e: Event) {
    && EventShape(e)
    && AllowedActor(e.kind, e.actor)
    && ValidTransition(e.kind, e.previous, e.next)
    && (e.kind.CaseCreatedEvent? ==> e.revision == 1 && e.expectedCommit.None?)
    && (e.kind.LegacyCaseAdopted? ==> e.revision == 1 && e.expectedCommit.Some?)
    && (!e.kind.CaseCreatedEvent? && !e.kind.LegacyCaseAdopted? ==> e.revision > 1 && e.expectedCommit.Some?)
  }

  function CaseStateFor(state: WorkflowName): CaseState {
    match state
    case Created => CaseNew
    case EvidenceCollected => CaseSnapshotted
    case Analyzed => CaseDiagnosed
    case PlanProposed | Approved | BackingUp | ReadyToExecute => CasePlanned
    case AwaitingApproval => CaseAwaitingApproval
    case Executing => CaseExecuting
    case Verifying => CaseVerifying
    case Completed => CaseResolved
    case Failed => CaseFailed
    case RollbackRequired | RollingBack => CaseRollbackRequired
    case RolledBack => CaseRolledBack
    case Cancelled => CaseCancelled
  }

  /** Workflow-state rules that need no other document. */
  predicate DocumentSemantics(w: Workflow) {
    match w.state
    case EvidenceCollected | Analyzed => w.activePlan.None? && w.activeExecution.None? && w.failure.None?
    case PlanProposed => w.activePlan.Some? && w.activeExecution.None? && w.failure.None?
    case Failed => w.failure.Some? && w.activeExecution.None?
    case Cancelled => w.failure.None? && w.activeExecution.None?
    case _ => true
  }

  /** Workflow-state rules against the case manifest and the last transition. */
  predicate WorkflowSemantics(w: Workflow, manifest: CaseManifest, last: Event) {
    && DocumentSemantics(w)
    && (w.state.EvidenceCollected? || w.state.Analyzed? || w.state.PlanProposed? || w.state.Failed?
        || w.state.Cancelled?)
    && (w.state.PlanProposed? ==> last.kind.PlanCommitted? && PlanRef(w.activePlan.value) in last.refs)
    && w.updatedAt == manifest.updatedAt
    && last.occurredAt == w.updatedAt
    && last.next == Some(w.state)
  }

  predicate ValidFailure(f: Option<Failure>) {
    f.Some? ==> f.value.reason.wellFormed && ValidCode(f.value.detail)
  }

  /** The event a transition emits, where the transition is implemented. */
  function EventFor(from: Option<WorkflowName>, to: WorkflowName): Option<EventType> {
    if from == Some(Created) && to == EvidenceCollected then Some(CaseCreatedEvent)
    else if from == None && to == EvidenceCollected then Some(LegacyCaseAdopted)
    else if (from == Some(EvidenceCollected) || from == Some(Analyzed)) && to == Analyzed then Some(AnalysisCommitted)
    else if from == Some(Analyzed) && to == PlanProposed then Some(PlanCommitted)
    else if Open(from) && to == Failed then Some(CaseFailedEvent)
    else if Open(from) && to == Cancelled then Some(CaseCancelledEvent)
    else None
  }

  /** The coordinator's own transition check, over the counts of findings and plans at hand. */
  function TransitionError(from: Option<WorkflowName>, to: WorkflowName, actor: Actor, findings: nat, plans: nat)
    : Option<Error>
  {
    match EventFor(from, to)
    case None => Some(IllegalTransition)
    case Some(kind) =>
      if !AllowedActor(kind, actor) then Some(ActorNotAllowed)
      else if kind.AnalysisCommitted? && findings == 0 then Some(MissingDocument)
      else if kind.PlanCommitted? && plans == 0 then Some(MissingDocument)
      else None
  }

  // The writer's table and the reader's relation describe the same transitions.
  lemma TransitionTablesAgree(from: Option<WorkflowName>, to: WorkflowName, kind: EventType)
    ensures EventFor(from, to) == Some(kind) <==> ValidTransition(kind, from, Some(to))
  {
  }
}
