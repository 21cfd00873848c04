/** What one coordinator command does to a case: nothing is lost, and new documents have one origin. */
module Evolution {
  import opened Domain
  import opened Validation
  import opened Preservation
  import opened Collections
  import opened Commands

  datatype Command =
    | Adopt(opening: OpeningRequest, env: Env)
    | Analyze(analysis: AnalysisRequest, env: Env)
    | Propose(proposal: PlanRequest, env: Env)
    | End(ending: Ending, terminal: TerminalRequest, env: Env)
    | Read(read: ReadRequest, reading: Reading, env: Env)
    | Consult(consultation: Consultation)

  /** Acquisitions need an open case without a plan. */
  predicate AcquisitionAllowed(s: Snapshot) {
    CurrentState(s) == Some(EvidenceCollected) || CurrentState(s) == Some(Analyzed)
  }

  predicate ConsultationAllowed(s: Snapshot) {
    CurrentState(s) == Some(Analyzed)
  }

  /** The snapshot a command builds on a head, or its refusal. */
  function SuccessorOf(s: Snapshot, head: CommitId, c: Command): Result<Snapshot> {
    match c
    case Adopt(r, env) => AdoptSuccessor(s, head, r, env)
    case Analyze(r, env) => AnalysisSuccessor(s, head, r, env)
    case Propose(r, env) => PlanSuccessor(s, head, r, env)
    case End(k, r, env) => TerminalSuccessor(s, head, k, r, env)
    case Read(r, reading, env) =>
      if AcquisitionAllowed(s) then ReadSuccessor(s, head, r, reading, env) else Err(IllegalTransition)
    case Consult(c) =>
      if ConsultationAllowed(s) then AppendConsultation(s, c) else Err(IllegalTransition)
  }

  /** Targets, evidence and acquisitions are untouched, or one acquisition made on this head claims what is new. */
  predicate OneOriginStep(v: View, w: View, head: CommitId) {
    || (w.targets == v.targets && w.evidence == v.evidence && w.acquisitions == v.acquisitions)
    || exists a | a in w.acquisitions :: AcquiredOn(v, w, head, a)
  }

  predicate AcquiredOn(v: View, w: View, head: CommitId, a: Acquisition) {
    && w.acquisitions == v.acquisitions + {a} && a !in v.acquisitions
    && a.sourceCommit == head
    && ClaimsWhatIsNew(v, w, a)
  }

  /** No document of the head is lost or changed, and every new one has its origin. */
  predicate Evolves(v: View, w: View, head: CommitId) {
    Keeps(v, w) && OneOriginStep(v, w, head)
  }

  lemma TransitionEvolves(s: Snapshot, more: Snapshot, e: Event, state: WorkflowName, failure: Option<Failure>,
                          activePlan: Option<Id>, clock: Time, refs: seq<DocId>, head: CommitId)
    requires more == s.(findings := more.findings, plans := more.plans)
    requires s.findings <= more.findings && s.plans <= more.plans && e.refs == []
    requires Valid(Transitioned(more, e, state, failure, activePlan, clock, refs))
    ensures Evolves(ViewOf(s), ViewOf(Transitioned(more, e, state, failure, activePlan, clock, refs)), head)
  {
    hide Valid, Stamp;
    AcceptedEventIsFresh(more, e, state, failure, activePlan, clock, refs);
    TransitionedView(more, e, state, failure, activePlan, clock, refs);
    PrefixElements(s.findings, more.findings);
    PrefixElements(s.plans, more.plans);
  }

  lemma PrefixElements<T>(a: seq<T>, b: seq<T>)
    requires a <= b
    ensures Elements(a) <= Elements(b)
  {
    forall x | x in a ensures x in b {
      var i :| 0 <= i < |a| && a[i] == x;
      assert b[i] == x;
    }
  }

  lemma AnalysisEvolves(s: Snapshot, head: CommitId, r: AnalysisRequest, env: Env)
    requires Valid(s) && AnalysisSuccessor(s, head, r, env).Ok?
    ensures Evolves(ViewOf(s), ViewOf(AnalysisSuccessor(s, head, r, env).value), head)
  {
    hide ValidView, NoDuplicates, Transitioned, Evolves, AnalysisRefs;
    var filled := FillAll(s.manifest.caseId, r.findings);
    DistinctOnIds(s);
    MergeAppends(s.findings, filled, FindingKey);
    var more := s.(findings := MergeById(s.findings, filled, FindingKey).value);
    TransitionEvolves(s, more, AnalysisEvent(s, head, r, env), Analyzed, None, ActivePlan(s), env.clock,
                      AnalysisRefs(s.manifest.caseId, filled), head);
  }

  lemma PlanEvolves(s: Snapshot, head: CommitId, r: PlanRequest, env: Env)
    requires Valid(s) && PlanSuccessor(s, head, r, env).Ok?
    ensures Evolves(ViewOf(s), ViewOf(PlanSuccessor(s, head, r, env).value), head)
  {
    hide Valid, Transitioned, Evolves, PlanRefs;
    var p := FillPlan(s.manifest.caseId, r);
    var more := s.(plans := MergePlan(s.plans, p).value);
    TransitionEvolves(s, more, PlanEvent(s, head, r, env), PlanProposed, None, Some(p.planId), env.clock,
                      PlanRefs(s.manifest.caseId, p), head);
  }

  lemma TerminalEvolves(s: Snapshot, head: CommitId, k: Ending, r: TerminalRequest, env: Env)
    requires Valid(s) && TerminalSuccessor(s, head, k, r, env).Ok?
    ensures Evolves(ViewOf(s), ViewOf(TerminalSuccessor(s, head, k, r, env).value), head)
  {
    hide Valid, Transitioned, Evolves, TerminalRefs;
    TransitionEvolves(s, s, TerminalEvent(s, head, k, r, env), k.State(), k.FailureOf(r), ActivePlan(s), env.clock,
                      TerminalRefs(s), head);
  }

  lemma AdoptEvolves(s: Snapshot, head: CommitId, r: OpeningRequest, env: Env)
    requires Valid(s) && AdoptSuccessor(s, head, r, env).Ok?
    ensures Evolves(ViewOf(s), ViewOf(AdoptSuccessor(s, head, r, env).value), head)
  {
    hide Valid, Transitioned, Evolves, CreateRefs;
    TransitionEvolves(s, s, OpeningEvent(s, LegacyCaseAdopted, None, Some(head), ADOPTED_REASON, r, env),
                      EvidenceCollected, None, None, env.clock, CreateRefs(s), head);
  }

  lemma ReadEvolves(s: Snapshot, head: CommitId, r: ReadRequest, reading: Reading, env: Env)
    requires Valid(s) && s.workflow.Some? && ReadSuccessor(s, head, r, reading, env).Ok?
    ensures var w := ViewOf(ReadSuccessor(s, head, r, reading, env).value);
      Evolves(ViewOf(s), w, head) && AcquiredOn(ViewOf(s), w, head, AcquisitionOf(s, head, r, reading, env))
  {
    hide Valid, WithReading, ReadSuccessor;
    ReadAcceptance(s, head, r, reading, env);
    ReadingAccepted(s, head, r, reading, env);
    var a := AcquisitionOf(s, head, r, reading, env);
    ReadingView(s, reading, a);
    var v, w := ViewOf(s), ViewOf(WithReading(s, reading, a));
    assert Elements(a.addedTargets) == {};
    assert Elements(a.addedEvidence) == {reading.evidence.evidenceId};
    assert v.TargetIds() == w.TargetIds();
    assert a !in v.acquisitions;
    assert AcquiredOn(v, w, head, a);
  }

  lemma ConsultEvolves(s: Snapshot, head: CommitId, c: Consultation)
    requires Valid(s) && s.workflow.Some? && AppendConsultation(s, c).Ok?
    ensures Evolves(ViewOf(s), ViewOf(AppendConsultation(s, c).value), head)
  {
    hide Valid;
    ConsultationAcceptance(s, c);
    ElementsOfSum(s.consultations, [c]);
  }

  /** Every command keeps every document and gives each new one its origin; what it builds is valid. */
  lemma CommandEvolves(s: Snapshot, head: CommitId, c: Command)
    requires Valid(s) && SuccessorOf(s, head, c).Ok?
    ensures Valid(SuccessorOf(s, head, c).value)
    ensures Evolves(ViewOf(s), ViewOf(SuccessorOf(s, head, c).value), head)
  {
    hide ValidView, NoDuplicates, Evolves, Transitioned, Opened, MergeById;
    match c {
      case Adopt(r, env) => AdoptEvolves(s, head, r, env);
      case Analyze(r, env) => AnalysisEvolves(s, head, r, env);
      case Propose(r, env) => PlanEvolves(s, head, r, env);
      case End(k, r, env) => TerminalEvolves(s, head, k, r, env);
      case Read(r, reading, env) => ReadEvolves(s, head, r, reading, env);
      case Consult(x) => ConsultEvolves(s, head, x);
    }
  }

  /** How many events, acquisitions and consultations a case has. */
  function Ledger(s: Snapshot): nat {
    |s.events| + |s.acquisitions| + |s.consultations|
  }

  lemma {:induction false} StampKeepsLength(events: seq<Event>, id: Id, refs: seq<DocId>, at: Time)
    ensures |Stamp(events, id, refs, at)| == |events|
  {
    if events != [] {
      StampKeepsLength(events[1..], id, refs, at);
    }
  }

  lemma TransitionAddsOne(s: Snapshot, e: Event, state: WorkflowName, failure: Option<Failure>, activePlan: Option<Id>,
                          clock: Time, refs: seq<DocId>)
    ensures Ledger(Transitioned(s, e, state, failure, activePlan, clock, refs)) == Ledger(s) + 1
  {
    hide Stamp;
    var advanced := Advance(s, e, state, failure, activePlan, clock);
    StampKeepsLength(advanced.events, e.eventId, refs, advanced.manifest.updatedAt);
  }

  /** Every command adds one event, one acquisition or one consultation. */
  lemma CommandAddsOne(s: Snapshot, head: CommitId, c: Command)
    requires SuccessorOf(s, head, c).Ok?
    ensures Ledger(SuccessorOf(s, head, c).value) == Ledger(s) + 1
  {
    hide Valid, Transitioned, MergeById, MergePlan, AnalysisRefs, PlanRefs, TerminalRefs, CreateRefs;
    match c {
      case Adopt(r, env) =>
        TransitionAddsOne(s, OpeningEvent(s, LegacyCaseAdopted, None, Some(head), ADOPTED_REASON, r, env),
                          EvidenceCollected, None, None, env.clock, CreateRefs(s));
      case Analyze(r, env) =>
        var filled := FillAll(s.manifest.caseId, r.findings);
        var more := s.(findings := MergeById(s.findings, filled, FindingKey).value);
        TransitionAddsOne(more, AnalysisEvent(s, head, r, env), Analyzed, None, ActivePlan(s), env.clock,
                          AnalysisRefs(s.manifest.caseId, filled));
      case Propose(r, env) =>
        var p := FillPlan(s.manifest.caseId, r);
        var more := s.(plans := MergePlan(s.plans, p).value);
        TransitionAddsOne(more, PlanEvent(s, head, r, env), PlanProposed, None, Some(p.planId), env.clock,
                          PlanRefs(s.manifest.caseId, p));
      case End(k, r, env) =>
        TransitionAddsOne(s, TerminalEvent(s, head, k, r, env), k.State(), k.FailureOf(r), ActivePlan(s), env.clock,
                          TerminalRefs(s));
      case Read(r, reading, env) =>
      case Consult(x) =>
    }
  }
}
