/** What each coordinator command builds from the head it loaded, and exactly when the snapshot validator accepts it. */
module Commands {
  import opened Domain
  import opened Semantics
  import opened Validation
  import opened Preservation
  import opened Collections
  import opened Ordering

  /** The identifier and the clock reading a command draws. */
  datatype Env = Env(id: Id, clock: Time)

  /** A document whose `case_id` may be left for the coordinator to fill in. */
  datatype FindingDraft = FindingDraft(caseGiven: bool, finding: Finding)

  datatype AnalysisRequest = AnalysisRequest(
    actor: Option<Actor>, reason: Option<Code>, command: Option<Code>, findings: seq<FindingDraft>)

  datatype PlanRequest = PlanRequest(
    actor: Option<Actor>, reason: Option<Code>, command: Option<Code>, caseGiven: bool, plan: Plan)

  datatype TerminalRequest = TerminalRequest(
    actor: Option<Actor>, reason: Option<Code>, detail: Option<Code>, command: Option<Code>)

  datatype OpeningRequest = OpeningRequest(actor: Option<Actor>, reason: Option<Code>, command: Option<Code>)

  function OrElse<T>(given: Option<T>, fallback: T): T {
    if given.Some? then given.value else fallback
  }

  // The default reason codes, all of which match the reason grammar.
  const ANALYSIS_REASON := Code(true, 1)
  const PLAN_REASON := Code(true, 2)
  const FAILED_REASON := Code(true, 3)
  const CANCELLED_REASON := Code(true, 4)
  const IMPORT_REASON := Code(true, 5)
  const ADOPTED_REASON := Code(true, 6)

  // ---------------------------------------------------------------- the shared steps

  function Max(a: Time, b: Time): Time {
    if a < b then b else a
  }

  /** Not earlier than the case's creation, its last update or the workflow's last update. */
  function MonotonicNow(s: Snapshot, clock: Time): Time {
    var t := Max(Max(clock, s.manifest.createdAt), s.manifest.updatedAt);
    if s.workflow.Some? then Max(t, s.workflow.value.updatedAt) else t
  }

  function CurrentState(s: Snapshot): Option<WorkflowName> {
    if s.workflow.Some? then Some(s.workflow.value.state) else None
  }

  function NextRevision(s: Snapshot): nat {
    if s.workflow.Some? then s.workflow.value.revision + 1 else 1
  }

  function ActivePlan(s: Snapshot): Option<Id> {
    if s.workflow.Some? then s.workflow.value.activePlan else None
  }

  function NewEvent(caseId: Id, kind: EventType, actor: Actor, from: Option<WorkflowName>, to: WorkflowName,
                    expected: Option<CommitId>, reason: Code, command: Option<Code>, revision: nat, env: Env): Event
  {
    Event(env.id, caseId, kind, actor, env.clock, from, Some(to), expected, revision, [], reason, command)
  }

  /** Append the event and write the workflow state that goes with it. */
  function Advance(s: Snapshot, e: Event, state: WorkflowName, failure: Option<Failure>, activePlan: Option<Id>,
                   clock: Time)
    : Snapshot
  {
    var now := MonotonicNow(s, clock);
    s.(manifest := s.manifest.(updatedAt := now, currentState := CaseStateFor(state)),
       workflow := Some(Workflow(s.manifest.caseId, state, e.revision, now, e.eventId, activePlan, None, failure)),
       events := s.events + [e])
  }

  /** Overwrite references and time of the first event with this id. */
  function Stamp(events: seq<Event>, id: Id, refs: seq<DocId>, at: Time): seq<Event> {
    if events == [] then []
    else if events[0].eventId == id then [events[0].(refs := refs, occurredAt := at)] + events[1..]
    else [events[0]] + Stamp(events[1..], id, refs, at)
  }

  function Stamped(s: Snapshot, id: Id, refs: seq<DocId>): Snapshot {
    s.(events := Stamp(s.events, id, refs, s.manifest.updatedAt))
  }

  function Accept(s: Snapshot): Result<Snapshot> {
    if Valid(s) then Ok(s) else Err(InvalidArgument)
  }

  lemma {:induction false} StampFresh(events: seq<Event>, e: Event, refs: seq<DocId>, at: Time)
    requires forall x | x in events :: x.eventId != e.eventId
    ensures Stamp(events + [e], e.eventId, refs, at) == events + [e.(refs := refs, occurredAt := at)]
  {
    if events == [] {
      assert [] + [e] == [e];
    } else {
      assert (events + [e])[1..] == events[1..] + [e];
      StampFresh(events[1..], e, refs, at);
    }
  }

  /** Stamping an identifier that is taken leaves the new event without references. */
  lemma {:induction false} StampTaken(events: seq<Event>, e: Event, refs: seq<DocId>, at: Time)
    requires exists x :: x in events && x.eventId == e.eventId
    ensures e in Stamp(events + [e], e.eventId, refs, at)
  {
    assert (events + [e])[1..] == events[1..] + [e];
    if events[0].eventId == e.eventId {
      assert e in events[1..] + [e];
    } else {
      StampTaken(events[1..], e, refs, at);
    }
  }

  // ---------------------------------------------------------------- reference lists of the writer

  function CreateRefs(s: Snapshot): seq<DocId> {
    UniqueRefs([CaseRef(s.manifest.caseId)]
               + seq(|s.targets|, i requires 0 <= i < |s.targets| => TargetRef(s.targets[i].targetId))
               + seq(|s.evidence|, i requires 0 <= i < |s.evidence| => EvidenceRef(s.evidence[i].evidenceId))
               + [WorkflowRef])
  }

  function FindingListRefs(findings: seq<Finding>): seq<DocId> {
    if findings == [] then []
    else
      var f := findings[|findings| - 1];
      FindingListRefs(findings[..|findings| - 1])
      + [FindingRef(f.findingId)]
      + seq(|f.evidenceRefs|, i requires 0 <= i < |f.evidenceRefs| => EvidenceRef(f.evidenceRefs[i]))
      + seq(|f.affectedTargets|, i requires 0 <= i < |f.affectedTargets| => TargetRef(f.affectedTargets[i]))
  }

  function AnalysisRefs(caseId: Id, findings: seq<Finding>): seq<DocId> {
    UniqueRefs([CaseRef(caseId)] + FindingListRefs(findings) + [WorkflowRef])
  }

  function PlanRefs(caseId: Id, p: Plan): seq<DocId> {
    UniqueRefs([CaseRef(caseId), PlanRef(p.planId)]
               + seq(|p.findingRefs|, i requires 0 <= i < |p.findingRefs| => FindingRef(p.findingRefs[i]))
               + seq(|p.stepTargets|, i requires 0 <= i < |p.stepTargets| => TargetRef(p.stepTargets[i]))
               + [WorkflowRef])
  }

  function TerminalRefs(s: Snapshot): seq<DocId> {
    UniqueRefs([CaseRef(s.manifest.caseId), WorkflowRef]
               + (if ActivePlan(s).Some? then [PlanRef(ActivePlan(s).value)] else []))
  }

  lemma {:induction false} FindingListRefsSet(findings: seq<Finding>)
    ensures Elements(FindingListRefs(findings)) == FindingClosure(Elements(findings))
  {
    if findings == [] {
    } else {
      var n := |findings| - 1;
      var f := findings[n];
      FindingListRefsSet(findings[..n]);
      assert Elements(findings) == Elements(findings[..n]) + {f};
      var own := [FindingRef(f.findingId)]
        + seq(|f.evidenceRefs|, i requires 0 <= i < |f.evidenceRefs| => EvidenceRef(f.evidenceRefs[i]))
        + seq(|f.affectedTargets|, i requires 0 <= i < |f.affectedTargets| => TargetRef(f.affectedTargets[i]));
      OneFindingRefs(f, own);
      assert FindingListRefs(findings) == FindingListRefs(findings[..n]) + own;
      ClosureOfSum(Elements(findings[..n]), f);
    }
  }

  lemma OneFindingRefs(f: Finding, own: seq<DocId>)
    requires own == [FindingRef(f.findingId)]
      + seq(|f.evidenceRefs|, i requires 0 <= i < |f.evidenceRefs| => EvidenceRef(f.evidenceRefs[i]))
      + seq(|f.affectedTargets|, i requires 0 <= i < |f.affectedTargets| => TargetRef(f.affectedTargets[i]))
    ensures Elements(own) == FindingClosure({f})
  {
    var ev := seq(|f.evidenceRefs|, i requires 0 <= i < |f.evidenceRefs| => EvidenceRef(f.evidenceRefs[i]));
    var tg := seq(|f.affectedTargets|, i requires 0 <= i < |f.affectedTargets| => TargetRef(f.affectedTargets[i]));
    forall id | id in f.evidenceRefs ensures EvidenceRef(id) in ev {
      var i :| 0 <= i < |f.evidenceRefs| && f.evidenceRefs[i] == id;
      assert ev[i] == EvidenceRef(id);
    }
    forall id | id in f.affectedTargets ensures TargetRef(id) in tg {
      var i :| 0 <= i < |f.affectedTargets| && f.affectedTargets[i] == id;
      assert tg[i] == TargetRef(id);
    }
  }

  lemma AnalysisRefsSet(caseId: Id, findings: seq<Finding>)
    ensures Elements(AnalysisRefs(caseId, findings)) == BaseRefs(caseId) + FindingClosure(Elements(findings))
    ensures NoRepeats(AnalysisRefs(caseId, findings))
  {
    FindingListRefsSet(findings);
    UniqueRefsIsSet([CaseRef(caseId)] + FindingListRefs(findings) + [WorkflowRef]);
  }

  lemma PlanRefsSet(caseId: Id, p: Plan)
    ensures Elements(PlanRefs(caseId, p)) == BaseRefs(caseId) + PlanClosure(p)
    ensures NoRepeats(PlanRefs(caseId, p))
  {
    var fs := seq(|p.findingRefs|, i requires 0 <= i < |p.findingRefs| => FindingRef(p.findingRefs[i]));
    var ts := seq(|p.stepTargets|, i requires 0 <= i < |p.stepTargets| => TargetRef(p.stepTargets[i]));
    forall id | id in p.findingRefs ensures FindingRef(id) in fs {
      var i :| 0 <= i < |p.findingRefs| && p.findingRefs[i] == id;
      assert fs[i] == FindingRef(id);
    }
    forall id | id in p.stepTargets ensures TargetRef(id) in ts {
      var i :| 0 <= i < |p.stepTargets| && p.stepTargets[i] == id;
      assert ts[i] == TargetRef(id);
    }
    UniqueRefsIsSet([CaseRef(caseId), PlanRef(p.planId)] + fs + ts + [WorkflowRef]);
  }

  lemma TerminalRefsSet(s: Snapshot)
    ensures Elements(TerminalRefs(s)) == BaseRefs(s.manifest.caseId) + ActivePlanRefs(s.workflow)
    ensures NoRepeats(TerminalRefs(s))
  {
    UniqueRefsIsSet([CaseRef(s.manifest.caseId), WorkflowRef]
                    + (if ActivePlan(s).Some? then [PlanRef(ActivePlan(s).value)] else []));
  }

  lemma CreateRefsSet(s: Snapshot)
    requires s.acquisitions == []
    ensures Elements(CreateRefs(s)) == BaseRefs(s.manifest.caseId) + InitialRefs(ViewOf(s))
    ensures NoRepeats(CreateRefs(s))
  {
    var ts := seq(|s.targets|, i requires 0 <= i < |s.targets| => TargetRef(s.targets[i].targetId));
    var es := seq(|s.evidence|, i requires 0 <= i < |s.evidence| => EvidenceRef(s.evidence[i].evidenceId));
    var v := ViewOf(s);
    assert InitialTargets(v) == v.TargetIds() && InitialEvidence(v) == v.EvidenceIds();
    forall id | id in v.TargetIds() ensures TargetRef(id) in ts {
      var i :| 0 <= i < |s.targets| && s.targets[i].targetId == id;
      assert ts[i] == TargetRef(id);
    }
    forall id | id in v.EvidenceIds() ensures EvidenceRef(id) in es {
      var i :| 0 <= i < |s.evidence| && s.evidence[i].evidenceId == id;
      assert es[i] == EvidenceRef(id);
    }
    forall r | r in ts ensures r in InitialRefs(v) {
      var i :| 0 <= i < |s.targets| && ts[i] == r;
      assert s.targets[i] in v.targets;
    }
    forall r | r in es ensures r in InitialRefs(v) {
      var i :| 0 <= i < |s.evidence| && es[i] == r;
      assert s.evidence[i] in v.evidence;
    }
    UniqueRefsIsSet([CaseRef(s.manifest.caseId)] + ts + es + [WorkflowRef]);
  }

  // ---------------------------------------------------------------- transitions in general

  function Transitioned(s: Snapshot, e: Event, state: WorkflowName, failure: Option<Failure>, activePlan: Option<Id>,
                        clock: Time, refs: seq<DocId>): Snapshot
  {
    Stamped(Advance(s, e, state, failure, activePlan, clock), e.eventId, refs)
  }

  /** The event as it is stored. */
  function Stored(s: Snapshot, e: Event, clock: Time, refs: seq<DocId>): Event {
    e.(refs := refs, occurredAt := MonotonicNow(s, clock))
  }

  lemma TransitionedView(s: Snapshot, e: Event, state: WorkflowName, failure: Option<Failure>, activePlan: Option<Id>,
                         clock: Time, refs: seq<DocId>)
    requires e.eventId !in ViewOf(s).EventIds()
    ensures var next := Transitioned(s, e, state, failure, activePlan, clock, refs);
      && next == Advance(s, e, state, failure, activePlan, clock).(events := s.events + [Stored(s, e, clock, refs)])
      && ViewOf(next) == ViewOf(s).(manifest := next.manifest, workflow := next.workflow,
                                    events := ViewOf(s).events + {Stored(s, e, clock, refs)})
  {
    forall x | x in s.events ensures x.eventId != e.eventId {
      assert x in ViewOf(s).events;
    }
    StampFresh(s.events, e, refs, MonotonicNow(s, clock));
    ElementsOfSum(s.events, [Stored(s, e, clock, refs)]);
  }

  /** `s` with the findings and plans of the command added. */
  predicate Adds(s: Snapshot, more: Snapshot) {
    && more == s.(findings := more.findings, plans := more.plans)
    && s.findings <= more.findings && s.plans <= more.plans
    && NoRepeats(more.findings) && NoRepeats(more.plans)
    && DistinctIds(ViewOf(more))
  }

  lemma TransitionAccepted(s: Snapshot, more: Snapshot, e: Event, state: WorkflowName, failure: Option<Failure>,
                           activePlan: Option<Id>, clock: Time, refs: seq<DocId>)
    requires Valid(s) && s.workflow.Some? && Adds(s, more)
    requires more.plans == s.plans || e.kind.PlanCommitted?
    requires e.eventId !in ViewOf(s).EventIds() && e.caseId == s.manifest.caseId
    requires e.revision == NextRevision(s) && e.previous == CurrentState(s) && e.next == Some(state)
    requires EventSemantics(e)
    requires ValidFailure(failure)
    requires forall f | f in ViewOf(more).findings - ViewOf(s).findings :: ValidFinding(ViewOf(more), f)
    requires forall p | p in ViewOf(more).plans - ViewOf(s).plans :: ValidPlan(ViewOf(more), p)
    requires activePlan.Some? ==> activePlan.value in ViewOf(more).PlanIds()
    requires var next := ViewOf(Transitioned(more, e, state, failure, activePlan, clock, refs));
      && ValidEvent(next, Stored(more, e, clock, refs))
      && WorkflowSemantics(next.workflow.value, next.manifest, Stored(more, e, clock, refs))
      && LifecycleProvenance(next)
    ensures Valid(Transitioned(more, e, state, failure, activePlan, clock, refs))
  {
    hide TransitionIntegrity, LifecycleProvenance, ValidEvent, ValidDocuments, WorkflowSemantics, EventSemantics, Stamp,
         ValidView, ValidFinding, ValidPlan;
    var next := Transitioned(more, e, state, failure, activePlan, clock, refs);
    var stored := Stored(more, e, clock, refs);
    var v, w := ViewOf(s), ViewOf(next);
    TransitionedView(more, e, state, failure, activePlan, clock, refs);
    assert ViewOf(more) == v.(findings := ViewOf(more).findings, plans := ViewOf(more).plans);
    SemanticsIgnoreStamp(e, stored);
    assert Transition(v, w, stored);
    assert NoDuplicates(next) by {
      FreshAppend(s.events, stored);
    }
    assert DistinctIds(w);
    SameReferences(ViewOf(more), w);
    TransitionKeepsValid(v, w, stored);
  }

  lemma SemanticsIgnoreStamp(e: Event, stored: Event)
    requires EventSemantics(e) && stored == e.(refs := stored.refs, occurredAt := stored.occurredAt)
    ensures EventSemantics(stored)
  {
  }

  lemma FreshAppend(events: seq<Event>, e: Event)
    requires NoRepeats(events) && e.eventId !in (set x | x in events :: x.eventId)
    ensures NoRepeats(events + [e])
  {
  }

  /** Findings and plans are judged by the case id and the identifiers they reference, nothing else. */
  lemma SameReferences(v: View, w: View)
    requires w.manifest.caseId == v.manifest.caseId && w.targets == v.targets && w.evidence == v.evidence
    requires w.findings == v.findings
    ensures forall f: Finding :: ValidFinding(v, f) <==> ValidFinding(w, f)
    ensures forall p: Plan :: ValidPlan(v, p) <==> ValidPlan(w, p)
  {
  }

  // ---------------------------------------------------------------- CommitAnalysis

  function Fill(caseId: Id, d: FindingDraft): Finding {
    if d.caseGiven then d.finding else d.finding.(caseId := caseId)
  }

  function FillAll(caseId: Id, drafts: seq<FindingDraft>): seq<Finding> {
    seq(|drafts|, i requires 0 <= i < |drafts| => Fill(caseId, drafts[i]))
  }

  function FindingKey(f: Finding): Id { f.findingId }

  function AnalysisSuccessor(s: Snapshot, head: CommitId, r: AnalysisRequest, env: Env): Result<Snapshot> {
    var actor := OrElse(r.actor, DeterministicAnalyzer);
    var refused := TransitionError(CurrentState(s), Analyzed, actor, |r.findings|, |s.plans|);
    if refused.Some? then Err(refused.value)
    else
      var filled := FillAll(s.manifest.caseId, r.findings);
      match MergeById(s.findings, filled, FindingKey)
      case None => Err(InvalidArgument)
      case Some(merged) =>
        Accept(Transitioned(s.(findings := merged), AnalysisEvent(s, head, r, env), Analyzed, None, ActivePlan(s),
                            env.clock, AnalysisRefs(s.manifest.caseId, filled)))
  }

  function AnalysisEvent(s: Snapshot, head: CommitId, r: AnalysisRequest, env: Env): Event {
    NewEvent(s.manifest.caseId, AnalysisCommitted, OrElse(r.actor, DeterministicAnalyzer), CurrentState(s), Analyzed,
             Some(head), OrElse(r.reason, ANALYSIS_REASON), r.command, NextRevision(s), env)
  }

  /** A legal transition by an allowed actor, well-formed codes, a fresh event id, and findings that are valid
      documents of this case and contradict none that are already there. */
  predicate AnalysisLegal(s: Snapshot, r: AnalysisRequest, env: Env) {
    var filled := FillAll(s.manifest.caseId, r.findings);
    && TransitionError(CurrentState(s), Analyzed, OrElse(r.actor, DeterministicAnalyzer), |r.findings|, |s.plans|).None?
    && Consistent(Elements(s.findings) + Elements(filled), FindingKey)
    && (forall f | f in filled :: ValidFinding(ViewOf(s), f))
    && env.id !in ViewOf(s).EventIds()
    && OrElse(r.reason, ANALYSIS_REASON).wellFormed && ValidCode(r.command)
  }

  lemma CitedAreFilled(w: View, caseId: Id, filled: seq<Finding>)
    requires Elements(filled) <= w.findings && DistinctIds(w)
    ensures CitedFindings(w, AnalysisRefs(caseId, filled)) == Elements(filled)
  {
    var refs := AnalysisRefs(caseId, filled);
    AnalysisRefsSet(caseId, filled);
    forall f | f in filled ensures FindingRef(f.findingId) in refs {
      assert FindingRef(f.findingId) in FindingClosure(Elements(filled));
    }
    forall f | f in CitedFindings(w, refs) ensures f in filled {
      assert FindingRef(f.findingId) in Elements(refs);
      var g :| g in filled && g.findingId == f.findingId;
      assert g in Elements(filled);
    }
  }

  lemma AnalysisEventValid(w: View, stored: Event, filled: seq<Finding>)
    requires filled != [] && Elements(filled) <= w.findings && DistinctIds(w) && w.workflow.Some?
    requires forall f | f in filled :: ValidFinding(w, f)
    requires stored.kind.AnalysisCommitted? && EventShape(stored) && stored.caseId == w.manifest.caseId
    requires stored.refs == AnalysisRefs(w.manifest.caseId, filled)
    ensures ValidEvent(w, stored)
  {
    hide DistinctIds;
    AnalysisRefsSet(w.manifest.caseId, filled);
    CitedAreFilled(w, w.manifest.caseId, filled);
    assert filled[0] in Elements(filled);
    forall r | r in stored.refs ensures Known(w, r) && !r.EventRef? {
      assert r in BaseRefs(w.manifest.caseId) + FindingClosure(Elements(filled));
    }
    assert CaseRef(w.manifest.caseId) in Elements(stored.refs) && WorkflowRef in Elements(stored.refs);
  }

  lemma FindingsStayCommitted(v: View, w: View, stored: Event, filled: seq<Finding>)
    requires FindingsCommitted(v) && v.events <= w.events && stored in w.events
    requires w.findings == v.findings + Elements(filled)
    requires stored.kind.AnalysisCommitted? && stored.refs == AnalysisRefs(w.manifest.caseId, filled)
    ensures FindingsCommitted(w)
  {
    AnalysisRefsSet(w.manifest.caseId, filled);
    forall f | f in w.findings ensures exists e | e in w.events :: CommitsFinding(e, f) {
      if f in v.findings {
        var e :| e in v.events && CommitsFinding(e, f);
        assert e in w.events;
      } else {
        assert FindingRef(f.findingId) in FindingClosure(Elements(filled));
        assert FindingRef(f.findingId) in Elements(stored.refs);
        assert CommitsFinding(stored, f);
      }
    }
  }

  /** The writer satisfies the reader: the snapshot built by CommitAnalysis is accepted exactly for legal requests. */
  lemma AnalysisAcceptance(s: Snapshot, head: CommitId, r: AnalysisRequest, env: Env)
    requires Valid(s) && s.workflow.Some?
    ensures AnalysisSuccessor(s, head, r, env).Ok? <==> AnalysisLegal(s, r, env)
  {
    DistinctOnIds(s);
    var filled := FillAll(s.manifest.caseId, r.findings);
    MergeConflicts(s.findings, filled, FindingKey);
    if AnalysisLegal(s, r, env) {
      AnalysisAccepted(s, head, r, env);
    } else if AnalysisSuccessor(s, head, r, env).Ok? {
      AnalysisOnlyLegal(s, head, r, env);
    }
  }

  lemma DistinctOnIds(s: Snapshot)
    requires Valid(s)
    ensures DistinctOn(s.findings, FindingKey)
  {
    DistinctOnIsDistinct(s.findings, FindingKey);
  }

  lemma AnalysisAdds(s: Snapshot, merged: seq<Finding>, filled: seq<Finding>)
    requires Valid(s) && MergeById(s.findings, filled, FindingKey) == Some(merged)
    ensures Adds(s, s.(findings := merged))
    ensures ViewOf(s.(findings := merged)) == ViewOf(s).(findings := ViewOf(s).findings + Elements(filled))
  {
    hide ValidEvents, ValidDocuments, ValidWorkflow, ValidCase, MergeById;
    DistinctOnIds(s);
    MergeAppends(s.findings, filled, FindingKey);
    DistinctOnIsDistinct(merged, FindingKey);
  }

  /** `w` is `v` after an analysis that added `filled`. */
  predicate Analyzes(v: View, w: View, stored: Event, filled: seq<Finding>) {
    && v.workflow.Some? && w.workflow.Some?
    && w == v.(manifest := w.manifest, workflow := w.workflow, findings := v.findings + Elements(filled),
               events := v.events + {stored})
    && w.manifest.caseId == v.manifest.caseId
    && var before, after := v.workflow.value, w.workflow.value;
    && (before.state.EvidenceCollected? || before.state.Analyzed?)
    && after == Workflow(v.manifest.caseId, Analyzed, stored.revision, stored.occurredAt, stored.eventId,
                         before.activePlan, None, None)
    && w.manifest.updatedAt == stored.occurredAt
    && filled != []
    && stored.kind.AnalysisCommitted? && EventShape(stored) && stored.caseId == v.manifest.caseId
    && stored.next == Some(Analyzed)
    && stored.refs == AnalysisRefs(v.manifest.caseId, filled)
  }

  lemma AnalysisChecks(v: View, w: View, stored: Event, filled: seq<Finding>)
    requires ValidView(v) && Analyzes(v, w, stored, filled) && DistinctIds(w)
    requires forall f | f in filled :: ValidFinding(v, f)
    ensures ValidEvent(w, stored)
    ensures WorkflowSemantics(w.workflow.value, w.manifest, stored)
    ensures LifecycleProvenance(w)
  {
    hide ValidEvents, ValidDocuments, TransitionIntegrity, FindingsCommitted, PlansCommitted, AnalysisRefs,
         ValidEvent, DistinctIds;
    StateFacts(v);
    SameReferences(v.(findings := w.findings), w);
    AnalysisEventValid(w, stored, filled);
    FindingsStayCommitted(v, w, stored, filled);
    NoPlansAreCommitted(w);
    assert filled[0] in w.findings;
  }

  lemma AnalysisAccepted(s: Snapshot, head: CommitId, r: AnalysisRequest, env: Env)
    requires Valid(s) && s.workflow.Some? && AnalysisLegal(s, r, env)
    ensures AnalysisSuccessor(s, head, r, env).Ok?
  {
    hide TransitionIntegrity, ValidDocuments, ValidEvents, FindingsCommitted, PlansCommitted, Stamp, AnalysisRefs,
         ValidEvent, DistinctIds, LifecycleProvenance, WorkflowSemantics, Consistent, MergeById, ValidCase;
    var filled := FillAll(s.manifest.caseId, r.findings);
    DistinctOnIds(s);
    MergeConflicts(s.findings, filled, FindingKey);
    var merged := MergeById(s.findings, filled, FindingKey).value;
    var more := s.(findings := merged);
    var e := AnalysisEvent(s, head, r, env);
    var refs := AnalysisRefs(s.manifest.caseId, filled);
    var stored := Stored(more, e, env.clock, refs);
    var next := Transitioned(more, e, Analyzed, None, ActivePlan(s), env.clock, refs);
    var v, w := ViewOf(s), ViewOf(next);
    AnalysisAdds(s, merged, filled);
    TransitionedView(more, e, Analyzed, None, ActivePlan(s), env.clock, refs);
    StateFacts(v);
    DistinctIdsIgnore(ViewOf(more), w, stored);
    assert Analyzes(v, w, stored, filled);
    AnalysisChecks(v, w, stored, filled);
    SameReferences(v.(findings := w.findings), ViewOf(more));
    TransitionAccepted(s, more, e, Analyzed, None, ActivePlan(s), env.clock, refs);
  }

  lemma DistinctIdsIgnore(v: View, w: View, e: Event)
    requires DistinctIds(v) && e.eventId !in v.EventIds()
    requires w == v.(manifest := w.manifest, workflow := w.workflow, events := v.events + {e})
    ensures DistinctIds(w)
  {
  }

  /** What the lifecycle rules say about the current state. */
  lemma StateFacts(v: View)
    requires ValidView(v) && v.workflow.Some?
    ensures v.executions == {} && v.verifications == {} && FindingsCommitted(v) && PlansCommitted(v)
    ensures v.workflow.value.state.EvidenceCollected? ==> v.findings == {} && v.plans == {}
    ensures v.workflow.value.state.Analyzed? ==> v.findings != {} && v.plans == {}
    ensures v.workflow.value.state.PlanProposed? ==> v.findings != {}
    ensures DocumentSemantics(v.workflow.value)
    ensures v.workflow.value.updatedAt == v.manifest.updatedAt
  {
    hide ValidEvents, ValidDocuments, FindingsCommitted, PlansCommitted;
    var last :| last in v.events && IsLast(v, last);
  }

  lemma NoPlansAreCommitted(w: View)
    requires w.plans == {}
    ensures PlansCommitted(w)
  {
  }

  lemma AnalysisOnlyLegal(s: Snapshot, head: CommitId, r: AnalysisRequest, env: Env)
    requires Valid(s) && s.workflow.Some? && AnalysisSuccessor(s, head, r, env).Ok?
    ensures AnalysisLegal(s, r, env)
  {
    hide TransitionIntegrity, ValidEvents, FindingsCommitted, PlansCommitted, Stamp, AnalysisRefs;
    DistinctOnIds(s);
    var filled := FillAll(s.manifest.caseId, r.findings);
    MergeConflicts(s.findings, filled, FindingKey);
    MergeAppends(s.findings, filled, FindingKey);
    var more := s.(findings := MergeById(s.findings, filled, FindingKey).value);
    var e := AnalysisEvent(s, head, r, env);
    var refs := AnalysisRefs(s.manifest.caseId, filled);
    var next := Transitioned(more, e, Analyzed, None, ActivePlan(s), env.clock, refs);
    var v, w := ViewOf(s), ViewOf(next);
    AcceptedEventIsFresh(more, e, Analyzed, None, ActivePlan(s), env.clock, refs);
    SameReferences(v.(findings := w.findings), w);
    forall f | f in filled ensures ValidFinding(v, f) {
      assert f in w.findings;
    }
  }

  lemma TakenIdIsRejected(s: Snapshot, e: Event, state: WorkflowName, failure: Option<Failure>,
                          activePlan: Option<Id>, clock: Time, refs: seq<DocId>)
    requires e.refs == [] && e.eventId in ViewOf(s).EventIds()
    ensures !Valid(Transitioned(s, e, state, failure, activePlan, clock, refs))
  {
    hide TransitionIntegrity, ValidDocuments, DistinctIds, Stamp, ExactRefs;
    var w := ViewOf(Transitioned(s, e, state, failure, activePlan, clock, refs));
    StampTaken(s.events, e, refs, MonotonicNow(s, clock));
    assert e in w.events;
    assert !ValidEvent(w, e);
  }

  /** An accepted transition had a fresh event id and well-formed codes. */
  lemma AcceptedEventIsFresh(s: Snapshot, e: Event, state: WorkflowName, failure: Option<Failure>,
                             activePlan: Option<Id>, clock: Time, refs: seq<DocId>)
    requires Valid(Transitioned(s, e, state, failure, activePlan, clock, refs))
    requires e.refs == []
    ensures e.eventId !in ViewOf(s).EventIds()
    ensures EventShape(e)
    ensures ValidFailure(failure)
  {
    hide TransitionIntegrity, ValidDocuments, DistinctIds, Stamp, ExactRefs;
    var w := ViewOf(Transitioned(s, e, state, failure, activePlan, clock, refs));
    if e.eventId in ViewOf(s).EventIds() {
      TakenIdIsRejected(s, e, state, failure, activePlan, clock, refs);
    }
    TransitionedView(s, e, state, failure, activePlan, clock, refs);
    assert ValidEvent(w, Stored(s, e, clock, refs));
  }

  // ---------------------------------------------------------------- CommitPlan

  function PlanKey(p: Plan): Id { p.planId }

  function FillPlan(caseId: Id, r: PlanRequest): Plan {
    if r.caseGiven then r.plan else r.plan.(caseId := caseId)
  }

  /** A plan id is new, repeats an identical plan, or conflicts. */
  function MergePlan(existing: seq<Plan>, p: Plan): Option<seq<Plan>> {
    match FirstWith(existing, PlanKey, p.planId)
    case None => Some(existing + [p])
    case Some(known) => if known == p then Some(existing) else None
  }

  function PlanEvent(s: Snapshot, head: CommitId, r: PlanRequest, env: Env): Event {
    NewEvent(s.manifest.caseId, PlanCommitted, OrElse(r.actor, System), CurrentState(s), PlanProposed,
             Some(head), OrElse(r.reason, PLAN_REASON), r.command, NextRevision(s), env)
  }

  predicate PlanShape(p: Plan, caseId: Id) {
    p.caseId == caseId && p.status.Draft? && p.findingRefs != [] && p.stepTargets != []
  }

  function PlanSuccessor(s: Snapshot, head: CommitId, r: PlanRequest, env: Env): Result<Snapshot> {
    var p := FillPlan(s.manifest.caseId, r);
    if !PlanShape(p, s.manifest.caseId) then Err(InvalidArgument)
    else
      match MergePlan(s.plans, p)
      case None => Err(InvalidArgument)
      case Some(merged) =>
        var refused := TransitionError(CurrentState(s), PlanProposed, OrElse(r.actor, System), |s.findings|, |merged|);
        if refused.Some? then Err(refused.value)
        else
          Accept(Transitioned(s.(plans := merged), PlanEvent(s, head, r, env), PlanProposed, None, Some(p.planId),
                              env.clock, PlanRefs(s.manifest.caseId, p)))
  }

  /** A draft plan for an analyzed case whose findings and targets exist, an allowed actor, well-formed codes, a
      fresh event id. No earlier plan can be in the way. */
  predicate PlanLegal(s: Snapshot, r: PlanRequest, env: Env) {
    var p := FillPlan(s.manifest.caseId, r);
    && CurrentState(s) == Some(Analyzed)
    && PlanShape(p, s.manifest.caseId)
    && ValidPlan(ViewOf(s), p)
    && AllowedActor(PlanCommitted, OrElse(r.actor, System))
    && env.id !in ViewOf(s).EventIds()
    && OrElse(r.reason, PLAN_REASON).wellFormed && ValidCode(r.command)
  }

  /** `w` is `v` after the plan `p` was proposed. */
  predicate Proposes(v: View, w: View, stored: Event, p: Plan) {
    && v.workflow.Some? && w.workflow.Some?
    && w == v.(manifest := w.manifest, workflow := w.workflow, plans := {p}, events := v.events + {stored})
    && w.manifest.caseId == v.manifest.caseId
    && var before, after := v.workflow.value, w.workflow.value;
    && before.state.Analyzed?
    && after == Workflow(v.manifest.caseId, PlanProposed, stored.revision, stored.occurredAt, stored.eventId,
                         Some(p.planId), None, None)
    && w.manifest.updatedAt == stored.occurredAt
    && stored.kind.PlanCommitted? && EventShape(stored) && stored.caseId == v.manifest.caseId
    && stored.next == Some(PlanProposed)
    && stored.refs == PlanRefs(v.manifest.caseId, p)
  }

  lemma PlanEventValid(v: View, w: View, stored: Event, p: Plan)
    requires Proposes(v, w, stored, p) && ValidPlan(v, p)
    ensures ValidEvent(w, stored)
    ensures PlanRef(p.planId) in stored.refs
  {
    PlanRefsSet(w.manifest.caseId, p);
    assert PlanRef(p.planId) in Elements(stored.refs);
    assert p in w.plans;
    assert CitedPlans(w, stored.refs) == {p};
    assert CitesPlan(w, stored, p);
    forall r | r in stored.refs ensures Known(w, r) && !r.EventRef? {
      assert r in BaseRefs(w.manifest.caseId) + PlanClosure(p);
    }
    assert CaseRef(w.manifest.caseId) in Elements(stored.refs) && WorkflowRef in Elements(stored.refs);
  }

  lemma PlanChecks(v: View, w: View, stored: Event, p: Plan)
    requires ValidView(v) && Proposes(v, w, stored, p) && ValidPlan(v, p)
    ensures ValidEvent(w, stored)
    ensures WorkflowSemantics(w.workflow.value, w.manifest, stored)
    ensures LifecycleProvenance(w)
  {
    hide ValidEvents, ValidDocuments, TransitionIntegrity, PlanRefs, ValidEvent, DistinctIds;
    StateFacts(v);
    PlanEventValid(v, w, stored, p);
    FindingsCommittedGrows(v, w);
    assert p in w.plans && CommitsPlan(stored, p) && stored in w.events;
  }

  lemma FindingsCommittedGrows(v: View, w: View)
    requires FindingsCommitted(v) && w.findings == v.findings && v.events <= w.events
    ensures FindingsCommitted(w)
  {
    forall f | f in w.findings ensures exists e | e in w.events :: CommitsFinding(e, f) {
      var e :| e in v.events && CommitsFinding(e, f);
      assert e in w.events;
    }
  }

  lemma PlansCommittedGrows(v: View, w: View)
    requires PlansCommitted(v) && w.plans == v.plans && v.events <= w.events
    ensures PlansCommitted(w)
  {
    forall p | p in w.plans ensures exists e | e in w.events :: CommitsPlan(e, p) {
      var e :| e in v.events && CommitsPlan(e, p);
      assert e in w.events;
    }
  }

  lemma NoPlansYet(s: Snapshot, p: Plan)
    requires Valid(s) && s.workflow.Some? && s.workflow.value.state.Analyzed?
    ensures s.plans == [] && MergePlan(s.plans, p) == Some([p]) && |s.findings| > 0
  {
    hide ValidDocuments, ValidEvents, DistinctIds;
    StateFacts(ViewOf(s));
    EmptyIffNoElements(s.plans);
    EmptyIffNoElements(s.findings);
    assert [] + [p] == [p];
  }

  lemma PlanAdds(s: Snapshot, p: Plan)
    requires Valid(s) && s.plans == []
    ensures Adds(s, s.(plans := [p]))
  {
    hide ValidCase, ValidDocuments, ValidEvents, ValidWorkflow;
  }

  lemma PlanAccepted(s: Snapshot, head: CommitId, r: PlanRequest, env: Env)
    requires Valid(s) && s.workflow.Some? && PlanLegal(s, r, env)
    ensures PlanSuccessor(s, head, r, env).Ok?
  {
    hide TransitionIntegrity, ValidDocuments, ValidEvents, Stamp, PlanRefs, ValidEvent, LifecycleProvenance,
         WorkflowSemantics, ValidCase, OneOrigin, ValidPlan, MergePlan, DistinctIds, Adds;
    var p := FillPlan(s.manifest.caseId, r);
    NoPlansYet(s, p);
    var more := s.(plans := [p]);
    var e := PlanEvent(s, head, r, env);
    var refs := PlanRefs(s.manifest.caseId, p);
    var stored := Stored(more, e, env.clock, refs);
    var next := Transitioned(more, e, PlanProposed, None, Some(p.planId), env.clock, refs);
    var v, w := ViewOf(s), ViewOf(next);
    TransitionedView(more, e, PlanProposed, None, Some(p.planId), env.clock, refs);
    assert Proposes(v, w, stored, p);
    PlanChecks(v, w, stored, p);
    SameReferences(v, ViewOf(more));
    assert p in more.plans;
    PlanAdds(s, p);
    TransitionAccepted(s, more, e, PlanProposed, None, Some(p.planId), env.clock, refs);
  }

  lemma PlanOnlyLegal(s: Snapshot, head: CommitId, r: PlanRequest, env: Env)
    requires Valid(s) && s.workflow.Some? && PlanSuccessor(s, head, r, env).Ok?
    ensures PlanLegal(s, r, env)
  {
    hide TransitionIntegrity, ValidEvents, Stamp, PlanRefs, DistinctIds;
    var p := FillPlan(s.manifest.caseId, r);
    NoPlansYet(s, p);
    var more := s.(plans := [p]);
    var e := PlanEvent(s, head, r, env);
    var refs := PlanRefs(s.manifest.caseId, p);
    var w := ViewOf(Transitioned(more, e, PlanProposed, None, Some(p.planId), env.clock, refs));
    AcceptedEventIsFresh(more, e, PlanProposed, None, Some(p.planId), env.clock, refs);
    SameReferences(ViewOf(s), w);
    assert p in w.plans;
  }

  /** CommitPlan builds an accepted snapshot exactly for legal requests. */
  lemma PlanAcceptance(s: Snapshot, head: CommitId, r: PlanRequest, env: Env)
    requires Valid(s) && s.workflow.Some?
    ensures PlanSuccessor(s, head, r, env).Ok? <==> PlanLegal(s, r, env)
  {
    if PlanLegal(s, r, env) {
      PlanAccepted(s, head, r, env);
    } else if PlanSuccessor(s, head, r, env).Ok? {
      PlanOnlyLegal(s, head, r, env);
    }
  }

  // ---------------------------------------------------------------- FailCase and CancelCase

  /** Where a terminal request leads and what it records there. */
  datatype Ending = Failing | Cancelling
  {
    function State(): WorkflowName { if Failing? then Failed else Cancelled }
    function Kind(): EventType { if Failing? then CaseFailedEvent else CaseCancelledEvent }
    function Reason(r: TerminalRequest): Code {
      OrElse(r.reason, if Failing? then FAILED_REASON else CANCELLED_REASON)
    }
    function FailureOf(r: TerminalRequest): Option<Failure> {
      if Failing? then Some(Failure(Reason(r), r.detail)) else None
    }
  }

  function TerminalEvent(s: Snapshot, head: CommitId, k: Ending, r: TerminalRequest, env: Env): Event {
    NewEvent(s.manifest.caseId, k.Kind(), OrElse(r.actor, Technician), CurrentState(s), k.State(), Some(head),
             k.Reason(r), r.command, NextRevision(s), env)
  }

  function TerminalSuccessor(s: Snapshot, head: CommitId, k: Ending, r: TerminalRequest, env: Env): Result<Snapshot> {
    var refused := TransitionError(CurrentState(s), k.State(), OrElse(r.actor, Technician), |s.findings|, |s.plans|);
    if refused.Some? then Err(refused.value)
    else
      Accept(Transitioned(s, TerminalEvent(s, head, k, r, env), k.State(), k.FailureOf(r), ActivePlan(s), env.clock,
                          TerminalRefs(s)))
  }

  predicate TerminalLegal(s: Snapshot, k: Ending, r: TerminalRequest, env: Env) {
    && Open(CurrentState(s))
    && AllowedActor(k.Kind(), OrElse(r.actor, Technician))
    && env.id !in ViewOf(s).EventIds()
    && k.Reason(r).wellFormed && ValidCode(r.command) && (k.Failing? ==> ValidCode(r.detail))
  }

  /** `w` is `v` after it failed or was cancelled. */
  predicate Ends(v: View, w: View, stored: Event, k: Ending) {
    && v.workflow.Some? && w.workflow.Some?
    && w == v.(manifest := w.manifest, workflow := w.workflow, events := v.events + {stored})
    && w.manifest.caseId == v.manifest.caseId
    && var before, after := v.workflow.value, w.workflow.value;
    && Open(Some(before.state))
    && after == Workflow(v.manifest.caseId, k.State(), stored.revision, stored.occurredAt, stored.eventId,
                         before.activePlan, None, after.failure)
    && after.failure.Some? == k.Failing?
    && w.manifest.updatedAt == stored.occurredAt
    && stored.kind == k.Kind() && EventShape(stored) && stored.caseId == v.manifest.caseId
    && stored.next == Some(k.State())
    && NoRepeats(stored.refs)
    && Elements(stored.refs) == BaseRefs(v.manifest.caseId) + ActivePlanRefs(v.workflow)
  }

  lemma TerminalChecks(v: View, w: View, stored: Event, k: Ending)
    requires ValidView(v) && Ends(v, w, stored, k)
    ensures ValidEvent(w, stored)
    ensures WorkflowSemantics(w.workflow.value, w.manifest, stored)
    ensures LifecycleProvenance(w)
  {
    hide ValidEvents, ValidDocuments, TransitionIntegrity, DistinctIds, FindingsCommitted, PlansCommitted;
    StateFacts(v);
    FindingsCommittedGrows(v, w);
    PlansCommittedGrows(v, w);
    forall r | r in stored.refs ensures Known(w, r) && !r.EventRef? {
      assert r in BaseRefs(v.manifest.caseId) + ActivePlanRefs(v.workflow);
    }
    assert CaseRef(w.manifest.caseId) in Elements(stored.refs) && WorkflowRef in Elements(stored.refs);
  }

  lemma AddsItself(s: Snapshot)
    requires Valid(s)
    ensures Adds(s, s)
  {
    hide ValidDocuments, ValidEvents, ValidCase, ValidWorkflow;
  }

  lemma TerminalAccepted(s: Snapshot, head: CommitId, k: Ending, r: TerminalRequest, env: Env)
    requires Valid(s) && s.workflow.Some? && TerminalLegal(s, k, r, env)
    ensures TerminalSuccessor(s, head, k, r, env).Ok?
  {
    hide TransitionIntegrity, ValidDocuments, ValidEvents, Stamp, TerminalRefs, ValidEvent, LifecycleProvenance,
         WorkflowSemantics, ValidCase, OneOrigin, BaseRefs, ActivePlanRefs, ValidFinding, ValidPlan,
         NoDuplicates, DistinctIds;
    var e := TerminalEvent(s, head, k, r, env);
    var refs := TerminalRefs(s);
    var stored := Stored(s, e, env.clock, refs);
    var next := Transitioned(s, e, k.State(), k.FailureOf(r), ActivePlan(s), env.clock, refs);
    var v, w := ViewOf(s), ViewOf(next);
    TransitionedView(s, e, k.State(), k.FailureOf(r), ActivePlan(s), env.clock, refs);
    TerminalRefsSet(s);
    assert Ends(v, w, stored, k);
    TerminalChecks(v, w, stored, k);
    AddsItself(s);
    TransitionAccepted(s, s, e, k.State(), k.FailureOf(r), ActivePlan(s), env.clock, refs);
  }

  lemma TerminalOnlyLegal(s: Snapshot, head: CommitId, k: Ending, r: TerminalRequest, env: Env)
    requires Valid(s) && s.workflow.Some? && TerminalSuccessor(s, head, k, r, env).Ok?
    ensures TerminalLegal(s, k, r, env)
  {
    hide Valid, Stamp, TerminalRefs;
    AcceptedEventIsFresh(s, TerminalEvent(s, head, k, r, env), k.State(), k.FailureOf(r), ActivePlan(s), env.clock,
                         TerminalRefs(s));
  }

  /** FailCase and CancelCase build an accepted snapshot exactly for legal requests. */
  lemma TerminalAcceptance(s: Snapshot, head: CommitId, k: Ending, r: TerminalRequest, env: Env)
    requires Valid(s) && s.workflow.Some?
    ensures TerminalSuccessor(s, head, k, r, env).Ok? <==> TerminalLegal(s, k, r, env)
  {
    if TerminalLegal(s, k, r, env) {
      TerminalAccepted(s, head, k, r, env);
    } else if TerminalSuccessor(s, head, k, r, env).Ok? {
      TerminalOnlyLegal(s, head, k, r, env);
    }
  }

  // ---------------------------------------------------------------- CreateCase and AdoptLegacyCase

  /** What the importer yields; it never contains lifecycle documents. */
  datatype Import = Import(manifest: CaseManifest, targets: seq<Target>, evidence: seq<Evidence>)

  function SnapshotOfImport(i: Import): Snapshot {
    Snapshot(i.manifest, i.targets, i.evidence, [], [], [], [], None, [], [], [])
  }

  function OpeningEvent(s: Snapshot, kind: EventType, from: Option<WorkflowName>, expected: Option<CommitId>,
                        fallback: Code, r: OpeningRequest, env: Env): Event
  {
    NewEvent(s.manifest.caseId, kind, OrElse(r.actor, System), from, EvidenceCollected, expected,
             OrElse(r.reason, fallback), r.command, 1, env)
  }

  function Opened(s: Snapshot, e: Event, clock: Time): Snapshot {
    Transitioned(s, e, EvidenceCollected, None, None, clock, CreateRefs(s))
  }

  function CreateSuccessor(i: Import, r: OpeningRequest, env: Env): Result<Snapshot> {
    var s := SnapshotOfImport(i);
    var refused := TransitionError(Some(Created), EvidenceCollected, OrElse(r.actor, System), 0, 0);
    if refused.Some? then Err(refused.value)
    else Accept(Opened(s, OpeningEvent(s, CaseCreatedEvent, Some(Created), None, IMPORT_REASON, r, env), env.clock))
  }

  /** Adoption needs a legacy snapshot: no workflow, no later documents, still at SNAPSHOTTED. */
  predicate Adoptable(s: Snapshot) {
    && s.workflow.None? && s.events == [] && s.findings == [] && s.plans == [] && s.executions == []
    && s.verifications == [] && s.targets != [] && s.evidence != [] && s.manifest.currentState.CaseSnapshotted?
  }

  function AdoptSuccessor(s: Snapshot, head: CommitId, r: OpeningRequest, env: Env): Result<Snapshot> {
    if !Adoptable(s) then Err(AdoptionRejected)
    else Accept(Opened(s, OpeningEvent(s, LegacyCaseAdopted, None, Some(head), ADOPTED_REASON, r, env), env.clock))
  }

  predicate OpeningLegal(fallback: Code, r: OpeningRequest) {
    && (OrElse(r.actor, System) == System || OrElse(r.actor, System) == Technician)
    && OrElse(r.reason, fallback).wellFormed && ValidCode(r.command)
  }

  lemma OpeningEventValid(v: View, w: View, stored: Event)
    requires ValidView(v) && Opening(v, w, stored)
    requires NoRepeats(stored.refs) && Elements(stored.refs) == BaseRefs(v.manifest.caseId) + InitialRefs(v)
    ensures ValidEvent(w, stored)
  {
    hide ValidDocuments, DistinctIds;
    assert InitialRefs(w) == InitialRefs(v);
    forall r | r in stored.refs ensures Known(w, r) && !r.EventRef? {
      assert r in BaseRefs(v.manifest.caseId) + InitialRefs(v);
    }
    assert CaseRef(w.manifest.caseId) in Elements(stored.refs) && WorkflowRef in Elements(stored.refs);
  }

  lemma OpenedView(s: Snapshot, e: Event, clock: Time)
    requires s.events == []
    ensures var stored := Stored(s, e, clock, CreateRefs(s));
      && Opened(s, e, clock) == Advance(s, e, EvidenceCollected, None, None, clock).(events := [stored])
      && ViewOf(Opened(s, e, clock)) == ViewOf(s).(manifest := Opened(s, e, clock).manifest,
                                                   workflow := Opened(s, e, clock).workflow, events := {stored})
  {
    assert ViewOf(s).events == {};
    TransitionedView(s, e, EvidenceCollected, None, None, clock, CreateRefs(s));
  }

  lemma OpeningAccepted(s: Snapshot, e: Event, clock: Time)
    requires Valid(s) && s.workflow.None?
    requires e.caseId == s.manifest.caseId && e.revision == 1 && EventSemantics(e)
    requires e.next == Some(EvidenceCollected) && (e.kind.CaseCreatedEvent? || e.kind.LegacyCaseAdopted?)
    ensures Valid(Opened(s, e, clock))
  {
    hide ValidDocuments, DistinctIds, ValidEvents, Stamp, CreateRefs, InitialRefs, EventSemantics, ValidEvent;
    EmptyIffNoElements(s.events);
    EmptyIffNoElements(s.acquisitions);
    var stored := Stored(s, e, clock, CreateRefs(s));
    var v, w := ViewOf(s), ViewOf(Opened(s, e, clock));
    OpenedView(s, e, clock);
    CreateRefsSet(s);
    SemanticsIgnoreStamp(e, stored);
    OpeningEventValid(v, w, stored);
    OpeningKeepsValid(v, w, stored);
  }

  lemma OpenedOnlyLegal(s: Snapshot, e: Event, clock: Time)
    requires s.events == [] && Valid(Opened(s, e, clock))
    ensures EventSemantics(e)
  {
    hide ValidDocuments, DistinctIds, Stamp, CreateRefs, ExactRefs, FindingsCommitted, PlansCommitted;
    OpenedView(s, e, clock);
    var stored := Stored(s, e, clock, CreateRefs(s));
    assert stored in ViewOf(Opened(s, e, clock)).events;
  }

  /** A case is created from a valid import exactly when the actor and the codes are allowed. */
  lemma CreateAcceptance(i: Import, r: OpeningRequest, env: Env)
    requires Valid(SnapshotOfImport(i))
    ensures CreateSuccessor(i, r, env).Ok? <==> OpeningLegal(IMPORT_REASON, r)
  {
    hide Valid, Opened;
    var s := SnapshotOfImport(i);
    var e := OpeningEvent(s, CaseCreatedEvent, Some(Created), None, IMPORT_REASON, r, env);
    if OpeningLegal(IMPORT_REASON, r) {
      OpeningAccepted(s, e, env.clock);
    } else if CreateSuccessor(i, r, env).Ok? {
      OpenedOnlyLegal(s, e, env.clock);
    }
  }

  lemma LegacyIsAdoptable(s: Snapshot)
    requires Valid(s) && s.workflow.None? && s.manifest.currentState.CaseSnapshotted?
    ensures Adoptable(s)
  {
    hide ValidDocuments, DistinctIds, ValidEvents;
    EmptyIffNoElements(s.events);
    EmptyIffNoElements(s.findings);
    EmptyIffNoElements(s.plans);
    EmptyIffNoElements(s.executions);
    EmptyIffNoElements(s.verifications);
    EmptyIffNoElements(s.targets);
    EmptyIffNoElements(s.evidence);
  }

  /** A valid legacy snapshot at SNAPSHOTTED is adopted exactly when the actor and the codes are allowed. */
  lemma AdoptAcceptance(s: Snapshot, head: CommitId, r: OpeningRequest, env: Env)
    requires Valid(s)
    ensures AdoptSuccessor(s, head, r, env).Ok? <==>
      s.workflow.None? && s.manifest.currentState.CaseSnapshotted? && OpeningLegal(ADOPTED_REASON, r)
  {
    if s.workflow.None? && s.manifest.currentState.CaseSnapshotted? {
      LegacyIsAdoptable(s);
    }
    if Adoptable(s) {
      hide Valid, Opened;
      var e := OpeningEvent(s, LegacyCaseAdopted, None, Some(head), ADOPTED_REASON, r, env);
      if OpeningLegal(ADOPTED_REASON, r) {
        OpeningAccepted(s, e, env.clock);
      } else if AdoptSuccessor(s, head, r, env).Ok? {
        OpenedOnlyLegal(s, e, env.clock);
      }
    }
  }

  // ---------------------------------------------------------------- acquisitions

  /** The request of a read operation or a topology resolution; `canonical` encodes everything that identifies it. */
  datatype ReadRequest = ReadRequest(requestId: Id, expected: Option<CommitId>, actor: Option<Actor>, canonical: nat)

  /** What the operation handler or the resolver produced. */
  datatype Reading = Reading(evidence: Evidence, targetId: Id, inputs: seq<Id>, fields: Fields)

  function TargetKey(t: Target): Id { t.targetId }

  function EvidenceKey(e: Evidence): Id { e.evidenceId }

  function TargetIdList(targets: seq<Target>): seq<Id> {
    seq(|targets|, i requires 0 <= i < |targets| => targets[i].targetId)
  }

  function IdsOfTargets(targets: seq<Target>): seq<Id> {
    SortedIds(TargetIdList(targets))
  }

  function AcquisitionOf(s: Snapshot, head: CommitId, r: ReadRequest, reading: Reading, env: Env): Acquisition {
    Acquisition(env.id, s.manifest.caseId, r.requestId, head, OrElse(r.actor, System), [reading.targetId],
                SortedIds(reading.inputs), [], [reading.evidence.evidenceId], Digest(r.canonical), reading.fields)
  }

  predicate RequestTaken(s: Snapshot, a: Acquisition) {
    exists b | b in s.acquisitions :: b.acquisitionId == a.acquisitionId || b.requestId == a.requestId
  }

  function AppendAcquisition(s: Snapshot, targets: seq<Target>, evidence: seq<Evidence>, a: Acquisition)
    : Result<Snapshot>
  {
    match MergeById(s.targets, targets, TargetKey)
    case None => Err(InvalidArgument)
    case Some(allTargets) =>
      match MergeById(s.evidence, evidence, EvidenceKey)
      case None => Err(InvalidArgument)
      case Some(allEvidence) =>
        if RequestTaken(s, a) then Err(InvalidArgument)
        else
          Accept(s.(targets := allTargets, manifest := s.manifest.(targetIds := IdsOfTargets(allTargets)),
                    evidence := allEvidence, acquisitions := s.acquisitions + [a]))
  }

  function ReadSuccessor(s: Snapshot, head: CommitId, r: ReadRequest, reading: Reading, env: Env): Result<Snapshot> {
    AppendAcquisition(s, [], [reading.evidence], AcquisitionOf(s, head, r, reading, env))
  }

  /** A fresh evidence id, fresh acquisition and request ids, and valid documents. */
  predicate ReadLegal(s: Snapshot, head: CommitId, r: ReadRequest, reading: Reading, env: Env) {
    var v := ViewOf(s);
    && reading.evidence.evidenceId !in v.EvidenceIds()
    && (forall b | b in v.acquisitions :: b.acquisitionId != env.id && b.requestId != r.requestId)
    && ValidEvidence(v, reading.evidence)
    && ArtifactsAgree(v.(evidence := v.evidence + {reading.evidence}))
    && (OrElse(r.actor, System) == System || OrElse(r.actor, System) == Technician)
    && reading.fields.wellFormed
    && reading.targetId in v.TargetIds()
    && Elements(reading.inputs) <= v.EvidenceIds() + {reading.evidence.evidenceId}
    && NoRepeats(SortedIds(reading.inputs))
  }

  lemma TargetIdsOf(s: Snapshot)
    ensures Elements(IdsOfTargets(s.targets)) == ViewOf(s).TargetIds()
  {
    var ids := TargetIdList(s.targets);
    forall id | id in ViewOf(s).TargetIds() ensures id in ids {
      var i :| 0 <= i < |s.targets| && s.targets[i].targetId == id;
      assert ids[i] == id;
    }
    forall id | id in ids ensures id in ViewOf(s).TargetIds() {
      var i :| 0 <= i < |ids| && ids[i] == id;
      assert s.targets[i] in ViewOf(s).targets;
    }
  }

  /** The snapshot with the reading appended. */
  function WithReading(s: Snapshot, reading: Reading, a: Acquisition): Snapshot {
    s.(manifest := s.manifest.(targetIds := IdsOfTargets(s.targets)),
       evidence := s.evidence + [reading.evidence], acquisitions := s.acquisitions + [a])
  }

  lemma ReadingView(s: Snapshot, reading: Reading, a: Acquisition)
    requires Valid(s)
    ensures var v, w := ViewOf(s), ViewOf(WithReading(s, reading, a));
      && w == v.(manifest := v.manifest.(targetIds := IdsOfTargets(s.targets)),
                 evidence := v.evidence + {reading.evidence}, acquisitions := v.acquisitions + {a})
      && Elements(w.manifest.targetIds) == w.TargetIds()
      && w.EvidenceIds() == v.EvidenceIds() + {reading.evidence.evidenceId}
  {
    hide Valid;
    ElementsOfSum(s.evidence, [reading.evidence]);
    ElementsOfSum(s.acquisitions, [a]);
    TargetIdsOf(s);
  }

  lemma FreshEvidenceIsAppended(s: Snapshot, e: Evidence)
    requires e.evidenceId !in ViewOf(s).EvidenceIds()
    ensures MergeById(s.evidence, [e], EvidenceKey) == Some(s.evidence + [e])
    ensures NoRepeats(s.evidence) ==> NoRepeats(s.evidence + [e])
  {
    forall x | x in s.evidence ensures x.evidenceId != e.evidenceId {
      assert x in ViewOf(s).evidence;
    }
    assert [e][1..] == [];
    if NoRepeats(s.evidence) {
      assert e !in s.evidence;
      AppendNew(s.evidence, e);
    }
  }

  lemma ReadingAccepted(s: Snapshot, head: CommitId, r: ReadRequest, reading: Reading, env: Env)
    requires Valid(s) && s.workflow.Some? && ReadLegal(s, head, r, reading, env)
    ensures ReadSuccessor(s, head, r, reading, env).Ok?
    ensures ReadSuccessor(s, head, r, reading, env).value
            == WithReading(s, reading, AcquisitionOf(s, head, r, reading, env))
  {
    hide TransitionIntegrity, ValidEvents, ValidDocuments, ArtifactsAgree, ValidWorkflow, ValidEvidence, NoDuplicates,
         DistinctIds;
    var a := AcquisitionOf(s, head, r, reading, env);
    var next := WithReading(s, reading, a);
    var v, w := ViewOf(s), ViewOf(next);
    FreshEvidenceIsAppended(s, reading.evidence);
    ReadingView(s, reading, a);
    ReadingIsDistinct(s, reading, a);
    assert ValidAcquisition(w, a);
    assert ClaimsWhatIsNew(v, w, a);
    ReadingDocuments(v, w, reading);
    AcquisitionKeepsValid(v, w, a);
  }

  lemma ReadingIsDistinct(s: Snapshot, reading: Reading, a: Acquisition)
    requires Valid(s) && reading.evidence.evidenceId !in ViewOf(s).EvidenceIds()
    requires forall b | b in ViewOf(s).acquisitions :: b.acquisitionId != a.acquisitionId && b.requestId != a.requestId
    ensures NoDuplicates(WithReading(s, reading, a)) && DistinctIds(ViewOf(WithReading(s, reading, a)))
  {
    hide ValidDocuments, ValidEvents, ValidCase, ValidWorkflow;
    FreshEvidenceIsAppended(s, reading.evidence);
    ReadingView(s, reading, a);
  }

  lemma ReadingDocuments(v: View, w: View, reading: Reading)
    requires w == v.(manifest := v.manifest.(targetIds := w.manifest.targetIds),
                     evidence := v.evidence + {reading.evidence}, acquisitions := w.acquisitions)
    ensures ValidEvidence(v, reading.evidence) <==> ValidEvidence(w, reading.evidence)
    ensures ArtifactsAgree(w) <==> ArtifactsAgree(v.(evidence := v.evidence + {reading.evidence}))
  {
  }

  /** An acquisition that claims evidence the case already had is rejected: either the opening event no longer
      references all initial documents, or another acquisition claims it too. */
  lemma ClaimedTwiceIsInvalid(v: View, w: View, a: Acquisition, id: Id)
    requires ValidView(v) && v.workflow.Some?
    requires w == v.(manifest := w.manifest, targets := w.targets, evidence := v.evidence,
                     acquisitions := v.acquisitions + {a})
    requires a !in v.acquisitions && id in a.addedEvidence && id in v.EvidenceIds()
    ensures !ValidView(w)
  {
    hide TransitionIntegrity, ValidDocuments, DistinctIds, FindingClosure, PlanClosure;
    if b :| b in v.acquisitions && id in b.addedEvidence {
      assert a in w.acquisitions && b in w.acquisitions;
      assert id in Elements(a.addedEvidence) && id in Elements(b.addedEvidence);
      assert !OneOrigin(w);
    } else {
      var first := FirstEvent(v);
      assert ValidEvent(v, first);
      assert id in InitialEvidence(v) && EvidenceRef(id) in InitialRefs(v);
      assert EvidenceRef(id) in Elements(first.refs);
      assert id in AddedEvidence(w) by {
        assert a in w.acquisitions;
      }
      assert EvidenceRef(id) !in InitialRefs(w);
      assert !ValidEvent(w, first);
    }
  }

  lemma FirstEvent(v: View) returns (first: Event)
    requires v.workflow.Some? && TransitionIntegrity(v)
    ensures first in v.events && (first.kind.CaseCreatedEvent? || first.kind.LegacyCaseAdopted?)
  {
    assert HasRevision(v.events, 1);
    first :| first in v.events && first.revision == 1;
  }

  lemma ReadingOnlyLegal(s: Snapshot, head: CommitId, r: ReadRequest, reading: Reading, env: Env)
    requires Valid(s) && s.workflow.Some? && ReadSuccessor(s, head, r, reading, env).Ok?
    ensures ReadLegal(s, head, r, reading, env)
  {
    hide TransitionIntegrity, ValidEvents, DistinctIds, ArtifactsAgree, ValidEvidence, ValidWorkflow;
    var a := AcquisitionOf(s, head, r, reading, env);
    var v := ViewOf(s);
    if reading.evidence.evidenceId in v.EvidenceIds() {
      ClaimingKnownEvidence(s, head, r, reading, env);
    }
    FreshEvidenceIsAppended(s, reading.evidence);
    ReadingView(s, reading, a);
    var w := ViewOf(WithReading(s, reading, a));
    ReadingDocuments(v, w, reading);
    assert reading.evidence in w.evidence && a in w.acquisitions;
    assert reading.targetId in Elements([reading.targetId]);
    SameTargets(v, w);
  }

  lemma SameTargets(v: View, w: View)
    requires v.targets == w.targets
    ensures v.TargetIds() == w.TargetIds()
  {
  }

  lemma ClaimingKnownEvidence(s: Snapshot, head: CommitId, r: ReadRequest, reading: Reading, env: Env)
    requires Valid(s) && s.workflow.Some? && reading.evidence.evidenceId in ViewOf(s).EvidenceIds()
    ensures ReadSuccessor(s, head, r, reading, env).Err?
  {
    hide ValidView, NoDuplicates;
    var a := AcquisitionOf(s, head, r, reading, env);
    if ReadSuccessor(s, head, r, reading, env).Ok? {
      var next := ReadSuccessor(s, head, r, reading, env).value;
      assert [reading.evidence][1..] == [];
      var known :| known in ViewOf(s).evidence && known.evidenceId == reading.evidence.evidenceId;
      assert known in s.evidence;
      assert MergeById(s.evidence, [reading.evidence][1..], EvidenceKey) == Some(s.evidence);
      assert next.evidence == s.evidence;
      ElementsOfSum(s.acquisitions, [a]);
      assert a !in s.acquisitions;
      ClaimedTwiceIsInvalid(ViewOf(s), ViewOf(next), a, reading.evidence.evidenceId);
    }
  }

  /** A reading is appended exactly when its evidence is new and its documents are valid. */
  lemma ReadAcceptance(s: Snapshot, head: CommitId, r: ReadRequest, reading: Reading, env: Env)
    requires Valid(s) && s.workflow.Some?
    ensures ReadSuccessor(s, head, r, reading, env).Ok? <==> ReadLegal(s, head, r, reading, env)
  {
    if ReadLegal(s, head, r, reading, env) {
      ReadingAccepted(s, head, r, reading, env);
    } else if ReadSuccessor(s, head, r, reading, env).Ok? {
      ReadingOnlyLegal(s, head, r, reading, env);
    }
  }

  // ---------------------------------------------------------------- consultations

  function AppendConsultation(s: Snapshot, c: Consultation): Result<Snapshot> {
    if exists d :: d in s.consultations && (d.consultationId == c.consultationId || d.requestId == c.requestId) then
      Err(InvalidArgument)
    else if !ValidConsultation(ViewOf(s), c) then Err(InvalidArgument)
    else Accept(s.(consultations := s.consultations + [c]))
  }

  predicate ConsultationLegal(s: Snapshot, c: Consultation) {
    && ValidConsultation(ViewOf(s), c)
    && (forall d | d in s.consultations :: d.consultationId != c.consultationId && d.requestId != c.requestId)
  }

  /** A consultation is appended exactly when it is valid and its ids are new. */
  lemma ConsultationAcceptance(s: Snapshot, c: Consultation)
    requires Valid(s) && s.workflow.Some?
    ensures AppendConsultation(s, c).Ok? <==> ConsultationLegal(s, c)
    ensures AppendConsultation(s, c).Ok? ==>
      AppendConsultation(s, c).value == s.(consultations := s.consultations + [c])
  {
    hide TransitionIntegrity, ValidEvents, ValidDocuments, ValidCase, ValidWorkflow, ValidConsultation;
    if ConsultationLegal(s, c) {
      var next := s.(consultations := s.consultations + [c]);
      var v, w := ViewOf(s), ViewOf(next);
      ElementsOfSum(s.consultations, [c]);
      assert NoDuplicates(next);
      assert w == v.(consultations := v.consultations + {c});
      assert DistinctIds(w);
      ConsultationKeepsValid(v, w, c);
    }
  }
}
