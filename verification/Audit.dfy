/** What an accepted command writes into the case, field by field. */
module Audit {
  import opened Domain
  import opened Semantics
  import opened Validation
  import opened Collections
  import opened Ordering
  import opened Commands

  /** `now` is the latest of the clock and the times the case carries. */
  predicate Latest(s: Snapshot, clock: Time, now: Time) {
    && clock <= now && s.manifest.createdAt <= now && s.manifest.updatedAt <= now
    && (s.workflow.Some? ==> s.workflow.value.updatedAt <= now)
    && (now == clock || now == s.manifest.createdAt || now == s.manifest.updatedAt
        || (s.workflow.Some? && now == s.workflow.value.updatedAt))
  }

  /** The revision after the stored one; the first is 1. */
  predicate Succeeds(s: Snapshot, revision: nat) {
    match s.workflow
    case None => revision == 1
    case Some(w) => revision == w.revision + 1
  }

  /** `next` has one more event than `s`, and the workflow state the event leads to. */
  predicate Writes(s: Snapshot, next: Snapshot, env: Env, kind: EventType, actor: Actor, from: Option<WorkflowName>,
                   to: WorkflowName, expected: Option<CommitId>, reason: Code, command: Option<Code>, plan: Option<Id>,
                   failure: Option<Failure>)
  {
    && |next.events| == |s.events| + 1 && next.events[..|s.events|] == s.events
    && next.workflow.Some?
    && var e, w := next.events[|s.events|], next.workflow.value;
    && e.eventId == env.id && e.caseId == s.manifest.caseId && e.kind == kind && e.actor == actor
    && e.previous == from && e.next == Some(to) && e.expectedCommit == expected
    && e.reason == reason && e.command == command
    && Succeeds(s, e.revision) && Latest(s, env.clock, e.occurredAt)
    && w.caseId == s.manifest.caseId && w.state == to && w.revision == e.revision && w.updatedAt == e.occurredAt
    && w.lastTransition == env.id && w.activePlan == plan && w.activeExecution.None? && w.failure == failure
    && next.manifest == s.manifest.(updatedAt := e.occurredAt, currentState := CaseStateFor(to))
  }

  /** Nothing but the event log, the workflow state, the manifest's time and state, findings and plans differ. */
  predicate SameElsewhere(s: Snapshot, next: Snapshot) {
    && next.targets == s.targets && next.evidence == s.evidence && next.executions == s.executions
    && next.verifications == s.verifications && next.acquisitions == s.acquisitions
    && next.consultations == s.consultations
  }

  lemma TransitionWrites(s: Snapshot, more: Snapshot, e: Event, to: WorkflowName, failure: Option<Failure>,
                         plan: Option<Id>, env: Env, refs: seq<DocId>)
    requires more == s.(findings := more.findings, plans := more.plans)
    requires e.eventId == env.id && e.caseId == s.manifest.caseId && e.next == Some(to) && Succeeds(s, e.revision)
    requires e.refs == [] && Valid(Transitioned(more, e, to, failure, plan, env.clock, refs))
    ensures var next := Transitioned(more, e, to, failure, plan, env.clock, refs);
      && Writes(s, next, env, e.kind, e.actor, e.previous, to, e.expectedCommit, e.reason, e.command, plan, failure)
      && SameElsewhere(s, next) && next.findings == more.findings && next.plans == more.plans
  {
    hide Valid, Stamp;
    AcceptedEventIsFresh(more, e, to, failure, plan, env.clock, refs);
    TransitionedView(more, e, to, failure, plan, env.clock, refs);
  }

  /** The end of a case: the failure keeps reason and detail code, the event reason and command code. */
  lemma EndIsRecorded(s: Snapshot, head: CommitId, k: Ending, r: TerminalRequest, env: Env)
    requires s.workflow.Some? && TerminalSuccessor(s, head, k, r, env).Ok?
    ensures var next := TerminalSuccessor(s, head, k, r, env).value;
      && SameElsewhere(s, next) && next.findings == s.findings && next.plans == s.plans
      && var w := s.workflow.value;
      && var actor := if r.actor.Some? then r.actor.value else Technician;
      && (k.Failing? ==>
            var reason := if r.reason.Some? then r.reason.value else FAILED_REASON;
            Writes(s, next, env, CaseFailedEvent, actor, Some(w.state), Failed, Some(head), reason, r.command,
                   w.activePlan, Some(Failure(reason, r.detail))))
      && (k.Cancelling? ==>
            var reason := if r.reason.Some? then r.reason.value else CANCELLED_REASON;
            Writes(s, next, env, CaseCancelledEvent, actor, Some(w.state), Cancelled, Some(head), reason, r.command,
                   w.activePlan, None))
  {
    hide Valid, Transitioned, TerminalRefs, Writes;
    TransitionWrites(s, s, TerminalEvent(s, head, k, r, env), k.State(), k.FailureOf(r), ActivePlan(s), env,
                     TerminalRefs(s));
  }

  /** Every finding of the request is stored, under this case unless it names one, beside those there were. */
  predicate FindingsStored(s: Snapshot, next: Snapshot, drafts: seq<FindingDraft>) {
    && s.findings <= next.findings
    && (forall d | d in drafts && d.caseGiven :: d.finding in next.findings)
    && (forall d | d in drafts && !d.caseGiven :: d.finding.(caseId := s.manifest.caseId) in next.findings)
    && (forall f | f in next.findings && f !in s.findings :: exists d | d in drafts ::
          f == if d.caseGiven then d.finding else d.finding.(caseId := s.manifest.caseId))
  }

  lemma FilledAreStored(s: Snapshot, next: Snapshot, drafts: seq<FindingDraft>)
    requires s.findings <= next.findings
    requires Elements(next.findings) == Elements(s.findings) + Elements(FillAll(s.manifest.caseId, drafts))
    ensures FindingsStored(s, next, drafts)
  {
    var filled := FillAll(s.manifest.caseId, drafts);
    forall d | d in drafts ensures Fill(s.manifest.caseId, d) in next.findings {
      var i :| 0 <= i < |drafts| && drafts[i] == d;
      assert filled[i] in Elements(filled);
      assert filled[i] in Elements(next.findings);
    }
    forall f | f in next.findings && f !in s.findings
      ensures exists d | d in drafts :: f == Fill(s.manifest.caseId, d)
    {
      assert f in Elements(next.findings) && f !in Elements(s.findings);
      var i :| 0 <= i < |filled| && filled[i] == f;
      assert drafts[i] in drafts;
    }
  }

  lemma AnalysisIsRecorded(s: Snapshot, head: CommitId, r: AnalysisRequest, env: Env)
    requires Valid(s) && s.workflow.Some? && AnalysisSuccessor(s, head, r, env).Ok?
    ensures var next := AnalysisSuccessor(s, head, r, env).value;
      && SameElsewhere(s, next) && FindingsStored(s, next, r.findings) && next.plans == s.plans
      && var w := s.workflow.value;
      Writes(s, next, env, AnalysisCommitted, if r.actor.Some? then r.actor.value else DeterministicAnalyzer,
             Some(w.state), Analyzed, Some(head), if r.reason.Some? then r.reason.value else ANALYSIS_REASON, r.command,
             w.activePlan, None)
  {
    hide Valid, Transitioned, AnalysisRefs, Writes, MergeById, FillAll, FindingsStored;
    var filled := FillAll(s.manifest.caseId, r.findings);
    DistinctOnIds(s);
    MergeAppends(s.findings, filled, FindingKey);
    var more := s.(findings := MergeById(s.findings, filled, FindingKey).value);
    TransitionWrites(s, more, AnalysisEvent(s, head, r, env), Analyzed, None, ActivePlan(s), env,
                     AnalysisRefs(s.manifest.caseId, filled));
    FilledAreStored(s, AnalysisSuccessor(s, head, r, env).value, r.findings);
  }

  /** The plan of the request is the only one, under this case unless it names one, and the active one. */
  lemma PlanIsRecorded(s: Snapshot, head: CommitId, r: PlanRequest, env: Env)
    requires Valid(s) && s.workflow.Some? && PlanSuccessor(s, head, r, env).Ok?
    ensures var next := PlanSuccessor(s, head, r, env).value;
      && SameElsewhere(s, next) && next.findings == s.findings
      && next.plans == [if r.caseGiven then r.plan else r.plan.(caseId := s.manifest.caseId)]
      && Writes(s, next, env, PlanCommitted, if r.actor.Some? then r.actor.value else System,
                Some(s.workflow.value.state), PlanProposed, Some(head),
                if r.reason.Some? then r.reason.value else PLAN_REASON, r.command, Some(r.plan.planId), None)
  {
    hide Valid, Transitioned, PlanRefs, Writes;
    var p := FillPlan(s.manifest.caseId, r);
    NoPlansYet(s, p);
    TransitionWrites(s, s.(plans := [p]), PlanEvent(s, head, r, env), PlanProposed, None, Some(p.planId), env,
                     PlanRefs(s.manifest.caseId, p));
  }

  lemma AdoptionIsRecorded(s: Snapshot, head: CommitId, r: OpeningRequest, env: Env)
    requires AdoptSuccessor(s, head, r, env).Ok?
    ensures var next := AdoptSuccessor(s, head, r, env).value;
      && SameElsewhere(s, next) && s.events == [] && next.findings == [] && next.plans == []
      && Writes(s, next, env, LegacyCaseAdopted, if r.actor.Some? then r.actor.value else System, None,
                EvidenceCollected, Some(head), if r.reason.Some? then r.reason.value else ADOPTED_REASON, r.command,
                None, None)
  {
    hide Valid, Transitioned, CreateRefs, Writes;
    TransitionWrites(s, s, OpeningEvent(s, LegacyCaseAdopted, None, Some(head), ADOPTED_REASON, r, env),
                     EvidenceCollected, None, None, env, CreateRefs(s));
  }

  /** A created case holds the imported documents and its opening event, and nothing else. */
  lemma CreationIsRecorded(i: Import, r: OpeningRequest, env: Env)
    requires CreateSuccessor(i, r, env).Ok?
    ensures var next := CreateSuccessor(i, r, env).value;
      && var empty := Snapshot(i.manifest, i.targets, i.evidence, [], [], [], [], None, [], [], []);
      && SameElsewhere(empty, next) && next.findings == [] && next.plans == []
      && Writes(empty, next, env, CaseCreatedEvent, if r.actor.Some? then r.actor.value else System, Some(Created),
                EvidenceCollected, None, if r.reason.Some? then r.reason.value else IMPORT_REASON, r.command, None,
                None)
  {
    hide Valid, Transitioned, CreateRefs, Writes;
    var s := SnapshotOfImport(i);
    TransitionWrites(s, s, OpeningEvent(s, CaseCreatedEvent, Some(Created), None, IMPORT_REASON, r, env),
                     EvidenceCollected, None, None, env, CreateRefs(s));
  }

  /** A reading adds its evidence and one acquisition made on the head; the list of target ids is put in order. */
  lemma ReadingIsRecorded(s: Snapshot, head: CommitId, r: ReadRequest, reading: Reading, env: Env)
    requires Valid(s) && s.workflow.Some? && ReadSuccessor(s, head, r, reading, env).Ok?
    ensures var next := ReadSuccessor(s, head, r, reading, env).value;
      && |next.acquisitions| == |s.acquisitions| + 1
      && var a := next.acquisitions[|s.acquisitions|];
      && next == s.(evidence := s.evidence + [reading.evidence], acquisitions := s.acquisitions + [a],
                    manifest := s.manifest.(targetIds := next.manifest.targetIds))
      && Elements(next.manifest.targetIds) == ViewOf(s).TargetIds()
      && a.acquisitionId == env.id && a.caseId == s.manifest.caseId && a.requestId == r.requestId
      && a.sourceCommit == head && a.actor == (if r.actor.Some? then r.actor.value else System)
      && a.targetIds == [reading.targetId] && multiset(a.inputEvidence) == multiset(reading.inputs)
      && (forall i, j | 0 <= i < j < |a.inputEvidence| :: a.inputEvidence[i] <= a.inputEvidence[j])
      && a.addedTargets == [] && a.addedEvidence == [reading.evidence.evidenceId]
      && a.parameters == Digest(r.canonical) && a.fields == reading.fields
  {
    hide Valid, ReadSuccessor, SortedIds, IdsOfTargets;
    ReadAcceptance(s, head, r, reading, env);
    ReadingAccepted(s, head, r, reading, env);
    TargetIdsOf(s);
    SortedIdsKept(reading.inputs);
  }

  lemma SortedIdsKept(ids: seq<Id>)
    ensures multiset(SortedIds(ids)) == multiset(ids)
    ensures forall i, j | 0 <= i < j < |SortedIds(ids)| :: SortedIds(ids)[i] <= SortedIds(ids)[j]
  {
    SortOnSorts(ids, IdKey);
    var sorted := SortedIds(ids);
    forall i, j | 0 <= i < j < |sorted| ensures sorted[i] <= sorted[j] {
      assert !Before(IdKey(sorted[j]), IdKey(sorted[i]));
    }
  }
}
