/** The coordinator's commands, step by step over a case directory, each proved against its specification. */
module Coordinators {
  import opened Domain
  import opened Semantics
  import opened Validation
  import opened Collections
  import opened History
  import opened Publication
  import opened Validator
  import opened Store
  import opened Recovery
  import opened Commands
  import opened Evolution
  import opened Drafts

  // ---------------------------------------------------------------- replays

  datatype Replay<T> = NoReplay | Replayed(stored: T) | Conflicting

  /** An acquisition request id that is taken is a replay of the identical request, or a conflict. */
  function AcquisitionReplay(s: Snapshot, r: ReadRequest): Replay<Acquisition> {
    match FirstWith(s.acquisitions, RequestKey, r.requestId)
    case None => NoReplay
    case Some(a) => if a.parameters == Digest(r.canonical) then Replayed(a) else Conflicting
  }

  function RequestKey(a: Acquisition): Id { a.requestId }

  /** A consultation as it is compared with earlier ones: its time does not count. */
  function Identity(c: Consultation): Consultation {
    c.(generatedAt := 0)
  }

  predicate SameSlot(c: Consultation, d: Consultation) {
    c.requestId == d.requestId || c.consultationId == d.consultationId
  }

  function ConsultationReplay(consultations: seq<Consultation>, c: Consultation): Replay<Consultation> {
    if consultations == [] then NoReplay
    else if !SameSlot(consultations[0], c) then ConsultationReplay(consultations[1..], c)
    else if Identity(consultations[0]) == Identity(c) then Replayed(consultations[0])
    else Conflicting
  }

  /** `sourceGiven` tells whether the caller named the source commit; if not, the coordinator fills in the head. */
  datatype ConsultRequest = ConsultRequest(
    requestId: Id, expected: Option<CommitId>, actor: Option<Actor>, sourceGiven: bool, consultation: Consultation)

  function FillConsultation(r: ConsultRequest, head: CommitId): Consultation {
    if r.sourceGiven then r.consultation else r.consultation.(sourceCommit := head)
  }

  predicate AcquisitionActor(a: Option<Actor>) {
    OrElse(a, Actor.System) == Actor.System || OrElse(a, Actor.System) == Technician
  }

  predicate ConsultationActor(a: Option<Actor>) {
    AcquisitionActor(a) || OrElse(a, Actor.System) == LlmAdvisor
  }

  // ---------------------------------------------------------------- what a command hands to the store

  /** Coordinators never supply artifact bytes: all blobs of a successor are those of its head. */
  function RequestFor(next: Snapshot, expected: CommitId): Request {
    Request(next, map[], CaseSnapshotReason, ExpectCommit(expected))
  }

  function ResultOf(o: Outcome): Result<CommitRecord> {
    match o
    case Committed(record, _) => Ok(record)
    case Refused(e) => Err(e)
    case Stopped => Err(Interrupted)
    case UnknownOutcome(_) => Err(OutcomeUnknown)
  }

  /** A refused lock, told as a conflict where the head is no longer the expected commit. */
  function BusyError(past: Option<Log>, expected: CommitId): Error {
    if past.Some? && past.value != [] && past.value[|past.value| - 1].record.commitId != expected then RevisionConflict
    else CaseBusy
  }

  /** `next` was handed to the store with the head it was built on as the expected parent. */
  ghost predicate HandedOver(before: Disk, after: Disk, caseId: Id, past: Option<Log>, wasLocked: bool, next: Snapshot,
                             expected: CommitId, now: Time, outcome: Outcome, r: Result<CommitRecord>)
  {
    if !Valid(next) then outcome == Refused(InvalidArgument) && r == ResultOf(outcome) && after == before
    else if wasLocked then
      outcome == Refused(CaseBusy) && after == before && r == Err(BusyError(past, expected))
    else
      r == ResultOf(outcome) && CommitEffect(before, after, caseId, past, RequestFor(next, expected), now, outcome)
  }

  /** A command's effect: its refusal with nothing changed, or the hand-over of what it built. */
  ghost predicate Finished(built: Result<Snapshot>, before: Disk, after: Disk, caseId: Id, past: Option<Log>,
                           wasLocked: bool, head: CommitId, now: Time, outcome: Outcome, r: Result<CommitRecord>)
  {
    match built
    case Err(e) => r == Err(e) && after == before
    case Ok(next) => HandedOver(before, after, caseId, past, wasLocked, next, head, now, outcome, r)
  }

  /** The effect of a creation: a refusal with nothing changed, or a create-only commit of the opened import. */
  ghost predicate CreationFinished(built: Result<Snapshot>, provider: map<Id, Blob>, before: Disk, after: Disk,
                                   caseId: Id, past: Option<Log>, wasLocked: bool, now: Time, outcome: Outcome,
                                   r: Result<CommitRecord>)
  {
    match built
    case Err(e) => r == Err(e) && after == before
    case Ok(next) =>
      if wasLocked then r == Err(CaseBusy) && after == before
      else
        && r == ResultOf(outcome)
        && CommitEffect(before, after, caseId, past, Request(next, provider, LegacyImport, AbsentParent), now, outcome)
  }

  lemma SuccessorKeepsCase(head: Entry, c: Command)
    requires Valid(head.snapshot)
    ensures var r := SuccessorOf(head.snapshot, head.record.commitId, c);
      r.Ok? ==> r.value.manifest.caseId == head.snapshot.manifest.caseId && Valid(r.value)
  {
    hide Valid, SuccessorOf, OneOriginStep;
    if SuccessorOf(head.snapshot, head.record.commitId, c).Ok? {
      CommandEvolves(head.snapshot, head.record.commitId, c);
    }
  }

  /** The chain is whole, not empty, and every commit of it is sound. */
  ghost predicate SoundCase(d: Disk, caseId: Id) {
    exists chain :: chain != [] && AllSound(d, caseId, chain)
  }

  /** Whole and without a commit. */
  ghost predicate EmptyCase(d: Disk, caseId: Id) {
    AllSound(d, caseId, [])
  }

  lemma SoundPast(d: Disk, caseId: Id, chain: seq<CommitRecord>)
    requires AllSound(d, caseId, chain)
    ensures HistoryOf(d, caseId).Some?
    ensures var log := HistoryOf(d, caseId).value;
      (log != [] <==> SoundCase(d, caseId)) && (log == [] <==> EmptyCase(d, caseId))
      && (log != [] ==> Valid(log[|log| - 1].snapshot))
  {
    hide Valid, LoadAt, AllSound, HasHistory;
    SoundHasHistory(d, caseId, chain);
    var log := HistoryOf(d, caseId).value;
    if EmptyCase(d, caseId) {
      SoundHasHistory(d, caseId, []);
    }
    if log != [] {
      assert chain != [];
      EntryIsCommitted(d, caseId, log, |log| - 1);
    } else if SoundCase(d, caseId) {
      var other :| other != [] && AllSound(d, caseId, other);
      SoundHasHistory(d, caseId, other);
      assert false;
    }
  }

  class Coordinator {
    const store: CaseDirectory

    constructor (directory: CaseDirectory)
      ensures store == directory
    {
      store := directory;
    }

    /** Verify, then load the head. */
    method LoadLatestVerified() returns (r: Result<Entry>)
      ensures r.Ok? ==> store.Past().Some? && store.Past().value != []
                        && r.value == store.Past().value[|store.Past().value| - 1]
      ensures r.Ok? ==> Valid(r.value.snapshot)
      ensures r.Ok? <==> store.present && SoundCase(store.Files(), store.caseId)
      ensures r.Err? ==>
        r.error == if store.present && EmptyCase(store.Files(), store.caseId) then CaseNotFound else CaseCorrupt
    {
      hide Valid, AllSound, HasHistory, HistoryOf, Tidy;
      var report, prefix := Verify(store);
      if report.status.Corrupt? { return Err(CaseCorrupt); }
      SoundPast(store.Files(), store.caseId, prefix);
      r := store.LoadLatest();
    }

    /** The head, if it is the commit the caller expects. */
    method LoadExpected(expected: Option<CommitId>) returns (r: Result<Entry>)
      ensures expected.Some? && store.present && SoundCase(store.Files(), store.caseId) ==>
                && store.Past().Some? && store.Past().value != []
                && var head := store.Past().value[|store.Past().value| - 1];
                   r == if head.record.commitId == expected.value then Ok(head) else Err(RevisionConflict)
      ensures expected.Some? && !(store.present && SoundCase(store.Files(), store.caseId)) ==>
                r == Err(if store.present && EmptyCase(store.Files(), store.caseId) then CaseNotFound else CaseCorrupt)
      ensures r.Ok? ==> expected == Some(r.value.record.commitId) && store.Past().Some? && store.Past().value != []
                        && r.value == store.Past().value[|store.Past().value| - 1] && Valid(r.value.snapshot)
      ensures expected.None? ==> r == Err(InvalidArgument)
    {
      hide Valid, AllSound, HasHistory;
      if expected.None? { return Err(InvalidArgument); }
      r := LoadLatestVerified();
      if r.Ok? && r.value.record.commitId != expected.value {
        return Err(RevisionConflict);
      }
    }

    /** A refused lock is reported as a conflict if the head has moved meanwhile. */
    method MapStoreWriteError(e: Error, expected: CommitId) returns (mapped: Error)
      ensures mapped == if e == CaseBusy then BusyError(store.Past(), expected) else e
    {
      hide LoadAt, HasHistory, HistoryOf, AllSound;
      mapped := e;
      if e == CaseBusy {
        var latest := store.LoadLatest();
        if latest.Ok? && latest.value.record.commitId != expected {
          mapped := RevisionConflict;
        }
      }
    }

    /** Publish a successor with the head it was built on as the expected parent. */
    method CommitSnapshot(next: Snapshot, expected: CommitId, now: Time, draws: seq<nat>)
      returns (r: Result<CommitRecord>, ghost outcome: Outcome)
      requires next.manifest.caseId == store.caseId
      modifies store
      ensures HandedOver(old(store.Files()), store.Files(), store.caseId, old(store.Past()), old(store.locked), next,
                         expected, now, outcome, r)
      ensures store.locked == old(store.locked)
    {
      hide Valid, CommitEffect, Durability, Material, Decide;
      var o := store.Commit(RequestFor(next, expected), now, draws);
      outcome := o;
      r := ResultOf(o);
      if r.Err? {
        var mapped := MapStoreWriteError(r.error, expected);
        if store.locked { r := Err(mapped); }
      }
    }

    /** What a command built is published, or its refusal returned. */
    method Finish(built: Result<Snapshot>, head: Entry, now: Time, draws: seq<nat>)
      returns (r: Result<CommitRecord>, ghost outcome: Outcome)
      requires built.Ok? ==> built.value.manifest.caseId == store.caseId
      modifies store
      ensures Finished(built, old(store.Files()), store.Files(), store.caseId, old(store.Past()), old(store.locked),
                       head.record.commitId, now, outcome, r)
    {
      match built {
        case Err(e) => r, outcome := Err(e), Refused(e);
        case Ok(next) => r, outcome := CommitSnapshot(next, head.record.commitId, now, draws);
      }
    }

    // -------------------------------------------------------------- workflow commands

    method BuildAnalysis(head: Entry, req: AnalysisRequest, env: Env) returns (r: Result<Snapshot>)
      ensures r == AnalysisSuccessor(head.snapshot, head.record.commitId, req, env)
    {
      hide Valid, Stamp, AnalysisRefs, MergeById;
      var s := head.snapshot;
      var actor := OrElse(req.actor, DeterministicAnalyzer);
      var reason := OrElse(req.reason, ANALYSIS_REASON);
      var from := CurrentState(s);
      var refused := TransitionError(from, Analyzed, actor, |req.findings|, |s.plans|);
      if refused.Some? { return Err(refused.value); }
      var next := new Draft(s);
      var filled: seq<Finding> := [];
      for i := 0 to |req.findings|
        invariant filled == FillAll(s.manifest.caseId, req.findings)[..i]
      {
        var f := req.findings[i].finding;
        if !req.findings[i].caseGiven {
          f := f.(caseId := s.manifest.caseId);
        }
        filled := filled + [f];
      }
      assert filled == FillAll(s.manifest.caseId, req.findings);
      var merged := MergeFindings(s.findings, filled);
      if merged.None? { return Err(InvalidArgument); }
      next.s := next.s.(findings := merged.value);
      var revision := NextRevision(s);
      var event := NewEvent(s.manifest.caseId, EventType.AnalysisCommitted, actor, from, Analyzed,
                            Some(head.record.commitId),
                            reason, req.command, revision, env);
      next.AppendEvent(event);
      var activePlan := if next.s.workflow.Some? then next.s.workflow.value.activePlan else None;
      next.SetWorkflow(Analyzed, event.eventId, revision, None, activePlan, env.clock);
      var refs := CollectAnalysisRefs(s.manifest.caseId, filled);
      next.StampAuditEvent(event.eventId, refs, next.s.manifest.updatedAt);
      var valid := Validate(next.s);
      return if valid then Ok(next.s) else Err(InvalidArgument);
    }

    /** `CommitAnalysis` on the head `LoadExpected` returned; others may have committed since. */
    method CommitAnalysis(head: Entry, req: AnalysisRequest, env: Env, now: Time, draws: seq<nat>)
      returns (r: Result<CommitRecord>, ghost outcome: Outcome)
      requires head.snapshot.manifest.caseId == store.caseId && Valid(head.snapshot)
      modifies store
      ensures Finished(SuccessorOf(head.snapshot, head.record.commitId, Analyze(req, env)), old(store.Files()),
                       store.Files(), store.caseId, old(store.Past()), old(store.locked), head.record.commitId, now,
                       outcome, r)
    {
      hide Valid, Finished, AnalysisSuccessor, Evolves;
      var built := BuildAnalysis(head, req, env);
      SuccessorKeepsCase(head, Analyze(req, env));
      r, outcome := Finish(built, head, now, draws);
    }

    method BuildPlan(head: Entry, req: PlanRequest, env: Env) returns (r: Result<Snapshot>)
      ensures r == PlanSuccessor(head.snapshot, head.record.commitId, req, env)
    {
      hide Valid, Stamp, PlanRefs, MergePlan;
      var s := head.snapshot;
      var actor := OrElse(req.actor, Actor.System);
      var reason := OrElse(req.reason, PLAN_REASON);
      var from := CurrentState(s);
      var plan := req.plan;
      if !req.caseGiven {
        plan := plan.(caseId := s.manifest.caseId);
      }
      if plan.caseId != s.manifest.caseId || !plan.status.Draft? || plan.findingRefs == [] || plan.stepTargets == [] {
        return Err(InvalidArgument);
      }
      var next := new Draft(s);
      var merged := MergePlansImmutable(s.plans, plan);
      if merged.None? { return Err(InvalidArgument); }
      next.s := next.s.(plans := merged.value);
      var refused := TransitionError(from, PlanProposed, actor, |s.findings|, |next.s.plans|);
      if refused.Some? { return Err(refused.value); }
      var revision := NextRevision(s);
      var event := NewEvent(s.manifest.caseId, EventType.PlanCommitted, actor, from, PlanProposed,
                            Some(head.record.commitId), reason, req.command, revision, env);
      next.AppendEvent(event);
      next.SetWorkflow(PlanProposed, event.eventId, revision, None, Some(plan.planId), env.clock);
      var refs := CollectPlanRefs(s.manifest.caseId, plan);
      next.StampAuditEvent(event.eventId, refs, next.s.manifest.updatedAt);
      var valid := Validate(next.s);
      return if valid then Ok(next.s) else Err(InvalidArgument);
    }

    method CommitPlan(head: Entry, req: PlanRequest, env: Env, now: Time, draws: seq<nat>)
      returns (r: Result<CommitRecord>, ghost outcome: Outcome)
      requires head.snapshot.manifest.caseId == store.caseId && Valid(head.snapshot)
      modifies store
      ensures Finished(SuccessorOf(head.snapshot, head.record.commitId, Propose(req, env)), old(store.Files()),
                       store.Files(), store.caseId, old(store.Past()), old(store.locked), head.record.commitId, now,
                       outcome, r)
    {
      hide Valid, Finished, PlanSuccessor, Evolves;
      var built := BuildPlan(head, req, env);
      SuccessorKeepsCase(head, Propose(req, env));
      r, outcome := Finish(built, head, now, draws);
    }

    /** The common body of `FailCase` and `CancelCase`. */
    method BuildEnding(head: Entry, k: Ending, req: TerminalRequest, env: Env) returns (r: Result<Snapshot>)
      ensures r == TerminalSuccessor(head.snapshot, head.record.commitId, k, req, env)
    {
      hide Valid, Stamp;
      var s := head.snapshot;
      var actor := OrElse(req.actor, Technician);
      var reason := k.Reason(req);
      var from := CurrentState(s);
      var refused := TransitionError(from, k.State(), actor, |s.findings|, |s.plans|);
      if refused.Some? { return Err(refused.value); }
      var next := new Draft(s);
      var revision := NextRevision(s);
      var event := NewEvent(s.manifest.caseId, k.Kind(), actor, from, k.State(), Some(head.record.commitId), reason,
                            req.command, revision, env);
      next.AppendEvent(event);
      var failure := if k.Failing? then Some(Failure(reason, req.detail)) else None;
      var activePlan := if next.s.workflow.Some? then next.s.workflow.value.activePlan else None;
      next.SetWorkflow(k.State(), event.eventId, revision, failure, activePlan, env.clock);
      var refs := [CaseRef(next.s.manifest.caseId), WorkflowRef];
      if next.s.workflow.Some? && next.s.workflow.value.activePlan.Some? {
        refs := refs + [PlanRef(next.s.workflow.value.activePlan.value)];
      }
      assert refs == [CaseRef(s.manifest.caseId), WorkflowRef]
                     + (if ActivePlan(s).Some? then [PlanRef(ActivePlan(s).value)] else []);
      refs := CollectUniqueRefs(refs);
      next.StampAuditEvent(event.eventId, refs, next.s.manifest.updatedAt);
      var valid := Validate(next.s);
      return if valid then Ok(next.s) else Err(InvalidArgument);
    }

    /** `FailCase` and `CancelCase`. */
    method EndCase(head: Entry, k: Ending, req: TerminalRequest, env: Env, now: Time, draws: seq<nat>)
      returns (r: Result<CommitRecord>, ghost outcome: Outcome)
      requires head.snapshot.manifest.caseId == store.caseId && Valid(head.snapshot)
      modifies store
      ensures Finished(SuccessorOf(head.snapshot, head.record.commitId, End(k, req, env)), old(store.Files()),
                       store.Files(), store.caseId, old(store.Past()), old(store.locked), head.record.commitId, now,
                       outcome, r)
    {
      hide Valid, Finished, TerminalSuccessor, Evolves;
      var built := BuildEnding(head, k, req, env);
      SuccessorKeepsCase(head, End(k, req, env));
      r, outcome := Finish(built, head, now, draws);
    }

    /** The first event and workflow state of a case, on an imported or a legacy snapshot. */
    method Open(s: Snapshot, event: Event, clock: Time) returns (next: Snapshot)
      requires event.revision == 1
      ensures next == Opened(s, event, clock)
    {
      hide Stamp, CreateRefs;
      var draft := new Draft(s);
      draft.AppendEvent(event);
      draft.SetWorkflow(EvidenceCollected, event.eventId, event.revision, None, None, clock);
      SameCreateRefs(s, draft.s);
      var refs := CollectCreateRefs(draft.s);
      draft.StampAuditEvent(event.eventId, refs, draft.s.manifest.updatedAt);
      next := draft.s;
    }

    method AdoptLegacyCase(head: Entry, req: OpeningRequest, env: Env, now: Time, draws: seq<nat>)
      returns (r: Result<CommitRecord>, ghost outcome: Outcome)
      requires head.snapshot.manifest.caseId == store.caseId && Valid(head.snapshot)
      modifies store
      ensures Finished(SuccessorOf(head.snapshot, head.record.commitId, Adopt(req, env)), old(store.Files()),
                       store.Files(), store.caseId, old(store.Past()), old(store.locked), head.record.commitId, now,
                       outcome, r)
    {
      hide Valid, Finished, Opened, Evolves;
      var s := head.snapshot;
      var built;
      if s.workflow.Some? || s.events != [] || s.findings != [] || s.plans != [] || s.executions != []
         || s.verifications != [] || s.targets == [] || s.evidence == [] || !s.manifest.currentState.CaseSnapshotted? {
        built := Err(AdoptionRejected);
      } else {
        var event := NewEvent(s.manifest.caseId, EventType.LegacyCaseAdopted, OrElse(req.actor, Actor.System), None,
                              EvidenceCollected, Some(head.record.commitId), OrElse(req.reason, ADOPTED_REASON),
                              req.command, 1, env);
        var next := Open(s, event, env.clock);
        var valid := Validate(next);
        built := if valid then Ok(next) else Err(InvalidArgument);
      }
      SuccessorKeepsCase(head, Adopt(req, env));
      r, outcome := Finish(built, head, now, draws);
    }

    /** `CreateCase`: create-only, and never idempotent. */
    method CreateCase(imported: Import, provider: map<Id, Blob>, req: OpeningRequest, env: Env, now: Time,
                      draws: seq<nat>)
      returns (r: Result<CommitRecord>, ghost outcome: Outcome)
      requires imported.manifest.caseId == store.caseId
      modifies store
      ensures CreationFinished(CreateSuccessor(imported, req, env), provider, old(store.Files()), store.Files(),
                               store.caseId,
                               old(store.Past()), old(store.locked), now, outcome, r)
    {
      hide Valid, Opened, CommitEffect, Durability, Material, Decide;
      outcome := Refused(InvalidArgument);
      var s := SnapshotOfImport(imported);
      var actor := OrElse(req.actor, Actor.System);
      var refused := TransitionError(Some(Created), EvidenceCollected, actor, 0, 0);
      if refused.Some? { r := Err(refused.value); return; }
      var event := NewEvent(s.manifest.caseId, EventType.CaseCreatedEvent, actor, Some(Created), EvidenceCollected,
                            None,
                            OrElse(req.reason, IMPORT_REASON), req.command, 1, env);
      var next := Open(s, event, env.clock);
      var valid := Validate(next);
      if !valid { r := Err(InvalidArgument); return; }
      OpenedKeepsCase(s, event, env.clock);
      var o := store.Commit(Request(next, provider, LegacyImport, AbsentParent), now, draws);
      outcome := o;
      r := ResultOf(o);
    }

    // -------------------------------------------------------------- acquisitions

    method FindAcquisition(s: Snapshot, requestId: Id) returns (found: Option<Acquisition>)
      ensures found == FirstWith(s.acquisitions, RequestKey, requestId)
    {
      for i := 0 to |s.acquisitions|
        invariant FirstWith(s.acquisitions, RequestKey, requestId)
                  == FirstWith(s.acquisitions[i..], RequestKey, requestId)
      {
        assert s.acquisitions[i..][1..] == s.acquisitions[i + 1..];
        if s.acquisitions[i].requestId == requestId { return Some(s.acquisitions[i]); }
      }
      found := None;
    }

    /** The head's documents with one more piece of evidence and its acquisition record. */
    method BuildReading(head: Entry, req: ReadRequest, reading: Reading, env: Env) returns (r: Result<Snapshot>)
      ensures r == ReadSuccessor(head.snapshot, head.record.commitId, req, reading, env)
    {
      hide Valid, MergeById, IdsOfTargets;
      var s := head.snapshot;
      var acquisition := AcquisitionOf(s, head.record.commitId, req, reading, env);
      var next := new Draft(s);
      NoTargetsToMerge(s);
      next.s := next.s.(manifest := next.s.manifest.(targetIds := IdsOfTargets(s.targets)));
      var merged := MergeEvidence(s.evidence, [reading.evidence]);
      if merged.None? { return Err(InvalidArgument); }
      next.s := next.s.(evidence := merged.value);
      for i := 0 to |s.acquisitions|
        invariant forall b | b in s.acquisitions[..i] ::
          b.acquisitionId != acquisition.acquisitionId && b.requestId != acquisition.requestId
      {
        assert s.acquisitions[..i + 1] == s.acquisitions[..i] + [s.acquisitions[i]];
        if s.acquisitions[i].acquisitionId == acquisition.acquisitionId
           || s.acquisitions[i].requestId == acquisition.requestId {
          assert RequestTaken(s, acquisition);
          return Err(InvalidArgument);
        }
      }
      assert s.acquisitions[..|s.acquisitions|] == s.acquisitions;
      next.s := next.s.(acquisitions := next.s.acquisitions + [acquisition]);
      var valid := Validate(next.s);
      return if valid then Ok(next.s) else Err(InvalidArgument);
    }

    /** `ExecuteReadOperation` and `ResolveWindowsBootTopology` on the head they loaded. `reading` is what the operation
        or the resolver would produce. A replay is looked up before the expected commit is compared. */
    method Acquire(head: Entry, req: ReadRequest, reading: Option<Reading>, env: Env, now: Time, draws: seq<nat>)
      returns (r: Result<CommitRecord>, replayed: Option<Acquisition>, ghost outcome: Outcome)
      requires head.snapshot.manifest.caseId == store.caseId && Valid(head.snapshot)
      modifies store
      ensures !AcquisitionActor(req.actor) ==> r == Err(ActorNotAllowed) && store.Files() == old(store.Files())
      ensures AcquisitionActor(req.actor) && !AcquisitionAllowed(head.snapshot) ==>
        r == Err(IllegalTransition) && store.Files() == old(store.Files())
      ensures AcquisitionActor(req.actor) && AcquisitionAllowed(head.snapshot) ==>
        match AcquisitionReplay(head.snapshot, req)
        case Replayed(a) => r == Ok(head.record) && replayed == Some(a) && store.Files() == old(store.Files())
        case Conflicting => r == Err(RequestConflict) && store.Files() == old(store.Files())
        case NoReplay =>
          if req.expected.None? then r == Err(InvalidArgument) && store.Files() == old(store.Files())
          else if req.expected != Some(head.record.commitId) then
            r == Err(RevisionConflict) && store.Files() == old(store.Files())
          else if reading.None? then r == Err(InvalidArgument) && store.Files() == old(store.Files())
          else
            Finished(SuccessorOf(head.snapshot, head.record.commitId, Read(req, reading.value, env)),
                     old(store.Files()), store.Files(), store.caseId, old(store.Past()), old(store.locked),
                     head.record.commitId, now, outcome, r)
      ensures replayed.Some? ==>
        AcquisitionReplay(head.snapshot, req) == Replayed(replayed.value) && r == Ok(head.record)
    {
      hide Valid, Finished, ReadSuccessor, Evolves;
      replayed, outcome := None, Refused(InvalidArgument);
      if !AcquisitionActor(req.actor) { r := Err(ActorNotAllowed); return; }
      if !AcquisitionAllowed(head.snapshot) { r := Err(IllegalTransition); return; }
      var existing := FindAcquisition(head.snapshot, req.requestId);
      if existing.Some? {
        if existing.value.parameters != Digest(req.canonical) { r := Err(RequestConflict); return; }
        r, replayed := Ok(head.record), existing;
        return;
      }
      if req.expected.None? { r := Err(InvalidArgument); return; }
      if req.expected.value != head.record.commitId { r := Err(RevisionConflict); return; }
      if reading.None? { r := Err(InvalidArgument); return; }
      var built := BuildReading(head, req, reading.value, env);
      SuccessorKeepsCase(head, Read(req, reading.value, env));
      r, outcome := Finish(built, head, now, draws);
    }

    // -------------------------------------------------------------- consultations

    method FindConsultationReplay(s: Snapshot, c: Consultation) returns (found: Replay<Consultation>)
      ensures found == ConsultationReplay(s.consultations, c)
    {
      for i := 0 to |s.consultations|
        invariant ConsultationReplay(s.consultations, c) == ConsultationReplay(s.consultations[i..], c)
      {
        var existing := s.consultations[i];
        assert s.consultations[i..][1..] == s.consultations[i + 1..];
        if existing.requestId == c.requestId || existing.consultationId == c.consultationId {
          return if Identity(existing) == Identity(c) then Replayed(existing) else Conflicting;
        }
      }
      found := NoReplay;
    }

    /** `CommitAgentConsultation` on the head it loaded. */
    method CommitAgentConsultation(head: Entry, req: ConsultRequest, now: Time, draws: seq<nat>)
      returns (r: Result<CommitRecord>, replayed: Option<Consultation>, ghost outcome: Outcome)
      requires head.snapshot.manifest.caseId == store.caseId && Valid(head.snapshot)
      modifies store
      ensures ConsultationRefusal(head.snapshot, req).Some? ==>
        r == Err(ConsultationRefusal(head.snapshot, req).value) && store.Files() == old(store.Files())
      ensures ConsultationRefusal(head.snapshot, req).None? ==>
        var c := FillConsultation(req, head.record.commitId);
        match ConsultationReplay(head.snapshot.consultations, c)
        case Replayed(stored) => r == Ok(head.record) && replayed == Some(stored) && store.Files() == old(store.Files())
        case Conflicting => r == Err(RequestConflict) && store.Files() == old(store.Files())
        case NoReplay =>
          if req.expected.None? then r == Err(InvalidArgument) && store.Files() == old(store.Files())
          else if req.expected != Some(head.record.commitId) then
            r == Err(RevisionConflict) && store.Files() == old(store.Files())
          else
            Finished(SuccessorOf(head.snapshot, head.record.commitId, Consult(c)), old(store.Files()),
                     store.Files(), store.caseId, old(store.Past()), old(store.locked), head.record.commitId,
                     now, outcome, r)
      ensures replayed.Some? ==>
        && ConsultationReplay(head.snapshot.consultations, FillConsultation(req, head.record.commitId))
           == Replayed(replayed.value)
        && r == Ok(head.record)
    {
      hide Valid, Finished, AppendConsultation, Evolves;
      replayed, outcome := None, Refused(InvalidArgument);
      if !ConsultationActor(req.actor) { r := Err(ActorNotAllowed); return; }
      if req.consultation.requestId != req.requestId || req.consultation.caseId != head.snapshot.manifest.caseId {
        r := Err(InvalidArgument);
        return;
      }
      if !ConsultationAllowed(head.snapshot) { r := Err(IllegalTransition); return; }
      var c := FillConsultation(req, head.record.commitId);
      var replay := FindConsultationReplay(head.snapshot, c);
      if replay.Conflicting? { r := Err(RequestConflict); return; }
      if replay.Replayed? {
        r, replayed := Ok(head.record), Some(replay.stored);
        return;
      }
      if req.expected.None? { r := Err(InvalidArgument); return; }
      if req.expected.value != head.record.commitId { r := Err(RevisionConflict); return; }
      SuccessorKeepsCase(head, Consult(c));
      r, outcome := Finish(AppendConsultation(head.snapshot, c), head, now, draws);
    }
  }

  /** What is checked before the replay look-up. */
  function ConsultationRefusal(s: Snapshot, req: ConsultRequest): Option<Error> {
    if !ConsultationActor(req.actor) then Some(ActorNotAllowed)
    else if req.consultation.requestId != req.requestId || req.consultation.caseId != s.manifest.caseId then
      Some(InvalidArgument)
    else if !ConsultationAllowed(s) then Some(IllegalTransition)
    else None
  }

  lemma SameCreateRefs(s: Snapshot, t: Snapshot)
    requires t.manifest.caseId == s.manifest.caseId && t.targets == s.targets && t.evidence == s.evidence
    ensures CreateRefs(t) == CreateRefs(s)
  {
    assert seq(|t.targets|, i requires 0 <= i < |t.targets| => TargetRef(t.targets[i].targetId))
        == seq(|s.targets|, i requires 0 <= i < |s.targets| => TargetRef(s.targets[i].targetId));
    assert seq(|t.evidence|, i requires 0 <= i < |t.evidence| => EvidenceRef(t.evidence[i].evidenceId))
        == seq(|s.evidence|, i requires 0 <= i < |s.evidence| => EvidenceRef(s.evidence[i].evidenceId));
  }

  lemma OpenedKeepsCase(s: Snapshot, e: Event, clock: Time)
    ensures Opened(s, e, clock).manifest.caseId == s.manifest.caseId
  {
    hide Stamp, CreateRefs;
  }

  lemma NoTargetsToMerge(s: Snapshot)
    ensures MergeById(s.targets, [], TargetKey) == Some(s.targets)
  {
  }
}
