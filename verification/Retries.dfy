/** Repeating a request: what a retry finds, and why it never appends twice. */
module Retries {
  import opened Domain
  import opened Validation
  import opened Preservation
  import opened Collections
  import opened Codec
  import opened Loading
  import opened History
  import opened Publication
  import opened Store
  import opened Commands
  import opened Evolution
  import opened Runs
  import opened Coordinators

  // ---------------------------------------------------------------- commits

  /** After an unknown outcome, with no other commit since, a retry of the same snapshot returns the same commit and
      changes nothing, unless creation only was asked for: then it is refused. */
  lemma RetryAfterUnknown(d: Disk, mid: Disk, after: Disk, caseId: Id, log: Log, req: Request, now: Time, later: Time,
                          first: Outcome, again: Outcome)
    requires HistoryOf(d, caseId) == Some(log)
    requires CommitEffect(d, mid, caseId, Some(log), req, now, first)
    requires first.UnknownOutcome? || (first.Committed? && !first.idempotent)
    requires CommitEffect(mid, after, caseId, HistoryOf(mid, caseId), req, later, again)
    ensures after == mid
    ensures !req.parent.AbsentParent? ==> again == Committed(first.record, true)
    ensures req.parent.AbsentParent? ==> again == Refused(CaseExists)
  {
    hide HasHistory, Valid, Canonical, Material, Grows, ManifestFor, LoadAt, SourcedFrom;
    ProceedHasProvenance(d, caseId, log, req);
    var longer := Appended(caseId, log, req, now);
    ProvenanceCarried(d, mid, caseId, log, longer, |log|, |longer|, req.snapshot, req.snapshot);
  }

  /** After a commit that stopped before its record, the same request is decided as before and finds its material. */
  lemma RetryAfterStop(d: Disk, mid: Disk, caseId: Id, log: Log, req: Request, now: Time, first: Outcome)
    requires HistoryOf(d, caseId) == Some(log) && Decide(d, caseId, log, req).Proceed? && Material(d, req)
    requires CommitEffect(d, mid, caseId, Some(log), req, now, first) && first.Stopped?
    ensures HistoryOf(mid, caseId) == Some(log) && Decide(mid, caseId, log, req).Proceed? && Material(mid, req)
  {
    hide HasHistory, Valid, Material, Decide, Grows;
    DecisionStands(d, mid, caseId, log, req);
  }

  // ---------------------------------------------------------------- acquisitions

  /** A recorded acquisition answers every later request under its id: the identical one with the record, any other with
      a conflict. */
  lemma AcquisitionIsRemembered(s: Snapshot, a: Acquisition, r: ReadRequest)
    requires Valid(s) && a in s.acquisitions && r.requestId == a.requestId
    ensures AcquisitionReplay(s, r) == if a.parameters == Digest(r.canonical) then Replayed(a) else Conflicting
  {
    hide ValidCase, ValidDocuments, ValidEvents, ValidWorkflow, NoDuplicates;
    var found := FirstWith(s.acquisitions, RequestKey, r.requestId);
    assert RequestKey(a) == r.requestId;
    assert a in ViewOf(s).acquisitions && found.value in ViewOf(s).acquisitions;
  }

  /** The acquisition a read command commits is found again, unchanged, at every later commit of the history. */
  lemma ReplayAtEveryLaterHead(log: Log, i: nat, j: nat, r: ReadRequest, reading: Reading, env: Env, again: ReadRequest)
    requires Coordinated(log) && 1 <= i <= j < |log|
    requires FollowsBy(log[i - 1], log[i], Read(r, reading, env))
    requires again.requestId == r.requestId
    ensures var a := AcquisitionOf(log[i - 1].snapshot, log[i - 1].record.commitId, r, reading, env);
      AcquisitionReplay(log[j].snapshot, again) == if again.canonical == r.canonical then Replayed(a) else Conflicting
  {
    hide Valid, Coordinated, AcquisitionReplay, ReadSuccessor, Canonical, Evolves, Follows, ClaimsWhatIsNew;
    var parent := log[i - 1];
    var a := AcquisitionOf(parent.snapshot, parent.record.commitId, r, reading, env);
    AllValid(log, i - 1);
    AllValid(log, j);
    NothingIsLost(log, i, j);
    ReadEvolves(parent.snapshot, parent.record.commitId, r, reading, env);
    CanonicalKeepsView(SuccessorOf(parent.snapshot, parent.record.commitId, Read(r, reading, env)).value);
    assert a in ViewAt(log, i).acquisitions;
    assert a in ViewAt(log, j).acquisitions;
    AcquisitionIsRemembered(log[j].snapshot, a, again);
  }

  // ---------------------------------------------------------------- consultations

  lemma {:induction false} FirstInSlot(consultations: seq<Consultation>, stored: Consultation, c: Consultation)
    requires stored in consultations && c.requestId == stored.requestId
    requires forall d, e | d in consultations && e in consultations && SameSlot(d, e) :: d == e
    ensures Identity(c) == Identity(stored) ==> ConsultationReplay(consultations, c) == Replayed(stored)
    ensures Identity(c) != Identity(stored) ==> ConsultationReplay(consultations, c) == Conflicting
  {
    var first := consultations[0];
    if SameSlot(first, c) {
      if Identity(first) == Identity(c) || Identity(c) == Identity(stored) {
        assert SameSlot(first, stored);
      }
    } else {
      assert first != stored;
      FirstInSlot(consultations[1..], stored, c);
    }
  }

  /** A recorded consultation answers every later one under its request id: identical up to its time, it is replayed;
      otherwise it conflicts. */
  lemma ConsultationIsRemembered(s: Snapshot, stored: Consultation, c: Consultation)
    requires Valid(s) && stored in s.consultations && c.requestId == stored.requestId
    ensures ConsultationReplay(s.consultations, c)
            == if Identity(c) == Identity(stored) then Replayed(stored) else Conflicting
  {
    hide ValidCase, ValidDocuments, ValidEvents, ValidWorkflow, NoDuplicates, ConsultationReplay, Identity;
    forall d, e | d in s.consultations && e in s.consultations && SameSlot(d, e) ensures d == e {
      assert d in ViewOf(s).consultations && e in ViewOf(s).consultations;
    }
    FirstInSlot(s.consultations, stored, c);
  }

  /** With its source commit spelled out, repeating a consultation request at any later head finds the stored record.
      Left to the coordinator, the source commit is the new head, so the very same request conflicts with itself. */
  lemma ConsultationReplayNeedsSource(d: Disk, caseId: Id, log: Log, i: nat, j: nat, r: ConsultRequest)
    requires HasHistory(d, caseId, log) && Coordinated(log) && 1 <= i <= j < |log|
    requires r.consultation.requestId == r.requestId
    requires FollowsBy(log[i - 1], log[i], Consult(FillConsultation(r, log[i - 1].record.commitId)))
    ensures var again := ConsultationReplay(log[j].snapshot.consultations, FillConsultation(r, log[j].record.commitId));
      again == if r.sourceGiven then Replayed(r.consultation) else Conflicting
  {
    hide Valid, Coordinated, ConsultationReplay, FollowsBy, HasHistory;
    var head, source := log[j].record.commitId, log[i - 1].record.commitId;
    CommitsDiffer(d, caseId, log, i - 1, j);
    AllValid(log, j);
    ConsultationStays(log, i, j, FillConsultation(r, source));
    ConsultationIsRemembered(log[j].snapshot, FillConsultation(r, source), FillConsultation(r, head));
  }

  lemma CommitsDiffer(d: Disk, caseId: Id, log: Log, i: nat, j: nat)
    requires HasHistory(d, caseId, log) && i < j < |log|
    ensures log[i].record.commitId != log[j].record.commitId
  {
    hide Valid, HasHistory, LoadAt;
    EntryIsCommitted(d, caseId, log, i);
    EntryIsCommitted(d, caseId, log, j);
  }

  lemma ConsultationStays(log: Log, i: nat, j: nat, c: Consultation)
    requires Coordinated(log) && 1 <= i <= j < |log| && FollowsBy(log[i - 1], log[i], Consult(c))
    ensures c in log[j].snapshot.consultations
  {
    hide Valid, Coordinated, Canonical, Evolves, Follows, AppendConsultation;
    var parent := log[i - 1];
    AllValid(log, i - 1);
    NothingIsLost(log, i, j);
    ConsultationAcceptance(parent.snapshot, c);
    var next := SuccessorOf(parent.snapshot, parent.record.commitId, Consult(c)).value;
    CanonicalKeepsView(next);
    assert next.consultations[|next.consultations| - 1] == c;
    assert c in ViewAt(log, i).consultations;
    assert c in ViewAt(log, j).consultations;
  }
}
