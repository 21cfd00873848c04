/** Whole histories: what holds over every chain written by coordinators, however their commands interleave. */
module Runs {
  import opened Domain
  import opened Validation
  import opened Preservation
  import opened Ordering
  import opened Codec
  import opened Loading
  import opened Chain
  import opened History
  import opened Publication
  import opened Store
  import opened Commands
  import opened Evolution
  import opened Coordinators
  import Manifests
  import Recovery

  /** `child` is the commit of command `c` on `parent`. */
  predicate FollowsBy(parent: Entry, child: Entry, c: Command) {
    var r := SuccessorOf(parent.snapshot, parent.record.commitId, c);
    r.Ok? && child.snapshot == Canonical(r.value)
  }

  ghost predicate Follows(parent: Entry, child: Entry) {
    exists c :: FollowsBy(parent, child, c)
  }

  /** The first commit is a fresh case or a legacy import: no acquisition was made yet. */
  predicate Opens(s: Snapshot) {
    Valid(s) && s.acquisitions == []
  }

  /** A history in which every commit but the first is a coordinator command on its parent. */
  ghost predicate Coordinated(log: Log) {
    && (log != [] ==> Opens(log[0].snapshot))
    && (forall i | 1 <= i < |log| :: Follows(log[i - 1], log[i]))
  }

  function ViewAt(log: Log, i: nat): View
    requires i < |log|
  {
    ViewOf(log[i].snapshot)
  }

  lemma FollowsWhen(parent: Entry, child: Entry, c: Command)
    requires FollowsBy(parent, child, c)
    ensures Follows(parent, child)
  {
  }

  lemma FollowsEvolves(parent: Entry, child: Entry)
    requires Valid(parent.snapshot) && Follows(parent, child)
    ensures Valid(child.snapshot)
    ensures Evolves(ViewOf(parent.snapshot), ViewOf(child.snapshot), parent.record.commitId)
  {
    hide Valid, Evolves, SuccessorOf, Canonical;
    var c :| FollowsBy(parent, child, c);
    var next := SuccessorOf(parent.snapshot, parent.record.commitId, c).value;
    CommandEvolves(parent.snapshot, parent.record.commitId, c);
    CanonicalStaysValid(next);
    CanonicalKeepsView(next);
  }

  /** Every commit of a coordinated history is valid. */
  lemma {:induction false} AllValid(log: Log, j: nat)
    requires Coordinated(log) && j < |log|
    ensures Valid(log[j].snapshot)
  {
    hide Valid, Follows;
    if j > 0 {
      AllValid(log, j - 1);
      FollowsEvolves(log[j - 1], log[j]);
    }
  }

  /** Append-only history: no commit loses or changes a document of any earlier one. */
  lemma {:induction false} NothingIsLost(log: Log, i: nat, j: nat)
    requires Coordinated(log) && i <= j < |log|
    ensures Keeps(ViewAt(log, i), ViewAt(log, j))
    decreases j
  {
    hide Valid, Follows, OneOriginStep;
    if i < j {
      NothingIsLost(log, i, j - 1);
      AllValid(log, j - 1);
      FollowsEvolves(log[j - 1], log[j]);
    }
  }

  // ---------------------------------------------------------------- conservation of acquired documents

  lemma StepConserves(v: View, w: View, head: CommitId)
    requires OneOriginStep(v, w, head) && ValidDocuments(v)
    ensures InitialTargets(w) == InitialTargets(v) && InitialEvidence(w) == InitialEvidence(v)
  {
    if a :| a in w.acquisitions && AcquiredOn(v, w, head, a) {
      assert AddedTargets(w) == AddedTargets(v) + Elements(a.addedTargets);
      assert AddedEvidence(w) == AddedEvidence(v) + Elements(a.addedEvidence);
      assert AddedTargets(v) <= v.TargetIds() by {
        assert forall b | b in v.acquisitions :: ValidAcquisition(v, b);
      }
      assert AddedEvidence(v) <= v.EvidenceIds() by {
        assert forall b | b in v.acquisitions :: ValidAcquisition(v, b);
      }
    }
  }

  /** What no acquisition claims is, at every commit, exactly what the first commit contained. */
  lemma {:induction false} InitialDocumentsAreConserved(log: Log, j: nat)
    requires Coordinated(log) && j < |log|
    ensures InitialTargets(ViewAt(log, j)) == ViewAt(log, 0).TargetIds()
    ensures InitialEvidence(ViewAt(log, j)) == ViewAt(log, 0).EvidenceIds()
  {
    hide Follows, OneOriginStep, Keeps, Valid;
    if j == 0 {
      assert ViewAt(log, 0).acquisitions == {};
    } else {
      InitialDocumentsAreConserved(log, j - 1);
      AllValid(log, j - 1);
      FollowsEvolves(log[j - 1], log[j]);
      ValidHasDocuments(log[j - 1].snapshot);
      StepConserves(ViewAt(log, j - 1), ViewAt(log, j), log[j - 1].record.commitId);
    }
  }

  lemma ValidHasDocuments(s: Snapshot)
    requires Valid(s)
    ensures ValidDocuments(ViewOf(s)) && (s.workflow.Some? ==> OneOrigin(ViewOf(s)))
  {
    hide ValidDocuments, ValidEvents, DistinctIds, OneOrigin, TransitionIntegrity;
  }

  predicate ClaimsEvidence(a: Acquisition, id: Id) {
    id in a.addedEvidence
  }

  /** Initial and acquired evidence partition the evidence: each piece is initial or claimed by exactly one
      acquisition. */
  lemma EvidenceIsPartitioned(log: Log, j: nat, id: Id)
    requires Coordinated(log) && j < |log| && log[j].snapshot.workflow.Some?
    requires id in ViewAt(log, j).EvidenceIds()
    ensures id !in ViewAt(log, 0).EvidenceIds() <==>
      exists a :: a in log[j].snapshot.acquisitions && ClaimsEvidence(a, id)
    ensures forall a, b | a in log[j].snapshot.acquisitions && b in log[j].snapshot.acquisitions
                          && ClaimsEvidence(a, id) && ClaimsEvidence(b, id) :: a == b
  {
    hide Valid, Follows;
    InitialDocumentsAreConserved(log, j);
    AllValid(log, j);
    ValidHasDocuments(log[j].snapshot);
    var v := ViewAt(log, j);
    if id !in ViewAt(log, 0).EvidenceIds() {
      assert id in AddedEvidence(v);
      var a :| a in v.acquisitions && id in a.addedEvidence;
      assert a in log[j].snapshot.acquisitions && ClaimsEvidence(a, id);
    } else {
      assert id !in AddedEvidence(v);
      forall a | a in log[j].snapshot.acquisitions ensures !ClaimsEvidence(a, id) {
        assert a in v.acquisitions;
      }
    }
    forall a, b | a in log[j].snapshot.acquisitions && b in log[j].snapshot.acquisitions
                  && ClaimsEvidence(a, id) && ClaimsEvidence(b, id)
      ensures a == b
    {
      assert a in v.acquisitions && b in v.acquisitions;
      assert id in Elements(a.addedEvidence) && id in Elements(b.addedEvidence);
    }
  }

  predicate ClaimsTarget(a: Acquisition, id: Id) {
    id in a.addedTargets
  }

  /** The same for targets: each is initial or claimed by exactly one acquisition. */
  lemma TargetsArePartitioned(log: Log, j: nat, id: Id)
    requires Coordinated(log) && j < |log| && log[j].snapshot.workflow.Some?
    requires id in ViewAt(log, j).TargetIds()
    ensures id !in ViewAt(log, 0).TargetIds() <==> exists a :: a in log[j].snapshot.acquisitions && ClaimsTarget(a, id)
    ensures forall a, b | a in log[j].snapshot.acquisitions && b in log[j].snapshot.acquisitions
                          && ClaimsTarget(a, id) && ClaimsTarget(b, id) :: a == b
  {
    hide Valid, Follows;
    InitialDocumentsAreConserved(log, j);
    AllValid(log, j);
    ValidHasDocuments(log[j].snapshot);
    var v := ViewAt(log, j);
    if id !in ViewAt(log, 0).TargetIds() {
      assert id in AddedTargets(v);
      var a :| a in v.acquisitions && id in a.addedTargets;
      assert a in log[j].snapshot.acquisitions && ClaimsTarget(a, id);
    } else {
      assert id !in AddedTargets(v);
      forall a | a in log[j].snapshot.acquisitions ensures !ClaimsTarget(a, id) {
        assert a in v.acquisitions;
      }
    }
    forall a, b | a in log[j].snapshot.acquisitions && b in log[j].snapshot.acquisitions
                  && ClaimsTarget(a, id) && ClaimsTarget(b, id)
      ensures a == b
    {
      assert a in v.acquisitions && b in v.acquisitions;
      assert id in Elements(a.addedTargets) && id in Elements(b.addedTargets);
    }
  }

  // ---------------------------------------------------------------- provenance of acquisitions

  /** Commit `k` is the source of `a`: the next commit is the first to contain `a` and adds exactly what `a` claims. */
  predicate OriginAt(log: Log, k: nat, a: Acquisition) {
    && k + 1 < |log|
    && a.sourceCommit == log[k].record.commitId
    && a !in log[k].snapshot.acquisitions && a in log[k + 1].snapshot.acquisitions
    && ClaimsWhatIsNew(ViewAt(log, k), ViewAt(log, k + 1), a)
  }

  /** Every acquisition names as its source the parent of the commit that first contains it. */
  lemma {:induction false} EveryAcquisitionHasOrigin(log: Log, j: nat, a: Acquisition) returns (k: nat)
    requires Coordinated(log) && j < |log| && a in log[j].snapshot.acquisitions
    ensures k < j && OriginAt(log, k, a)
  {
    hide Valid, Follows, Keeps, ClaimsWhatIsNew;
    assert j > 0;
    AllValid(log, j - 1);
    FollowsEvolves(log[j - 1], log[j]);
    if a in log[j - 1].snapshot.acquisitions {
      k := EveryAcquisitionHasOrigin(log, j - 1, a);
    } else {
      k := j - 1;
      var v, w := ViewAt(log, k), ViewAt(log, j);
      assert a in w.acquisitions && a !in v.acquisitions;
      var b :| b in w.acquisitions && AcquiredOn(v, w, log[k].record.commitId, b);
      assert a == b;
    }
  }

  predicate InputsKnown(source: Snapshot, a: Acquisition) {
    Elements(a.inputEvidence) <= EvidenceIds(source)
  }

  /** Of all that the store checks, only the inputs are not guaranteed by the coordinator's own construction. */
  lemma SourcedIffInputsKnown(log: Log, j: nat, a: Acquisition, k: nat)
    requires Coordinated(log) && j < |log| && a in log[j].snapshot.acquisitions && k < j && OriginAt(log, k, a)
    ensures SourcedFrom(log[k].snapshot, log[j].snapshot, a) <==> InputsKnown(log[k].snapshot, a)
  {
    hide Valid, Follows;
    NothingIsLost(log, k + 1, j);
    IdsGrow(ViewAt(log, k + 1), ViewAt(log, j));
    assert EvidenceIds(log[k].snapshot) == ViewAt(log, k).EvidenceIds();
    assert EvidenceIds(log[j].snapshot) == ViewAt(log, j).EvidenceIds();
    assert TargetIds(log[k].snapshot) == ViewAt(log, k).TargetIds();
    assert TargetIds(log[j].snapshot) == ViewAt(log, j).TargetIds();
  }

  /** All acquisitions read only evidence their source commit had. */
  predicate AllInputsKnown(log: Log, j: nat)
    requires j < |log|
  {
    forall a, k | a in log[j].snapshot.acquisitions && 0 <= k < j ::
      OriginAt(log, k, a) ==> InputsKnown(log[k].snapshot, a)
  }

  /** The store's provenance check at a commit of a coordinated history passes exactly when all acquisitions read
      evidence of their source commit; since the sources never change, it keeps passing at every later commit. */
  lemma ProvenanceAcrossTheChain(d: Disk, caseId: Id, log: Log, j: nat)
    requires HasHistory(d, caseId, log) && Coordinated(log) && j < |log|
    ensures ProvenanceHolds(d, caseId, RecordsOf(log), j, log[j].snapshot) <==> AllInputsKnown(log, j)
  {
    hide Valid, Follows, HasHistory, LoadAt, SourcedFrom, InputsKnown, OriginAt;
    var s := log[j].snapshot;
    forall a | a in s.acquisitions
      ensures Sourced(d, caseId, RecordsOf(log), j, s, a)
              <==> forall k | 0 <= k < j :: OriginAt(log, k, a) ==> InputsKnown(log[k].snapshot, a)
    {
      OneAcquisition(d, caseId, log, j, a);
    }
  }

  lemma OneAcquisition(d: Disk, caseId: Id, log: Log, j: nat, a: Acquisition)
    requires HasHistory(d, caseId, log) && Coordinated(log) && j < |log| && a in log[j].snapshot.acquisitions
    ensures Sourced(d, caseId, RecordsOf(log), j, log[j].snapshot, a)
            <==> forall k | 0 <= k < j :: OriginAt(log, k, a) ==> InputsKnown(log[k].snapshot, a)
  {
    hide Valid, Follows, LoadSnapshot, SourcedFrom, InputsKnown, Keeps, ClaimsWhatIsNew, IsChain, Coordinated;
    var k := EveryAcquisitionHasOrigin(log, j, a);
    SourcedIffInputsKnown(log, j, a, k);
    EntryLoads(d, caseId, log, k);
    forall l: nat | l < |log| && log[l].record.commitId == a.sourceCommit ensures l == k {
      EntryIsCommitted(d, caseId, log, l);
      EntryIsCommitted(d, caseId, log, k);
    }
    assert SourcedAt(d, caseId, RecordsOf(log), k, log[j].snapshot, a) <==> InputsKnown(log[k].snapshot, a);
  }

  // ---------------------------------------------------------------- concurrent coordinators

  predicate OwnCase(log: Log, caseId: Id) {
    forall e | e in log :: e.snapshot.manifest.caseId == caseId
  }

  /** At every commit the acquisitions come from earlier commits, as the store checks it. */
  predicate ProvenanceEverywhere(d: Disk, caseId: Id, log: Log) {
    forall j | 0 <= j < |log| :: ProvenanceHolds(d, caseId, RecordsOf(log), j, log[j].snapshot)
  }

  /** The provenance of a snapshot depends on the earlier commits only, however the history goes on. */
  lemma ProvenanceCarried(d: Disk, e: Disk, caseId: Id, log: Log, longer: Log, at: nat, later: nat, s: Snapshot,
                          t: Snapshot)
    requires HasHistory(d, caseId, log) && HasHistory(e, caseId, longer) && log <= longer
    requires at <= |log| && at <= later
    requires ViewOf(t) == ViewOf(s)
    requires ProvenanceHolds(d, caseId, RecordsOf(log), at, s)
    ensures ProvenanceHolds(e, caseId, RecordsOf(longer), later, t)
  {
    hide LoadSnapshot, IsChain;
    SameSources(s, t);
    hide SourcedFrom;
    forall a | a in t.acquisitions ensures Sourced(e, caseId, RecordsOf(longer), later, t, a) {
      assert a in ViewOf(s).acquisitions;
      assert Sourced(d, caseId, RecordsOf(log), at, s, a);
      var k :| 0 <= k < at && SourcedAt(d, caseId, RecordsOf(log), k, s, a);
      assert LoadsAt(d, caseId, log[k]) && LoadsAt(e, caseId, longer[k]);
      assert RecordsOf(longer)[k] == RecordsOf(log)[k] && longer[k] == log[k];
      assert SourcedAt(e, caseId, RecordsOf(longer), k, t, a);
    }
  }

  lemma SameSources(s: Snapshot, t: Snapshot)
    requires ViewOf(t) == ViewOf(s)
    ensures forall source, a :: SourcedFrom(source, t, a) <==> SourcedFrom(source, s, a)
  {
    assert EvidenceIds(t) == ViewOf(t).EvidenceIds() && EvidenceIds(s) == ViewOf(s).EvidenceIds();
    assert TargetIds(t) == ViewOf(t).TargetIds() && TargetIds(s) == ViewOf(s).TargetIds();
  }

  lemma CanonicalKeepsCase(s: Snapshot)
    ensures Canonical(s).manifest == s.manifest
  {
  }

  lemma ProceedHasProvenance(d: Disk, caseId: Id, log: Log, req: Request)
    requires Decide(d, caseId, log, req).Proceed?
    ensures ProvenanceHolds(d, caseId, RecordsOf(log), |log|, req.snapshot)
  {
    hide ProvenanceHolds, IdempotentHead;
  }

  /** A published snapshot passed the provenance check, so the whole history still does. */
  lemma ProvenanceAppended(d: Disk, e: Disk, caseId: Id, log: Log, req: Request, now: Time)
    requires HistoryOf(d, caseId) == Some(log) && HistoryOf(e, caseId) == Some(Appended(caseId, log, req, now))
    requires ProvenanceEverywhere(d, caseId, log) && Decide(d, caseId, log, req).Proceed?
    ensures ProvenanceEverywhere(e, caseId, Appended(caseId, log, req, now))
  {
    hide HasHistory, ProvenanceHolds, Canonical, NextRecord, Decide, ViewOf;
    var longer := Appended(caseId, log, req, now);
    ProceedHasProvenance(d, caseId, log, req);
    CanonicalKeepsView(req.snapshot);
    forall j | 0 <= j < |longer| ensures ProvenanceHolds(e, caseId, RecordsOf(longer), j, longer[j].snapshot) {
      if j < |log| {
        ProvenanceCarried(d, e, caseId, log, longer, j, j, log[j].snapshot, longer[j].snapshot);
      } else {
        ProvenanceCarried(d, e, caseId, log, longer, j, j, req.snapshot, longer[j].snapshot);
      }
    }
  }

  lemma ProvenanceKept(d: Disk, e: Disk, caseId: Id, log: Log)
    requires HistoryOf(d, caseId) == Some(log) && HistoryOf(e, caseId) == Some(log)
        && ProvenanceEverywhere(d, caseId, log)
    ensures ProvenanceEverywhere(e, caseId, log)
  {
    hide HasHistory, ProvenanceHolds, ViewOf;
    forall j | 0 <= j < |log| ensures ProvenanceHolds(e, caseId, RecordsOf(log), j, log[j].snapshot) {
      ProvenanceCarried(d, e, caseId, log, log, j, j, log[j].snapshot, log[j].snapshot);
    }
  }

  /** A case directory and the head each coordinator has read, without holding the lock. */
  datatype World = World(disk: Disk, read: map<nat, Entry>)

  /** One atomic step of the system. */
  datatype Step =
    | ReadHead(client: nat)
    | CommitOnRead(client: nat, command: Command, req: Request, now: Time, outcome: Outcome)
    | CreateCase(req: Request, now: Time, outcome: Outcome)
    | LockRefused
    | Clean

  ghost predicate Next(s: World, t: World, caseId: Id, step: Step) {
    match step
    case ReadHead(client) =>
      var past := HistoryOf(s.disk, caseId);
      past.Some? && past.value != [] && t == s.(read := s.read[client := past.value[|past.value| - 1]])
    case CommitOnRead(client, c, req, now, outcome) =>
      client in s.read && PublishesOn(s.read[client], c, req, caseId)
      && t.read == s.read && CommitEffect(s.disk, t.disk, caseId, HistoryOf(s.disk, caseId), req, now, outcome)
    case CreateCase(req, now, outcome) =>
      Opens(req.snapshot) && req.snapshot.manifest.caseId == caseId && req.parent.AbsentParent? && t.read == s.read
      && CommitEffect(s.disk, t.disk, caseId, HistoryOf(s.disk, caseId), req, now, outcome)
    case LockRefused => t == s
    case Clean =>
      t.read == s.read && Finals(t.disk.commits) == Finals(s.disk.commits)
      && t.disk.snapshots == s.disk.snapshots && t.disk.blobs == s.disk.blobs
  }

  /** What a coordinator hands to the store: the successor of the head it read, if that head is still the head. */
  predicate PublishesOn(read: Entry, c: Command, req: Request, caseId: Id) {
    var next := SuccessorOf(read.snapshot, read.record.commitId, c);
    next.Ok? && req.snapshot == next.value && req.parent == ExpectCommit(read.record.commitId)
  }

  /** The case is readable and sound, its history coordinated, and whatever a coordinator read is part of it. */
  ghost predicate Invariant(s: World, caseId: Id, log: Log) {
    && HistoryOf(s.disk, caseId) == Some(log)
    && Coordinated(log) && OwnCase(log, caseId)
    && ProvenanceEverywhere(s.disk, caseId, log)
    && (forall c | c in s.read :: s.read[c] in log)
  }

  /** The compare-and-swap turns the stale-able read into a read of the head: whoever appends, appends to what it
      read. */
  lemma SwapHitsHead(d: Disk, caseId: Id, log: Log, read: Entry, parent: Expectation)
    requires HasHistory(d, caseId, log) && read in log && parent == ExpectCommit(read.record.commitId)
    requires CheckParent(parent, RecordsOf(log)).None?
    ensures log != [] && log[|log| - 1] == read
  {
    hide LoadAt, Valid;
    var k := Manifests.AtIndex(log, read);
    EntryIsCommitted(d, caseId, log, k);
    EntryIsCommitted(d, caseId, log, |log| - 1);
  }

  /** Refinement: every step leaves the log alone or appends the successor of its last entry. */
  lemma StepRefines(s: World, t: World, caseId: Id, step: Step, log: Log) returns (after: Log)
    requires Invariant(s, caseId, log) && Next(s, t, caseId, step)
    ensures Invariant(t, caseId, after)
    ensures after == log || (|after| == |log| + 1 && after[..|log|] == log)
    ensures after != log && log != [] ==> Follows(log[|log| - 1], after[|log|])
  {
    hide HasHistory, Valid, Decide, Follows, Canonical, SuccessorOf, NextRecord, Material, ProvenanceEverywhere,
         Coordinated;
    after := log;
    match step {
      case ReadHead(client) => assert log[|log| - 1] in log;
      case CommitOnRead(client, c, req, now, outcome) =>
        if Decide(s.disk, caseId, log, req).Proceed? && (outcome.Committed? || outcome.UnknownOutcome?) {
          after := Appended(caseId, log, req, now);
          PublishedOnHead(s.disk, caseId, log, s.read[client], c, req, now);
          ProvenanceAppended(s.disk, t.disk, caseId, log, req, now);
        } else {
          ProvenanceKept(s.disk, t.disk, caseId, log);
        }
      case CreateCase(req, now, outcome) =>
        if Decide(s.disk, caseId, log, req).Proceed? && (outcome.Committed? || outcome.UnknownOutcome?) {
          after := Appended(caseId, log, req, now);
          CreatedOnNothing(s.disk, caseId, log, req, now);
          ProvenanceAppended(s.disk, t.disk, caseId, log, req, now);
        } else {
          ProvenanceKept(s.disk, t.disk, caseId, log);
        }
      case LockRefused =>
      case Clean =>
        Recovery.SameFinalsSameHistory(s.disk, t.disk, caseId);
        ProvenanceKept(s.disk, t.disk, caseId, log);
    }
  }

  lemma PublishedOnHead(d: Disk, caseId: Id, log: Log, read: Entry, c: Command, req: Request, now: Time)
    requires HasHistory(d, caseId, log) && Coordinated(log) && OwnCase(log, caseId) && read in log
    requires PublishesOn(read, c, req, caseId) && Decide(d, caseId, log, req).Proceed?
    ensures var after := Appended(caseId, log, req, now);
      Coordinated(after) && OwnCase(after, caseId) && log != [] && Follows(log[|log| - 1], after[|log|])
  {
    hide HasHistory, Valid, Decide, Follows, Canonical, SuccessorOf, NextRecord, Coordinated;
    ProceedChecksParent(d, caseId, log, req);
    SwapHitsHead(d, caseId, log, read, req.parent);
    var after := Appended(caseId, log, req, now);
    FollowsWhen(log[|log| - 1], after[|log|], c);
    CoordinatedAppend(log, after[|log|]);
    HeadStaysValid(d, caseId, log);
    OwnCaseAppend(log, caseId, after[|log|], c);
  }

  lemma HeadStaysValid(d: Disk, caseId: Id, log: Log)
    requires HasHistory(d, caseId, log) && log != []
    ensures Valid(log[|log| - 1].snapshot)
  {
    hide Valid, HasHistory, LoadAt;
    EntryIsCommitted(d, caseId, log, |log| - 1);
  }

  lemma OwnCaseAppend(log: Log, caseId: Id, e: Entry, c: Command)
    requires log != [] && OwnCase(log, caseId) && Valid(log[|log| - 1].snapshot) && FollowsBy(log[|log| - 1], e, c)
    ensures OwnCase(log + [e], caseId)
  {
    hide Valid, SuccessorOf, Canonical;
    var head := log[|log| - 1];
    SuccessorKeepsCase(head, c);
    CanonicalKeepsCase(SuccessorOf(head.snapshot, head.record.commitId, c).value);
  }

  lemma CreatedOnNothing(d: Disk, caseId: Id, log: Log, req: Request, now: Time)
    requires Opens(req.snapshot) && req.snapshot.manifest.caseId == caseId && req.parent.AbsentParent?
    requires Decide(d, caseId, log, req).Proceed?
    ensures log == [] && Coordinated(Appended(caseId, log, req, now))
        && OwnCase(Appended(caseId, log, req, now), caseId)
  {
    hide Valid, Decide, Canonical, NextRecord;
    ProceedChecksParent(d, caseId, log, req);
    CanonicalStaysValid(req.snapshot);
    CanonicalHasNoAcquisitions(req.snapshot);
    CanonicalKeepsCase(req.snapshot);
  }

  /** What a coordinator's command does to the directory is a step of the system, whatever head it had read. */
  lemma CommandIsStep(s: World, t: World, caseId: Id, client: nat, c: Command, wasLocked: bool, now: Time,
                      outcome: Outcome, r: Result<CommitRecord>)
    requires client in s.read && t.read == s.read && Valid(s.read[client].snapshot)
    requires var head := s.read[client];
      Finished(SuccessorOf(head.snapshot, head.record.commitId, c), s.disk, t.disk, caseId, HistoryOf(s.disk, caseId),
               wasLocked, head.record.commitId, now, outcome, r)
    ensures exists step :: Next(s, t, caseId, step)
  {
    hide Valid, SuccessorOf, CommitEffect, HistoryOf, Opens;
    var head := s.read[client];
    var built := SuccessorOf(head.snapshot, head.record.commitId, c);
    SuccessorKeepsCase(head, c);
    if built.Err? || wasLocked {
      assert Next(s, t, caseId, LockRefused);
    } else {
      var req := RequestFor(built.value, head.record.commitId);
      assert Next(s, t, caseId, CommitOnRead(client, c, req, now, outcome));
    }
  }

  /** What a creation does to the directory is a step of the system: an opened import is the first commit of a case. */
  lemma CreationIsStep(s: World, t: World, caseId: Id, imported: Import, provider: map<Id, Blob>, r: OpeningRequest,
                       env: Env, wasLocked: bool, now: Time, outcome: Outcome, result: Result<CommitRecord>)
    requires imported.manifest.caseId == caseId && t.read == s.read
    requires CreationFinished(CreateSuccessor(imported, r, env), provider, s.disk, t.disk, caseId,
                              HistoryOf(s.disk, caseId),
                              wasLocked, now, outcome, result)
    ensures exists step :: Next(s, t, caseId, step)
  {
    hide Valid, CreateSuccessor, CommitEffect, HistoryOf, Opens, SnapshotOfImport;
    var built := CreateSuccessor(imported, r, env);
    if built.Err? || wasLocked {
      assert Next(s, t, caseId, LockRefused);
    } else {
      CreationOpens(imported, r, env);
      var req := Request(built.value, provider, LegacyImport, AbsentParent);
      assert Next(s, t, caseId, CreateCase(req, now, outcome));
    }
  }

  lemma CreationOpens(imported: Import, r: OpeningRequest, env: Env)
    requires CreateSuccessor(imported, r, env).Ok?
    ensures var next := CreateSuccessor(imported, r, env).value;
      Opens(next) && next.manifest.caseId == imported.manifest.caseId
  {
    hide Valid, Stamp, CreateRefs, OpeningEvent;
  }

  /** In every state of a run the integrity report finds no error: the chain is whole and every commit of it sound. */
  lemma NeverCorrupt(s: World, caseId: Id, log: Log)
    requires Invariant(s, caseId, log)
    ensures Recovery.AllSound(s.disk, caseId, RecordsOf(log))
  {
    hide LoadSnapshot, ProvenanceHolds, Coordinated, IsChain;
    forall i | 0 <= i < |log| ensures Recovery.CommitSound(s.disk, caseId, RecordsOf(log), i) {
      EntryLoads(s.disk, caseId, log, i);
    }
  }

  lemma ProceedChecksParent(d: Disk, caseId: Id, log: Log, req: Request)
    requires Decide(d, caseId, log, req).Proceed?
    ensures CheckParent(req.parent, RecordsOf(log)).None?
    ensures req.parent.AbsentParent? ==> log == []
  {
    hide ProvenanceHolds, IdempotentHead;
  }

  lemma CanonicalHasNoAcquisitions(s: Snapshot)
    requires s.acquisitions == []
    ensures Canonical(s).acquisitions == []
  {
  }

  lemma CoordinatedAppend(log: Log, e: Entry)
    requires Coordinated(log) && log != [] && Follows(log[|log| - 1], e)
    ensures Coordinated(log + [e])
  {
    hide Follows, Opens;
    var longer := log + [e];
    forall i | 1 <= i < |longer| ensures Follows(longer[i - 1], longer[i]) {
      assert i < |log| ==> Follows(log[i - 1], log[i]);
    }
  }

  /** A run of the system from an empty directory. */
  ghost predicate Run(states: seq<World>, steps: seq<Step>, caseId: Id) {
    && |states| == |steps| + 1
    && states[0] == World(Disk(map[], map[], map[]), map[])
    && forall i | 0 <= i < |steps| :: Next(states[i], states[i + 1], caseId, steps[i])
  }

  lemma EmptyDirectory(caseId: Id)
    ensures HistoryOf(Disk(map[], map[], map[]), caseId) == Some([])
  {
    HistoryIs(Disk(map[], map[], map[]), caseId, []);
  }

  /** A history for each of the first states, each extending the one before. */
  ghost predicate Chronicle(states: seq<World>, caseId: Id, logs: seq<Log>) {
    && 0 < |logs| <= |states|
    && (forall i | 0 <= i < |logs| :: Invariant(states[i], caseId, logs[i]))
    && (forall i, j | 0 <= i <= j < |logs| :: logs[i] <= logs[j])
  }

  lemma ChronicleNext(states: seq<World>, caseId: Id, logs: seq<Log>, next: Log)
    requires Chronicle(states, caseId, logs) && |logs| < |states|
    requires Invariant(states[|logs|], caseId, next) && logs[|logs| - 1] <= next
    ensures Chronicle(states, caseId, logs + [next])
  {
    hide Invariant;
    forall i | 0 <= i < |logs| ensures logs[i] <= next {
      PrefixTwice(logs[i], logs[|logs| - 1], next);
    }
  }

  /** In every run, whatever the interleaving and wherever commits stop, the case stays readable with a coordinated
      history that only grows. */
  lemma {:induction false} EveryRun(states: seq<World>, steps: seq<Step>, caseId: Id, n: nat) returns (logs: seq<Log>)
    requires Run(states, steps, caseId) && n < |states|
    ensures |logs| == n + 1 && Chronicle(states, caseId, logs)
  {
    hide Next, Invariant, Chronicle;
    if n == 0 {
      ChronicleStart(states, caseId);
      logs := [[]];
    } else {
      var before := EveryRun(states, steps, caseId, n - 1);
      ChronicleEnd(states, caseId, before);
      assert Next(states[n - 1], states[n - 1 + 1], caseId, steps[n - 1]);
      var after := StepRefines(states[n - 1], states[n], caseId, steps[n - 1], before[n - 1]);
      ChronicleNext(states, caseId, before, after);
      logs := before + [after];
    }
  }

  lemma ChronicleStart(states: seq<World>, caseId: Id)
    requires states != [] && states[0] == World(Disk(map[], map[], map[]), map[])
    ensures Chronicle(states, caseId, [[]])
  {
    hide Invariant;
    EmptyWorld(caseId);
  }

  lemma ChronicleEnd(states: seq<World>, caseId: Id, logs: seq<Log>)
    requires Chronicle(states, caseId, logs)
    ensures 0 < |logs| <= |states| && Invariant(states[|logs| - 1], caseId, logs[|logs| - 1])
  {
    hide Invariant;
  }

  lemma PrefixTwice<T>(a: seq<T>, b: seq<T>, c: seq<T>)
    requires a <= b && b <= c
    ensures a <= c
  {
  }

  lemma EmptyWorld(caseId: Id)
    ensures Invariant(World(Disk(map[], map[], map[]), map[]), caseId, [])
  {
    EmptyDirectory(caseId);
    EmptyIsCoordinated();
  }

  lemma EmptyIsCoordinated()
    ensures Coordinated([])
  {
  }

  // ---------------------------------------------------------------- one append per parent

  lemma SameLength<T>(a: seq<T>, b: seq<T>)
    requires multiset(a) == multiset(b)
    ensures |a| == |b|
  {
    assert |multiset(a)| == |a| && |multiset(b)| == |b|;
  }

  lemma CanonicalKeepsLedger(s: Snapshot)
    ensures Ledger(Canonical(s)) == Ledger(s)
  {
    hide SortOn;
    SortOnSorts(s.events, ByEvent);
    SortOnSorts(s.acquisitions, ByAcquisition);
    SortOnSorts(s.consultations, ByConsultation);
    SameLength(SortOn(s.events, ByEvent), s.events);
    SameLength(SortOn(s.acquisitions, ByAcquisition), s.acquisitions);
    SameLength(SortOn(s.consultations, ByConsultation), s.consultations);
  }

  lemma FollowsAddsOne(parent: Entry, child: Entry)
    requires Follows(parent, child)
    ensures Ledger(child.snapshot) == Ledger(parent.snapshot) + 1
  {
    hide SuccessorOf, Canonical;
    var c :| FollowsBy(parent, child, c);
    CommandAddsOne(parent.snapshot, parent.record.commitId, c);
    CanonicalKeepsLedger(SuccessorOf(parent.snapshot, parent.record.commitId, c).value);
  }

  /** A snapshot tells how far it is from any other commit of its history. */
  lemma {:induction false} LedgerCounts(log: Log, i: nat, j: nat)
    requires Coordinated(log) && i <= j < |log|
    ensures Ledger(log[j].snapshot) == Ledger(log[i].snapshot) + (j - i)
    decreases j
  {
    hide Follows, Opens, Ledger;
    if i < j {
      LedgerCounts(log, i, j - 1);
      FollowsAddsOne(log[j - 1], log[j]);
    }
  }

  /** A commit on a read appends, if at all, to the commit it read. */
  lemma AppendsToParent(s: World, t: World, caseId: Id, step: Step, log: Log, after: Log)
    requires step.CommitOnRead? && Next(s, t, caseId, step)
    requires Invariant(s, caseId, log) && HistoryOf(t.disk, caseId) == Some(after) && after != log
    ensures log != [] && step.req.parent == ExpectCommit(log[|log| - 1].record.commitId)
    ensures after == Appended(caseId, log, step.req, step.now)
  {
    hide HasHistory, Valid, Coordinated, ProvenanceEverywhere, SuccessorOf, Canonical, NextRecord, Material, Grows,
         Decide;
    assert Decide(s.disk, caseId, log, step.req).Proceed?;
    ProceedChecksParent(s.disk, caseId, log, step.req);
  }

  lemma ParentIsPast(d: Disk, caseId: Id, log: Log, at: nat)
    requires HasHistory(d, caseId, log) && at + 1 < |log|
    ensures CheckParent(ExpectCommit(log[at].record.commitId), RecordsOf(log)) == Some(RevisionConflict)
  {
    hide LoadAt, Valid;
    EntryIsCommitted(d, caseId, log, at);
    EntryIsCommitted(d, caseId, log, |log| - 1);
  }

  /** Once something was committed on its parent, a writer is refused unless the head already is its snapshot. */
  lemma ParentPassed(s: World, t: World, caseId: Id, step: Step, log: Log, at: nat)
    requires step.CommitOnRead? && Next(s, t, caseId, step) && Invariant(s, caseId, log)
    requires at + 1 < |log| && step.req.parent == ExpectCommit(log[at].record.commitId)
    ensures step.outcome.Refused? || (|log| == at + 2 && log[at + 1].snapshot == Canonical(step.req.snapshot))
    ensures t == s
  {
    hide HasHistory, Valid, ProvenanceHolds, PublishesOn, Canonical, IdempotentHead, Coordinated, CheckParent,
         RecordsOf;
    hide ProvenanceEverywhere, OwnCase, Material, Grows, NextRecord;
    ParentIsPast(s.disk, caseId, log, at);
    if Decide(s.disk, caseId, log, step.req).Reuse? {
      HeadIsRequested(s, caseId, step, log, at);
    }
  }

  lemma HeadIsRequested(s: World, caseId: Id, step: Step, log: Log, at: nat)
    requires step.CommitOnRead? && Invariant(s, caseId, log) && at < |log|
    requires step.client in s.read && PublishesOn(s.read[step.client], step.command, step.req, caseId)
    requires step.req.parent == ExpectCommit(log[at].record.commitId) && IdempotentHead(log, step.req)
    ensures |log| == at + 2 && log[at + 1].snapshot == Canonical(step.req.snapshot)
  {
    hide HasHistory, Valid, SuccessorOf, Canonical, IdempotentHead, Coordinated, Ledger, ProvenanceEverywhere, OwnCase,
         Evolves;
    var read := s.read[step.client];
    CommitNamesEntry(s.disk, caseId, log, read, at);
    CommandEvolves(read.snapshot, read.record.commitId, step.command);
    IdempotentIsHead(s.disk, caseId, log, step.req);
    CommandAddsOne(read.snapshot, read.record.commitId, step.command);
    CanonicalKeepsLedger(step.req.snapshot);
    LedgerCounts(log, at, |log| - 1);
  }

  lemma CommitNamesEntry(d: Disk, caseId: Id, log: Log, read: Entry, at: nat)
    requires HasHistory(d, caseId, log) && read in log && at < |log|
    requires log[at].record.commitId == read.record.commitId
    ensures read == log[at] && Valid(read.snapshot)
  {
    hide LoadAt, Valid;
    var k := Manifests.AtIndex(log, read);
    EntryIsCommitted(d, caseId, log, at);
    EntryIsCommitted(d, caseId, log, k);
  }

  /** In any run, of two commits made on the same parent, however far apart, at most one appends; if their snapshots
      differ, the later one is refused and changes nothing. */
  lemma AtMostOneAppends(states: seq<World>, steps: seq<Step>, caseId: Id, logs: seq<Log>, i: nat, j: nat)
    requires Run(states, steps, caseId) && Chronicle(states, caseId, logs) && |logs| == |states|
    requires i < j < |steps| && steps[i].CommitOnRead? && steps[j].CommitOnRead?
    requires steps[j].req.parent == steps[i].req.parent && logs[i + 1] != logs[i]
    ensures logs[j + 1] == logs[j] && states[j + 1] == states[j]
    ensures steps[j].outcome.Refused? || Canonical(steps[j].req.snapshot) == Canonical(steps[i].req.snapshot)
  {
    hide Next, Canonical, Coordinated, ProvenanceEverywhere, OwnCase, NextRecord, HistoryOf;
    assert Next(states[i], states[i + 1], caseId, steps[i]) && Next(states[j], states[j + 1], caseId, steps[j]);
    AppendsToParent(states[i], states[i + 1], caseId, steps[i], logs[i], logs[i + 1]);
    var at := |logs[i]| - 1;
    assert logs[i + 1] <= logs[j];
    assert logs[i + 1][at] == logs[i][at] && logs[j][at] == logs[i + 1][at] && logs[j][at + 1] == logs[i + 1][at + 1];
    ParentPassed(states[j], states[j + 1], caseId, steps[j], logs[j], at);
  }
}
