/** How a snapshot becomes documents, a manifest and a name, and how it is read back. */
module Codec {
  import opened Domain
  import opened Validation
  import opened Ordering

  // ---------------------------------------------------------------- documents and their paths

  function KindOf(d: Document): Kind {
    match d
    case CaseDocument(_) => CaseKind
    case WorkflowDocument(_) => WorkflowKind
    case TargetDocument(_) => TargetKind
    case EvidenceDocument(_) => EvidenceKind
    case FindingDocument(_) => FindingKind
    case PlanDocument(_) => PlanKind
    case ExecutionDocument(_) => ExecutionKind
    case VerificationDocument(_) => VerificationKind
    case EventDocument(_) => EventKind
    case AcquisitionDocument(_) => AcquisitionKind
    case ConsultationDocument(_) => ConsultationKind
  }

  function PathOf(d: Document): Path {
    match d
    case CaseDocument(_) => Path(CaseKind, 0)
    case WorkflowDocument(_) => Path(WorkflowKind, 0)
    case TargetDocument(t) => Path(TargetKind, t.targetId)
    case EvidenceDocument(e) => Path(EvidenceKind, e.evidenceId)
    case FindingDocument(f) => Path(FindingKind, f.findingId)
    case PlanDocument(p) => Path(PlanKind, p.planId)
    case ExecutionDocument(e) => Path(ExecutionKind, e.executionId)
    case VerificationDocument(x) => Path(VerificationKind, x.verificationId)
    case EventDocument(e) => Path(EventKind, e.eventId)
    case AcquisitionDocument(a) => Path(AcquisitionKind, a.acquisitionId)
    case ConsultationDocument(c) => Path(ConsultationKind, c.consultationId)
  }

  /** Position of a kind among the document paths: the alphabetical order of their directories. */
  function Rank(k: Kind): nat {
    match k
    case ConsultationKind => 0
    case CaseKind => 1
    case WorkflowKind => 2
    case EventKind => 3
    case AcquisitionKind => 4
    case EvidenceKind => 5
    case ExecutionKind => 6
    case FindingKind => 7
    case PlanKind => 8
    case TargetKind => 9
    case VerificationKind => 10
  }

  function PathKey(p: Path): Key {
    match p
    case Path(kind, id) => Key(Rank(kind), id)
    case Stray(name) => Key(11, name)
  }

  function DocumentKey(d: Document): Key {
    PathKey(PathOf(d))
  }

  function MapDocuments<T>(xs: seq<T>, f: T -> Document): (r: seq<Document>)
    ensures |r| == |xs| && forall i | 0 <= i < |xs| :: r[i] == f(xs[i])
  {
    seq(|xs|, i requires 0 <= i < |xs| => f(xs[i]))
  }

  /** The documents of one kind. */
  function Segment(s: Snapshot, k: Kind): seq<Document> {
    match k
    case CaseKind => [CaseDocument(s.manifest)]
    case WorkflowKind => if s.workflow.Some? then [WorkflowDocument(s.workflow.value)] else []
    case TargetKind => MapDocuments(s.targets, t => TargetDocument(t))
    case EvidenceKind => MapDocuments(s.evidence, e => EvidenceDocument(e))
    case FindingKind => MapDocuments(s.findings, f => FindingDocument(f))
    case PlanKind => MapDocuments(s.plans, p => PlanDocument(p))
    case ExecutionKind => MapDocuments(s.executions, e => ExecutionDocument(e))
    case VerificationKind => MapDocuments(s.verifications, x => VerificationDocument(x))
    case EventKind => MapDocuments(s.events, e => EventDocument(e))
    case AcquisitionKind => MapDocuments(s.acquisitions, a => AcquisitionDocument(a))
    case ConsultationKind => MapDocuments(s.consultations, c => ConsultationDocument(c))
  }

  /** The order in which the collections are serialized before the final sort. */
  const KINDS: seq<Kind> := [
    CaseKind, WorkflowKind, TargetKind, EvidenceKind, FindingKind, PlanKind, ExecutionKind, VerificationKind,
    EventKind, AcquisitionKind, ConsultationKind]

  function Segments(s: Snapshot, kinds: seq<Kind>): seq<Document> {
    if kinds == [] then [] else Segments(s, kinds[..|kinds| - 1]) + Segment(s, kinds[|kinds| - 1])
  }

  function AllDocuments(s: Snapshot): seq<Document> {
    Segments(s, KINDS)
  }

  function PrepareDocuments(s: Snapshot): seq<Document> {
    SortOn(AllDocuments(s), DocumentKey)
  }

  // ---------------------------------------------------------------- reading collections back

  function Collect<T>(docs: seq<Document>, pick: Document -> Option<T>): seq<T> {
    if docs == [] then []
    else
      var before := Collect(docs[..|docs| - 1], pick);
      match pick(docs[|docs| - 1])
      case Some(x) => before + [x]
      case None => before
  }

  function AsCase(d: Document): Option<CaseManifest> { if d.CaseDocument? then Some(d.manifest) else None }
  function AsWorkflow(d: Document): Option<Workflow> { if d.WorkflowDocument? then Some(d.workflow) else None }
  function AsTarget(d: Document): Option<Target> { if d.TargetDocument? then Some(d.target) else None }
  function AsEvidence(d: Document): Option<Evidence> { if d.EvidenceDocument? then Some(d.evidence) else None }
  function AsFinding(d: Document): Option<Finding> { if d.FindingDocument? then Some(d.finding) else None }
  function AsPlan(d: Document): Option<Plan> { if d.PlanDocument? then Some(d.plan) else None }
  function AsExecution(d: Document): Option<Execution> { if d.ExecutionDocument? then Some(d.execution) else None }
  function AsVerification(d: Document): Option<Verification> {
    if d.VerificationDocument? then Some(d.verification) else None
  }
  function AsEvent(d: Document): Option<Event> { if d.EventDocument? then Some(d.event) else None }
  function AsAcquisition(d: Document): Option<Acquisition> {
    if d.AcquisitionDocument? then Some(d.acquisition) else None
  }
  function AsConsultation(d: Document): Option<Consultation> {
    if d.ConsultationDocument? then Some(d.consultation) else None
  }

  function ByTarget(t: Target): Key { Key(0, t.targetId) }
  function ByEvidence(e: Evidence): Key { Key(0, e.evidenceId) }
  function ByFinding(f: Finding): Key { Key(0, f.findingId) }
  function ByPlan(p: Plan): Key { Key(0, p.planId) }
  function ByExecution(e: Execution): Key { Key(0, e.executionId) }
  function ByVerification(x: Verification): Key { Key(0, x.verificationId) }
  function ByEvent(e: Event): Key { Key(0, e.eventId) }
  function ByAcquisition(a: Acquisition): Key { Key(0, a.acquisitionId) }
  function ByConsultation(c: Consultation): Key { Key(0, c.consultationId) }

  /** Every collection in the order of its identifiers: the form in which a snapshot is loaded. */
  function Canonical(s: Snapshot): Snapshot {
    Snapshot(s.manifest, SortOn(s.targets, ByTarget), SortOn(s.evidence, ByEvidence), SortOn(s.findings, ByFinding),
             SortOn(s.plans, ByPlan), SortOn(s.executions, ByExecution), SortOn(s.verifications, ByVerification),
             s.workflow, SortOn(s.events, ByEvent), SortOn(s.acquisitions, ByAcquisition),
             SortOn(s.consultations, ByConsultation))
  }

  /** The collections as they are picked out of a list of documents, in the order of that list. */
  function Collected(manifest: CaseManifest, workflow: Option<Workflow>, docs: seq<Document>): Snapshot {
    Snapshot(manifest, Collect(docs, AsTarget), Collect(docs, AsEvidence), Collect(docs, AsFinding),
             Collect(docs, AsPlan), Collect(docs, AsExecution), Collect(docs, AsVerification), workflow,
             Collect(docs, AsEvent), Collect(docs, AsAcquisition), Collect(docs, AsConsultation))
  }

  /** The snapshot the loader puts together from decoded documents, where a case document is among them. */
  function Assemble(docs: seq<Document>): Option<Snapshot> {
    var cases := Collect(docs, AsCase);
    var workflows := Collect(docs, AsWorkflow);
    if cases == [] then None
    else
      Some(Canonical(Collected(cases[0], if workflows == [] then None else Some(workflows[|workflows| - 1]), docs)))
  }

  lemma {:induction false} CollectInsert<T>(x: Document, s: seq<Document>, pick: Document -> Option<T>)
    ensures multiset(Collect(Insert(x, s, DocumentKey), pick))
            == multiset(Collect(s, pick)) + (if pick(x).Some? then multiset{pick(x).value} else multiset{})
  {
    if s == [] {
      assert [x][..0] == [];
    } else {
      var n := |s| - 1;
      if Before(DocumentKey(s[n]), DocumentKey(x)) {
        assert (s + [x])[..|s|] == s;
      } else {
        CollectInsert(x, s[..n], pick);
        var r := Insert(x, s[..n], DocumentKey) + [s[n]];
        assert r[..|r| - 1] == Insert(x, s[..n], DocumentKey);
      }
    }
  }

  /** Sorting documents permutes what is collected from them. */
  lemma {:induction false} CollectSorted<T>(s: seq<Document>, pick: Document -> Option<T>)
    ensures multiset(Collect(SortOn(s, DocumentKey), pick)) == multiset(Collect(s, pick))
  {
    if s != [] {
      var n := |s| - 1;
      CollectSorted(s[..n], pick);
      CollectInsert(s[n], SortOn(s[..n], DocumentKey), pick);
    }
  }

  lemma {:induction false} CollectSum<T>(a: seq<Document>, b: seq<Document>, pick: Document -> Option<T>)
    ensures Collect(a + b, pick) == Collect(a, pick) + Collect(b, pick)
  {
    if b == [] {
      assert a + b == a;
    } else {
      var n := |b| - 1;
      CollectSum(a, b[..n], pick);
      assert (a + b)[..|a + b| - 1] == a + b[..n];
    }
  }

  lemma {:induction false} CollectNothing<T>(docs: seq<Document>, pick: Document -> Option<T>)
    requires forall d | d in docs :: pick(d).None?
    ensures Collect(docs, pick) == []
  {
    if docs != [] {
      CollectNothing(docs[..|docs| - 1], pick);
    }
  }

  lemma {:induction false} CollectMapped<T>(docs: seq<Document>, xs: seq<T>, pick: Document -> Option<T>)
    requires |docs| == |xs| && forall i | 0 <= i < |xs| :: pick(docs[i]) == Some(xs[i])
    ensures Collect(docs, pick) == xs
  {
    if xs != [] {
      CollectMapped(docs[..|xs| - 1], xs[..|xs| - 1], pick);
    }
  }

  /** `pick` takes documents of kind `k` only. */
  ghost predicate PicksKind<T>(pick: Document -> Option<T>, k: Kind) {
    forall d: Document :: KindOf(d) != k ==> pick(d).None?
  }

  lemma SegmentKind(s: Snapshot, k: Kind)
    ensures forall d | d in Segment(s, k) :: KindOf(d) == k
  {
  }

  lemma {:induction false} CollectFromSegments<T>(s: Snapshot, kinds: seq<Kind>, pick: Document -> Option<T>, k: Kind)
    requires NoRepeats(kinds) && PicksKind(pick, k)
    ensures Collect(Segments(s, kinds), pick) == if k in kinds then Collect(Segment(s, k), pick) else []
  {
    hide Segment, Collect, KindOf;
    if kinds == [] {
      CollectNothing([], pick);
    } else {
      var n := |kinds| - 1;
      CollectFromSegments(s, kinds[..n], pick, k);
      CollectSum(Segments(s, kinds[..n]), Segment(s, kinds[n]), pick);
      assert kinds == kinds[..n] + [kinds[n]];
      if kinds[n] != k {
        SegmentKind(s, kinds[n]);
        CollectNothing(Segment(s, kinds[n]), pick);
      } else {
        assert k !in kinds[..n];
      }
    }
  }

  /** What is collected from the prepared documents is a permutation of the collection itself. */
  lemma CollectedBack<T>(s: Snapshot, xs: seq<T>, pick: Document -> Option<T>, k: Kind)
    requires PicksKind(pick, k)
    requires var docs := Segment(s, k);
      |docs| == |xs| && forall i | 0 <= i < |xs| :: pick(docs[i]) == Some(xs[i])
    ensures multiset(Collect(PrepareDocuments(s), pick)) == multiset(xs)
  {
    assert k in KINDS by {
      match k
      case CaseKind => assert KINDS[0] == k;
      case WorkflowKind => assert KINDS[1] == k;
      case TargetKind => assert KINDS[2] == k;
      case EvidenceKind => assert KINDS[3] == k;
      case FindingKind => assert KINDS[4] == k;
      case PlanKind => assert KINDS[5] == k;
      case ExecutionKind => assert KINDS[6] == k;
      case VerificationKind => assert KINDS[7] == k;
      case EventKind => assert KINDS[8] == k;
      case AcquisitionKind => assert KINDS[9] == k;
      case ConsultationKind => assert KINDS[10] == k;
    }
    CollectFromSegments(s, KINDS, pick, k);
    CollectMapped(Segment(s, k), xs, pick);
    CollectSorted(AllDocuments(s), pick);
  }

  // ---------------------------------------------------------------- distinct identifiers as sort keys

  /** Identifiers are distinct within every collection. */
  predicate Keyed(s: Snapshot) {
    && UniqueOn(s.targets, ByTarget) && UniqueOn(s.evidence, ByEvidence) && UniqueOn(s.findings, ByFinding)
    && UniqueOn(s.plans, ByPlan) && UniqueOn(s.executions, ByExecution) && UniqueOn(s.verifications, ByVerification)
    && UniqueOn(s.events, ByEvent) && UniqueOn(s.acquisitions, ByAcquisition)
    && UniqueOn(s.consultations, ByConsultation)
  }

  lemma UniqueFromDistinct<T>(xs: seq<T>, key: T -> Key)
    requires NoRepeats(xs)
    requires forall a, b | a in Elements(xs) && b in Elements(xs) && key(a) == key(b) :: a == b
    ensures UniqueOn(xs, key)
  {
    forall i, j | 0 <= i < j < |xs| ensures key(xs[i]) != key(xs[j]) {
      assert xs[i] in Elements(xs) && xs[j] in Elements(xs);
    }
  }

  lemma ValidIsKeyed(s: Snapshot)
    requires NoDuplicates(s) && DistinctIds(ViewOf(s))
    ensures Keyed(s)
  {
    UniqueFromDistinct(s.targets, ByTarget);
    UniqueFromDistinct(s.evidence, ByEvidence);
    UniqueFromDistinct(s.findings, ByFinding);
    UniqueFromDistinct(s.plans, ByPlan);
    UniqueFromDistinct(s.executions, ByExecution);
    UniqueFromDistinct(s.verifications, ByVerification);
    UniqueFromDistinct(s.events, ByEvent);
    UniqueFromDistinct(s.acquisitions, ByAcquisition);
    UniqueFromDistinct(s.consultations, ByConsultation);
  }

  /** Each collection of `t` is a permutation of that of `s`. */
  predicate Rearranged(s: Snapshot, t: Snapshot) {
    && s.manifest == t.manifest && s.workflow == t.workflow
    && multiset(s.targets) == multiset(t.targets)
    && multiset(s.evidence) == multiset(t.evidence)
    && multiset(s.findings) == multiset(t.findings)
    && multiset(s.plans) == multiset(t.plans)
    && multiset(s.executions) == multiset(t.executions)
    && multiset(s.verifications) == multiset(t.verifications)
    && multiset(s.events) == multiset(t.events)
    && multiset(s.acquisitions) == multiset(t.acquisitions)
    && multiset(s.consultations) == multiset(t.consultations)
  }

  lemma CanonicalRearranges(s: Snapshot)
    ensures Rearranged(s, Canonical(s))
  {
    SortOnSorts(s.targets, ByTarget);
    SortOnSorts(s.evidence, ByEvidence);
    SortOnSorts(s.findings, ByFinding);
    SortOnSorts(s.plans, ByPlan);
    SortOnSorts(s.executions, ByExecution);
    SortOnSorts(s.verifications, ByVerification);
    SortOnSorts(s.events, ByEvent);
    SortOnSorts(s.acquisitions, ByAcquisition);
    SortOnSorts(s.consultations, ByConsultation);
  }

  lemma CanonicalForgetsOrder(s: Snapshot, t: Snapshot)
    requires Rearranged(s, t) && Keyed(s)
    ensures Canonical(s) == Canonical(t)
  {
    SortForgetsOrder(s.targets, t.targets, ByTarget);
    SortForgetsOrder(s.evidence, t.evidence, ByEvidence);
    SortForgetsOrder(s.findings, t.findings, ByFinding);
    SortForgetsOrder(s.plans, t.plans, ByPlan);
    SortForgetsOrder(s.executions, t.executions, ByExecution);
    SortForgetsOrder(s.verifications, t.verifications, ByVerification);
    SortForgetsOrder(s.events, t.events, ByEvent);
    SortForgetsOrder(s.acquisitions, t.acquisitions, ByAcquisition);
    SortForgetsOrder(s.consultations, t.consultations, ByConsultation);
  }

  lemma SingletonsCollected(s: Snapshot)
    ensures Collect(PrepareDocuments(s), AsCase) == [s.manifest]
    ensures Collect(PrepareDocuments(s), AsWorkflow) == if s.workflow.Some? then [s.workflow.value] else []
  {
    hide PrepareDocuments, Collect;
    var docs := PrepareDocuments(s);
    var workflow := if s.workflow.Some? then [s.workflow.value] else [];
    CollectedBack(s, [s.manifest], AsCase, CaseKind);
    CollectedBack(s, workflow, AsWorkflow, WorkflowKind);
    SingletonFromMultiset(Collect(docs, AsCase), [s.manifest]);
    SingletonFromMultiset(Collect(docs, AsWorkflow), workflow);
  }

  lemma SingletonFromMultiset<T>(a: seq<T>, b: seq<T>)
    requires multiset(a) == multiset(b) && |b| <= 1
    ensures a == b
  {
    SameElements(a, b);
    if b != [] {
      assert a[0] in Elements(a);
    }
  }

  lemma TargetsAndEvidenceBack(s: Snapshot)
    ensures multiset(Collect(PrepareDocuments(s), AsTarget)) == multiset(s.targets)
    ensures multiset(Collect(PrepareDocuments(s), AsEvidence)) == multiset(s.evidence)
    ensures multiset(Collect(PrepareDocuments(s), AsAcquisition)) == multiset(s.acquisitions)
  {
    hide PrepareDocuments, Collect;
    CollectedBack(s, s.targets, AsTarget, TargetKind);
    CollectedBack(s, s.evidence, AsEvidence, EvidenceKind);
    CollectedBack(s, s.acquisitions, AsAcquisition, AcquisitionKind);
  }

  lemma FindingsAndPlansBack(s: Snapshot)
    ensures multiset(Collect(PrepareDocuments(s), AsFinding)) == multiset(s.findings)
    ensures multiset(Collect(PrepareDocuments(s), AsPlan)) == multiset(s.plans)
    ensures multiset(Collect(PrepareDocuments(s), AsConsultation)) == multiset(s.consultations)
  {
    hide PrepareDocuments, Collect;
    CollectedBack(s, s.findings, AsFinding, FindingKind);
    CollectedBack(s, s.plans, AsPlan, PlanKind);
    CollectedBack(s, s.consultations, AsConsultation, ConsultationKind);
  }

  lemma EventsAndReportsBack(s: Snapshot)
    ensures multiset(Collect(PrepareDocuments(s), AsExecution)) == multiset(s.executions)
    ensures multiset(Collect(PrepareDocuments(s), AsVerification)) == multiset(s.verifications)
    ensures multiset(Collect(PrepareDocuments(s), AsEvent)) == multiset(s.events)
  {
    hide PrepareDocuments, Collect;
    CollectedBack(s, s.executions, AsExecution, ExecutionKind);
    CollectedBack(s, s.verifications, AsVerification, VerificationKind);
    CollectedBack(s, s.events, AsEvent, EventKind);
  }

  lemma CollectedRearranges(s: Snapshot)
    ensures Rearranged(s, Collected(s.manifest, s.workflow, PrepareDocuments(s)))
  {
    hide PrepareDocuments, Collect;
    TargetsAndEvidenceBack(s);
    FindingsAndPlansBack(s);
    EventsAndReportsBack(s);
  }

  /** Reading the prepared documents back gives the snapshot in canonical order. */
  lemma AssembleInvertsPrepare(s: Snapshot)
    requires Keyed(s)
    ensures Assemble(PrepareDocuments(s)) == Some(Canonical(s))
  {
    hide PrepareDocuments, Collect, Canonical;
    SingletonsCollected(s);
    CollectedRearranges(s);
    CanonicalForgetsOrder(s, Collected(s.manifest, s.workflow, PrepareDocuments(s)));
  }
}
