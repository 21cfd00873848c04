/** Snapshot manifests: what is published for a snapshot, how it is checked and how it is read back. */
module Manifests {
  import opened Domain
  import opened Validation
  import opened Collections
  import opened Ordering
  import opened Codec

  // ---------------------------------------------------------------- sorted lists are determined by their elements

  lemma {:induction false} MultisetOfDistinct<T>(s: seq<T>)
    requires NoRepeats(s)
    ensures multiset(s) == multiset(Elements(s))
  {
    if s == [] {
      assert Elements(s) == {};
    } else {
      var n := |s| - 1;
      MultisetOfDistinct(s[..n]);
      assert s == s[..n] + [s[n]];
      assert Elements(s) == Elements(s[..n]) + {s[n]};
      assert s[n] !in s[..n];
    }
  }

  lemma UniqueHasNoRepeats<T>(s: seq<T>, key: T -> Key)
    requires UniqueOn(s, key)
    ensures NoRepeats(s)
  {
  }

  lemma SortedSetIsUnique<T>(a: seq<T>, b: seq<T>, key: T -> Key)
    requires SortedOn(a, key) && SortedOn(b, key) && UniqueOn(a, key) && UniqueOn(b, key)
    requires Elements(a) == Elements(b)
    ensures a == b
  {
    UniqueHasNoRepeats(a, key);
    UniqueHasNoRepeats(b, key);
    MultisetOfDistinct(a);
    MultisetOfDistinct(b);
    SortedOrderIsUnique(a, b, key);
  }

  lemma SortKeepsUnique<T>(s: seq<T>, key: T -> Key)
    requires UniqueOn(s, key)
    ensures SortedOn(SortOn(s, key), key) && UniqueOn(SortOn(s, key), key)
    ensures Elements(SortOn(s, key)) == Elements(s) && |SortOn(s, key)| == |s|
  {
    SortOnSorts(s, key);
    UniquenessIsOrderFree(s, SortOn(s, key), key);
    SameElements(SortOn(s, key), s);
  }

  // ---------------------------------------------------------------- the prepared documents

  /** `d` is one of the documents of the snapshot. */
  predicate HasDocument(v: View, d: Document) {
    match d
    case CaseDocument(m) => m == v.manifest
    case WorkflowDocument(w) => v.workflow == Some(w)
    case TargetDocument(t) => t in v.targets
    case EvidenceDocument(e) => e in v.evidence
    case FindingDocument(f) => f in v.findings
    case PlanDocument(p) => p in v.plans
    case ExecutionDocument(e) => e in v.executions
    case VerificationDocument(x) => x in v.verifications
    case EventDocument(e) => e in v.events
    case AcquisitionDocument(a) => a in v.acquisitions
    case ConsultationDocument(c) => c in v.consultations
  }

  lemma AtIndex<T>(s: seq<T>, x: T) returns (i: nat)
    requires x in s
    ensures i < |s| && s[i] == x
  {
    i :| 0 <= i < |s| && s[i] == x;
  }

  lemma SegmentMembers(s: Snapshot, k: Kind, d: Document)
    ensures d in Segment(s, k) <==> KindOf(d) == k && HasDocument(ViewOf(s), d)
  {
    var docs := Segment(s, k);
    if KindOf(d) == k && HasDocument(ViewOf(s), d) {
      match d {
        case CaseDocument(_) => assert docs[0] == d;
        case WorkflowDocument(_) => assert docs[0] == d;
        case TargetDocument(t) => var i := AtIndex(s.targets, t); assert docs[i] == d;
        case EvidenceDocument(e) => var i := AtIndex(s.evidence, e); assert docs[i] == d;
        case FindingDocument(f) => var i := AtIndex(s.findings, f); assert docs[i] == d;
        case PlanDocument(p) => var i := AtIndex(s.plans, p); assert docs[i] == d;
        case ExecutionDocument(e) => var i := AtIndex(s.executions, e); assert docs[i] == d;
        case VerificationDocument(x) => var i := AtIndex(s.verifications, x); assert docs[i] == d;
        case EventDocument(e) => var i := AtIndex(s.events, e); assert docs[i] == d;
        case AcquisitionDocument(a) => var i := AtIndex(s.acquisitions, a); assert docs[i] == d;
        case ConsultationDocument(c) => var i := AtIndex(s.consultations, c); assert docs[i] == d;
      }
    }
  }

  lemma {:induction false} SegmentsMembers(s: Snapshot, kinds: seq<Kind>, d: Document)
    ensures d in Segments(s, kinds) <==> KindOf(d) in kinds && HasDocument(ViewOf(s), d)
  {
    if kinds != [] {
      var n := |kinds| - 1;
      hide HasDocument, Segment;
      SegmentsMembers(s, kinds[..n], d);
      SegmentMembers(s, kinds[n], d);
      assert kinds == kinds[..n] + [kinds[n]];
    }
  }

  lemma AllKinds(k: Kind)
    ensures k in KINDS && NoRepeats(KINDS)
  {
    match k
    case CaseKind => assert KINDS[0] == k;
    case WorkflowKind => assert KINDS[1] == k;
    case TargetKind => assert KINDS[2] == k;
    case EvidenceKind => assert KINDS[3] == k;
    case FindingKind => assert KINDS[4] == k;
    case PlanKind => assert KINDS[5] == k;
    case ExecutionKind => assert KINDS[6] == k;
    case VerificationKind => assert KINDS[7] == k;
    case EventKind => assert KINDS[8] == k;
    case AcquisitionKind => assert KINDS[9] == k;
    case ConsultationKind => assert KINDS[10] == k;
  }

  lemma UniqueSum<T>(a: seq<T>, b: seq<T>, key: T -> Key)
    requires UniqueOn(a, key) && UniqueOn(b, key)
    requires forall x, y | x in a && y in b :: key(x) != key(y)
    ensures UniqueOn(a + b, key)
  {
  }

  lemma SegmentUnique(s: Snapshot, k: Kind)
    requires Keyed(s)
    ensures UniqueOn(Segment(s, k), DocumentKey)
  {
    match k {
      case CaseKind =>
      case WorkflowKind =>
      case TargetKind => MappedUnique(s.targets, Segment(s, k), ByTarget, Rank(k));
      case EvidenceKind => MappedUnique(s.evidence, Segment(s, k), ByEvidence, Rank(k));
      case FindingKind => MappedUnique(s.findings, Segment(s, k), ByFinding, Rank(k));
      case PlanKind => MappedUnique(s.plans, Segment(s, k), ByPlan, Rank(k));
      case ExecutionKind => MappedUnique(s.executions, Segment(s, k), ByExecution, Rank(k));
      case VerificationKind => MappedUnique(s.verifications, Segment(s, k), ByVerification, Rank(k));
      case EventKind => MappedUnique(s.events, Segment(s, k), ByEvent, Rank(k));
      case AcquisitionKind => MappedUnique(s.acquisitions, Segment(s, k), ByAcquisition, Rank(k));
      case ConsultationKind => MappedUnique(s.consultations, Segment(s, k), ByConsultation, Rank(k));
    }
  }

  lemma MappedUnique<T>(xs: seq<T>, docs: seq<Document>, key: T -> Key, rank: nat)
    requires UniqueOn(xs, key) && |docs| == |xs|
    requires forall i | 0 <= i < |xs| :: key(xs[i]).major == 0 && DocumentKey(docs[i]) == Key(rank, key(xs[i]).minor)
    ensures UniqueOn(docs, DocumentKey)
  {
    forall i, j | 0 <= i < j < |docs| ensures DocumentKey(docs[i]) != DocumentKey(docs[j]) {
      assert key(xs[i]) != key(xs[j]);
      assert key(xs[i]) == Key(0, key(xs[i]).minor) && key(xs[j]) == Key(0, key(xs[j]).minor);
    }
  }

  lemma KindDecidesKey(d: Document, e: Document)
    requires DocumentKey(d) == DocumentKey(e)
    ensures KindOf(d) == KindOf(e)
  {
  }

  lemma {:induction false} SegmentsUnique(s: Snapshot, kinds: seq<Kind>)
    requires Keyed(s) && NoRepeats(kinds)
    ensures UniqueOn(Segments(s, kinds), DocumentKey)
  {
    if kinds != [] {
      var n := |kinds| - 1;
      hide Keyed, Segment, HasDocument;
      SegmentsUnique(s, kinds[..n]);
      SegmentUnique(s, kinds[n]);
      forall x, y | x in Segments(s, kinds[..n]) && y in Segment(s, kinds[n])
        ensures DocumentKey(x) != DocumentKey(y)
      {
        SegmentsMembers(s, kinds[..n], x);
        SegmentMembers(s, kinds[n], y);
        if DocumentKey(x) == DocumentKey(y) {
          KindDecidesKey(x, y);
        }
      }
      UniqueSum(Segments(s, kinds[..n]), Segment(s, kinds[n]), DocumentKey);
    }
  }

  /** The prepared documents are exactly those of the snapshot, in path order, no path twice. */
  lemma PreparedExactly(s: Snapshot)
    requires Keyed(s)
    ensures var docs := PrepareDocuments(s);
      && SortedOn(docs, DocumentKey) && UniqueOn(docs, DocumentKey)
      && forall d :: d in docs <==> HasDocument(ViewOf(s), d)
  {
    hide Keyed, HasDocument, DocumentKey;
    AllKinds(CaseKind);
    SegmentsUnique(s, KINDS);
    SortKeepsUnique(AllDocuments(s), DocumentKey);
    forall d ensures d in PrepareDocuments(s) <==> HasDocument(ViewOf(s), d) {
      AllKinds(KindOf(d));
      SegmentsMembers(s, KINDS, d);
      assert d in PrepareDocuments(s) <==> d in Elements(PrepareDocuments(s));
    }
  }

  lemma PreparedForgetsOrder(s: Snapshot, t: Snapshot)
    requires Keyed(s) && Keyed(t) && ViewOf(s) == ViewOf(t)
    ensures PrepareDocuments(s) == PrepareDocuments(t)
  {
    hide Keyed, HasDocument, PrepareDocuments;
    PreparedExactly(s);
    PreparedExactly(t);
    assert Elements(PrepareDocuments(s)) == Elements(PrepareDocuments(t));
    SortedSetIsUnique(PrepareDocuments(s), PrepareDocuments(t), DocumentKey);
  }

  // ---------------------------------------------------------------- artifact references

  /** Digests are written in lower case. */
  function Lower(a: ArtifactRef): ArtifactRef {
    a.(upperCase := false)
  }

  function ArtifactId(a: ArtifactRef): Id { a.artifactId }

  function ByArtifact(a: ArtifactRef): Key { Key(0, a.artifactId) }

  function Lowered(refs: seq<ArtifactRef>): seq<ArtifactRef> {
    seq(|refs|, i requires 0 <= i < |refs| => Lower(refs[i]))
  }

  function ArtifactList(evidence: seq<Evidence>): seq<ArtifactRef> {
    if evidence == [] then []
    else ArtifactList(evidence[..|evidence| - 1]) + Lowered(evidence[|evidence| - 1].artifacts)
  }

  function ArtifactSet(evidence: set<Evidence>): set<ArtifactRef> {
    set e, a | e in evidence && a in e.artifacts :: Lower(a)
  }

  lemma {:induction false} ArtifactListSet(evidence: seq<Evidence>)
    ensures Elements(ArtifactList(evidence)) == ArtifactSet(Elements(evidence))
  {
    if evidence != [] {
      var n := |evidence| - 1;
      ArtifactListSet(evidence[..n]);
      LoweredSet(evidence[n]);
      assert Elements(evidence) == Elements(evidence[..n]) + {evidence[n]};
      ArtifactSetGrows(Elements(evidence[..n]), evidence[n]);
      ElementsOfSum(ArtifactList(evidence[..n]), Lowered(evidence[n].artifacts));
    }
  }

  lemma LoweredSet(e: Evidence)
    ensures Elements(Lowered(e.artifacts)) == ArtifactSet({e})
  {
    var own := Lowered(e.artifacts);
    forall a | a in e.artifacts ensures Lower(a) in own {
      var i := AtIndex(e.artifacts, a);
      assert own[i] == Lower(a);
    }
    forall a | a in own ensures a in ArtifactSet({e}) {
      var i := AtIndex(own, a);
      assert e.artifacts[i] in e.artifacts && e in {e};
    }
  }

  lemma ArtifactSetGrows(evidence: set<Evidence>, e: Evidence)
    ensures ArtifactSet(evidence + {e}) == ArtifactSet(evidence) + ArtifactSet({e})
  {
  }

  /** One reference per artifact id, sorted by id; none where two of them diverge. */
  function CollectArtifacts(s: Snapshot): Option<seq<ArtifactRef>> {
    match MergeById([], ArtifactList(s.evidence), ArtifactId)
    case None => None
    case Some(merged) => Some(SortOn(merged, ByArtifact))
  }

  lemma AgreeIsConsistent(v: View)
    ensures ArtifactsAgree(v) <==> Consistent(ArtifactSet(v.evidence), ArtifactId)
  {
    if Consistent(ArtifactSet(v.evidence), ArtifactId) {
      forall d, e, a, b | d in v.evidence && e in v.evidence && a in d.artifacts && b in e.artifacts
                          && a.artifactId == b.artifactId
        ensures SameArtifact(a, b)
      {
        assert Lower(a) in ArtifactSet(v.evidence) && Lower(b) in ArtifactSet(v.evidence);
      }
    }
  }

  /** References are collected exactly when the evidence agrees on them: every one, sorted, each id once. */
  lemma ArtifactsCollected(s: Snapshot)
    ensures CollectArtifacts(s).Some? <==> ArtifactsAgree(ViewOf(s))
    ensures CollectArtifacts(s).Some? ==>
      var refs := CollectArtifacts(s).value;
      && SortedOn(refs, ByArtifact) && UniqueOn(refs, ByArtifact)
      && Elements(refs) == ArtifactSet(ViewOf(s).evidence)
  {
    hide ArtifactsAgree;
    var refs := ArtifactList(s.evidence);
    ArtifactListSet(s.evidence);
    AgreeIsConsistent(ViewOf(s));
    var none: seq<ArtifactRef> := [];
    MergeAppends(none, refs, ArtifactId);
    MergeConflicts(none, refs, ArtifactId);
    assert Elements(none) + Elements(refs) == ArtifactSet(ViewOf(s).evidence);
    if CollectArtifacts(s).Some? {
      var merged := MergeById(none, refs, ArtifactId).value;
      forall i, j | 0 <= i < j < |merged| ensures ByArtifact(merged[i]) != ByArtifact(merged[j]) {
        assert ArtifactId(merged[i]) != ArtifactId(merged[j]);
      }
      SortKeepsUnique(merged, ByArtifact);
    }
  }

  lemma ArtifactsForgetOrder(s: Snapshot, t: Snapshot)
    requires ViewOf(s) == ViewOf(t) && ArtifactsAgree(ViewOf(s))
    ensures CollectArtifacts(s) == CollectArtifacts(t) && CollectArtifacts(s).Some?
  {
    hide ArtifactsAgree, CollectArtifacts;
    ArtifactsCollected(s);
    ArtifactsCollected(t);
    SortedSetIsUnique(CollectArtifacts(s).value, CollectArtifacts(t).value, ByArtifact);
  }

  // ---------------------------------------------------------------- the manifest

  function ByPath(e: DocumentEntry): Key { PathKey(e.path) }

  function ByArtifactId(e: ArtifactEntry): Key { Key(0, e.artifactId) }

  function DocumentEntryOf(d: Document): DocumentEntry {
    DocumentEntry(PathOf(d), Digest(CanonicalJson(d)))
  }

  function ArtifactEntryOf(a: ArtifactRef): ArtifactEntry {
    ArtifactEntry(a.artifactId, a.sha, a.sizeBytes, a.kind, a.media)
  }

  function DocumentEntries(docs: seq<Document>): (r: seq<DocumentEntry>)
    ensures |r| == |docs| && forall i | 0 <= i < |docs| :: r[i] == DocumentEntryOf(docs[i])
  {
    seq(|docs|, i requires 0 <= i < |docs| => DocumentEntryOf(docs[i]))
  }

  function ArtifactEntries(refs: seq<ArtifactRef>): (r: seq<ArtifactEntry>)
    ensures |r| == |refs| && forall i | 0 <= i < |refs| :: r[i] == ArtifactEntryOf(refs[i])
  {
    seq(|refs|, i requires 0 <= i < |refs| => ArtifactEntryOf(refs[i]))
  }

  /** What a snapshot id is the digest of: the entries in path and id order. */
  function BodyOf(caseId: Id, createdAt: Time, documents: seq<DocumentEntry>, artifacts: seq<ArtifactEntry>)
    : ManifestBody
  {
    ManifestBody(caseId, createdAt, SortOn(documents, ByPath), SortOn(artifacts, ByArtifactId))
  }

  function BuildManifest(caseId: Id, createdAt: Time, documents: seq<DocumentEntry>, artifacts: seq<ArtifactEntry>)
    : Manifest
  {
    var body := BodyOf(caseId, createdAt, documents, artifacts);
    Manifest(SnapshotDigest(body), Digest(body), caseId, createdAt, body.documents, body.artifacts, true)
  }

  /** The manifest that lists the documents of `s` in the directory of case `caseId`. */
  function ManifestUnder(caseId: Id, s: Snapshot, refs: seq<ArtifactRef>): Manifest {
    BuildManifest(caseId, s.manifest.updatedAt, DocumentEntries(PrepareDocuments(s)), ArtifactEntries(refs))
  }

  function ManifestOf(s: Snapshot, refs: seq<ArtifactRef>): Manifest {
    ManifestUnder(s.manifest.caseId, s, refs)
  }

  lemma EntriesSorted(docs: seq<Document>, refs: seq<ArtifactRef>)
    requires SortedOn(docs, DocumentKey) && UniqueOn(docs, DocumentKey)
    requires SortedOn(refs, ByArtifact) && UniqueOn(refs, ByArtifact)
    ensures SortedOn(DocumentEntries(docs), ByPath) && UniqueOn(DocumentEntries(docs), ByPath)
    ensures SortedOn(ArtifactEntries(refs), ByArtifactId) && UniqueOn(ArtifactEntries(refs), ByArtifactId)
    ensures SortOn(DocumentEntries(docs), ByPath) == DocumentEntries(docs)
    ensures SortOn(ArtifactEntries(refs), ByArtifactId) == ArtifactEntries(refs)
  {
    forall i | 0 <= i < |docs| ensures ByPath(DocumentEntries(docs)[i]) == DocumentKey(docs[i]) {
    }
    forall i | 0 <= i < |refs| ensures ByArtifactId(ArtifactEntries(refs)[i]) == ByArtifact(refs[i]) {
    }
    SortOfSorted(DocumentEntries(docs), ByPath);
    SortOfSorted(ArtifactEntries(refs), ByArtifactId);
  }

  /** Order independence: the order of a snapshot's collections does not reach its manifest, hence not its name. */
  lemma ManifestForgetsOrder(s: Snapshot, t: Snapshot)
    requires Valid(s) && NoDuplicates(t) && ViewOf(t) == ViewOf(s)
    ensures CollectArtifacts(s).Some? && CollectArtifacts(t) == CollectArtifacts(s)
    ensures PrepareDocuments(t) == PrepareDocuments(s)
    ensures ManifestOf(t, CollectArtifacts(t).value) == ManifestOf(s, CollectArtifacts(s).value)
  {
    hide ArtifactsAgree, CollectArtifacts, PrepareDocuments, DistinctIds;
    ValidIsKeyed(s);
    ValidIsKeyed(t);
    PreparedForgetsOrder(s, t);
    ArtifactsForgetOrder(s, t);
  }
}
