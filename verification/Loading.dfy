/** Reading a published snapshot back: which checks the loader makes and what they guarantee. */
module Loading {
  import opened Domain
  import opened Validation
  import opened Ordering
  import opened Codec
  import opened Manifests
  import Replay

  /** A directory below `snapshots/` or `staging/`: its manifest file and the files below `documents/`. */
  datatype SnapshotDir = SnapshotDir(manifest: Option<ManifestBytes>, documents: map<Path, DocumentBytes>)

  type Snapshots = map<SnapshotId, SnapshotDir>
  type Blobs = map<Digest<Blob>, Blob>

  function Decode(bytes: DocumentBytes): Option<Document> {
    match bytes
    case CanonicalJson(d) => Some(d)
    case OtherJson(decoded, _) => decoded
  }

  function DecodeManifest(bytes: ManifestBytes): Option<Manifest> {
    match bytes
    case CanonicalManifest(m) => Some(m)
    case OtherManifest(decoded, _) => decoded
  }

  predicate CanonicalPath(p: Path) {
    p.Path? && (p.kind.CaseKind? || p.kind.WorkflowKind? ==> p.id == 0)
  }

  const CASE_PATH := Path(CaseKind, 0)

  function Paths(entries: seq<DocumentEntry>): set<Path> {
    set e | e in entries :: e.path
  }

  /** `validateSnapshotManifest`, including the recomputed provenance. */
  predicate ManifestValid(m: Manifest, caseId: Id) {
    && m.wellFormed
    && m.caseId == caseId
    && (forall e | e in m.documents :: CanonicalPath(e.path))
    && UniqueOn(m.documents, ByPath)
    && CASE_PATH in Paths(m.documents)
    && UniqueOn(m.artifacts, ByArtifactId)
    && (forall a | a in m.artifacts :: a.sizeBytes >= 0)
    && m.contentSha == Digest(BodyOf(m.caseId, m.createdAt, m.documents, m.artifacts))
    && m.snapshotId == SnapshotDigest(BodyOf(m.caseId, m.createdAt, m.documents, m.artifacts))
  }

  function LoadManifest(dir: SnapshotDir, caseId: Id, id: SnapshotId, sha: Digest<ManifestBytes>): Option<Manifest> {
    if dir.manifest.None? || Digest(dir.manifest.value) != sha then None
    else
      match DecodeManifest(dir.manifest.value)
      case None => None
      case Some(m) => if ManifestValid(m, caseId) && m.snapshotId == id then Some(m) else None
  }

  /** The document files are exactly the listed ones, with the listed digests. */
  predicate FilesMatch(entries: seq<DocumentEntry>, files: map<Path, DocumentBytes>) {
    && files.Keys == Paths(entries)
    && forall e | e in entries :: e.path in files && Digest(files[e.path]) == e.sha
  }

  /** Every listed file decodes to a document that belongs at its path. */
  function DecodeAll(entries: seq<DocumentEntry>, files: map<Path, DocumentBytes>): Option<seq<Document>> {
    if entries == [] then Some([])
    else
      var n := |entries| - 1;
      match DecodeAll(entries[..n], files)
      case None => None
      case Some(docs) =>
        if entries[n].path !in files then None
        else
          match Decode(files[entries[n].path])
          case None => None
          case Some(d) => if PathOf(d) == entries[n].path then Some(docs + [d]) else None
  }

  /** Every manifest artifact matches a reference of the snapshot, and none is left over. */
  predicate ArtifactsMatch(artifacts: seq<ArtifactEntry>, s: Snapshot) {
    match CollectArtifacts(s)
    case None => false
    case Some(refs) =>
      |refs| == |artifacts| && forall a | a in artifacts :: a in ArtifactEntries(refs)
  }

  predicate BlobVerifies(blobs: Blobs, sha: Digest<Blob>, sizeBytes: int) {
    sha in blobs && Digest(blobs[sha]) == sha && blobs[sha].size == sizeBytes
  }

  /** `loadSnapshotAtCommit`: none stands for every error. */
  function LoadSnapshot(snapshots: Snapshots, blobs: Blobs, caseId: Id, id: SnapshotId, sha: Digest<ManifestBytes>)
    : Option<Snapshot>
  {
    if id !in snapshots then None
    else
      match LoadManifest(snapshots[id], caseId, id, sha)
      case None => None
      case Some(m) =>
        if !FilesMatch(m.documents, snapshots[id].documents) then None
        else
          match DecodeAll(m.documents, snapshots[id].documents)
          case None => None
          case Some(docs) =>
            match Assemble(docs)
            case None => None
            case Some(s) =>
              if && Valid(s)
                 && ArtifactsMatch(m.artifacts, s)
                 && DocumentEntries(PrepareDocuments(s)) == m.documents
                 && (forall a | a in m.artifacts :: BlobVerifies(blobs, a.sha, a.sizeBytes))
              then Some(s) else None
  }

  // ---------------------------------------------------------------- what a published snapshot looks like

  /** The files left by writing the documents one after the other. */
  function DocumentFiles(docs: seq<Document>): map<Path, DocumentBytes> {
    if docs == [] then map[]
    else DocumentFiles(docs[..|docs| - 1])[PathOf(docs[|docs| - 1]) := CanonicalJson(docs[|docs| - 1])]
  }

  lemma {:induction false} DocumentFilesAre(docs: seq<Document>)
    requires UniqueOn(docs, DocumentKey)
    ensures DocumentFiles(docs).Keys == (set d | d in docs :: PathOf(d))
    ensures forall d | d in docs ::
      PathOf(d) in DocumentFiles(docs) && DocumentFiles(docs)[PathOf(d)] == CanonicalJson(d)
  {
    if docs != [] {
      var n := |docs| - 1;
      DocumentFilesAre(docs[..n]);
      hide PathOf, PathKey;
      forall d | d in docs[..n] ensures PathOf(d) != PathOf(docs[n]) {
        var i := AtIndex(docs[..n], d);
        assert DocumentKey(docs[i]) != DocumentKey(docs[n]);
      }
      assert docs == docs[..n] + [docs[n]];
    }
  }

  lemma {:induction false} DecodeAllWritten(docs: seq<Document>, files: map<Path, DocumentBytes>)
    requires forall d | d in docs :: PathOf(d) in files && files[PathOf(d)] == CanonicalJson(d)
    ensures DecodeAll(DocumentEntries(docs), files) == Some(docs)
  {
    if docs != [] {
      var n := |docs| - 1;
      DecodeAllWritten(docs[..n], files);
      assert DocumentEntries(docs)[..n] == DocumentEntries(docs[..n]);
      assert docs == docs[..n] + [docs[n]];
    }
  }

  function PublishedDir(s: Snapshot, refs: seq<ArtifactRef>): SnapshotDir {
    SnapshotDir(Some(CanonicalManifest(ManifestOf(s, refs))), DocumentFiles(PrepareDocuments(s)))
  }

  /** The bytes every reference names are stored under their digest. */
  predicate Ingested(blobs: Blobs, refs: seq<ArtifactRef>) {
    forall a | a in refs :: BlobVerifies(blobs, a.sha, a.sizeBytes)
  }

  lemma CanonicalKeepsView(s: Snapshot)
    ensures ViewOf(Canonical(s)) == ViewOf(s)
  {
    hide Canonical;
    var t := Canonical(s);
    CanonicalRearranges(s);
    SameElements(s.targets, t.targets);
    SameElements(s.evidence, t.evidence);
    SameElements(s.findings, t.findings);
    SameElements(s.plans, t.plans);
    SameElements(s.executions, t.executions);
    SameElements(s.verifications, t.verifications);
    SameElements(s.events, t.events);
    SameElements(s.acquisitions, t.acquisitions);
    SameElements(s.consultations, t.consultations);
  }

  lemma CanonicalIsKeyed(s: Snapshot)
    requires Keyed(s)
    ensures Keyed(Canonical(s)) && NoDuplicates(Canonical(s))
  {
    SortKeepsUnique(s.targets, ByTarget);
    SortKeepsUnique(s.evidence, ByEvidence);
    SortKeepsUnique(s.findings, ByFinding);
    SortKeepsUnique(s.plans, ByPlan);
    SortKeepsUnique(s.executions, ByExecution);
    SortKeepsUnique(s.verifications, ByVerification);
    SortKeepsUnique(s.events, ByEvent);
    SortKeepsUnique(s.acquisitions, ByAcquisition);
    SortKeepsUnique(s.consultations, ByConsultation);
  }

  lemma ValidHasKeys(s: Snapshot)
    requires Valid(s)
    ensures Keyed(s)
  {
    hide ValidCase, ValidDocuments, ValidEvents, ValidWorkflow;
    ValidIsKeyed(s);
  }

  lemma CanonicalStaysValid(s: Snapshot)
    requires Valid(s)
    ensures Valid(Canonical(s))
  {
    hide ValidView, Canonical, Keyed, NoDuplicates;
    ValidHasKeys(s);
    CanonicalIsKeyed(s);
    CanonicalKeepsView(s);
  }

  lemma CanonicalTwice(s: Snapshot)
    requires Keyed(s)
    ensures Canonical(Canonical(s)) == Canonical(s)
  {
    hide Canonical, Keyed;
    CanonicalRearranges(s);
    CanonicalForgetsOrder(s, Canonical(s));
  }

  // ---------------------------------------------------------------- round trip

  lemma ManifestIsValid(caseId: Id, s: Snapshot, refs: seq<ArtifactRef>)
    requires Valid(s) && CollectArtifacts(s) == Some(refs)
    ensures var m := ManifestUnder(caseId, s, refs);
      && m.documents == DocumentEntries(PrepareDocuments(s))
      && m.artifacts == ArtifactEntries(refs)
      && ManifestValid(m, caseId)
  {
    hide Valid, PrepareDocuments, CollectArtifacts, HasDocument, SortOn, DocumentKey;
    ValidHasKeys(s);
    PreparedExactly(s);
    ArtifactsCollected(s);
    var docs := PrepareDocuments(s);
    EntriesSorted(docs, refs);
    assert HasDocument(ViewOf(s), CaseDocument(s.manifest)) by {
      SegmentMembers(s, CaseKind, CaseDocument(s.manifest));
    }
    var i := AtIndex(docs, CaseDocument(s.manifest));
    assert DocumentEntries(docs)[i].path == CASE_PATH;
    ReferencesAreSized(s);
    forall a | a in ArtifactEntries(refs) ensures a.sizeBytes >= 0 {
      var k := AtIndex(ArtifactEntries(refs), a);
      assert refs[k] in Elements(refs);
    }
  }

  lemma ReferencesAreSized(s: Snapshot)
    requires Valid(s)
    ensures forall a | a in ArtifactSet(ViewOf(s).evidence) :: a.sizeBytes >= 0
  {
    hide ValidEvents, ValidWorkflow, DistinctIds, ArtifactsAgree, NoDuplicates;
    forall a | a in ArtifactSet(ViewOf(s).evidence) ensures a.sizeBytes >= 0 {
      var e, b :| e in ViewOf(s).evidence && b in e.artifacts && Lower(b) == a;
      assert ValidEvidence(ViewOf(s), e) && ValidArtifact(b);
    }
  }

  lemma ArtifactsMatchOwn(s: Snapshot, refs: seq<ArtifactRef>, t: Snapshot)
    requires ViewOf(t) == ViewOf(s) && ArtifactsAgree(ViewOf(s)) && CollectArtifacts(s) == Some(refs)
    ensures ArtifactsMatch(ArtifactEntries(refs), t)
  {
    hide ArtifactsAgree, CollectArtifacts;
    ArtifactsForgetOrder(s, t);
  }

  lemma PathsOfEntries(docs: seq<Document>)
    ensures Paths(DocumentEntries(docs)) == (set d | d in docs :: PathOf(d))
  {
    hide PathOf;
    var entries := DocumentEntries(docs);
    forall d | d in docs ensures PathOf(d) in Paths(entries) {
      var i := AtIndex(docs, d);
      assert entries[i].path == PathOf(d);
    }
    forall e | e in entries ensures exists d :: d in docs && PathOf(d) == e.path {
      var i := AtIndex(entries, e);
      assert docs[i] in docs;
    }
  }

  lemma FilesMatchPublished(docs: seq<Document>)
    requires UniqueOn(docs, DocumentKey)
    ensures FilesMatch(DocumentEntries(docs), DocumentFiles(docs))
    ensures DecodeAll(DocumentEntries(docs), DocumentFiles(docs)) == Some(docs)
  {
    hide UniqueOn, DocumentKey, DocumentFiles, DecodeAll, PathOf;
    DocumentFilesAre(docs);
    DecodeAllWritten(docs, DocumentFiles(docs));
    PathsOfEntries(docs);
    var entries := DocumentEntries(docs);
    forall e | e in entries ensures e.path in DocumentFiles(docs) && Digest(DocumentFiles(docs)[e.path]) == e.sha {
      var i := AtIndex(entries, e);
      assert docs[i] in docs;
    }
  }

  /** The loader compares the case id of manifest and record with the directory, not the one in the case document: the
      documents of any valid snapshot, listed under any case id, are loaded for that case. */
  lemma LoadsUnderAnyCase(caseId: Id, s: Snapshot, refs: seq<ArtifactRef>, snapshots: Snapshots, blobs: Blobs)
    requires Valid(s) && CollectArtifacts(s) == Some(refs)
    requires var m := ManifestUnder(caseId, s, refs);
      m.snapshotId in snapshots
      && snapshots[m.snapshotId] == SnapshotDir(Some(CanonicalManifest(m)), DocumentFiles(PrepareDocuments(s)))
    requires Ingested(blobs, refs)
    ensures var m := ManifestUnder(caseId, s, refs);
      LoadSnapshot(snapshots, blobs, caseId, m.snapshotId, Digest(CanonicalManifest(m))) == Some(Canonical(s))
  {
    hide Valid, PrepareDocuments, CollectArtifacts, HasDocument, SortOn, DocumentKey, ManifestUnder, ManifestValid,
         FilesMatch, DecodeAll, DocumentFiles, Assemble, Canonical, ArtifactsMatch, Keyed, ArtifactsAgree;
    var docs := PrepareDocuments(s);
    var m := ManifestUnder(caseId, s, refs);
    var t := Canonical(s);
    ValidHasKeys(s);
    PreparedExactly(s);
    ManifestIsValid(caseId, s, refs);
    FilesMatchPublished(docs);
    AssembleInvertsPrepare(s);
    CanonicalStaysValid(s);
    CanonicalKeepsView(s);
    CanonicalIsKeyed(s);
    ArtifactsCollected(s);
    ArtifactsMatchOwn(s, refs, t);
    PreparedForgetsOrder(s, t);
    forall a | a in m.artifacts ensures BlobVerifies(blobs, a.sha, a.sizeBytes) {
      var k := AtIndex(ArtifactEntries(refs), a);
      assert refs[k] in refs;
    }
  }

  /** Round trip: a valid snapshot, once published with its blobs, is loaded back as itself in canonical order. */
  lemma RoundTrip(s: Snapshot, refs: seq<ArtifactRef>, snapshots: Snapshots, blobs: Blobs)
    requires Valid(s) && CollectArtifacts(s) == Some(refs)
    requires var m := ManifestOf(s, refs);
      m.snapshotId in snapshots && snapshots[m.snapshotId] == PublishedDir(s, refs)
    requires Ingested(blobs, refs)
    ensures var m := ManifestOf(s, refs);
      LoadSnapshot(snapshots, blobs, s.manifest.caseId, m.snapshotId, Digest(CanonicalManifest(m)))
      == Some(Canonical(s))
  {
    hide Valid, PrepareDocuments, CollectArtifacts, ManifestUnder, DocumentFiles, Canonical, LoadSnapshot;
    LoadsUnderAnyCase(s.manifest.caseId, s, refs, snapshots, blobs);
  }

  // ---------------------------------------------------------------- soundness

  lemma SameEntriesSameDocuments(a: seq<Document>, b: seq<Document>)
    requires DocumentEntries(a) == DocumentEntries(b)
    ensures a == b
  {
    forall i | 0 <= i < |a| ensures a[i] == b[i] {
      assert DocumentEntries(a)[i] == DocumentEntries(b)[i];
    }
  }

  lemma MatchedArtifactsSorted(artifacts: seq<ArtifactEntry>, s: Snapshot, refs: seq<ArtifactRef>)
    requires ArtifactsMatch(artifacts, s) && UniqueOn(artifacts, ByArtifactId) && CollectArtifacts(s) == Some(refs)
    ensures SortOn(artifacts, ByArtifactId) == ArtifactEntries(refs)
  {
    hide CollectArtifacts;
    ArtifactsCollected(s);
    var own := ArtifactEntries(refs);
    EntriesSorted([], refs);
    SortKeepsUnique(artifacts, ByArtifactId);
    UniqueHasNoRepeats(artifacts, ByArtifactId);
    UniqueHasNoRepeats(own, ByArtifactId);
    SameSizeSubset(artifacts, own);
    SortedSetIsUnique(SortOn(artifacts, ByArtifactId), own, ByArtifactId);
  }

  lemma SameSizeSubset<T>(a: seq<T>, b: seq<T>)
    requires NoRepeats(a) && NoRepeats(b) && |a| == |b| && forall x | x in a :: x in b
    ensures Elements(a) == Elements(b)
  {
    Replay.DistinctSeqSize(a);
    Replay.DistinctSeqSize(b);
    Replay.SubsetOfEqualSize(Elements(a), Elements(b));
  }

  /** What the loader returns is valid and in canonical order, and the snapshot id is the digest of its own documents
      and artifacts. */
  lemma LoadIsSound(snapshots: Snapshots, blobs: Blobs, caseId: Id, id: SnapshotId, sha: Digest<ManifestBytes>)
    requires LoadSnapshot(snapshots, blobs, caseId, id, sha).Some?
    ensures var s := LoadSnapshot(snapshots, blobs, caseId, id, sha).value;
      && Valid(s) && Canonical(s) == s
      && CollectArtifacts(s).Some? && Ingested(blobs, CollectArtifacts(s).value)
      && id == BuildManifest(caseId, id.body.createdAt, DocumentEntries(PrepareDocuments(s)),
                             ArtifactEntries(CollectArtifacts(s).value)).snapshotId
  {
    hide Valid, PrepareDocuments, CollectArtifacts, SortOn, FilesMatch, DecodeAll, Keyed, Canonical, HasDocument,
         DocumentKey;
    var m := LoadManifest(snapshots[id], caseId, id, sha).value;
    var docs := DecodeAll(m.documents, snapshots[id].documents).value;
    var s := Assemble(docs).value;
    var refs := CollectArtifacts(s).value;
    ValidHasKeys(s);
    PreparedExactly(s);
    ArtifactsCollected(s);
    EntriesSorted(PrepareDocuments(s), refs);
    MatchedArtifactsSorted(m.artifacts, s, refs);
    assert Canonical(s) == s by {
      AssembledIsCanonical(docs);
    }
    forall a | a in refs ensures BlobVerifies(blobs, a.sha, a.sizeBytes) {
      var k := AtIndex(refs, a);
      SortedBack(m.artifacts, refs);
      assert ArtifactEntries(refs)[k] in Elements(m.artifacts);
    }
  }

  lemma SortedBack(artifacts: seq<ArtifactEntry>, refs: seq<ArtifactRef>)
    requires SortOn(artifacts, ByArtifactId) == ArtifactEntries(refs)
    ensures Elements(artifacts) == Elements(ArtifactEntries(refs))
  {
    SortOnSorts(artifacts, ByArtifactId);
    SameElements(SortOn(artifacts, ByArtifactId), artifacts);
  }

  lemma AssembledIsCanonical(docs: seq<Document>)
    requires Assemble(docs).Some? && Keyed(Assemble(docs).value)
    ensures Canonical(Assemble(docs).value) == Assemble(docs).value
  {
    hide Canonical, Collect, Keyed;
    var cases := Collect(docs, AsCase);
    var workflows := Collect(docs, AsWorkflow);
    var raw := Collected(cases[0], if workflows == [] then None else Some(workflows[|workflows| - 1]), docs);
    CanonicalRearranges(raw);
    RearrangedKeyed(Canonical(raw), raw);
    CanonicalTwice(raw);
  }

  lemma RearrangedKeyed(s: Snapshot, t: Snapshot)
    requires Rearranged(t, s) && Keyed(s)
    ensures Keyed(t)
  {
    UniquenessIsOrderFree(s.targets, t.targets, ByTarget);
    UniquenessIsOrderFree(s.evidence, t.evidence, ByEvidence);
    UniquenessIsOrderFree(s.findings, t.findings, ByFinding);
    UniquenessIsOrderFree(s.plans, t.plans, ByPlan);
    UniquenessIsOrderFree(s.executions, t.executions, ByExecution);
    UniquenessIsOrderFree(s.verifications, t.verifications, ByVerification);
    UniquenessIsOrderFree(s.events, t.events, ByEvent);
    UniquenessIsOrderFree(s.acquisitions, t.acquisitions, ByAcquisition);
    UniquenessIsOrderFree(s.consultations, t.consultations, ByConsultation);
  }

  /** A snapshot id names one snapshot: whatever the two stores hold, and whatever else they lost, both loads agree. */
  lemma IdNamesOneSnapshot(snapshots: Snapshots, blobs: Blobs, sha: Digest<ManifestBytes>, snapshots': Snapshots,
                           blobs': Blobs, sha': Digest<ManifestBytes>, caseId: Id, id: SnapshotId)
    requires LoadSnapshot(snapshots, blobs, caseId, id, sha).Some?
    requires LoadSnapshot(snapshots', blobs', caseId, id, sha').Some?
    ensures LoadSnapshot(snapshots, blobs, caseId, id, sha) == LoadSnapshot(snapshots', blobs', caseId, id, sha')
  {
    hide Valid, PrepareDocuments, CollectArtifacts, SortOn, Keyed, Canonical, HasDocument, DocumentKey, LoadSnapshot;
    LoadIsSound(snapshots, blobs, caseId, id, sha);
    LoadIsSound(snapshots', blobs', caseId, id, sha');
    SameNameSameSnapshot(LoadSnapshot(snapshots, blobs, caseId, id, sha).value,
                         LoadSnapshot(snapshots', blobs', caseId, id, sha').value, caseId, id);
  }

  /** Two valid snapshots published under one name are rearrangements of each other. */
  lemma SameNameSameSnapshot(s: Snapshot, t: Snapshot, caseId: Id, id: SnapshotId)
    requires Valid(s) && Valid(t) && CollectArtifacts(s).Some? && CollectArtifacts(t).Some?
    requires id == BuildManifest(caseId, id.body.createdAt, DocumentEntries(PrepareDocuments(s)),
                                 ArtifactEntries(CollectArtifacts(s).value)).snapshotId
    requires id == BuildManifest(caseId, id.body.createdAt, DocumentEntries(PrepareDocuments(t)),
                                 ArtifactEntries(CollectArtifacts(t).value)).snapshotId
    ensures Canonical(s) == Canonical(t)
  {
    hide Valid, PrepareDocuments, CollectArtifacts, SortOn, Keyed, Canonical, HasDocument, DocumentKey, Assemble;
    ValidHasKeys(s);
    ValidHasKeys(t);
    PreparedExactly(s);
    PreparedExactly(t);
    ArtifactsCollected(s);
    ArtifactsCollected(t);
    EntriesSorted(PrepareDocuments(s), CollectArtifacts(s).value);
    EntriesSorted(PrepareDocuments(t), CollectArtifacts(t).value);
    SameEntriesSameDocuments(PrepareDocuments(s), PrepareDocuments(t));
    AssembleInvertsPrepare(s);
    AssembleInvertsPrepare(t);
  }

  // ---------------------------------------------------------------- additions do not disturb a load

  predicate Extends<K(==), V(==)>(before: map<K, V>, after: map<K, V>) {
    forall k | k in before :: k in after && after[k] == before[k]
  }

  /** More snapshots and more blobs never change what a successful load returns. */
  lemma LoadIsStable(snapshots: Snapshots, blobs: Blobs, snapshots': Snapshots, blobs': Blobs, caseId: Id,
                     id: SnapshotId, sha: Digest<ManifestBytes>)
    requires Extends(snapshots, snapshots') && Extends(blobs, blobs')
    requires LoadSnapshot(snapshots, blobs, caseId, id, sha).Some?
    ensures LoadSnapshot(snapshots', blobs', caseId, id, sha) == LoadSnapshot(snapshots, blobs, caseId, id, sha)
  {
    hide Valid, PrepareDocuments, ArtifactsMatch, FilesMatch, DecodeAll, Assemble, LoadManifest;
  }
}
