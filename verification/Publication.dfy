/** What a commit needs and what it writes, as functions of the case directory. */
module Publication {
  import opened Domain
  import opened Validation
  import opened Ordering
  import opened Codec
  import opened Manifests
  import opened Loading
  import opened Chain
  import opened History

  /** The optimistic precondition on the head of the chain. */
  datatype Expectation = AnyParent | AbsentParent | ExpectCommit(id: CommitId)

  /** `provider` holds the bytes each artifact id can be opened to. */
  datatype Request = Request(snapshot: Snapshot, provider: map<Id, Blob>, reason: CommitReason, parent: Expectation)

  function CheckParent(p: Expectation, chain: seq<CommitRecord>): Option<Error> {
    match p
    case AnyParent => None
    case AbsentParent => if chain == [] then None else Some(CaseExists)
    case ExpectCommit(id) =>
      if chain != [] && chain[|chain| - 1].commitId == id then None else Some(RevisionConflict)
  }

  // ---------------------------------------------------------------- provenance of acquisitions

  function EvidenceIds(s: Snapshot): set<Id> {
    set e | e in s.evidence :: e.evidenceId
  }

  function TargetIds(s: Snapshot): set<Id> {
    set t | t in s.targets :: t.targetId
  }

  /** The inputs existed in the source, what was added did not, and it is there now. */
  predicate SourcedFrom(source: Snapshot, s: Snapshot, a: Acquisition) {
    && Elements(a.inputEvidence) <= EvidenceIds(source)
    && Elements(a.addedEvidence) !! EvidenceIds(source) && Elements(a.addedEvidence) <= EvidenceIds(s)
    && Elements(a.addedTargets) !! TargetIds(source) && Elements(a.addedTargets) <= TargetIds(s)
  }

  /** The source commit of `a` is commit `k` of the chain, and `a` fits the snapshot of that commit. */
  predicate SourcedAt(d: Disk, caseId: Id, chain: seq<CommitRecord>, k: nat, s: Snapshot, a: Acquisition) {
    && k < |chain| && chain[k].commitId == a.sourceCommit
    && LoadAt(d, caseId, chain[k]).Some?
    && SourcedFrom(LoadAt(d, caseId, chain[k]).value, s, a)
  }

  predicate Sourced(d: Disk, caseId: Id, chain: seq<CommitRecord>, at: nat, s: Snapshot, a: Acquisition) {
    exists k :: 0 <= k < at && SourcedAt(d, caseId, chain, k, s, a)
  }

  /** `validateAcquisitionCommitProvenance` for the snapshot at position `at` of the chain, or about to be put there. */
  predicate ProvenanceHolds(d: Disk, caseId: Id, chain: seq<CommitRecord>, at: nat, s: Snapshot) {
    forall a | a in s.acquisitions :: Sourced(d, caseId, chain, at, s, a)
  }

  predicate HasEvidence(s: Snapshot, id: Id) {
    exists e | e in s.evidence :: e.evidenceId == id
  }

  predicate HasTarget(s: Snapshot, id: Id) {
    exists t | t in s.targets :: t.targetId == id
  }

  /** Some commit of the history is the one `a` names: it had all that was read and nothing of what was added. */
  predicate HasSource(log: Log, s: Snapshot, a: Acquisition) {
    exists k | 0 <= k < |log| ::
      && log[k].record.commitId == a.sourceCommit
      && (forall id | id in a.inputEvidence :: HasEvidence(log[k].snapshot, id))
      && (forall id | id in a.addedEvidence :: !HasEvidence(log[k].snapshot, id) && HasEvidence(s, id))
      && (forall id | id in a.addedTargets :: !HasTarget(log[k].snapshot, id) && HasTarget(s, id))
  }

  lemma SourcedFromIff(source: Snapshot, s: Snapshot, a: Acquisition)
    ensures SourcedFrom(source, s, a) <==>
      && (forall id | id in a.inputEvidence :: HasEvidence(source, id))
      && (forall id | id in a.addedEvidence :: !HasEvidence(source, id) && HasEvidence(s, id))
      && (forall id | id in a.addedTargets :: !HasTarget(source, id) && HasTarget(s, id))
  {
    forall id ensures id in EvidenceIds(source) <==> HasEvidence(source, id) {
    }
    forall id ensures id in EvidenceIds(s) <==> HasEvidence(s, id) {
    }
    forall id ensures id in TargetIds(source) <==> HasTarget(source, id) {
    }
    forall id ensures id in TargetIds(s) <==> HasTarget(s, id) {
    }
  }

  lemma SourcedIff(d: Disk, caseId: Id, log: Log, at: nat, s: Snapshot, a: Acquisition)
    requires HasHistory(d, caseId, log) && at <= |log|
    ensures Sourced(d, caseId, RecordsOf(log), at, s, a) <==> HasSource(log[..at], s, a)
  {
    hide LoadAt, SourcedFrom, IsChain, HasEvidence, HasTarget;
    var chain, before := RecordsOf(log), log[..at];
    forall k | 0 <= k < at
      ensures LoadAt(d, caseId, chain[k]) == Some(before[k].snapshot) && chain[k] == before[k].record
    {
      assert LoadsAt(d, caseId, log[k]);
    }
    if k :| 0 <= k < at && SourcedAt(d, caseId, chain, k, s, a) {
      SourcedFromIff(before[k].snapshot, s, a);
      assert before[k].record.commitId == a.sourceCommit;
    }
    if HasSource(before, s, a) {
      var k :| 0 <= k < at && before[k].record.commitId == a.sourceCommit
        && (forall id | id in a.inputEvidence :: HasEvidence(before[k].snapshot, id))
        && (forall id | id in a.addedEvidence :: !HasEvidence(before[k].snapshot, id) && HasEvidence(s, id))
        && (forall id | id in a.addedTargets :: !HasTarget(before[k].snapshot, id) && HasTarget(s, id));
      SourcedFromIff(before[k].snapshot, s, a);
      assert SourcedAt(d, caseId, chain, k, s, a);
    }
  }

  /** The provenance check at a position passes exactly when each acquisition comes from an earlier commit. */
  lemma ProvenanceIff(d: Disk, caseId: Id, log: Log, at: nat, s: Snapshot)
    requires HasHistory(d, caseId, log) && at <= |log|
    ensures ProvenanceHolds(d, caseId, RecordsOf(log), at, s) <==>
      forall a | a in s.acquisitions :: HasSource(log[..at], s, a)
  {
    hide Sourced, HasSource, HasHistory;
    forall a ensures Sourced(d, caseId, RecordsOf(log), at, s, a) <==> HasSource(log[..at], s, a) {
      SourcedIff(d, caseId, log, at, s, a);
    }
  }

  // ---------------------------------------------------------------- blobs

  /** An existing blob is verified, a missing one is copied from the provider and checked. */
  function IngestOne(blobs: Blobs, provider: map<Id, Blob>, a: ArtifactRef): Option<Blobs> {
    if a.sha in blobs then
      if BlobVerifies(blobs, a.sha, a.sizeBytes) then Some(blobs) else None
    else if a.artifactId !in provider then None
    else
      var bytes := provider[a.artifactId];
      if bytes.size == a.sizeBytes && Digest(bytes) == a.sha then Some(blobs[a.sha := bytes]) else None
  }

  function IngestAll(blobs: Blobs, provider: map<Id, Blob>, refs: seq<ArtifactRef>): (r: Option<Blobs>)
    ensures r.Some? ==> Extends(blobs, r.value) && Ingested(r.value, refs)
  {
    if refs == [] then Some(blobs)
    else
      var n := |refs| - 1;
      match IngestAll(blobs, provider, refs[..n])
      case None => None
      case Some(some) =>
        assert forall a | a in refs :: a in refs[..n] || a == refs[n];
        IngestOne(some, provider, refs[n])
  }

  /** Exactly the first `k` references have been ingested. */
  predicate IngestedUpTo(before: Blobs, after: Blobs, provider: map<Id, Blob>, refs: seq<ArtifactRef>, k: nat) {
    k <= |refs| && IngestAll(before, provider, refs[..k]) == Some(after)
  }

  lemma {:induction false} IngestedAlready(blobs: Blobs, provider: map<Id, Blob>, refs: seq<ArtifactRef>)
    requires Ingested(blobs, refs)
    ensures IngestAll(blobs, provider, refs) == Some(blobs)
  {
    if refs != [] {
      IngestedAlready(blobs, provider, refs[..|refs| - 1]);
    }
  }

  /** Ingestion picks up where an interrupted one stopped. */
  lemma {:induction false} IngestResumes(blobs: Blobs, provider: map<Id, Blob>, refs: seq<ArtifactRef>, k: nat)
    requires k <= |refs| && IngestAll(blobs, provider, refs[..k]).Some?
    ensures IngestAll(IngestAll(blobs, provider, refs[..k]).value, provider, refs) == IngestAll(blobs, provider, refs)
    decreases |refs| - k
  {
    hide IngestOne, Ingested, Extends;
    var some := IngestAll(blobs, provider, refs[..k]).value;
    if k == |refs| {
      assert refs[..k] == refs;
      IngestedAlready(some, provider, refs);
    } else {
      var n := |refs| - 1;
      assert refs[..n][..k] == refs[..k];
      IngestResumes(blobs, provider, refs[..n], k);
    }
  }

  lemma {:induction false} IngestPrefix(blobs: Blobs, provider: map<Id, Blob>, refs: seq<ArtifactRef>, k: nat)
    requires k <= |refs| && IngestAll(blobs, provider, refs).Some?
    ensures IngestAll(blobs, provider, refs[..k]).Some?
  {
    if k < |refs| {
      var n := |refs| - 1;
      IngestPrefix(blobs, provider, refs[..n], k);
      assert refs[..n][..k] == refs[..k];
    } else {
      assert refs[..k] == refs;
    }
  }

  // ---------------------------------------------------------------- what a commit publishes

  function Refs(s: Snapshot): seq<ArtifactRef> {
    match CollectArtifacts(s)
    case None => []
    case Some(refs) => refs
  }

  function ManifestFor(s: Snapshot): Manifest {
    ManifestOf(s, Refs(s))
  }

  function IdFor(s: Snapshot): SnapshotId {
    ManifestFor(s).snapshotId
  }

  function DirFor(s: Snapshot): SnapshotDir {
    PublishedDir(s, Refs(s))
  }

  function NextRecord(caseId: Id, chain: seq<CommitRecord>, s: Snapshot, now: Time, reason: CommitReason)
    : CommitRecord
  {
    var parent := if chain == [] then NoParent else ParentCommit(chain[|chain| - 1].commitId);
    var sequence := if chain == [] then 1 else chain[|chain| - 1].body.sequence + 1;
    var body := CommitBody(caseId, sequence, parent, IdFor(s), Digest(CanonicalManifest(ManifestFor(s))), now, reason);
    CommitRecord(CommitDigest(body), body, true)
  }

  predicate KnownReason(reason: CommitReason) {
    !reason.OtherReason?
  }

  lemma NextRecordContinues(caseId: Id, chain: seq<CommitRecord>, s: Snapshot, now: Time, reason: CommitReason)
    requires Linked(chain) && KnownReason(reason)
    ensures RecordValid(NextRecord(caseId, chain, s, now, reason), caseId)
    ensures Continues(chain, NextRecord(caseId, chain, s, now, reason))
  {
    if chain != [] {
      LinkedSequence(chain, |chain| - 1);
    }
  }

  lemma RefsAreCollected(s: Snapshot)
    requires Valid(s)
    ensures CollectArtifacts(s) == Some(Refs(s))
  {
    hide CollectArtifacts;
    ArtifactsCollected(s);
  }

  /** Once its directory and its blobs are in place, the snapshot loads as itself in canonical order. */
  lemma PublishedLoads(d: Disk, s: Snapshot)
    requires Valid(s) && IdFor(s) in d.snapshots && d.snapshots[IdFor(s)] == DirFor(s) && Ingested(d.blobs, Refs(s))
    ensures LoadSnapshot(d.snapshots, d.blobs, s.manifest.caseId, IdFor(s), Digest(CanonicalManifest(ManifestFor(s))))
            == Some(Canonical(s))
  {
    hide Valid, ManifestOf, CollectArtifacts, LoadSnapshot, Canonical, PublishedDir, Refs;
    RefsAreCollected(s);
    RoundTrip(s, Refs(s), d.snapshots, d.blobs);
  }

  lemma SameFiles(entries: seq<DocumentEntry>, a: map<Path, DocumentBytes>, b: map<Path, DocumentBytes>)
    requires FilesMatch(entries, a) && FilesMatch(entries, b)
    ensures a == b
  {
    forall p | p in a ensures a[p] == b[p] {
      assert p in Paths(entries);
      var e :| e in entries && e.path == p;
    }
  }

  /** An orphan verifies exactly when it is, file by file, what the commit would have published. */
  lemma OrphanVerifiesIff(d: Disk, s: Snapshot)
    requires Valid(s) && IdFor(s) in d.snapshots && Ingested(d.blobs, Refs(s))
    ensures LoadSnapshot(d.snapshots, d.blobs, s.manifest.caseId, IdFor(s),
                         Digest(CanonicalManifest(ManifestFor(s)))).Some?
            <==> d.snapshots[IdFor(s)] == DirFor(s)
  {
    hide Valid, ManifestUnder, CollectArtifacts, Canonical, Refs, ManifestValid, FilesMatch, DecodeAll, DocumentFiles,
         Assemble, ArtifactsMatch, PrepareDocuments, Ingested, DocumentKey;
    if d.snapshots[IdFor(s)] == DirFor(s) {
      PublishedLoads(d, s);
    } else if LoadSnapshot(d.snapshots, d.blobs, s.manifest.caseId, IdFor(s),
                           Digest(CanonicalManifest(ManifestFor(s)))).Some? {
      RefsAreCollected(s);
      ManifestIsValid(s.manifest.caseId, s, Refs(s));
      ValidHasKeys(s);
      PreparedExactly(s);
      FilesMatchPublished(PrepareDocuments(s));
      SameFiles(ManifestFor(s).documents, d.snapshots[IdFor(s)].documents, DirFor(s).documents);
      assert false;
    }
  }

  // ---------------------------------------------------------------- when a commit goes through

  /** The head already is this snapshot, and the caller did not ask for creation only. */
  predicate IdempotentHead(log: Log, req: Request) {
    log != [] && !req.parent.AbsentParent? && log[|log| - 1].record.body.snapshotId == IdFor(req.snapshot)
  }

  datatype Decision = Reject(error: Error) | Reuse | Proceed

  /** Everything decided before the first write: the idempotent head comes before the parent check. */
  function Decide(d: Disk, caseId: Id, log: Log, req: Request): Decision {
    if !ProvenanceHolds(d, caseId, RecordsOf(log), |log|, req.snapshot) then Reject(CaseCorrupt)
    else if IdempotentHead(log, req) then Reuse
    else
      match CheckParent(req.parent, RecordsOf(log))
      case Some(e) => Reject(e)
      case None => Proceed
  }

  /** The idempotent answer is right: a head under the same snapshot id is the requested snapshot. */
  lemma IdempotentIsHead(d: Disk, caseId: Id, log: Log, req: Request)
    requires HasHistory(d, caseId, log) && Valid(req.snapshot) && IdempotentHead(log, req)
    ensures log[|log| - 1].snapshot == Canonical(req.snapshot)
  {
    hide Valid, Canonical, PrepareDocuments, CollectArtifacts, SortOn, LoadSnapshot, IsChain;
    var head := log[|log| - 1];
    var id := head.record.body.snapshotId;
    EntryIsCommitted(d, caseId, log, |log| - 1);
    LoadIsSound(d.snapshots, d.blobs, caseId, id, head.record.body.manifestSha);
    RefsAreCollected(req.snapshot);
    SameNameSameSnapshot(head.snapshot, req.snapshot, caseId, id);
  }

  /** Artifacts can be ingested and an orphan of the same name, if any, is intact. */
  predicate Material(d: Disk, req: Request) {
    && IngestAll(d.blobs, req.provider, Refs(req.snapshot)).Some?
    && (IdFor(req.snapshot) in d.snapshots ==> d.snapshots[IdFor(req.snapshot)] == DirFor(req.snapshot))
  }

  lemma DecisionStands(before: Disk, after: Disk, caseId: Id, log: Log, req: Request)
    requires Grows(before, after) && HasHistory(before, caseId, log)
    ensures Decide(after, caseId, log, req) == Decide(before, caseId, log, req)
  {
    hide LoadAt, SourcedFrom, Grows, IdempotentHead, CheckParent;
    forall k | 0 <= k < |log|
      ensures LoadAt(after, caseId, RecordsOf(log)[k]) == LoadAt(before, caseId, RecordsOf(log)[k])
    {
      assert LoadsAt(before, caseId, log[k]);
      HistoryKept(before, after, caseId, log);
      assert LoadsAt(after, caseId, log[k]);
    }
    SameProvenance(before, after, caseId, RecordsOf(log), |log|, req.snapshot);
  }

  lemma SameProvenance(before: Disk, after: Disk, caseId: Id, chain: seq<CommitRecord>, at: nat, s: Snapshot)
    requires forall k | 0 <= k < |chain| :: LoadAt(after, caseId, chain[k]) == LoadAt(before, caseId, chain[k])
    ensures ProvenanceHolds(before, caseId, chain, at, s) <==> ProvenanceHolds(after, caseId, chain, at, s)
  {
    hide LoadAt, SourcedFrom;
    forall k: nat, a: Acquisition
      ensures SourcedAt(before, caseId, chain, k, s, a) <==> SourcedAt(after, caseId, chain, k, s, a)
    {
    }
    forall a: Acquisition
      ensures Sourced(before, caseId, chain, at, s, a) <==> Sourced(after, caseId, chain, at, s, a)
    {
      if k :| 0 <= k < at && SourcedAt(before, caseId, chain, k, s, a) {
        assert SourcedAt(after, caseId, chain, k, s, a);
      }
      if k :| 0 <= k < at && SourcedAt(after, caseId, chain, k, s, a) {
        assert SourcedAt(before, caseId, chain, k, s, a);
      }
    }
  }

  /** The history after the snapshot of the request was published on top of `log`. */
  function Appended(caseId: Id, log: Log, req: Request, now: Time): Log {
    log + [Entry(NextRecord(caseId, RecordsOf(log), req.snapshot, now, req.reason), Canonical(req.snapshot))]
  }

  lemma NameIsFree(d: Disk, caseId: Id, log: Log, req: Request, now: Time)
    requires HasHistory(d, caseId, log) && KnownReason(req.reason)
    ensures NameOf(NextRecord(caseId, RecordsOf(log), req.snapshot, now, req.reason)) !in d.commits
  {
    hide ManifestOf, Refs;
    var r := NextRecord(caseId, RecordsOf(log), req.snapshot, now, req.reason);
    NextRecordContinues(caseId, RecordsOf(log), req.snapshot, now, req.reason);
    FreshName(d.commits, caseId, RecordsOf(log), r);
  }

  /** With snapshot directory and blobs in place, the record's rename is what appends the commit. */
  lemma RecordPublishes(before: Disk, after: Disk, caseId: Id, log: Log, req: Request, now: Time)
    requires HasHistory(before, caseId, log) && Valid(req.snapshot) && req.snapshot.manifest.caseId == caseId
    requires KnownReason(req.reason)
    requires Extends(before.snapshots, after.snapshots) && Extends(before.blobs, after.blobs)
    requires IdFor(req.snapshot) in after.snapshots && after.snapshots[IdFor(req.snapshot)] == DirFor(req.snapshot)
    requires Ingested(after.blobs, Refs(req.snapshot))
    requires var r := NextRecord(caseId, RecordsOf(log), req.snapshot, now, req.reason);
      Finals(after.commits) == Finals(before.commits)[NameOf(r) := CanonicalRecord(r)]
    ensures HasHistory(after, caseId, Appended(caseId, log, req, now))
  {
    hide Valid, LoadSnapshot, ManifestOf, PublishedDir, Canonical, Ingested, Extends, Finals, Refs, Records, Malformed;
    var e := Entry(NextRecord(caseId, RecordsOf(log), req.snapshot, now, req.reason), Canonical(req.snapshot));
    NextRecordContinues(caseId, RecordsOf(log), req.snapshot, now, req.reason);
    PublishedLoads(after, req.snapshot);
    HistoryAppended(before, after, caseId, log, e);
  }

  /** What an interrupted attempt leaves behind is what the next attempt needs. */
  lemma MaterialKept(before: Disk, after: Disk, req: Request, k: nat)
    requires Material(before, req)
    requires IngestedUpTo(before.blobs, after.blobs, req.provider, Refs(req.snapshot), k)
    requires after.snapshots == before.snapshots
             || after.snapshots == before.snapshots[IdFor(req.snapshot) := DirFor(req.snapshot)]
    ensures Material(after, req)
  {
    hide ManifestOf, PublishedDir, IngestAll, Refs;
    IngestResumes(before.blobs, req.provider, Refs(req.snapshot), k);
  }
}
