/** The case store: the publication protocol and the reader, step by step over one case directory. */
module Store {
  import opened Domain
  import opened Validation
  import opened Codec
  import opened Manifests
  import opened Loading
  import opened Chain
  import opened History
  import opened Publication
  import opened Validator
  import opened Reader

  /** How a commit ends. A process that dies behaves like a failing step: `Stopped` before the record is renamed
      into place, `UnknownOutcome` after. */
  datatype Outcome =
    | Committed(record: CommitRecord, idempotent: bool)
    | Refused(error: Error)
    | Stopped
    | UnknownOutcome(record: CommitRecord)

  /** Names that a power loss may still take back. */
  datatype Unsynced = Unsynced(commits: set<FileName>, snapshots: set<SnapshotId>, blobs: set<Digest<Blob>>)

  /** What a commit leaves unsynced. A reused orphan and reused blobs stay as they were: reuse syncs neither. */
  predicate Durability(before: Unsynced, after: Unsynced, d: Disk, e: Disk, req: Request, outcome: Outcome) {
    match outcome
    case Committed(_, idempotent) =>
      if idempotent then after == before
      else after.commits == {} && ReuseUnsynced(before, after, d, e, req)
    case UnknownOutcome(record) =>
      after.commits == before.commits + {NameOf(record)} && ReuseUnsynced(before, after, d, e, req)
    case _ =>
      && after.commits == before.commits
      && after.snapshots * d.snapshots.Keys <= before.snapshots
      && after.blobs * d.blobs.Keys <= before.blobs
  }

  /** Only new blobs were added, and the directories they went to were synced. */
  predicate ReuseUnsynced(before: Unsynced, after: Unsynced, d: Disk, e: Disk, req: Request) {
    && after.snapshots == (if IdFor(req.snapshot) in d.snapshots then before.snapshots else {})
    && e.blobs.Keys == d.blobs.Keys + Shas(Refs(req.snapshot))
    && after.blobs == before.blobs - Secured(before.blobs, e.blobs.Keys - d.blobs.Keys)
  }

  function Shard(sha: Digest<Blob>): nat {
    sha.content.shard
  }

  function Shas(refs: seq<ArtifactRef>): set<Digest<Blob>> {
    set a | a in refs :: a.sha
  }

  /** The names that become durable when the directories of these new blobs are synced. */
  function Secured(names: set<Digest<Blob>>, added: set<Digest<Blob>>): set<Digest<Blob>> {
    set b | b in names && exists n | n in added :: Shard(n) == Shard(b)
  }

  /** Syncing for some new blobs and then for others is syncing for all of them. */
  lemma SecuredTwice(u: set<Digest<Blob>>, a: set<Digest<Blob>>, b: set<Digest<Blob>>)
    ensures var left := u - Secured(u, a);
      left - Secured(left, b) == u - Secured(u, a + b)
  {
    hide Shard;
    var left := u - Secured(u, a);
    forall x | x in u ensures x in left - Secured(left, b) <==> x in u - Secured(u, a + b) {
      assert x in Secured(u, a + b) <==> x in Secured(u, a) || x in Secured(u, b) by {
        if n :| n in a + b && Shard(n) == Shard(x) {
          assert n in a || n in b;
        }
        if n :| n in a && Shard(n) == Shard(x) {
          assert n in a + b;
        }
        if n :| n in b && Shard(n) == Shard(x) {
          assert n in a + b;
        }
      }
    }
  }

  lemma {:induction false} IngestedKeys(blobs: Blobs, provider: map<Id, Blob>, refs: seq<ArtifactRef>)
    requires IngestAll(blobs, provider, refs).Some?
    ensures IngestAll(blobs, provider, refs).value.Keys == blobs.Keys + Shas(refs)
  {
    if refs != [] {
      var n := |refs| - 1;
      IngestedKeys(blobs, provider, refs[..n]);
      assert Shas(refs) == Shas(refs[..n]) + {refs[n].sha} by {
        assert refs == refs[..n] + [refs[n]];
      }
    }
  }

  /** Past the decision a commit is refused for its material only. */
  predicate NoConflict(e: Error) {
    e.InvalidArgument? || e.CaseCorrupt?
  }

  /** Crash atomicity and refinement: whatever step a commit stops at, the directory holds the old history, or the old
      history with exactly the new snapshot on top, the latter once the record was renamed into place. */
  ghost predicate CommitEffect(before: Disk, after: Disk, caseId: Id, past: Option<Log>, req: Request, now: Time,
                               outcome: Outcome)
  {
    match past
    case None => outcome == Refused(CaseCorrupt) && after == before
    case Some(log) =>
      match Decide(before, caseId, log, req)
      case Reject(e) => outcome == Refused(e) && after == before
      case Reuse => log != [] && outcome == Committed(log[|log| - 1].record, true) && after == before
      case Proceed =>
        if outcome.Committed? || outcome.UnknownOutcome? then
          && (outcome.Committed? ==> !outcome.idempotent)
          && outcome.record == NextRecord(caseId, RecordsOf(log), req.snapshot, now, req.reason)
          && outcome.record.body.committedAt == now && outcome.record.body.reason == req.reason
          && HistoryOf(after, caseId) == Some(Appended(caseId, log, req, now))
        else
          && HistoryOf(after, caseId) == Some(log)
          && (outcome.Refused? ==> NoConflict(outcome.error))
          && Grows(before, after)
          && (Material(before, req) ==> Material(after, req))
  }

  lemma DecisionOn(d: Disk, caseId: Id, log: Log, req: Request)
    ensures var chain := RecordsOf(log);
      Decide(d, caseId, log, req) ==
      if !ProvenanceHolds(d, caseId, chain, |chain|, req.snapshot) then Reject(CaseCorrupt)
      else if chain != [] && !req.parent.AbsentParent? && chain[|chain| - 1].body.snapshotId == IdFor(req.snapshot) then
        Reuse
      else match CheckParent(req.parent, chain) case Some(e) => Reject(e) case None => Proceed
  {
    hide ProvenanceHolds, IdFor, CheckParent;
  }

  lemma HeadRecord(d: Disk, caseId: Id, log: Log, req: Request)
    requires Decide(d, caseId, log, req).Reuse?
    ensures log != [] && RecordsOf(log)[|log| - 1] == log[|log| - 1].record
  {
  }

  /** A decision that writes nothing is its own effect. */
  lemma NothingWritten(d: Disk, caseId: Id, past: Option<Log>, req: Request, now: Time, outcome: Outcome)
    requires past.None? ==> outcome == Refused(CaseCorrupt)
    requires past.Some? ==>
      match Decide(d, caseId, past.value, req)
      case Reject(e) => outcome == Refused(e)
      case Reuse => past.value != [] && outcome == Committed(past.value[|past.value| - 1].record, true)
      case Proceed => false
    ensures CommitEffect(d, d, caseId, past, req, now, outcome)
  {
    hide Decide;
  }

  lemma ProceedEffect(before: Disk, after: Disk, caseId: Id, log: Log, req: Request, now: Time, outcome: Outcome)
    requires HasHistory(before, caseId, log) && Decide(before, caseId, log, req).Proceed?
    requires outcome.Committed? ==> !outcome.idempotent
    requires outcome.Committed? || outcome.UnknownOutcome? ==>
      && outcome.record == NextRecord(caseId, RecordsOf(log), req.snapshot, now, req.reason)
      && HasHistory(after, caseId, Appended(caseId, log, req, now))
    requires outcome.Refused? || outcome.Stopped? ==> Grows(before, after)
    requires outcome.Refused? ==> NoConflict(outcome.error)
    requires Material(before, req) && (outcome.Refused? || outcome.Stopped?) ==> Material(after, req)
    ensures CommitEffect(before, after, caseId, Some(log), req, now, outcome)
  {
    hide HasHistory, Decide, Material, Grows, ManifestFor, IdFor, Appended;
    if outcome.Refused? || outcome.Stopped? {
      HistoryKept(before, after, caseId, log);
      HistoryIs(after, caseId, log);
    } else {
      HistoryIs(after, caseId, Appended(caseId, log, req, now));
    }
  }

  /** Whatever is published, or found published already, has all its acquisitions from earlier commits. */
  lemma WrittenHasSources(before: Disk, after: Disk, caseId: Id, past: Option<Log>, req: Request, now: Time,
                          outcome: Outcome)
    requires past == HistoryOf(before, caseId) && CommitEffect(before, after, caseId, past, req, now, outcome)
    requires outcome.Committed? || outcome.UnknownOutcome?
    ensures past.Some? && forall a | a in req.snapshot.acquisitions :: HasSource(past.value, req.snapshot, a)
  {
    hide HasHistory, ProvenanceHolds, HasSource, IdempotentHead, CheckParent, NextRecord, Appended, Material, Grows;
    var log := past.value;
    ProvenanceIff(before, caseId, log, |log|, req.snapshot);
    assert log[..|log|] == log;
  }

  lemma ProvenanceByEntries(d: Disk, caseId: Id, chain: seq<CommitRecord>, at: nat, s: Snapshot)
    ensures var past := HistoryOf(d, caseId);
      past.Some? && RecordsOf(past.value) == chain && at <= |chain| ==>
        (ProvenanceHolds(d, caseId, chain, at, s) <==>
           forall a | a in s.acquisitions :: HasSource(past.value[..at], s, a))
  {
    hide HasHistory, ProvenanceHolds, HasSource;
    var past := HistoryOf(d, caseId);
    if past.Some? && RecordsOf(past.value) == chain && at <= |chain| {
      ProvenanceIff(d, caseId, past.value, at, s);
    }
  }

  /** What was read is in the source, what was added is not, and it is there now. */
  method CheckSource(source: Snapshot, s: Snapshot, a: Acquisition) returns (ok: bool)
    ensures ok <==>
      && (forall id | id in a.inputEvidence :: HasEvidence(source, id))
      && (forall id | id in a.addedEvidence :: !HasEvidence(source, id) && HasEvidence(s, id))
      && (forall id | id in a.addedTargets :: !HasTarget(source, id) && HasTarget(s, id))
  {
    hide HasEvidence, HasTarget;
    for i := 0 to |a.inputEvidence|
      invariant forall k | 0 <= k < i :: HasEvidence(source, a.inputEvidence[k])
    {
      if !HasEvidence(source, a.inputEvidence[i]) { return false; }
    }
    for i := 0 to |a.addedEvidence|
      invariant forall k | 0 <= k < i :: !HasEvidence(source, a.addedEvidence[k]) && HasEvidence(s, a.addedEvidence[k])
    {
      if HasEvidence(source, a.addedEvidence[i]) { return false; }
      if !HasEvidence(s, a.addedEvidence[i]) { return false; }
    }
    for i := 0 to |a.addedTargets|
      invariant forall k | 0 <= k < i :: !HasTarget(source, a.addedTargets[k]) && HasTarget(s, a.addedTargets[k])
    {
      if HasTarget(source, a.addedTargets[i]) { return false; }
      if !HasTarget(s, a.addedTargets[i]) { return false; }
    }
    ok := true;
  }

  lemma {:induction false} NoStrayFiles(docs: seq<Document>, name: nat)
    ensures Stray(name) !in DocumentFiles(docs)
  {
    if docs != [] {
      NoStrayFiles(docs[..|docs| - 1], name);
    }
  }

  lemma NothingSecured(u: set<Digest<Blob>>, keys: set<Digest<Blob>>)
    ensures u - Secured(u, keys - keys) == u
  {
  }

  lemma SecuredSince(u: set<Digest<Blob>>, first: set<Digest<Blob>>, middle: set<Digest<Blob>>, last: set<Digest<Blob>>)
    requires first <= middle <= last
    ensures var left := u - Secured(u, middle - first);
      left - Secured(left, last - middle) == u - Secured(u, last - first)
  {
    hide Secured;
    SecuredTwice(u, middle - first, last - middle);
    assert (middle - first) + (last - middle) == last - first;
  }

  lemma NothingLoosened(first: set<Digest<Blob>>, loose: set<Digest<Blob>>, now: set<Digest<Blob>>,
                        base: set<Digest<Blob>>, keys: set<Digest<Blob>>)
    requires now * keys <= loose <= first && base <= keys
    ensures now * base <= first
  {
    forall x | x in now * base ensures x in first {
      assert x in now * keys;
    }
  }

  lemma IngestNext(start: Blobs, before: Blobs, provider: map<Id, Blob>, refs: seq<ArtifactRef>, i: nat)
    requires i < |refs| && IngestAll(start, provider, refs[..i]) == Some(before)
    ensures IngestAll(start, provider, refs[..i + 1]) == IngestOne(before, provider, refs[i])
    ensures IngestOne(before, provider, refs[i]).Some? ==>
      before.Keys <= IngestOne(before, provider, refs[i]).value.Keys
  {
    assert refs[..i + 1][..i] == refs[..i];
  }

  lemma NoneIngested(blobs: Blobs, provider: map<Id, Blob>, refs: seq<ArtifactRef>)
    ensures IngestedUpTo(blobs, blobs, provider, refs, 0)
  {
    assert refs[..0] == [];
  }

  class CaseDirectory {
    const caseId: Id
    var commits: Commits
    var snapshots: Snapshots
    var blobs: Blobs
    var staging: map<nat, SnapshotDir>
    /** Temporary files of artifact copies. */
    var temporary: set<nat>
    /** Whether another process holds the case lock. */
    var locked: bool
    /** Whether the case directory exists. */
    var present: bool
    /** How many file-system steps the process still makes, if it is going to stop. */
    var fuse: Option<nat>
    /** Names whose directory has not been synced since they appeared. */
    var unsyncedCommits: set<FileName>
    var unsyncedSnapshots: set<SnapshotId>
    var unsyncedBlobs: set<Digest<Blob>>

    constructor (id: Id)
      ensures caseId == id && Files() == Disk(map[], map[], map[]) && staging == map[] && temporary == {}
      ensures !locked && !present && fuse == None
      ensures unsyncedCommits == {} && unsyncedSnapshots == {} && unsyncedBlobs == {}
    {
      caseId, commits, snapshots, blobs, staging, temporary := id, map[], map[], map[], map[], {};
      locked, present, fuse := false, false, None;
      unsyncedCommits, unsyncedSnapshots, unsyncedBlobs := {}, {}, {};
    }

    function Files(): Disk
      reads this
    {
      Disk(commits, snapshots, blobs)
    }

    function Loose(): Unsynced
      reads this
    {
      Unsynced(unsyncedCommits, unsyncedSnapshots, unsyncedBlobs)
    }

    /** The committed state; none where the directory is corrupt. */
    ghost function Past(): Option<Log>
      reads this
    {
      HistoryOf(Files(), caseId)
    }

    /** One file-system step: it happens, or the process stops before it. */
    method Step() returns (alive: bool)
      modifies `fuse
      ensures old(fuse).None? ==> alive && fuse.None?
    {
      match fuse {
        case None => alive := true;
        case Some(n) =>
          alive := n > 0;
          fuse := Some(if n > 0 then n - 1 else 0);
      }
    }

    // -------------------------------------------------------------- staging

    /** An exclusive staging directory: up to eight random names are tried. */
    method CreateStagingTransaction(draws: seq<nat>) returns (txn: Option<nat>)
      modifies `staging, `fuse
      ensures txn.Some? ==> txn.value !in old(staging)
                            && staging == old(staging)[txn.value := SnapshotDir(None, map[])]
      ensures txn.None? ==> forall t | t in old(staging) :: t in staging && staging[t] == old(staging)[t]
      ensures old(fuse).None? ==> fuse.None?
      ensures old(fuse).None? && (exists d :: d in draws[..if |draws| < 8 then |draws| else 8] && d !in old(staging))
              ==> txn.Some?
    {
      txn := None;
      var n := if |draws| < 8 then |draws| else 8;
      for i := 0 to n
        invariant staging == old(staging) && fuse == old(fuse)
        invariant forall d | d in draws[..i] :: d in staging
      {
        if draws[i] !in staging {
          var alive := Step();
          if !alive { return; }
          staging := staging[draws[i] := SnapshotDir(None, map[])];
          alive := Step();
          if !alive { return; }
          txn := Some(draws[i]);
          return;
        }
        assert draws[..i + 1] == draws[..i] + [draws[i]];
      }
    }

    /** Each document goes to a temporary file that is then renamed. */
    method WriteDocuments(txn: nat, docs: seq<Document>) returns (alive: bool)
      requires txn in staging && staging[txn] == SnapshotDir(None, map[])
      modifies `staging, `fuse
      ensures alive ==> staging == old(staging)[txn := SnapshotDir(None, DocumentFiles(docs))]
      ensures forall t | t in old(staging) && t != txn :: t in staging && staging[t] == old(staging)[t]
      ensures old(fuse).None? ==> alive && fuse.None?
    {
      alive := true;
      for i := 0 to |docs|
        invariant staging == old(staging)[txn := SnapshotDir(None, DocumentFiles(docs[..i]))]
        invariant old(fuse).None? ==> fuse.None?
      {
        var files := DocumentFiles(docs[..i]);
        NoStrayFiles(docs[..i], 0);
        alive := Step();
        if !alive { return; }
        staging := staging[txn := SnapshotDir(None, files[Stray(0) := OtherJson(None, 0)])];
        alive := Step();
        if !alive { return; }
        staging := staging[txn := SnapshotDir(None, (files[Stray(0) := OtherJson(None, 0)] - {Stray(0)})
                                                    [PathOf(docs[i]) := CanonicalJson(docs[i])])];
        assert files[Stray(0) := OtherJson(None, 0)] - {Stray(0)} == files;
        assert docs[..i + 1][..i] == docs[..i];
      }
      assert docs[..|docs|] == docs;
    }

    // -------------------------------------------------------------- artifacts

    /** Copy one artifact into the blob store, unless it is there. */
    method IngestArtifact(a: ArtifactRef, provider: map<Id, Blob>, draw: nat) returns (alive: bool, ok: bool)
      modifies `blobs, `temporary, `fuse, `unsyncedBlobs
      ensures alive && ok ==> IngestOne(old(blobs), provider, a) == Some(blobs) && temporary == old(temporary)
      ensures alive && !ok ==>
          blobs == old(blobs) && (IngestOne(old(blobs), provider, a).None? || draw in old(temporary))
      ensures !alive ==> blobs == old(blobs) || IngestOne(old(blobs), provider, a) == Some(blobs)
      ensures alive ==> unsyncedBlobs == old(unsyncedBlobs) - Secured(old(unsyncedBlobs), blobs.Keys - old(blobs).Keys)
      ensures unsyncedBlobs * old(blobs).Keys <= old(unsyncedBlobs)
      ensures old(fuse).None? ==> alive && fuse.None?
    {
      alive, ok := true, true;
      if a.sha in blobs {
        ok := BlobVerifies(blobs, a.sha, a.sizeBytes);
        return;
      }
      if a.artifactId !in provider || draw in temporary {
        ok := false;
        return;
      }
      alive := Step();
      if !alive { return; }
      temporary := temporary + {draw};
      var bytes := provider[a.artifactId];
      if bytes.size != a.sizeBytes || Digest(bytes) != a.sha {
        temporary, ok := temporary - {draw}, false;
        return;
      }
      alive := Step();
      if !alive { return; }
      blobs, temporary, unsyncedBlobs := blobs[a.sha := bytes], temporary - {draw}, unsyncedBlobs + {a.sha};
      alive := Step();
      if !alive { return; }
      unsyncedBlobs := unsyncedBlobs - Secured(unsyncedBlobs, {a.sha});
      assert blobs.Keys - old(blobs).Keys == {a.sha};
      assert a.sha in Secured(old(unsyncedBlobs) + {a.sha}, {a.sha});
    }

    method IngestArtifacts(refs: seq<ArtifactRef>, provider: map<Id, Blob>, draw: nat) returns (alive: bool, ok: bool)
      modifies `blobs, `temporary, `fuse, `unsyncedBlobs
      ensures alive && ok ==> IngestAll(old(blobs), provider, refs) == Some(blobs)
      ensures alive && !ok ==> IngestAll(old(blobs), provider, refs).None? || draw in old(temporary)
      ensures Extends(old(blobs), blobs)
      ensures exists k :: IngestedUpTo(old(blobs), blobs, provider, refs, k)
      ensures alive ==> unsyncedBlobs == old(unsyncedBlobs) - Secured(old(unsyncedBlobs), blobs.Keys - old(blobs).Keys)
      ensures unsyncedBlobs * old(blobs).Keys <= old(unsyncedBlobs)
      ensures old(fuse).None? ==> alive && fuse.None?
    {
      hide Secured, IngestOne, Extends, Ingested, IngestAll;
      alive, ok := true, true;
      NoneIngested(blobs, provider, refs);
      NothingSecured(unsyncedBlobs, blobs.Keys);
      assert IngestedUpTo(blobs, blobs, provider, refs, 0);
      for i := 0 to |refs|
        invariant alive && ok
        invariant IngestAll(old(blobs), provider, refs[..i]) == Some(blobs)
        invariant temporary == old(temporary) && old(blobs).Keys <= blobs.Keys
        invariant unsyncedBlobs == old(unsyncedBlobs) - Secured(old(unsyncedBlobs), blobs.Keys - old(blobs).Keys)
        invariant old(fuse).None? ==> fuse.None?
      {
        ghost var before, loose := blobs, unsyncedBlobs;
        alive, ok := IngestArtifact(refs[i], provider, draw);
        IngestNext(old(blobs), before, provider, refs, i);
        NothingLoosened(old(unsyncedBlobs), loose, unsyncedBlobs, old(blobs).Keys, before.Keys);
        if alive {
          SecuredSince(old(unsyncedBlobs), old(blobs).Keys, before.Keys, blobs.Keys);
        }
        assert IngestedUpTo(old(blobs), blobs, provider, refs, if blobs == before then i else i + 1);
        if alive && !ok {
          if IngestAll(old(blobs), provider, refs).Some? {
            IngestPrefix(old(blobs), provider, refs, i + 1);
          }
        }
        if !alive || !ok { return; }
      }
      assert refs[..|refs|] == refs;
      assert IngestedUpTo(old(blobs), blobs, provider, refs, |refs|);
    }

    // -------------------------------------------------------------- publishing

    /** The manifest completes the staging directory, which is then renamed; or an intact orphan is reused. */
    method PublishSnapshot(txn: nat, s: Snapshot, manifest: Manifest, manifestBytes: ManifestBytes)
      returns (alive: bool, ok: bool)
      requires Valid(s) && s.manifest.caseId == caseId && Ingested(blobs, Refs(s))
      requires manifest == ManifestFor(s) && manifestBytes == CanonicalManifest(manifest)
      requires txn in staging && staging[txn] == SnapshotDir(None, DocumentFiles(PrepareDocuments(s)))
      modifies `snapshots, `staging, `fuse, `unsyncedSnapshots
      ensures snapshots == old(snapshots)
              || (IdFor(s) !in old(snapshots) && snapshots == old(snapshots)[IdFor(s) := DirFor(s)])
      ensures alive && ok ==> IdFor(s) in snapshots && snapshots[IdFor(s)] == DirFor(s)
      ensures alive ==> (ok <==> (IdFor(s) in old(snapshots) ==> old(snapshots)[IdFor(s)] == DirFor(s)))
      ensures alive && ok ==> unsyncedSnapshots == if IdFor(s) in old(snapshots) then old(unsyncedSnapshots) else {}
      ensures unsyncedSnapshots * old(snapshots).Keys <= old(unsyncedSnapshots)
      ensures !alive && snapshots != old(snapshots) ==> IdFor(s) in unsyncedSnapshots
      ensures snapshots == old(snapshots) ==> unsyncedSnapshots == old(unsyncedSnapshots)
      ensures old(fuse).None? ==> alive && fuse.None?
    {
      hide Valid, ManifestOf, CollectArtifacts, LoadSnapshot, DocumentFiles, PrepareDocuments, Ingested;
      ok := true;
      alive := Step();
      if !alive { return; }
      staging := staging[txn := staging[txn].(manifest := Some(manifestBytes))];
      RefsAreCollected(s);
      var id := manifest.snapshotId;
      if id in snapshots {
        OrphanVerifiesIff(Files(), s);
        var published := LoadSnapshotAtCommit(snapshots, blobs, caseId, id, Digest(manifestBytes));
        ok := published.Some?;
        if !ok { return; }
        alive := Step();
        if !alive { return; }
        staging := staging - {txn};
      } else {
        alive := Step();
        if !alive { return; }
        snapshots, unsyncedSnapshots := snapshots[id := staging[txn]], unsyncedSnapshots + {id};
        staging := staging - {txn};
        alive := Step();
        if !alive { return; }
        unsyncedSnapshots := {};
      }
    }

    /** Write the record to a temporary file and rename it into place: the only commit point. */
    method PublishRecord(r: CommitRecord, draws: seq<nat>) returns (published: bool, synced: bool, error: Option<Error>)
      modifies `commits, `fuse, `unsyncedCommits
      ensures !published ==> Finals(commits) == Finals(old(commits)) && unsyncedCommits == old(unsyncedCommits)
      ensures published ==> Finals(commits) == Finals(old(commits))[NameOf(r) := CanonicalRecord(r)]
      ensures published ==> NameOf(r) !in old(commits) && error.None?
      ensures published && synced ==> unsyncedCommits == {}
      ensures published && !synced ==> unsyncedCommits == old(unsyncedCommits) + {NameOf(r)}
      ensures old(fuse).None? ==> fuse.None? && (published ==> synced)
      ensures old(fuse).None? && NameOf(r) !in old(commits)
              && (exists d :: d in draws[..if |draws| < 8 then |draws| else 8] && TempName(d) !in old(commits))
              ==> published
      ensures !published && old(fuse).None? ==> error.Some?
      ensures error.Some? ==> NoConflict(error.value)
    {
      published, synced, error := false, false, None;
      if NameOf(r) in commits {
        error := Some(CaseCorrupt);
        return;
      }
      var n := if |draws| < 8 then |draws| else 8;
      for i := 0 to n
        invariant commits == old(commits) && fuse == old(fuse) && unsyncedCommits == old(unsyncedCommits)
        invariant !published && error.None? && NameOf(r) !in commits
        invariant forall d | d in draws[..i] :: TempName(d) in commits
      {
        var temp := TempName(draws[i]);
        if temp !in commits {
          var alive := Step();
          if !alive { return; }
          commits := commits[temp := CanonicalRecord(r)];
          assert Finals(commits) == Finals(old(commits));
          alive := Step();
          if !alive { return; }
          commits := (commits - {temp})[NameOf(r) := CanonicalRecord(r)];
          assert Finals(commits) == Finals(old(commits))[NameOf(r) := CanonicalRecord(r)];
          published, unsyncedCommits := true, unsyncedCommits + {NameOf(r)};
          synced := Step();
          if synced { unsyncedCommits := {}; }
          return;
        }
        assert draws[..i + 1] == draws[..i] + [draws[i]];
      }
      error := Some(InvalidArgument);
    }

    // -------------------------------------------------------------- reading

    method LoadCommit(r: CommitRecord) returns (s: Option<Snapshot>)
      ensures s == LoadAt(Files(), caseId, r)
    {
      s := LoadSnapshotAtCommit(snapshots, blobs, caseId, r.body.snapshotId, r.body.manifestSha);
    }

    /** Load every commit of the chain in turn. */
    method VerifyCommittedHistory(chain: seq<CommitRecord>) returns (ok: bool, log: Log)
      requires IsChain(commits, caseId, chain)
      ensures ok <==> Past().Some?
      ensures ok ==> Past() == Some(log) && RecordsOf(log) == chain
    {
      hide LoadSnapshot, IsChain;
      ok, log := true, [];
      for i := 0 to |chain|
        invariant RecordsOf(log) == chain[..i]
        invariant forall k | 0 <= k < |log| :: LoadsAt(Files(), caseId, log[k])
      {
        var loaded := LoadCommit(chain[i]);
        match loaded {
          case None =>
            BrokenCommitNoHistory(Files(), caseId, chain, i);
            ok := false;
            return;
          case Some(s) =>
            assert LoadsAt(Files(), caseId, Entry(chain[i], s));
            assert RecordsOf(log + [Entry(chain[i], s)]) == chain[..i] + [chain[i]];
            log := log + [Entry(chain[i], s)];
        }
      }
      assert chain[..|chain|] == chain;
      HistoryIs(Files(), caseId, log);
    }

    /** The head and its snapshot. A corrupt commit anywhere in the chain is an error, never a fallback. */
    method LoadLatest() returns (r: Result<Entry>)
      ensures Past().None? ==> r == Err(CaseCorrupt)
      ensures Past() == Some([]) ==> r == Err(CaseNotFound)
      ensures Past().Some? && Past().value != [] ==> r == Ok(Past().value[|Past().value| - 1])
    {
      hide LoadSnapshot, IsChain;
      var chain, _, failed := LoadCommitChainPrefix(commits, caseId);
      if failed {
        NoChainNoHistory(Files(), caseId);
        return Err(CaseCorrupt);
      }
      var ok, log := VerifyCommittedHistory(chain);
      if !ok { return Err(CaseCorrupt); }
      if log == [] { return Err(CaseNotFound); }
      return Ok(log[|log| - 1]);
    }

    /** Whether every acquisition of `s` came from a commit before position `at` that it fits. */
    method ValidateProvenance(chain: seq<CommitRecord>, at: nat, s: Snapshot) returns (ok: bool)
      requires NoRepeats(seq(|chain|, i requires 0 <= i < |chain| => chain[i].commitId))
      ensures ok <==> ProvenanceHolds(Files(), caseId, chain, at, s)
      ensures Past().Some? && RecordsOf(Past().value) == chain && at <= |chain| ==>
        (ok <==> forall a | a in s.acquisitions :: HasSource(Past().value[..at], s, a))
    {
      hide LoadSnapshot, SourcedFrom, HasEvidence, HasTarget, HistoryOf, HasSource;
      ok := true;
      var ids := seq(|chain|, i requires 0 <= i < |chain| => chain[i].commitId);
      var indexOf: map<CommitId, nat> := map[];
      for i := 0 to |chain|
        invariant forall id | id in indexOf :: indexOf[id] < i && ids[indexOf[id]] == id
        invariant forall k | 0 <= k < i :: ids[k] in indexOf && indexOf[ids[k]] == k
      {
        assert forall k | 0 <= k < i :: ids[k] != ids[i];
        indexOf := indexOf[chain[i].commitId := i];
      }
      for i := 0 to |s.acquisitions|
        invariant forall j | 0 <= j < i :: Sourced(Files(), caseId, chain, at, s, s.acquisitions[j])
      {
        var a := s.acquisitions[i];
        ok := false;
        if a.sourceCommit in indexOf {
          var k := indexOf[a.sourceCommit];
          if k < at {
            var source := LoadCommit(chain[k]);
            if source.Some? {
              ok := CheckSource(source.value, s, a);
              SourcedFromIff(source.value, s, a);
            }
            assert ok <==> SourcedAt(Files(), caseId, chain, k, s, a);
          }
        }
        if !ok {
          forall k | 0 <= k < at ensures !SourcedAt(Files(), caseId, chain, k, s, a) {
            assert k < |chain| && ids[k] == a.sourceCommit ==> indexOf[ids[k]] == k;
          }
          assert !Sourced(Files(), caseId, chain, at, s, a);
          assert a in s.acquisitions;
          ProvenanceByEntries(Files(), caseId, chain, at, s);
          return;
        }
      }
      ProvenanceByEntries(Files(), caseId, chain, at, s);
    }

    // -------------------------------------------------------------- committing

    /** The first random name drawn is free wherever a temporary name is needed. */
    predicate FreshDraws(draws: seq<nat>)
      reads this
    {
      draws != [] && draws[0] !in staging && draws[0] !in temporary && TempName(draws[0]) !in commits
    }

    /** Stage the documents and ingest the artifacts. */
    method StageCommit(req: Request, draws: seq<nat>) returns (stopped: Option<Outcome>, txn: nat)
      requires Valid(req.snapshot)
      modifies `blobs, `staging, `temporary, `fuse, `unsyncedBlobs
      ensures stopped.Some? ==> stopped.value.Refused? || stopped.value.Stopped?
      ensures stopped.Some? && stopped.value.Refused? ==> NoConflict(stopped.value.error)
      ensures Extends(old(blobs), blobs)
      ensures exists k :: IngestedUpTo(old(blobs), blobs, req.provider, Refs(req.snapshot), k)
      ensures stopped.None? ==>
        && IngestAll(old(blobs), req.provider, Refs(req.snapshot)) == Some(blobs)
        && txn in staging && staging[txn] == SnapshotDir(None, DocumentFiles(PrepareDocuments(req.snapshot)))
      ensures old(fuse).None? ==> fuse.None? && (stopped.Some? ==> stopped.value.Refused?)
      ensures old(fuse).None? && old(FreshDraws(draws)) && IngestAll(old(blobs), req.provider, Refs(req.snapshot)).Some?
              ==> stopped.None?
      ensures stopped.None? ==>
        unsyncedBlobs == old(unsyncedBlobs) - Secured(old(unsyncedBlobs), blobs.Keys - old(blobs).Keys)
      ensures unsyncedBlobs * old(blobs).Keys <= old(unsyncedBlobs)
    {
      hide Valid, ManifestOf, PublishedDir, Canonical, Refs, IngestAll, LoadSnapshot, Ingested, DocumentFiles,
           PrepareDocuments, Secured, IngestedUpTo;
      txn := 0;
      var s := req.snapshot;
      RefsAreCollected(s);
      NoneIngested(blobs, req.provider, Refs(s));
      var refs := CollectArtifactRefs(s);
      NothingSecured(unsyncedBlobs, blobs.Keys);
      var created := CreateStagingTransaction(draws);
      if created.None? { return Some(if fuse.None? then Refused(InvalidArgument) else Stopped), 0; }
      txn := created.value;
      var alive := WriteDocuments(txn, PrepareDocuments(s));
      if !alive { return Some(Stopped), txn; }
      if draws == [] { return Some(Refused(InvalidArgument)), txn; }
      var ok;
      alive, ok := IngestArtifacts(refs.value, req.provider, draws[0]);
      if !alive { return Some(Stopped), txn; }
      if !ok { return Some(Refused(InvalidArgument)), txn; }
      stopped := None;
    }

    /** Everything before the record: stage the documents, ingest the artifacts, publish the snapshot. */
    method PrepareCommit(req: Request, draws: seq<nat>) returns (stopped: Option<Outcome>)
      requires Valid(req.snapshot) && req.snapshot.manifest.caseId == caseId
      modifies `snapshots, `blobs, `staging, `temporary, `fuse, `unsyncedSnapshots, `unsyncedBlobs
      ensures stopped.Some? ==> stopped.value.Refused? || stopped.value.Stopped?
      ensures stopped.Some? && stopped.value.Refused? ==> NoConflict(stopped.value.error)
      ensures Extends(old(snapshots), snapshots) && Extends(old(blobs), blobs)
      ensures stopped.None? ==>
          IdFor(req.snapshot) in snapshots && snapshots[IdFor(req.snapshot)] == DirFor(req.snapshot)
      ensures stopped.None? ==> Ingested(blobs, Refs(req.snapshot)) && Material(old(Files()), req)
      ensures stopped.None? ==> blobs.Keys == old(blobs).Keys + Shas(Refs(req.snapshot))
      ensures Material(old(Files()), req) ==> Material(Files(), req)
      ensures old(fuse).None? ==> fuse.None? && (stopped.Some? ==> stopped.value.Refused?)
      ensures old(fuse).None? && old(FreshDraws(draws)) && Material(old(Files()), req) ==> stopped.None?
      ensures stopped.None? ==>
        unsyncedSnapshots == if IdFor(req.snapshot) in old(snapshots) then old(unsyncedSnapshots) else {}
      ensures unsyncedSnapshots * old(snapshots).Keys <= old(unsyncedSnapshots)
      ensures stopped.None? ==>
        unsyncedBlobs == old(unsyncedBlobs) - Secured(old(unsyncedBlobs), blobs.Keys - old(blobs).Keys)
      ensures unsyncedBlobs * old(blobs).Keys <= old(unsyncedBlobs)
    {
      hide Valid, ManifestOf, PublishedDir, Canonical, Refs, IngestAll, LoadSnapshot, Ingested, DocumentFiles,
           PrepareDocuments, Secured, Shas, IngestedUpTo, IdFor, DirFor;
      var s := req.snapshot;
      ghost var before := Files();
      var txn;
      stopped, txn := StageCommit(req, draws);
      ghost var k: nat :| IngestedUpTo(before.blobs, blobs, req.provider, Refs(s), k);
      if Material(before, req) { MaterialKept(before, Files(), req, k); }
      if stopped.Some? { return; }
      IngestedKeys(before.blobs, req.provider, Refs(s));
      var manifest := ManifestFor(s);
      var alive, ok := PublishSnapshot(txn, s, manifest, CanonicalManifest(manifest));
      if Material(before, req) { MaterialKept(before, Files(), req, k); }
      if !alive { return Some(Stopped); }
      if !ok { return Some(Refused(CaseCorrupt)); }
    }

    /** Prepare, then publish the record. */
    method PublishCommit(ghost log: Log, chain: seq<CommitRecord>, req: Request, now: Time, draws: seq<nat>)
      returns (outcome: Outcome)
      requires HasHistory(Files(), caseId, log) && RecordsOf(log) == chain
      requires Valid(req.snapshot) && req.snapshot.manifest.caseId == caseId && KnownReason(req.reason)
      modifies `commits, `snapshots, `blobs, `staging, `temporary, `fuse
      modifies `unsyncedCommits, `unsyncedSnapshots, `unsyncedBlobs
      ensures outcome.Committed? ==> !outcome.idempotent
      ensures outcome.Committed? || outcome.UnknownOutcome? ==>
                && outcome.record == NextRecord(caseId, chain, req.snapshot, now, req.reason)
                && HasHistory(Files(), caseId, Appended(caseId, log, req, now))
      ensures outcome.Refused? || outcome.Stopped? ==> Grows(old(Files()), Files())
      ensures outcome.Refused? ==> NoConflict(outcome.error)
      ensures Material(old(Files()), req) && (outcome.Refused? || outcome.Stopped?) ==> Material(Files(), req)
      ensures old(fuse).None? && !Material(old(Files()), req) ==> outcome.Refused?
      ensures old(fuse).None? && old(FreshDraws(draws)) && Material(old(Files()), req) ==> outcome.Committed?
      ensures Durability(old(Loose()), Loose(), old(Files()), Files(), req, outcome)
    {
      hide Valid, ManifestOf, PublishedDir, Canonical, Refs, IngestAll, LoadSnapshot, HasHistory, NextRecord, Ingested;
      var stopped := PrepareCommit(req, draws);
      if stopped.Some? { return stopped.value; }
      var record := NextRecord(caseId, chain, req.snapshot, now, req.reason);
      NameIsFree(old(Files()), caseId, log, req, now);
      ghost var tried := draws[..if |draws| < 8 then |draws| else 8];
      assert draws != [] ==> tried[0] == draws[0];
      var published, synced, error := PublishRecord(record, draws);
      if !published {
        return if error.Some? then Refused(error.value) else Stopped;
      }
      RecordPublishes(old(Files()), Files(), caseId, log, req, now);
      return if synced then Committed(record, false) else UnknownOutcome(record);
    }

    /** Everything before the first write: the history, and what to do about the request. */
    method DecideCommit(req: Request) returns (decision: Decision, chain: seq<CommitRecord>, ghost log: Log)
      requires Valid(req.snapshot)
      ensures Past().None? ==> decision == Reject(CaseCorrupt)
      ensures Past().Some? ==>
        && HasHistory(Files(), caseId, log) && Past() == Some(log) && decision == Decide(Files(), caseId, log, req)
      ensures !decision.Reject? ==> Past().Some? && RecordsOf(log) == chain
    {
      hide Valid, ManifestOf, Canonical, Refs, LoadSnapshot, HasHistory, IsChain, ProvenanceHolds, Records, Malformed,
           HistoryOf, IdFor, Decide, Linked;
      log := if Past().Some? then Past().value else [];
      var failed, broken, intact, sourced;
      ghost var found;
      chain, broken, failed := LoadCommitChainPrefix(commits, caseId);
      if failed {
        NoChainNoHistory(Files(), caseId);
        return Reject(CaseCorrupt), chain, log;
      }
      intact, found := VerifyCommittedHistory(chain);
      if !intact { return Reject(CaseCorrupt), chain, log; }
      ChainIdsDiffer(commits, caseId, chain);
      sourced := ValidateProvenance(chain, |chain|, req.snapshot);
      DecisionOn(Files(), caseId, log, req);
      if !sourced { return Reject(CaseCorrupt), chain, log; }
      if chain != [] && !req.parent.AbsentParent? && chain[|chain| - 1].body.snapshotId == IdFor(req.snapshot) {
        return Reuse, chain, log;
      }
      var conflict := CheckParent(req.parent, chain);
      decision := if conflict.Some? then Reject(conflict.value) else Proceed;
    }

    /** The commit under the case lock. */
    method CommitLocked(req: Request, now: Time, draws: seq<nat>) returns (outcome: Outcome)
      requires Valid(req.snapshot) && req.snapshot.manifest.caseId == caseId && KnownReason(req.reason)
      modifies `commits, `snapshots, `blobs, `staging, `temporary, `fuse
      modifies `unsyncedCommits, `unsyncedSnapshots, `unsyncedBlobs
      ensures CommitEffect(old(Files()), Files(), caseId, old(Past()), req, now, outcome)
      ensures old(fuse).None? && old(Past()).Some? && Decide(old(Files()), caseId, old(Past()).value, req).Proceed? ==>
                (Material(old(Files()), req) && old(FreshDraws(draws)) ==> outcome.Committed?)
                && (!Material(old(Files()), req) ==> outcome.Refused?)
      ensures Durability(old(Loose()), Loose(), old(Files()), Files(), req, outcome)
    {
      hide Valid, HasHistory, NextRecord, Material, Grows, FreshDraws, ReuseUnsynced, HistoryOf, Appended, CommitEffect,
           Decide;
      var decision, chain;
      ghost var log;
      decision, chain, log := DecideCommit(req);
      if decision.Proceed? {
        outcome := PublishCommit(log, chain, req, now, draws);
        ProceedEffect(old(Files()), Files(), caseId, log, req, now, outcome);
      } else {
        if decision.Reuse? { HeadRecord(Files(), caseId, log, req); }
        outcome := if decision.Reject? then Refused(decision.error) else Committed(chain[|chain| - 1], true);
        NothingWritten(Files(), caseId, Past(), req, now, outcome);
      }
    }

    /** Validate the request, take the lock, commit. */
    method Commit(req: Request, now: Time, draws: seq<nat>) returns (outcome: Outcome)
      requires req.snapshot.manifest.caseId == caseId
      modifies this
      ensures !Valid(req.snapshot) || !KnownReason(req.reason) ==>
          outcome == Refused(InvalidArgument) && Files() == old(Files())
      ensures Valid(req.snapshot) && KnownReason(req.reason) && old(locked) ==>
                outcome == Refused(CaseBusy) && Files() == old(Files())
      ensures Valid(req.snapshot) && KnownReason(req.reason) && !old(locked) ==>
                && CommitEffect(old(Files()), Files(), caseId, old(Past()), req, now, outcome)
                && Durability(old(Loose()), Loose(), old(Files()), Files(), req, outcome)
                && (old(fuse).None? && old(Past()).Some?
                    && Decide(old(Files()), caseId, old(Past()).value, req).Proceed? ==>
                      (Material(old(Files()), req) && old(FreshDraws(draws)) ==> outcome.Committed?)
                      && (!Material(old(Files()), req) ==> outcome.Refused?))
      ensures Valid(req.snapshot) && KnownReason(req.reason) && !old(locked)
              && (outcome.Committed? || outcome.UnknownOutcome?) ==>
                old(Past()).Some?
                && forall a | a in req.snapshot.acquisitions :: HasSource(old(Past()).value, req.snapshot, a)
      ensures locked == old(locked)
    {
      hide Valid, CommitEffect, Decide, Material, Durability, HasSource, HistoryOf;
      var valid := Validate(req.snapshot);
      if !valid || !KnownReason(req.reason) {
        return Refused(InvalidArgument);
      }
      present := true;
      if locked {
        return Refused(CaseBusy);
      }
      locked := true;
      outcome := CommitLocked(req, now, draws);
      if outcome.Committed? || outcome.UnknownOutcome? {
        WrittenHasSources(old(Files()), Files(), caseId, old(Past()), req, now, outcome);
      }
      locked := false;
    }
  }
}
