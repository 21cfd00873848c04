/** Power loss: which case directories survive it, and what a commit does to that. */
module PowerLoss {
  import opened Domain
  import opened Validation
  import opened Codec
  import opened Manifests
  import opened Loading
  import opened Chain
  import opened History
  import opened Publication
  import opened Store

  predicate Within(lost: Unsynced, u: Unsynced) {
    lost.commits <= u.commits && lost.snapshots <= u.snapshots && lost.blobs <= u.blobs
  }

  /** The directory entries that are still there after the power came back. */
  function Survivors(d: Disk, lost: Unsynced): Disk {
    Disk(d.commits - lost.commits, d.snapshots - lost.snapshots, d.blobs - lost.blobs)
  }

  /** At most the last commit is taken back. */
  ghost predicate Survives(d: Disk, caseId: Id, log: Log, lost: Unsynced) {
    var left := HistoryOf(Survivors(d, lost), caseId);
    left == Some(log) || (log != [] && left == Some(log[..|log| - 1]))
  }

  /** Everything an entry needs is synced: its snapshot directory and its blobs. */
  predicate EntrySynced(u: Unsynced, e: Entry) {
    e.record.body.snapshotId !in u.snapshots && forall a | a in Refs(e.snapshot) :: a.sha !in u.blobs
  }

  predicate RecordSynced(u: Unsynced, e: Entry) {
    NameOf(e.record) !in u.commits
  }

  /** Every snapshot and blob of the history is synced, and so is every record but the last. */
  predicate PowerSafe(u: Unsynced, log: Log) {
    && (forall i | 0 <= i < |log| :: EntrySynced(u, log[i]))
    && (forall i | 0 <= i < |log| - 1 :: RecordSynced(u, log[i]))
  }

  // ---------------------------------------------------------------- safe means safe

  lemma LoadSurvives(d: Disk, caseId: Id, e: Entry, lost: Unsynced)
    requires LoadsAt(d, caseId, e) && EntrySynced(lost, e)
    ensures LoadsAt(Survivors(d, lost), caseId, e)
  {
    hide Valid, CollectArtifacts, LoadManifest, DecodeAll, Assemble, PrepareDocuments, FilesMatch;
    var id := e.record.body.snapshotId;
    var m := LoadManifest(d.snapshots[id], caseId, id, e.record.body.manifestSha).value;
    forall a | a in m.artifacts ensures BlobVerifies(Survivors(d, lost).blobs, a.sha, a.sizeBytes) {
      assert a in ArtifactEntries(Refs(e.snapshot));
      var k := AtIndex(ArtifactEntries(Refs(e.snapshot)), a);
      assert Refs(e.snapshot)[k] in Refs(e.snapshot);
    }
  }

  lemma LossIsWithin(u: Unsynced, lost: Unsynced, e: Entry)
    requires EntrySynced(u, e) && Within(lost, u)
    ensures EntrySynced(lost, e)
  {
  }

  /** Removing files that are no record of the chain, or only the last record, leaves a chain. */
  lemma ChainSurvives(commits: Commits, caseId: Id, chain: seq<CommitRecord>, lost: set<FileName>)
    requires IsChain(commits, caseId, chain)
    requires forall i | 0 <= i < |chain| - 1 :: NameOf(chain[i]) !in lost
    ensures (chain == [] || NameOf(chain[|chain| - 1]) !in lost) ==> IsChain(commits - lost, caseId, chain)
    ensures (chain != [] && NameOf(chain[|chain| - 1]) in lost) ==>
      IsChain(commits - lost, caseId, chain[..|chain| - 1])
  {
    hide RecordValid;
    LinkedIsSorted(chain);
    var after := commits - lost;
    forall r ensures r in Records(after, caseId) <==> r in chain && NameOf(r) !in lost {
      RecordsAreNamed(commits, caseId, r);
      RecordsAreNamed(after, caseId, r);
      assert r in chain <==> r in Elements(chain);
    }
    if chain != [] && NameOf(chain[|chain| - 1]) in lost {
      var n := |chain| - 1;
      assert chain == chain[..n] + [chain[n]];
      LinkedTaken(chain, n);
      forall r | r in chain[..n] ensures NameOf(r) !in lost {
        var k := AtIndex(chain[..n], r);
        assert chain[k] == r;
      }
      assert Elements(chain[..n]) == Records(after, caseId);
    } else {
      forall r | r in chain ensures NameOf(r) !in lost {
        var k := AtIndex(chain, r);
      }
      assert Elements(chain) == Records(after, caseId);
    }
  }

  lemma RecordsAreNamed(commits: Commits, caseId: Id, r: CommitRecord)
    ensures r in Records(commits, caseId) <==>
              NameOf(r) in commits && RecordIn(caseId, NameOf(r), commits[NameOf(r)]) == Some(r)
  {
  }

  lemma SafeSurvives(d: Disk, caseId: Id, log: Log, u: Unsynced, lost: Unsynced)
    requires HasHistory(d, caseId, log) && PowerSafe(u, log) && Within(lost, u)
    ensures Survives(d, caseId, log, lost)
    ensures HistoryOf(Survivors(d, lost), caseId)
            == Some(if log == [] || NameOf(log[|log| - 1].record) !in lost.commits then log else log[..|log| - 1])
  {
    hide IsChain, LoadsAt, EntrySynced, NameOf;
    var after := Survivors(d, lost);
    forall i | 0 <= i < |log| ensures LoadsAt(after, caseId, log[i]) {
      LossIsWithin(u, lost, log[i]);
      LoadSurvives(d, caseId, log[i], lost);
    }
    forall i | 0 <= i < |log| - 1 ensures NameOf(RecordsOf(log)[i]) !in lost.commits {
      assert RecordSynced(u, log[i]);
    }
    ChainSurvives(d.commits, caseId, RecordsOf(log), lost.commits);
    if log == [] || NameOf(RecordsOf(log)[|log| - 1]) !in lost.commits {
      HistoryIs(after, caseId, log);
    } else {
      var shorter := log[..|log| - 1];
      assert RecordsOf(shorter) == RecordsOf(log)[..|log| - 1];
      HistoryIs(after, caseId, shorter);
    }
  }

  // ---------------------------------------------------------------- unsafe means lost

  /** A record vanishes in front of a later one: the chain has a gap. */
  lemma GapIsCorrupt(d: Disk, caseId: Id, log: Log, i: nat)
    requires HasHistory(d, caseId, log) && i < |log| - 1
    ensures HistoryOf(Survivors(d, Unsynced({NameOf(log[i].record)}, {}, {})), caseId).None?
  {
    hide LoadsAt, RecordValid;
    var after := Survivors(d, Unsynced({NameOf(log[i].record)}, {}, {}));
    var chain := RecordsOf(log);
    var n := |log| - 1;
    LinkedIsSorted(chain);
    LinkedSequence(chain, i);
    LinkedSequence(chain, n);
    RecordsAreNamed(after.commits, caseId, chain[i]);
    RecordsAreNamed(d.commits, caseId, chain[n]);
    RecordsAreNamed(after.commits, caseId, chain[n]);
    assert chain[n] in Elements(chain);
    assert chain[n] in Records(after.commits, caseId) && chain[i] !in Records(after.commits, caseId);
    forall other ensures !HasHistory(after, caseId, other) {
      if HasHistory(after, caseId, other) {
        NoGapBelow(d, after, caseId, chain, RecordsOf(other), i);
        assert false;
      }
    }
  }

  lemma NoGapBelow(d: Disk, after: Disk, caseId: Id, chain: seq<CommitRecord>, other: seq<CommitRecord>, i: nat)
    requires IsChain(d.commits, caseId, chain) && i < |chain| - 1
    requires IsChain(after.commits, caseId, other) && after.commits.Keys <= d.commits.Keys
    requires forall n | n in after.commits :: after.commits[n] == d.commits[n]
    requires chain[|chain| - 1] in Records(after.commits, caseId)
    ensures chain[i] in Records(after.commits, caseId)
  {
    hide RecordIn;
    assert chain[|chain| - 1] in Elements(other);
    var k := AtIndex(other, chain[|chain| - 1]);
    LinkedSequence(other, k);
    LinkedSequence(chain, |chain| - 1);
    LinkedSequence(other, i);
    assert other[i] in Elements(other);
    assert other[i] in Records(d.commits, caseId);
    assert other[i] in Elements(chain);
    var j := AtIndex(chain, other[i]);
    LinkedSequence(chain, j);
  }

  /** A snapshot vanishes under its commit record. */
  lemma LostSnapshotIsCorrupt(d: Disk, caseId: Id, log: Log, i: nat)
    requires HasHistory(d, caseId, log) && i < |log|
    ensures HistoryOf(Survivors(d, Unsynced({}, {log[i].record.body.snapshotId}, {})), caseId).None?
  {
    hide LoadsAt, IsChain;
    var after := Survivors(d, Unsynced({}, {log[i].record.body.snapshotId}, {}));
    assert after.commits == d.commits;
    assert LoadAt(after, caseId, RecordsOf(log)[i]).None?;
    BrokenCommitNoHistory(after, caseId, RecordsOf(log), i);
  }

  /** A blob vanishes under a snapshot that lists it. */
  lemma LostBlobIsCorrupt(d: Disk, caseId: Id, log: Log, i: nat, a: ArtifactRef)
    requires HasHistory(d, caseId, log) && i < |log| && a in Refs(log[i].snapshot)
    ensures HistoryOf(Survivors(d, Unsynced({}, {}, {a.sha})), caseId).None?
  {
    hide LoadSnapshot, IsChain, Valid, CollectArtifacts, BuildManifest;
    var after := Survivors(d, Unsynced({}, {}, {a.sha}));
    assert after.commits == d.commits;
    var r := RecordsOf(log)[i];
    assert LoadsAt(d, caseId, log[i]);
    if LoadAt(after, caseId, r).Some? {
      IdNamesOneSnapshot(d.snapshots, d.blobs, r.body.manifestSha, after.snapshots, after.blobs, r.body.manifestSha,
                         caseId, r.body.snapshotId);
      LoadIsSound(after.snapshots, after.blobs, caseId, r.body.snapshotId, r.body.manifestSha);
      assert false;
    }
    BrokenCommitNoHistory(after, caseId, RecordsOf(log), i);
  }

  /** Exactly the power-safe states survive every loss; in any other state some loss leaves no readable case at all. */
  lemma PowerSafety(d: Disk, caseId: Id, log: Log, u: Unsynced)
    requires HasHistory(d, caseId, log)
    ensures PowerSafe(u, log) ==> forall lost | Within(lost, u) :: Survives(d, caseId, log, lost)
    ensures !PowerSafe(u, log) ==> exists lost :: Within(lost, u) && HistoryOf(Survivors(d, lost), caseId).None?
  {
    hide HasHistory, Survivors, Survives;
    if PowerSafe(u, log) {
      forall lost | Within(lost, u) ensures Survives(d, caseId, log, lost) {
        SafeSurvives(d, caseId, log, u, lost);
      }
    } else if i :| 0 <= i < |log| && !EntrySynced(u, log[i]) {
      if log[i].record.body.snapshotId in u.snapshots {
        LostSnapshotIsCorrupt(d, caseId, log, i);
        assert Within(Unsynced({}, {log[i].record.body.snapshotId}, {}), u);
      } else {
        var a :| a in Refs(log[i].snapshot) && a.sha in u.blobs;
        LostBlobIsCorrupt(d, caseId, log, i, a);
        assert Within(Unsynced({}, {}, {a.sha}), u);
      }
    } else {
      var i :| 0 <= i < |log| - 1 && !RecordSynced(u, log[i]);
      GapIsCorrupt(d, caseId, log, i);
      assert Within(Unsynced({NameOf(log[i].record)}, {}, {}), u);
    }
  }

  // ---------------------------------------------------------------- what a commit does

  /** Whatever a commit reuses instead of writing it - an orphan directory, existing blobs - is already synced, or is a
      blob in a directory that the commit syncs for a new one. */
  predicate ReuseIsSynced(d: Disk, u: Unsynced, s: Snapshot) {
    && (IdFor(s) in d.snapshots ==> IdFor(s) !in u.snapshots)
    && forall a | a in Refs(s) && a.sha in d.blobs && a.sha in u.blobs :: NewBlobBeside(d, s, a.sha)
  }

  /** A new blob of the commit goes to the same directory. */
  predicate NewBlobBeside(d: Disk, s: Snapshot, sha: Digest<Blob>) {
    exists b | b in Refs(s) :: b.sha !in d.blobs && Shard(b.sha) == Shard(sha)
  }

  lemma RefsOfCanonical(s: Snapshot)
    requires Valid(s)
    ensures Refs(Canonical(s)) == Refs(s)
  {
    hide Canonical, CollectArtifacts, ValidCase, ValidEvents, ValidWorkflow, DistinctIds, NoDuplicates;
    CanonicalKeepsView(s);
    ArtifactsForgetOrder(s, Canonical(s));
  }

  lemma NewEntrySynced(before: Unsynced, after: Unsynced, d: Disk, e: Disk, req: Request, record: CommitRecord)
    requires Valid(req.snapshot) && ReuseUnsynced(before, after, d, e, req)
    requires record.body.snapshotId == IdFor(req.snapshot)
    ensures EntrySynced(after, Entry(record, Canonical(req.snapshot))) <==> ReuseIsSynced(d, before, req.snapshot)
  {
    hide Valid, Canonical, CollectArtifacts, ManifestOf, Refs, NewBlobBeside;
    RefsOfCanonical(req.snapshot);
    forall a | a in Refs(req.snapshot) ensures a.sha in after.blobs <==>
      a.sha in d.blobs && a.sha in before.blobs && !NewBlobBeside(d, req.snapshot, a.sha)
    {
      LeftUnsynced(before, after, d, e, req, a);
    }
  }

  /** A blob of the commit stays unsynced exactly if it was, and no new one goes to its directory. */
  lemma LeftUnsynced(before: Unsynced, after: Unsynced, d: Disk, e: Disk, req: Request, a: ArtifactRef)
    requires ReuseUnsynced(before, after, d, e, req) && a in Refs(req.snapshot)
    ensures a.sha in after.blobs <==>
      a.sha in d.blobs && a.sha in before.blobs && !NewBlobBeside(d, req.snapshot, a.sha)
  {
    hide Shard, Refs, IdFor;
    var added := e.blobs.Keys - d.blobs.Keys;
    assert a.sha in Shas(Refs(req.snapshot));
    if NewBlobBeside(d, req.snapshot, a.sha) {
      var b :| b in Refs(req.snapshot) && b.sha !in d.blobs && Shard(b.sha) == Shard(a.sha);
      assert b.sha in Shas(Refs(req.snapshot)) && b.sha in added;
    }
    if n :| n in added && Shard(n) == Shard(a.sha) {
      var b :| b in Refs(req.snapshot) && b.sha == n;
      assert NewBlobBeside(d, req.snapshot, a.sha);
    }
    if a.sha !in d.blobs {
      assert a.sha in added;
    }
  }

  lemma OldEntriesSynced(before: Unsynced, after: Unsynced, d: Disk, caseId: Id, log: Log)
    requires HasHistory(d, caseId, log)
    requires after.snapshots * d.snapshots.Keys <= before.snapshots && after.blobs * d.blobs.Keys <= before.blobs
    ensures forall i | 0 <= i < |log| :: EntrySynced(before, log[i]) ==> EntrySynced(after, log[i])
  {
    hide Valid, CollectArtifacts, LoadManifest, DecodeAll, Assemble, PrepareDocuments, FilesMatch, IsChain,
         BuildManifest;
    forall i | 0 <= i < |log| && EntrySynced(before, log[i]) ensures EntrySynced(after, log[i]) {
      EntryNeeds(d, caseId, log[i]);
      forall a | a in Refs(log[i].snapshot) ensures a.sha !in after.blobs {
        assert a.sha in d.blobs;
        assert a.sha in after.blobs ==> a.sha in after.blobs * d.blobs.Keys;
      }
      var id := log[i].record.body.snapshotId;
      assert id in after.snapshots ==> id in after.snapshots * d.snapshots.Keys;
    }
  }

  lemma EntryNeeds(d: Disk, caseId: Id, e: Entry)
    requires LoadsAt(d, caseId, e)
    ensures e.record.body.snapshotId in d.snapshots && forall a | a in Refs(e.snapshot) :: a.sha in d.blobs
  {
    hide Valid, CollectArtifacts, LoadManifest, DecodeAll, Assemble, PrepareDocuments, FilesMatch, IsChain,
         BuildManifest;
    LoadIsSound(d.snapshots, d.blobs, caseId, e.record.body.snapshotId, e.record.body.manifestSha);
  }

  /** A commit that is reported done keeps a power-safe directory power-safe exactly when all it reused was synced; one
      whose outcome is unknown needs, besides, that the previous record was. A commit that did not happen changes
      nothing. */
  lemma CommitPowerSafety(before: Unsynced, after: Unsynced, d: Disk, e: Disk, caseId: Id, log: Log, req: Request,
                          now: Time, outcome: Outcome)
    requires Valid(req.snapshot)
    requires HasHistory(d, caseId, log) && Decide(d, caseId, log, req).Proceed?
    requires CommitEffect(d, e, caseId, Some(log), req, now, outcome) && Durability(before, after, d, e, req, outcome)
    requires PowerSafe(before, log)
    ensures outcome.Committed? ==>
      (PowerSafe(after, Appended(caseId, log, req, now)) <==> ReuseIsSynced(d, before, req.snapshot))
    ensures outcome.UnknownOutcome? ==>
      (PowerSafe(after, Appended(caseId, log, req, now)) <==>
         ReuseIsSynced(d, before, req.snapshot) && (log != [] ==> RecordSynced(before, log[|log| - 1])))
    ensures outcome.Refused? || outcome.Stopped? ==> PowerSafe(after, log)
  {
    hide Valid, Decide, HasHistory, EntrySynced, Material, Canonical, Grows, ReuseIsSynced, NextRecord, IdFor, NameOf;
    OldEntriesSynced(before, after, d, caseId, log);
    if outcome.Committed? || outcome.UnknownOutcome? {
      var longer := Appended(caseId, log, req, now);
      RecordNamesSnapshot(caseId, log, req, now);
      NewEntrySynced(before, after, d, e, req, outcome.record);
      RecordsStaySynced(before, after, d, caseId, log, req, now, outcome);
      AppendedSafety(after, log, longer[|log|]);
    }
  }

  lemma RecordNamesSnapshot(caseId: Id, log: Log, req: Request, now: Time)
    ensures NextRecord(caseId, RecordsOf(log), req.snapshot, now, req.reason).body.snapshotId == IdFor(req.snapshot)
  {
  }

  lemma AppendedSafety(u: Unsynced, log: Log, e: Entry)
    ensures PowerSafe(u, log + [e]) <==>
      && (forall i | 0 <= i < |log| :: EntrySynced(u, log[i])) && EntrySynced(u, e)
      && (forall i | 0 <= i < |log| :: RecordSynced(u, log[i]))
  {
    hide EntrySynced, RecordSynced;
    var longer := log + [e];
    if PowerSafe(u, longer) {
      assert EntrySynced(u, longer[|log|]);
      forall i | 0 <= i < |log| ensures EntrySynced(u, log[i]) && RecordSynced(u, log[i]) {
        assert EntrySynced(u, longer[i]) && RecordSynced(u, longer[i]);
      }
    }
  }

  lemma RecordsStaySynced(before: Unsynced, after: Unsynced, d: Disk, caseId: Id, log: Log, req: Request, now: Time,
                          outcome: Outcome)
    requires HasHistory(d, caseId, log) && (outcome.Committed? || outcome.UnknownOutcome?)
    requires after.commits == if outcome.Committed? then {} else before.commits + {NameOf(outcome.record)}
    requires outcome.record == NextRecord(caseId, RecordsOf(log), req.snapshot, now, req.reason)
    ensures outcome.Committed? ==> forall i | 0 <= i < |log| :: RecordSynced(after, log[i])
    ensures outcome.UnknownOutcome? ==>
      forall i | 0 <= i < |log| :: RecordSynced(after, log[i]) <==> RecordSynced(before, log[i])
  {
    hide LoadsAt, IdFor, ManifestFor, Valid;
    if outcome.UnknownOutcome? {
      forall i | 0 <= i < |log| ensures NameOf(log[i].record) != NameOf(outcome.record) {
        LinkedSequence(RecordsOf(log), i);
        LinkedSequence(RecordsOf(log), |log| - 1);
      }
    }
  }

  // ---------------------------------------------------------------- what an acknowledgement is worth

  /** No loss takes anything of the history back. */
  ghost predicate KeepsAll(d: Disk, caseId: Id, log: Log, u: Unsynced) {
    forall lost | Within(lost, u) :: HistoryOf(Survivors(d, lost), caseId) == Some(log)
  }

  lemma LastCommitStays(d: Disk, caseId: Id, log: Log, u: Unsynced)
    requires HasHistory(d, caseId, log) && PowerSafe(u, log) && log != []
    ensures KeepsAll(d, caseId, log, u) <==> RecordSynced(u, log[|log| - 1])
  {
    hide HasHistory, HistoryOf, PowerSafe, NameOf;
    forall lost | Within(lost, u) && RecordSynced(u, log[|log| - 1])
      ensures HistoryOf(Survivors(d, lost), caseId) == Some(log)
    {
      SafeSurvives(d, caseId, log, u, lost);
    }
    if !RecordSynced(u, log[|log| - 1]) {
      var lost := Unsynced({NameOf(log[|log| - 1].record)}, {}, {});
      assert Within(lost, u);
      SafeSurvives(d, caseId, log, u, lost);
      assert |log[..|log| - 1]| != |log|;
    }
  }

  /** A commit reported as done survives every loss exactly if all it reused was synced. Reported as done before - the
      idempotent answer, which syncs nothing - it survives exactly if its record had been synced by then. */
  lemma AcknowledgedSurvives(before: Unsynced, after: Unsynced, d: Disk, e: Disk, caseId: Id, log: Log, req: Request,
                             now: Time, outcome: Outcome)
    requires Valid(req.snapshot) && HasHistory(d, caseId, log) && PowerSafe(before, log) && outcome.Committed?
    requires CommitEffect(d, e, caseId, Some(log), req, now, outcome) && Durability(before, after, d, e, req, outcome)
    ensures !outcome.idempotent ==>
      (KeepsAll(e, caseId, Appended(caseId, log, req, now), after) <==> ReuseIsSynced(d, before, req.snapshot))
    ensures outcome.idempotent ==>
      log != [] && (KeepsAll(e, caseId, log, after) <==> RecordSynced(before, log[|log| - 1]))
  {
    hide Valid, HasHistory, EntrySynced, Material, Canonical, Grows, ReuseIsSynced, NextRecord, IdFor, NameOf, KeepsAll,
         ProvenanceHolds, PowerSafe, CheckParent, IdempotentHead;
    if outcome.idempotent {
      LastCommitStays(d, caseId, log, before);
    } else {
      var longer := Appended(caseId, log, req, now);
      CommitPowerSafety(before, after, d, e, caseId, log, req, now, outcome);
      if ReuseIsSynced(d, before, req.snapshot) {
        LastCommitStays(e, caseId, longer, after);
      } else {
        PowerSafety(e, caseId, longer, after);
        LossBreaks(e, caseId, longer, after);
      }
    }
  }

  lemma LossBreaks(d: Disk, caseId: Id, log: Log, u: Unsynced)
    requires exists lost :: Within(lost, u) && HistoryOf(Survivors(d, lost), caseId).None?
    ensures !KeepsAll(d, caseId, log, u)
  {
    hide HistoryOf;
  }
}
