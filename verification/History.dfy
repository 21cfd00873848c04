/** What a case directory holds: its commit chain and the snapshot every commit of it loads to. */
module History {
  import opened Domain
  import opened Validation
  import opened Loading
  import opened Chain

  /** The durable part of a case directory. */
  datatype Disk = Disk(commits: Commits, snapshots: Snapshots, blobs: Blobs)

  datatype Entry = Entry(record: CommitRecord, snapshot: Snapshot)

  type Log = seq<Entry>

  function RecordsOf(log: Log): (chain: seq<CommitRecord>)
    ensures |chain| == |log| && forall i | 0 <= i < |log| :: chain[i] == log[i].record
  {
    seq(|log|, i requires 0 <= i < |log| => log[i].record)
  }

  function LoadAt(d: Disk, caseId: Id, r: CommitRecord): Option<Snapshot> {
    LoadSnapshot(d.snapshots, d.blobs, caseId, r.body.snapshotId, r.body.manifestSha)
  }

  predicate LoadsAt(d: Disk, caseId: Id, e: Entry) {
    LoadAt(d, caseId, e.record) == Some(e.snapshot)
  }

  /** The records form a chain and each commit loads to this snapshot. */
  predicate HasHistory(d: Disk, caseId: Id, log: Log) {
    IsChain(d.commits, caseId, RecordsOf(log)) && forall i | 0 <= i < |log| :: LoadsAt(d, caseId, log[i])
  }

  lemma HistoryIsUnique(d: Disk, caseId: Id, a: Log, b: Log)
    requires HasHistory(d, caseId, a) && HasHistory(d, caseId, b)
    ensures a == b
  {
    ChainIsUnique(d.commits, caseId, RecordsOf(a), RecordsOf(b));
    assert |a| == |RecordsOf(a)| == |RecordsOf(b)| == |b|;
    forall i | 0 <= i < |a| ensures a[i] == b[i] {
      assert RecordsOf(a)[i] == RecordsOf(b)[i];
      assert LoadsAt(d, caseId, a[i]) && LoadsAt(d, caseId, b[i]);
    }
  }

  /** The history of a case directory; none where the directory is corrupt. */
  ghost function HistoryOf(d: Disk, caseId: Id): (r: Option<Log>)
    ensures r.Some? ==> HasHistory(d, caseId, r.value)
    ensures r.None? ==> forall log :: !HasHistory(d, caseId, log)
  {
    if log :| HasHistory(d, caseId, log) then Some(log) else None
  }

  lemma HistoryIs(d: Disk, caseId: Id, log: Log)
    requires HasHistory(d, caseId, log)
    ensures HistoryOf(d, caseId) == Some(log)
  {
    HistoryIsUnique(d, caseId, log, HistoryOf(d, caseId).value);
  }

  lemma EntryIsCommitted(d: Disk, caseId: Id, log: Log, i: nat)
    requires HasHistory(d, caseId, log) && i < |log|
    ensures RecordValid(log[i].record, caseId) && log[i].record.body.sequence == i + 1
    ensures LoadAt(d, caseId, log[i].record) == Some(log[i].snapshot)
    ensures Valid(log[i].snapshot)
  {
    hide LoadSnapshot, Valid;
    assert LoadsAt(d, caseId, log[i]);
    assert RecordsOf(log)[i] in Records(d.commits, caseId);
    LinkedSequence(RecordsOf(log), i);
    LoadIsSound(d.snapshots, d.blobs, caseId, log[i].record.body.snapshotId, log[i].record.body.manifestSha);
  }

  // ---------------------------------------------------------------- steps that do not publish a record

  /** The records are untouched, and snapshots and blobs are only added. */
  predicate Grows(before: Disk, after: Disk) {
    && Finals(after.commits) == Finals(before.commits)
    && Extends(before.snapshots, after.snapshots)
    && Extends(before.blobs, after.blobs)
  }

  lemma EntriesStillLoad(before: Disk, after: Disk, caseId: Id, log: Log)
    requires Extends(before.snapshots, after.snapshots) && Extends(before.blobs, after.blobs)
    requires forall i | 0 <= i < |log| :: LoadsAt(before, caseId, log[i])
    ensures forall i | 0 <= i < |log| :: LoadsAt(after, caseId, log[i])
  {
    hide LoadSnapshot, Extends;
    forall i | 0 <= i < |log| ensures LoadsAt(after, caseId, log[i]) {
      assert LoadsAt(before, caseId, log[i]);
      LoadIsStable(before.snapshots, before.blobs, after.snapshots, after.blobs, caseId,
                   log[i].record.body.snapshotId, log[i].record.body.manifestSha);
    }
  }

  /** Everything short of a record leaves the history as it is. */
  lemma HistoryKept(before: Disk, after: Disk, caseId: Id, log: Log)
    requires Grows(before, after) && HasHistory(before, caseId, log)
    ensures HasHistory(after, caseId, log)
  {
    EntriesStillLoad(before, after, caseId, log);
    OnlyFinalsMatter(before.commits, after.commits, caseId);
  }

  /** The publication of a record whose snapshot is in place appends one entry. */
  lemma HistoryAppended(before: Disk, after: Disk, caseId: Id, log: Log, e: Entry)
    requires HasHistory(before, caseId, log)
    requires Extends(before.snapshots, after.snapshots) && Extends(before.blobs, after.blobs)
    requires RecordValid(e.record, caseId) && Continues(RecordsOf(log), e.record)
    requires Finals(after.commits) == Finals(before.commits)[NameOf(e.record) := CanonicalRecord(e.record)]
    requires LoadsAt(after, caseId, e)
    ensures HasHistory(after, caseId, log + [e])
  {
    hide LoadsAt;
    EntriesStillLoad(before, after, caseId, log);
    ChainGrows(before.commits, after.commits, caseId, RecordsOf(log), e.record);
    assert RecordsOf(log + [e]) == RecordsOf(log) + [e.record];
  }

  lemma NoChainNoHistory(d: Disk, caseId: Id)
    requires forall chain :: !IsChain(d.commits, caseId, chain)
    ensures HistoryOf(d, caseId).None?
  {
  }

  lemma EntryLoads(d: Disk, caseId: Id, log: Log, i: nat)
    requires HasHistory(d, caseId, log) && i < |log|
    ensures LoadAt(d, caseId, RecordsOf(log)[i]) == Some(log[i].snapshot)
  {
    assert LoadsAt(d, caseId, log[i]);
  }

  /** One commit that does not load makes the directory corrupt. */
  lemma BrokenCommitNoHistory(d: Disk, caseId: Id, chain: seq<CommitRecord>, i: nat)
    requires IsChain(d.commits, caseId, chain) && i < |chain| && LoadAt(d, caseId, chain[i]).None?
    ensures HistoryOf(d, caseId).None?
  {
    hide LoadSnapshot;
    if HistoryOf(d, caseId).Some? {
      var log := HistoryOf(d, caseId).value;
      ChainIsUnique(d.commits, caseId, chain, RecordsOf(log));
      EntryLoads(d, caseId, log, i);
      assert false;
    }
  }
}
