/** Health report, recovery inspection and cleanup of a case directory. */
module Recovery {
  import opened Domain
  import opened Collections
  import opened Loading
  import opened Chain
  import opened History
  import opened Publication
  import opened Store

  datatype Status = Healthy | Degraded | Corrupt

  function Degrade(s: Status): Status {
    if s.Corrupt? then s else Degraded
  }

  datatype Problem =
    | DirectoryMissing
    | BrokenTail(name: FileName)
    | BrokenChain
    | BrokenSnapshot(commit: CommitId)
    | BrokenProvenance(commit: CommitId)

  datatype Report = Report(
    status: Status, errors: seq<Problem>, validCommits: seq<CommitId>, orphanSnapshots: seq<SnapshotId>,
    orphanBlobs: seq<Digest<Blob>>, staging: seq<nat>, temporaryBlobs: seq<nat>, temporaryCommits: seq<FileName>)

  /** Nothing is left over: no orphan, no staging directory, no temporary file. */
  predicate Tidy(r: Report) {
    && r.orphanSnapshots == [] && r.orphanBlobs == [] && r.staging == []
    && r.temporaryBlobs == [] && r.temporaryCommits == []
  }

  predicate StatusFits(r: Report) {
    && (r.status.Corrupt? <==> r.errors != [])
    && (r.status.Healthy? <==> r.errors == [] && Tidy(r))
  }

  function CommitIds(chain: seq<CommitRecord>): (ids: seq<CommitId>)
    ensures |ids| == |chain| && forall i | 0 <= i < |chain| :: ids[i] == chain[i].commitId
  {
    seq(|chain|, i requires 0 <= i < |chain| => chain[i].commitId)
  }

  function SnapshotIds(chain: seq<CommitRecord>): set<SnapshotId> {
    set r | r in chain :: r.body.snapshotId
  }

  /** Commit `i` loads, and its acquisitions came from earlier commits. */
  predicate CommitSound(d: Disk, caseId: Id, chain: seq<CommitRecord>, i: nat)
    requires i < |chain|
  {
    LoadAt(d, caseId, chain[i]).Some? && ProvenanceHolds(d, caseId, chain, i, LoadAt(d, caseId, chain[i]).value)
  }

  function CommitProblem(d: Disk, caseId: Id, chain: seq<CommitRecord>, i: nat): Option<Problem>
    requires i < |chain|
  {
    if LoadAt(d, caseId, chain[i]).None? then Some(BrokenSnapshot(chain[i].commitId))
    else if !CommitSound(d, caseId, chain, i) then Some(BrokenProvenance(chain[i].commitId))
    else None
  }

  /** One problem for each of the first `n` commits that is not sound. */
  function CommitProblems(d: Disk, caseId: Id, chain: seq<CommitRecord>, n: nat): set<Problem>
    requires n <= |chain|
  {
    set i | 0 <= i < n && CommitProblem(d, caseId, chain, i).Some? :: CommitProblem(d, caseId, chain, i).value
  }

  /** One problem for each file left out of the chain, and one for the chain they broke. */
  function FileProblems(left: set<FileName>): set<Problem> {
    (set n | n in left :: BrokenTail(n)) + (if left == {} then {} else {BrokenChain})
  }

  /** The artifacts a published manifest lists. */
  function ListedBlobs(d: Disk, id: SnapshotId): set<Digest<Blob>> {
    if id in d.snapshots && d.snapshots[id].manifest.Some? && DecodeManifest(d.snapshots[id].manifest.value).Some? then
      set a | a in DecodeManifest(d.snapshots[id].manifest.value).value.artifacts :: a.sha
    else {}
  }

  /** The blobs listed by the sound commits among the first `n`. */
  function ReferencedBlobs(d: Disk, caseId: Id, chain: seq<CommitRecord>, n: nat): set<Digest<Blob>>
    requires n <= |chain|
  {
    set i, b | 0 <= i < n && CommitSound(d, caseId, chain, i) && b in ListedBlobs(d, chain[i].body.snapshotId) :: b
  }

  /** The chain is whole and every commit of it is sound. */
  predicate AllSound(d: Disk, caseId: Id, chain: seq<CommitRecord>) {
    IsChain(d.commits, caseId, chain) && forall i | 0 <= i < |chain| :: CommitSound(d, caseId, chain, i)
  }

  function Temporaries(commits: Commits): set<FileName> {
    set n | n in commits && n.TempName?
  }

  /** The elements of a listing that are not in `known`. */
  method Leftovers<T(==)>(entries: set<T>, known: set<T>) returns (rest: seq<T>)
    ensures Elements(rest) == entries - known
    ensures rest == [] <==> entries <= known
  {
    var names := ReadDir(entries);
    rest := [];
    for i := 0 to |names|
      invariant Elements(rest) == set n | n in names[..i] && n !in known
    {
      assert names[..i + 1] == names[..i] + [names[i]];
      if names[i] !in known {
        ElementsOfSum(rest, [names[i]]);
        rest := rest + [names[i]];
      }
    }
    assert names[..|names|] == names;
    forall n ensures n in rest <==> n in entries && n !in known {
      assert n in rest <==> n in Elements(rest);
      assert n in names <==> n in Elements(names);
    }
    assert rest != [] ==> rest[0] in Elements(rest);
  }

  /** Check every commit of the chain; the blobs of the sound ones count as referenced. */
  method CheckCommits(dir: CaseDirectory, chain: seq<CommitRecord>, before: Status)
    returns (status: Status, errors: seq<Problem>, referenced: set<Digest<Blob>>)
    requires Linked(chain) && Elements(chain) <= Records(dir.commits, dir.caseId)
    ensures errors == [] <==> forall i | 0 <= i < |chain| :: CommitSound(dir.Files(), dir.caseId, chain, i)
    ensures Elements(errors) == CommitProblems(dir.Files(), dir.caseId, chain, |chain|)
    ensures status == if errors == [] then before else Corrupt
    ensures referenced == ReferencedBlobs(dir.Files(), dir.caseId, chain, |chain|)
  {
    hide LoadSnapshot, ProvenanceHolds, ListedBlobs;
    status, errors, referenced := before, [], {};
    ChainIdsDiffer(dir.commits, dir.caseId, chain);
    for i := 0 to |chain|
      invariant errors == [] <==> forall k | 0 <= k < i :: CommitSound(dir.Files(), dir.caseId, chain, k)
      invariant Elements(errors) == CommitProblems(dir.Files(), dir.caseId, chain, i)
      invariant status == if errors == [] then before else Corrupt
      invariant referenced == ReferencedBlobs(dir.Files(), dir.caseId, chain, i)
    {
      ghost var found := errors;
      var loaded := dir.LoadCommit(chain[i]);
      match loaded {
        case None =>
          status, errors := Corrupt, errors + [BrokenSnapshot(chain[i].commitId)];
          assert !CommitSound(dir.Files(), dir.caseId, chain, i);
        case Some(s) =>
          var sourced := dir.ValidateProvenance(chain, i, s);
          assert CommitSound(dir.Files(), dir.caseId, chain, i) <==> sourced;
          if sourced {
            referenced := referenced + ListedBlobs(dir.Files(), chain[i].body.snapshotId);
          } else {
            status, errors := Corrupt, errors + [BrokenProvenance(chain[i].commitId)];
          }
      }
      ReferencedNext(dir.Files(), dir.caseId, chain, i);
      ProblemsNext(dir.Files(), dir.caseId, chain, i);
      assert errors ==
             found + match CommitProblem(dir.Files(), dir.caseId, chain, i) case None => [] case Some(p) => [p];
      ElementsOfSum(found, match CommitProblem(dir.Files(), dir.caseId, chain, i) case None => [] case Some(p) => [p]);
    }
  }

  lemma ProblemsNext(d: Disk, caseId: Id, chain: seq<CommitRecord>, i: nat)
    requires i < |chain|
    ensures CommitProblems(d, caseId, chain, i + 1) == CommitProblems(d, caseId, chain, i)
            + match CommitProblem(d, caseId, chain, i) case None => {} case Some(p) => {p}
  {
    hide CommitProblem;
  }

  lemma ReferencedNext(d: Disk, caseId: Id, chain: seq<CommitRecord>, i: nat)
    requires i < |chain|
    ensures ReferencedBlobs(d, caseId, chain, i + 1) == ReferencedBlobs(d, caseId, chain, i)
            + (if CommitSound(d, caseId, chain, i) then ListedBlobs(d, chain[i].body.snapshotId) else {})
  {
    hide CommitSound, ListedBlobs;
  }

  /** Load the chain prefix and check its commits. A broken tail is listed without touching the status: it always comes
      with an error of the chain itself, which does. */
  method CheckHistory(dir: CaseDirectory)
    returns (status: Status, errors: seq<Problem>, chain: seq<CommitRecord>, referenced: set<Digest<Blob>>)
    ensures status == if errors == [] then Healthy else Corrupt
    ensures errors == [] <==> exists c :: AllSound(dir.Files(), dir.caseId, c)
    ensures errors == [] ==> AllSound(dir.Files(), dir.caseId, chain)
    ensures Elements(errors)
        == FileProblems(Malformed(dir.commits, dir.caseId) + LeftOut(dir.commits, dir.caseId, chain))
                                + CommitProblems(dir.Files(), dir.caseId, chain, |chain|)
    ensures Linked(chain) && Elements(chain) <= Records(dir.commits, dir.caseId)
    ensures referenced == ReferencedBlobs(dir.Files(), dir.caseId, chain, |chain|)
  {
    hide LoadSnapshot, ProvenanceHolds, ListedBlobs, ReferencedBlobs, Records, Malformed, Linked, CommitSound, LeftOut,
         DistinctSequences;
    status, errors := Healthy, [];
    var broken, failed;
    chain, broken, failed := LoadCommitChainPrefix(dir.commits, dir.caseId);
    for i := 0 to |broken|
      invariant errors != [] <==> i > 0
      invariant Elements(errors) == set n | n in broken[..i] :: BrokenTail(n)
    {
      assert broken[..i + 1] == broken[..i] + [broken[i]];
      ElementsOfSum(errors, [BrokenTail(broken[i])]);
      errors := errors + [BrokenTail(broken[i])];
    }
    assert broken[..|broken|] == broken;
    EmptyIffNoElements(broken);
    assert Elements(errors) == set n | n in Elements(broken) :: BrokenTail(n);
    if failed {
      ElementsOfSum(errors, [BrokenChain]);
      status, errors := Corrupt, errors + [BrokenChain];
    }
    var unsound;
    status, unsound, referenced := CheckCommits(dir, chain, status);
    ElementsOfSum(errors, unsound);
    errors := errors + unsound;
    if errors == [] {
      assert AllSound(dir.Files(), dir.caseId, chain);
    } else if c :| AllSound(dir.Files(), dir.caseId, c) {
      ChainIsUnique(dir.commits, dir.caseId, chain, c);
      assert false;
    }
  }

  /** `Verify`: corrupt exactly when an error is listed, healthy exactly when nothing is; the lists are exact. */
  method Verify(dir: CaseDirectory) returns (r: Report, ghost prefix: seq<CommitRecord>)
    ensures StatusFits(r)
    ensures !dir.present ==> r.errors == [DirectoryMissing]
    ensures dir.present ==>
      && (r.errors == [] <==> exists chain :: AllSound(dir.Files(), dir.caseId, chain))
      && (r.errors == [] ==> AllSound(dir.Files(), dir.caseId, prefix))
      && Elements(r.errors)
          == FileProblems(Malformed(dir.commits, dir.caseId) + LeftOut(dir.commits, dir.caseId, prefix))
                               + CommitProblems(dir.Files(), dir.caseId, prefix, |prefix|)
      && Linked(prefix) && Elements(prefix) <= Records(dir.commits, dir.caseId)
      && r.validCommits == CommitIds(prefix)
      && Elements(r.orphanSnapshots) == dir.snapshots.Keys - SnapshotIds(prefix)
      && Elements(r.orphanBlobs) == dir.blobs.Keys - ReferencedBlobs(dir.Files(), dir.caseId, prefix, |prefix|)
      && Elements(r.staging) == dir.staging.Keys
      && Elements(r.temporaryBlobs) == dir.temporary
      && Elements(r.temporaryCommits) == Temporaries(dir.commits)
  {
    hide AllSound, ReferencedBlobs, Records, Linked, Elements, Temporaries, FileProblems, CommitProblems, Malformed,
         LeftOut;
    if !dir.present {
      prefix := [];
      r := Report(Corrupt, [DirectoryMissing], [], [], [], [], [], []);
      return;
    }
    var status, errors, chain, referenced := CheckHistory(dir);
    prefix := chain;
    ghost var files := dir.Files();
    assert errors == [] <==> exists c :: AllSound(files, dir.caseId, c);
    var orphans := Leftovers(dir.snapshots.Keys, SnapshotIds(chain));
    if orphans != [] { status := Degrade(status); }
    var blobs := Leftovers(dir.blobs.Keys, referenced);
    if blobs != [] { status := Degrade(status); }
    var temporaryBlobs := Leftovers(dir.temporary, {});
    if temporaryBlobs != [] { status := Degrade(status); }
    var staging := Leftovers(dir.staging.Keys, {});
    if staging != [] { status := Degrade(status); }
    var temporaryCommits := Leftovers(Temporaries(dir.commits), {});
    if temporaryCommits != [] { status := Degrade(status); }
    assert dir.Files() == files;
    r := Report(status, errors, CommitIds(chain), orphans, blobs, staging, temporaryBlobs, temporaryCommits);
  }

  /** A directory that is not corrupt has a history, so its head loads. */
  lemma SoundHasHistory(d: Disk, caseId: Id, chain: seq<CommitRecord>)
    requires AllSound(d, caseId, chain)
    ensures HistoryOf(d, caseId).Some? && RecordsOf(HistoryOf(d, caseId).value) == chain
  {
    hide LoadSnapshot, ProvenanceHolds, IsChain;
    var log := seq(|chain|, i requires 0 <= i < |chain| && CommitSound(d, caseId, chain, i)
                              => Entry(chain[i], LoadAt(d, caseId, chain[i]).value));
    assert RecordsOf(log) == chain;
    forall i | 0 <= i < |log| ensures LoadsAt(d, caseId, log[i]) {
      assert CommitSound(d, caseId, chain, i);
    }
    HistoryIs(d, caseId, log);
  }

  /** Report and reader agree: without errors, `LoadLatest` returns the last listed commit. */
  method VerifiedHeadLoads(dir: CaseDirectory) returns (r: Report, head: Result<Entry>)
    ensures dir.present && !r.status.Corrupt? && r.validCommits != [] ==>
      head.Ok? && head.value.record.commitId == r.validCommits[|r.validCommits| - 1]
    ensures dir.present && !r.status.Corrupt? && r.validCommits == [] ==> head == Err(CaseNotFound)
  {
    ghost var prefix;
    r, prefix := Verify(dir);
    head := dir.LoadLatest();
    if dir.present && !r.status.Corrupt? {
      SoundHasHistory(dir.Files(), dir.caseId, prefix);
    }
  }

  /** What resists deletion: temporary files that cannot be removed, and what remains of staging directories that cannot
      be removed entirely. */
  datatype Stuck = Stuck(commits: set<FileName>, blobs: set<nat>, staging: map<nat, SnapshotDir>)

  const NOTHING_STUCK := Stuck({}, {}, map[])

  /** The commit directory without the temporary files that can be removed. */
  function Swept(commits: Commits, stuck: set<FileName>): Commits {
    map n | n in commits && (!n.TempName? || n in stuck) :: commits[n]
  }

  lemma FinalsSurvive(commits: Commits, stuck: set<FileName>)
    ensures Finals(Swept(commits, stuck)) == Finals(commits)
  {
  }

  /** What is left of the staging directories `names`. */
  function Remains(names: set<nat>, staging: map<nat, SnapshotDir>, stuck: map<nat, SnapshotDir>)
    : map<nat, SnapshotDir>
  {
    map t | t in staging && (t !in names || t in stuck) :: if t in names then stuck[t] else staging[t]
  }

  lemma RemainsNext(names: set<nat>, n: nat, staging: map<nat, SnapshotDir>, stuck: map<nat, SnapshotDir>)
    requires n in staging && n !in names
    ensures var before, after := Remains(names, staging, stuck), Remains(names + {n}, staging, stuck);
      after == if n in stuck then before[n := stuck[n]] else before - {n}
  {
  }

  /** Remove the staging directories one by one; a directory that resists is passed over. */
  method RemoveStaging(dir: CaseDirectory, stuck: map<nat, SnapshotDir>) returns (removed: seq<nat>)
    modifies dir`staging
    ensures dir.staging == Remains(old(dir.staging).Keys, old(dir.staging), stuck)
    ensures Elements(removed) == old(dir.staging).Keys - stuck.Keys
  {
    hide Remains, Elements;
    removed := [];
    var names := ReadDir(dir.staging.Keys);
    ghost var was := dir.staging;
    ghost var tried: set<nat> := {};
    NothingRemains(was, stuck, names);
    for i := 0 to |names|
      invariant tried == Elements(names[..i])
      invariant dir.staging == Remains(tried, was, stuck)
      invariant Elements(removed) == tried - stuck.Keys
    {
      var n := names[i];
      OneMoreName(names, i);
      RemainsNext(tried, n, was, stuck);
      if n in stuck {
        dir.staging := dir.staging[n := stuck[n]];
      } else {
        OneMore(removed, n);
        dir.staging := dir.staging - {n};
        removed := removed + [n];
      }
      tried := tried + {n};
    }
    assert names[..|names|] == names;
  }

  lemma NothingRemains(staging: map<nat, SnapshotDir>, stuck: map<nat, SnapshotDir>, names: seq<nat>)
    ensures Remains({}, staging, stuck) == staging && Elements(names[..0]) == {}
    ensures Elements<nat>([]) == {}
  {
  }

  lemma OneMoreName(names: seq<nat>, i: nat)
    requires i < |names| && NoRepeats(names)
    ensures Elements(names[..i + 1]) == Elements(names[..i]) + {names[i]}
    ensures names[i] in Elements(names) && names[i] !in Elements(names[..i])
  {
    assert names[..i + 1] == names[..i] + [names[i]];
  }

  lemma OneMore(xs: seq<nat>, x: nat)
    ensures Elements(xs + [x]) == Elements(xs) + {x}
  {
  }

  /** `CleanupStaging` removes what it can of the staging directories and temporary files, and nothing else. */
  method CleanupStaging(dir: CaseDirectory, stuck: Stuck)
    returns (done: bool, removedStaging: seq<nat>, preserved: seq<SnapshotId>)
    modifies dir`commits, dir`staging, dir`temporary, dir`present
    ensures done <==> !dir.locked
    ensures Finals(dir.commits) == Finals(old(dir.commits))
    ensures done ==>
      && dir.staging == Remains(old(dir.staging).Keys, old(dir.staging), stuck.staging)
      && dir.temporary == old(dir.temporary) * stuck.blobs
      && dir.commits == Swept(old(dir.commits), stuck.commits)
      && Elements(removedStaging) == old(dir.staging).Keys - stuck.staging.Keys
      && Elements(preserved) == dir.snapshots.Keys
    ensures done && stuck == NOTHING_STUCK ==>
      dir.staging == map[] && dir.temporary == {} && Temporaries(dir.commits) == {}
    ensures !done ==>
      dir.commits == old(dir.commits) && dir.staging == old(dir.staging) && dir.temporary == old(dir.temporary)
    ensures dir.Past() == old(dir.Past())
  {
    hide HistoryOf, Finals;
    done, removedStaging, preserved := false, [], [];
    dir.present := true;
    if dir.locked { return; }
    done := true;
    preserved := ReadDir(dir.snapshots.Keys);
    removedStaging := RemoveStaging(dir, stuck.staging);
    dir.temporary := dir.temporary * stuck.blobs;
    FinalsSurvive(dir.commits, stuck.commits);
    dir.commits := Swept(dir.commits, stuck.commits);
    SameFinalsSameHistory(old(dir.Files()), dir.Files(), dir.caseId);
  }

  lemma SameFinalsSameHistory(before: Disk, after: Disk, caseId: Id)
    requires Finals(after.commits) == Finals(before.commits)
    requires after.snapshots == before.snapshots && after.blobs == before.blobs
    ensures HistoryOf(after, caseId) == HistoryOf(before, caseId)
  {
    hide LoadAt, Finals;
    if HistoryOf(before, caseId).Some? {
      HistoryKept(before, after, caseId, HistoryOf(before, caseId).value);
      HistoryIs(after, caseId, HistoryOf(before, caseId).value);
    } else if HistoryOf(after, caseId).Some? {
      HistoryKept(after, before, caseId, HistoryOf(after, caseId).value);
    }
  }

  // ---------------------------------------------------------------- inspection

  datatype Inspection = Inspection(
    brokenChain: bool, brokenTail: seq<FileName>, malformed: seq<FileName>, validCommits: seq<CommitId>,
    validSnapshots: seq<SnapshotId>, mismatched: seq<SnapshotId>, brokenTailSnapshots: seq<SnapshotId>,
    publishedUncommitted: seq<SnapshotId>, missingManifests: seq<SnapshotId>, unreferencedBlobs: seq<Digest<Blob>>)

  /** The snapshots of the records a listing of broken files still parses to. */
  function TailSnapshots(commits: Commits, caseId: Id, names: set<FileName>): set<SnapshotId> {
    set r | r in Records(commits, caseId) && NameOf(r) in names :: r.body.snapshotId
  }

  /** Blobs listed by readable manifests of the chain, whether or not their commits still load. */
  function MentionedBlobs(d: Disk, chain: seq<CommitRecord>, n: nat): set<Digest<Blob>>
    requires n <= |chain|
  {
    set i, b | 0 <= i < n && b in ListedBlobs(d, chain[i].body.snapshotId) :: b
  }

  /** The snapshots of the commits that load, or of those that do not. */
  function LoadedIds(d: Disk, caseId: Id, chain: seq<CommitRecord>, loads: bool): set<SnapshotId> {
    set c | c in chain && LoadAt(d, caseId, c).Some? == loads :: c.body.snapshotId
  }

  function WithoutManifest(snapshots: Snapshots): set<SnapshotId> {
    set id | id in snapshots && snapshots[id].manifest.None?
  }

  /** `InspectRecovery`: a snapshot counts as uncommitted only if no valid record names it, even behind a break. */
  method InspectRecovery(dir: CaseDirectory) returns (r: Inspection, ghost prefix: seq<CommitRecord>)
    ensures r.brokenChain <==> !exists chain :: IsChain(dir.commits, dir.caseId, chain)
    ensures Linked(prefix) && Elements(prefix) <= Records(dir.commits, dir.caseId)
        && r.validCommits == CommitIds(prefix)
    ensures Elements(r.malformed) == Malformed(dir.commits, dir.caseId)
    ensures Elements(r.brokenTail) == Malformed(dir.commits, dir.caseId) + LeftOut(dir.commits, dir.caseId, prefix)
    ensures Elements(r.validSnapshots) == LoadedIds(dir.Files(), dir.caseId, prefix, true)
    ensures Elements(r.mismatched) == LoadedIds(dir.Files(), dir.caseId, prefix, false)
    ensures Elements(r.brokenTailSnapshots)
            == TailSnapshots(dir.commits, dir.caseId, LeftOut(dir.commits, dir.caseId, prefix))
    ensures var uncommitted :=
        dir.snapshots.Keys - (set c | c in Records(dir.commits, dir.caseId) :: c.body.snapshotId);
      && Elements(r.publishedUncommitted) == uncommitted - WithoutManifest(dir.snapshots)
      && Elements(r.missingManifests) == uncommitted * WithoutManifest(dir.snapshots)
    ensures Elements(r.unreferencedBlobs) == dir.blobs.Keys - MentionedBlobs(dir.Files(), prefix, |prefix|)
  {
    hide LoadSnapshot, Malformed, IsChain, LeftOut, DistinctSequences, ListedBlobs;
    var chain, broken, failed := LoadCommitChainPrefix(dir.commits, dir.caseId);
    prefix := chain;
    var valid, mismatched := SplitByLoading(dir, chain);
    var names := ReadDir(dir.commits.Keys);
    var parsed, malformed := ReadRecords(dir.commits, dir.caseId, names);
    var named := SnapshotIds(parsed);
    assert named == set c | c in Records(dir.commits, dir.caseId) :: c.body.snapshotId by {
      assert forall c :: c in parsed <==> c in Elements(parsed);
    }
    var tail := SnapshotsOfTail(dir, broken, chain);
    var published, missing := SplitByManifest(dir, dir.snapshots.Keys - named);
    var mentioned := CollectMentioned(dir, chain);
    var blobs := Leftovers(dir.blobs.Keys, mentioned);
    r := Inspection(failed, broken, malformed, CommitIds(chain), valid, mismatched, tail, published, missing, blobs);
  }

  lemma LoadedNext(d: Disk, caseId: Id, chain: seq<CommitRecord>, c: CommitRecord, loads: bool)
    ensures LoadedIds(d, caseId, chain + [c], loads)
            == LoadedIds(d, caseId, chain, loads)
               + (if LoadAt(d, caseId, c).Some? == loads then {c.body.snapshotId} else {})
  {
    hide LoadSnapshot;
    forall e ensures e in chain + [c] <==> e in chain || e == c {
    }
  }

  method SplitByLoading(dir: CaseDirectory, chain: seq<CommitRecord>)
    returns (valid: seq<SnapshotId>, mismatched: seq<SnapshotId>)
    ensures Elements(valid) == LoadedIds(dir.Files(), dir.caseId, chain, true)
    ensures Elements(mismatched) == LoadedIds(dir.Files(), dir.caseId, chain, false)
  {
    hide LoadSnapshot;
    valid, mismatched := [], [];
    for i := 0 to |chain|
      invariant Elements(valid) == LoadedIds(dir.Files(), dir.caseId, chain[..i], true)
      invariant Elements(mismatched) == LoadedIds(dir.Files(), dir.caseId, chain[..i], false)
    {
      assert chain[..i + 1] == chain[..i] + [chain[i]];
      LoadedNext(dir.Files(), dir.caseId, chain[..i], chain[i], true);
      LoadedNext(dir.Files(), dir.caseId, chain[..i], chain[i], false);
      var loaded := dir.LoadCommit(chain[i]);
      if loaded.Some? {
        ElementsOfSum(valid, [chain[i].body.snapshotId]);
        valid := valid + [chain[i].body.snapshotId];
      } else {
        ElementsOfSum(mismatched, [chain[i].body.snapshotId]);
        mismatched := mismatched + [chain[i].body.snapshotId];
      }
    }
    assert chain[..|chain|] == chain;
  }

  /** A broken file that still parses is a record behind the break; its snapshot is reported. */
  method SnapshotsOfTail(dir: CaseDirectory, broken: seq<FileName>, ghost chain: seq<CommitRecord>)
    returns (tail: seq<SnapshotId>)
    requires Elements(chain) <= Records(dir.commits, dir.caseId)
    requires Elements(broken) == Malformed(dir.commits, dir.caseId) + LeftOut(dir.commits, dir.caseId, chain)
    ensures Elements(tail) == TailSnapshots(dir.commits, dir.caseId, LeftOut(dir.commits, dir.caseId, chain))
  {
    tail := [];
    for i := 0 to |broken|
      invariant Elements(tail) == TailSnapshots(dir.commits, dir.caseId, Elements(broken[..i]))
    {
      var name := broken[i];
      assert name in Elements(broken);
      assert broken[..i + 1] == broken[..i] + [name];
      TailNext(dir.commits, dir.caseId, Elements(broken[..i]), name);
      assert Elements(broken[..i + 1]) == Elements(broken[..i]) + {name};
      match RecordIn(dir.caseId, name, dir.commits[name]) {
        case None =>
        case Some(c) =>
          ElementsOfSum(tail, [c.body.snapshotId]);
          tail := tail + [c.body.snapshotId];
      }
    }
    assert broken[..|broken|] == broken;
    forall c | c in Records(dir.commits, dir.caseId) ensures NameOf(c) !in Malformed(dir.commits, dir.caseId) {
    }
  }

  lemma TailNext(commits: Commits, caseId: Id, names: set<FileName>, name: FileName)
    requires name in commits && IsFinal(name)
    ensures TailSnapshots(commits, caseId, names + {name}) == TailSnapshots(commits, caseId, names)
            + (if RecordIn(caseId, name, commits[name]).Some?
               then {RecordIn(caseId, name, commits[name]).value.body.snapshotId} else {})
  {
    if RecordIn(caseId, name, commits[name]).Some? {
      var c := RecordIn(caseId, name, commits[name]).value;
      assert c in Records(commits, caseId) && NameOf(c) == name;
    }
  }

  method SplitByManifest(dir: CaseDirectory, ids: set<SnapshotId>)
    returns (published: seq<SnapshotId>, missing: seq<SnapshotId>)
    requires ids <= dir.snapshots.Keys
    ensures Elements(published) == ids - WithoutManifest(dir.snapshots)
    ensures Elements(missing) == ids * WithoutManifest(dir.snapshots)
  {
    var names := ReadDir(ids);
    published, missing := [], [];
    for i := 0 to |names|
      invariant Elements(published) == Elements(names[..i]) - WithoutManifest(dir.snapshots)
      invariant Elements(missing) == Elements(names[..i]) * WithoutManifest(dir.snapshots)
    {
      assert names[i] in Elements(names);
      assert names[..i + 1] == names[..i] + [names[i]];
      assert Elements(names[..i + 1]) == Elements(names[..i]) + {names[i]};
      if dir.snapshots[names[i]].manifest.None? {
        ElementsOfSum(missing, [names[i]]);
        missing := missing + [names[i]];
      } else {
        ElementsOfSum(published, [names[i]]);
        published := published + [names[i]];
      }
    }
    assert names[..|names|] == names;
  }

  method CollectMentioned(dir: CaseDirectory, chain: seq<CommitRecord>) returns (mentioned: set<Digest<Blob>>)
    ensures mentioned == MentionedBlobs(dir.Files(), chain, |chain|)
  {
    hide ListedBlobs;
    mentioned := {};
    for i := 0 to |chain|
      invariant mentioned == MentionedBlobs(dir.Files(), chain, i)
    {
      mentioned := mentioned + ListedBlobs(dir.Files(), chain[i].body.snapshotId);
    }
  }

  /** Whoever deletes what the inspection calls uncommitted leaves the history as it was. */
  lemma UncommittedIsDispensable(before: Disk, after: Disk, caseId: Id, removed: set<SnapshotId>)
    requires removed !! (set c | c in Records(before.commits, caseId) :: c.body.snapshotId)
    requires after == before.(snapshots := before.snapshots - removed)
    ensures HistoryOf(after, caseId) == HistoryOf(before, caseId)
  {
    hide LoadManifest, IsChain, DecodeAll;
    if HistoryOf(before, caseId).Some? {
      var log := HistoryOf(before, caseId).value;
      CommittedUntouched(before, after, caseId, log, removed);
      HistoryIs(after, caseId, log);
    } else if HistoryOf(after, caseId).Some? {
      var log := HistoryOf(after, caseId).value;
      CommittedUntouched(after, before, caseId, log, removed);
      assert false;
    }
  }

  lemma CommittedUntouched(d: Disk, e: Disk, caseId: Id, log: Log, removed: set<SnapshotId>)
    requires HasHistory(d, caseId, log) && e.commits == d.commits && e.blobs == d.blobs
    requires forall id | id !in removed :: (id in d.snapshots <==> id in e.snapshots)
                                           && (id in d.snapshots ==> e.snapshots[id] == d.snapshots[id])
    requires removed !! (set c | c in Records(d.commits, caseId) :: c.body.snapshotId)
    ensures HasHistory(e, caseId, log)
  {
    hide LoadManifest, DecodeAll;
    forall i | 0 <= i < |log| ensures LoadsAt(e, caseId, log[i]) {
      assert LoadsAt(d, caseId, log[i]);
      assert RecordsOf(log)[i] in Records(d.commits, caseId);
      assert log[i].record.body.snapshotId !in removed;
    }
  }
}
