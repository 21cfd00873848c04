/** The loader and the collectors, loop by loop, each proved to compute what the specification functions say. */
module Reader {
  import opened Domain
  import opened Validation
  import opened Collections
  import opened Ordering
  import opened Codec
  import opened Manifests
  import opened Loading
  import opened Chain
  import opened Validator

  // ---------------------------------------------------------------- collecting artifact references

  lemma {:induction false} MergeOneMore<T>(existing: seq<T>, incoming: seq<T>, x: T, key: T -> Id)
    ensures MergeById(existing, incoming + [x], key) ==
      match MergeById(existing, incoming, key)
      case None => None
      case Some(merged) =>
        match LastWith(merged, key, key(x))
        case Some(known) => if known == x then Some(merged) else None
        case None => Some(merged + [x])
    decreases |incoming|
  {
    if incoming == [] {
      assert incoming + [x] == [x] && [x][1..] == [];
    } else {
      assert (incoming + [x])[1..] == incoming[1..] + [x];
      match LastWith(existing, key, key(incoming[0])) {
        case Some(known) => if known == incoming[0] { MergeOneMore(existing, incoming[1..], x, key); }
        case None => MergeOneMore(existing + [incoming[0]], incoming[1..], x, key);
      }
    }
  }

  lemma {:induction false} MergeFails<T>(existing: seq<T>, a: seq<T>, b: seq<T>, key: T -> Id)
    requires MergeById(existing, a, key).None?
    ensures MergeById(existing, a + b, key).None?
    decreases |a|
  {
    assert (a + b)[1..] == a[1..] + b;
    match LastWith(existing, key, key(a[0])) {
      case Some(known) => if known == a[0] { MergeFails(existing, a[1..], b, key); }
      case None => MergeFails(existing + [a[0]], a[1..], b, key);
    }
  }

  lemma {:induction false} ArtifactsOfPart(evidence: seq<Evidence>, i: nat)
    requires i <= |evidence|
    ensures ArtifactList(evidence[..i]) <= ArtifactList(evidence)
    decreases |evidence|
  {
    if i < |evidence| {
      assert evidence[..|evidence| - 1][..i] == evidence[..i];
      ArtifactsOfPart(evidence[..|evidence| - 1], i);
    } else {
      assert evidence[..i] == evidence;
    }
  }

  /** The table holds, under its id, each reference merged so far, and `order` lists the ids. */
  predicate Tabulates(byId: map<Id, ArtifactRef>, order: seq<Id>, merged: seq<ArtifactRef>) {
    && |order| == |merged|
    && (forall i | 0 <= i < |merged| ::
          order[i] == merged[i].artifactId && order[i] in byId && byId[order[i]] == merged[i])
    && (forall id | id in byId :: id in order)
    && DistinctOn(merged, ArtifactId)
  }

  lemma TableLookup(byId: map<Id, ArtifactRef>, order: seq<Id>, merged: seq<ArtifactRef>, id: Id)
    requires Tabulates(byId, order, merged)
    ensures LastWith(merged, ArtifactId, id) == if id in byId then Some(byId[id]) else None
  {
    if id in byId {
      var k :| 0 <= k < |order| && order[k] == id;
      assert ArtifactId(merged[k]) == id && merged[k] in merged;
      var j := AtIndex(merged, LastWith(merged, ArtifactId, id).value);
      assert ArtifactId(merged[j]) == id;
      assert j == k;
    } else {
      forall x | x in merged ensures ArtifactId(x) != id {
        var j := AtIndex(merged, x);
        assert order[j] in byId;
      }
    }
  }

  lemma TableGrows(byId: map<Id, ArtifactRef>, order: seq<Id>, merged: seq<ArtifactRef>, a: ArtifactRef)
    requires Tabulates(byId, order, merged) && a.artifactId !in byId
    ensures Tabulates(byId[a.artifactId := a], order + [a.artifactId], merged + [a])
  {
    forall i | 0 <= i < |merged| ensures ArtifactId(merged[i]) != ArtifactId(a) {
      assert order[i] in byId;
    }
  }

  /** The ids in order, each replaced by its reference, are the references in order. */
  lemma SortedTable(byId: map<Id, ArtifactRef>, order: seq<Id>, merged: seq<ArtifactRef>, out: seq<ArtifactRef>)
    requires Tabulates(byId, order, merged)
    requires var sorted := SortOn(order, IdKey);
      |out| == |sorted| && forall i | 0 <= i < |sorted| :: sorted[i] in byId && out[i] == byId[sorted[i]]
    ensures out == SortOn(merged, ByArtifact)
  {
    var sorted := SortOn(order, IdKey);
    forall i, j | 0 <= i < j < |order| ensures IdKey(order[i]) != IdKey(order[j]) {
      assert ArtifactId(merged[i]) != ArtifactId(merged[j]);
    }
    SortKeepsUnique(order, IdKey);
    forall i | 0 <= i < |out| ensures ByArtifact(out[i]) == IdKey(sorted[i]) && out[i] in merged {
      assert sorted[i] in Elements(sorted) && sorted[i] in Elements(order);
      var k :| 0 <= k < |order| && order[k] == sorted[i];
      assert out[i] == merged[k];
    }
    assert UniqueOn(merged, ByArtifact) by {
      forall i, j | 0 <= i < j < |merged| ensures ByArtifact(merged[i]) != ByArtifact(merged[j]) {
        assert ArtifactId(merged[i]) != ArtifactId(merged[j]);
      }
    }
    SortKeepsUnique(merged, ByArtifact);
    assert SortedOn(out, ByArtifact) by {
      forall i, j | 0 <= i < j < |out| ensures !Before(ByArtifact(out[j]), ByArtifact(out[i])) {
        assert !Before(IdKey(sorted[j]), IdKey(sorted[i]));
      }
    }
    assert UniqueOn(out, ByArtifact) by {
      forall i, j | 0 <= i < j < |out| ensures ByArtifact(out[i]) != ByArtifact(out[j]) {
        assert IdKey(sorted[i]) != IdKey(sorted[j]);
      }
    }
    forall a | a in merged ensures a in out {
      var k := AtIndex(merged, a);
      assert order[k] in Elements(order) && order[k] in Elements(sorted);
      var i :| 0 <= i < |sorted| && sorted[i] == order[k];
      assert out[i] == a;
    }
    SortedSetIsUnique(out, SortOn(merged, ByArtifact), ByArtifact);
  }

  /** Enter the references of one bundle; fails on one that diverges from the first of its id. */
  method AddArtifacts(byId: map<Id, ArtifactRef>, order: seq<Id>, ghost merged: seq<ArtifactRef>,
                      ghost before: seq<ArtifactRef>, artifacts: seq<ArtifactRef>)
    returns (table: map<Id, ArtifactRef>, ids: seq<Id>, ghost more: seq<ArtifactRef>, ok: bool)
    requires MergeById([], before, ArtifactId) == Some(merged) && Tabulates(byId, order, merged)
    ensures MergeById([], before + Lowered(artifacts), ArtifactId) == if ok then Some(more) else None
    ensures ok ==> Tabulates(table, ids, more)
  {
    hide Lower, Tabulates;
    table, ids, more, ok := byId, order, merged, true;
    ghost var all := Lowered(artifacts);
    assert before + all[..0] == before;
    for j := 0 to |artifacts|
      invariant MergeById([], before + all[..j], ArtifactId) == Some(more)
      invariant Tabulates(table, ids, more)
    {
      var a := Lower(artifacts[j]);
      assert before + all[..j + 1] == (before + all[..j]) + [a];
      MergeOneMore([], before + all[..j], a, ArtifactId);
      TableLookup(table, ids, more, a.artifactId);
      if a.artifactId in table {
        if table[a.artifactId] != a {
          assert before + all == (before + all[..j + 1]) + all[j + 1..];
          MergeFails([], before + all[..j + 1], all[j + 1..], ArtifactId);
          ok := false;
          return;
        }
      } else {
        TableGrows(table, ids, more, a);
        table, ids, more := table[a.artifactId := a], ids + [a.artifactId], more + [a];
      }
    }
    assert all[..|artifacts|] == all;
  }

  /** `collectArtifactRefs`: a table of the references by id and the order in which the ids appeared. */
  method CollectArtifactRefs(s: Snapshot) returns (refs: Option<seq<ArtifactRef>>)
    ensures refs == CollectArtifacts(s)
  {
    hide Lowered, Tabulates;
    var byId: map<Id, ArtifactRef> := map[];
    var order: seq<Id> := [];
    ghost var merged: seq<ArtifactRef> := [];
    EmptyTable();
    for i := 0 to |s.evidence|
      invariant MergeById([], ArtifactList(s.evidence[..i]), ArtifactId) == Some(merged)
      invariant Tabulates(byId, order, merged)
    {
      assert s.evidence[..i + 1][..i] == s.evidence[..i];
      var ok;
      byId, order, merged, ok :=
        AddArtifacts(byId, order, merged, ArtifactList(s.evidence[..i]), s.evidence[i].artifacts);
      if !ok {
        ArtifactsOfPart(s.evidence, i + 1);
        Divergence(s, ArtifactList(s.evidence[..i + 1]));
        return None;
      }
    }
    assert s.evidence[..|s.evidence|] == s.evidence;
    var out := Listed(byId, order, merged);
    refs := Some(out);
  }

  /** The ids sorted, then looked up. */
  method Listed(byId: map<Id, ArtifactRef>, order: seq<Id>, ghost merged: seq<ArtifactRef>)
    returns (out: seq<ArtifactRef>)
    requires Tabulates(byId, order, merged)
    ensures out == SortOn(merged, ByArtifact)
  {
    var sorted := SortOn(order, IdKey);
    SortOnSorts(order, IdKey);
    SameElements(sorted, order);
    out := [];
    for i := 0 to |sorted|
      invariant |out| == i && forall k | 0 <= k < i :: sorted[k] in byId && out[k] == byId[sorted[k]]
    {
      assert sorted[i] in Elements(sorted) && sorted[i] in Elements(order);
      out := out + [byId[sorted[i]]];
    }
    SortedTable(byId, order, merged, out);
  }

  lemma EmptyTable()
    ensures Tabulates(map[], [], [])
  {
  }

  lemma Divergence(s: Snapshot, part: seq<ArtifactRef>)
    requires MergeById([], part, ArtifactId).None? && part <= ArtifactList(s.evidence)
    ensures CollectArtifacts(s).None?
  {
    var all := ArtifactList(s.evidence);
    assert all == part + all[|part|..];
    MergeFails([], part, all[|part|..], ArtifactId);
  }

  // ---------------------------------------------------------------- the manifest

  /** The loops of `validateSnapshotManifest`: paths and artifact ids occur once, and one path is the case manifest. */
  method CheckEntries(m: Manifest) returns (ok: bool)
    ensures ok <==>
      && (forall e | e in m.documents :: CanonicalPath(e.path))
      && UniqueOn(m.documents, ByPath)
      && CASE_PATH in Paths(m.documents)
      && UniqueOn(m.artifacts, ByArtifactId)
      && (forall a | a in m.artifacts :: a.sizeBytes >= 0)
  {
    var seen: set<Path> := {};
    var cases := 0;
    for i := 0 to |m.documents|
      invariant forall k | 0 <= k < i :: CanonicalPath(m.documents[k].path) && m.documents[k].path in seen
      invariant forall p | p in seen :: exists k :: 0 <= k < i && m.documents[k].path == p
      invariant forall k, l | 0 <= k < l < i :: m.documents[k].path != m.documents[l].path
      invariant cases == if CASE_PATH in seen then 1 else 0
    {
      var path := m.documents[i].path;
      if !CanonicalPath(path) {
        assert m.documents[i] in m.documents;
        return false;
      }
      if path == CASE_PATH { cases := cases + 1; }
      if path in seen {
        ghost var k :| 0 <= k < i && m.documents[k].path == path;
        assert ByPath(m.documents[k]) == ByPath(m.documents[i]);
        return false;
      }
      seen := seen + {path};
    }
    PathsApart(m.documents);
    assert CASE_PATH in seen <==> CASE_PATH in Paths(m.documents);
    if cases != 1 { return false; }
    var ids: set<Id> := {};
    for i := 0 to |m.artifacts|
      invariant forall k | 0 <= k < i :: m.artifacts[k].sizeBytes >= 0 && m.artifacts[k].artifactId in ids
      invariant forall id | id in ids :: exists k :: 0 <= k < i && m.artifacts[k].artifactId == id
      invariant forall k, l | 0 <= k < l < i :: ByArtifactId(m.artifacts[k]) != ByArtifactId(m.artifacts[l])
    {
      var a := m.artifacts[i];
      if a.artifactId in ids {
        ghost var k :| 0 <= k < i && m.artifacts[k].artifactId == a.artifactId;
        assert ByArtifactId(m.artifacts[k]) == ByArtifactId(m.artifacts[i]);
        return false;
      }
      if a.sizeBytes < 0 {
        assert a in m.artifacts;
        return false;
      }
      ids := ids + {a.artifactId};
    }
    ok := true;
  }

  /** Canonical paths have the same key only if they are equal. */
  lemma PathsApart(entries: seq<DocumentEntry>)
    requires forall k, l | 0 <= k < l < |entries| :: entries[k].path != entries[l].path
    ensures UniqueOn(entries, ByPath)
  {
    forall k, l | 0 <= k < l < |entries| ensures ByPath(entries[k]) != ByPath(entries[l]) {
      KeysTellPaths(entries[k].path, entries[l].path);
    }
  }

  lemma KeysTellPaths(p: Path, q: Path)
    ensures PathKey(p) == PathKey(q) <==> p == q
  {
  }

  method CheckManifest(m: Manifest, caseId: Id) returns (ok: bool)
    ensures ok <==> ManifestValid(m, caseId)
  {
    hide UniqueOn, SortOn;
    if !m.wellFormed || m.caseId != caseId { return false; }
    ok := CheckEntries(m);
    if !ok { return; }
    var body := BodyOf(m.caseId, m.createdAt, m.documents, m.artifacts);
    ok := m.contentSha == Digest(body) && m.snapshotId == SnapshotDigest(body);
  }

  // ---------------------------------------------------------------- the document files

  /** Walk the files, looking each up among the listed ones, then look for listed files that were not found. */
  method CheckFiles(entries: seq<DocumentEntry>, files: map<Path, DocumentBytes>) returns (ok: bool)
    requires forall k, l | 0 <= k < l < |entries| :: entries[k].path != entries[l].path
    ensures ok <==> FilesMatch(entries, files)
  {
    var expected: map<Path, DocumentEntry> := map[];
    for i := 0 to |entries|
      invariant forall k | 0 <= k < i :: entries[k].path in expected && expected[entries[k].path] == entries[k]
      invariant forall p | p in expected :: exists k :: 0 <= k < i && entries[k].path == p && expected[p] == entries[k]
    {
      expected := expected[entries[i].path := entries[i]];
    }
    var walk := ReadDir(files.Keys);
    var found: set<Path> := {};
    for i := 0 to |walk|
      invariant found == Elements(walk[..i])
      invariant forall p | p in found :: p in files && p in expected && Digest(files[p]) == expected[p].sha
    {
      var path := walk[i];
      assert path in Elements(walk);
      assert walk[..i + 1] == walk[..i] + [path];
      if path !in expected {
        assert path !in Paths(entries);
        return false;
      }
      if Digest(files[path]) != expected[path].sha {
        assert expected[path] in entries;
        return false;
      }
      found := found + {path};
    }
    assert walk[..|walk|] == walk;
    for i := 0 to |entries|
      invariant forall k | 0 <= k < i :: entries[k].path in found
    {
      if entries[i].path !in found {
        assert entries[i].path in Paths(entries);
        return false;
      }
    }
    ok := true;
  }

  lemma CollectMore<T>(docs: seq<Document>, d: Document, pick: Document -> Option<T>)
    ensures Collect(docs + [d], pick) == Collect(docs, pick) + (if pick(d).Some? then [pick(d).value] else [])
  {
    assert (docs + [d])[..|docs|] == docs;
  }

  /** One decoded document goes to the collection of its kind; the case manifest was read before. */
  method AddDocument(s: Snapshot, ghost docs: seq<Document>, d: Document) returns (t: Snapshot)
    requires s == Collected(s.manifest, s.workflow, docs)
    ensures t == Collected(s.manifest, if d.WorkflowDocument? then Some(d.workflow) else s.workflow, docs + [d])
  {
    hide Collect;
    CollectMore(docs, d, AsTarget);
    CollectMore(docs, d, AsEvidence);
    CollectMore(docs, d, AsFinding);
    CollectMore(docs, d, AsPlan);
    CollectMore(docs, d, AsExecution);
    CollectMore(docs, d, AsVerification);
    CollectMore(docs, d, AsEvent);
    CollectMore(docs, d, AsAcquisition);
    CollectMore(docs, d, AsConsultation);
    match d {
      case CaseDocument(_) => t := s;
      case WorkflowDocument(w) => t := s.(workflow := Some(w));
      case TargetDocument(x) => t := s.(targets := s.targets + [x]);
      case EvidenceDocument(x) => t := s.(evidence := s.evidence + [x]);
      case FindingDocument(x) => t := s.(findings := s.findings + [x]);
      case PlanDocument(x) => t := s.(plans := s.plans + [x]);
      case ExecutionDocument(x) => t := s.(executions := s.executions + [x]);
      case VerificationDocument(x) => t := s.(verifications := s.verifications + [x]);
      case EventDocument(x) => t := s.(events := s.events + [x]);
      case AcquisitionDocument(x) => t := s.(acquisitions := s.acquisitions + [x]);
      case ConsultationDocument(x) => t := s.(consultations := s.consultations + [x]);
    }
  }

  lemma {:induction false} DecodeFails(entries: seq<DocumentEntry>, files: map<Path, DocumentBytes>, i: nat)
    requires i <= |entries| && DecodeAll(entries[..i], files).None?
    ensures DecodeAll(entries, files).None?
    decreases |entries|
  {
    if i == |entries| {
      assert entries[..i] == entries;
    } else {
      var n := |entries| - 1;
      assert entries[..n][..i] == entries[..i];
      DecodeFails(entries[..n], files, i);
    }
  }

  lemma DecodeNext(entries: seq<DocumentEntry>, files: map<Path, DocumentBytes>, i: nat, docs: seq<Document>)
    requires i < |entries| && DecodeAll(entries[..i], files) == Some(docs)
    ensures var path := entries[i].path;
      DecodeAll(entries[..i + 1], files) ==
        if path in files && Decode(files[path]).Some? && PathOf(Decode(files[path]).value) == path then
          Some(docs + [Decode(files[path]).value])
        else None
  {
    assert entries[..i + 1][..i] == entries[..i];
  }

  function LastWorkflow(docs: seq<Document>): Option<Workflow> {
    var workflows := Collect(docs, AsWorkflow);
    if workflows == [] then None else Some(workflows[|workflows| - 1])
  }

  /** Exactly the case documents among these are `c`. */
  predicate CaseIs(docs: seq<Document>, c: CaseManifest) {
    forall d | d in docs :: d.CaseDocument? ==> d.manifest == c
  }

  lemma {:induction false} CasesCollected(docs: seq<Document>, c: CaseManifest)
    requires CaseIs(docs, c)
    ensures forall x | x in Collect(docs, AsCase) :: x == c
    ensures Collect(docs, AsCase) == [] <==> forall d | d in docs :: !d.CaseDocument?
  {
    if docs != [] {
      var n := |docs| - 1;
      CasesCollected(docs[..n], c);
      assert docs == docs[..n] + [docs[n]];
    }
  }

  /** Read the case manifest, then every listed file into the collection of its directory, then sort. */
  method ReadDocuments(entries: seq<DocumentEntry>, files: map<Path, DocumentBytes>) returns (r: Option<Snapshot>)
    requires CASE_PATH in Paths(entries)
    ensures r == match DecodeAll(entries, files) case None => None case Some(docs) => Assemble(docs)
  {
    hide Canonical, Collect, Collected;
    ghost var at: nat :| at < |entries| && entries[at].path == CASE_PATH;
    if CASE_PATH !in files || Decode(files[CASE_PATH]).None? || !Decode(files[CASE_PATH]).value.CaseDocument? {
      if DecodeAll(entries[..at], files).Some? {
        DecodeNext(entries, files, at, DecodeAll(entries[..at], files).value);
      }
      DecodeFails(entries, files, if DecodeAll(entries[..at], files).Some? then at + 1 else at);
      return None;
    }
    var manifest := Decode(files[CASE_PATH]).value.manifest;
    var s := Snapshot(manifest, [], [], [], [], [], [], None, [], [], []);
    ghost var docs: seq<Document> := [];
    NothingCollected(s);
    for i := 0 to |entries|
      invariant DecodeAll(entries[..i], files) == Some(docs)
      invariant s.workflow == LastWorkflow(docs) && s == Collected(manifest, s.workflow, docs)
      invariant |docs| == i && CaseIs(docs, manifest) && (i > at ==> docs[at] == CaseDocument(manifest))
    {
      var path := entries[i].path;
      DecodeNext(entries, files, i, docs);
      if path == CASE_PATH {
        CaseIsNoCollection(s, docs, manifest);
        docs := docs + [CaseDocument(manifest)];
        assert docs[i] == CaseDocument(manifest);
      } else {
        if path !in files || Decode(files[path]).None? || PathOf(Decode(files[path]).value) != path {
          DecodeFails(entries, files, i + 1);
          return None;
        }
        var d := Decode(files[path]).value;
        WorkflowNext(docs, d);
        CollectedManifest(manifest, s.workflow, docs);
        CollectedManifest(manifest, if d.WorkflowDocument? then Some(d.workflow) else s.workflow, docs + [d]);
        s := AddDocument(s, docs, d);
        docs := docs + [d];
        assert !d.CaseDocument?;
      }
    }
    assert entries[..|entries|] == entries;
    CasesCollected(docs, manifest);
    assert Collect(docs, AsCase)[0] in Collect(docs, AsCase);
    r := Some(Canonical(s));
  }

  lemma NothingCollected(s: Snapshot)
    requires s == Snapshot(s.manifest, [], [], [], [], [], [], None, [], [], [])
    ensures s == Collected(s.manifest, None, []) && LastWorkflow([]) == None
  {
  }

  lemma CollectedManifest(m: CaseManifest, w: Option<Workflow>, docs: seq<Document>)
    ensures Collected(m, w, docs).manifest == m && Collected(m, w, docs).workflow == w
  {
  }

  lemma WorkflowNext(docs: seq<Document>, d: Document)
    ensures LastWorkflow(docs + [d]) == if d.WorkflowDocument? then Some(d.workflow) else LastWorkflow(docs)
  {
    CollectMore(docs, d, AsWorkflow);
  }

  lemma CaseIsNoCollection(s: Snapshot, docs: seq<Document>, m: CaseManifest)
    requires s == Collected(m, s.workflow, docs) && s.workflow == LastWorkflow(docs)
    ensures s == Collected(m, s.workflow, docs + [CaseDocument(m)])
            && s.workflow == LastWorkflow(docs + [CaseDocument(m)])
  {
    hide Collect;
    var d := CaseDocument(m);
    WorkflowNext(docs, d);
    CollectMore(docs, d, AsTarget);
    CollectMore(docs, d, AsEvidence);
    CollectMore(docs, d, AsFinding);
    CollectMore(docs, d, AsPlan);
    CollectMore(docs, d, AsExecution);
    CollectMore(docs, d, AsVerification);
    CollectMore(docs, d, AsEvent);
    CollectMore(docs, d, AsAcquisition);
    CollectMore(docs, d, AsConsultation);
  }

  // ---------------------------------------------------------------- comparing with the manifest

  method CompareManifestArtifacts(artifacts: seq<ArtifactEntry>, s: Snapshot) returns (ok: bool)
    requires UniqueOn(artifacts, ByArtifactId)
    ensures ok <==> ArtifactsMatch(artifacts, s)
  {
    hide CollectArtifacts, UniqueOn;
    var refs := CollectArtifactRefs(s);
    if refs.None? || |refs.value| != |artifacts| { return false; }
    ArtifactsCollected(s);
    NothingToSort();
    EntriesSorted([], refs.value);
    ok := CrossOff(artifacts, ArtifactEntries(refs.value));
  }

  lemma NothingToSort()
    ensures SortedOn([], DocumentKey) && UniqueOn([], DocumentKey)
  {
  }

  /** Cross each artifact off a table of those expected. That nothing is left at the end follows from the counts. */
  method CrossOff(artifacts: seq<ArtifactEntry>, own: seq<ArtifactEntry>) returns (ok: bool)
    requires UniqueOn(artifacts, ByArtifactId) && UniqueOn(own, ByArtifactId) && |artifacts| == |own|
    ensures ok <==> forall a | a in artifacts :: a in own
  {
    hide UniqueOn, ByArtifactId;
    var byId := Table(own);
    for i := 0 to |artifacts|
      invariant forall k | 0 <= k < i :: artifacts[k] in own
      invariant forall id | id in byId :: byId[id].artifactId == id && byId[id] in own
      invariant forall e | e in own && e !in artifacts[..i] :: e.artifactId in byId && byId[e.artifactId] == e
      invariant forall k | 0 <= k < i :: artifacts[k].artifactId !in byId
    {
      var a := artifacts[i];
      assert artifacts[..i + 1] == artifacts[..i] + [a];
      NotSeenBefore(artifacts, i);
      if a.artifactId !in byId || byId[a.artifactId] != a {
        assert a !in own && a in artifacts;
        return false;
      }
      byId := byId - {a.artifactId};
      SameIdSameEntry(own, a);
    }
    assert artifacts[..|artifacts|] == artifacts;
    NothingLeft(artifacts, own, byId);
    ok := byId == map[];
  }

  lemma NotSeenBefore(artifacts: seq<ArtifactEntry>, i: nat)
    requires UniqueOn(artifacts, ByArtifactId) && i < |artifacts|
    ensures forall k | 0 <= k < i :: artifacts[k].artifactId != artifacts[i].artifactId
  {
    forall k | 0 <= k < i ensures artifacts[k].artifactId != artifacts[i].artifactId {
      assert ByArtifactId(artifacts[k]) != ByArtifactId(artifacts[i]);
    }
  }

  lemma SameIdSameEntry(own: seq<ArtifactEntry>, a: ArtifactEntry)
    requires UniqueOn(own, ByArtifactId) && a in own
    ensures forall e | e in own && e.artifactId == a.artifactId :: e == a
  {
    var k := AtIndex(own, a);
    forall e | e in own && e.artifactId == a.artifactId ensures e == a {
      var l := AtIndex(own, e);
      assert ByArtifactId(own[k]) == ByArtifactId(own[l]);
    }
  }

  method Table(own: seq<ArtifactEntry>) returns (byId: map<Id, ArtifactEntry>)
    requires UniqueOn(own, ByArtifactId)
    ensures forall e | e in own :: e.artifactId in byId && byId[e.artifactId] == e
    ensures forall id | id in byId :: byId[id].artifactId == id && byId[id] in own
  {
    byId := map[];
    for i := 0 to |own|
      invariant forall k | 0 <= k < i :: own[k].artifactId in byId && byId[own[k].artifactId] == own[k]
      invariant forall id | id in byId :: byId[id].artifactId == id && byId[id] in own
    {
      assert forall k | 0 <= k < i :: ByArtifactId(own[k]) != ByArtifactId(own[i]);
      byId := byId[own[i].artifactId := own[i]];
    }
  }

  lemma NoneLeft(artifacts: seq<ArtifactEntry>, own: seq<ArtifactEntry>, e: ArtifactEntry)
    requires UniqueOn(artifacts, ByArtifactId) && UniqueOn(own, ByArtifactId) && |artifacts| == |own|
    requires e in own && forall a | a in artifacts :: a in own
    ensures e in artifacts
  {
    UniqueHasNoRepeats(artifacts, ByArtifactId);
    UniqueHasNoRepeats(own, ByArtifactId);
    SameSizeSubset(artifacts, own);
    assert e in Elements(own);
  }

  lemma NothingLeft(artifacts: seq<ArtifactEntry>, own: seq<ArtifactEntry>, byId: map<Id, ArtifactEntry>)
    requires UniqueOn(artifacts, ByArtifactId) && UniqueOn(own, ByArtifactId) && |artifacts| == |own|
    requires forall a | a in artifacts :: a in own
    requires forall id | id in byId :: byId[id].artifactId == id && byId[id] in own
    requires forall k | 0 <= k < |artifacts| :: artifacts[k].artifactId !in byId
    ensures byId == map[]
  {
    hide UniqueOn;
    forall id ensures id !in byId {
      if id in byId {
        NoneLeft(artifacts, own, byId[id]);
      }
    }
  }

  /** Entry by entry, counting the case manifests on the way: a valid snapshot always has exactly one. */
  method CompareCanonicalDocuments(entries: seq<DocumentEntry>, s: Snapshot) returns (ok: bool)
    requires Keyed(s)
    ensures ok <==> DocumentEntries(PrepareDocuments(s)) == entries
  {
    hide PrepareDocuments, Keyed, UniqueOn;
    var docs := PrepareDocuments(s);
    PreparedExactly(s);
    OneCase(s);
    ghost var at := AtIndex(docs, CaseDocument(s.manifest));
    if |docs| != |entries| { return false; }
    var cases := 0;
    for i := 0 to |docs|
      invariant forall k | 0 <= k < i :: entries[k] == DocumentEntryOf(docs[k])
      invariant cases == if i > at then 1 else 0
    {
      if DocumentEntryOf(docs[i]) != entries[i] { return false; }
      if PathOf(docs[i]) == CASE_PATH { cases := cases + 1; }
    }
    ok := cases == 1;
  }

  lemma OneCase(s: Snapshot)
    requires Keyed(s)
    ensures CaseDocument(s.manifest) in PrepareDocuments(s)
    ensures forall i, j | 0 <= i < |PrepareDocuments(s)| && 0 <= j < |PrepareDocuments(s)|
      && PathOf(PrepareDocuments(s)[i]) == CASE_PATH == PathOf(PrepareDocuments(s)[j]) :: i == j
  {
    hide PrepareDocuments, Keyed;
    PreparedExactly(s);
    assert HasDocument(ViewOf(s), CaseDocument(s.manifest));
    var docs := PrepareDocuments(s);
    forall i, j | 0 <= i < j < |docs| ensures PathOf(docs[i]) != PathOf(docs[j]) {
      assert DocumentKey(docs[i]) != DocumentKey(docs[j]);
    }
  }

  // ---------------------------------------------------------------- a whole snapshot

  method VerifyBlobs(artifacts: seq<ArtifactEntry>, blobs: Blobs) returns (ok: bool)
    ensures ok <==> forall a | a in artifacts :: BlobVerifies(blobs, a.sha, a.sizeBytes)
  {
    for i := 0 to |artifacts|
      invariant forall k | 0 <= k < i :: BlobVerifies(blobs, artifacts[k].sha, artifacts[k].sizeBytes)
    {
      if !BlobVerifies(blobs, artifacts[i].sha, artifacts[i].sizeBytes) {
        assert artifacts[i] in artifacts;
        return false;
      }
    }
    ok := true;
  }

  /** `loadSnapshotAtCommit`. */
  method LoadSnapshotAtCommit(snapshots: Snapshots, blobs: Blobs, caseId: Id, id: SnapshotId,
                              sha: Digest<ManifestBytes>)
    returns (r: Option<Snapshot>)
    ensures r == LoadSnapshot(snapshots, blobs, caseId, id, sha)
  {
    hide Valid, FilesMatch, DecodeAll, Assemble, ArtifactsMatch, PrepareDocuments, BlobVerifies, BodyOf, UniqueOn;
    if id !in snapshots { return None; }
    var dir := snapshots[id];
    if dir.manifest.None? || Digest(dir.manifest.value) != sha { return None; }
    var decoded := DecodeManifest(dir.manifest.value);
    if decoded.None? { return None; }
    var m := decoded.value;
    var ok := CheckManifest(m, caseId);
    if !ok || m.snapshotId != id { return None; }
    EntriesApart(m.documents);
    ok := CheckFiles(m.documents, dir.documents);
    if !ok { return None; }
    var read := ReadDocuments(m.documents, dir.documents);
    if read.None? { return None; }
    var s := read.value;
    ok := Validate(s);
    if !ok { return None; }
    ok := CompareManifestArtifacts(m.artifacts, s);
    if !ok { return None; }
    ValidHasKeys(s);
    ok := CompareCanonicalDocuments(m.documents, s);
    if !ok { return None; }
    ok := VerifyBlobs(m.artifacts, blobs);
    if !ok { return None; }
    r := Some(s);
  }

  lemma EntriesApart(entries: seq<DocumentEntry>)
    requires UniqueOn(entries, ByPath)
    ensures forall k, l | 0 <= k < l < |entries| :: entries[k].path != entries[l].path
  {
    forall k, l | 0 <= k < l < |entries| ensures entries[k].path != entries[l].path {
      assert ByPath(entries[k]) != ByPath(entries[l]);
    }
  }
}
