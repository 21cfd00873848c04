/** The commit directory: which files are records, when they form a chain and how a chain grows. */
module Chain {
  import opened Domain
  import opened Ordering
  import opened Manifests
  import opened Collections

  /** Names in `commits/`: of a record, of any other `.json` file, of a temporary file, or of something the store
      never looks at. */
  datatype FileName =
    | FinalName(sequence: nat, id: CommitId)
    | OtherFinal(name: nat)
    | TempName(name: nat)
    | Foreign(name: nat)

  datatype RecordBytes = CanonicalRecord(record: CommitRecord) | OtherRecord(decoded: Option<CommitRecord>, tag: nat)

  type Commits = map<FileName, RecordBytes>

  predicate IsFinal(name: FileName) {
    name.FinalName? || name.OtherFinal?
  }

  predicate RecordValid(r: CommitRecord, caseId: Id) {
    && r.wellFormed
    && r.body.caseId == caseId
    && r.body.sequence >= 1
    && !r.body.reason.OtherReason?
    && r.commitId == CommitDigest(r.body)
  }

  function NameOf(r: CommitRecord): FileName {
    FinalName(r.body.sequence, r.commitId)
  }

  /** The record in a file that decodes, is valid for the case and carries its own name. */
  function RecordIn(caseId: Id, name: FileName, bytes: RecordBytes): Option<CommitRecord> {
    var decoded := if bytes.CanonicalRecord? then Some(bytes.record) else bytes.decoded;
    match decoded
    case None => None
    case Some(r) => if RecordValid(r, caseId) && NameOf(r) == name then Some(r) else None
  }

  function Records(commits: Commits, caseId: Id): set<CommitRecord> {
    set n | n in commits && IsFinal(n) && RecordIn(caseId, n, commits[n]).Some? :: RecordIn(caseId, n, commits[n]).value
  }

  function Malformed(commits: Commits, caseId: Id): set<FileName> {
    set n | n in commits && IsFinal(n) && RecordIn(caseId, n, commits[n]).None?
  }

  /** Sequences 1, 2, 3, ..., each record naming the one before it as its parent. */
  predicate Linked(chain: seq<CommitRecord>) {
    forall i | 0 <= i < |chain| :: LinksAt(chain, i)
  }

  predicate LinksAt(chain: seq<CommitRecord>, i: nat)
    requires i < |chain|
  {
    && chain[i].body.sequence == i + 1
    && chain[i].body.parent == if i == 0 then NoParent else ParentCommit(chain[i - 1].commitId)
  }

  /** Every final file is a valid record and the records form this chain. */
  predicate IsChain(commits: Commits, caseId: Id, chain: seq<CommitRecord>) {
    Malformed(commits, caseId) == {} && Linked(chain) && Elements(chain) == Records(commits, caseId)
  }

  function BySequence(r: CommitRecord): Key { Key(0, r.body.sequence) }

  lemma LinkedIsSorted(chain: seq<CommitRecord>)
    requires Linked(chain)
    ensures SortedOn(chain, BySequence) && UniqueOn(chain, BySequence) && NoRepeats(chain)
  {
    forall i | 0 <= i < |chain| ensures chain[i].body.sequence == i + 1 {
      assert LinksAt(chain, i);
    }
  }

  /** A directory holds at most one chain. */
  lemma ChainIsUnique(commits: Commits, caseId: Id, a: seq<CommitRecord>, b: seq<CommitRecord>)
    requires IsChain(commits, caseId, a) && IsChain(commits, caseId, b)
    ensures a == b
  {
    LinkedIsSorted(a);
    LinkedIsSorted(b);
    SortedSetIsUnique(a, b, BySequence);
  }

  // ---------------------------------------------------------------- loading the chain

  /** The entries of a directory, in some order. */
  method ReadDir<T(==)>(entries: set<T>) returns (names: seq<T>)
    ensures NoRepeats(names) && Elements(names) == entries
  {
    names := [];
    var rest := entries;
    while rest != {}
      invariant NoRepeats(names) && rest <= entries
      invariant Elements(names) == entries - rest
      decreases rest
    {
      var n :| n in rest;
      rest := rest - {n};
      assert n !in Elements(names);
      AppendNew(names, n);
      ElementsOfSum(names, [n]);
      names := names + [n];
    }
  }

  predicate Readable(commits: Commits, caseId: Id, n: FileName) {
    n in commits && IsFinal(n) && RecordIn(caseId, n, commits[n]).Some?
  }

  /** The valid records in listing order and the names of the malformed final files. */
  method ReadRecords(commits: Commits, caseId: Id, names: seq<FileName>)
    returns (loaded: seq<CommitRecord>, malformed: seq<FileName>)
    requires NoRepeats(names) && Elements(names) == commits.Keys
    ensures Elements(loaded) == Records(commits, caseId) && NoRepeats(loaded)
    ensures Elements(malformed) == Malformed(commits, caseId)
  {
    loaded, malformed := [], [];
    for i := 0 to |names|
      invariant forall r :: r in loaded <==> NameOf(r) in names[..i] && Readable(commits, caseId, NameOf(r))
                                             && RecordIn(caseId, NameOf(r), commits[NameOf(r)]) == Some(r)
      invariant NoRepeats(loaded)
      invariant Elements(malformed) == set n | n in names[..i] && n in Malformed(commits, caseId)
    {
      var name := names[i];
      assert name in Elements(names) && name !in names[..i];
      assert names[..i + 1] == names[..i] + [name];
      if IsFinal(name) {
        match RecordIn(caseId, name, commits[name]) {
          case None =>
            ElementsOfSum(malformed, [name]);
            malformed := malformed + [name];
          case Some(r) => loaded := loaded + [r];
        }
      }
    }
    assert names[..|names|] == names;
    forall r ensures r in loaded <==> r in Records(commits, caseId) {
      if r in Records(commits, caseId) {
        var n :| n in commits && IsFinal(n) && RecordIn(caseId, n, commits[n]) == Some(r);
        assert n in Elements(names) && n == NameOf(r);
      }
    }
    forall n | n in Malformed(commits, caseId) ensures n in malformed {
      assert n in Elements(names) && n in Elements(malformed);
    }
  }

  function NamesOf(records: seq<CommitRecord>): seq<FileName> {
    seq(|records|, i requires 0 <= i < |records| => NameOf(records[i]))
  }

  predicate DistinctSequences(records: set<CommitRecord>) {
    forall a, b | a in records && b in records && a.body.sequence == b.body.sequence :: a == b
  }

  /** The sorted records up to `i` are linked and the next one, if any, does not continue them. */
  predicate StopsAt(sorted: seq<CommitRecord>, i: nat) {
    i <= |sorted| && Linked(sorted[..i]) && (i < |sorted| ==> !LinksAt(sorted, i))
  }

  lemma PermutedNoRepeats<T>(a: seq<T>, b: seq<T>)
    requires NoRepeats(a) && multiset(a) == multiset(b)
    ensures NoRepeats(b)
  {
    MultisetOfDistinct(a);
    forall i, j | 0 <= i < j < |b| ensures b[i] != b[j] {
      assert multiset(Elements(a))[b[i]] <= 1;
      if b[i] == b[j] {
        OccursTwice(b, i, j);
        assert false;
      }
    }
  }

  lemma LinkedExtended(sorted: seq<CommitRecord>, i: nat)
    requires i < |sorted| && Linked(sorted[..i]) && LinksAt(sorted, i)
    ensures Linked(sorted[..i + 1])
  {
    var longer := sorted[..i + 1];
    forall k | 0 <= k <= i ensures LinksAt(longer, k) {
      assert k < i ==> LinksAt(sorted[..i], k);
    }
  }

  lemma LinkedTaken(chain: seq<CommitRecord>, n: nat)
    requires Linked(chain) && n <= |chain|
    ensures Linked(chain[..n])
  {
    forall k | 0 <= k < n ensures LinksAt(chain[..n], k) {
      assert LinksAt(chain, k);
    }
  }

  /** Duplicate sequences, gaps and forks: if the sorted records do not link, no arrangement of them does. */
  lemma NoOtherArrangement(sorted: seq<CommitRecord>, chain: seq<CommitRecord>)
    requires SortedOn(sorted, BySequence) && NoRepeats(sorted)
    requires Linked(chain) && Elements(chain) == Elements(sorted)
    ensures chain == sorted
  {
    LinkedIsSorted(chain);
    forall i, j | 0 <= i < j < |sorted| ensures BySequence(sorted[i]) != BySequence(sorted[j]) {
      assert sorted[i] in Elements(chain) && sorted[j] in Elements(chain);
      var k := AtIndex(chain, sorted[i]);
      var l := AtIndex(chain, sorted[j]);
    }
    SortedSetIsUnique(chain, sorted, BySequence);
  }

  lemma LinkedSequence(chain: seq<CommitRecord>, k: nat)
    requires Linked(chain) && k < |chain|
    ensures chain[k].body.sequence == k + 1
  {
    assert LinksAt(chain, k);
  }

  lemma {:induction false} SequencesAhead(sorted: seq<CommitRecord>, k: nat)
    requires SortedOn(sorted, BySequence) && UniqueOn(sorted, BySequence)
    requires forall r | r in sorted :: r.body.sequence >= 1
    requires k < |sorted|
    ensures sorted[k].body.sequence >= k + 1
  {
    if k > 0 {
      SequencesAhead(sorted, k - 1);
      assert !Before(BySequence(sorted[k]), BySequence(sorted[k - 1]));
      assert BySequence(sorted[k - 1]) != BySequence(sorted[k]);
    }
  }

  /** A linked selection of records with distinct sequences starts the sorted list. */
  lemma {:induction false} SelectionIsPrefix(sorted: seq<CommitRecord>, chain: seq<CommitRecord>, k: nat)
    requires SortedOn(sorted, BySequence) && UniqueOn(sorted, BySequence)
    requires forall r | r in sorted :: r.body.sequence >= 1
    requires Linked(chain) && Elements(chain) <= Elements(sorted)
    requires k <= |chain|
    ensures k <= |sorted| && sorted[..k] == chain[..k]
  {
    if k > 0 {
      SelectionIsPrefix(sorted, chain, k - 1);
      assert chain[k - 1] in Elements(sorted);
      var j := AtIndex(sorted, chain[k - 1]);
      LinkedSequence(chain, k - 1);
      SequencesAhead(sorted, j);
      if j < k - 1 {
        assert sorted[j] == sorted[..k - 1][j] == chain[j];
        LinkedSequence(chain, j);
      }
      assert j == k - 1;
      EqualByLast(sorted[..k], chain[..k]);
    }
  }

  lemma LinkCarriesOver(sorted: seq<CommitRecord>, chain: seq<CommitRecord>, i: nat)
    requires Linked(chain) && i < |chain| <= |sorted| && sorted[..|chain|] == chain
    ensures LinksAt(sorted, i)
  {
    assert LinksAt(chain, i);
    assert sorted[i] == chain[i] && (i > 0 ==> sorted[i - 1] == chain[i - 1]);
  }

  lemma PrefixIsLongest(sorted: seq<CommitRecord>, i: nat, chain: seq<CommitRecord>)
    requires SortedOn(sorted, BySequence) && UniqueOn(sorted, BySequence) && StopsAt(sorted, i)
    requires forall r | r in sorted :: r.body.sequence >= 1
    requires Linked(chain) && Elements(chain) <= Elements(sorted)
    ensures chain <= sorted[..i]
  {
    SelectionIsPrefix(sorted, chain, |chain|);
    assert chain[..|chain|] == chain;
    if |chain| > i {
      LinkCarriesOver(sorted, chain, i);
      assert false;
    }
  }

  /** No chain the records form is longer than this one. */
  ghost predicate IsLongest(records: set<CommitRecord>, valid: seq<CommitRecord>) {
    forall chain | Linked(chain) && Elements(chain) <= records :: |chain| <= |valid|
  }

  /** Every chain the records form is a prefix of this one, so it is the only chain of its length. */
  ghost predicate IsOnlyLongest(records: set<CommitRecord>, valid: seq<CommitRecord>) {
    forall chain | Linked(chain) && Elements(chain) <= records :: chain <= valid
  }

  // Where the records fork, which prefix the loader finds depends on the order in which equal sequence numbers are
  // listed.

  function Above(records: set<CommitRecord>, n: nat): set<CommitRecord> {
    set r | r in records && r.body.sequence > n
  }

  lemma FewerAbove(records: set<CommitRecord>, chain: seq<CommitRecord>, r: CommitRecord)
    requires r in records && Continues(chain, r)
    ensures Above(records, |chain + [r]|) < Above(records, |chain|)
  {
    assert r in Above(records, |chain|) && r !in Above(records, |chain| + 1);
  }

  /** `r` continues the chain and no other record has its sequence number. */
  predicate OnlyNext(records: set<CommitRecord>, chain: seq<CommitRecord>, r: CommitRecord) {
    r in records && Continues(chain, r) && forall x | x in records && x.body.sequence == r.body.sequence :: x == r
  }

  ghost function TrunkFrom(records: set<CommitRecord>, chain: seq<CommitRecord>): seq<CommitRecord>
    decreases Above(records, |chain|)
  {
    if exists r :: OnlyNext(records, chain, r) then
      var r :| OnlyNext(records, chain, r);
      FewerAbove(records, chain, r);
      TrunkFrom(records, chain + [r])
    else chain
  }

  /** The longest chain from the start in which no sequence number occurs a second time among the records. */
  ghost function Trunk(records: set<CommitRecord>): seq<CommitRecord> {
    TrunkFrom(records, [])
  }

  /** The chain is linked, and its sequence numbers are not taken by other records. */
  predicate Unforked(records: set<CommitRecord>, chain: seq<CommitRecord>) {
    && Linked(chain) && Elements(chain) <= records
    && forall r | r in records && 1 <= r.body.sequence <= |chain| :: r == chain[r.body.sequence - 1]
  }

  lemma {:induction false} TrunkIsUnforked(records: set<CommitRecord>, chain: seq<CommitRecord>)
    requires Unforked(records, chain)
    ensures Unforked(records, TrunkFrom(records, chain))
    ensures !exists r :: OnlyNext(records, TrunkFrom(records, chain), r)
    decreases Above(records, |chain|)
  {
    if exists r :: OnlyNext(records, chain, r) {
      var r :| OnlyNext(records, chain, r) && TrunkFrom(records, chain) == TrunkFrom(records, chain + [r]);
      LinkedAppend(chain, r);
      ElementsOfSum(chain, [r]);
      FewerAbove(records, chain, r);
      TrunkIsUnforked(records, chain + [r]);
    }
  }

  /** An order in which a loader may see the records. */
  predicate Listing(sorted: seq<CommitRecord>, records: set<CommitRecord>) {
    SortedOn(sorted, BySequence) && NoRepeats(sorted) && Elements(sorted) == records
  }

  /** Whatever the listing order, no chain is longer than the prefix at which the loader stops. */
  ghost predicate AlwaysLongest(records: set<CommitRecord>) {
    forall sorted, i | Listing(sorted, records) && StopsAt(sorted, i) :: IsLongest(records, sorted[..i])
  }

  /** Whatever the listing order, the prefix at which the loader stops contains every chain there is. */
  ghost predicate AlwaysOnlyLongest(records: set<CommitRecord>) {
    forall sorted, i | Listing(sorted, records) && StopsAt(sorted, i) :: IsOnlyLongest(records, sorted[..i])
  }

  predicate SequencesStart(records: set<CommitRecord>) {
    forall r | r in records :: r.body.sequence >= 1
  }

  predicate TrunkEnds(records: set<CommitRecord>, trunk: seq<CommitRecord>) {
    !exists r | r in records :: Continues(trunk, r)
  }

  /** All records of the next sequence number continue the trunk, and nothing continues any of them. */
  predicate EvenFork(records: set<CommitRecord>, trunk: seq<CommitRecord>) {
    && (forall r | r in records && r.body.sequence == |trunk| + 1 :: Continues(trunk, r))
    && (forall r, x | r in records && x in records && Continues(trunk, r) :: !Continues(trunk + [r], x))
  }

  /** Every listing starts with the trunk. */
  lemma {:induction false} ListingStartsWith(sorted: seq<CommitRecord>, records: set<CommitRecord>,
                                             chain: seq<CommitRecord>, k: nat)
    requires Listing(sorted, records) && Unforked(records, chain) && k <= |chain|
    requires SequencesStart(records)
    ensures k <= |sorted| && sorted[..k] == chain[..k]
  {
    if k > 0 {
      ListingStartsWith(sorted, records, chain, k - 1);
      forall m | 0 <= m < k - 1 ensures sorted[m] == chain[m] {
        assert sorted[..k - 1][m] == chain[..k - 1][m];
      }
      var r := chain[k - 1];
      assert r in Elements(chain) && r in Elements(sorted);
      LinkedSequence(chain, k - 1);
      var p := AtIndex(sorted, r);
      if p < k - 1 {
        assert sorted[p] == sorted[..k - 1][p] == chain[p];
        LinkedSequence(chain, p);
      } else {
        var x := sorted[k - 1];
        assert x in Elements(sorted) && !Before(BySequence(r), BySequence(x));
        var m := x.body.sequence - 1;
        assert x == chain[m];
        assert m == k - 1;
      }
      assert p == k - 1;
      EqualByLast(sorted[..k], chain[..k]);
    }
  }

  lemma NextContinues(trunk: seq<CommitRecord>, chain: seq<CommitRecord>)
    requires Linked(chain) && |trunk| < |chain| && chain[..|trunk|] == trunk
    ensures Continues(trunk, chain[|trunk|])
  {
    var k := |trunk|;
    assert LinksAt(chain, k);
    assert k > 0 ==> chain[k - 1] == chain[..k][k - 1];
  }

  /** Every chain starts with the trunk, as far as both go. */
  lemma {:induction false} ChainsFollow(records: set<CommitRecord>, trunk: seq<CommitRecord>, chain: seq<CommitRecord>,
                                        k: nat)
    requires Unforked(records, trunk) && Linked(chain) && Elements(chain) <= records && k <= |chain| && k <= |trunk|
    ensures chain[..k] == trunk[..k]
  {
    if k > 0 {
      ChainsFollow(records, trunk, chain, k - 1);
      assert chain[k - 1] in Elements(chain) && LinksAt(chain, k - 1);
      assert chain[k - 1] == trunk[k - 1];
      assert chain[..k][..k - 1] == chain[..k - 1] && trunk[..k][..k - 1] == trunk[..k - 1];
      EqualByLast(chain[..k], trunk[..k]);
    }
  }

  /** A chain longer than the trunk goes on with a record that continues it. */
  lemma BeyondTrunk(records: set<CommitRecord>, trunk: seq<CommitRecord>, chain: seq<CommitRecord>)
    requires Unforked(records, trunk) && Linked(chain) && Elements(chain) <= records && |trunk| < |chain|
    ensures chain[..|trunk|] == trunk && chain[|trunk|] in records && Continues(trunk, chain[|trunk|])
  {
    ChainsFollow(records, trunk, chain, |trunk|);
    assert trunk[..|trunk|] == trunk && chain[|trunk|] in Elements(chain);
    NextContinues(trunk, chain);
  }

  /** The loader goes through the trunk and takes the record behind it, if that one continues the trunk. It takes no
      other: where a record continues the trunk, there is another one of its sequence number. */
  lemma StopsNearTrunk(records: set<CommitRecord>, trunk: seq<CommitRecord>, sorted: seq<CommitRecord>, i: nat)
    requires Unforked(records, trunk) && (!exists r :: OnlyNext(records, trunk, r)) && SequencesStart(records)
    requires Listing(sorted, records) && StopsAt(sorted, i)
    ensures |trunk| <= i <= |sorted| && sorted[..|trunk|] == trunk
    ensures i == if |trunk| < |sorted| && Continues(trunk, sorted[|trunk|]) then |trunk| + 1 else |trunk|
  {
    var k := |trunk|;
    ListingStartsWith(sorted, records, trunk, k);
    assert trunk[..k] == trunk;
    forall q | 0 <= q < k ensures LinksAt(sorted, q) {
      LinkCarriesOver(sorted, trunk, q);
    }
    if k < |sorted| {
      LinkIsContinuation(sorted, k);
    }
    if i > k {
      LinkCarriesOver(sorted, sorted[..i], k);
      TakesOneOfMany(records, sorted, k, i);
    }
  }

  lemma LinkIsContinuation(sorted: seq<CommitRecord>, k: nat)
    requires k < |sorted|
    ensures LinksAt(sorted, k) <==> Continues(sorted[..k], sorted[k])
  {
  }

  lemma SequencesAscend(sorted: seq<CommitRecord>, a: nat, b: nat)
    requires SortedOn(sorted, BySequence) && a <= b < |sorted|
    ensures sorted[a].body.sequence <= sorted[b].body.sequence
  {
    if a < b {
      assert !Before(BySequence(sorted[b]), BySequence(sorted[a]));
    }
  }

  lemma TakesOneOfMany(records: set<CommitRecord>, sorted: seq<CommitRecord>, k: nat, i: nat)
    requires Listing(sorted, records) && k < i <= |sorted| && Linked(sorted[..i])
    requires !OnlyNext(records, sorted[..k], sorted[k]) && LinksAt(sorted, k)
    ensures i == k + 1
  {
    LinkIsContinuation(sorted, k);
    assert sorted[k] in Elements(sorted);
    var x :| x in records && x.body.sequence == k + 1 && x != sorted[k];
    assert x in Elements(sorted);
    var p := AtIndex(sorted, x);
    if i > k + 1 {
      assert sorted[..i][k + 1] == sorted[k + 1];
      LinkedSequence(sorted[..i], k + 1);
      if p < i {
        assert sorted[..i][p] == x;
        LinkedSequence(sorted[..i], p);
      } else {
        SequencesAscend(sorted, k + 1, p);
      }
    }
  }

  /** Behind the trunk the next sequence number is listed first, if any record has it. */
  lemma NextInListing(sorted: seq<CommitRecord>, records: set<CommitRecord>, trunk: seq<CommitRecord>, r: CommitRecord)
    requires Listing(sorted, records) && Unforked(records, trunk) && SequencesStart(records)
    requires |trunk| <= |sorted| && sorted[..|trunk|] == trunk
    requires r in records && r.body.sequence == |trunk| + 1
    ensures |trunk| < |sorted| && sorted[|trunk|] in records && sorted[|trunk|].body.sequence == |trunk| + 1
  {
    var k := |trunk|;
    forall m | 0 <= m < k ensures sorted[m] == trunk[m] {
      assert sorted[..k][m] == trunk[m];
    }
    assert r in Elements(sorted);
    var p := AtIndex(sorted, r);
    if p < k {
      LinkedSequence(trunk, p);
    } else {
      var x := sorted[k];
      assert x in Elements(sorted) && !Before(BySequence(r), BySequence(x));
      if x.body.sequence <= k {
        var m := PlaceInTrunk(records, trunk, x);
      }
    }
  }

  lemma PlaceInTrunk(records: set<CommitRecord>, trunk: seq<CommitRecord>, x: CommitRecord) returns (m: nat)
    requires Unforked(records, trunk) && x in records && 1 <= x.body.sequence <= |trunk|
    ensures m < |trunk| && trunk[m] == x
  {
    m := x.body.sequence - 1;
    LinkedSequence(trunk, m);
  }

  lemma TrunkIsOnlyLongest(records: set<CommitRecord>, trunk: seq<CommitRecord>, valid: seq<CommitRecord>)
    requires Unforked(records, trunk) && TrunkEnds(records, trunk) && trunk <= valid
    ensures IsOnlyLongest(records, valid)
  {
    hide Continues;
    forall chain | Linked(chain) && Elements(chain) <= records ensures chain <= valid {
      if |trunk| < |chain| {
        BeyondTrunk(records, trunk, chain);
      } else {
        ChainsFollow(records, trunk, chain, |chain|);
        assert chain[..|chain|] == chain;
      }
    }
  }

  /** Where all branches of a fork end at once, each of them is as long as any chain. */
  lemma EvenForkIsLongest(records: set<CommitRecord>, trunk: seq<CommitRecord>, valid: seq<CommitRecord>)
    requires Unforked(records, trunk) && EvenFork(records, trunk) && |trunk| < |valid|
    ensures IsLongest(records, valid)
  {
    var k := |trunk|;
    forall chain | Linked(chain) && Elements(chain) <= records ensures |chain| <= |valid| {
      if k + 1 < |chain| {
        BeyondTrunk(records, trunk, chain);
        assert chain[..k + 1] == trunk + [chain[k]];
        assert chain[k + 1] in Elements(chain);
        NextContinues(trunk + [chain[k]], chain);
        assert false;
      }
    }
  }

  /** Sequence numbers first, then everything but one record. */
  ghost function FirstAmongEquals(chosen: CommitRecord): CommitRecord -> Key {
    (r: CommitRecord) => Key(r.body.sequence, if r == chosen then 0 else 1)
  }

  lemma {:induction false} Enumerate<T>(s: set<T>) returns (xs: seq<T>)
    ensures NoRepeats(xs) && Elements(xs) == s
    decreases s
  {
    if s == {} {
      xs := [];
    } else {
      var x :| x in s;
      var rest := Enumerate(s - {x});
      assert x !in rest by {
        assert x !in Elements(rest);
      }
      AppendNew(rest, x);
      ElementsOfSum(rest, [x]);
      xs := rest + [x];
    }
  }

  /** There is a listing in which a given record comes before all others of its sequence number. */
  lemma ListedFirst(records: set<CommitRecord>, chosen: CommitRecord) returns (sorted: seq<CommitRecord>)
    requires chosen in records
    ensures Listing(sorted, records)
    ensures forall i, j | 0 <= i < j < |sorted| && sorted[j] == chosen :: sorted[i].body.sequence < chosen.body.sequence
  {
    var key := FirstAmongEquals(chosen);
    var xs := Enumerate(records);
    sorted := SortOn(xs, key);
    SortOnSorts(xs, key);
    SameElements(sorted, xs);
    PermutedNoRepeats(xs, sorted);
    forall i, j | 0 <= i < j < |sorted| ensures !Before(BySequence(sorted[j]), BySequence(sorted[i])) {
      assert !Before(key(sorted[j]), key(sorted[i]));
    }
    forall i, j | 0 <= i < j < |sorted| && sorted[j] == chosen ensures sorted[i].body.sequence < chosen.body.sequence {
      assert !Before(key(sorted[j]), key(sorted[i])) && sorted[i] != chosen;
    }
  }

  lemma {:induction false} StopExists(sorted: seq<CommitRecord>, from: nat) returns (i: nat)
    requires from <= |sorted| && Linked(sorted[..from])
    ensures from <= i && StopsAt(sorted, i)
    decreases |sorted| - from
  {
    if from < |sorted| && LinksAt(sorted, from) {
      LinkedExtended(sorted, from);
      i := StopExists(sorted, from + 1);
    } else {
      i := from;
    }
  }

  lemma OtherComesNext(sorted: seq<CommitRecord>, records: set<CommitRecord>, trunk: seq<CommitRecord>,
                       other: CommitRecord)
    requires Listing(sorted, records) && Unforked(records, trunk) && SequencesStart(records)
    requires |trunk| <= |sorted| && sorted[..|trunk|] == trunk
    requires other in records && other.body.sequence == |trunk| + 1
    requires forall i, j | 0 <= i < j < |sorted| && sorted[j] == other :: sorted[i].body.sequence < other.body.sequence
    ensures |trunk| < |sorted| && sorted[|trunk|] == other
  {
    var k := |trunk|;
    NextInListing(sorted, records, trunk, other);
    assert other in Elements(sorted);
    var p := AtIndex(sorted, other);
    if p < k {
      assert sorted[p] == sorted[..k][p] == trunk[p];
      LinkedSequence(trunk, p);
    }
  }

  /** The loader's run on a listing in which a given record comes right behind the trunk. */
  lemma ListedBehindTrunk(records: set<CommitRecord>, trunk: seq<CommitRecord>, other: CommitRecord)
    returns (sorted: seq<CommitRecord>, i: nat)
    requires Unforked(records, trunk) && (!exists r :: OnlyNext(records, trunk, r)) && SequencesStart(records)
    requires other in records && other.body.sequence == |trunk| + 1
    ensures Listing(sorted, records) && StopsAt(sorted, i) && |trunk| < |sorted| && sorted[|trunk|] == other
    ensures i == if Continues(trunk, other) then |trunk| + 1 else |trunk|
  {
    sorted := ListedFirst(records, other);
    i := StopExists(sorted, 0);
    StopsNearTrunk(records, trunk, sorted, i);
    OtherComesNext(sorted, records, trunk, other);
  }

  /** A stray record listed behind the trunk hides the chain that continues it. */
  lemma StrayHidesChain(records: set<CommitRecord>, trunk: seq<CommitRecord>, r: CommitRecord, stray: CommitRecord)
    returns (sorted: seq<CommitRecord>, i: nat)
    requires Unforked(records, trunk) && (!exists x :: OnlyNext(records, trunk, x)) && SequencesStart(records)
    requires r in records && Continues(trunk, r)
    requires stray in records && stray.body.sequence == |trunk| + 1 && !Continues(trunk, stray)
    ensures Listing(sorted, records) && StopsAt(sorted, i) && !IsLongest(records, sorted[..i])
  {
    sorted, i := ListedBehindTrunk(records, trunk, stray);
    LinkedAppend(trunk, r);
    ElementsOfSum(trunk, [r]);
    assert |trunk + [r]| > |sorted[..i]|;
  }

  /** A chain two records longer than the trunk is missed in every listing. */
  lemma LongBranchIsMissed(records: set<CommitRecord>, trunk: seq<CommitRecord>, r: CommitRecord, x: CommitRecord,
                           sorted: seq<CommitRecord>, i: nat)
    requires Unforked(records, trunk) && (!exists y :: OnlyNext(records, trunk, y)) && SequencesStart(records)
    requires r in records && x in records && Continues(trunk, r) && Continues(trunk + [r], x)
    requires Listing(sorted, records) && StopsAt(sorted, i)
    ensures !IsLongest(records, sorted[..i])
  {
    StopsNearTrunk(records, trunk, sorted, i);
    LinkedAppend(trunk, r);
    LinkedAppend(trunk + [r], x);
    ElementsOfSum(trunk, [r]);
    ElementsOfSum(trunk + [r], [x]);
    assert |trunk + [r] + [x]| > |sorted[..i]|;
  }

  /** The other branch listed first: the loader returns no chain that starts with `r`. */
  lemma OtherBranchIsTaken(records: set<CommitRecord>, trunk: seq<CommitRecord>, r: CommitRecord, other: CommitRecord)
    returns (sorted: seq<CommitRecord>, i: nat)
    requires Unforked(records, trunk) && (!exists x :: OnlyNext(records, trunk, x)) && SequencesStart(records)
    requires r in records && Continues(trunk, r)
    requires other in records && other != r && other.body.sequence == r.body.sequence
    ensures Listing(sorted, records) && StopsAt(sorted, i) && !IsOnlyLongest(records, sorted[..i])
  {
    sorted, i := ListedBehindTrunk(records, trunk, other);
    LinkedAppend(trunk, r);
    ElementsOfSum(trunk, [r]);
    var missed := trunk + [r];
    assert missed[|trunk|] == r;
    if i > |trunk| {
      assert sorted[..i][|trunk|] == other;
    }
    assert !(missed <= sorted[..i]);
  }

  /** The loader's prefix is the longest chain in every listing order if and only if no record continues the trunk, or
      all records of the next sequence number do and no chain goes on behind them. */
  lemma LongestIffForkIsEven(records: set<CommitRecord>)
    requires SequencesStart(records)
    ensures AlwaysLongest(records) <==> TrunkEnds(records, Trunk(records)) || EvenFork(records, Trunk(records))
  {
    var trunk := Trunk(records);
    TrunkIsUnforked(records, []);
    if TrunkEnds(records, trunk) || EvenFork(records, trunk) {
      forall sorted, i | Listing(sorted, records) && StopsAt(sorted, i) ensures IsLongest(records, sorted[..i]) {
        EvenForkAlwaysLongest(records, trunk, sorted, i);
      }
    } else {
      UnevenForkIsMissed(records, trunk);
    }
  }

  lemma EvenForkAlwaysLongest(records: set<CommitRecord>, trunk: seq<CommitRecord>, sorted: seq<CommitRecord>, i: nat)
    requires Unforked(records, trunk) && (!exists r :: OnlyNext(records, trunk, r)) && SequencesStart(records)
    requires TrunkEnds(records, trunk) || EvenFork(records, trunk)
    requires Listing(sorted, records) && StopsAt(sorted, i)
    ensures IsLongest(records, sorted[..i])
  {
    StopsNearTrunk(records, trunk, sorted, i);
    if TrunkEnds(records, trunk) {
      assert trunk == sorted[..i][..|trunk|];
      TrunkIsOnlyLongest(records, trunk, sorted[..i]);
    } else {
      var r :| r in records && Continues(trunk, r);
      NextInListing(sorted, records, trunk, r);
      EvenForkIsLongest(records, trunk, sorted[..i]);
    }
  }

  lemma UnevenForkIsMissed(records: set<CommitRecord>, trunk: seq<CommitRecord>)
    requires Unforked(records, trunk) && (!exists r :: OnlyNext(records, trunk, r)) && SequencesStart(records)
    requires !TrunkEnds(records, trunk) && !EvenFork(records, trunk)
    ensures !AlwaysLongest(records)
  {
    hide Listing, StopsAt, Unforked, IsLongest;
    var r :| r in records && Continues(trunk, r);
    if stray :| stray in records && stray.body.sequence == |trunk| + 1 && !Continues(trunk, stray) {
      var sorted, i := StrayHidesChain(records, trunk, r, stray);
    } else {
      var y, x :| y in records && x in records && Continues(trunk, y) && Continues(trunk + [y], x);
      var sorted, i := ListedBehindTrunk(records, trunk, y);
      LongBranchIsMissed(records, trunk, y, x, sorted, i);
    }
  }

  /** No listing hides any chain if and only if no record continues the trunk. */
  lemma OnlyLongestIffTrunkEnds(records: set<CommitRecord>)
    requires SequencesStart(records)
    ensures AlwaysOnlyLongest(records) <==> TrunkEnds(records, Trunk(records))
  {
    var trunk := Trunk(records);
    TrunkIsUnforked(records, []);
    if r :| r in records && Continues(trunk, r) {
      assert !OnlyNext(records, trunk, r);
      var other :| other in records && other.body.sequence == r.body.sequence && other != r;
      var sorted, i := OtherBranchIsTaken(records, trunk, r, other);
    } else {
      forall sorted, i | Listing(sorted, records) && StopsAt(sorted, i) ensures IsOnlyLongest(records, sorted[..i]) {
        StopsNearTrunk(records, trunk, sorted, i);
        assert trunk == sorted[..i][..|trunk|];
        TrunkIsOnlyLongest(records, trunk, sorted[..i]);
      }
    }
  }

  /** Two branches of one record each: whichever is listed first, the loader returns a longest chain, but not the only
      one. */
  lemma SymmetricFork(a: CommitRecord, b: CommitRecord, c: CommitRecord)
    requires Continues([], a) && Continues([a], b) && Continues([a], c) && b != c
    ensures AlwaysLongest({a, b, c}) && !AlwaysOnlyLongest({a, b, c})
  {
    var records := {a, b, c};
    assert LinksAt([a], 0);
    assert Unforked(records, [a]);
    assert EvenFork(records, [a]);
    assert b in records && c in records && !exists r :: OnlyNext(records, [a], r);
    forall sorted, i | Listing(sorted, records) && StopsAt(sorted, i) ensures IsLongest(records, sorted[..i]) {
      EvenForkAlwaysLongest(records, [a], sorted, i);
    }
    var sorted, i := OtherBranchIsTaken(records, [a], b, c);
  }

  // A directory with a fork, in full.

  function ForkRecord(caseId: Id, sequence: nat, parent: Parent): CommitRecord {
    var snapshot := SnapshotDigest(ManifestBody(caseId, 0, [], []));
    var body := CommitBody(caseId, sequence, parent, snapshot, Digest(OtherManifest(None, 0)), 0, CaseSnapshotReason);
    CommitRecord(CommitDigest(body), body, true)
  }

  /** A first commit, its successor, and a stray record of sequence 2 without a parent. */
  function ForkedDirectory(caseId: Id): Commits {
    var a := ForkRecord(caseId, 1, NoParent);
    var b := ForkRecord(caseId, 2, ParentCommit(a.commitId));
    var c := ForkRecord(caseId, 2, NoParent);
    map[NameOf(a) := CanonicalRecord(a), NameOf(b) := CanonicalRecord(b), NameOf(c) := CanonicalRecord(c)]
  }

  /** The prefix need not be the longest: in a directory of three valid, properly named records, the loader that sees
      the stray one first stops after one commit, although there is a chain of two. */
  lemma ForkHidesChain(caseId: Id) returns (a: CommitRecord, b: CommitRecord, c: CommitRecord)
    ensures var commits := ForkedDirectory(caseId);
      && Malformed(commits, caseId) == {} && Records(commits, caseId) == {a, b, c}
      && Listing([a, c, b], {a, b, c}) && StopsAt([a, c, b], 1) && Linked([a, b])
      && |[a, c, b][..1]| < |[a, b]| && !AlwaysLongest({a, b, c})
  {
    a := ForkRecord(caseId, 1, NoParent);
    b := ForkRecord(caseId, 2, ParentCommit(a.commitId));
    c := ForkRecord(caseId, 2, NoParent);
    ForkedRecords(caseId, a, b, c);
    var sorted := [a, c, b];
    assert Elements(sorted) == {a, b, c};
    assert LinksAt([a, b], 0) && LinksAt([a, b], 1) && LinksAt(sorted[..1], 0) && !LinksAt(sorted, 1);
    assert Elements([a, b]) <= {a, b, c} && !IsLongest({a, b, c}, sorted[..1]);
  }

  lemma ForkedRecords(caseId: Id, a: CommitRecord, b: CommitRecord, c: CommitRecord)
    requires a == ForkRecord(caseId, 1, NoParent) && b == ForkRecord(caseId, 2, ParentCommit(a.commitId))
    requires c == ForkRecord(caseId, 2, NoParent)
    ensures var commits := ForkedDirectory(caseId);
      Malformed(commits, caseId) == {} && Records(commits, caseId) == {a, b, c}
  {
    var commits := ForkedDirectory(caseId);
    forall r | r in {a, b, c}
      ensures NameOf(r) in commits && RecordIn(caseId, NameOf(r), commits[NameOf(r)]) == Some(r)
    {
    }
    forall n | n in commits ensures n == NameOf(a) || n == NameOf(b) || n == NameOf(c) {
    }
  }

  lemma DistinctEndsTrunk(records: set<CommitRecord>)
    requires DistinctSequences(records) && SequencesStart(records)
    ensures TrunkEnds(records, Trunk(records))
  {
    TrunkIsUnforked(records, []);
    if r :| r in records && Continues(Trunk(records), r) {
      assert OnlyNext(records, Trunk(records), r);
      assert false;
    }
  }

  lemma Partition(sorted: seq<CommitRecord>, i: nat)
    requires NoRepeats(sorted) && i <= |sorted|
    ensures forall r :: r in sorted[i..] <==> r in sorted && r !in sorted[..i]
  {
    forall r | r in sorted ensures r in sorted[..i] || r in sorted[i..] {
      assert sorted == sorted[..i] + sorted[i..];
    }
  }

  lemma NamesOfPart(records: seq<CommitRecord>)
    ensures Elements(NamesOf(records)) == set r | r in records :: NameOf(r)
  {
    forall r | r in records ensures NameOf(r) in NamesOf(records) {
      var k := AtIndex(records, r);
      assert NamesOf(records)[k] == NameOf(r);
    }
  }

  /** The valid records behind the prefix. */
  function LeftOut(commits: Commits, caseId: Id, valid: seq<CommitRecord>): set<FileName> {
    set r | r in Records(commits, caseId) && r !in valid :: NameOf(r)
  }

  /** `loadCommitChainPrefix`: the linked prefix, the names of the files left out of it, and whether it failed. The
      prefix is where the loop stops in some listing of the records; it is the longest chain there is where no record
      continues the trunk, as when no two records share a sequence number. */
  method LoadCommitChainPrefix(commits: Commits, caseId: Id)
    returns (valid: seq<CommitRecord>, broken: seq<FileName>, failed: bool)
    ensures Linked(valid) && Elements(valid) <= Records(commits, caseId)
    ensures !failed <==> exists chain :: IsChain(commits, caseId, chain)
    ensures !failed ==> IsChain(commits, caseId, valid)
    ensures failed <==> broken != []
    ensures Elements(broken) == Malformed(commits, caseId) + LeftOut(commits, caseId, valid)
    ensures exists sorted ::
      Listing(sorted, Records(commits, caseId)) && StopsAt(sorted, |valid|) && valid == sorted[..|valid|]
    ensures DistinctSequences(Records(commits, caseId)) ==> IsOnlyLongest(Records(commits, caseId), valid)
    ensures var records := Records(commits, caseId);
      && (TrunkEnds(records, Trunk(records)) ==> IsOnlyLongest(records, valid))
      && (EvenFork(records, Trunk(records)) ==> IsLongest(records, valid))
  {
    hide Trunk, IsLongest, IsOnlyLongest, TrunkEnds, EvenFork, Records, Malformed, DistinctSequences, LeftOut, SortOn,
         SortedOn, IsChain;
    var names := ReadDir(commits.Keys);
    var loaded, malformed := ReadRecords(commits, caseId, names);
    var sorted := SortOn(loaded, BySequence);
    SortOnSorts(loaded, BySequence);
    SameElements(sorted, loaded);
    PermutedNoRepeats(loaded, sorted);
    valid, broken, failed := [], [], false;
    var i := 0;
    while i < |sorted| && !failed
      invariant i <= |sorted| && valid == sorted[..i] && Linked(valid)
      invariant failed ==> i < |sorted| && !LinksAt(sorted, i) && broken == NamesOf(sorted[i..]) + malformed
      decreases |sorted| - i, !failed
    {
      var r := sorted[i];
      if r.body.sequence != i + 1 {
        broken, failed := NamesOf(sorted[i..]) + malformed, true;
      } else if i == 0 && r.body.parent != NoParent {
        broken, failed := NamesOf(sorted[i..]) + malformed, true;
      } else if i > 0 && r.body.parent != ParentCommit(valid[i - 1].commitId) {
        broken, failed := NamesOf(sorted[i..]) + malformed, true;
      } else {
        LinkedExtended(sorted, i);
        valid := valid + [r];
        i := i + 1;
      }
    }
    if !failed {
      broken, failed := malformed, malformed != [];
    }
    Outcome(commits, caseId, sorted, malformed, i, broken);
    RecordsStart(commits, caseId);
    LongestIffForkIsEven(Records(commits, caseId));
    OnlyLongestIffTrunkEnds(Records(commits, caseId));
    assert Listing(sorted, Records(commits, caseId));
  }

  lemma RecordsStart(commits: Commits, caseId: Id)
    ensures SequencesStart(Records(commits, caseId))
  {
  }

  /** What the loader returns, given where it stopped. */
  lemma Outcome(commits: Commits, caseId: Id, sorted: seq<CommitRecord>, malformed: seq<FileName>, i: nat,
                broken: seq<FileName>)
    requires SortedOn(sorted, BySequence) && NoRepeats(sorted) && StopsAt(sorted, i)
    requires Elements(sorted) == Records(commits, caseId) && Elements(malformed) == Malformed(commits, caseId)
    requires broken == NamesOf(sorted[i..]) + malformed
    ensures broken == [] <==> exists chain :: IsChain(commits, caseId, chain)
    ensures broken == [] ==> IsChain(commits, caseId, sorted[..i])
    ensures Elements(sorted[..i]) <= Records(commits, caseId)
    ensures Elements(broken) == Malformed(commits, caseId) + LeftOut(commits, caseId, sorted[..i])
    ensures DistinctSequences(Records(commits, caseId)) ==> IsOnlyLongest(Records(commits, caseId), sorted[..i])
  {
    Partition(sorted, i);
    NamesOfPart(sorted[i..]);
    assert Elements(sorted[..i]) <= Elements(sorted);
    assert LeftOut(commits, caseId, sorted[..i]) == Elements(NamesOf(sorted[i..])) by {
      forall r ensures r in sorted[i..] <==> r in Records(commits, caseId) && r !in sorted[..i] {
        assert r in sorted <==> r in Elements(sorted);
      }
    }
    ElementsOfSum(NamesOf(sorted[i..]), malformed);
    if broken == [] {
      assert |NamesOf(sorted[i..])| == 0 && malformed == [];
      assert i == |sorted| && sorted[..i] == sorted;
      assert IsChain(commits, caseId, sorted);
    } else {
      assert malformed != [] ==> malformed[0] in Elements(malformed);
      forall chain ensures !IsChain(commits, caseId, chain) {
        if IsChain(commits, caseId, chain) {
          NoOtherArrangement(sorted, chain);
          if i < |sorted| {
            LinkCarriesOver(sorted, chain, i);
          }
          assert false;
        }
      }
    }
    if DistinctSequences(Records(commits, caseId)) {
      forall a, b | 0 <= a < b < |sorted| ensures BySequence(sorted[a]) != BySequence(sorted[b]) {
        assert sorted[a] in Elements(sorted) && sorted[b] in Elements(sorted);
      }
      forall r | r in sorted ensures r.body.sequence >= 1 {
        assert r in Records(commits, caseId);
      }
      forall chain | Linked(chain) && Elements(chain) <= Records(commits, caseId) ensures chain <= sorted[..i] {
        PrefixIsLongest(sorted, i, chain);
      }
    }
  }

  // ---------------------------------------------------------------- growth

  /** The final files of the directory: all the chain loader looks at. */
  function Finals(commits: Commits): Commits {
    map n | n in commits && IsFinal(n) :: commits[n]
  }

  lemma OnlyFinalsMatter(before: Commits, after: Commits, caseId: Id)
    requires Finals(before) == Finals(after)
    ensures Records(before, caseId) == Records(after, caseId)
    ensures Malformed(before, caseId) == Malformed(after, caseId)
  {
    FinalsOf(before, caseId);
    FinalsOf(after, caseId);
  }

  lemma FinalsOf(commits: Commits, caseId: Id)
    ensures Records(Finals(commits), caseId) == Records(commits, caseId)
    ensures Malformed(Finals(commits), caseId) == Malformed(commits, caseId)
  {
    forall n | n in commits && IsFinal(n) ensures n in Finals(commits) && Finals(commits)[n] == commits[n] {
    }
  }

  /** The record that continues a chain. */
  predicate Continues(chain: seq<CommitRecord>, r: CommitRecord) {
    && r.body.sequence == |chain| + 1
    && r.body.parent == if chain == [] then NoParent else ParentCommit(chain[|chain| - 1].commitId)
  }

  lemma LinkedAppend(chain: seq<CommitRecord>, r: CommitRecord)
    requires Linked(chain) && Continues(chain, r)
    ensures Linked(chain + [r])
  {
    var longer := chain + [r];
    forall k | 0 <= k < |longer| ensures LinksAt(longer, k) {
      assert k < |chain| ==> LinksAt(chain, k);
    }
  }

  /** One more record file with its own name continues the chain, whatever happened to temporary files. */
  lemma ChainGrows(before: Commits, after: Commits, caseId: Id, chain: seq<CommitRecord>, r: CommitRecord)
    requires IsChain(before, caseId, chain) && RecordValid(r, caseId) && Continues(chain, r)
    requires Finals(after) == Finals(before)[NameOf(r) := CanonicalRecord(r)]
    ensures IsChain(after, caseId, chain + [r])
  {
    FinalsOf(before, caseId);
    FinalsOf(after, caseId);
    LinkedAppend(chain, r);
    ElementsOfSum(chain, [r]);
    FreshName(before, caseId, chain, r);
    AddRecord(Finals(before), caseId, r);
  }

  lemma AddRecord(commits: Commits, caseId: Id, r: CommitRecord)
    requires RecordValid(r, caseId) && NameOf(r) !in commits
    ensures var after := commits[NameOf(r) := CanonicalRecord(r)];
      && Records(after, caseId) == Records(commits, caseId) + {r}
      && Malformed(after, caseId) == Malformed(commits, caseId)
  {
    var after := commits[NameOf(r) := CanonicalRecord(r)];
    assert RecordIn(caseId, NameOf(r), after[NameOf(r)]) == Some(r);
    forall n | n in commits ensures n in after && after[n] == commits[n] {
    }
    forall x | x in Records(after, caseId) && x != r ensures x in Records(commits, caseId) {
      var n :| n in after && IsFinal(n) && RecordIn(caseId, n, after[n]) == Some(x);
      assert n in commits;
    }
    forall x | x in Records(commits, caseId) ensures x in Records(after, caseId) {
      var n :| n in commits && IsFinal(n) && RecordIn(caseId, n, commits[n]) == Some(x);
      assert n in after;
    }
  }

  /** The next record's file cannot exist yet: sequence |chain| + 1 is not taken and nothing is malformed. */
  lemma FreshName(commits: Commits, caseId: Id, chain: seq<CommitRecord>, r: CommitRecord)
    requires IsChain(commits, caseId, chain) && Continues(chain, r)
    ensures NameOf(r) !in commits && NameOf(r) !in Finals(commits)
  {
    var n := NameOf(r);
    if n in commits {
      assert n !in Malformed(commits, caseId);
      var other := RecordIn(caseId, n, commits[n]).value;
      assert other in Records(commits, caseId);
      assert other in Elements(chain);
      var k := AtIndex(chain, other);
      LinkedSequence(chain, k);
      assert false;
    }
  }

  /** A commit id occurs at one place of a chain, because the sequence is part of what it digests. */
  lemma CommitIdsAreUnique(chain: seq<CommitRecord>, caseId: Id, i: nat, j: nat)
    requires Linked(chain) && i < |chain| && j < |chain| && chain[i].commitId == chain[j].commitId
    requires RecordValid(chain[i], caseId) && RecordValid(chain[j], caseId)
    ensures i == j
  {
    LinkedSequence(chain, i);
    LinkedSequence(chain, j);
  }

  lemma ChainIdsDiffer(commits: Commits, caseId: Id, chain: seq<CommitRecord>)
    requires Linked(chain) && Elements(chain) <= Records(commits, caseId)
    ensures NoRepeats(seq(|chain|, i requires 0 <= i < |chain| => chain[i].commitId))
  {
    forall i, j | 0 <= i < j < |chain| ensures chain[i].commitId != chain[j].commitId {
      assert chain[i] in Records(commits, caseId) && chain[j] in Records(commits, caseId);
      if chain[i].commitId == chain[j].commitId {
        CommitIdsAreUnique(chain, caseId, i, j);
      }
    }
  }
}
