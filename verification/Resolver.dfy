/** The target resolver: which boot chain the evidence of a case supports, and whether it may be acted on. */
module Resolver {
  import opened Domain
  import opened Collections
  import Replay

  // ---------------------------------------------------------------- evidence

  datatype TargetKind = FirmwareTarget | DiskTarget | PartitionTarget | WindowsTarget | BootStoreTarget | OtherTarget

  /** Locators of the running system; drive letters are compared without case. */
  datatype Machine = Machine(
    id: Id, kind: TargetKind, letter: Option<nat>, diskNumber: Option<int>, gptLocator: bool)

  /** Firmware modes are compared as lower-case words: "bios" and "legacy" are two of them. */
  datatype ModeWord = UefiWord | BiosWord | LegacyWord | OtherWord(word: nat)

  datatype PartitionFacts = PartitionFacts(espGuid: bool, espName: bool, diskNumber: Option<int>)

  datatype LockWord = LockedWord | InaccessibleWord | UnlockedWord | NoLockWord

  datatype BitLockerFacts = Undecodable | BitLockerFacts(status: LockWord, protection: LockWord)

  datatype HealthWord = NoHealthWord | UnknownHealth | HealthyWord | FailureWord | OtherHealth

  datatype HealthRecord = HealthRecord(health: HealthWord, operational: HealthWord)

  /** A decoded piece of evidence about one target. */
  datatype EvidenceView = EvidenceView(
    evidenceId: Id, target: Id, related: seq<Id>, modes: seq<ModeWord>, partition: Option<PartitionFacts>,
    gptDisk: bool,
    bitLocker: Option<BitLockerFacts>, health: seq<HealthRecord>)

  datatype CaseEvidence = CaseEvidence(targets: seq<Machine>, views: seq<EvidenceView>)

  function MachineKey(t: Machine): Id { t.id }

  predicate IsKind(e: CaseEvidence, id: Id, kind: TargetKind) {
    exists t | t in e.targets :: t.id == id && t.kind == kind
  }

  function OfKind(targets: seq<Machine>, kind: TargetKind): (r: seq<Machine>)
    ensures forall t :: t in r <==> t in targets && t.kind == kind
  {
    if targets == [] then []
    else
      var n := |targets| - 1;
      assert forall t :: t in targets <==> t in targets[..n] || t == targets[n];
      OfKind(targets[..n], kind) + (if targets[n].kind == kind then [targets[n]] else [])
  }

  // ---------------------------------------------------------------- topology

  datatype FirmwareMode = Uefi | Bios | UnknownMode | ConflictingMode

  datatype Confidence = Proven | StrongInference | RuntimeOnly | AmbiguousConfidence | UnknownConfidence

  datatype Role = WindowsRole | WindowsPartitionRole | SystemDiskRole | EspRole | BcdRole | FirmwareRole

  /** A candidate's id is made of its role and its target. */
  datatype Candidate = Candidate(role: Role, target: Id, confidence: Confidence)

  datatype RelationKind = Contains | HostsWindows | HostsEsp | ContainsBcd | BootStoreForWindows

  /** A relation's id is made of its kind and its two ends. */
  datatype Relation = Relation(kind: RelationKind, from: Id, to: Id, confidence: Confidence)

  datatype Source = Automatic | ByTechnician

  datatype Selection =
    | NoSelection
    | Selection(source: Source, windows: Id, partition: Id, disk: Id, esp: Id, bcd: Option<Id>)

  /** A technician may leave any role open. */
  datatype TechnicianSelection = TechnicianSelection(
    windows: Option<Id>, partition: Option<Id>, disk: Option<Id>, esp: Option<Id>, bcd: Option<Id>)

  datatype Ambiguity =
    | FirmwareConflictA | SystemDiskUnresolvedA | WindowsPartitionUnresolvedA | EspAmbiguousA | BcdMissingA
    | BcdAmbiguousA | BitLockerInaccessibleA | BitLockerUnknownA | HealthUnknownA | HealthUnsafeA
    | UnsupportedLayoutA | EspCrossDiskA | EspUnreadableA | BcdUnreadableA | HealthWarningA

  datatype Blocker =
    | FirmwareUnknownB | FirmwareConflictB | FirmwareNotUefiB | DiskNotGptB | WindowsMissingB | WindowsAmbiguousB
    | WindowsPartitionUnresolvedB | SystemDiskUnresolvedB | EspMissingB | EspAmbiguousB | BcdMissingB | BcdAmbiguousB
    | BitLockerInaccessibleB | BitLockerUnknownB | HealthUnsafeB | HealthUnknownB | EvidenceIncompleteB
    | RelationRuntimeOnlyB | UnsupportedLayoutB | SelectionRequiredB

  datatype Topology = Topology(
    mode: FirmwareMode, candidates: seq<Candidate>, relations: seq<Relation>, selection: Selection,
    ambiguities: seq<Ambiguity>, healthLimitation: bool, eligible: bool, blockers: set<Blocker>)

  // ---------------------------------------------------------------- relations between targets

  function PartitionsIn(e: CaseEvidence, views: seq<EvidenceView>, target: Id): set<Id> {
    set v, id | v in views && v.target == target && id in v.related && IsKind(e, id, PartitionTarget) :: id
  }

  function DisksIn(e: CaseEvidence, views: seq<EvidenceView>, partition: Id): set<Id> {
    (set v, id | v in views && v.target == partition && id in v.related && IsKind(e, id, DiskTarget) :: id) +
    (set v, t | v in views && v.target == partition && t in e.targets && NumberedDisk(v, t) :: t.id)
  }

  /** Partitions that evidence about a target relates to it. */
  function RelatedPartitions(e: CaseEvidence, target: Id): set<Id> {
    PartitionsIn(e, e.views, target)
  }

  /** Disks that evidence about a partition relates to it, by reference or by disk number. */
  function RelatedDisks(e: CaseEvidence, partition: Id): set<Id> {
    DisksIn(e, e.views, partition)
  }

  predicate NumberedDisk(v: EvidenceView, t: Machine) {
    && t.kind.DiskTarget? && v.partition.Some? && v.partition.value.diskNumber.Some?
    && t.diskNumber == v.partition.value.diskNumber
  }

  function LetterOf(e: CaseEvidence, id: Id): Option<nat> {
    match FirstWith(e.targets, MachineKey, id)
    case None => None
    case Some(t) => t.letter
  }

  /** Both ends carry the same drive letter: the link holds for the running system only. */
  predicate LetterOnly(e: CaseEvidence, from: Id, to: Id) {
    LetterOf(e, from).Some? && LetterOf(e, from) == LetterOf(e, to)
  }

  predicate DiskIsGpt(e: CaseEvidence, disk: Id) {
    || (exists v | v in e.views :: v.target == disk && v.gptDisk)
    || (exists t | t in e.targets :: t.id == disk && t.gptLocator)
  }

  function LinkConfidence(e: CaseEvidence, target: Id, partition: Id): Confidence {
    if LetterOnly(e, target, partition) then RuntimeOnly else StrongInference
  }

  /** How well a partition is known to be an EFI system partition, if at all. */
  function EspConfidence(e: CaseEvidence, partition: Id): Option<Confidence> {
    if exists v | v in e.views :: v.target == partition && v.partition.Some? && v.partition.value.espGuid then
      Some(Proven)
    else if exists v | v in e.views :: v.target == partition && v.partition.Some? && v.partition.value.espName then
      Some(AmbiguousConfidence)
    else None
  }

  // ---------------------------------------------------------------- what is resolved, as sets

  predicate Installed(e: CaseEvidence, w: Id, partition: Id) {
    IsKind(e, w, WindowsTarget) && RelatedPartitions(e, w) == {partition}
  }

  predicate OnDisk(e: CaseEvidence, partition: Id, disk: Id) {
    RelatedDisks(e, partition) == {disk}
  }

  /** Two Windows installations claim the same partition, or their partitions the same disk. */
  predicate Shared(e: CaseEvidence, a: Machine, b: Machine) {
    && a in e.targets && b in e.targets && a.id != b.id && a.kind.WindowsTarget? && b.kind.WindowsTarget?
    && |RelatedPartitions(e, a.id)| == 1 && |RelatedPartitions(e, b.id)| == 1
    && exists p, q | p in RelatedPartitions(e, a.id) && q in RelatedPartitions(e, b.id) ::
         p == q || (|RelatedDisks(e, p)| == 1 && RelatedDisks(e, p) == RelatedDisks(e, q))
  }

  predicate SomethingShared(e: CaseEvidence) {
    exists a, b | a in e.targets && b in e.targets :: Shared(e, a, b)
  }

  predicate DistinctBy<T, K(==)>(s: seq<T>, key: T -> K) {
    forall i, j | 0 <= i < j < |s| :: key(s[i]) != key(s[j])
  }

  function CandidateId(c: Candidate): (Role, Id) { (c.role, c.target) }

  function RelationId(r: Relation): (RelationKind, Id, Id) { (r.kind, r.from, r.to) }

  /** Candidate and relation ids occur once, as the topology validator demands. */
  predicate UniqueIds(candidates: seq<Candidate>, relations: seq<Relation>) {
    DistinctBy(candidates, CandidateId) && DistinctBy(relations, RelationId)
  }

  predicate Apart<T(==), K(==)>(a: seq<T>, b: seq<T>, key: T -> K) {
    forall x, y | x in a && y in b :: key(x) != key(y)
  }

  lemma ApartSum<T, K>(a: seq<T>, b: seq<T>, c: seq<T>, key: T -> K)
    ensures Apart(a + b, c, key) <==> Apart(a, c, key) && Apart(b, c, key)
  {
    if Apart(a + b, c, key) {
      forall x, y | (x in a || x in b) && y in c ensures key(x) != key(y) {
        assert x in a + b;
      }
    }
  }

  lemma DistinctSum<T, K>(a: seq<T>, b: seq<T>, key: T -> K)
    ensures DistinctBy(a + b, key) <==> DistinctBy(a, key) && DistinctBy(b, key) && Apart(a, b, key)
  {
    var s := a + b;
    if DistinctBy(s, key) {
      forall i, j | 0 <= i < j < |a| ensures key(a[i]) != key(a[j]) {
        assert s[i] == a[i] && s[j] == a[j];
      }
      forall i, j | 0 <= i < j < |b| ensures key(b[i]) != key(b[j]) {
        assert s[|a| + i] == b[i] && s[|a| + j] == b[j];
      }
      forall x, y | x in a && y in b ensures key(x) != key(y) {
        var i :| 0 <= i < |a| && a[i] == x;
        var j :| 0 <= j < |b| && b[j] == y;
        assert s[i] == x && s[|a| + j] == y;
      }
    }
  }

  // ---------------------------------------------------------------- firmware, BitLocker, health

  function ModeOf(words: set<ModeWord>): FirmwareMode {
    if words == {} then UnknownMode
    else if words == {UefiWord} then Uefi
    else if words == {BiosWord} || words == {LegacyWord} then Bios
    else if |words| == 1 then UnknownMode
    else ConflictingMode
  }

  function ModeWords(e: CaseEvidence): set<ModeWord> {
    set v, w | v in e.views && IsKind(e, v.target, FirmwareTarget) && w in v.modes :: w
  }

  function FirmwareBlockers(mode: FirmwareMode): set<Blocker> {
    match mode
    case UnknownMode => {FirmwareUnknownB}
    case ConflictingMode => {FirmwareConflictB}
    case Bios => {FirmwareNotUefiB, UnsupportedLayoutB}
    case Uefi => {}
  }

  datatype LockState = Safe | Inaccessible | UnknownLock

  function LockStateOf(f: BitLockerFacts): LockState {
    match f
    case Undecodable => UnknownLock
    case BitLockerFacts(status, protection) =>
      if status.LockedWord? || protection.LockedWord? || status.InaccessibleWord? || protection.InaccessibleWord? then
        Inaccessible
      else if status.UnlockedWord? || protection.UnlockedWord? then Safe
      else UnknownLock
  }

  datatype HealthClass = Healthy | UnknownClass | Unsafe

  /** An unknown status hides a failure reported beside it in the same record. */
  function ClassifyHealth(r: HealthRecord): HealthClass {
    if (r.health.NoHealthWord? && r.operational.NoHealthWord?) || r.health.UnknownHealth?
       || r.operational.UnknownHealth?
    then UnknownClass
    else if r.health.FailureWord? || r.operational.FailureWord? then Unsafe
    else if r.health.HealthyWord? || r.operational.HealthyWord? then Healthy
    else UnknownClass
  }

  // ---------------------------------------------------------------- selection

  predicate HasRelation(relations: seq<Relation>, kind: RelationKind, from: Id, to: Id) {
    exists r | r in relations ::
      r.kind == kind && r.from == from && r.to == to && !r.confidence.AmbiguousConfidence?
      && !r.confidence.UnknownConfidence?
  }

  /** Windows on its partition, the partition and the ESP on the disk, the BCD store on the ESP. */
  predicate Connected(relations: seq<Relation>, s: Selection)
    requires s.Selection?
  {
    && HasRelation(relations, HostsWindows, s.partition, s.windows)
    && HasRelation(relations, Contains, s.disk, s.partition)
    && HasRelation(relations, HostsEsp, s.disk, s.esp)
    && (s.bcd.Some? ==> HasRelation(relations, ContainsBcd, s.esp, s.bcd.value))
  }

  /** A technician's selection is complete, of the right kinds, on a GPT disk and connected. */
  predicate TechnicianValid(e: CaseEvidence, relations: seq<Relation>, t: TechnicianSelection) {
    && t.windows.Some? && t.partition.Some? && t.disk.Some? && t.esp.Some?
    && IsKind(e, t.windows.value, WindowsTarget) && IsKind(e, t.partition.value, PartitionTarget)
    && IsKind(e, t.disk.value, DiskTarget) && IsKind(e, t.esp.value, PartitionTarget)
    && (t.bcd.Some? ==> IsKind(e, t.bcd.value, BootStoreTarget))
    && DiskIsGpt(e, t.disk.value)
    && Connected(relations,
                 Selection(ByTechnician, t.windows.value, t.partition.value, t.disk.value, t.esp.value, t.bcd))
  }

  function FilterRole(candidates: seq<Candidate>, role: Role): (r: seq<Candidate>)
    ensures forall c :: c in r <==> c in candidates && c.role == role
  {
    if candidates == [] then []
    else
      var n := |candidates| - 1;
      assert forall c :: c in candidates <==> c in candidates[..n] || c == candidates[n];
      FilterRole(candidates[..n], role) + (if candidates[n].role == role then [candidates[n]] else [])
  }

  datatype Choice = Choice(selection: Selection, blockers: set<Blocker>, ambiguities: seq<Ambiguity>)

  /** `applySelection` without a technician: the one chain there is, or why there is none. */
  function ChooseAutomatically(e: CaseEvidence, mode: FirmwareMode, windows: seq<Candidate>, esps: seq<Candidate>,
                               bcds: seq<Candidate>, relations: seq<Relation>): Choice
  {
    var ws, ps, ds := FilterRole(windows, WindowsRole), FilterRole(windows, WindowsPartitionRole),
                      FilterRole(windows, SystemDiskRole);
    if !mode.Uefi? then Choice(NoSelection, {SelectionRequiredB}, [])
    else if |ws| != 1 then Choice(NoSelection, {}, [])
    else if ps == [] || ds == [] then Choice(NoSelection, {WindowsPartitionUnresolvedB}, [])
    else if !DiskIsGpt(e, ds[0].target) then Choice(NoSelection, {DiskNotGptB}, [])
    else if |esps| != 1 then Choice(NoSelection, {}, [])
    else if |bcds| > 1 then Choice(NoSelection, {BcdAmbiguousB}, [])
    else if exists r | r in relations :: r.confidence.AmbiguousConfidence? then
      Choice(NoSelection, {EvidenceIncompleteB}, [])
    else
      var s := Selection(Automatic, ws[0].target, ps[0].target, ds[0].target, esps[0].target,
                         if bcds == [] then None else Some(bcds[0].target));
      if Connected(relations, s) then Choice(s, {}, [])
      else Choice(NoSelection, {UnsupportedLayoutB}, [UnsupportedLayoutA])
  }

  lemma AutomaticSource(e: CaseEvidence, mode: FirmwareMode, windows: seq<Candidate>, esps: seq<Candidate>,
                        bcds: seq<Candidate>, relations: seq<Relation>)
    ensures var s := ChooseAutomatically(e, mode, windows, esps, bcds, relations).selection;
      s.Selection? ==> s.source.Automatic?
  {
    hide DiskIsGpt, Connected, FilterRole;
  }

  predicate Selects(s: Selection, id: Id) {
    s.Selection? && (id == s.windows || id == s.partition || id == s.disk || id == s.esp || Some(id) == s.bcd)
  }

  predicate RuntimeOnlySelected(relations: seq<Relation>, s: Selection) {
    exists r | r in relations :: r.confidence.RuntimeOnly? && (Selects(s, r.from) || Selects(s, r.to))
  }

  // ---------------------------------------------------------------- one installation at a time

  lemma SingletonSet(s: set<Id>, x: Id)
    requires |s| == 1 && x in s
    ensures s == {x}
  {
    assert |s - {x}| == 0;
    assert s == {x} + (s - {x});
  }

  function The(s: set<Id>): (x: Id)
    requires |s| == 1
    ensures s == {x}
  {
    assert s != {};
    assert forall a, b | a in s && b in s :: a == b by {
      forall a, b | a in s && b in s ensures a == b {
        SingletonSet(s, a);
      }
    }
    var x :| x in s;
    SingletonSet(s, x);
    x
  }

  /** The candidates an installation gives rise to: itself, its partition and its disk, as far as they are unique. */
  function WindowsCandidates(e: CaseEvidence, w: Id): seq<Candidate> {
    [Candidate(WindowsRole, w, StrongInference)] +
    if |RelatedPartitions(e, w)| != 1 then []
    else
      var p := The(RelatedPartitions(e, w));
      [Candidate(WindowsPartitionRole, p, LinkConfidence(e, w, p))] +
      if |RelatedDisks(e, p)| != 1 then []
      else [Candidate(SystemDiskRole, The(RelatedDisks(e, p)), StrongInference)]
  }

  function WindowsRelations(e: CaseEvidence, w: Id): seq<Relation> {
    if |RelatedPartitions(e, w)| != 1 then []
    else
      var p := The(RelatedPartitions(e, w));
      [Relation(HostsWindows, p, w, LinkConfidence(e, w, p))] +
      if |RelatedDisks(e, p)| != 1 then []
      else [Relation(Contains, The(RelatedDisks(e, p)), p, StrongInference)]
  }

  function AllWindowsCandidates(e: CaseEvidence, ws: seq<Machine>): seq<Candidate> {
    if ws == [] then []
    else AllWindowsCandidates(e, ws[..|ws| - 1]) + WindowsCandidates(e, ws[|ws| - 1].id)
  }

  function AllWindowsRelations(e: CaseEvidence, ws: seq<Machine>): seq<Relation> {
    if ws == [] then []
    else AllWindowsRelations(e, ws[..|ws| - 1]) + WindowsRelations(e, ws[|ws| - 1].id)
  }

  /** Two installations lead to the same partition or the same disk. */
  predicate Clash(e: CaseEvidence, a: Id, b: Id) {
    && |RelatedPartitions(e, a)| == 1 && |RelatedPartitions(e, b)| == 1
    && var p, q := The(RelatedPartitions(e, a)), The(RelatedPartitions(e, b));
       p == q || (|RelatedDisks(e, p)| == 1 && |RelatedDisks(e, q)| == 1
                  && The(RelatedDisks(e, p)) == The(RelatedDisks(e, q)))
  }

  lemma OwnCandidatesDistinct(e: CaseEvidence, w: Id)
    ensures DistinctBy(WindowsCandidates(e, w), CandidateId) && DistinctBy(WindowsRelations(e, w), RelationId)
  {
    hide RelatedPartitions, RelatedDisks, LinkConfidence, The;
  }

  lemma OverlapIsClash(e: CaseEvidence, a: Id, b: Id)
    requires a != b
    ensures Apart(WindowsCandidates(e, a), WindowsCandidates(e, b), CandidateId) <==> !Clash(e, a, b)
    ensures !Clash(e, a, b) ==> Apart(WindowsRelations(e, a), WindowsRelations(e, b), RelationId)
  {
    hide RelatedPartitions, RelatedDisks, LinkConfidence;
    var xs, ys := WindowsCandidates(e, a), WindowsCandidates(e, b);
    if Clash(e, a, b) {
      if The(RelatedPartitions(e, a)) == The(RelatedPartitions(e, b)) {
        assert xs[1] in xs && ys[1] in ys && CandidateId(xs[1]) == CandidateId(ys[1]);
      } else {
        assert xs[2] in xs && ys[2] in ys && CandidateId(xs[2]) == CandidateId(ys[2]);
      }
    }
  }

  predicate NoClash(e: CaseEvidence, ws: seq<Machine>) {
    forall i, j | 0 <= i < j < |ws| :: !Clash(e, ws[i].id, ws[j].id)
  }

  predicate ClashesWithNone(e: CaseEvidence, ws: seq<Machine>, w: Id) {
    forall x | x in ws :: !Clash(e, x.id, w)
  }

  lemma ClashesWithNoneNext(e: CaseEvidence, ws: seq<Machine>, w: Id)
    requires ws != []
    ensures var n := |ws| - 1;
      ClashesWithNone(e, ws, w) <==> ClashesWithNone(e, ws[..n], w) && !Clash(e, ws[n].id, w)
  {
    hide Clash;
    var n := |ws| - 1;
    forall x ensures x in ws <==> x in ws[..n] || x == ws[n] {
      assert ws == ws[..n] + [ws[n]];
    }
  }

  lemma {:induction false} OverlapWithOne(e: CaseEvidence, ws: seq<Machine>, w: Id)
    requires forall x | x in ws :: x.id != w
    ensures Apart(AllWindowsCandidates(e, ws), WindowsCandidates(e, w), CandidateId) <==> ClashesWithNone(e, ws, w)
    ensures ClashesWithNone(e, ws, w) ==> Apart(AllWindowsRelations(e, ws), WindowsRelations(e, w), RelationId)
  {
    if ws != [] {
      hide Clash, WindowsCandidates, WindowsRelations, Apart, ClashesWithNone;
      var n := |ws| - 1;
      OverlapWithOne(e, ws[..n], w);
      OverlapIsClash(e, ws[n].id, w);
      ClashesWithNoneNext(e, ws, w);
      ApartSum(AllWindowsCandidates(e, ws[..n]), WindowsCandidates(e, ws[n].id), WindowsCandidates(e, w), CandidateId);
      ApartSum(AllWindowsRelations(e, ws[..n]), WindowsRelations(e, ws[n].id), WindowsRelations(e, w), RelationId);
    }
  }

  /** Over all installations, ids repeat exactly where two of them clash. */
  lemma {:induction false} DistinctUnlessClash(e: CaseEvidence, ws: seq<Machine>)
    requires DistinctOn(ws, MachineKey)
    ensures DistinctBy(AllWindowsCandidates(e, ws), CandidateId) <==> NoClash(e, ws)
    ensures NoClash(e, ws) ==> DistinctBy(AllWindowsRelations(e, ws), RelationId)
  {
    if ws != [] {
      var n := |ws| - 1;
      hide Clash, WindowsCandidates, WindowsRelations, DistinctBy, Apart, ClashesWithNone, NoClash;
      forall x | x in ws[..n] ensures x.id != ws[n].id {
        var i :| 0 <= i < n && ws[i] == x;
        assert MachineKey(ws[i]) != MachineKey(ws[n]);
      }
      assert DistinctOn(ws[..n], MachineKey);
      DistinctUnlessClash(e, ws[..n]);
      OverlapWithOne(e, ws[..n], ws[n].id);
      OwnCandidatesDistinct(e, ws[n].id);
      DistinctSum(AllWindowsCandidates(e, ws[..n]), WindowsCandidates(e, ws[n].id), CandidateId);
      DistinctSum(AllWindowsRelations(e, ws[..n]), WindowsRelations(e, ws[n].id), RelationId);
      NoClashNext(e, ws);
    }
  }

  lemma NoClashNext(e: CaseEvidence, ws: seq<Machine>)
    requires ws != []
    ensures var n := |ws| - 1;
      NoClash(e, ws) <==> NoClash(e, ws[..n]) && ClashesWithNone(e, ws[..n], ws[n].id)
  {
    hide Clash;
    var n := |ws| - 1;
    if NoClash(e, ws) {
      forall x | x in ws[..n] ensures !Clash(e, x.id, ws[n].id) {
        var i :| 0 <= i < n && ws[i] == x;
      }
    }
    if NoClash(e, ws[..n]) && ClashesWithNone(e, ws[..n], ws[n].id) {
      forall i, j | 0 <= i < j < |ws| ensures !Clash(e, ws[i].id, ws[j].id) {
        assert ws[..n][i] == ws[i];
        assert j < n ==> ws[..n][j] == ws[j];
      }
    }
  }

  lemma ClashIsShared(e: CaseEvidence, a: Machine, b: Machine)
    requires a in e.targets && b in e.targets && a.id != b.id && a.kind.WindowsTarget? && b.kind.WindowsTarget?
    ensures Clash(e, a.id, b.id) <==> Shared(e, a, b)
  {
    hide RelatedPartitions, RelatedDisks;
  }

  lemma SharedIffClash(e: CaseEvidence)
    requires DistinctOn(e.targets, MachineKey)
    ensures NoClash(e, OfKind(e.targets, WindowsTarget)) <==> !SomethingShared(e)
  {
    hide Clash, Shared;
    var ws := OfKind(e.targets, WindowsTarget);
    OfKindDistinct(e.targets, WindowsTarget);
    if a, b :| a in e.targets && b in e.targets && Shared(e, a, b) {
      SharedParts(e, a, b);
      ClashIsShared(e, a, b);
      ClashIsShared(e, b, a);
      ClashSymmetric(e, a.id, b.id);
      var i :| 0 <= i < |ws| && ws[i] == a;
      var j :| 0 <= j < |ws| && ws[j] == b;
      assert i < j || j < i;
    }
    if i, j :| 0 <= i < j < |ws| && Clash(e, ws[i].id, ws[j].id) {
      assert ws[i] in ws && ws[j] in ws;
      assert MachineKey(ws[i]) != MachineKey(ws[j]);
      ClashIsShared(e, ws[i], ws[j]);
    }
  }

  lemma SharedParts(e: CaseEvidence, a: Machine, b: Machine)
    requires Shared(e, a, b)
    ensures a in e.targets && b in e.targets && a.id != b.id && a.kind.WindowsTarget? && b.kind.WindowsTarget?
  {
  }

  lemma ClashSymmetric(e: CaseEvidence, a: Id, b: Id)
    ensures Clash(e, a, b) <==> Clash(e, b, a)
  {
    hide RelatedPartitions, RelatedDisks;
  }

  lemma {:induction false} OfKindDistinct(targets: seq<Machine>, kind: TargetKind)
    requires DistinctOn(targets, MachineKey)
    ensures DistinctOn(OfKind(targets, kind), MachineKey)
  {
    if targets != [] {
      var n := |targets| - 1;
      OfKindDistinct(targets[..n], kind);
      var before := OfKind(targets[..n], kind);
      forall i | 0 <= i < |before| ensures MachineKey(before[i]) != MachineKey(targets[n]) {
        assert before[i] in before;
        var k :| 0 <= k < n && targets[k] == before[i];
        assert MachineKey(targets[k]) != MachineKey(targets[n]);
      }
    }
  }

  // ---------------------------------------------------------------- look-ups

  method RelatedPartitionList(e: CaseEvidence, target: Id) returns (ids: seq<Id>)
    ensures NoRepeats(ids) && Elements(ids) == RelatedPartitions(e, target)
  {
    ids := [];
    for i := 0 to |e.views|
      invariant NoRepeats(ids)
      invariant Elements(ids) == PartitionsIn(e, e.views[..i], target)
    {
      var v := e.views[i];
      assert e.views[..i + 1] == e.views[..i] + [v];
      if v.target == target {
        ids := AddRelated(e, ids, v.related, PartitionTarget);
      }
      NextView(e, i, target);
    }
    assert e.views[..|e.views|] == e.views;
  }

  lemma NextView(e: CaseEvidence, i: nat, target: Id)
    requires i < |e.views|
    ensures PartitionsIn(e, e.views[..i + 1], target) == PartitionsIn(e, e.views[..i], target)
            + (if e.views[i].target == target then RelatedOf(e, e.views[i], PartitionTarget) else {})
    ensures DisksIn(e, e.views[..i + 1], target) == DisksIn(e, e.views[..i], target)
            + (if e.views[i].target == target
               then RelatedOf(e, e.views[i], DiskTarget) + NumberedOf(e, e.views[i]) else {})
  {
    hide IsKind, NumberedDisk;
    assert e.views[..i + 1] == e.views[..i] + [e.views[i]];
  }

  function RelatedOf(e: CaseEvidence, v: EvidenceView, kind: TargetKind): set<Id> {
    set id | id in v.related && IsKind(e, id, kind) :: id
  }

  function NumberedOf(e: CaseEvidence, v: EvidenceView): set<Id> {
    set t | t in e.targets && NumberedDisk(v, t) :: t.id
  }

  /** Append the related ids of one kind that are not listed yet. */
  method AddRelated(e: CaseEvidence, ids: seq<Id>, related: seq<Id>, kind: TargetKind) returns (more: seq<Id>)
    requires NoRepeats(ids)
    ensures NoRepeats(more)
    ensures Elements(more) == Elements(ids) + set id | id in related && IsKind(e, id, kind) :: id
  {
    more := ids;
    for i := 0 to |related|
      invariant NoRepeats(more)
      invariant Elements(more) == Elements(ids) + set id | id in related[..i] && IsKind(e, id, kind) :: id
    {
      assert related[..i + 1] == related[..i] + [related[i]];
      if IsKind(e, related[i], kind) && related[i] !in more {
        ElementsOfSum(more, [related[i]]);
        AppendNew(more, related[i]);
        more := more + [related[i]];
      }
    }
    assert related[..|related|] == related;
  }

  method AddNumbered(e: CaseEvidence, ids: seq<Id>, v: EvidenceView) returns (more: seq<Id>)
    requires NoRepeats(ids)
    ensures NoRepeats(more) && Elements(more) == Elements(ids) + NumberedOf(e, v)
  {
    more := ids;
    for i := 0 to |e.targets|
      invariant NoRepeats(more)
      invariant Elements(more) == Elements(ids) + set t | t in e.targets[..i] && NumberedDisk(v, t) :: t.id
    {
      var t := e.targets[i];
      assert e.targets[..i + 1] == e.targets[..i] + [t];
      if NumberedDisk(v, t) && t.id !in more {
        ElementsOfSum(more, [t.id]);
        AppendNew(more, t.id);
        more := more + [t.id];
      }
    }
    assert e.targets[..|e.targets|] == e.targets;
  }

  method RelatedDiskList(e: CaseEvidence, partition: Id) returns (ids: seq<Id>)
    ensures NoRepeats(ids) && Elements(ids) == RelatedDisks(e, partition)
  {
    hide NumberedDisk;
    ids := [];
    for i := 0 to |e.views|
      invariant NoRepeats(ids)
      invariant Elements(ids) == DisksIn(e, e.views[..i], partition)
    {
      var v := e.views[i];
      if v.target == partition {
        ids := AddRelated(e, ids, v.related, DiskTarget);
        ids := AddNumbered(e, ids, v);
      }
      NextView(e, i, partition);
    }
    assert e.views[..|e.views|] == e.views;
  }

  lemma ListSize(ids: seq<Id>, s: set<Id>)
    requires NoRepeats(ids) && Elements(ids) == s
    ensures |ids| == |s| && (|ids| == 1 ==> The(s) == ids[0])
  {
    Replay.DistinctSeqSize(ids);
    if |ids| == 1 {
      assert ids[0] in s;
    }
  }

  // ---------------------------------------------------------------- resolving each role

  /** Several partitions, or none for a drive letter; or one partition on several disks. */
  predicate WindowsAmbiguityOf(e: CaseEvidence, w: Machine, a: Ambiguity) {
    var parts := RelatedPartitions(e, w.id);
    || (a.WindowsPartitionUnresolvedA? && |parts| != 1 && (|parts| > 1 || w.letter.Some?))
    || (a.SystemDiskUnresolvedA? && |parts| == 1 && |RelatedDisks(e, The(parts))| > 1)
  }

  predicate WindowsAmbiguity(e: CaseEvidence, ws: seq<Machine>, a: Ambiguity) {
    exists w | w in ws :: WindowsAmbiguityOf(e, w, a)
  }

  lemma Joined<T>(a: seq<T>, b: seq<T>)
    ensures forall x :: x in a + b <==> x in a || x in b
  {
  }

  lemma NoAmbiguity(e: CaseEvidence)
    ensures forall a :: !WindowsAmbiguity(e, [], a) && !BcdAmbiguity(e, [], a)
  {
  }

  lemma WindowsAmbiguityNext(e: CaseEvidence, ws: seq<Machine>, i: nat, a: Ambiguity)
    requires i < |ws|
    ensures WindowsAmbiguity(e, ws[..i + 1], a) <==> WindowsAmbiguity(e, ws[..i], a) || WindowsAmbiguityOf(e, ws[i], a)
  {
    hide WindowsAmbiguityOf;
    assert ws[..i + 1] == ws[..i] + [ws[i]];
  }

  /** One installation: its candidates and links as far as they are unique, or what is ambiguous about it. */
  method ResolveInstallation(e: CaseEvidence, w: Machine)
    returns (own: seq<Candidate>, links: seq<Relation>, more: seq<Ambiguity>)
    ensures own == WindowsCandidates(e, w.id) && links == WindowsRelations(e, w.id)
    ensures forall a :: a in more <==> WindowsAmbiguityOf(e, w, a)
  {
    hide RelatedPartitions, RelatedDisks, LinkConfidence;
    own, links, more := [Candidate(WindowsRole, w.id, StrongInference)], [], [];
    var parts := RelatedPartitionList(e, w.id);
    ListSize(parts, RelatedPartitions(e, w.id));
    if |parts| == 1 {
      var confidence := LinkConfidence(e, w.id, parts[0]);
      links := [Relation(HostsWindows, parts[0], w.id, confidence)];
      own := own + [Candidate(WindowsPartitionRole, parts[0], confidence)];
      var disks := RelatedDiskList(e, parts[0]);
      ListSize(disks, RelatedDisks(e, parts[0]));
      if |disks| == 1 {
        links := links + [Relation(Contains, disks[0], parts[0], StrongInference)];
        own := own + [Candidate(SystemDiskRole, disks[0], StrongInference)];
      } else if |disks| > 1 {
        more := [SystemDiskUnresolvedA];
      }
    } else if |parts| > 1 || w.letter.Some? {
      more := [WindowsPartitionUnresolvedA];
    }
  }

  /** `resolveWindows`. */
  method ResolveWindows(e: CaseEvidence)
    returns (candidates: seq<Candidate>, relations: seq<Relation>, ambiguities: seq<Ambiguity>)
    ensures candidates == AllWindowsCandidates(e, OfKind(e.targets, WindowsTarget))
    ensures relations == AllWindowsRelations(e, OfKind(e.targets, WindowsTarget))
    ensures forall a :: a in ambiguities <==> WindowsAmbiguity(e, OfKind(e.targets, WindowsTarget), a)
  {
    hide WindowsCandidates, WindowsRelations, WindowsAmbiguity, WindowsAmbiguityOf, OfKind;
    var ws := OfKind(e.targets, WindowsTarget);
    candidates, relations, ambiguities := [], [], [];
    NoAmbiguity(e);
    for i := 0 to |ws|
      invariant candidates == AllWindowsCandidates(e, ws[..i])
      invariant relations == AllWindowsRelations(e, ws[..i])
      invariant forall a :: a in ambiguities <==> WindowsAmbiguity(e, ws[..i], a)
    {
      var w := ws[i];
      forall a
        ensures WindowsAmbiguity(e, ws[..i + 1], a) <==> WindowsAmbiguity(e, ws[..i], a) || WindowsAmbiguityOf(e, w, a)
      {
        WindowsAmbiguityNext(e, ws, i, a);
      }
      assert ws[..i + 1][..i] == ws[..i];
      var own, links, more := ResolveInstallation(e, w);
      Joined(ambiguities, more);
      candidates, relations, ambiguities := candidates + own, relations + links, ambiguities + more;
    }
    assert ws[..|ws|] == ws;
  }

  predicate EspRelation(e: CaseEvidence, r: Relation) {
    && r.kind.HostsEsp? && IsKind(e, r.to, PartitionTarget) && EspConfidence(e, r.to) == Some(r.confidence)
    && r.from in RelatedDisks(e, r.to)
  }

  predicate BcdRelation(e: CaseEvidence, r: Relation) {
    && r.kind.ContainsBcd? && IsKind(e, r.to, BootStoreTarget) && RelatedPartitions(e, r.to) == {r.from}
    && r.confidence == LinkConfidence(e, r.to, r.from)
  }

  function EspCandidates(e: CaseEvidence, parts: seq<Machine>): seq<Candidate> {
    if parts == [] then []
    else
      var p := parts[|parts| - 1].id;
      EspCandidates(e, parts[..|parts| - 1])
      + if EspConfidence(e, p).Some? then [Candidate(EspRole, p, EspConfidence(e, p).value)] else []
  }

  function BcdCandidates(stores: seq<Machine>): seq<Candidate> {
    if stores == [] then []
    else BcdCandidates(stores[..|stores| - 1]) + [Candidate(BcdRole, stores[|stores| - 1].id, StrongInference)]
  }

  predicate FromTargets(r: Relation, targets: seq<Machine>) {
    exists t | t in targets :: t.id == r.to
  }

  lemma IsOfKind(e: CaseEvidence, id: Id, kind: TargetKind)
    ensures IsKind(e, id, kind) <==> exists t | t in OfKind(e.targets, kind) :: t.id == id
  {
  }

  /** `resolveESP`: every candidate partition with one relation for each disk it is related to. */
  method ResolveEsp(e: CaseEvidence)
    returns (candidates: seq<Candidate>, relations: seq<Relation>, ambiguities: seq<Ambiguity>)
    requires DistinctOn(e.targets, MachineKey)
    ensures candidates == EspCandidates(e, OfKind(e.targets, PartitionTarget))
    ensures forall r :: r in relations <==> EspRelation(e, r)
    ensures DistinctBy(relations, RelationId)
    ensures forall a :: a in ambiguities <==> a.EspAmbiguousA? && |candidates| > 1
  {
    hide EspRelation, RelatedDisks, EspConfidence, IsKind, DistinctBy, OfKind;
    var parts := OfKind(e.targets, PartitionTarget);
    OfKindDistinct(e.targets, PartitionTarget);
    candidates, relations, ambiguities := [], [], [];
    EmptyDistinct(RelationId);
    for i := 0 to |parts|
      invariant candidates == EspCandidates(e, parts[..i])
      invariant forall r :: r in relations <==> EspRelation(e, r) && FromTargets(r, parts[..i])
      invariant DistinctBy(relations, RelationId)
    {
      var p := parts[i];
      assert p in parts;
      EspRelationOf(e, p);
      assert parts[..i + 1][..i] == parts[..i] && parts[..i + 1] == parts[..i] + [p];
      NotBefore(parts, i);
      var confidence := EspConfidence(e, p.id);
      if confidence.Some? {
        candidates := candidates + [Candidate(EspRole, p.id, confidence.value)];
        var disks := RelatedDiskList(e, p.id);
        var own := seq(|disks|, k requires 0 <= k < |disks| => Relation(HostsEsp, disks[k], p.id, confidence.value));
        OwnEspRelations(e, p.id, disks, own, confidence.value);
        DistinctSum(relations, own, RelationId);
        relations := relations + own;
      }
    }
    assert parts[..|parts|] == parts;
    forall r | EspRelation(e, r) ensures FromTargets(r, parts) {
      EspRelationTarget(e, r);
    }
    if |candidates| > 1 {
      ambiguities := [EspAmbiguousA];
    }
  }

  lemma EspRelationOf(e: CaseEvidence, p: Machine)
    requires p in OfKind(e.targets, PartitionTarget)
    ensures IsKind(e, p.id, PartitionTarget)
    ensures EspConfidence(e, p.id).None? ==> forall r :: !(EspRelation(e, r) && r.to == p.id)
  {
    hide RelatedDisks, EspConfidence;
    IsOfKind(e, p.id, PartitionTarget);
  }

  lemma EspRelationTarget(e: CaseEvidence, r: Relation)
    requires EspRelation(e, r)
    ensures FromTargets(r, OfKind(e.targets, PartitionTarget))
  {
    hide RelatedDisks, EspConfidence;
    IsOfKind(e, r.to, PartitionTarget);
  }

  lemma EmptyDistinct<T, K>(key: T -> K)
    ensures DistinctBy([], key)
  {
  }

  lemma NotBefore(parts: seq<Machine>, i: nat)
    requires DistinctOn(parts, MachineKey) && i < |parts|
    ensures forall t | t in parts[..i] :: t.id != parts[i].id
  {
    forall t | t in parts[..i] ensures t.id != parts[i].id {
      var k :| 0 <= k < i && parts[k] == t;
      assert MachineKey(parts[k]) != MachineKey(parts[i]);
    }
  }

  lemma OwnEspRelations(e: CaseEvidence, p: Id, disks: seq<Id>, own: seq<Relation>, confidence: Confidence)
    requires NoRepeats(disks) && Elements(disks) == RelatedDisks(e, p)
    requires IsKind(e, p, PartitionTarget) && EspConfidence(e, p) == Some(confidence)
    requires own == seq(|disks|, k requires 0 <= k < |disks| => Relation(HostsEsp, disks[k], p, confidence))
    ensures forall r :: r in own <==> EspRelation(e, r) && r.to == p
    ensures DistinctBy(own, RelationId)
  {
    hide RelatedDisks, EspConfidence, IsKind;
    forall r | EspRelation(e, r) && r.to == p ensures r in own {
      assert r.from in Elements(disks);
      var k :| 0 <= k < |disks| && disks[k] == r.from;
      assert own[k] == r;
    }
    forall r | r in own ensures EspRelation(e, r) && r.to == p {
      var k :| 0 <= k < |own| && own[k] == r;
      assert disks[k] in Elements(disks);
    }
  }

  predicate BcdAmbiguityOf(e: CaseEvidence, t: Machine, a: Ambiguity) {
    var parts := RelatedPartitions(e, t.id);
    (a.BcdMissingA? && |parts| == 0) || (a.BcdAmbiguousA? && |parts| > 1)
  }

  predicate BcdAmbiguity(e: CaseEvidence, stores: seq<Machine>, a: Ambiguity) {
    exists t | t in stores :: BcdAmbiguityOf(e, t, a)
  }

  lemma BcdAmbiguityNext(e: CaseEvidence, stores: seq<Machine>, i: nat, a: Ambiguity)
    requires i < |stores|
    ensures BcdAmbiguity(e, stores[..i + 1], a) <==> BcdAmbiguity(e, stores[..i], a) || BcdAmbiguityOf(e, stores[i], a)
  {
    hide BcdAmbiguityOf;
    assert stores[..i + 1] == stores[..i] + [stores[i]];
  }

  /** One boot store: linked to the one partition it is related to, or ambiguous. */
  method ResolveStore(e: CaseEvidence, t: Machine) returns (links: seq<Relation>, more: seq<Ambiguity>)
    requires t in OfKind(e.targets, BootStoreTarget)
    ensures forall r :: r in links <==> BcdRelation(e, r) && r.to == t.id
    ensures DistinctBy(links, RelationId)
    ensures forall a :: a in more <==> BcdAmbiguityOf(e, t, a)
  {
    hide BcdRelation, OfKind, RelatedPartitions;
    var parts := RelatedPartitionList(e, t.id);
    ListSize(parts, RelatedPartitions(e, t.id));
    OwnBcdRelation(e, t, parts);
    links := if |parts| == 1 then [Relation(ContainsBcd, parts[0], t.id, LinkConfidence(e, t.id, parts[0]))] else [];
    more := if |parts| == 1 then [] else if |parts| == 0 then [BcdMissingA] else [BcdAmbiguousA];
  }

  lemma NextStore(stores: seq<Machine>, i: nat)
    requires DistinctOn(stores, MachineKey) && i < |stores|
    ensures BcdCandidates(stores[..i + 1]) ==
            BcdCandidates(stores[..i]) + [Candidate(BcdRole, stores[i].id, StrongInference)]
    ensures forall r :: FromTargets(r, stores[..i + 1]) <==> FromTargets(r, stores[..i]) || r.to == stores[i].id
    ensures forall r :: FromTargets(r, stores[..i]) ==> r.to != stores[i].id
  {
    assert stores[..i + 1][..i] == stores[..i] && stores[..i + 1] == stores[..i] + [stores[i]];
    NotBefore(stores, i);
  }

  /** `resolveBCD`. */
  method ResolveBcd(e: CaseEvidence)
    returns (candidates: seq<Candidate>, relations: seq<Relation>, ambiguities: seq<Ambiguity>)
    requires DistinctOn(e.targets, MachineKey)
    ensures candidates == BcdCandidates(OfKind(e.targets, BootStoreTarget))
    ensures forall r :: r in relations <==> BcdRelation(e, r)
    ensures DistinctBy(relations, RelationId)
    ensures forall a :: a in ambiguities <==> BcdAmbiguity(e, OfKind(e.targets, BootStoreTarget), a)
  {
    hide BcdRelation, DistinctBy, DistinctOn, OfKind, BcdAmbiguity, BcdAmbiguityOf, BcdCandidates, FromTargets;
    NoAmbiguity(e);
    var stores := OfKind(e.targets, BootStoreTarget);
    OfKindDistinct(e.targets, BootStoreTarget);
    candidates, relations, ambiguities := [], [], [];
    NoStores();
    for i := 0 to |stores|
      invariant candidates == BcdCandidates(stores[..i])
      invariant forall r :: r in relations <==> BcdRelation(e, r) && FromTargets(r, stores[..i])
      invariant DistinctBy(relations, RelationId)
      invariant forall a :: a in ambiguities <==> BcdAmbiguity(e, stores[..i], a)
    {
      var t := stores[i];
      forall a
        ensures BcdAmbiguity(e, stores[..i + 1], a) <==> BcdAmbiguity(e, stores[..i], a) || BcdAmbiguityOf(e, t, a)
      {
        BcdAmbiguityNext(e, stores, i, a);
      }
      NextStore(stores, i);
      candidates := candidates + [Candidate(BcdRole, t.id, StrongInference)];
      var links, more := ResolveStore(e, t);
      DistinctSum(relations, links, RelationId);
      Joined(relations, links);
      Joined(ambiguities, more);
      relations, ambiguities := relations + links, ambiguities + more;
    }
    assert stores[..|stores|] == stores;
    forall r | BcdRelation(e, r) ensures FromTargets(r, stores) {
      BcdRelationTarget(e, r);
    }
  }

  lemma NoStores()
    ensures BcdCandidates([]) == [] && DistinctBy([], RelationId)
    ensures forall r :: !FromTargets(r, [])
  {
  }

  lemma BcdRelationTarget(e: CaseEvidence, r: Relation)
    requires BcdRelation(e, r)
    ensures FromTargets(r, OfKind(e.targets, BootStoreTarget))
  {
    IsOfKind(e, r.to, BootStoreTarget);
  }

  lemma OwnBcdRelation(e: CaseEvidence, t: Machine, parts: seq<Id>)
    requires t in OfKind(e.targets, BootStoreTarget)
    requires NoRepeats(parts) && Elements(parts) == RelatedPartitions(e, t.id)
    ensures forall r :: BcdRelation(e, r) && r.to == t.id <==>
      |parts| == 1 && r == Relation(ContainsBcd, parts[0], t.id, LinkConfidence(e, t.id, parts[0]))
  {
    hide RelatedPartitions, LinkConfidence;
    IsOfKind(e, t.id, BootStoreTarget);
    ListSize(parts, RelatedPartitions(e, t.id));
  }

  function BitLockerBlockers(views: seq<EvidenceView>): set<Blocker> {
    (if exists v | v in views :: v.bitLocker.Some? && LockStateOf(v.bitLocker.value).Inaccessible?
     then {BitLockerInaccessibleB} else {}) +
    (if exists v | v in views :: v.bitLocker.Some? && LockStateOf(v.bitLocker.value).UnknownLock?
     then {BitLockerUnknownB} else {})
  }

  /** `resolveBitLocker`: only a volume known to be unlocked is left uncommented. */
  method ResolveBitLocker(e: CaseEvidence) returns (ambiguities: seq<Ambiguity>, blockers: set<Blocker>)
    ensures blockers == BitLockerBlockers(e.views)
    ensures forall a :: a in ambiguities <==>
      (a.BitLockerInaccessibleA? && BitLockerInaccessibleB in blockers)
          || (a.BitLockerUnknownA? && BitLockerUnknownB in blockers)
  {
    ambiguities, blockers := [], {};
    for i := 0 to |e.views|
      invariant blockers == BitLockerBlockers(e.views[..i])
      invariant forall a :: a in ambiguities <==>
        (a.BitLockerInaccessibleA? && BitLockerInaccessibleB in blockers)
            || (a.BitLockerUnknownA? && BitLockerUnknownB in blockers)
    {
      var v := e.views[i];
      assert e.views[..i + 1] == e.views[..i] + [v];
      if v.bitLocker.Some? {
        match LockStateOf(v.bitLocker.value) {
          case Safe =>
          case Inaccessible =>
            blockers, ambiguities := blockers + {BitLockerInaccessibleB}, ambiguities + [BitLockerInaccessibleA];
          case UnknownLock =>
            blockers, ambiguities := blockers + {BitLockerUnknownB}, ambiguities + [BitLockerUnknownA];
        }
      }
    }
    assert e.views[..|e.views|] == e.views;
  }

  predicate SomeHealth(views: seq<EvidenceView>, c: HealthClass) {
    exists v, r | v in views && r in v.health :: ClassifyHealth(r) == c
  }

  function HealthBlockers(views: seq<EvidenceView>): set<Blocker> {
    if SomeHealth(views, Unsafe) then {HealthUnsafeB}
    else if SomeHealth(views, UnknownClass) || !(exists v | v in views :: v.health != []) then {HealthUnknownB}
    else {}
  }

  /** `resolveHealth`: an unsafe record outweighs an unknown one, and no record at all counts as unknown. */
  method ResolveHealth(e: CaseEvidence) returns (ambiguities: seq<Ambiguity>, limitation: bool, blockers: set<Blocker>)
    ensures blockers == HealthBlockers(e.views)
    ensures limitation <==> HealthUnknownB in blockers
    ensures forall a :: a in ambiguities <==>
      (a.HealthUnsafeA? && HealthUnsafeB in blockers)
      || (a.HealthUnknownA? && HealthUnknownB in blockers && SomeHealth(e.views, UnknownClass))
  {
    hide ClassifyHealth;
    var found, unsafe, unknown := false, false, false;
    for i := 0 to |e.views|
      invariant found <==> exists v | v in e.views[..i] :: v.health != []
      invariant unsafe <==> SomeHealth(e.views[..i], Unsafe)
      invariant unknown <==> SomeHealth(e.views[..i], UnknownClass)
    {
      var v := e.views[i];
      assert e.views[..i + 1] == e.views[..i] + [v];
      if v.health != [] {
        found := true;
        var someUnsafe, someUnknown := ScanHealth(v.health);
        unsafe, unknown := unsafe || someUnsafe, unknown || someUnknown;
      }
    }
    assert e.views[..|e.views|] == e.views;
    ambiguities, limitation, blockers := [], false, {};
    if !found || (unknown && !unsafe) {
      blockers, limitation := {HealthUnknownB}, true;
      if unknown { ambiguities := [HealthUnknownA]; }
    } else if unsafe {
      blockers, ambiguities := {HealthUnsafeB}, [HealthUnsafeA];
    }
  }

  method ScanHealth(records: seq<HealthRecord>) returns (unsafe: bool, unknown: bool)
    ensures unsafe <==> exists r | r in records :: ClassifyHealth(r) == Unsafe
    ensures unknown <==> exists r | r in records :: ClassifyHealth(r) == UnknownClass
  {
    hide ClassifyHealth;
    unsafe, unknown := false, false;
    for i := 0 to |records|
      invariant unsafe <==> exists r | r in records[..i] :: ClassifyHealth(r) == Unsafe
      invariant unknown <==> exists r | r in records[..i] :: ClassifyHealth(r) == UnknownClass
    {
      assert records[..i + 1] == records[..i] + [records[i]];
      match ClassifyHealth(records[i]) {
        case Healthy =>
        case UnknownClass => unknown := true;
        case Unsafe => unsafe := true;
      }
    }
    assert records[..|records|] == records;
  }

  method CollectModes(e: CaseEvidence) returns (words: set<ModeWord>)
    ensures words == ModeWords(e)
  {
    hide IsKind;
    words := {};
    for i := 0 to |e.views|
      invariant words == set v, w | v in e.views[..i] && IsKind(e, v.target, FirmwareTarget) && w in v.modes :: w
    {
      var v := e.views[i];
      assert e.views[..i + 1] == e.views[..i] + [v];
      if IsKind(e, v.target, FirmwareTarget) {
        words := words + Elements(v.modes);
      }
    }
    assert e.views[..|e.views|] == e.views;
  }

  // ---------------------------------------------------------------- blockers

  function Blockers(e: CaseEvidence, mode: FirmwareMode, technician: Option<TechnicianSelection>, choice: Choice,
                    windows: seq<Candidate>, esps: seq<Candidate>, relations: seq<Relation>): set<Blocker>
  {
    choice.blockers + BitLockerBlockers(e.views) + HealthBlockers(e.views) + FirmwareBlockers(mode)
    + (if windows == [] then {WindowsMissingB} else {})
    + (if |FilterRole(windows, WindowsRole)| > 1 && technician.None? then {WindowsAmbiguousB} else {})
    + (if esps == [] then {EspMissingB} else {})
    + (if |esps| > 1 && (technician.None? || technician.value.esp.None?) then {EspAmbiguousB} else {})
    + (if RuntimeOnlySelected(relations, choice.selection) then {RelationRuntimeOnlyB} else {})
  }

  /** The relation is there with proven or strong confidence. */
  predicate StrongRelation(relations: seq<Relation>, kind: RelationKind, from: Id, to: Id) {
    exists r | r in relations ::
      r.kind == kind && r.from == from && r.to == to && (r.confidence.Proven? || r.confidence.StrongInference?)
  }

  /** A UEFI boot chain on a GPT disk, every link of it proven or strongly inferred. */
  predicate ActionableChain(e: CaseEvidence, t: Topology) {
    && t.mode.Uefi? && t.selection.Selection? && DiskIsGpt(e, t.selection.disk)
    && StrongRelation(t.relations, HostsWindows, t.selection.partition, t.selection.windows)
    && StrongRelation(t.relations, Contains, t.selection.disk, t.selection.partition)
    && StrongRelation(t.relations, HostsEsp, t.selection.disk, t.selection.esp)
    && (t.selection.bcd.Some? ==> StrongRelation(t.relations, ContainsBcd, t.selection.esp, t.selection.bcd.value))
  }

  function SelectionOf(t: TechnicianSelection): Selection
    requires t.windows.Some? && t.partition.Some? && t.disk.Some? && t.esp.Some?
  {
    Selection(ByTechnician, t.windows.value, t.partition.value, t.disk.value, t.esp.value, t.bcd)
  }

  function Choose(e: CaseEvidence, mode: FirmwareMode, technician: Option<TechnicianSelection>, windows: seq<Candidate>,
                  esps: seq<Candidate>, bcds: seq<Candidate>, relations: seq<Relation>): Option<Choice>
  {
    match technician
    case None => Some(ChooseAutomatically(e, mode, windows, esps, bcds, relations))
    case Some(t) => if TechnicianValid(e, relations, t) then Some(Choice(SelectionOf(t), {}, [])) else None
  }

  lemma {:induction false} WindowsAmongCandidates(e: CaseEvidence, ws: seq<Machine>)
    ensures forall w | w in ws :: Candidate(WindowsRole, w.id, StrongInference) in AllWindowsCandidates(e, ws)
    ensures forall c | c in AllWindowsCandidates(e, ws) && c.role.WindowsRole? :: exists w | w in ws :: c.target == w.id
    ensures forall c | c in AllWindowsCandidates(e, ws) ::
      c.role.WindowsRole? || c.role.WindowsPartitionRole? || c.role.SystemDiskRole?
    ensures ws == [] <==> AllWindowsCandidates(e, ws) == []
  {
    if ws != [] {
      var n := |ws| - 1;
      hide RelatedPartitions, RelatedDisks, LinkConfidence, The;
      WindowsAmongCandidates(e, ws[..n]);
      assert ws == ws[..n] + [ws[n]];
      assert WindowsCandidates(e, ws[n].id)[0] == Candidate(WindowsRole, ws[n].id, StrongInference);
      assert AllWindowsCandidates(e, ws) == AllWindowsCandidates(e, ws[..n]) + WindowsCandidates(e, ws[n].id);
    }
  }

  /** An unblocked resolution has a selection: each way to none of it is covered by some blocker. */
  lemma UnblockedIsSelected(e: CaseEvidence, mode: FirmwareMode, technician: Option<TechnicianSelection>,
                            windows: seq<Candidate>, esps: seq<Candidate>, bcds: seq<Candidate>,
                            relations: seq<Relation>, choice: Choice)
    requires windows == AllWindowsCandidates(e, OfKind(e.targets, WindowsTarget))
    requires Choose(e, mode, technician, windows, esps, bcds, relations) == Some(choice)
    requires Blockers(e, mode, technician, choice, windows, esps, relations) == {}
    ensures choice.selection.Selection?
  {
    hide Connected, DiskIsGpt, TechnicianValid, Blockers, FilterRole, AllWindowsCandidates, OfKind;
    NoBlockers(e, mode, technician, choice, windows, esps, relations);
    var ws := OfKind(e.targets, WindowsTarget);
    WindowsAmongCandidates(e, ws);
    assert ws[0] in ws;
    assert Candidate(WindowsRole, ws[0].id, StrongInference) in FilterRole(windows, WindowsRole);
  }

  lemma NoBlockers(e: CaseEvidence, mode: FirmwareMode, technician: Option<TechnicianSelection>, choice: Choice,
                   windows: seq<Candidate>, esps: seq<Candidate>, relations: seq<Relation>)
    requires Blockers(e, mode, technician, choice, windows, esps, relations) == {}
    ensures choice.blockers == {} && FirmwareBlockers(mode) == {}
    ensures windows != [] && esps != []
    ensures technician.None? ==> |FilterRole(windows, WindowsRole)| <= 1 && |esps| == 1
    ensures !RuntimeOnlySelected(relations, choice.selection)
  {
    hide BitLockerBlockers, HealthBlockers, FirmwareBlockers, RuntimeOnlySelected, FilterRole;
    var all := Blockers(e, mode, technician, choice, windows, esps, relations);
    assert WindowsMissingB !in all && WindowsAmbiguousB !in all && EspMissingB !in all && EspAmbiguousB !in all;
    assert RelationRuntimeOnlyB !in all;
  }

  lemma StrongUnlessRuntimeOnly(relations: seq<Relation>, s: Selection, kind: RelationKind, from: Id, to: Id)
    requires HasRelation(relations, kind, from, to) && !RuntimeOnlySelected(relations, s)
        && (Selects(s, from) || Selects(s, to))
    ensures StrongRelation(relations, kind, from, to)
  {
  }

  lemma ChosenIsConnected(e: CaseEvidence, mode: FirmwareMode, technician: Option<TechnicianSelection>,
                          windows: seq<Candidate>, esps: seq<Candidate>, bcds: seq<Candidate>, relations: seq<Relation>,
                          choice: Choice)
    requires Choose(e, mode, technician, windows, esps, bcds, relations) == Some(choice) && choice.selection.Selection?
    ensures Connected(relations, choice.selection) && DiskIsGpt(e, choice.selection.disk)
  {
    hide DiskIsGpt, HasRelation, FilterRole;
  }

  /** What an unblocked resolution has selected can be acted on. */
  lemma UnblockedIsActionable(e: CaseEvidence, mode: FirmwareMode, technician: Option<TechnicianSelection>,
                              windows: seq<Candidate>, esps: seq<Candidate>, bcds: seq<Candidate>,
                              relations: seq<Relation>, choice: Choice, t: Topology)
    requires Choose(e, mode, technician, windows, esps, bcds, relations) == Some(choice) && choice.selection.Selection?
    requires Blockers(e, mode, technician, choice, windows, esps, relations) == {}
    requires t.mode == mode && t.selection == choice.selection
    requires forall r :: r in relations <==> r in t.relations
    ensures ActionableChain(e, t)
  {
    hide Blockers, DiskIsGpt, HasRelation, RuntimeOnlySelected, Choose, FilterRole, StrongRelation;
    ChosenIsConnected(e, mode, technician, windows, esps, bcds, relations, choice);
    NoBlockers(e, mode, technician, choice, windows, esps, relations);
    var s := choice.selection;
    StrongUnlessRuntimeOnly(relations, s, HostsWindows, s.partition, s.windows);
    StrongUnlessRuntimeOnly(relations, s, Contains, s.disk, s.partition);
    StrongUnlessRuntimeOnly(relations, s, HostsEsp, s.disk, s.esp);
    StrongEitherWay(relations, t.relations, HostsWindows, s.partition, s.windows);
    StrongEitherWay(relations, t.relations, Contains, s.disk, s.partition);
    StrongEitherWay(relations, t.relations, HostsEsp, s.disk, s.esp);
    if s.bcd.Some? {
      StrongUnlessRuntimeOnly(relations, s, ContainsBcd, s.esp, s.bcd.value);
      StrongEitherWay(relations, t.relations, ContainsBcd, s.esp, s.bcd.value);
    }
  }

  lemma StrongEitherWay(a: seq<Relation>, b: seq<Relation>, kind: RelationKind, from: Id, to: Id)
    requires forall r :: r in a <==> r in b
    ensures StrongRelation(a, kind, from, to) <==> StrongRelation(b, kind, from, to)
  {
  }

  // ---------------------------------------------------------------- the resolver

  predicate HasFirmware(e: CaseEvidence) {
    exists t | t in e.targets :: t.kind.FirmwareTarget?
  }

  /** The links between targets that a selection may use. */
  predicate Linked(e: CaseEvidence, kind: RelationKind, from: Id, to: Id) {
    match kind
    case HostsWindows => Installed(e, to, from)
    case Contains => OnDisk(e, to, from) && exists w | w in e.targets :: Installed(e, w.id, to)
    case HostsEsp =>
      IsKind(e, to, PartitionTarget) && from in RelatedDisks(e, to)
      && EspConfidence(e, to) == Some(Proven)
    case ContainsBcd => IsKind(e, to, BootStoreTarget) && RelatedPartitions(e, to) == {from}
    case BootStoreForWindows => false
  }

  /** Stated on the evidence: when a technician's selection is accepted. */
  predicate TechnicianFits(e: CaseEvidence, t: TechnicianSelection) {
    && t.windows.Some? && t.partition.Some? && t.disk.Some? && t.esp.Some?
    && IsKind(e, t.windows.value, WindowsTarget) && IsKind(e, t.partition.value, PartitionTarget)
    && IsKind(e, t.disk.value, DiskTarget) && IsKind(e, t.esp.value, PartitionTarget)
    && (t.bcd.Some? ==> IsKind(e, t.bcd.value, BootStoreTarget))
    && DiskIsGpt(e, t.disk.value)
    && Linked(e, HostsWindows, t.partition.value, t.windows.value)
    && Linked(e, Contains, t.disk.value, t.partition.value)
    && Linked(e, HostsEsp, t.disk.value, t.esp.value)
    && (t.bcd.Some? ==> Linked(e, ContainsBcd, t.esp.value, t.bcd.value))
  }

  predicate WindowsRelation(e: CaseEvidence, r: Relation) {
    || (r.kind.HostsWindows? && Installed(e, r.to, r.from) && r.confidence == LinkConfidence(e, r.to, r.from))
    || (r.kind.Contains? && r.confidence.StrongInference? && Linked(e, Contains, r.from, r.to))
  }

  lemma OneWindowsRelation(e: CaseEvidence, w: Id, r: Relation)
    ensures r in WindowsRelations(e, w) <==>
      || (r.kind.HostsWindows? && r.to == w && RelatedPartitions(e, w) == {r.from}
          && r.confidence == LinkConfidence(e, w, r.from))
      || (r.kind.Contains? && r.confidence.StrongInference? && RelatedPartitions(e, w) == {r.to}
          && OnDisk(e, r.to, r.from))
  {
    hide RelatedPartitions, RelatedDisks, LinkConfidence;
    var rs := WindowsRelations(e, w);
    SizeOfSingleton(RelatedPartitions(e, w), r.from);
    SizeOfSingleton(RelatedPartitions(e, w), r.to);
    SizeOfSingleton(RelatedDisks(e, r.to), r.from);
    if |RelatedPartitions(e, w)| == 1 {
      assert rs[0].kind.HostsWindows?;
      assert |rs| == 2 ==> rs[1].kind.Contains?;
      assert r in rs <==> r == rs[0] || (|rs| == 2 && r == rs[1]);
    }
  }

  lemma SizeOfSingleton(s: set<Id>, x: Id)
    ensures s == {x} ==> |s| == 1
  {
  }

  predicate FromSome(e: CaseEvidence, ws: seq<Machine>, r: Relation) {
    exists w | w in ws :: r in WindowsRelations(e, w.id)
  }

  lemma FromSomeNext(e: CaseEvidence, ws: seq<Machine>, r: Relation)
    requires ws != []
    ensures var n := |ws| - 1;
      FromSome(e, ws, r) <==> FromSome(e, ws[..n], r) || r in WindowsRelations(e, ws[n].id)
  {
    hide WindowsRelations;
    var n := |ws| - 1;
    forall w ensures w in ws <==> w in ws[..n] || w == ws[n] {
      assert ws == ws[..n] + [ws[n]];
    }
  }

  lemma {:induction false} WindowsRelationsAre(e: CaseEvidence, ws: seq<Machine>, r: Relation)
    ensures r in AllWindowsRelations(e, ws) <==> FromSome(e, ws, r)
  {
    if ws != [] {
      var n := |ws| - 1;
      hide WindowsRelations, FromSome;
      WindowsRelationsAre(e, ws[..n], r);
      FromSomeNext(e, ws, r);
    }
  }

  lemma WindowsRelationsExactly(e: CaseEvidence, r: Relation)
    ensures r in AllWindowsRelations(e, OfKind(e.targets, WindowsTarget)) <==> WindowsRelation(e, r)
  {
    hide RelatedPartitions, RelatedDisks, LinkConfidence, WindowsRelations, AllWindowsRelations;
    var ws := OfKind(e.targets, WindowsTarget);
    WindowsRelationsAre(e, ws, r);
    forall w | w in ws
      ensures r in WindowsRelations(e, w.id) <==>
        || (r.kind.HostsWindows? && r.to == w.id && RelatedPartitions(e, w.id) == {r.from}
            && r.confidence == LinkConfidence(e, w.id, r.from))
        || (r.kind.Contains? && r.confidence.StrongInference? && RelatedPartitions(e, w.id) == {r.to}
            && OnDisk(e, r.to, r.from))
    {
      OneWindowsRelation(e, w.id, r);
    }
  }

  ghost predicate ExactRelations(e: CaseEvidence, relations: seq<Relation>) {
    forall r :: r in relations <==> WindowsRelation(e, r) || EspRelation(e, r) || BcdRelation(e, r)
  }

  lemma UsableIffLinked(e: CaseEvidence, relations: seq<Relation>, kind: RelationKind, from: Id, to: Id)
    requires ExactRelations(e, relations)
    ensures HasRelation(relations, kind, from, to) <==> Linked(e, kind, from, to)
  {
    hide RelatedPartitions, RelatedDisks, LetterOnly, IsKind, EspConfidence;
    if Linked(e, kind, from, to) {
      var confidence := match kind
        case HostsWindows => LinkConfidence(e, to, from)
        case Contains => StrongInference
        case HostsEsp => Proven
        case ContainsBcd => LinkConfidence(e, to, from)
        case BootStoreForWindows => Proven;
      assert Relation(kind, from, to, confidence) in relations;
    }
    if HasRelation(relations, kind, from, to) {
      var r :| r in relations && r.kind == kind && r.from == from && r.to == to
               && !r.confidence.AmbiguousConfidence? && !r.confidence.UnknownConfidence?;
      EspIsProvenOrAmbiguous(e, to);
      assert WindowsRelation(e, r) || EspRelation(e, r) || BcdRelation(e, r);
    }
  }

  lemma EspIsProvenOrAmbiguous(e: CaseEvidence, p: Id)
    ensures EspConfidence(e, p).Some? ==>
      EspConfidence(e, p).value.Proven? || EspConfidence(e, p).value.AmbiguousConfidence?
  {
  }

  lemma TechnicianValidIffFits(e: CaseEvidence, relations: seq<Relation>, t: TechnicianSelection)
    requires ExactRelations(e, relations)
    ensures TechnicianValid(e, relations, t) <==> TechnicianFits(e, t)
  {
    hide ExactRelations, HasRelation, Linked, IsKind, DiskIsGpt;
    if t.windows.Some? && t.partition.Some? && t.disk.Some? && t.esp.Some? {
      UsableIffLinked(e, relations, HostsWindows, t.partition.value, t.windows.value);
      UsableIffLinked(e, relations, Contains, t.disk.value, t.partition.value);
      UsableIffLinked(e, relations, HostsEsp, t.disk.value, t.esp.value);
      if t.bcd.Some? {
        UsableIffLinked(e, relations, ContainsBcd, t.esp.value, t.bcd.value);
      }
    }
  }

  /** What every returned topology satisfies. */
  ghost predicate WellResolved(e: CaseEvidence, technician: Option<TechnicianSelection>, t: Topology) {
    && (t.eligible <==> t.blockers == {})
    && (t.selection.Selection? && t.selection.source.Automatic? ==> t.eligible)
    && (technician.None? && !t.eligible ==> t.selection.NoSelection?)
    && (t.eligible ==> ActionableChain(e, t))
    && ExactRelations(e, t.relations) && UniqueIds(t.candidates, t.relations)
    && ModeFits(e, t.mode) && t.mode == ModeOf(ModeWords(e))
    && (forall b :: b in t.blockers <==> Blocks(e, technician, b))
    && (forall a :: a in t.ambiguities <==> LeavesOpen(e, technician, a))
    && (t.healthLimitation <==> Blocks(e, technician, HealthUnknownB))
    && (forall c: Candidate | !c.role.FirmwareRole? :: c in t.candidates <==> Plays(e, c))
    && (forall c | c in t.candidates && c.role.FirmwareRole? :: FirmwareFits(e, t.mode, c))
    && (t.eligible ==> SafeMedia(e.views))
    && (technician.None? ==>
          forall s: Selection | s.Selection? :: AutomaticFits(e, s) <==> t.eligible && t.selection == s)
    && (technician.Some? && TechnicianFits(e, technician.value) ==>
          && t.selection == SelectionOf(technician.value)
          && (t.eligible <==>
                t.mode.Uefi? && SafeMedia(e.views) && !RuntimeOnlySelected(t.relations, t.selection)))
  }

  /** The firmware candidate is as sure as the reported mode. */
  predicate FirmwareFits(e: CaseEvidence, mode: FirmwareMode, c: Candidate) {
    && IsKind(e, c.target, FirmwareTarget)
    && match c.confidence
       case Proven => mode.Uefi? || mode.Bios?
       case AmbiguousConfidence => mode.ConflictingMode?
       case UnknownConfidence => mode.UnknownMode?
       case _ => false
  }

  /** Every BitLocker volume is known to be unlocked, there are health records, and all of them are healthy. */
  predicate SafeMedia(views: seq<EvidenceView>) {
    && (forall v | v in views && v.bitLocker.Some? :: SaysUnlocked(v) && !SaysLocked(v))
    && (exists v | v in views :: v.health != [])
    && (forall v, r | v in views && r in v.health :: SaysHealthy(r))
  }

  lemma SafeMediaIff(views: seq<EvidenceView>)
    ensures BitLockerBlockers(views) == {} && HealthBlockers(views) == {} <==> SafeMedia(views)
  {
    hide ClassifyHealth, LockStateOf, SaysHealthy, SaysFailure, SaysLocked, SaysUnlocked;
    forall v | v in views && v.bitLocker.Some?
      ensures LockStateOf(v.bitLocker.value).Safe? <==> SaysUnlocked(v) && !SaysLocked(v)
    {
      LockStateIs(v);
    }
    forall v, r | v in views && r in v.health ensures ClassifyHealth(r).Healthy? <==> SaysHealthy(r) {
      ClassIs(r);
    }
    if BitLockerBlockers(views) == {} && HealthBlockers(views) == {} {
      assert BitLockerInaccessibleB !in BitLockerBlockers(views) && BitLockerUnknownB !in BitLockerBlockers(views);
      assert HealthUnsafeB !in HealthBlockers(views) && HealthUnknownB !in HealthBlockers(views);
      forall v, r | v in views && r in v.health ensures ClassifyHealth(r).Healthy? {
        assert !SomeHealth(views, Unsafe) && !SomeHealth(views, UnknownClass);
      }
    }
    if SafeMedia(views) {
      assert !SomeHealth(views, Unsafe) && !SomeHealth(views, UnknownClass);
    }
  }

  lemma {:induction false} EspAmongCandidates(e: CaseEvidence, parts: seq<Machine>, p: Machine)
    requires p in parts && EspConfidence(e, p.id).Some?
    ensures EspCandidates(e, parts) != []
  {
    var n := |parts| - 1;
    hide EspConfidence;
    if p != parts[n] {
      assert parts == parts[..n] + [parts[n]];
      EspAmongCandidates(e, parts[..n], p);
    }
  }

  /** With a fitting technician selection, three things remain to be had: UEFI, safe media and lasting links. */
  lemma TechnicianEligibility(e: CaseEvidence, mode: FirmwareMode, t: TechnicianSelection, choice: Choice,
                              windows: seq<Candidate>, esps: seq<Candidate>, relations: seq<Relation>)
    requires TechnicianFits(e, t) && choice == Choice(SelectionOf(t), {}, [])
    requires windows == AllWindowsCandidates(e, OfKind(e.targets, WindowsTarget))
    requires esps == EspCandidates(e, OfKind(e.targets, PartitionTarget))
    ensures Blockers(e, mode, Some(t), choice, windows, esps, relations) == {} <==>
      mode.Uefi? && SafeMedia(e.views) && !RuntimeOnlySelected(relations, choice.selection)
  {
    hide BitLockerBlockers, HealthBlockers, RuntimeOnlySelected, FilterRole, SafeMedia, AllWindowsCandidates,
         EspCandidates, EspConfidence, RelatedPartitions, RelatedDisks, DiskIsGpt, OfKind;
    SafeMediaIff(e.views);
    IsOfKind(e, t.windows.value, WindowsTarget);
    IsOfKind(e, t.esp.value, PartitionTarget);
    WindowsAmongCandidates(e, OfKind(e.targets, WindowsTarget));
    var w :| w in OfKind(e.targets, WindowsTarget) && w.id == t.windows.value;
    var p :| p in OfKind(e.targets, PartitionTarget) && p.id == t.esp.value;
    EspAmongCandidates(e, OfKind(e.targets, PartitionTarget), p);
    var all := Blockers(e, mode, Some(t), choice, windows, esps, relations);
    if all == {} {
      NoBlockers(e, mode, Some(t), choice, windows, esps, relations);
      assert BitLockerBlockers(e.views) <= all && HealthBlockers(e.views) <= all;
    }
  }

  // ---------------------------------------------------------------- what is selected without a technician

  predicate OnlyTarget(e: CaseEvidence, kind: TargetKind, id: Id) {
    IsKind(e, id, kind) && forall t | t in e.targets && t.kind == kind :: t.id == id
  }

  /** `p` is the one partition with any evidence of being an EFI system partition. */
  predicate OnlyEsp(e: CaseEvidence, p: Id) {
    && IsKind(e, p, PartitionTarget) && EspConfidence(e, p).Some?
    && forall t | t in e.targets && t.kind.PartitionTarget? && EspConfidence(e, t.id).Some? :: t.id == p
  }

  /** The only installation on its only partition and disk, a GPT disk, with the only and proven EFI system partition
      and at most one boot store, which must be on that partition. */
  predicate AutomaticChain(e: CaseEvidence, s: Selection) {
    && s.Selection? && s.source.Automatic?
    && OnlyTarget(e, WindowsTarget, s.windows) && OnlyEsp(e, s.esp) && DiskIsGpt(e, s.disk)
    && Linked(e, HostsWindows, s.partition, s.windows)
    && Linked(e, Contains, s.disk, s.partition)
    && Linked(e, HostsEsp, s.disk, s.esp)
    && (s.bcd.Some? ==> OnlyTarget(e, BootStoreTarget, s.bcd.value) && Linked(e, ContainsBcd, s.esp, s.bcd.value))
    && (s.bcd.None? ==> forall t | t in e.targets :: !t.kind.BootStoreTarget?)
  }

  /** No link rests on a drive letter. */
  predicate Lasting(e: CaseEvidence, s: Selection)
    requires s.Selection?
  {
    !LetterOnly(e, s.windows, s.partition) && (s.bcd.Some? ==> !LetterOnly(e, s.bcd.value, s.esp))
  }

  /** Stated on the evidence: the chain that may be acted on without a technician. */
  ghost predicate AutomaticFits(e: CaseEvidence, s: Selection) {
    && ModeFits(e, Uefi) && SafeMedia(e.views)
    && AutomaticChain(e, s) && Lasting(e, s)
  }

  lemma AtMostOne<T, K>(s: seq<T>, key: T -> K, k: K)
    requires forall i, j | 0 <= i < j < |s| :: key(s[i]) != key(s[j])
    requires forall x | x in s :: key(x) == k
    ensures |s| <= 1
  {
    if |s| > 1 {
      SameKey(s, key, k, 0, 1);
    }
  }

  lemma SameKey<T, K>(s: seq<T>, key: T -> K, k: K, i: nat, j: nat)
    requires (forall x | x in s :: key(x) == k) && i < |s| && j < |s|
    ensures key(s[i]) == key(s[j])
  {
    assert s[i] in s && s[j] in s;
  }

  lemma OneOfKind(e: CaseEvidence, kind: TargetKind, id: Id)
    requires DistinctOn(e.targets, MachineKey)
    ensures var ts := OfKind(e.targets, kind);
      OnlyTarget(e, kind, id) <==> |ts| == 1 && ts[0].id == id
  {
    hide OfKind;
    var ts := OfKind(e.targets, kind);
    OfKindDistinct(e.targets, kind);
    if OnlyTarget(e, kind, id) {
      var t :| t in e.targets && t.id == id && t.kind == kind;
      assert t in ts;
      AtMostOne(ts, MachineKey, id);
      assert ts[0] in ts;
    }
    if |ts| == 1 && ts[0].id == id {
      assert ts[0] in ts;
    }
  }

  lemma NoneOfKind(e: CaseEvidence, kind: TargetKind)
    ensures OfKind(e.targets, kind) == [] <==> forall t | t in e.targets :: t.kind != kind
  {
    hide OfKind;
    EmptyIffNoElements(OfKind(e.targets, kind));
  }

  lemma OneEsp(e: CaseEvidence, p: Id)
    requires DistinctOn(e.targets, MachineKey)
    ensures var esps := EspCandidates(e, OfKind(e.targets, PartitionTarget));
      OnlyEsp(e, p) <==> |esps| == 1 && esps[0].target == p
  {
    hide OfKind, EspConfidence, EspCandidates, DistinctOn;
    var parts := OfKind(e.targets, PartitionTarget);
    var esps := EspCandidates(e, parts);
    OfKindDistinct(e.targets, PartitionTarget);
    EspCandidatesDistinct(e, parts);
    if OnlyEsp(e, p) {
      var t :| t in e.targets && t.id == p && t.kind == PartitionTarget;
      EspIsCandidate(e, parts, t);
      forall c | c in esps ensures c.target == p {
        CandidateHasConfidence(e, parts, c);
      }
      AtMostOne(esps, CandidateId, (EspRole, p));
      assert esps[0] in esps;
    }
    if |esps| == 1 && esps[0].target == p {
      assert esps[0] in esps;
      CandidateHasConfidence(e, parts, esps[0]);
      forall t | t in e.targets && t.kind.PartitionTarget? && EspConfidence(e, t.id).Some? ensures t.id == p {
        EspIsCandidate(e, parts, t);
      }
    }
  }

  lemma {:induction false} EspIsCandidate(e: CaseEvidence, parts: seq<Machine>, t: Machine)
    requires t in parts && EspConfidence(e, t.id).Some?
    ensures Candidate(EspRole, t.id, EspConfidence(e, t.id).value) in EspCandidates(e, parts)
  {
    hide EspConfidence;
    var n := |parts| - 1;
    if t != parts[n] {
      assert parts == parts[..n] + [parts[n]];
      EspIsCandidate(e, parts[..n], t);
    }
  }

  lemma {:induction false} CandidateHasConfidence(e: CaseEvidence, parts: seq<Machine>, c: Candidate)
    requires c in EspCandidates(e, parts)
    ensures EspConfidence(e, c.target) == Some(c.confidence) && exists t | t in parts :: t.id == c.target
  {
    hide EspConfidence;
    var n := |parts| - 1;
    assert parts == parts[..n] + [parts[n]];
    if c in EspCandidates(e, parts[..n]) {
      CandidateHasConfidence(e, parts[..n], c);
    }
  }

  lemma {:induction false} BcdCandidatesAre(stores: seq<Machine>)
    ensures |BcdCandidates(stores)| == |stores|
    ensures forall i | 0 <= i < |stores| :: BcdCandidates(stores)[i].target == stores[i].id
  {
    if stores != [] {
      BcdCandidatesAre(stores[..|stores| - 1]);
    }
  }

  lemma OwnRoles(e: CaseEvidence, w: Id)
    ensures var own := WindowsCandidates(e, w);
      && FilterRole(own, WindowsRole) == [own[0]]
      && FilterRole(own, WindowsPartitionRole) == (if |own| > 1 then [own[1]] else [])
      && FilterRole(own, SystemDiskRole) == (if |own| > 2 then [own[2]] else [])
  {
    hide RelatedPartitions, RelatedDisks, LinkConfidence, FilterRole, The;
    var own := WindowsCandidates(e, w);
    assert own == [own[0]] + own[1..];
    FilterThree(own, WindowsRole);
    FilterThree(own, WindowsPartitionRole);
    FilterThree(own, SystemDiskRole);
  }

  function Only(c: Candidate, role: Role): seq<Candidate> {
    if c.role == role then [c] else []
  }

  lemma FilterSingle(c: Candidate, role: Role)
    ensures FilterRole([c], role) == Only(c, role)
  {
    assert [c][..0] == [];
  }

  lemma FilterThree(cs: seq<Candidate>, role: Role)
    requires 1 <= |cs| <= 3
    ensures FilterRole(cs, role) ==
            Only(cs[0], role) + (if |cs| > 1 then Only(cs[1], role) else [])
            + (if |cs| > 2 then Only(cs[2], role) else [])
  {
    hide FilterRole, Only;
    FilterSingle(cs[0], role);
    if |cs| == 1 {
      assert cs == [cs[0]];
    } else {
      FilterSingle(cs[1], role);
      FilterSum([cs[0]], [cs[1]], role);
      if |cs| == 2 {
        assert cs == [cs[0]] + [cs[1]];
      } else {
        FilterSingle(cs[2], role);
        FilterSum([cs[0]] + [cs[1]], [cs[2]], role);
        assert cs == [cs[0]] + [cs[1]] + [cs[2]];
      }
    }
  }

  lemma {:induction false} OneRolePerInstallation(e: CaseEvidence, ws: seq<Machine>)
    ensures |FilterRole(AllWindowsCandidates(e, ws), WindowsRole)| == |ws|
  {
    hide FilterRole, WindowsCandidates;
    if ws == [] {
      FilterNone([], WindowsRole);
    } else {
      var n := |ws| - 1;
      OneRolePerInstallation(e, ws[..n]);
      OwnRoles(e, ws[n].id);
      FilterSum(AllWindowsCandidates(e, ws[..n]), WindowsCandidates(e, ws[n].id), WindowsRole);
    }
  }

  /** The candidates and relations the automatic selection works on. */
  ghost predicate Gathered(e: CaseEvidence, windows: seq<Candidate>, esps: seq<Candidate>, bcds: seq<Candidate>,
                           relations: seq<Relation>)
  {
    && DistinctOn(e.targets, MachineKey)
    && windows == AllWindowsCandidates(e, OfKind(e.targets, WindowsTarget))
    && esps == EspCandidates(e, OfKind(e.targets, PartitionTarget))
    && bcds == BcdCandidates(OfKind(e.targets, BootStoreTarget))
    && ExactRelations(e, relations)
  }

  lemma OneInstallation(e: CaseEvidence, windows: seq<Candidate>, w: Id)
    requires DistinctOn(e.targets, MachineKey)
    requires windows == AllWindowsCandidates(e, OfKind(e.targets, WindowsTarget))
    ensures OnlyTarget(e, WindowsTarget, w) ==> windows == WindowsCandidates(e, w)
    ensures |FilterRole(windows, WindowsRole)| == 1 ==> OnlyTarget(e, WindowsTarget, windows[0].target)
  {
    hide OfKind, WindowsCandidates, OnlyTarget, FilterRole, DistinctOn;
    var ws := OfKind(e.targets, WindowsTarget);
    OneRolePerInstallation(e, ws);
    OneOfKind(e, WindowsTarget, w);
    if |ws| == 1 {
      OneOfKind(e, WindowsTarget, ws[0].id);
      assert ws[..0] == [];
      assert windows == WindowsCandidates(e, ws[0].id);
      OwnFirst(e, ws[0].id);
    }
  }

  lemma OwnFirst(e: CaseEvidence, w: Id)
    ensures WindowsCandidates(e, w)[0].target == w
  {
    hide RelatedPartitions, RelatedDisks, LinkConfidence, The;
  }

  /** The candidates of one installation, if its partition and disk are unique. */
  lemma OwnChain(e: CaseEvidence, w: Id, p: Id, d: Id)
    requires RelatedPartitions(e, w) == {p} && RelatedDisks(e, p) == {d}
    ensures var own := WindowsCandidates(e, w);
      |own| == 3 && own[0].target == w && own[1].target == p && own[2].target == d
  {
    hide RelatedPartitions, RelatedDisks, LinkConfidence;
    SizeOfSingleton(RelatedPartitions(e, w), p);
    SizeOfSingleton(RelatedDisks(e, p), d);
  }

  lemma OneStore(e: CaseEvidence, bcds: seq<Candidate>, b: Id)
    requires DistinctOn(e.targets, MachineKey) && bcds == BcdCandidates(OfKind(e.targets, BootStoreTarget))
    ensures OnlyTarget(e, BootStoreTarget, b) <==> |bcds| == 1 && bcds[0].target == b
    ensures bcds == [] <==> forall t | t in e.targets :: !t.kind.BootStoreTarget?
  {
    hide OfKind, OnlyTarget, DistinctOn, BcdCandidates;
    BcdCandidatesAre(OfKind(e.targets, BootStoreTarget));
    OneOfKind(e, BootStoreTarget, b);
    NoneOfKind(e, BootStoreTarget);
  }

  lemma ConnectedIffLinked(e: CaseEvidence, relations: seq<Relation>, s: Selection)
    requires ExactRelations(e, relations) && s.Selection?
    ensures Connected(relations, s) <==>
      && Linked(e, HostsWindows, s.partition, s.windows) && Linked(e, Contains, s.disk, s.partition)
      && Linked(e, HostsEsp, s.disk, s.esp) && (s.bcd.Some? ==> Linked(e, ContainsBcd, s.esp, s.bcd.value))
  {
    hide ExactRelations, HasRelation, Linked;
    UsableIffLinked(e, relations, HostsWindows, s.partition, s.windows);
    UsableIffLinked(e, relations, Contains, s.disk, s.partition);
    UsableIffLinked(e, relations, HostsEsp, s.disk, s.esp);
    if s.bcd.Some? {
      UsableIffLinked(e, relations, ContainsBcd, s.esp, s.bcd.value);
    }
  }

  /** What is chosen without a technician is the one chain there is. */
  lemma ChosenIsChain(e: CaseEvidence, mode: FirmwareMode, windows: seq<Candidate>, esps: seq<Candidate>,
                      bcds: seq<Candidate>, relations: seq<Relation>, choice: Choice)
    requires Gathered(e, windows, esps, bcds, relations)
    requires choice == ChooseAutomatically(e, mode, windows, esps, bcds, relations) && choice.selection.Selection?
    ensures AutomaticChain(e, choice.selection)
  {
    hide AllWindowsCandidates, EspCandidates, BcdCandidates, OfKind, DistinctOn, ExactRelations, DiskIsGpt, Connected,
         Linked, OnlyTarget, OnlyEsp, FilterRole;
    var s := choice.selection;
    OneInstallation(e, windows, s.windows);
    OneInstallation(e, windows, windows[0].target);
    OwnRoles(e, windows[0].target);
    OneEsp(e, s.esp);
    OneStore(e, bcds, if bcds == [] then s.esp else bcds[0].target);
    ConnectedIffLinked(e, relations, s);
  }

  lemma NothingAmbiguous(e: CaseEvidence, relations: seq<Relation>, s: Selection)
    requires AutomaticChain(e, s) && ExactRelations(e, relations)
    ensures forall r | r in relations :: !r.confidence.AmbiguousConfidence?
  {
    hide RelatedPartitions, RelatedDisks, LetterOnly, EspConfidence, OnlyTarget, DiskIsGpt;
    forall r | r in relations ensures !r.confidence.AmbiguousConfidence? {
      assert WindowsRelation(e, r) || EspRelation(e, r) || BcdRelation(e, r);
      if EspRelation(e, r) {
        assert r.to == s.esp;
      }
    }
  }

  /** The one chain there is gets chosen. */
  lemma ChainIsChosen(e: CaseEvidence, mode: FirmwareMode, windows: seq<Candidate>, esps: seq<Candidate>,
                      bcds: seq<Candidate>, relations: seq<Relation>, s: Selection)
    requires Gathered(e, windows, esps, bcds, relations) && AutomaticChain(e, s) && mode.Uefi?
    ensures ChooseAutomatically(e, mode, windows, esps, bcds, relations) == Choice(s, {}, [])
  {
    hide AllWindowsCandidates, EspCandidates, BcdCandidates, OfKind, DistinctOn, ExactRelations, DiskIsGpt, Connected,
         Linked, OnlyTarget, OnlyEsp, FilterRole, WindowsCandidates;
    OneInstallation(e, windows, s.windows);
    OwnRoles(e, s.windows);
    LinkedChain(e, s);
    OneEsp(e, s.esp);
    OneStore(e, bcds, if s.bcd.Some? then s.bcd.value else s.esp);
    NothingAmbiguous(e, relations, s);
    ConnectedIffLinked(e, relations, s);
  }

  lemma LinkedChain(e: CaseEvidence, s: Selection)
    requires AutomaticChain(e, s)
    ensures var own := WindowsCandidates(e, s.windows);
      |own| == 3 && own[0].target == s.windows && own[1].target == s.partition && own[2].target == s.disk
  {
    hide RelatedPartitions, RelatedDisks, WindowsCandidates, DiskIsGpt, OnlyTarget, OnlyEsp;
    OwnChain(e, s.windows, s.partition, s.disk);
  }

  lemma RuntimeOnlyIff(e: CaseEvidence, relations: seq<Relation>, s: Selection)
    requires AutomaticChain(e, s) && ExactRelations(e, relations)
    ensures RuntimeOnlySelected(relations, s) <==> !Lasting(e, s)
  {
    hide RelatedPartitions, RelatedDisks, LetterOnly, EspConfidence, DiskIsGpt, OnlyEsp;
    if RuntimeOnlySelected(relations, s) {
      var r :| r in relations && r.confidence.RuntimeOnly? && (Selects(s, r.from) || Selects(s, r.to));
      EspIsProvenOrAmbiguous(e, r.to);
      assert WindowsRelation(e, r) || EspRelation(e, r) || BcdRelation(e, r);
    }
    if LetterOnly(e, s.windows, s.partition) {
      assert Relation(HostsWindows, s.partition, s.windows, RuntimeOnly) in relations;
    }
    if s.bcd.Some? && LetterOnly(e, s.bcd.value, s.esp) {
      assert Relation(ContainsBcd, s.esp, s.bcd.value, RuntimeOnly) in relations;
    }
  }

  lemma ChainBlockers(e: CaseEvidence, mode: FirmwareMode, windows: seq<Candidate>, esps: seq<Candidate>,
                      bcds: seq<Candidate>, relations: seq<Relation>, s: Selection)
    requires Gathered(e, windows, esps, bcds, relations) && AutomaticChain(e, s) && mode.Uefi?
    ensures Blockers(e, mode, None, Choice(s, {}, []), windows, esps, relations) == {}
            <==> SafeMedia(e.views) && Lasting(e, s)
  {
    hide AllWindowsCandidates, EspCandidates, BcdCandidates, OfKind, DistinctOn, ExactRelations, Linked, OnlyTarget,
         OnlyEsp, FilterRole, WindowsCandidates, BitLockerBlockers, HealthBlockers, SafeMedia, RuntimeOnlySelected,
         Lasting, DiskIsGpt;
    OneInstallation(e, windows, s.windows);
    OwnRoles(e, s.windows);
    LinkedChain(e, s);
    OneEsp(e, s.esp);
    RuntimeOnlyIff(e, relations, s);
    SafeMediaIff(e.views);
    var all := Blockers(e, mode, None, Choice(s, {}, []), windows, esps, relations);
    if all == {} {
      NoBlockers(e, mode, None, Choice(s, {}, []), windows, esps, relations);
      assert BitLockerBlockers(e.views) <= all && HealthBlockers(e.views) <= all;
    }
  }

  /** Without a technician the selection goes unblocked exactly when the evidence holds one chain fit to be acted on. */
  lemma AutomaticEligibility(e: CaseEvidence, windows: seq<Candidate>, esps: seq<Candidate>, bcds: seq<Candidate>,
                             relations: seq<Relation>, choice: Choice, s: Selection)
    requires Gathered(e, windows, esps, bcds, relations) && s.Selection?
    requires choice == ChooseAutomatically(e, ModeOf(ModeWords(e)), windows, esps, bcds, relations)
    ensures AutomaticFits(e, s) <==>
      && choice.selection == s
      && Blockers(e, ModeOf(ModeWords(e)), None, choice, windows, esps, relations) == {}
  {
    hide Gathered, AutomaticChain, SafeMedia, Lasting, Blockers, ModeFits, ModeOf, ModeWords, FilterRole, DiskIsGpt,
         Connected;
    var mode := ModeOf(ModeWords(e));
    ModeFitsIff(e, Uefi);
    if AutomaticFits(e, s) {
      ChainIsChosen(e, mode, windows, esps, bcds, relations, s);
      ChainBlockers(e, mode, windows, esps, bcds, relations, s);
    }
    if choice.selection == s && Blockers(e, mode, None, choice, windows, esps, relations) == {} {
      ChosenIsChain(e, mode, windows, esps, bcds, relations, choice);
      ChainBlockers(e, mode, windows, esps, bcds, relations, s);
    }
  }

  lemma {:induction false} FilterSum(a: seq<Candidate>, b: seq<Candidate>, role: Role)
    ensures FilterRole(a + b, role) == FilterRole(a, role) + FilterRole(b, role)
  {
    hide FilterRole;
    if b == [] {
      assert a + b == a;
      FilterNone(b, role);
    } else {
      var n := |b| - 1;
      var all := a + b;
      FilterSum(a, b[..n], role);
      assert all[..|all| - 1] == a + b[..n] && all[|all| - 1] == b[n];
      FilterLast(all, role);
      FilterLast(b, role);
    }
  }

  lemma FilterLast(cs: seq<Candidate>, role: Role)
    requires cs != []
    ensures var n := |cs| - 1;
      FilterRole(cs, role) == FilterRole(cs[..n], role) + (if cs[n].role == role then [cs[n]] else [])
  {
  }

  lemma FilterNone(cs: seq<Candidate>, role: Role)
    requires forall c | c in cs :: c.role != role
    ensures FilterRole(cs, role) == []
  {
    EmptyIffNoElements(FilterRole(cs, role));
  }

  /** What the evidence leaves ambiguous, code by code. */
  predicate Ambiguous(e: CaseEvidence, a: Ambiguity) {
    match a
    case FirmwareConflictA => ModeOf(ModeWords(e)).ConflictingMode?
    case SystemDiskUnresolvedA | WindowsPartitionUnresolvedA => WindowsAmbiguity(e, OfKind(e.targets, WindowsTarget), a)
    case EspAmbiguousA => |EspCandidates(e, OfKind(e.targets, PartitionTarget))| > 1
    case BcdMissingA | BcdAmbiguousA => BcdAmbiguity(e, OfKind(e.targets, BootStoreTarget), a)
    case BitLockerInaccessibleA => BitLockerInaccessibleB in BitLockerBlockers(e.views)
    case BitLockerUnknownA => BitLockerUnknownB in BitLockerBlockers(e.views)
    case HealthUnsafeA => HealthUnsafeB in HealthBlockers(e.views)
    case HealthUnknownA => HealthUnknownB in HealthBlockers(e.views) && SomeHealth(e.views, UnknownClass)
    case _ => false
  }

  lemma {:induction false} EspCandidatesDistinct(e: CaseEvidence, parts: seq<Machine>)
    requires DistinctOn(parts, MachineKey)
    ensures DistinctBy(EspCandidates(e, parts), CandidateId)
    ensures forall c | c in EspCandidates(e, parts) :: c.role.EspRole? && exists p | p in parts :: c.target == p.id
  {
    if parts != [] {
      var n := |parts| - 1;
      hide EspConfidence;
      EspCandidatesDistinct(e, parts[..n]);
      NotBefore(parts, n);
      var own := if EspConfidence(e, parts[n].id).Some?
                 then [Candidate(EspRole, parts[n].id, EspConfidence(e, parts[n].id).value)] else [];
      DistinctSum(EspCandidates(e, parts[..n]), own, CandidateId);
      assert parts == parts[..n] + [parts[n]];
    }
  }

  lemma {:induction false} BcdCandidatesDistinct(stores: seq<Machine>)
    requires DistinctOn(stores, MachineKey)
    ensures DistinctBy(BcdCandidates(stores), CandidateId)
    ensures forall c | c in BcdCandidates(stores) :: c.role.BcdRole? && exists p | p in stores :: c.target == p.id
  {
    if stores != [] {
      var n := |stores| - 1;
      BcdCandidatesDistinct(stores[..n]);
      NotBefore(stores, n);
      DistinctSum(BcdCandidates(stores[..n]), [Candidate(BcdRole, stores[n].id, StrongInference)], CandidateId);
      assert stores == stores[..n] + [stores[n]];
    }
  }

  /** Over all roles, ids repeat only where two Windows installations share a partition or a disk. */
  lemma IdsUniqueIffNothingShared(e: CaseEvidence, firmware: Candidate, esps: seq<Candidate>, bcds: seq<Candidate>,
                                  espLinks: seq<Relation>, bcdLinks: seq<Relation>)
    requires DistinctOn(e.targets, MachineKey) && firmware.role.FirmwareRole?
    requires esps == EspCandidates(e, OfKind(e.targets, PartitionTarget))
    requires bcds == BcdCandidates(OfKind(e.targets, BootStoreTarget))
    requires DistinctBy(espLinks, RelationId) && DistinctBy(bcdLinks, RelationId)
    requires forall r | r in espLinks :: r.kind.HostsEsp?
    requires forall r | r in bcdLinks :: r.kind.ContainsBcd?
    ensures var ws := OfKind(e.targets, WindowsTarget);
      UniqueIds([firmware] + AllWindowsCandidates(e, ws) + esps + bcds,
                AllWindowsRelations(e, ws) + espLinks + bcdLinks)
      <==> !SomethingShared(e)
  {
    hide RelatedPartitions, RelatedDisks, EspConfidence, SomethingShared, NoClash, DistinctBy, AllWindowsCandidates,
         OfKind, AllWindowsRelations, EspCandidates, BcdCandidates, DistinctOn, WindowsRelation;
    var ws := OfKind(e.targets, WindowsTarget);
    OfKindDistinct(e.targets, WindowsTarget);
    OfKindDistinct(e.targets, PartitionTarget);
    OfKindDistinct(e.targets, BootStoreTarget);
    WindowsAmongCandidates(e, ws);
    EspCandidatesDistinct(e, OfKind(e.targets, PartitionTarget));
    BcdCandidatesDistinct(OfKind(e.targets, BootStoreTarget));
    SharedIffClash(e);
    DistinctUnlessClash(e, ws);
    SeparateRoles(firmware, AllWindowsCandidates(e, ws), esps, bcds);
    WindowsRelationKinds(e);
    SeparateKinds(AllWindowsRelations(e, ws), espLinks, bcdLinks);
  }

  lemma WindowsRelationKinds(e: CaseEvidence)
    ensures forall r | r in AllWindowsRelations(e, OfKind(e.targets, WindowsTarget)) ::
      r.kind.HostsWindows? || r.kind.Contains?
  {
    hide RelatedPartitions, RelatedDisks, AllWindowsRelations, OfKind;
    forall r | r in AllWindowsRelations(e, OfKind(e.targets, WindowsTarget))
      ensures r.kind.HostsWindows? || r.kind.Contains?
    {
      WindowsRelationsExactly(e, r);
    }
  }

  lemma SeparateRoles(firmware: Candidate, windows: seq<Candidate>, esps: seq<Candidate>, bcds: seq<Candidate>)
    requires firmware.role.FirmwareRole?
    requires forall c | c in windows :: c.role.WindowsRole? || c.role.WindowsPartitionRole? || c.role.SystemDiskRole?
    requires forall c | c in esps :: c.role.EspRole?
    requires forall c | c in bcds :: c.role.BcdRole?
    requires DistinctBy(esps, CandidateId) && DistinctBy(bcds, CandidateId)
    ensures DistinctBy([firmware] + windows + esps + bcds, CandidateId) <==> DistinctBy(windows, CandidateId)
  {
    hide DistinctBy;
    OneCandidateDistinct(firmware);
    DistinctSum([firmware], windows, CandidateId);
    DistinctSum([firmware] + windows, esps, CandidateId);
    DistinctSum([firmware] + windows + esps, bcds, CandidateId);
  }

  lemma SeparateKinds(links: seq<Relation>, espLinks: seq<Relation>, bcdLinks: seq<Relation>)
    requires forall r | r in links :: r.kind.HostsWindows? || r.kind.Contains?
    requires forall r | r in espLinks :: r.kind.HostsEsp?
    requires forall r | r in bcdLinks :: r.kind.ContainsBcd?
    requires DistinctBy(espLinks, RelationId) && DistinctBy(bcdLinks, RelationId)
    ensures DistinctBy(links + espLinks + bcdLinks, RelationId) <==> DistinctBy(links, RelationId)
  {
    hide DistinctBy;
    DistinctSum(links, espLinks, RelationId);
    DistinctSum(links + espLinks, bcdLinks, RelationId);
  }

  lemma OneCandidateDistinct(c: Candidate)
    ensures DistinctBy([c], CandidateId)
  {
  }

  // ---------------------------------------------------------------- what blocks, told on the evidence

  predicate Reported(e: CaseEvidence, w: ModeWord) {
    exists v | v in e.views :: IsKind(e, v.target, FirmwareTarget) && w in v.modes
  }

  ghost predicate OnlyReported(e: CaseEvidence, w: ModeWord) {
    Reported(e, w) && forall x | Reported(e, x) :: x == w
  }

  /** The mode that the words reported about firmware add up to. */
  ghost predicate ModeFits(e: CaseEvidence, mode: FirmwareMode) {
    match mode
    case Uefi => OnlyReported(e, UefiWord)
    case Bios => OnlyReported(e, BiosWord) || OnlyReported(e, LegacyWord)
    case ConflictingMode => exists a, b :: a != b && Reported(e, a) && Reported(e, b)
    case UnknownMode => (forall w :: !Reported(e, w)) || exists n: nat :: OnlyReported(e, OtherWord(n))
  }

  predicate SaysLocked(v: EvidenceView) {
    v.bitLocker.Some? && v.bitLocker.value.BitLockerFacts?
    && exists w | w in {v.bitLocker.value.status, v.bitLocker.value.protection} :: w.LockedWord? || w.InaccessibleWord?
  }

  predicate SaysUnlocked(v: EvidenceView) {
    v.bitLocker.Some? && v.bitLocker.value.BitLockerFacts?
    && UnlockedWord in {v.bitLocker.value.status, v.bitLocker.value.protection}
  }

  /** A volume of which it is not known whether it is locked. */
  predicate LockUndecided(v: EvidenceView) {
    v.bitLocker.Some? && !SaysLocked(v) && !SaysUnlocked(v)
  }

  predicate SaysNothing(r: HealthRecord) {
    (r.health.NoHealthWord? && r.operational.NoHealthWord?) || UnknownHealth in {r.health, r.operational}
  }

  predicate SaysFailure(r: HealthRecord) {
    !SaysNothing(r) && FailureWord in {r.health, r.operational}
  }

  predicate SaysHealthy(r: HealthRecord) {
    !SaysNothing(r) && !SaysFailure(r) && HealthyWord in {r.health, r.operational}
  }

  predicate FailureReported(e: CaseEvidence) {
    exists v, r | v in e.views && r in v.health :: SaysFailure(r)
  }

  predicate HealthUndecided(e: CaseEvidence) {
    exists v, r | v in e.views && r in v.health :: !SaysFailure(r) && !SaysHealthy(r)
  }

  predicate HealthReported(e: CaseEvidence) {
    exists v | v in e.views :: v.health != []
  }

  predicate Several(e: CaseEvidence, kind: TargetKind) {
    exists a, b | a in e.targets && b in e.targets :: a.kind == kind && b.kind == kind && a.id != b.id
  }

  /** By its partition type, or by its name only. */
  predicate SignedEsp(e: CaseEvidence, p: Id) {
    && IsKind(e, p, PartitionTarget)
    && exists v | v in e.views ::
         v.target == p && v.partition.Some? && (v.partition.value.espGuid || v.partition.value.espName)
  }

  predicate TypedEsp(e: CaseEvidence, p: Id) {
    exists v | v in e.views :: v.target == p && v.partition.Some? && v.partition.value.espGuid
  }

  predicate SeveralEsps(e: CaseEvidence) {
    exists a, b | a in e.targets && b in e.targets :: SignedEsp(e, a.id) && SignedEsp(e, b.id) && a.id != b.id
  }

  predicate SoleEsp(e: CaseEvidence, p: Id) {
    SignedEsp(e, p) && forall t | t in e.targets && SignedEsp(e, t.id) :: t.id == p
  }

  /** Nobody but the resolver selects, in UEFI mode, from one installation. */
  ghost predicate SoleInstallation(e: CaseEvidence, technician: Option<TechnicianSelection>, w: Id) {
    technician.None? && ModeFits(e, Uefi) && OnlyTarget(e, WindowsTarget, w)
  }

  ghost predicate SoleDisk(e: CaseEvidence, technician: Option<TechnicianSelection>, d: Id) {
    exists w: Id, p: Id :: SoleInstallation(e, technician, w) && Installed(e, w, p) && OnDisk(e, p, d)
  }

  /** Disk and EFI system partition are unique, and the disk is a GPT disk. */
  ghost predicate SolePair(e: CaseEvidence, technician: Option<TechnicianSelection>, d: Id, esp: Id) {
    SoleDisk(e, technician, d) && DiskIsGpt(e, d) && SoleEsp(e, esp)
  }

  /** The EFI system partition, known by its name only, is related to a disk. */
  ghost predicate EspInferred(e: CaseEvidence, technician: Option<TechnicianSelection>) {
    !Several(e, BootStoreTarget)
    && exists d: Id, esp: Id :: SolePair(e, technician, d, esp) && !TypedEsp(e, esp) && RelatedDisks(e, esp) != {}
  }

  /** The EFI system partition is not on the disk of the installation, or the boot store not on the partition. */
  ghost predicate Misplaced(e: CaseEvidence, technician: Option<TechnicianSelection>) {
    !Several(e, BootStoreTarget)
    && exists d: Id, esp: Id :: SolePair(e, technician, d, esp)
         && (TypedEsp(e, esp) || RelatedDisks(e, esp) == {})
         && (d !in RelatedDisks(e, esp)
             || exists t | t in e.targets :: t.kind.BootStoreTarget? && RelatedPartitions(e, t.id) != {esp})
  }

  /** What the links of a selection are taken from: the technician's, or the one chain there is. */
  ghost predicate Chosen(e: CaseEvidence, technician: Option<TechnicianSelection>, s: Selection) {
    match technician
    case Some(t) => TechnicianFits(e, t) && s == SelectionOf(t)
    case None => ModeFits(e, Uefi) && AutomaticChain(e, s)
  }

  /** A link that rests on a drive letter has an end in the selection. */
  ghost predicate TouchesLetter(e: CaseEvidence, s: Selection) {
    exists id: Id, p: Id ::
      && LetterOnly(e, id, p) && (Selects(s, id) || Selects(s, p))
      && RelatedPartitions(e, id) == {p} && (IsKind(e, id, WindowsTarget) || IsKind(e, id, BootStoreTarget))
  }

  /** What each blocker says of the evidence. */
  ghost predicate Blocks(e: CaseEvidence, technician: Option<TechnicianSelection>, b: Blocker) {
    match b
    case FirmwareUnknownB => ModeFits(e, UnknownMode)
    case FirmwareConflictB => ModeFits(e, ConflictingMode)
    case FirmwareNotUefiB => ModeFits(e, Bios)
    case SelectionRequiredB => technician.None? && !ModeFits(e, Uefi)
    case WindowsMissingB => forall t | t in e.targets :: !t.kind.WindowsTarget?
    case WindowsAmbiguousB => technician.None? && Several(e, WindowsTarget)
    case WindowsPartitionUnresolvedB =>
      (exists w: Id :: SoleInstallation(e, technician, w)) && forall d: Id :: !SoleDisk(e, technician, d)
    case DiskNotGptB => exists d: Id :: SoleDisk(e, technician, d) && !DiskIsGpt(e, d)
    case EspMissingB => forall t | t in e.targets :: !SignedEsp(e, t.id)
    case EspAmbiguousB => technician.None? && SeveralEsps(e)
    case BcdAmbiguousB => Several(e, BootStoreTarget) && exists d: Id, esp: Id :: SolePair(e, technician, d, esp)
    case EvidenceIncompleteB => EspInferred(e, technician)
    case UnsupportedLayoutB => ModeFits(e, Bios) || Misplaced(e, technician)
    case RelationRuntimeOnlyB => exists s :: Chosen(e, technician, s) && TouchesLetter(e, s)
    case BitLockerInaccessibleB => exists v | v in e.views :: SaysLocked(v)
    case BitLockerUnknownB => exists v | v in e.views :: LockUndecided(v)
    case HealthUnsafeB => FailureReported(e)
    case HealthUnknownB => !FailureReported(e) && (HealthUndecided(e) || !HealthReported(e))
    case SystemDiskUnresolvedB | BcdMissingB => false
  }

  lemma ModeFitsIff(e: CaseEvidence, mode: FirmwareMode)
    ensures ModeFits(e, mode) <==> mode == ModeOf(ModeWords(e))
  {
    hide IsKind;
    var words := ModeWords(e);
    assert forall w :: w in words <==> Reported(e, w);
    forall w ensures OnlyReported(e, w) <==> words == {w} {
      if OnlyReported(e, w) { assert words == {w}; }
    }
    assert (forall w :: !Reported(e, w)) <==> words == {};
    if words != {} {
      var a :| a in words;
      if words == {a} {
        assert OnlyReported(e, a);
      } else {
        var b :| b in words && b != a by { TwoMembers(words, a); }
        assert |words| != 1 by { if |words| == 1 { OneMember(words, a); } }
        assert Reported(e, a) && Reported(e, b);
        assert forall w :: !OnlyReported(e, w);
      }
    }
  }

  lemma OneMember<T>(s: set<T>, x: T)
    requires |s| == 1 && x in s
    ensures s == {x}
  {
    assert |s - {x}| == 0;
    assert s == {x} + (s - {x});
  }

  lemma TwoMembers<T>(s: set<T>, x: T)
    requires x in s && s != {x}
    ensures exists y :: y in s && y != x
  {
    assert s == {x} <==> forall y | y in s :: y == x;
  }

  lemma LockStateIs(v: EvidenceView)
    requires v.bitLocker.Some?
    ensures LockStateOf(v.bitLocker.value).Inaccessible? <==> SaysLocked(v)
    ensures LockStateOf(v.bitLocker.value).UnknownLock? <==> LockUndecided(v)
  {
  }

  lemma ClassIs(r: HealthRecord)
    ensures ClassifyHealth(r).Unsafe? <==> SaysFailure(r)
    ensures ClassifyHealth(r).Healthy? <==> SaysHealthy(r)
  {
  }

  lemma LockBlocks(e: CaseEvidence, b: Blocker)
    ensures b in BitLockerBlockers(e.views) <==>
      (b.BitLockerInaccessibleB? && exists v | v in e.views :: SaysLocked(v))
      || (b.BitLockerUnknownB? && exists v | v in e.views :: LockUndecided(v))
  {
    hide LockStateOf, SaysLocked, SaysUnlocked;
    forall v: EvidenceView | v.bitLocker.Some?
      ensures LockStateOf(v.bitLocker.value).Inaccessible? <==> SaysLocked(v)
      ensures LockStateOf(v.bitLocker.value).UnknownLock? <==> LockUndecided(v)
    {
      LockStateIs(v);
    }
    assert forall v: EvidenceView | SaysLocked(v) :: v.bitLocker.Some? by { LockedHasFacts(); }
  }

  lemma LockedHasFacts()
    ensures forall v: EvidenceView | SaysLocked(v) :: v.bitLocker.Some?
  {
  }

  lemma HealthBlocks(e: CaseEvidence, b: Blocker)
    ensures b in HealthBlockers(e.views) <==>
      (b.HealthUnsafeB? && FailureReported(e))
      || (b.HealthUnknownB? && !FailureReported(e) && (HealthUndecided(e) || !HealthReported(e)))
    ensures SomeHealth(e.views, Unsafe) <==> FailureReported(e)
    ensures SomeHealth(e.views, UnknownClass) <==> HealthUndecided(e)
  {
    hide ClassifyHealth, SaysFailure, SaysHealthy;
    forall r: HealthRecord
      ensures ClassifyHealth(r).Unsafe? <==> SaysFailure(r)
      ensures ClassifyHealth(r).Healthy? <==> SaysHealthy(r)
    {
      ClassIs(r);
    }
  }

  lemma SeveralIff(e: CaseEvidence, kind: TargetKind)
    requires DistinctOn(e.targets, MachineKey)
    ensures Several(e, kind) <==> |OfKind(e.targets, kind)| > 1
  {
    hide OfKind;
    var ts := OfKind(e.targets, kind);
    OfKindDistinct(e.targets, kind);
    if |ts| > 1 {
      assert ts[0] in ts && ts[1] in ts && MachineKey(ts[0]) != MachineKey(ts[1]);
    }
    if a, b :| a in e.targets && b in e.targets && a.kind == kind && b.kind == kind && a.id != b.id {
      MoreThanOne(ts, a, b);
    }
  }

  lemma MoreThanOne<T>(s: seq<T>, x: T, y: T)
    requires x in s && y in s && x != y
    ensures |s| > 1
  {
    var i :| 0 <= i < |s| && s[i] == x;
    var j :| 0 <= j < |s| && s[j] == y;
  }

  lemma SignIff(e: CaseEvidence, p: Id)
    ensures SignedEsp(e, p) <==> IsKind(e, p, PartitionTarget) && EspConfidence(e, p).Some?
    ensures EspConfidence(e, p) == Some(Proven) <==> TypedEsp(e, p)
  {
    hide IsKind;
  }

  lemma SoleEspIff(e: CaseEvidence, p: Id)
    ensures SoleEsp(e, p) <==> OnlyEsp(e, p)
  {
    hide EspConfidence, SignedEsp, TypedEsp;
    SignIff(e, p);
    forall t | t in e.targets
      ensures SignedEsp(e, t.id) <==> IsKind(e, t.id, PartitionTarget) && EspConfidence(e, t.id).Some?
    {
      SignIff(e, t.id);
    }
  }

  lemma SignedIsCandidate(e: CaseEvidence, esps: seq<Candidate>, p: Id)
    requires esps == EspCandidates(e, OfKind(e.targets, PartitionTarget)) && SignedEsp(e, p)
    ensures exists c :: c in esps && c.target == p
  {
    hide OfKind, EspConfidence, EspCandidates, TypedEsp;
    SignIff(e, p);
    var t :| t in e.targets && t.id == p && t.kind == PartitionTarget;
    EspIsCandidate(e, OfKind(e.targets, PartitionTarget), t);
  }

  lemma CandidateIsSigned(e: CaseEvidence, esps: seq<Candidate>, c: Candidate)
    requires esps == EspCandidates(e, OfKind(e.targets, PartitionTarget)) && c in esps
    ensures SignedEsp(e, c.target) && exists t :: t in e.targets && t.id == c.target
  {
    hide OfKind, EspConfidence, EspCandidates, SignedEsp, TypedEsp;
    CandidateHasConfidence(e, OfKind(e.targets, PartitionTarget), c);
    IsOfKind(e, c.target, PartitionTarget);
    SignIff(e, c.target);
  }

  /** How many EFI system partitions there are to choose from. */
  lemma EspNumber(e: CaseEvidence, esps: seq<Candidate>)
    requires DistinctOn(e.targets, MachineKey) && esps == EspCandidates(e, OfKind(e.targets, PartitionTarget))
    ensures esps == [] <==> forall t | t in e.targets :: !SignedEsp(e, t.id)
    ensures |esps| > 1 <==> SeveralEsps(e)
  {
    hide OfKind, EspConfidence, EspCandidates, DistinctOn, SignedEsp, TypedEsp, DistinctBy;
    if esps != [] {
      CandidateIsSigned(e, esps, esps[0]);
    }
    if t :| t in e.targets && SignedEsp(e, t.id) {
      SignedIsCandidate(e, esps, t.id);
    }
    if |esps| > 1 {
      CandidateIsSigned(e, esps, esps[1]);
      OfKindDistinct(e.targets, PartitionTarget);
      EspCandidatesDistinct(e, OfKind(e.targets, PartitionTarget));
      DistinctTargets(esps, EspRole);
    }
    if a, b :| a in e.targets && b in e.targets && SignedEsp(e, a.id) && SignedEsp(e, b.id) && a.id != b.id {
      SignedIsCandidate(e, esps, a.id);
      SignedIsCandidate(e, esps, b.id);
      var c :| c in esps && c.target == a.id;
      var d :| d in esps && d.target == b.id;
      MoreThanOne(esps, c, d);
    }
  }

  lemma DistinctTargets(cs: seq<Candidate>, role: Role)
    requires DistinctBy(cs, CandidateId) && |cs| > 1 && forall c | c in cs :: c.role == role
    ensures cs[0].target != cs[1].target
  {
    assert cs[0] in cs && cs[1] in cs;
    assert CandidateId(cs[0]) != CandidateId(cs[1]);
  }

  /** How many installations there are. */
  lemma WindowsNumber(e: CaseEvidence, windows: seq<Candidate>)
    requires DistinctOn(e.targets, MachineKey)
    requires windows == AllWindowsCandidates(e, OfKind(e.targets, WindowsTarget))
    ensures windows == [] <==> forall t | t in e.targets :: !t.kind.WindowsTarget?
    ensures |FilterRole(windows, WindowsRole)| > 1 <==> Several(e, WindowsTarget)
    ensures |FilterRole(windows, WindowsRole)| == 1 <==> exists w: Id :: OnlyTarget(e, WindowsTarget, w)
  {
    hide OfKind, AllWindowsCandidates, FilterRole, DistinctOn, Several, OnlyTarget;
    var ws := OfKind(e.targets, WindowsTarget);
    WindowsAmongCandidates(e, ws);
    OneRolePerInstallation(e, ws);
    NoneOfKind(e, WindowsTarget);
    SeveralIff(e, WindowsTarget);
    if |ws| == 1 { OneOfKind(e, WindowsTarget, ws[0].id); }
    if w :| OnlyTarget(e, WindowsTarget, w) { OneOfKind(e, WindowsTarget, w); }
  }

  /** The one installation's chain, as far as it is unique, is found among the candidates. */
  lemma SoleDiskIs(e: CaseEvidence, technician: Option<TechnicianSelection>, windows: seq<Candidate>, d: Id)
    requires DistinctOn(e.targets, MachineKey) && technician.None? && ModeFits(e, Uefi)
    requires windows == AllWindowsCandidates(e, OfKind(e.targets, WindowsTarget))
    ensures SoleDisk(e, technician, d) <==>
      && |FilterRole(windows, WindowsRole)| == 1 && FilterRole(windows, WindowsPartitionRole) != []
      && FilterRole(windows, SystemDiskRole) != [] && FilterRole(windows, SystemDiskRole)[0].target == d
  {
    hide OfKind, AllWindowsCandidates, FilterRole, DistinctOn, OnlyTarget, ModeFits, RelatedPartitions, RelatedDisks,
         WindowsCandidates;
    WindowsNumber(e, windows);
    if w: Id :| OnlyTarget(e, WindowsTarget, w) {
      OneInstallation(e, windows, w);
      OwnRoles(e, w);
      OwnDisk(e, w, d);
      OnlyIsKind(e, WindowsTarget, w);
      if p: Id :| RelatedPartitions(e, w) == {p} && RelatedDisks(e, p) == {d} {
        assert SoleInstallation(e, technician, w) && Installed(e, w, p) && OnDisk(e, p, d);
      }
      if x: Id, p: Id :| SoleInstallation(e, technician, x) && Installed(e, x, p) && OnDisk(e, p, d) {
        OnlyOne(e, WindowsTarget, w, x);
      }
    }
  }

  lemma OnlyIsKind(e: CaseEvidence, kind: TargetKind, id: Id)
    requires OnlyTarget(e, kind, id)
    ensures IsKind(e, id, kind)
  {
  }

  lemma OnlyOne(e: CaseEvidence, kind: TargetKind, id: Id, x: Id)
    requires OnlyTarget(e, kind, id)
    ensures OnlyTarget(e, kind, x) <==> x == id
  {
  }

  lemma OwnDisk(e: CaseEvidence, w: Id, d: Id)
    ensures var own := WindowsCandidates(e, w);
      |own| > 2 && own[2].target == d <==>
        exists p: Id :: RelatedPartitions(e, w) == {p} && RelatedDisks(e, p) == {d}
  {
    hide RelatedPartitions, RelatedDisks, LinkConfidence;
    if p :| RelatedPartitions(e, w) == {p} && RelatedDisks(e, p) == {d} {
      OwnChain(e, w, p, d);
    }
  }

  ghost predicate NoPair(e: CaseEvidence) {
    forall d: Id, esp: Id :: !SolePair(e, None, d, esp)
  }

  ghost predicate OnlyPair(e: CaseEvidence, d: Id, esp: Id) {
    forall x: Id, y: Id :: SolePair(e, None, x, y) <==> x == d && y == esp
  }

  lemma WithoutPair(e: CaseEvidence)
    requires NoPair(e)
    ensures !EspInferred(e, None) && !Misplaced(e, None) && !Blocks(e, None, BcdAmbiguousB)
  {
    hide SolePair, Several, TypedEsp, RelatedDisks, RelatedPartitions;
  }

  lemma WithPair(e: CaseEvidence, d: Id, esp: Id)
    requires OnlyPair(e, d, esp)
    ensures Blocks(e, None, BcdAmbiguousB) <==> Several(e, BootStoreTarget)
    ensures EspInferred(e, None) <==>
      !Several(e, BootStoreTarget) && !TypedEsp(e, esp) && RelatedDisks(e, esp) != {}
    ensures Misplaced(e, None) <==>
      && !Several(e, BootStoreTarget) && (TypedEsp(e, esp) || RelatedDisks(e, esp) == {})
      && (d !in RelatedDisks(e, esp)
          || exists t | t in e.targets :: t.kind.BootStoreTarget? && RelatedPartitions(e, t.id) != {esp})
  {
    hide SolePair, Several, TypedEsp, RelatedDisks, RelatedPartitions;
    assert SolePair(e, None, d, esp);
  }

  /** The pair, from the candidates. */
  lemma PairIs(e: CaseEvidence, windows: seq<Candidate>, esps: seq<Candidate>)
    requires DistinctOn(e.targets, MachineKey) && ModeFits(e, Uefi)
    requires windows == AllWindowsCandidates(e, OfKind(e.targets, WindowsTarget))
    requires esps == EspCandidates(e, OfKind(e.targets, PartitionTarget))
    ensures var ds := FilterRole(windows, SystemDiskRole);
      if |FilterRole(windows, WindowsRole)| == 1 && FilterRole(windows, WindowsPartitionRole) != [] && ds != []
         && DiskIsGpt(e, ds[0].target) && |esps| == 1
      then OnlyPair(e, ds[0].target, esps[0].target) && SoleEsp(e, esps[0].target)
      else NoPair(e)
  {
    hide OfKind, AllWindowsCandidates, EspCandidates, FilterRole, DistinctOn, ModeFits, DiskIsGpt, SoleEsp, SoleDisk,
         OnlyEsp;
    forall d: Id, esp: Id
      ensures SolePair(e, None, d, esp) <==>
        && |FilterRole(windows, WindowsRole)| == 1 && FilterRole(windows, WindowsPartitionRole) != []
        && FilterRole(windows, SystemDiskRole) != [] && FilterRole(windows, SystemDiskRole)[0].target == d
        && DiskIsGpt(e, d) && |esps| == 1 && esps[0].target == esp
    {
      SoleDiskIs(e, None, windows, d);
      SoleEspIff(e, esp);
      OneEsp(e, esp);
    }
    if |esps| == 1 {
      SoleEspIff(e, esps[0].target);
      OneEsp(e, esps[0].target);
    }
  }

  lemma NobodySelects(e: CaseEvidence)
    requires !ModeFits(e, Uefi)
    ensures NoPair(e) && !Blocks(e, None, WindowsPartitionUnresolvedB) && !Blocks(e, None, DiskNotGptB)
  {
    hide ModeFits, Installed, OnDisk, DiskIsGpt, SoleEsp, OnlyTarget;
  }

  /** A relation is ambiguous where the EFI system partition is known by its name only. */
  lemma AmbiguousLinks(e: CaseEvidence, relations: seq<Relation>, esp: Id)
    requires ExactRelations(e, relations) && SoleEsp(e, esp)
    ensures (exists r | r in relations :: r.confidence.AmbiguousConfidence?) <==>
      !TypedEsp(e, esp) && RelatedDisks(e, esp) != {}
  {
    hide RelatedDisks, RelatedPartitions, LetterOnly, EspConfidence, TypedEsp, SignedEsp;
    SignIff(e, esp);
    EspIsProvenOrAmbiguous(e, esp);
    if !TypedEsp(e, esp) && RelatedDisks(e, esp) != {} {
      var d :| d in RelatedDisks(e, esp);
      assert EspRelation(e, Relation(HostsEsp, d, esp, AmbiguousConfidence));
    }
    if r :| r in relations && r.confidence.AmbiguousConfidence? {
      assert WindowsRelation(e, r) || EspRelation(e, r) || BcdRelation(e, r);
      SignIff(e, r.to);
      assert r.to == esp;
    }
  }

  /** The pair carries the chain unless it is misplaced. */
  lemma ConnectedIffPlaced(e: CaseEvidence, windows: seq<Candidate>, bcds: seq<Candidate>, relations: seq<Relation>,
                           s: Selection)
    requires DistinctOn(e.targets, MachineKey) && ExactRelations(e, relations) && s.Selection? && |bcds| <= 1
    requires bcds == BcdCandidates(OfKind(e.targets, BootStoreTarget))
    requires s.bcd == (if bcds == [] then None else Some(bcds[0].target))
    requires Installed(e, s.windows, s.partition) && OnDisk(e, s.partition, s.disk)
    requires IsKind(e, s.esp, PartitionTarget)
    ensures Connected(relations, s) <==>
      && TypedEsp(e, s.esp) && s.disk in RelatedDisks(e, s.esp)
      && forall t | t in e.targets && t.kind.BootStoreTarget? :: RelatedPartitions(e, t.id) == {s.esp}
  {
    hide RelatedDisks, RelatedPartitions, TypedEsp, EspConfidence, Connected, OfKind, BcdCandidates, DistinctOn,
         ExactRelations;
    ConnectedIffLinked(e, relations, s);
    SignIff(e, s.esp);
    OneStore(e, bcds, if bcds == [] then s.esp else bcds[0].target);
    var w :| w in e.targets && w.id == s.windows && w.kind == WindowsTarget;
    assert Installed(e, w.id, s.partition);
  }

  /** What remains to go wrong once the pair is found. */
  lemma PairBlocks(e: CaseEvidence, windows: seq<Candidate>, esps: seq<Candidate>, bcds: seq<Candidate>,
                   relations: seq<Relation>)
    requires Gathered(e, windows, esps, bcds, relations) && ModeFits(e, Uefi)
    requires |FilterRole(windows, WindowsRole)| == 1 && FilterRole(windows, WindowsPartitionRole) != []
    requires FilterRole(windows, SystemDiskRole) != [] && |esps| == 1
    requires DiskIsGpt(e, FilterRole(windows, SystemDiskRole)[0].target)
    ensures Blocks(e, None, BcdAmbiguousB) <==> |bcds| > 1
    ensures EspInferred(e, None) <==> |bcds| <= 1 && exists r | r in relations :: r.confidence.AmbiguousConfidence?
    ensures var s := Selection(Automatic, FilterRole(windows, WindowsRole)[0].target,
                               FilterRole(windows, WindowsPartitionRole)[0].target,
                               FilterRole(windows, SystemDiskRole)[0].target, esps[0].target,
                               if bcds == [] then None else Some(bcds[0].target));
      Misplaced(e, None) <==>
        && |bcds| <= 1 && !(exists r | r in relations :: r.confidence.AmbiguousConfidence?)
        && !Connected(relations, s)
  {
    hide OfKind, AllWindowsCandidates, EspCandidates, BcdCandidates, FilterRole, DistinctOn, OnlyTarget, ModeFits,
         RelatedDisks, RelatedPartitions, DiskIsGpt, Connected, ExactRelations, Several, TypedEsp, SignedEsp,
         OnlyPair, EspInferred, Misplaced, Blocks, IsKind;
    PairIs(e, windows, esps);
    var d, esp := FilterRole(windows, SystemDiskRole)[0].target, esps[0].target;
    WithPair(e, d, esp);
    SeveralIff(e, BootStoreTarget);
    BcdCandidatesAre(OfKind(e.targets, BootStoreTarget));
    AmbiguousLinks(e, relations, esp);
    if |bcds| <= 1 {
      var s := Selection(Automatic, FilterRole(windows, WindowsRole)[0].target,
                         FilterRole(windows, WindowsPartitionRole)[0].target, d, esp,
                         if bcds == [] then None else Some(bcds[0].target));
      SoleChainIs(e, windows);
      SignedIsPartition(e, esp);
      ConnectedIffPlaced(e, windows, bcds, relations, s);
    }
  }

  lemma SignedIsPartition(e: CaseEvidence, p: Id)
    requires SignedEsp(e, p)
    ensures IsKind(e, p, PartitionTarget)
  {
  }

  /** The candidates of the one installation are its chain. */
  lemma SoleChainIs(e: CaseEvidence, windows: seq<Candidate>)
    requires DistinctOn(e.targets, MachineKey)
    requires windows == AllWindowsCandidates(e, OfKind(e.targets, WindowsTarget))
    requires |FilterRole(windows, WindowsRole)| == 1 && FilterRole(windows, WindowsPartitionRole) != []
    requires FilterRole(windows, SystemDiskRole) != []
    ensures var w, p, d := FilterRole(windows, WindowsRole)[0].target,
                           FilterRole(windows, WindowsPartitionRole)[0].target,
                           FilterRole(windows, SystemDiskRole)[0].target;
      Installed(e, w, p) && OnDisk(e, p, d)
  {
    hide OfKind, AllWindowsCandidates, FilterRole, DistinctOn, OnlyTarget, WindowsCandidates, RelatedPartitions,
         RelatedDisks, IsKind;
    WindowsNumber(e, windows);
    var w: Id :| OnlyTarget(e, WindowsTarget, w);
    OneInstallation(e, windows, w);
    OwnRoles(e, w);
    OnlyIsKind(e, WindowsTarget, w);
    OwnLinks(e, w);
  }

  lemma OwnLinks(e: CaseEvidence, w: Id)
    ensures var own := WindowsCandidates(e, w);
      && own[0].target == w
      && (|own| > 2 ==> RelatedPartitions(e, w) == {own[1].target} && RelatedDisks(e, own[1].target) == {own[2].target})
  {
    hide RelatedPartitions, RelatedDisks, LinkConfidence;
  }

  /** The blockers of the automatic choice. */
  ghost predicate ChoiceBlocked(e: CaseEvidence, b: Blocker) {
    match b
    case UnsupportedLayoutB => Misplaced(e, None)
    case SelectionRequiredB | WindowsPartitionUnresolvedB | DiskNotGptB | BcdAmbiguousB | EvidenceIncompleteB =>
      Blocks(e, None, b)
    case _ => false
  }

  /** Why there is no automatic choice. */
  lemma ChoiceBlocks(e: CaseEvidence, windows: seq<Candidate>, esps: seq<Candidate>, bcds: seq<Candidate>,
                     relations: seq<Relation>, b: Blocker)
    requires Gathered(e, windows, esps, bcds, relations)
    ensures var choice := ChooseAutomatically(e, ModeOf(ModeWords(e)), windows, esps, bcds, relations);
      && (b in choice.blockers <==> ChoiceBlocked(e, b))
      && (choice.ambiguities == if Misplaced(e, None) then [UnsupportedLayoutA] else [])
  {
    hide OfKind, AllWindowsCandidates, EspCandidates, BcdCandidates, FilterRole, DistinctOn, OnlyTarget, ModeFits,
         RelatedDisks, RelatedPartitions, DiskIsGpt, Connected, ExactRelations, Several, TypedEsp, SoleEsp, SoleDisk,
         ModeOf, ModeWords, SoleInstallation, OnlyEsp, NoPair, OnlyPair, EspInferred, Misplaced, SolePair, Blocks;
    PlainBlocks(e);
    ModeFitsIff(e, Uefi);
    if ModeFits(e, Uefi) {
      PairIs(e, windows, esps);
      DiskBlocks(e, windows);
      var ds := FilterRole(windows, SystemDiskRole);
      if |FilterRole(windows, WindowsRole)| == 1 && FilterRole(windows, WindowsPartitionRole) != [] && ds != []
         && DiskIsGpt(e, ds[0].target) && |esps| == 1
      {
        PairBlocks(e, windows, esps, bcds, relations);
      } else {
        WithoutPair(e);
      }
    } else {
      NobodySelects(e);
      WithoutPair(e);
    }
  }

  lemma PlainBlocks(e: CaseEvidence)
    ensures Blocks(e, None, SelectionRequiredB) <==> !ModeFits(e, Uefi)
    ensures Blocks(e, None, EvidenceIncompleteB) <==> EspInferred(e, None)
  {
    hide ModeFits, EspInferred;
  }

  lemma NobodyElse(e: CaseEvidence, w: Id)
    requires ModeFits(e, Uefi)
    ensures SoleInstallation(e, None, w) <==> OnlyTarget(e, WindowsTarget, w)
  {
  }

  /** Where the one installation has no disk of its own, or no GPT disk. */
  lemma DiskBlocks(e: CaseEvidence, windows: seq<Candidate>)
    requires DistinctOn(e.targets, MachineKey) && ModeFits(e, Uefi)
    requires windows == AllWindowsCandidates(e, OfKind(e.targets, WindowsTarget))
    ensures var ps, ds := FilterRole(windows, WindowsPartitionRole), FilterRole(windows, SystemDiskRole);
      && (Blocks(e, None, WindowsPartitionUnresolvedB) <==>
            |FilterRole(windows, WindowsRole)| == 1 && (ps == [] || ds == []))
      && (Blocks(e, None, DiskNotGptB) <==>
            |FilterRole(windows, WindowsRole)| == 1 && ps != [] && ds != [] && !DiskIsGpt(e, ds[0].target))
  {
    hide OfKind, AllWindowsCandidates, FilterRole, DistinctOn, OnlyTarget, ModeFits, DiskIsGpt, SoleDisk,
         SoleInstallation;
    WindowsNumber(e, windows);
    forall d: Id {
      SoleDiskIs(e, None, windows, d);
    }
    forall w: Id {
      NobodyElse(e, w);
    }
    var ps, ds := FilterRole(windows, WindowsPartitionRole), FilterRole(windows, SystemDiskRole);
    if w: Id :| OnlyTarget(e, WindowsTarget, w) {
      assert SoleInstallation(e, None, w);
      if ps != [] && ds != [] {
        assert SoleDisk(e, None, ds[0].target);
      }
    }
  }

  lemma TouchesIff(e: CaseEvidence, relations: seq<Relation>, s: Selection)
    requires ExactRelations(e, relations)
    ensures RuntimeOnlySelected(relations, s) <==> TouchesLetter(e, s)
  {
    hide RelatedPartitions, RelatedDisks, LetterOnly, EspConfidence, IsKind;
    if r :| r in relations && r.confidence.RuntimeOnly? && (Selects(s, r.from) || Selects(s, r.to)) {
      EspIsProvenOrAmbiguous(e, r.to);
      assert WindowsRelation(e, r) || EspRelation(e, r) || BcdRelation(e, r);
      assert LetterOnly(e, r.to, r.from);
    }
    if id: Id, p: Id :|
      && LetterOnly(e, id, p) && (Selects(s, id) || Selects(s, p))
      && RelatedPartitions(e, id) == {p} && (IsKind(e, id, WindowsTarget) || IsKind(e, id, BootStoreTarget))
    {
      if IsKind(e, id, WindowsTarget) {
        assert WindowsRelation(e, Relation(HostsWindows, p, id, RuntimeOnly));
      } else {
        assert BcdRelation(e, Relation(ContainsBcd, p, id, RuntimeOnly));
      }
    }
  }

  lemma RuntimeBlocks(e: CaseEvidence, technician: Option<TechnicianSelection>, windows: seq<Candidate>,
                      esps: seq<Candidate>, bcds: seq<Candidate>, relations: seq<Relation>, choice: Choice)
    requires Gathered(e, windows, esps, bcds, relations)
    requires technician.Some? ==> TechnicianFits(e, technician.value)
    requires Choose(e, ModeOf(ModeWords(e)), technician, windows, esps, bcds, relations) == Some(choice)
    ensures RuntimeOnlySelected(relations, choice.selection) <==> Blocks(e, technician, RelationRuntimeOnlyB)
  {
    hide AutomaticChain, TechnicianFits, TechnicianValid, TouchesLetter, RuntimeOnlySelected, ModeFits, ModeOf,
         ModeWords, ChooseAutomatically, AllWindowsCandidates, EspCandidates, BcdCandidates, OfKind, DistinctOn,
         ExactRelations;
    var mode := ModeOf(ModeWords(e));
    ModeFitsIff(e, Uefi);
    TouchesIff(e, relations, choice.selection);
    NothingTouched(e);
    if technician.None? {
      if s: Selection :| Chosen(e, None, s) && TouchesLetter(e, s) {
        ChainIsChosen(e, mode, windows, esps, bcds, relations, s);
      }
      if choice.selection.Selection? {
        ChosenIsChain(e, mode, windows, esps, bcds, relations, choice);
        OnlyInUefi(e, mode, windows, esps, bcds, relations);
        assert Chosen(e, None, choice.selection);
      }
    } else {
      assert Chosen(e, technician, choice.selection);
    }
  }

  lemma NothingTouched(e: CaseEvidence)
    ensures !TouchesLetter(e, NoSelection)
  {
  }

  lemma OnlyInUefi(e: CaseEvidence, mode: FirmwareMode, windows: seq<Candidate>, esps: seq<Candidate>,
                   bcds: seq<Candidate>, relations: seq<Relation>)
    requires ChooseAutomatically(e, mode, windows, esps, bcds, relations).selection.Selection?
    ensures mode.Uefi?
  {
  }

  lemma InBlockers(e: CaseEvidence, mode: FirmwareMode, technician: Option<TechnicianSelection>, choice: Choice,
                   windows: seq<Candidate>, esps: seq<Candidate>, relations: seq<Relation>, b: Blocker)
    ensures b in Blockers(e, mode, technician, choice, windows, esps, relations) <==>
      || b in choice.blockers || b in BitLockerBlockers(e.views) || b in HealthBlockers(e.views)
      || (b.FirmwareUnknownB? && mode.UnknownMode?) || (b.FirmwareConflictB? && mode.ConflictingMode?)
      || (b.FirmwareNotUefiB? && mode.Bios?) || (b.UnsupportedLayoutB? && mode.Bios?)
      || (b.WindowsMissingB? && windows == [])
      || (b.WindowsAmbiguousB? && technician.None? && |FilterRole(windows, WindowsRole)| > 1)
      || (b.EspMissingB? && esps == [])
      || (b.EspAmbiguousB? && |esps| > 1 && (technician.None? || technician.value.esp.None?))
      || (b.RelationRuntimeOnlyB? && RuntimeOnlySelected(relations, choice.selection))
  {
    hide BitLockerBlockers, HealthBlockers, RuntimeOnlySelected, FilterRole;
  }

  /** What the automatic choice adds, if there is one. */
  lemma ChoiceAdds(e: CaseEvidence, technician: Option<TechnicianSelection>, windows: seq<Candidate>,
                   esps: seq<Candidate>, bcds: seq<Candidate>, relations: seq<Relation>, choice: Choice, b: Blocker)
    requires Gathered(e, windows, esps, bcds, relations)
    requires Choose(e, ModeOf(ModeWords(e)), technician, windows, esps, bcds, relations) == Some(choice)
    ensures b in choice.blockers <==>
      match b
      case UnsupportedLayoutB => Misplaced(e, technician)
      case SelectionRequiredB | WindowsPartitionUnresolvedB | DiskNotGptB | BcdAmbiguousB | EvidenceIncompleteB =>
        Blocks(e, technician, b)
      case _ => false
    ensures choice.ambiguities == if Misplaced(e, technician) then [UnsupportedLayoutA] else []
  {
    hide TechnicianValid, ModeFits, ModeOf, ModeWords, ChooseAutomatically, Gathered, SolePair, SoleDisk,
         SoleInstallation, EspInferred, Misplaced, DiskIsGpt, Several;
    if technician.None? {
      ChoiceBlocks(e, windows, esps, bcds, relations, b);
    } else {
      NoAutomaticBlocks(e, technician);
    }
  }

  /** Every blocker stands for what it says of the evidence, and is there whenever the evidence says so. */
  lemma BlockersAre(e: CaseEvidence, technician: Option<TechnicianSelection>, windows: seq<Candidate>,
                    esps: seq<Candidate>, bcds: seq<Candidate>, relations: seq<Relation>, choice: Choice, b: Blocker)
    requires Gathered(e, windows, esps, bcds, relations)
    requires technician.Some? ==> TechnicianFits(e, technician.value)
    requires Choose(e, ModeOf(ModeWords(e)), technician, windows, esps, bcds, relations) == Some(choice)
    ensures b in Blockers(e, ModeOf(ModeWords(e)), technician, choice, windows, esps, relations)
            <==> Blocks(e, technician, b)
  {
    hide Blockers, TechnicianValid, Chosen, TouchesLetter, RuntimeOnlySelected, ModeFits, ModeOf, ModeWords,
         ChooseAutomatically, AllWindowsCandidates, EspCandidates, BcdCandidates, OfKind, DistinctOn, ExactRelations,
         Several, SeveralEsps, SignedEsp, SolePair, SoleDisk, SoleInstallation, EspInferred, Misplaced, DiskIsGpt,
         BitLockerBlockers, HealthBlockers, SaysLocked, LockUndecided, FailureReported, HealthUndecided,
         HealthReported, FilterRole, Linked;
    var mode := ModeOf(ModeWords(e));
    InBlockers(e, mode, technician, choice, windows, esps, relations, b);
    ChoiceAdds(e, technician, windows, esps, bcds, relations, choice, b);
    ModeFitsIff(e, Uefi);
    ModeFitsIff(e, Bios);
    ModeFitsIff(e, UnknownMode);
    ModeFitsIff(e, ConflictingMode);
    LockBlocks(e, b);
    HealthBlocks(e, b);
    WindowsNumber(e, windows);
    EspNumber(e, esps);
    RuntimeBlocks(e, technician, windows, esps, bcds, relations, choice);
  }

  lemma NoAutomaticBlocks(e: CaseEvidence, technician: Option<TechnicianSelection>)
    requires technician.Some?
    ensures forall w: Id :: !SoleInstallation(e, technician, w)
    ensures forall d: Id :: !SoleDisk(e, technician, d)
    ensures forall d: Id, esp: Id :: !SolePair(e, technician, d, esp)
    ensures !EspInferred(e, technician) && !Misplaced(e, technician)
  {
    hide ModeFits, OnlyTarget, Installed, OnDisk, DiskIsGpt, SoleEsp, TypedEsp, RelatedDisks, RelatedPartitions,
         Several;
  }

  /** What each ambiguity says of the evidence. */
  ghost predicate LeavesOpen(e: CaseEvidence, technician: Option<TechnicianSelection>, a: Ambiguity) {
    match a
    case FirmwareConflictA => ModeFits(e, ConflictingMode)
    case WindowsPartitionUnresolvedA =>
      exists w | w in e.targets :: w.kind.WindowsTarget?
        && (|RelatedPartitions(e, w.id)| > 1 || (RelatedPartitions(e, w.id) == {} && w.letter.Some?))
    case SystemDiskUnresolvedA =>
      exists w: Id, p: Id :: Installed(e, w, p) && |RelatedDisks(e, p)| > 1
    case EspAmbiguousA => SeveralEsps(e)
    case BcdMissingA => exists t | t in e.targets :: t.kind.BootStoreTarget? && RelatedPartitions(e, t.id) == {}
    case BcdAmbiguousA => exists t | t in e.targets :: t.kind.BootStoreTarget? && |RelatedPartitions(e, t.id)| > 1
    case BitLockerInaccessibleA => exists v | v in e.views :: SaysLocked(v)
    case BitLockerUnknownA => exists v | v in e.views :: LockUndecided(v)
    case HealthUnsafeA => FailureReported(e)
    case HealthUnknownA => !FailureReported(e) && HealthUndecided(e)
    case UnsupportedLayoutA => Misplaced(e, technician)
    case EspCrossDiskA | EspUnreadableA | BcdUnreadableA | HealthWarningA => false
  }

  lemma WindowsOpen(e: CaseEvidence, a: Ambiguity)
    ensures WindowsAmbiguity(e, OfKind(e.targets, WindowsTarget), a) <==>
      (a.WindowsPartitionUnresolvedA? || a.SystemDiskUnresolvedA?) && LeavesOpen(e, None, a)
  {
    hide OfKind, RelatedPartitions, RelatedDisks;
    var ws := OfKind(e.targets, WindowsTarget);
    if w: Id, p: Id :| a.SystemDiskUnresolvedA? && Installed(e, w, p) && |RelatedDisks(e, p)| > 1 {
      var t :| t in e.targets && t.id == w && t.kind == WindowsTarget;
      SizeOfSingleton(RelatedPartitions(e, w), p);
      assert t in ws && WindowsAmbiguityOf(e, t, a);
    }
    if t :| t in ws && WindowsAmbiguityOf(e, t, a) {
      assert a.SystemDiskUnresolvedA? ==> Installed(e, t.id, The(RelatedPartitions(e, t.id)));
    }
  }

  lemma BcdOpen(e: CaseEvidence, a: Ambiguity)
    ensures BcdAmbiguity(e, OfKind(e.targets, BootStoreTarget), a) <==>
      (a.BcdMissingA? || a.BcdAmbiguousA?) && LeavesOpen(e, None, a)
  {
    hide OfKind, RelatedPartitions;
  }

  lemma AmbiguousIsOpen(e: CaseEvidence, technician: Option<TechnicianSelection>, a: Ambiguity)
    requires DistinctOn(e.targets, MachineKey) && !a.UnsupportedLayoutA?
    ensures Ambiguous(e, a) <==> LeavesOpen(e, technician, a)
  {
    hide OfKind, RelatedPartitions, RelatedDisks, WindowsAmbiguity, BcdAmbiguity, ModeFits, ModeOf, ModeWords,
         EspCandidates, SomeHealth, BitLockerBlockers, HealthBlockers, SaysLocked, LockUndecided, FailureReported,
         HealthUndecided, HealthReported, SeveralEsps, DistinctOn, Installed;
    ModeFitsIff(e, ConflictingMode);
    WindowsOpen(e, a);
    BcdOpen(e, a);
    EspNumber(e, EspCandidates(e, OfKind(e.targets, PartitionTarget)));
    LockBlocks(e, BitLockerInaccessibleB);
    LockBlocks(e, BitLockerUnknownB);
    HealthBlocks(e, HealthUnsafeB);
    HealthBlocks(e, HealthUnknownB);
  }

  // ---------------------------------------------------------------- who plays which role

  /** Which target is a candidate for which role, and how sure that is. */
  ghost predicate Plays(e: CaseEvidence, c: Candidate) {
    match c.role
    case WindowsRole => IsKind(e, c.target, WindowsTarget) && c.confidence.StrongInference?
    case WindowsPartitionRole =>
      exists w: Id :: Installed(e, w, c.target)
        && c.confidence == if LetterOnly(e, w, c.target) then RuntimeOnly else StrongInference
    case SystemDiskRole =>
      c.confidence.StrongInference? && exists w: Id, p: Id :: Installed(e, w, p) && OnDisk(e, p, c.target)
    case EspRole =>
      SignedEsp(e, c.target) && c.confidence == if TypedEsp(e, c.target) then Proven else AmbiguousConfidence
    case BcdRole => IsKind(e, c.target, BootStoreTarget) && c.confidence.StrongInference?
    case FirmwareRole => false
  }

  lemma OwnCandidate(e: CaseEvidence, w: Id, c: Candidate)
    ensures c in WindowsCandidates(e, w) <==>
      match c.role
      case WindowsRole => c.target == w && c.confidence.StrongInference?
      case WindowsPartitionRole =>
        RelatedPartitions(e, w) == {c.target} && c.confidence == LinkConfidence(e, w, c.target)
      case SystemDiskRole =>
        c.confidence.StrongInference?
        && exists p: Id :: RelatedPartitions(e, w) == {p} && RelatedDisks(e, p) == {c.target}
      case _ => false
  {
    hide RelatedPartitions, RelatedDisks, LinkConfidence;
    var own := WindowsCandidates(e, w);
    assert c in own <==> exists i :: 0 <= i < |own| && own[i] == c;
    SizeOfSingleton(RelatedPartitions(e, w), c.target);
    if p: Id :| RelatedPartitions(e, w) == {p} && RelatedDisks(e, p) == {c.target} {
      SizeOfSingleton(RelatedPartitions(e, w), p);
      SizeOfSingleton(RelatedDisks(e, p), c.target);
    }
  }

  lemma {:induction false} FromInstallations(e: CaseEvidence, ws: seq<Machine>, c: Candidate)
    ensures c in AllWindowsCandidates(e, ws) <==> exists w | w in ws :: c in WindowsCandidates(e, w.id)
  {
    hide WindowsCandidates;
    if ws != [] {
      var n := |ws| - 1;
      FromInstallations(e, ws[..n], c);
      assert ws == ws[..n] + [ws[n]];
    }
  }

  lemma OwnCandidatePlays(e: CaseEvidence, w: Id, c: Candidate)
    requires IsKind(e, w, WindowsTarget) && c in WindowsCandidates(e, w)
    ensures (c.role.WindowsRole? || c.role.WindowsPartitionRole? || c.role.SystemDiskRole?) && Plays(e, c)
  {
    hide WindowsCandidates, RelatedPartitions, RelatedDisks, LetterOnly, IsKind;
    OwnCandidate(e, w, c);
    if c.role.WindowsPartitionRole? {
      assert Installed(e, w, c.target);
    }
    if c.role.SystemDiskRole? {
      var p: Id :| RelatedPartitions(e, w) == {p} && RelatedDisks(e, p) == {c.target};
      assert Installed(e, w, p) && OnDisk(e, p, c.target);
    }
  }

  lemma PlayIsOwn(e: CaseEvidence, c: Candidate) returns (w: Id)
    requires (c.role.WindowsRole? || c.role.WindowsPartitionRole? || c.role.SystemDiskRole?) && Plays(e, c)
    ensures IsKind(e, w, WindowsTarget) && c in WindowsCandidates(e, w)
  {
    hide WindowsCandidates, RelatedPartitions, RelatedDisks, LetterOnly, IsKind;
    w := c.target;
    if c.role.WindowsPartitionRole? {
      w :| Installed(e, w, c.target)
           && c.confidence == if LetterOnly(e, w, c.target) then RuntimeOnly else StrongInference;
    }
    if c.role.SystemDiskRole? {
      var p: Id;
      w, p :| Installed(e, w, p) && OnDisk(e, p, c.target);
    }
    OwnCandidate(e, w, c);
  }

  lemma WindowsPlay(e: CaseEvidence, c: Candidate)
    ensures c in AllWindowsCandidates(e, OfKind(e.targets, WindowsTarget)) <==>
      (c.role.WindowsRole? || c.role.WindowsPartitionRole? || c.role.SystemDiskRole?) && Plays(e, c)
  {
    hide OfKind, AllWindowsCandidates, WindowsCandidates, Plays, IsKind;
    var ws := OfKind(e.targets, WindowsTarget);
    FromInstallations(e, ws, c);
    if w :| w in ws && c in WindowsCandidates(e, w.id) {
      IsOfKind(e, w.id, WindowsTarget);
      OwnCandidatePlays(e, w.id, c);
    }
    if (c.role.WindowsRole? || c.role.WindowsPartitionRole? || c.role.SystemDiskRole?) && Plays(e, c) {
      var w := PlayIsOwn(e, c);
      IsOfKind(e, w, WindowsTarget);
    }
  }

  lemma EspPlay(e: CaseEvidence, c: Candidate)
    ensures c in EspCandidates(e, OfKind(e.targets, PartitionTarget)) <==> c.role.EspRole? && Plays(e, c)
  {
    hide OfKind, EspCandidates, EspConfidence, SignedEsp, TypedEsp;
    var parts := OfKind(e.targets, PartitionTarget);
    var esps := EspCandidates(e, parts);
    SignIff(e, c.target);
    EspIsProvenOrAmbiguous(e, c.target);
    if c in esps {
      CandidateHasConfidence(e, parts, c);
      CandidateIsSigned(e, esps, c);
      EspHasRole(e, parts, c);
    }
    if SignedEsp(e, c.target) {
      var t :| t in e.targets && t.id == c.target && t.kind == PartitionTarget;
      EspIsCandidate(e, parts, t);
    }
  }

  lemma {:induction false} EspHasRole(e: CaseEvidence, parts: seq<Machine>, c: Candidate)
    requires c in EspCandidates(e, parts)
    ensures c.role.EspRole?
  {
    hide EspConfidence;
    if c in EspCandidates(e, parts[..|parts| - 1]) {
      EspHasRole(e, parts[..|parts| - 1], c);
    }
  }

  lemma {:induction false} StoresPlay(stores: seq<Machine>, c: Candidate)
    ensures c in BcdCandidates(stores) <==>
      c.role.BcdRole? && c.confidence.StrongInference? && exists t | t in stores :: t.id == c.target
  {
    if stores != [] {
      var n := |stores| - 1;
      StoresPlay(stores[..n], c);
      assert stores == stores[..n] + [stores[n]];
    }
  }

  lemma CandidatesPlay(e: CaseEvidence, fw: Candidate, windows: seq<Candidate>, esps: seq<Candidate>,
                       bcds: seq<Candidate>, c: Candidate)
    requires fw.role.FirmwareRole? && windows == AllWindowsCandidates(e, OfKind(e.targets, WindowsTarget))
    requires esps == EspCandidates(e, OfKind(e.targets, PartitionTarget))
    requires bcds == BcdCandidates(OfKind(e.targets, BootStoreTarget))
    ensures c in [fw] + windows + esps + bcds <==> c == fw || Plays(e, c)
  {
    hide OfKind, AllWindowsCandidates, EspCandidates, BcdCandidates, SignedEsp, TypedEsp, Installed, OnDisk,
         LetterOnly;
    WindowsPlay(e, c);
    EspPlay(e, c);
    StoresPlay(OfKind(e.targets, BootStoreTarget), c);
    IsOfKind(e, c.target, BootStoreTarget);
  }

  method FindFirmware(e: CaseEvidence) returns (found: Option<Machine>)
    ensures found.Some? <==> HasFirmware(e)
    ensures found.Some? ==> found.value in e.targets && found.value.kind.FirmwareTarget?
  {
    for i := 0 to |e.targets|
      invariant forall t | t in e.targets[..i] :: !t.kind.FirmwareTarget?
    {
      assert e.targets[..i + 1] == e.targets[..i] + [e.targets[i]];
      if e.targets[i].kind.FirmwareTarget? { return Some(e.targets[i]); }
    }
    assert e.targets[..|e.targets|] == e.targets;
    found := None;
  }

  /** All candidates, relations and ambiguities, role by role. */
  method Gather(e: CaseEvidence, firmware: Candidate)
    returns (windows: seq<Candidate>, esps: seq<Candidate>, bcds: seq<Candidate>, relations: seq<Relation>,
             ambiguities: seq<Ambiguity>, limitation: bool)
    requires DistinctOn(e.targets, MachineKey) && firmware.role.FirmwareRole?
    ensures windows == AllWindowsCandidates(e, OfKind(e.targets, WindowsTarget))
    ensures esps == EspCandidates(e, OfKind(e.targets, PartitionTarget))
    ensures bcds == BcdCandidates(OfKind(e.targets, BootStoreTarget))
    ensures ExactRelations(e, relations)
    ensures UniqueIds([firmware] + windows + esps + bcds, relations) <==> !SomethingShared(e)
    ensures forall a: Ambiguity | !a.FirmwareConflictA? :: a in ambiguities <==> Ambiguous(e, a)
    ensures FirmwareConflictA !in ambiguities
    ensures limitation <==> HealthUnknownB in HealthBlockers(e.views)
  {
    hide RelatedPartitions, RelatedDisks, EspConfidence, SomethingShared, IsKind, WindowsRelation, EspRelation,
         BcdRelation, DistinctBy, DistinctOn, BitLockerBlockers, HealthBlockers, AllWindowsCandidates, OfKind,
         WindowsAmbiguity, BcdAmbiguity, ExactRelations, UniqueIds, AllWindowsRelations, EspCandidates, BcdCandidates;
    var links, espLinks, bcdLinks;
    var windowsMore, espMore, bcdMore;
    windows, links, windowsMore := ResolveWindows(e);
    esps, espLinks, espMore := ResolveEsp(e);
    bcds, bcdLinks, bcdMore := ResolveBcd(e);
    relations := links + espLinks + bcdLinks;
    RelationsAreExact(e, links, espLinks, bcdLinks);
    forall r | r in espLinks ensures r.kind.HostsEsp? { EspRelationKind(e, r); }
    forall r | r in bcdLinks ensures r.kind.ContainsBcd? { BcdRelationKind(e, r); }
    IdsUniqueIffNothingShared(e, firmware, esps, bcds, espLinks, bcdLinks);
    var lockMore, lockBlockers := ResolveBitLocker(e);
    var healthMore, healthBlockers;
    healthMore, limitation, healthBlockers := ResolveHealth(e);
    ambiguities := windowsMore + espMore + bcdMore + lockMore + healthMore;
    WindowsCodes(e);
    BcdCodes(e);
    Joined(windowsMore, espMore);
    Joined(windowsMore + espMore, bcdMore);
    Joined(windowsMore + espMore + bcdMore, lockMore);
    Joined(windowsMore + espMore + bcdMore + lockMore, healthMore);
  }

  lemma WindowsCodes(e: CaseEvidence)
    ensures forall a | WindowsAmbiguity(e, OfKind(e.targets, WindowsTarget), a) ::
      a.SystemDiskUnresolvedA? || a.WindowsPartitionUnresolvedA?
  {
    hide RelatedPartitions, RelatedDisks, OfKind;
  }

  lemma BcdCodes(e: CaseEvidence)
    ensures forall a | BcdAmbiguity(e, OfKind(e.targets, BootStoreTarget), a) :: a.BcdMissingA? || a.BcdAmbiguousA?
  {
    hide RelatedPartitions, OfKind;
  }

  /** `Resolve`: it succeeds unless there is no firmware target, the technician's selection does not fit the evidence,
      or two Windows installations share a partition or a disk; what it returns is well resolved. */
  method Resolve(e: CaseEvidence, technician: Option<TechnicianSelection>) returns (r: Option<Topology>)
    requires DistinctOn(e.targets, MachineKey)
    ensures r.Some? <==>
      HasFirmware(e) && !SomethingShared(e) && (technician.Some? ==> TechnicianFits(e, technician.value))
    ensures r.Some? ==> WellResolved(e, technician, r.value)
  {
    hide SomethingShared, TechnicianFits, TechnicianValid, Blockers, ActionableChain, FilterRole, DistinctOn,
         ExactRelations, UniqueIds, ChooseAutomatically, BitLockerBlockers, HealthBlockers, AllWindowsCandidates,
         OfKind, EspCandidates, BcdCandidates, IsKind, ModeOf, ModeWords, ModeFits, SafeMedia, RuntimeOnlySelected,
         Ambiguous, AutomaticFits, Blocks, LeavesOpen, Plays;
    var firmware := FindFirmware(e);
    if firmware.None? { return None; }
    var words := CollectModes(e);
    var mode := ModeOf(words);
    var fw := Candidate(FirmwareRole, firmware.value.id, FirmwareConfidence(mode));
    var windows, esps, bcds, relations, ambiguities, limitation := Gather(e, fw);
    if technician.Some? { TechnicianValidIffFits(e, relations, technician.value); }
    var choice := Choose(e, mode, technician, windows, esps, bcds, relations);
    if choice.None? { return None; }
    var blockers := Blockers(e, mode, technician, choice.value, windows, esps, relations);
    var selection := choice.value.selection;
    var eligible := blockers == {} && selection.Selection?;
    if !eligible && selection.Selection? && selection.source.Automatic? {
      selection := NoSelection;
    }
    var candidates := [fw] + windows + esps + bcds;
    if !UniqueIds(candidates, relations) { return None; }
    var all := (if mode.ConflictingMode? then [FirmwareConflictA] else []) + ambiguities + choice.value.ambiguities;
    var t := Topology(mode, candidates, relations, selection, all, limitation, eligible, blockers);
    AutomaticSource(e, mode, windows, esps, bcds, relations);
    ModeFitsIff(e, mode);
    AmbiguitiesExact(e, technician, windows, esps, bcds, relations, choice.value, ambiguities, all);
    forall b ensures b in t.blockers <==> Blocks(e, technician, b) {
      BlockersAre(e, technician, windows, esps, bcds, relations, choice.value, b);
    }
    forall c: Candidate ensures c in candidates <==> c == fw || Plays(e, c) {
      CandidatesPlay(e, fw, windows, esps, bcds, c);
    }
    NoFirmwarePlays(e);
    UnknownHealthBlocks(e, technician);
    FirmwareIsFound(e, firmware.value, fw, mode);
    if blockers == {} {
      UnblockedIsSelected(e, mode, technician, windows, esps, bcds, relations, choice.value);
      UnblockedIsActionable(e, mode, technician, windows, esps, bcds, relations, choice.value, t);
      NoBlockers(e, mode, technician, choice.value, windows, esps, relations);
      UnblockedIsSafe(e, mode, technician, choice.value, windows, esps, relations);
    }
    if technician.None? {
      forall s: Selection | s.Selection? ensures AutomaticFits(e, s) <==> t.eligible && t.selection == s {
        AutomaticEligibility(e, windows, esps, bcds, relations, choice.value, s);
      }
    }
    if technician.Some? && TechnicianFits(e, technician.value) {
      TechnicianEligibility(e, mode, technician.value, choice.value, windows, esps, relations);
    }
    r := Some(t);
  }

  lemma UnblockedIsSafe(e: CaseEvidence, mode: FirmwareMode, technician: Option<TechnicianSelection>, choice: Choice,
                        windows: seq<Candidate>, esps: seq<Candidate>, relations: seq<Relation>)
    requires Blockers(e, mode, technician, choice, windows, esps, relations) == {}
    ensures SafeMedia(e.views)
  {
    hide BitLockerBlockers, HealthBlockers, FirmwareBlockers, RuntimeOnlySelected, FilterRole, SafeMedia;
    var all := Blockers(e, mode, technician, choice, windows, esps, relations);
    assert BitLockerBlockers(e.views) <= all && HealthBlockers(e.views) <= all;
    SafeMediaIff(e.views);
  }

  /** An automatic selection that may be acted on was the only one: one installation, one partition with any sign of
      being an EFI system partition, at most one boot store. */
  lemma AutomaticIsUnique(e: CaseEvidence, t: Topology)
    requires WellResolved(e, None, t) && t.eligible
    ensures t.selection.Selection? && t.selection.source.Automatic?
    ensures OnlyTarget(e, WindowsTarget, t.selection.windows) && SoleEsp(e, t.selection.esp)
    ensures !Several(e, BootStoreTarget)
    ensures t.selection.bcd.Some? ==> OnlyTarget(e, BootStoreTarget, t.selection.bcd.value)
  {
    hide ExactRelations, UniqueIds, Blocks, LeavesOpen, Plays, FirmwareFits, SafeMedia, ModeFits, ModeOf, ModeWords,
         Linked, OnlyEsp, SoleEsp, DiskIsGpt, Lasting;
    assert ActionableChain(e, t);
    assert AutomaticFits(e, t.selection);
    SoleEspIff(e, t.selection.esp);
  }

  lemma UnknownHealthBlocks(e: CaseEvidence, technician: Option<TechnicianSelection>)
    ensures HealthUnknownB in HealthBlockers(e.views) <==> Blocks(e, technician, HealthUnknownB)
  {
    HealthBlocks(e, HealthUnknownB);
  }

  lemma NoFirmwarePlays(e: CaseEvidence)
    ensures forall c | Plays(e, c) :: !c.role.FirmwareRole?
  {
  }

  lemma FirmwareIsFound(e: CaseEvidence, t: Machine, fw: Candidate, mode: FirmwareMode)
    requires t in e.targets && t.kind.FirmwareTarget?
    requires fw == Candidate(FirmwareRole, t.id, FirmwareConfidence(mode))
    ensures FirmwareFits(e, mode, fw)
  {
  }

  function FirmwareConfidence(mode: FirmwareMode): Confidence {
    match mode
    case Uefi | Bios => Proven
    case ConflictingMode => AmbiguousConfidence
    case UnknownMode => UnknownConfidence
  }

  lemma EspRelationKind(e: CaseEvidence, r: Relation)
    requires EspRelation(e, r)
    ensures r.kind.HostsEsp?
  {
  }

  lemma BcdRelationKind(e: CaseEvidence, r: Relation)
    requires BcdRelation(e, r)
    ensures r.kind.ContainsBcd?
  {
  }

  lemma RelationsAreExact(e: CaseEvidence, links: seq<Relation>, espLinks: seq<Relation>, bcdLinks: seq<Relation>)
    requires links == AllWindowsRelations(e, OfKind(e.targets, WindowsTarget))
    requires forall r :: r in espLinks <==> EspRelation(e, r)
    requires forall r :: r in bcdLinks <==> BcdRelation(e, r)
    ensures ExactRelations(e, links + espLinks + bcdLinks)
  {
    hide WindowsRelation, EspRelation, BcdRelation, AllWindowsRelations, OfKind;
    forall r
      ensures r in links + espLinks + bcdLinks <==> WindowsRelation(e, r) || EspRelation(e, r) || BcdRelation(e, r)
    {
      WindowsRelationsExactly(e, r);
    }
  }

  /** All ambiguities together are what the evidence leaves open. */
  lemma AmbiguitiesExact(e: CaseEvidence, technician: Option<TechnicianSelection>, windows: seq<Candidate>,
                         esps: seq<Candidate>, bcds: seq<Candidate>, relations: seq<Relation>, choice: Choice,
                         ambiguities: seq<Ambiguity>, all: seq<Ambiguity>)
    requires Gathered(e, windows, esps, bcds, relations)
    requires Choose(e, ModeOf(ModeWords(e)), technician, windows, esps, bcds, relations) == Some(choice)
    requires forall a: Ambiguity | !a.FirmwareConflictA? :: a in ambiguities <==> Ambiguous(e, a)
    requires FirmwareConflictA !in ambiguities
    requires all == (if ModeOf(ModeWords(e)).ConflictingMode? then [FirmwareConflictA] else []) + ambiguities
                    + choice.ambiguities
    ensures forall a :: a in all <==> LeavesOpen(e, technician, a)
  {
    hide Ambiguous, Choose, ModeFits, ModeOf, ModeWords, AllWindowsCandidates, EspCandidates, BcdCandidates, OfKind,
         ExactRelations, DistinctOn, Misplaced, LeavesOpen;
    ModeFitsIff(e, ConflictingMode);
    ChoiceAdds(e, technician, windows, esps, bcds, relations, choice, UnsupportedLayoutB);
    forall a ensures a in all <==> LeavesOpen(e, technician, a) {
      OpenUnlessKnown(e, technician, a);
      if !a.UnsupportedLayoutA? { AmbiguousIsOpen(e, technician, a); }
    }
  }

  lemma OpenUnlessKnown(e: CaseEvidence, technician: Option<TechnicianSelection>, a: Ambiguity)
    ensures a.FirmwareConflictA? ==> (LeavesOpen(e, technician, a) <==> ModeFits(e, ConflictingMode))
    ensures a.UnsupportedLayoutA? ==> (LeavesOpen(e, technician, a) <==> Misplaced(e, technician)) && !Ambiguous(e, a)
  {
    hide ModeFits, Misplaced;
  }

  /** Dual boot: two installations whose partitions lie on one disk make every resolution fail, technician or not. */
  lemma DualBootIsUnresolvable(e: CaseEvidence, a: Machine, b: Machine, p: Id, q: Id, disk: Id)
    requires a in e.targets && b in e.targets && a.id != b.id
    requires Installed(e, a.id, p) && Installed(e, b.id, q) && a.kind.WindowsTarget? && b.kind.WindowsTarget?
    requires OnDisk(e, p, disk) && OnDisk(e, q, disk)
    ensures SomethingShared(e)
  {
    hide RelatedPartitions, RelatedDisks, IsKind;
    SizeOfSingleton(RelatedPartitions(e, a.id), p);
    SizeOfSingleton(RelatedPartitions(e, b.id), q);
    SizeOfSingleton(RelatedDisks(e, p), disk);
    assert Shared(e, a, b);
  }
}
