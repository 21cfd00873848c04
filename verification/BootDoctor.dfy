/** Boot Doctor: which findings a topology gives rise to, and which of them survive suppression. */
module BootDoctor {
  import opened Domain
  import opened Resolver
  import Collections
  import Chain

  datatype FirmwareCode =
    | FirmwareModeUnknown | FirmwareModeConflicting | UefiWithMbrSystemDisk | LegacyWithGptLayout
    | UnsupportedLegacyBootTopology

  datatype WindowsCode =
    | WindowsInstallationMissing | MultipleWindowsInstallations | WindowsInstallationAmbiguous
    | WindowsPartitionRelationUnknown | WindowsSystemDiskRelationUnknown | WindowsInstallationIncomplete

  datatype EspCode =
    | EspMissing | MultipleEsps | EspAmbiguous | EspCrossDisk
    | EspRelationUnknown | EspUnreadable

  datatype BcdCode =
    | BcdStoreMissing | BcdStoreAmbiguous | BcdStoreUnreadable | BcdMembershipUnknown
    | BcdWindowsEntryMissing | BcdPointsToUnknownInstallation | BcdCrossDiskMismatch

  datatype MediaCode =
    | BitLockerLocked | BitLockerStatusUnknown | BitLockerRecoveryMaterialRequired | BitLockerBlocksBootAnalysis
    | StorageHealthCritical | StorageHealthWarning | StorageHealthUnknown | StorageEvidenceMissing

  datatype OverallCode =
    | UnsafeToAttemptBootRepair | BootTopologyIncomplete | BootTopologyAmbiguous | BootTopologyConflicting
    | InsufficientEvidenceForRepairPlan | TechnicianSelectionRequired | BootTopologyConsistent

  /** Finding codes, by what they are about. */
  datatype Code =
    | OfFirmware(firmware: FirmwareCode) | OfWindows(windows: WindowsCode) | OfEsp(esp: EspCode) | OfBcd(bcd: BcdCode)
    | OfMedia(media: MediaCode) | OfOverall(overall: OverallCode)

  /** Partition styles by target, as their locators give them. */
  datatype Style = Gpt | Mbr

  /** A draft is the mark "insufficient evidence" under its code; targets and evidence lists are left out. */
  type Drafts = map<Code, bool>

  // ---------------------------------------------------------------- queries on the topology

  function TargetsOf(t: Topology, role: Role): set<Id> {
    set c | c in t.candidates && c.role == role :: c.target
  }

  predicate HasRelationKind(t: Topology, kind: RelationKind) {
    exists r | r in t.relations ::
      r.kind == kind && !r.confidence.AmbiguousConfidence? && !r.confidence.UnknownConfidence?
  }

  predicate HasBcdForWindows(t: Topology, windows: set<Id>) {
    exists r | r in t.relations ::
      r.kind.BootStoreForWindows? && r.to in windows && !r.confidence.AmbiguousConfidence?
      && !r.confidence.UnknownConfidence?
  }

  predicate BcdPointsElsewhere(t: Topology) {
    exists r | r in t.relations :: r.kind.BootStoreForWindows? && r.to !in TargetsOf(t, WindowsRole)
  }

  function WindowsDisks(t: Topology): set<Id> {
    var parts := set r | r in t.relations && r.kind.HostsWindows? :: r.from;
    if parts == {} then set r | r in t.relations && r.kind.Contains? :: r.from
    else set r | r in t.relations && r.kind.Contains? && r.to in parts :: r.from
  }

  /** The selected ESP lies on another disk, or some ESP on a disk without Windows. */
  predicate CrossDiskEsp(t: Topology) {
    if t.selection.Selection? && (exists r | r in t.relations ::
         r.kind.HostsEsp? && r.from == t.selection.disk && r.to == t.selection.esp) then false
    else if t.selection.Selection? && (exists r | r in t.relations ::
         r.kind.HostsEsp? && r.to == t.selection.esp && r.from != t.selection.disk) then true
    else
      WindowsDisks(t) != {} && exists r | r in t.relations :: r.kind.HostsEsp? && r.from !in WindowsDisks(t)
  }

  predicate BcdCrossDisk(t: Topology) {
    t.selection.Selection? && exists r | r in t.relations ::
      r.kind.ContainsBcd? && r.from != t.selection.esp && r.from != t.selection.partition
  }

  function PreferredStyle(t: Topology, styles: map<Id, Style>): Option<Style> {
    var disks := TargetsOf(t, SystemDiskRole);
    var disk := if t.selection.Selection? then Some(t.selection.disk)
                else if |disks| == 1 then Some(The(disks)) else None;
    if disk.Some? && disk.value in styles then Some(styles[disk.value]) else None
  }

  predicate ConflictingAmbiguity(t: Topology) {
    UnsupportedLayoutA in t.ambiguities || HealthUnsafeA in t.ambiguities
    || BitLockerInaccessibleA in t.ambiguities || BitLockerUnknownA in t.ambiguities
  }

  // ---------------------------------------------------------------- when a finding is drafted

  /** What `collectDrafts` asks of a topology. */
  datatype Tests = Tests(
    mode: FirmwareMode, gpt: bool, mbr: bool,
    noWindows: bool, windowsAbsent: bool, severalWindows: bool, partitionUnclear: bool, diskUnclear: bool,
    windowsUnrelated: bool,
    noEsp: bool, espAbsent: bool, severalEsps: bool, espElsewhere: bool, espUnrelated: bool, espUnreadable: bool,
    bcdUnclear: bool, bcdAbsent: bool, bcdUnreadable: bool, bcdUnlisted: bool, bcdPointsElsewhere: bool,
    bcdCrossDisk: bool,
    inaccessible: bool, lockUnknown: bool, unsafe: bool, healthWarning: bool, healthUnreported: bool,
    healthUnknown: bool,
    selectionOpen: bool, partial: bool, unsupported: bool, incomplete: bool, sound: bool)

  function TestsOf(t: Topology, styles: map<Id, Style>): Tests {
    var windows, esps, bcds := TargetsOf(t, WindowsRole), TargetsOf(t, EspRole), TargetsOf(t, BcdRole);
    Tests(
      t.mode, PreferredStyle(t, styles) == Some(Gpt),
      PreferredStyle(t, styles) == Some(Mbr) || DiskNotGptB in t.blockers,
      windows == {}, windows == {} || WindowsMissingB in t.blockers, |windows| > 1 || WindowsAmbiguousB in t.blockers,
      WindowsPartitionUnresolvedB in t.blockers || (|windows| == 1 && TargetsOf(t, WindowsPartitionRole) == {}),
      SystemDiskUnresolvedB in t.blockers || (|windows| == 1 && TargetsOf(t, SystemDiskRole) == {}),
      windows != {} && !HasRelationKind(t, HostsWindows),
      esps == {}, esps == {} || EspMissingB in t.blockers, |esps| > 1 || EspAmbiguousB in t.blockers,
      EspCrossDiskA in t.ambiguities || CrossDiskEsp(t),
      esps != {} && !HasRelationKind(t, HostsEsp), EspUnreadableA in t.ambiguities,
      BcdAmbiguousB in t.blockers || |bcds| > 1 || BcdAmbiguousA in t.ambiguities,
      bcds == {} && (BcdMissingB in t.blockers || BcdMissingA in t.ambiguities || t.selection.Selection?),
      BcdUnreadableA in t.ambiguities, bcds != {} && |windows| == 1 && !HasBcdForWindows(t, windows),
      BcdPointsElsewhere(t), BcdCrossDisk(t),
      BitLockerInaccessibleB in t.blockers || BitLockerInaccessibleA in t.ambiguities,
      BitLockerUnknownB in t.blockers || BitLockerUnknownA in t.ambiguities,
      HealthUnsafeB in t.blockers || HealthUnsafeA in t.ambiguities, HealthWarningA in t.ambiguities,
      t.healthLimitation && HealthUnknownA !in t.ambiguities && HealthUnsafeA !in t.ambiguities,
      HealthUnknownB in t.blockers,
      (SelectionRequiredB in t.blockers || t.selection.NoSelection?) && !t.eligible,
      EvidenceIncompleteB in t.blockers || RelationRuntimeOnlyB in t.blockers, UnsupportedLayoutB in t.blockers,
      !t.eligible || t.selection.NoSelection?,
      t.eligible && t.selection.Selection? && t.mode.Uefi? && t.blockers == {} && !ConflictingAmbiguity(t))
  }

  predicate EmitsFirmware(x: Tests, code: FirmwareCode) {
    match code
    case FirmwareModeUnknown => x.mode.UnknownMode?
    case FirmwareModeConflicting => x.mode.ConflictingMode?
    case UnsupportedLegacyBootTopology => x.mode.Bios?
    case LegacyWithGptLayout => x.mode.Bios? && x.gpt
    case UefiWithMbrSystemDisk => x.mode.Uefi? && x.mbr
  }

  predicate EmitsWindows(x: Tests, code: WindowsCode) {
    match code
    case WindowsInstallationMissing => x.windowsAbsent
    case MultipleWindowsInstallations | WindowsInstallationAmbiguous => !x.windowsAbsent && x.severalWindows
    case WindowsPartitionRelationUnknown => x.partitionUnclear || x.windowsUnrelated
    case WindowsSystemDiskRelationUnknown => x.diskUnclear
    case WindowsInstallationIncomplete => x.partitionUnclear || x.diskUnclear
  }

  predicate EmitsEsp(x: Tests, code: EspCode) {
    match code
    case EspMissing => x.espAbsent
    case MultipleEsps | EspAmbiguous => !x.espAbsent && x.severalEsps
    case EspCrossDisk => x.espElsewhere
    case EspRelationUnknown => x.espUnrelated
    case EspUnreadable => x.espUnreadable
  }

  predicate EmitsBcd(x: Tests, code: BcdCode) {
    match code
    case BcdStoreAmbiguous => x.bcdUnclear
    case BcdStoreMissing => !x.bcdUnclear && x.bcdAbsent
    case BcdStoreUnreadable => x.bcdUnreadable
    case BcdMembershipUnknown | BcdWindowsEntryMissing => x.bcdUnlisted
    case BcdPointsToUnknownInstallation => x.bcdPointsElsewhere
    case BcdCrossDiskMismatch => x.bcdCrossDisk
  }

  predicate EmitsMedia(x: Tests, code: MediaCode) {
    match code
    case BitLockerLocked | BitLockerRecoveryMaterialRequired => x.inaccessible
    case BitLockerStatusUnknown => x.lockUnknown
    case BitLockerBlocksBootAnalysis => x.inaccessible || x.lockUnknown
    case StorageHealthCritical => x.unsafe
    case StorageHealthWarning => x.healthWarning
    case StorageEvidenceMissing => x.healthUnknown && x.healthUnreported
    case StorageHealthUnknown => x.healthUnknown
  }

  predicate EmitsOverall(x: Tests, code: OverallCode) {
    match code
    case UnsafeToAttemptBootRepair => x.espElsewhere || x.bcdCrossDisk || x.unsafe
    case TechnicianSelectionRequired => x.selectionOpen
    case BootTopologyIncomplete | InsufficientEvidenceForRepairPlan => x.partial || x.incomplete
    case BootTopologyAmbiguous =>
      (!x.windowsAbsent && x.severalWindows) || (!x.espAbsent && x.severalEsps) || x.bcdUnclear
    case BootTopologyConflicting => x.mode.ConflictingMode? || x.unsupported
    case BootTopologyConsistent => x.sound
  }

  /** When a finding is drafted, wherever that happens. */
  predicate EmitsBy(x: Tests, code: Code) {
    match code
    case OfFirmware(c) => EmitsFirmware(x, c)
    case OfWindows(c) => EmitsWindows(x, c)
    case OfEsp(c) => EmitsEsp(x, c)
    case OfBcd(c) => EmitsBcd(x, c)
    case OfMedia(c) => EmitsMedia(x, c)
    case OfOverall(c) => EmitsOverall(x, c)
  }

  predicate Emits(t: Topology, styles: map<Id, Style>, code: Code) {
    EmitsBy(TestsOf(t, styles), code)
  }

  /** The draft is marked as lacking evidence where one of the places that add it says so. */
  predicate Insufficient(x: Tests, code: Code) {
    match code
    case OfFirmware(_) => false
    case OfWindows(c) =>
      if c.WindowsInstallationMissing? then x.noWindows
      else !c.MultipleWindowsInstallations? && !c.WindowsInstallationAmbiguous?
    case OfEsp(c) => c.EspRelationUnknown? || (c.EspMissing? && x.noEsp)
    case OfBcd(c) => c.BcdStoreMissing? || c.BcdMembershipUnknown? || c.BcdWindowsEntryMissing?
    case OfMedia(c) =>
      c.BitLockerStatusUnknown? || c.StorageEvidenceMissing? || c.StorageHealthUnknown?
      || (c.BitLockerBlocksBootAnalysis? && x.lockUnknown)
    case OfOverall(c) => c.BootTopologyIncomplete? || c.InsufficientEvidenceForRepairPlan?
  }

  function AllCodes(): set<Code> {
    (set c: FirmwareCode :: OfFirmware(c)) + (set c: WindowsCode :: OfWindows(c)) + (set c: EspCode :: OfEsp(c))
    + (set c: BcdCode :: OfBcd(c)) + (set c: MediaCode :: OfMedia(c)) + (set c: OverallCode :: OfOverall(c))
  }

  lemma AllCodesAre(code: Code)
    ensures code in AllCodes()
  {
    match code {
      case OfFirmware(f) => assert code in (set c: FirmwareCode :: OfFirmware(c));
      case OfWindows(w) => assert code in (set c: WindowsCode :: OfWindows(c));
      case OfEsp(e) => assert code in (set c: EspCode :: OfEsp(c));
      case OfBcd(b) => assert code in (set c: BcdCode :: OfBcd(c));
      case OfMedia(m) => assert code in (set c: MediaCode :: OfMedia(c));
      case OfOverall(o) => assert code in (set c: OverallCode :: OfOverall(c));
    }
  }

  /** The findings a topology gives rise to, each with its mark. */
  function DraftsOf(t: Topology, styles: map<Id, Style>): Drafts {
    map c | c in AllCodes() && Emits(t, styles, c) :: Insufficient(TestsOf(t, styles), c)
  }

  lemma InDrafts(t: Topology, styles: map<Id, Style>, c: Code)
    ensures c in DraftsOf(t, styles) <==> Emits(t, styles, c)
    ensures c in DraftsOf(t, styles) ==> DraftsOf(t, styles)[c] == Insufficient(TestsOf(t, styles), c)
  {
    hide Emits, Insufficient, AllCodes, TestsOf;
    AllCodesAre(c);
  }

  lemma AllInDrafts(t: Topology, styles: map<Id, Style>)
    ensures forall c :: c in DraftsOf(t, styles) <==> Emits(t, styles, c)
  {
    hide DraftsOf, Emits;
    forall c ensures c in DraftsOf(t, styles) <==> Emits(t, styles, c) {
      InDrafts(t, styles, c);
    }
  }

  // ---------------------------------------------------------------- drafting

  /** What a part of the drafting contributes to a code. */
  datatype Mark = NoDraft | Drafted(insufficient: bool)

  function When(condition: bool, insufficient: bool): Mark {
    if condition then Drafted(insufficient) else NoDraft
  }

  function Both(a: Mark, b: Mark): Mark {
    if a.NoDraft? then b else if b.NoDraft? then a else Drafted(a.insufficient || b.insufficient)
  }

  /** The mark of a code in a map of drafts. */
  function MarkIn(drafts: Drafts, c: Code): Mark {
    if c in drafts then Drafted(drafts[c]) else NoDraft
  }

  /** What all parts together contribute. */
  function MarkOf(x: Tests, c: Code): Mark {
    When(EmitsBy(x, c), Insufficient(x, c))
  }

  // Each part drafts its own codes, and contributes to some overall ones.

  function FirmwarePart(x: Tests, c: Code): Mark {
    match c
    case OfFirmware(_) => MarkOf(x, c)
    case OfOverall(o) => When(o.BootTopologyConflicting? && x.mode.ConflictingMode?, false)
    case _ => NoDraft
  }

  function WindowsPart(x: Tests, c: Code): Mark {
    match c
    case OfWindows(_) => MarkOf(x, c)
    case OfOverall(o) => When(o.BootTopologyAmbiguous? && !x.windowsAbsent && x.severalWindows, false)
    case _ => NoDraft
  }

  predicate AboutNumber(e: EspCode) {
    e.EspMissing? || e.MultipleEsps? || e.EspAmbiguous?
  }

  function EspNumberPart(x: Tests, c: Code): Mark {
    match c
    case OfEsp(e) => if AboutNumber(e) then MarkOf(x, c) else NoDraft
    case OfOverall(o) => When(o.BootTopologyAmbiguous? && !x.espAbsent && x.severalEsps, false)
    case _ => NoDraft
  }

  function EspLinkPart(x: Tests, c: Code): Mark {
    match c
    case OfEsp(e) => if AboutNumber(e) then NoDraft else MarkOf(x, c)
    case OfOverall(o) => When(o.UnsafeToAttemptBootRepair? && x.espElsewhere, false)
    case _ => NoDraft
  }

  predicate AboutStores(b: BcdCode) {
    b.BcdStoreMissing? || b.BcdStoreAmbiguous? || b.BcdStoreUnreadable?
  }

  function BcdStorePart(x: Tests, c: Code): Mark {
    match c
    case OfBcd(b) => if AboutStores(b) then MarkOf(x, c) else NoDraft
    case OfOverall(o) => When(o.BootTopologyAmbiguous? && x.bcdUnclear, false)
    case _ => NoDraft
  }

  function BcdLinkPart(x: Tests, c: Code): Mark {
    match c
    case OfBcd(b) => if AboutStores(b) then NoDraft else MarkOf(x, c)
    case OfOverall(o) => When(o.UnsafeToAttemptBootRepair? && x.bcdCrossDisk, false)
    case _ => NoDraft
  }

  predicate AboutLocks(m: MediaCode) {
    m.BitLockerLocked? || m.BitLockerStatusUnknown? || m.BitLockerRecoveryMaterialRequired?
    || m.BitLockerBlocksBootAnalysis?
  }

  function LockPart(x: Tests, c: Code): Mark {
    match c
    case OfMedia(m) => if AboutLocks(m) then MarkOf(x, c) else NoDraft
    case _ => NoDraft
  }

  function StoragePart(x: Tests, c: Code): Mark {
    match c
    case OfMedia(m) => if AboutLocks(m) then NoDraft else MarkOf(x, c)
    case OfOverall(o) => When(o.UnsafeToAttemptBootRepair? && x.unsafe, false)
    case _ => NoDraft
  }

  function OverallPart(x: Tests, c: Code): Mark {
    match c
    case OfOverall(o) =>
      (match o
       case TechnicianSelectionRequired => When(x.selectionOpen, false)
       case BootTopologyIncomplete | InsufficientEvidenceForRepairPlan => When(x.partial || x.incomplete, true)
       case BootTopologyConflicting => When(x.unsupported, false)
       case BootTopologyConsistent => When(x.sound, false)
       case _ => NoDraft)
    case _ => NoDraft
  }

  /** All parts, in the order in which they add. */
  function AllParts(x: Tests, c: Code): Mark {
    Both(Both(Both(Both(Both(Both(Both(Both(
      FirmwarePart(x, c), WindowsPart(x, c)), EspNumberPart(x, c)), EspLinkPart(x, c)), BcdStorePart(x, c)),
      BcdLinkPart(x, c)), LockPart(x, c)), StoragePart(x, c)), OverallPart(x, c))
  }

  lemma OwnPart(x: Tests, c: Code)
    requires !c.OfOverall?
    ensures AllParts(x, c) == MarkOf(x, c)
  {
    hide MarkOf, AboutNumber, AboutStores, AboutLocks;
  }

  lemma OverallParts(x: Tests, o: OverallCode)
    ensures AllParts(x, OfOverall(o)) == MarkOf(x, OfOverall(o))
  {
  }

  /** In whatever part a code is drafted, and however often, the mark is the one the code is to have. */
  lemma PartsAddUp(x: Tests, c: Code)
    ensures AllParts(x, c) == MarkOf(x, c)
  {
    hide AllParts, MarkOf;
    if c.OfOverall? {
      OverallParts(x, c.overall);
    } else {
      OwnPart(x, c);
    }
  }

  /** The `add` closure: a code that is drafted again keeps its mark, or gains it. */
  function Add(drafts: Drafts, code: Code, insufficient: bool): (r: Drafts)
    ensures forall c ::
      MarkIn(r, c) == if c == code then Both(MarkIn(drafts, c), Drafted(insufficient)) else MarkIn(drafts, c)
  {
    drafts[code := (code in drafts && drafts[code]) || insufficient]
  }

  method CandidatesByRole(t: Topology, role: Role) returns (targets: set<Id>)
    ensures targets == TargetsOf(t, role)
  {
    targets := {};
    for i := 0 to |t.candidates|
      invariant targets == set k | 0 <= k < i && t.candidates[k].role == role :: t.candidates[k].target
    {
      if t.candidates[i].role == role { targets := targets + {t.candidates[i].target}; }
    }
  }

  method DraftFirmware(x: Tests, before: Drafts) returns (d: Drafts)
    ensures forall c :: MarkIn(d, c) == Both(MarkIn(before, c), FirmwarePart(x, c))
  {
    hide MarkIn, Add, EmitsWindows, EmitsEsp, EmitsBcd, EmitsMedia, EmitsOverall;
    d := before;
    match x.mode {
      case UnknownMode => d := Add(d, OfFirmware(FirmwareModeUnknown), false);
      case ConflictingMode =>
        d := Add(d, OfFirmware(FirmwareModeConflicting), false);
        d := Add(d, OfOverall(BootTopologyConflicting), false);
      case Bios =>
        d := Add(d, OfFirmware(UnsupportedLegacyBootTopology), false);
        if x.gpt { d := Add(d, OfFirmware(LegacyWithGptLayout), false); }
      case Uefi =>
        if x.mbr { d := Add(d, OfFirmware(UefiWithMbrSystemDisk), false); }
    }
  }

  method DraftWindows(x: Tests, before: Drafts) returns (d: Drafts)
    ensures forall c :: MarkIn(d, c) == Both(MarkIn(before, c), WindowsPart(x, c))
  {
    hide MarkIn, Add, EmitsFirmware, EmitsEsp, EmitsBcd, EmitsMedia, EmitsOverall;
    d := before;
    if x.windowsAbsent {
      d := Add(d, OfWindows(WindowsInstallationMissing), x.noWindows);
    } else if x.severalWindows {
      d := Add(d, OfWindows(MultipleWindowsInstallations), false);
      d := Add(d, OfWindows(WindowsInstallationAmbiguous), false);
      d := Add(d, OfOverall(BootTopologyAmbiguous), false);
    }
    if x.partitionUnclear {
      d := Add(d, OfWindows(WindowsPartitionRelationUnknown), true);
      d := Add(d, OfWindows(WindowsInstallationIncomplete), true);
    }
    if x.diskUnclear {
      d := Add(d, OfWindows(WindowsSystemDiskRelationUnknown), true);
      d := Add(d, OfWindows(WindowsInstallationIncomplete), true);
    }
    if x.windowsUnrelated { d := Add(d, OfWindows(WindowsPartitionRelationUnknown), true); }
  }

  method DraftEspNumber(x: Tests, before: Drafts) returns (d: Drafts)
    ensures forall c :: MarkIn(d, c) == Both(MarkIn(before, c), EspNumberPart(x, c))
  {
    hide MarkIn, Add, EmitsFirmware, EmitsWindows, EmitsBcd, EmitsMedia, EmitsOverall;
    d := before;
    if x.espAbsent {
      d := Add(d, OfEsp(EspMissing), x.noEsp);
    } else if x.severalEsps {
      d := Add(d, OfEsp(MultipleEsps), false);
      d := Add(d, OfEsp(EspAmbiguous), false);
      d := Add(d, OfOverall(BootTopologyAmbiguous), false);
    }
  }

  method DraftEspLinks(x: Tests, before: Drafts) returns (d: Drafts)
    ensures forall c :: MarkIn(d, c) == Both(MarkIn(before, c), EspLinkPart(x, c))
  {
    hide MarkIn, Add, EmitsFirmware, EmitsWindows, EmitsBcd, EmitsMedia, EmitsOverall;
    d := before;
    if x.espElsewhere {
      d := Add(d, OfEsp(EspCrossDisk), false);
      d := Add(d, OfOverall(UnsafeToAttemptBootRepair), false);
    }
    if x.espUnrelated { d := Add(d, OfEsp(EspRelationUnknown), true); }
    if x.espUnreadable { d := Add(d, OfEsp(EspUnreadable), false); }
  }

  method DraftBcdStores(x: Tests, before: Drafts) returns (d: Drafts)
    ensures forall c :: MarkIn(d, c) == Both(MarkIn(before, c), BcdStorePart(x, c))
  {
    hide MarkIn, Add, EmitsFirmware, EmitsWindows, EmitsEsp, EmitsMedia, EmitsOverall;
    d := before;
    if x.bcdUnclear {
      d := Add(d, OfBcd(BcdStoreAmbiguous), false);
      d := Add(d, OfOverall(BootTopologyAmbiguous), false);
    } else if x.bcdAbsent {
      d := Add(d, OfBcd(BcdStoreMissing), true);
    }
    if x.bcdUnreadable { d := Add(d, OfBcd(BcdStoreUnreadable), false); }
  }

  method DraftBcdLinks(x: Tests, before: Drafts) returns (d: Drafts)
    ensures forall c :: MarkIn(d, c) == Both(MarkIn(before, c), BcdLinkPart(x, c))
  {
    hide MarkIn, Add, EmitsFirmware, EmitsWindows, EmitsEsp, EmitsMedia, EmitsOverall;
    d := before;
    if x.bcdUnlisted {
      d := Add(d, OfBcd(BcdMembershipUnknown), true);
      d := Add(d, OfBcd(BcdWindowsEntryMissing), true);
    }
    if x.bcdPointsElsewhere { d := Add(d, OfBcd(BcdPointsToUnknownInstallation), false); }
    if x.bcdCrossDisk {
      d := Add(d, OfBcd(BcdCrossDiskMismatch), false);
      d := Add(d, OfOverall(UnsafeToAttemptBootRepair), false);
    }
  }

  method DraftLocks(x: Tests, before: Drafts) returns (d: Drafts)
    ensures forall c :: MarkIn(d, c) == Both(MarkIn(before, c), LockPart(x, c))
  {
    hide MarkIn, Add, EmitsFirmware, EmitsWindows, EmitsEsp, EmitsBcd, EmitsOverall;
    d := before;
    if x.inaccessible {
      d := Add(d, OfMedia(BitLockerLocked), false);
      d := Add(d, OfMedia(BitLockerRecoveryMaterialRequired), false);
      d := Add(d, OfMedia(BitLockerBlocksBootAnalysis), false);
    }
    if x.lockUnknown {
      d := Add(d, OfMedia(BitLockerStatusUnknown), true);
      d := Add(d, OfMedia(BitLockerBlocksBootAnalysis), true);
    }
  }

  method DraftStorage(x: Tests, before: Drafts) returns (d: Drafts)
    ensures forall c :: MarkIn(d, c) == Both(MarkIn(before, c), StoragePart(x, c))
  {
    hide MarkIn, Add, EmitsFirmware, EmitsWindows, EmitsEsp, EmitsBcd, EmitsOverall;
    d := before;
    if x.unsafe {
      d := Add(d, OfMedia(StorageHealthCritical), false);
      d := Add(d, OfOverall(UnsafeToAttemptBootRepair), false);
    }
    if x.healthWarning { d := Add(d, OfMedia(StorageHealthWarning), false); }
    if x.healthUnknown {
      if x.healthUnreported { d := Add(d, OfMedia(StorageEvidenceMissing), true); }
      d := Add(d, OfMedia(StorageHealthUnknown), true);
    }
  }

  method DraftOverall(x: Tests, before: Drafts) returns (d: Drafts)
    ensures forall c :: MarkIn(d, c) == Both(MarkIn(before, c), OverallPart(x, c))
  {
    hide MarkIn, Add, EmitsFirmware, EmitsWindows, EmitsEsp, EmitsBcd, EmitsMedia;
    d := before;
    if x.selectionOpen { d := Add(d, OfOverall(TechnicianSelectionRequired), false); }
    if x.partial {
      d := Add(d, OfOverall(BootTopologyIncomplete), true);
      d := Add(d, OfOverall(InsufficientEvidenceForRepairPlan), true);
    }
    if x.unsupported { d := Add(d, OfOverall(BootTopologyConflicting), false); }
    if x.incomplete {
      d := Add(d, OfOverall(BootTopologyIncomplete), true);
      d := Add(d, OfOverall(InsufficientEvidenceForRepairPlan), true);
    }
    if x.sound { d := Add(d, OfOverall(BootTopologyConsistent), false); }
  }

  /** The tests, from the lists of candidates by role. */
  method RunTests(t: Topology, styles: map<Id, Style>) returns (x: Tests)
    ensures x == TestsOf(t, styles)
  {
    hide TargetsOf, PreferredStyle, HasRelationKind, HasBcdForWindows, CrossDiskEsp, BcdPointsElsewhere, BcdCrossDisk,
         ConflictingAmbiguity;
    var windows := CandidatesByRole(t, WindowsRole);
    var parts := CandidatesByRole(t, WindowsPartitionRole);
    var disks := CandidatesByRole(t, SystemDiskRole);
    var esps := CandidatesByRole(t, EspRole);
    var bcds := CandidatesByRole(t, BcdRole);
    var style := PreferredStyle(t, styles);
    x := Tests(
      t.mode, style == Some(Gpt), style == Some(Mbr) || DiskNotGptB in t.blockers,
      |windows| == 0, |windows| == 0 || WindowsMissingB in t.blockers, |windows| > 1 || WindowsAmbiguousB in t.blockers,
      WindowsPartitionUnresolvedB in t.blockers || (|windows| == 1 && |parts| == 0),
      SystemDiskUnresolvedB in t.blockers || (|windows| == 1 && |disks| == 0),
      |windows| >= 1 && !HasRelationKind(t, HostsWindows),
      |esps| == 0, |esps| == 0 || EspMissingB in t.blockers, |esps| > 1 || EspAmbiguousB in t.blockers,
      EspCrossDiskA in t.ambiguities || CrossDiskEsp(t),
      |esps| >= 1 && !HasRelationKind(t, HostsEsp), EspUnreadableA in t.ambiguities,
      BcdAmbiguousB in t.blockers || |bcds| > 1 || BcdAmbiguousA in t.ambiguities,
      (BcdMissingB in t.blockers || BcdMissingA in t.ambiguities || (|bcds| == 0 && t.selection.Selection?))
      && |bcds| == 0,
      BcdUnreadableA in t.ambiguities, |bcds| >= 1 && |windows| == 1 && !HasBcdForWindows(t, windows),
      BcdPointsElsewhere(t), BcdCrossDisk(t),
      BitLockerInaccessibleB in t.blockers || BitLockerInaccessibleA in t.ambiguities,
      BitLockerUnknownB in t.blockers || BitLockerUnknownA in t.ambiguities,
      HealthUnsafeB in t.blockers || HealthUnsafeA in t.ambiguities, HealthWarningA in t.ambiguities,
      t.healthLimitation && HealthUnknownA !in t.ambiguities && HealthUnsafeA !in t.ambiguities,
      HealthUnknownB in t.blockers,
      (SelectionRequiredB in t.blockers || t.selection.NoSelection?) && !t.eligible,
      EvidenceIncompleteB in t.blockers || RelationRuntimeOnlyB in t.blockers, UnsupportedLayoutB in t.blockers,
      !t.eligible || t.selection.NoSelection?,
      t.eligible && t.selection.Selection? && t.mode.Uefi? && |t.blockers| == 0 && !ConflictingAmbiguity(t));
  }

  /** `collectDrafts`: part by part, into one map that merges what several parts draft. */
  method CollectDrafts(t: Topology, styles: map<Id, Style>) returns (drafts: Drafts)
    ensures drafts == DraftsOf(t, styles)
  {
    hide FirmwarePart, WindowsPart, EspNumberPart, EspLinkPart, BcdStorePart, BcdLinkPart, LockPart, StoragePart,
         OverallPart, DraftsOf, TestsOf, EmitsBy, Insufficient;
    var x := RunTests(t, styles);
    drafts := DraftFirmware(x, map[]);
    drafts := DraftWindows(x, drafts);
    drafts := DraftEspNumber(x, drafts);
    drafts := DraftEspLinks(x, drafts);
    drafts := DraftBcdStores(x, drafts);
    drafts := DraftBcdLinks(x, drafts);
    drafts := DraftLocks(x, drafts);
    drafts := DraftStorage(x, drafts);
    drafts := DraftOverall(x, drafts);
    forall c ensures MarkIn(drafts, c) == MarkIn(DraftsOf(t, styles), c) {
      PartsAddUp(x, c);
      InDrafts(t, styles, c);
    }
    SameMarks(drafts, DraftsOf(t, styles));
  }

  lemma SameMarks(a: Drafts, b: Drafts)
    requires forall c :: MarkIn(a, c) == MarkIn(b, c)
    ensures a == b
  {
    forall c ensures c in a <==> c in b
             ensures c in a ==> a[c] == b[c]
    {
      assert MarkIn(a, c) == MarkIn(b, c);
    }
  }

  // ---------------------------------------------------------------- suppression

  const CONSISTENT := OfOverall(BootTopologyConsistent)
  const CROSS_DISK := OfBcd(BcdCrossDiskMismatch)
  const AMBIGUOUS := OfOverall(BootTopologyAmbiguous)

  /** The findings a finding makes meaningless. */
  function Victims(code: Code): set<Code> {
    var membership :=
      {OfBcd(BcdMembershipUnknown), OfBcd(BcdWindowsEntryMissing), OfBcd(BcdPointsToUnknownInstallation)};
    match code
    case OfFirmware(c) =>
      if c.FirmwareModeConflicting? || c.FirmwareModeUnknown? then
        {CONSISTENT, OfFirmware(UefiWithMbrSystemDisk), OfFirmware(LegacyWithGptLayout)}
      else {}
    case OfWindows(c) =>
      if c.WindowsInstallationMissing? then
        membership + {OfWindows(WindowsPartitionRelationUnknown), OfWindows(WindowsSystemDiskRelationUnknown),
                      OfWindows(WindowsInstallationIncomplete)}
      else if c.MultipleWindowsInstallations? || c.WindowsInstallationAmbiguous? then membership
      else {}
    case OfEsp(c) => if c.EspCrossDisk? then {CONSISTENT} else {}
    case OfBcd(c) => if c.BcdCrossDiskMismatch? then {CONSISTENT} else {}
    case OfMedia(c) =>
      if c.BitLockerLocked? || c.BitLockerStatusUnknown? || c.StorageHealthCritical? || c.StorageHealthUnknown?
         || c.StorageEvidenceMissing?
      then {CONSISTENT} else {}
    case OfOverall(c) =>
      if c.BootTopologyAmbiguous? || c.BootTopologyIncomplete? || c.BootTopologyConflicting? then {CONSISTENT} else {}
  }

  function Dropped(codes: set<Code>): set<Code> {
    set c, v | c in codes && v in Victims(c) :: v
  }

  function Suppress(drafts: Drafts): Drafts {
    drafts - Dropped(drafts.Keys)
  }

  /** `applySuppression`: first collect the victims of everything present, then drop them. */
  method ApplySuppression(drafts: Drafts) returns (kept: Drafts)
    ensures kept == Suppress(drafts)
  {
    hide Victims, Dropped;
    var codes := Chain.ReadDir(drafts.Keys);
    var drop := CollectVictims(codes);
    kept := map[];
    for i := 0 to |codes|
      invariant kept.Keys == Elements(codes[..i]) - drop
      invariant forall c | c in kept :: c in drafts && kept[c] == drafts[c]
    {
      assert codes[i] in Elements(codes);
      Collections.ElementsOfSum(codes[..i], [codes[i]]);
      assert codes[..i + 1] == codes[..i] + [codes[i]];
      if codes[i] !in drop {
        kept := kept[codes[i] := drafts[codes[i]]];
      }
    }
    assert codes[..|codes|] == codes;
  }

  method CollectVictims(codes: seq<Code>) returns (drop: set<Code>)
    ensures drop == Dropped(Elements(codes))
  {
    hide Victims;
    drop := {};
    for i := 0 to |codes|
      invariant drop == Dropped(Elements(codes[..i]))
    {
      assert codes[..i + 1] == codes[..i] + [codes[i]];
      assert Elements(codes[..i + 1]) == Elements(codes[..i]) + {codes[i]};
      drop := drop + Victims(codes[i]);
    }
    assert codes[..|codes|] == codes;
  }

  /** No kept finding is a victim of another, so suppressing once is enough. */
  lemma SuppressionSettles(drafts: Drafts)
    ensures forall c, v | c in Suppress(drafts) && v in Victims(c) :: v !in Suppress(drafts)
    ensures Suppress(Suppress(drafts)) == Suppress(drafts)
  {
    hide Victims;
    var kept := Suppress(drafts);
    forall c, v | c in kept && v in Victims(c) ensures v !in kept {
      assert c in drafts.Keys;
    }
  }

  /** Suppressors are never victims: whatever is dropped, its suppressor stays. */
  lemma SuppressionKeepsSome(drafts: Drafts)
    requires drafts != map[]
    ensures Suppress(drafts) != map[]
  {
    var c :| c in drafts;
    if c !in Suppress(drafts) {
      var s :| s in drafts.Keys && c in Victims(s);
      assert s !in Dropped(drafts.Keys);
      assert s in Suppress(drafts);
    }
  }

  // ---------------------------------------------------------------- what the findings say of the evidence

  /** A Windows installation is on a partition of this disk. */
  ghost predicate WindowsDisk(e: CaseEvidence, d: Id) {
    exists w: Id, p: Id :: Installed(e, w, p) && OnDisk(e, p, d)
  }

  /** The selected disk, or else the only one with Windows. */
  ghost predicate MainDisk(e: CaseEvidence, s: Selection, d: Id) {
    if s.Selection? then d == s.disk else WindowsDisk(e, d) && forall x: Id | WindowsDisk(e, x) :: x == d
  }

  ghost predicate MainStyle(e: CaseEvidence, s: Selection, styles: map<Id, Style>, style: Style) {
    exists d: Id :: MainDisk(e, s, d) && d in styles && styles[d] == style
  }

  ghost predicate NoneOf(e: CaseEvidence, kind: TargetKind) {
    forall t | t in e.targets :: t.kind != kind
  }

  ghost predicate OneOf(e: CaseEvidence, kind: TargetKind) {
    exists id: Id :: OnlyTarget(e, kind, id)
  }

  /** No installation has a partition, or the one to select has no disk. */
  ghost predicate PartitionUnclear(e: CaseEvidence, technician: Option<TechnicianSelection>) {
    || (!NoneOf(e, WindowsTarget) && forall w: Id, p: Id :: !Installed(e, w, p))
    || ((exists w: Id :: SoleInstallation(e, technician, w)) && forall d: Id :: !WindowsDisk(e, d))
  }

  /** Nothing is selected, and an EFI system partition is related to a disk without Windows. */
  ghost predicate EspElsewhere(e: CaseEvidence, s: Selection) {
    && s.NoSelection? && (exists d: Id :: WindowsDisk(e, d))
    && exists p: Id, d: Id :: SignedEsp(e, p) && d in RelatedDisks(e, p) && !WindowsDisk(e, d)
  }

  ghost predicate EspUnrelated(e: CaseEvidence) {
    && (exists p: Id :: SignedEsp(e, p))
    && forall p: Id | SignedEsp(e, p) && TypedEsp(e, p) :: RelatedDisks(e, p) == {}
  }

  predicate StoresUnclear(e: CaseEvidence) {
    || Several(e, BootStoreTarget)
    || exists t | t in e.targets :: t.kind.BootStoreTarget? && |RelatedPartitions(e, t.id)| > 1
  }

  /** A boot store is on neither of the selected partitions. */
  ghost predicate StoreElsewhere(e: CaseEvidence, s: Selection) {
    && s.Selection?
    && exists b: Id, p: Id ::
         IsKind(e, b, BootStoreTarget) && RelatedPartitions(e, b) == {p} && p != s.esp && p != s.partition
  }

  ghost predicate FoundFirmware(e: CaseEvidence, technician: Option<TechnicianSelection>, styles: map<Id, Style>,
                                s: Selection, code: FirmwareCode)
  {
    match code
    case FirmwareModeUnknown => ModeFits(e, UnknownMode)
    case FirmwareModeConflicting => ModeFits(e, ConflictingMode)
    case UnsupportedLegacyBootTopology => ModeFits(e, Bios)
    case LegacyWithGptLayout => ModeFits(e, Bios) && MainStyle(e, s, styles, Gpt)
    case UefiWithMbrSystemDisk =>
      && ModeFits(e, Uefi)
      && (MainStyle(e, s, styles, Mbr) || exists d: Id :: SoleDisk(e, technician, d) && !DiskIsGpt(e, d))
  }

  ghost predicate FoundWindows(e: CaseEvidence, technician: Option<TechnicianSelection>, code: WindowsCode) {
    match code
    case WindowsInstallationMissing => NoneOf(e, WindowsTarget)
    case MultipleWindowsInstallations | WindowsInstallationAmbiguous => Several(e, WindowsTarget)
    case WindowsPartitionRelationUnknown => PartitionUnclear(e, technician)
    case WindowsSystemDiskRelationUnknown | WindowsInstallationIncomplete =>
      OneOf(e, WindowsTarget) && forall d: Id :: !WindowsDisk(e, d)
  }

  ghost predicate FoundEsp(e: CaseEvidence, s: Selection, code: EspCode) {
    match code
    case EspMissing => forall p: Id :: !SignedEsp(e, p)
    case MultipleEsps | EspAmbiguous => SeveralEsps(e)
    case EspCrossDisk => EspElsewhere(e, s)
    case EspRelationUnknown => EspUnrelated(e)
    case EspUnreadable => false
  }

  ghost predicate FoundBcd(e: CaseEvidence, s: Selection, code: BcdCode) {
    match code
    case BcdStoreAmbiguous => StoresUnclear(e)
    case BcdStoreMissing => NoneOf(e, BootStoreTarget) && s.Selection?
    case BcdMembershipUnknown | BcdWindowsEntryMissing => !NoneOf(e, BootStoreTarget) && OneOf(e, WindowsTarget)
    case BcdCrossDiskMismatch => StoreElsewhere(e, s)
    case BcdStoreUnreadable | BcdPointsToUnknownInstallation => false
  }

  ghost predicate FoundMedia(e: CaseEvidence, code: MediaCode) {
    match code
    case BitLockerLocked | BitLockerRecoveryMaterialRequired => exists v | v in e.views :: SaysLocked(v)
    case BitLockerStatusUnknown => exists v | v in e.views :: LockUndecided(v)
    case BitLockerBlocksBootAnalysis => exists v | v in e.views :: SaysLocked(v) || LockUndecided(v)
    case StorageHealthCritical => FailureReported(e)
    case StorageHealthUnknown => !FailureReported(e) && (HealthUndecided(e) || !HealthReported(e))
    case StorageEvidenceMissing => !HealthReported(e)
    case StorageHealthWarning => false
  }

  ghost predicate FoundOverall(e: CaseEvidence, technician: Option<TechnicianSelection>, t: Topology, code: OverallCode)
  {
    match code
    case UnsafeToAttemptBootRepair =>
      EspElsewhere(e, t.selection) || StoreElsewhere(e, t.selection) || FailureReported(e)
    case TechnicianSelectionRequired => t.selection.NoSelection?
    case BootTopologyIncomplete | InsufficientEvidenceForRepairPlan => exists b :: Blocks(e, technician, b)
    case BootTopologyAmbiguous => Several(e, WindowsTarget) || SeveralEsps(e) || StoresUnclear(e)
    case BootTopologyConflicting => ModeFits(e, ConflictingMode) || ModeFits(e, Bios) || Misplaced(e, technician)
    case BootTopologyConsistent =>
      && (forall b :: !Blocks(e, technician, b))
      && !Several(e, WindowsTarget) && !SeveralEsps(e) && !StoresUnclear(e) && !StoreElsewhere(e, t.selection)
  }

  /** When a finding is made. Only the consistent verdict is ever suppressed: what else suppression would drop is not
      drafted beside its suppressor. */
  ghost predicate Found(e: CaseEvidence, technician: Option<TechnicianSelection>, styles: map<Id, Style>, t: Topology,
                        code: Code)
  {
    match code
    case OfFirmware(c) => FoundFirmware(e, technician, styles, t.selection, c)
    case OfWindows(c) => FoundWindows(e, technician, c)
    case OfEsp(c) => FoundEsp(e, t.selection, c)
    case OfBcd(c) => FoundBcd(e, t.selection, c)
    case OfMedia(c) => FoundMedia(e, c)
    case OfOverall(c) => FoundOverall(e, technician, t, c)
  }

  /** Which findings are marked as lacking evidence. */
  predicate Lacking(e: CaseEvidence, code: Code) {
    match code
    case OfFirmware(_) => false
    case OfWindows(c) => c !in {MultipleWindowsInstallations, WindowsInstallationAmbiguous}
    case OfEsp(c) => c in {EspMissing, EspRelationUnknown}
    case OfBcd(c) => c in {BcdStoreMissing, BcdMembershipUnknown, BcdWindowsEntryMissing}
    case OfMedia(c) =>
      || c in {BitLockerStatusUnknown, StorageEvidenceMissing, StorageHealthUnknown}
      || (c.BitLockerBlocksBootAnalysis? && exists v | v in e.views :: LockUndecided(v))
    case OfOverall(c) => c in {BootTopologyIncomplete, InsufficientEvidenceForRepairPlan}
  }

  lemma InTargets(e: CaseEvidence, technician: Option<TechnicianSelection>, t: Topology, role: Role, id: Id)
    requires WellResolved(e, technician, t) && !role.FirmwareRole?
    ensures id in TargetsOf(t, role) <==> exists confidence :: Plays(e, Candidate(role, id, confidence))
  {
    hide ExactRelations, UniqueIds, Blocks, LeavesOpen, Plays, SafeMedia, ModeFits, ModeOf, ModeWords, ActionableChain,
         AutomaticFits, TechnicianFits, FirmwareFits, RuntimeOnlySelected;
    if confidence :| Plays(e, Candidate(role, id, confidence)) {
      assert Candidate(role, id, confidence) in t.candidates;
    }
    if c :| c in t.candidates && c.role == role && c.target == id {
      assert c == Candidate(role, id, c.confidence);
    }
  }

  /** The targets of each role, told on the evidence. */
  lemma RoleTargets(e: CaseEvidence, technician: Option<TechnicianSelection>, t: Topology, id: Id)
    requires WellResolved(e, technician, t)
    ensures id in TargetsOf(t, WindowsRole) <==> IsKind(e, id, WindowsTarget)
    ensures id in TargetsOf(t, WindowsPartitionRole) <==> exists w: Id :: Installed(e, w, id)
    ensures id in TargetsOf(t, SystemDiskRole) <==> WindowsDisk(e, id)
    ensures id in TargetsOf(t, EspRole) <==> SignedEsp(e, id)
    ensures id in TargetsOf(t, BcdRole) <==> IsKind(e, id, BootStoreTarget)
  {
    hide WellResolved, TargetsOf, IsKind, SignedEsp, TypedEsp, Installed, OnDisk, LetterOnly;
    InTargets(e, technician, t, WindowsRole, id);
    InTargets(e, technician, t, WindowsPartitionRole, id);
    InTargets(e, technician, t, SystemDiskRole, id);
    InTargets(e, technician, t, EspRole, id);
    InTargets(e, technician, t, BcdRole, id);
    assert IsKind(e, id, WindowsTarget) <==> Plays(e, Candidate(WindowsRole, id, StrongInference));
    assert WindowsDisk(e, id) <==> Plays(e, Candidate(SystemDiskRole, id, StrongInference));
    assert IsKind(e, id, BootStoreTarget) <==> Plays(e, Candidate(BcdRole, id, StrongInference));
    var sure := if TypedEsp(e, id) then Proven else AmbiguousConfidence;
    assert SignedEsp(e, id) <==> Plays(e, Candidate(EspRole, id, sure));
    if w: Id :| Installed(e, w, id) {
      var link := if LetterOnly(e, w, id) then RuntimeOnly else StrongInference;
      assert Plays(e, Candidate(WindowsPartitionRole, id, link));
    }
  }

  /** How many there are. */
  lemma SizeOfKind(e: CaseEvidence, kind: TargetKind, ids: set<Id>)
    requires forall id :: id in ids <==> IsKind(e, id, kind)
    ensures ids == {} <==> NoneOf(e, kind)
    ensures |ids| > 1 <==> Several(e, kind)
    ensures |ids| == 1 <==> OneOf(e, kind)
  {
    forall t | t in e.targets && t.kind == kind ensures t.id in ids {
      assert IsKind(e, t.id, kind);
    }
    if a: Id :| a in ids {
      if ids == {a} {
        assert OnlyTarget(e, kind, a);
      } else {
        TwoMembers(ids, a);
        var b :| b in ids && b != a;
        TwoInSet(ids, a, b);
        assert Several(e, kind);
        assert forall x: Id :: !OnlyTarget(e, kind, x);
      }
    }
  }

  lemma TwoInSet(s: set<Id>, a: Id, b: Id)
    requires a in s && b in s && a != b
    ensures |s| > 1
  {
    assert |s - {a}| > 0;
    assert s == {a} + (s - {a});
  }

  lemma NumberOfEsps(e: CaseEvidence, ids: set<Id>)
    requires forall id :: id in ids <==> SignedEsp(e, id)
    ensures |ids| > 1 <==> SeveralEsps(e)
  {
    hide TypedEsp;
    forall id | id in ids ensures exists t :: t in e.targets && t.id == id {
    }
    if a: Id :| a in ids && ids != {a} {
      TwoMembers(ids, a);
      var b :| b in ids && b != a;
      TwoInSet(ids, a, b);
      var s :| s in e.targets && s.id == a;
      var t :| t in e.targets && t.id == b;
      assert SeveralEsps(e);
    }
    if a, b :| a in e.targets && b in e.targets && SignedEsp(e, a.id) && SignedEsp(e, b.id) && a.id != b.id {
      TwoInSet(ids, a.id, b.id);
    }
  }

  /** What `Resolve` returns. */
  ghost predicate Resolved(e: CaseEvidence, technician: Option<TechnicianSelection>, t: Topology) {
    WellResolved(e, technician, t) && (technician.Some? ==> TechnicianFits(e, technician.value))
  }

  lemma KnownRelations(e: CaseEvidence, technician: Option<TechnicianSelection>, t: Topology)
    requires WellResolved(e, technician, t)
    ensures ExactRelations(e, t.relations)
  {
    hide ExactRelations, UniqueIds, Blocks, LeavesOpen, Plays, SafeMedia, ModeFits, ModeOf, ModeWords, ActionableChain,
         AutomaticFits, TechnicianFits, FirmwareFits, RuntimeOnlySelected;
  }

  lemma UsableKind(e: CaseEvidence, t: Topology, kind: RelationKind)
    requires ExactRelations(e, t.relations)
    ensures HasRelationKind(t, kind) <==> exists from: Id, to: Id :: Linked(e, kind, from, to)
  {
    hide Linked, ExactRelations;
    if r :| r in t.relations && r.kind == kind && !r.confidence.AmbiguousConfidence? && !r.confidence.UnknownConfidence?
    {
      assert HasRelation(t.relations, kind, r.from, r.to);
      UsableIffLinked(e, t.relations, kind, r.from, r.to);
    }
    if from: Id, to: Id :| Linked(e, kind, from, to) {
      UsableIffLinked(e, t.relations, kind, from, to);
      assert HasRelation(t.relations, kind, from, to);
    }
  }

  lemma WindowsUsable(e: CaseEvidence, t: Topology)
    requires ExactRelations(e, t.relations)
    ensures HasRelationKind(t, HostsWindows) <==> exists w: Id, p: Id :: Installed(e, w, p)
  {
    hide HasRelationKind, ExactRelations, Installed;
    UsableKind(e, t, HostsWindows);
    if w: Id, p: Id :| Installed(e, w, p) { assert Linked(e, HostsWindows, p, w); }
  }

  lemma EspUsable(e: CaseEvidence, t: Topology)
    requires ExactRelations(e, t.relations)
    ensures HasRelationKind(t, HostsEsp) <==>
      exists p: Id :: SignedEsp(e, p) && TypedEsp(e, p) && RelatedDisks(e, p) != {}
  {
    hide HasRelationKind, ExactRelations, RelatedDisks, IsKind, EspConfidence, SignedEsp, TypedEsp;
    UsableKind(e, t, HostsEsp);
    if p: Id :| SignedEsp(e, p) && TypedEsp(e, p) && RelatedDisks(e, p) != {} {
      SignIff(e, p);
      var d :| d in RelatedDisks(e, p);
      assert Linked(e, HostsEsp, d, p);
    }
    if from: Id, to: Id :| Linked(e, HostsEsp, from, to) {
      SignIff(e, to);
    }
  }

  lemma NoEntries(e: CaseEvidence, t: Topology)
    requires ExactRelations(e, t.relations)
    ensures !BcdPointsElsewhere(t) && forall windows :: !HasBcdForWindows(t, windows)
  {
    hide RelatedDisks, RelatedPartitions, EspConfidence, LinkConfidence, IsKind;
    forall r | r in t.relations ensures !r.kind.BootStoreForWindows? {
      assert WindowsRelation(e, r) || EspRelation(e, r) || BcdRelation(e, r);
    }
  }

  lemma StoresElsewhere(e: CaseEvidence, t: Topology)
    requires ExactRelations(e, t.relations)
    ensures BcdCrossDisk(t) <==> StoreElsewhere(e, t.selection)
  {
    hide RelatedDisks, RelatedPartitions, EspConfidence, LinkConfidence, IsKind;
    if t.selection.Selection? {
      var s := t.selection;
      if r :| r in t.relations && r.kind.ContainsBcd? && r.from != s.esp && r.from != s.partition {
        assert WindowsRelation(e, r) || EspRelation(e, r) || BcdRelation(e, r);
      }
      if b: Id, p: Id :|
        IsKind(e, b, BootStoreTarget) && RelatedPartitions(e, b) == {p} && p != s.esp && p != s.partition
      {
        assert BcdRelation(e, Relation(ContainsBcd, p, b, LinkConfidence(e, b, p)));
      }
    }
  }

  lemma DisksOfWindows(e: CaseEvidence, t: Topology, d: Id)
    requires ExactRelations(e, t.relations)
    ensures d in WindowsDisks(t) <==> WindowsDisk(e, d)
  {
    hide RelatedDisks, RelatedPartitions, EspConfidence, LinkConfidence;
    if w: Id, p: Id :| Installed(e, w, p) && OnDisk(e, p, d) {
      var m :| m in e.targets && m.id == w && m.kind == WindowsTarget;
      assert Installed(e, m.id, p);
      assert WindowsRelation(e, Relation(HostsWindows, p, w, LinkConfidence(e, w, p)));
      assert WindowsRelation(e, Relation(Contains, d, p, StrongInference));
    }
    forall r | r in t.relations && r.kind.Contains? ensures WindowsDisk(e, r.from) {
      assert WindowsRelation(e, r) || EspRelation(e, r) || BcdRelation(e, r);
      var m :| m in e.targets && Installed(e, m.id, r.to);
    }
  }

  /** A selection always comes with the link between its disk and its EFI system partition. */
  lemma SelectedEspIsNear(e: CaseEvidence, technician: Option<TechnicianSelection>, t: Topology)
    requires Resolved(e, technician, t) && t.selection.Selection?
    ensures exists r | r in t.relations ::
      r.kind.HostsEsp? && r.from == t.selection.disk && r.to == t.selection.esp
  {
    hide ExactRelations, UniqueIds, Blocks, LeavesOpen, Plays, SafeMedia, ModeFits, ModeOf, ModeWords, AutomaticFits,
         FirmwareFits, RuntimeOnlySelected, Linked, IsKind, DiskIsGpt;
    if technician.Some? {
      UsableIffLinked(e, t.relations, HostsEsp, t.selection.disk, t.selection.esp);
    } else {
      assert ActionableChain(e, t);
    }
  }

  lemma EspsElsewhere(e: CaseEvidence, technician: Option<TechnicianSelection>, t: Topology)
    requires Resolved(e, technician, t)
    ensures CrossDiskEsp(t) <==> EspElsewhere(e, t.selection)
  {
    hide Resolved, ExactRelations, RelatedDisks, IsKind, EspConfidence, WindowsDisks, WindowsDisk, SignedEsp, TypedEsp;
    if t.selection.Selection? {
      SelectedEspIsNear(e, technician, t);
    } else {
      assert WellResolved(e, technician, t) by { IsWellResolved(e, technician, t); }
      KnownRelations(e, technician, t);
      forall d: Id ensures d in WindowsDisks(t) <==> WindowsDisk(e, d) {
        DisksOfWindows(e, t, d);
      }
      EspLinks(e, t);
      if p: Id, d: Id :| SignedEsp(e, p) && d in RelatedDisks(e, p) && !WindowsDisk(e, d) {
        var r :| r in t.relations && r.kind.HostsEsp? && r.to == p && r.from == d;
      }
    }
  }

  lemma IsWellResolved(e: CaseEvidence, technician: Option<TechnicianSelection>, t: Topology)
    requires Resolved(e, technician, t)
    ensures WellResolved(e, technician, t)
  {
  }

  lemma EspLinks(e: CaseEvidence, t: Topology)
    requires ExactRelations(e, t.relations)
    ensures forall r | r in t.relations && r.kind.HostsEsp? :: SignedEsp(e, r.to) && r.from in RelatedDisks(e, r.to)
    ensures forall p: Id, d: Id | SignedEsp(e, p) && d in RelatedDisks(e, p) ::
      exists r :: r in t.relations && r.kind.HostsEsp? && r.to == p && r.from == d
  {
    hide RelatedDisks, RelatedPartitions, IsKind, EspConfidence, SignedEsp, TypedEsp;
    forall r | r in t.relations && r.kind.HostsEsp? ensures SignedEsp(e, r.to) && r.from in RelatedDisks(e, r.to) {
      assert WindowsRelation(e, r) || EspRelation(e, r) || BcdRelation(e, r);
      SignIff(e, r.to);
    }
    forall p: Id, d: Id | SignedEsp(e, p) && d in RelatedDisks(e, p)
      ensures exists r :: r in t.relations && r.kind.HostsEsp? && r.to == p && r.from == d
    {
      SignIff(e, p);
      assert EspRelation(e, Relation(HostsEsp, d, p, EspConfidence(e, p).value));
    }
  }

  lemma StyleIs(e: CaseEvidence, technician: Option<TechnicianSelection>, t: Topology, styles: map<Id, Style>,
                style: Style)
    requires WellResolved(e, technician, t)
    ensures PreferredStyle(t, styles) == Some(style) <==> MainStyle(e, t.selection, styles, style)
  {
    hide WellResolved, TargetsOf, WindowsDisk;
    var disks := TargetsOf(t, SystemDiskRole);
    forall d: Id ensures d in disks <==> WindowsDisk(e, d) { RoleTargets(e, technician, t, d); }
    if |disks| == 1 {
      assert The(disks) in disks;
      assert MainDisk(e, NoSelection, The(disks));
    }
    if d: Id :| WindowsDisk(e, d) && forall x: Id | WindowsDisk(e, x) :: x == d {
      assert disks == {d};
    }
  }

  lemma ResolvedParts(e: CaseEvidence, technician: Option<TechnicianSelection>, t: Topology)
    requires Resolved(e, technician, t)
    ensures ExactRelations(e, t.relations) && ModeFits(e, t.mode)
    ensures forall b :: b in t.blockers <==> Blocks(e, technician, b)
    ensures forall a :: a in t.ambiguities <==> LeavesOpen(e, technician, a)
    ensures t.healthLimitation <==> Blocks(e, technician, HealthUnknownB)
    ensures t.eligible <==> t.blockers == {}
    ensures t.eligible ==> t.mode.Uefi? && t.selection.Selection?
    ensures technician.None? && !t.eligible ==> t.selection.NoSelection?
  {
    hide ExactRelations, UniqueIds, Blocks, LeavesOpen, Plays, SafeMedia, ModeFits, ModeOf, ModeWords, AutomaticFits,
         TechnicianFits, FirmwareFits, RuntimeOnlySelected, DiskIsGpt, StrongRelation;
  }

  /** The modes exclude each other. */
  lemma OneMode(e: CaseEvidence, mode: FirmwareMode, other: FirmwareMode)
    requires ModeFits(e, mode)
    ensures ModeFits(e, other) <==> other == mode
  {
    hide ModeFits, ModeOf, ModeWords;
    ModeFitsIff(e, mode);
    ModeFitsIff(e, other);
  }

  lemma FirmwareFindings(e: CaseEvidence, technician: Option<TechnicianSelection>, t: Topology, styles: map<Id, Style>,
                         c: FirmwareCode)
    requires Resolved(e, technician, t)
    ensures EmitsFirmware(TestsOf(t, styles), c) <==> FoundFirmware(e, technician, styles, t.selection, c)
  {
    hide Resolved, TargetsOf, PreferredStyle, HasRelationKind, CrossDiskEsp, HasBcdForWindows, BcdPointsElsewhere,
         BcdCrossDisk, ConflictingAmbiguity, ModeFits, MainStyle, SoleDisk, DiskIsGpt, Blocks, LeavesOpen,
         ExactRelations;
    ResolvedParts(e, technician, t);
    IsWellResolved(e, technician, t);
    OneMode(e, t.mode, Uefi);
    OneMode(e, t.mode, Bios);
    OneMode(e, t.mode, UnknownMode);
    OneMode(e, t.mode, ConflictingMode);
    StyleIs(e, technician, t, styles, Gpt);
    StyleIs(e, technician, t, styles, Mbr);
    NotGptBlocks(e, technician);
  }

  lemma NotGptBlocks(e: CaseEvidence, technician: Option<TechnicianSelection>)
    ensures Blocks(e, technician, DiskNotGptB) <==> exists d: Id :: SoleDisk(e, technician, d) && !DiskIsGpt(e, d)
  {
    hide SoleDisk, DiskIsGpt;
  }

  /** A disk of the one installation is a disk with Windows. */
  lemma SoleDiskIsWindowsDisk(e: CaseEvidence, technician: Option<TechnicianSelection>, w: Id, d: Id)
    requires SoleInstallation(e, technician, w)
    ensures SoleDisk(e, technician, d) <==> WindowsDisk(e, d)
  {
    hide ModeFits, RelatedPartitions, OnDisk;
    if x: Id, p: Id :| Installed(e, x, p) && OnDisk(e, p, d) {
      assert x == w;
    }
  }

  lemma UnresolvedIs(e: CaseEvidence, technician: Option<TechnicianSelection>)
    ensures Blocks(e, technician, WindowsPartitionUnresolvedB) <==>
      (exists w: Id :: SoleInstallation(e, technician, w)) && forall d: Id :: !WindowsDisk(e, d)
    ensures Blocks(e, technician, WindowsPartitionUnresolvedB) ==> OneOf(e, WindowsTarget)
  {
    hide SoleDisk, WindowsDisk, ModeFits, OnlyTarget;
    if w: Id :| SoleInstallation(e, technician, w) {
      assert OnlyTarget(e, WindowsTarget, w);
      forall d: Id ensures SoleDisk(e, technician, d) <==> WindowsDisk(e, d) {
        SoleDiskIsWindowsDisk(e, technician, w, d);
      }
    }
  }

  lemma OneIsNotNone(e: CaseEvidence, kind: TargetKind)
    ensures OneOf(e, kind) ==> !NoneOf(e, kind) && !Several(e, kind)
    ensures Several(e, kind) ==> !NoneOf(e, kind)
  {
  }

  lemma DiskNeedsPartition(e: CaseEvidence)
    ensures (forall w: Id, p: Id :: !Installed(e, w, p)) ==> forall d: Id :: !WindowsDisk(e, d)
  {
    hide Installed, OnDisk;
  }

  /** The sets of candidates, told on the evidence. */
  lemma WindowsSets(e: CaseEvidence, technician: Option<TechnicianSelection>, t: Topology)
    requires WellResolved(e, technician, t)
    ensures TargetsOf(t, WindowsRole) == {} <==> NoneOf(e, WindowsTarget)
    ensures |TargetsOf(t, WindowsRole)| > 1 <==> Several(e, WindowsTarget)
    ensures |TargetsOf(t, WindowsRole)| == 1 <==> OneOf(e, WindowsTarget)
    ensures TargetsOf(t, WindowsPartitionRole) == {} <==> forall w: Id, p: Id :: !Installed(e, w, p)
    ensures TargetsOf(t, SystemDiskRole) == {} <==> forall d: Id :: !WindowsDisk(e, d)
  {
    hide WellResolved, TargetsOf, NoneOf, OneOf, Several, Installed, WindowsDisk, IsKind;
    forall id: Id
      ensures id in TargetsOf(t, WindowsRole) <==> IsKind(e, id, WindowsTarget)
      ensures id in TargetsOf(t, WindowsPartitionRole) <==> exists w: Id :: Installed(e, w, id)
      ensures id in TargetsOf(t, SystemDiskRole) <==> WindowsDisk(e, id)
    {
      RoleTargets(e, technician, t, id);
    }
    SizeOfKind(e, WindowsTarget, TargetsOf(t, WindowsRole));
    if w: Id, p: Id :| Installed(e, w, p) { assert p in TargetsOf(t, WindowsPartitionRole); }
    if d: Id :| WindowsDisk(e, d) { assert d in TargetsOf(t, SystemDiskRole); }
  }

  lemma WindowsTests(e: CaseEvidence, technician: Option<TechnicianSelection>, t: Topology, styles: map<Id, Style>)
    requires Resolved(e, technician, t)
    ensures var x := TestsOf(t, styles);
      && (x.windowsAbsent <==> NoneOf(e, WindowsTarget)) && x.noWindows == x.windowsAbsent
      && (x.severalWindows <==> Several(e, WindowsTarget))
      && (x.partitionUnclear || x.windowsUnrelated <==> PartitionUnclear(e, technician))
      && (x.diskUnclear <==> OneOf(e, WindowsTarget) && forall d: Id :: !WindowsDisk(e, d))
      && (x.partitionUnclear ==> x.diskUnclear)
  {
    hide Resolved, WellResolved, TargetsOf, PreferredStyle, HasRelationKind, CrossDiskEsp, HasBcdForWindows,
         BcdPointsElsewhere, BcdCrossDisk, ConflictingAmbiguity, Blocks, LeavesOpen, NoneOf, OneOf, Several,
         Installed, WindowsDisk, SoleInstallation, ExactRelations;
    ResolvedParts(e, technician, t);
    IsWellResolved(e, technician, t);
    WindowsSets(e, technician, t);
    OneIsNotNone(e, WindowsTarget);
    DiskNeedsPartition(e);
    UnresolvedIs(e, technician);
    WindowsUsable(e, t);
    NeverBlocks(e, technician);
  }

  lemma WindowsFindings(e: CaseEvidence, technician: Option<TechnicianSelection>, t: Topology, styles: map<Id, Style>,
                        c: WindowsCode)
    requires Resolved(e, technician, t)
    ensures EmitsWindows(TestsOf(t, styles), c) <==> FoundWindows(e, technician, c)
  {
    hide Resolved, TestsOf, NoneOf, OneOf, Several, PartitionUnclear, WindowsDisk;
    WindowsTests(e, technician, t, styles);
    OneIsNotNone(e, WindowsTarget);
  }

  lemma NeverBlocks(e: CaseEvidence, technician: Option<TechnicianSelection>)
    ensures !Blocks(e, technician, SystemDiskUnresolvedB) && !Blocks(e, technician, BcdMissingB)
    ensures Blocks(e, technician, WindowsMissingB) <==> NoneOf(e, WindowsTarget)
    ensures Blocks(e, technician, WindowsAmbiguousB) ==> Several(e, WindowsTarget)
    ensures Blocks(e, technician, EspMissingB) <==> forall p: Id :: !SignedEsp(e, p)
    ensures Blocks(e, technician, EspAmbiguousB) ==> SeveralEsps(e)
    ensures Blocks(e, technician, BcdAmbiguousB) ==> Several(e, BootStoreTarget)
  {
    hide SolePair, TypedEsp;
    forall p: Id | SignedEsp(e, p) ensures exists t :: t in e.targets && t.id == p {
    }
  }

  lemma EspFindings(e: CaseEvidence, technician: Option<TechnicianSelection>, t: Topology, styles: map<Id, Style>,
                    c: EspCode)
    requires Resolved(e, technician, t)
    ensures EmitsEsp(TestsOf(t, styles), c) <==> FoundEsp(e, t.selection, c)
  {
    hide Resolved, TargetsOf, PreferredStyle, HasRelationKind, CrossDiskEsp, HasBcdForWindows, BcdPointsElsewhere,
         BcdCrossDisk, ConflictingAmbiguity, Blocks, LeavesOpen, ExactRelations, SignedEsp, TypedEsp, SeveralEsps,
         EspElsewhere, RelatedDisks;
    ResolvedParts(e, technician, t);
    IsWellResolved(e, technician, t);
    var esps := TargetsOf(t, EspRole);
    forall id: Id ensures id in esps <==> SignedEsp(e, id) {
      RoleTargets(e, technician, t, id);
    }
    NumberOfEsps(e, esps);
    NeverBlocks(e, technician);
    EspUsable(e, t);
    EspsElsewhere(e, technician, t);
    NeverOpen(e, technician);
  }

  lemma NeverOpen(e: CaseEvidence, technician: Option<TechnicianSelection>)
    ensures !LeavesOpen(e, technician, EspCrossDiskA) && !LeavesOpen(e, technician, EspUnreadableA)
  {
  }

  lemma StoresOpen(e: CaseEvidence, technician: Option<TechnicianSelection>)
    ensures LeavesOpen(e, technician, BcdAmbiguousA) || Several(e, BootStoreTarget) <==> StoresUnclear(e)
    ensures NoneOf(e, BootStoreTarget) ==> !LeavesOpen(e, technician, BcdMissingA) && !StoresUnclear(e)
    ensures !LeavesOpen(e, technician, BcdUnreadableA)
  {
    hide RelatedPartitions;
  }

  lemma BcdFindings(e: CaseEvidence, technician: Option<TechnicianSelection>, t: Topology, styles: map<Id, Style>,
                    c: BcdCode)
    requires Resolved(e, technician, t)
    ensures EmitsBcd(TestsOf(t, styles), c) <==> FoundBcd(e, t.selection, c)
  {
    hide Resolved, TargetsOf, PreferredStyle, HasRelationKind, CrossDiskEsp, HasBcdForWindows, BcdPointsElsewhere,
         BcdCrossDisk, ConflictingAmbiguity, Blocks, LeavesOpen, NoneOf, OneOf, Several, StoresUnclear, StoreElsewhere,
         IsKind;
    ResolvedParts(e, technician, t);
    IsWellResolved(e, technician, t);
    forall id: Id
      ensures id in TargetsOf(t, WindowsRole) <==> IsKind(e, id, WindowsTarget)
      ensures id in TargetsOf(t, BcdRole) <==> IsKind(e, id, BootStoreTarget)
    {
      RoleTargets(e, technician, t, id);
    }
    SizeOfKind(e, WindowsTarget, TargetsOf(t, WindowsRole));
    SizeOfKind(e, BootStoreTarget, TargetsOf(t, BcdRole));
    NeverBlocks(e, technician);
    StoresOpen(e, technician);
    NoEntries(e, t);
    StoresElsewhere(e, t);
  }

  lemma MediaTests(e: CaseEvidence, technician: Option<TechnicianSelection>, t: Topology, styles: map<Id, Style>)
    requires Resolved(e, technician, t)
    ensures var x := TestsOf(t, styles);
      && (x.inaccessible <==> exists v | v in e.views :: SaysLocked(v))
      && (x.lockUnknown <==> exists v | v in e.views :: LockUndecided(v))
      && (x.unsafe <==> FailureReported(e)) && !x.healthWarning
      && (x.healthUnknown <==> !FailureReported(e) && (HealthUndecided(e) || !HealthReported(e)))
      && (x.healthUnknown && x.healthUnreported <==> !HealthReported(e))
  {
    hide Resolved, TargetsOf, PreferredStyle, HasRelationKind, CrossDiskEsp, HasBcdForWindows, BcdPointsElsewhere,
         BcdCrossDisk, ConflictingAmbiguity, Blocks, LeavesOpen, ExactRelations;
    ResolvedParts(e, technician, t);
    LocksTold(e, technician);
    HealthTold(e, technician);
    NothingReported(e);
  }

  lemma LocksTold(e: CaseEvidence, technician: Option<TechnicianSelection>)
    ensures Blocks(e, technician, BitLockerInaccessibleB) <==> exists v | v in e.views :: SaysLocked(v)
    ensures LeavesOpen(e, technician, BitLockerInaccessibleA) <==> exists v | v in e.views :: SaysLocked(v)
    ensures Blocks(e, technician, BitLockerUnknownB) <==> exists v | v in e.views :: LockUndecided(v)
    ensures LeavesOpen(e, technician, BitLockerUnknownA) <==> exists v | v in e.views :: LockUndecided(v)
  {
    hide SaysLocked, LockUndecided;
  }

  lemma HealthTold(e: CaseEvidence, technician: Option<TechnicianSelection>)
    ensures Blocks(e, technician, HealthUnsafeB) <==> FailureReported(e)
    ensures LeavesOpen(e, technician, HealthUnsafeA) <==> FailureReported(e)
    ensures Blocks(e, technician, HealthUnknownB) <==>
      !FailureReported(e) && (HealthUndecided(e) || !HealthReported(e))
    ensures LeavesOpen(e, technician, HealthUnknownA) <==> !FailureReported(e) && HealthUndecided(e)
    ensures !LeavesOpen(e, technician, HealthWarningA)
  {
    hide FailureReported, HealthUndecided, HealthReported;
  }

  lemma MediaFindings(e: CaseEvidence, technician: Option<TechnicianSelection>, t: Topology, styles: map<Id, Style>,
                      c: MediaCode)
    requires Resolved(e, technician, t)
    ensures EmitsMedia(TestsOf(t, styles), c) <==> FoundMedia(e, c)
  {
    hide Resolved, TestsOf, SaysLocked, LockUndecided, FailureReported, HealthUndecided, HealthReported;
    MediaTests(e, technician, t, styles);
  }

  lemma NothingReported(e: CaseEvidence)
    ensures !HealthReported(e) ==> !FailureReported(e) && !HealthUndecided(e)
  {
  }

  lemma OverallTests(e: CaseEvidence, technician: Option<TechnicianSelection>, t: Topology, styles: map<Id, Style>)
    requires Resolved(e, technician, t)
    ensures var x := TestsOf(t, styles);
      && (x.selectionOpen <==> t.selection.NoSelection?)
      && (x.partial || x.incomplete <==> !t.eligible)
      && (x.unsupported <==> ModeFits(e, Bios) || Misplaced(e, technician))
      && (x.sound <==> t.eligible)
  {
    hide Resolved, TargetsOf, PreferredStyle, HasRelationKind, CrossDiskEsp, HasBcdForWindows, BcdPointsElsewhere,
         BcdCrossDisk, Blocks, LeavesOpen, ExactRelations, ModeFits, Misplaced;
    ResolvedParts(e, technician, t);
    LayoutTold(e, technician);
    LocksTold(e, technician);
    HealthTold(e, technician);
    if t.eligible {
      assert UnsupportedLayoutB !in t.blockers && HealthUnsafeB !in t.blockers;
      assert BitLockerInaccessibleB !in t.blockers && BitLockerUnknownB !in t.blockers;
      assert EvidenceIncompleteB !in t.blockers && RelationRuntimeOnlyB !in t.blockers;
    }
    if SelectionRequiredB in t.blockers {
      assert technician.None?;
    }
  }

  lemma LayoutTold(e: CaseEvidence, technician: Option<TechnicianSelection>)
    ensures Blocks(e, technician, UnsupportedLayoutB) <==> ModeFits(e, Bios) || Misplaced(e, technician)
    ensures LeavesOpen(e, technician, UnsupportedLayoutA) <==> Misplaced(e, technician)
    ensures Blocks(e, technician, SelectionRequiredB) ==> technician.None?
  {
    hide ModeFits, Misplaced;
  }

  /** What the other tests say once more for the overall findings. */
  lemma SharedTests(e: CaseEvidence, technician: Option<TechnicianSelection>, t: Topology, styles: map<Id, Style>)
    requires Resolved(e, technician, t)
    ensures var x := TestsOf(t, styles);
      && x.mode == t.mode
      && (x.espElsewhere <==> EspElsewhere(e, t.selection)) && (x.bcdCrossDisk <==> StoreElsewhere(e, t.selection))
      && (!x.windowsAbsent && x.severalWindows <==> Several(e, WindowsTarget))
      && (!x.espAbsent && x.severalEsps <==> SeveralEsps(e)) && (x.bcdUnclear <==> StoresUnclear(e))
  {
    hide Resolved, TestsOf, EspElsewhere, StoreElsewhere, Several, SeveralEsps, StoresUnclear;
    assert TestsOf(t, styles).mode == t.mode by { ModeTest(t, styles); }
    EspFindings(e, technician, t, styles, EspCrossDisk);
    EspFindings(e, technician, t, styles, MultipleEsps);
    BcdFindings(e, technician, t, styles, BcdCrossDiskMismatch);
    BcdFindings(e, technician, t, styles, BcdStoreAmbiguous);
    WindowsFindings(e, technician, t, styles, MultipleWindowsInstallations);
  }

  lemma ModeTest(t: Topology, styles: map<Id, Style>)
    ensures TestsOf(t, styles).mode == t.mode
  {
  }

  /** Every finding that is drafted is one that is made, the consistent verdict apart. */
  lemma DraftedIffFound(e: CaseEvidence, technician: Option<TechnicianSelection>, t: Topology, styles: map<Id, Style>,
                        c: Code)
    requires Resolved(e, technician, t)
    ensures Emits(t, styles, c) <==> if c == CONSISTENT then t.eligible else Found(e, technician, styles, t, c)
  {
    hide Resolved, TestsOf, EmitsFirmware, EmitsWindows, EmitsEsp, EmitsBcd, EmitsMedia, FoundFirmware, FoundWindows,
         FoundEsp, FoundBcd, FoundMedia, Blocks, ModeFits, Misplaced, EspElsewhere, StoreElsewhere, Several,
         SeveralEsps, StoresUnclear, FailureReported;
    match c {
      case OfFirmware(f) => FirmwareFindings(e, technician, t, styles, f);
      case OfWindows(w) => WindowsFindings(e, technician, t, styles, w);
      case OfEsp(p) => EspFindings(e, technician, t, styles, p);
      case OfBcd(b) => BcdFindings(e, technician, t, styles, b);
      case OfMedia(m) => MediaFindings(e, technician, t, styles, m);
      case OfOverall(o) =>
        ResolvedMode(e, technician, t);
        OverallTests(e, technician, t, styles);
        SharedTests(e, technician, t, styles);
        UnsafeTest(e, technician, t, styles);
    }
  }

  lemma UnsafeTest(e: CaseEvidence, technician: Option<TechnicianSelection>, t: Topology, styles: map<Id, Style>)
    requires Resolved(e, technician, t)
    ensures TestsOf(t, styles).unsafe <==> FailureReported(e)
  {
    hide Resolved, TestsOf, FailureReported;
    MediaTests(e, technician, t, styles);
  }

  lemma ResolvedMode(e: CaseEvidence, technician: Option<TechnicianSelection>, t: Topology)
    requires Resolved(e, technician, t)
    ensures t.mode.ConflictingMode? <==> ModeFits(e, ConflictingMode)
    ensures t.eligible <==> forall b :: !Blocks(e, technician, b)
  {
    hide Resolved, Blocks, ModeFits, LeavesOpen, ExactRelations;
    ResolvedParts(e, technician, t);
    OneMode(e, t.mode, ConflictingMode);
    assert t.blockers == {} <==> forall b :: b !in t.blockers;
  }

  lemma MarkedIffLacking(e: CaseEvidence, technician: Option<TechnicianSelection>, t: Topology, styles: map<Id, Style>,
                         c: Code)
    requires Resolved(e, technician, t) && Emits(t, styles, c)
    ensures Insufficient(TestsOf(t, styles), c) <==> Lacking(e, c)
  {
    hide Resolved, TestsOf, NoneOf, SignedEsp, LockUndecided, SaysLocked, EmitsFirmware, EmitsBcd, EmitsOverall;
    WindowsTests(e, technician, t, styles);
    MediaTests(e, technician, t, styles);
    EspAbsence(e, technician, t, styles);
  }

  lemma EspAbsence(e: CaseEvidence, technician: Option<TechnicianSelection>, t: Topology, styles: map<Id, Style>)
    requires Resolved(e, technician, t)
    ensures TestsOf(t, styles).espAbsent ==> TestsOf(t, styles).noEsp
  {
    hide Resolved, TargetsOf, PreferredStyle, HasRelationKind, CrossDiskEsp, HasBcdForWindows, BcdPointsElsewhere,
         BcdCrossDisk, ConflictingAmbiguity, Blocks, LeavesOpen, ExactRelations, SignedEsp;
    ResolvedParts(e, technician, t);
    IsWellResolved(e, technician, t);
    NeverBlocks(e, technician);
    if p: Id :| p in TargetsOf(t, EspRole) {
      RoleTargets(e, technician, t, p);
    }
  }

  // ---------------------------------------------------------------- what suppression does to them

  /** No finding but the consistent verdict is drafted beside one that would suppress it. */
  lemma OnlyConsistentIsDropped(e: CaseEvidence, technician: Option<TechnicianSelection>, t: Topology,
                                styles: map<Id, Style>, c: Code, v: Code)
    requires v in Victims(c) && v != CONSISTENT
    ensures !(Found(e, technician, styles, t, c) && Found(e, technician, styles, t, v))
  {
    hide ModeFits, ModeOf, ModeWords, NoneOf, OneOf, Several, PartitionUnclear, WindowsDisk, MainStyle, SoleDisk,
         DiskIsGpt, SignedEsp, EspElsewhere, EspUnrelated, StoresUnclear, StoreElsewhere, FoundMedia, FoundOverall;
    OneIsNotNone(e, WindowsTarget);
    UnclearHasWindows(e, technician);
    if c.OfFirmware? {
      ModeFitsIff(e, Uefi);
      ModeFitsIff(e, Bios);
      ModeFitsIff(e, UnknownMode);
      ModeFitsIff(e, ConflictingMode);
    }
  }

  lemma UnclearHasWindows(e: CaseEvidence, technician: Option<TechnicianSelection>)
    ensures PartitionUnclear(e, technician) ==> !NoneOf(e, WindowsTarget)
  {
    hide Installed, ModeFits, WindowsDisk;
  }

  /** Of the findings that would suppress a consistent verdict, an eligible topology can have two. */
  lemma EligibleSuppressors(e: CaseEvidence, technician: Option<TechnicianSelection>, t: Topology,
                            styles: map<Id, Style>, c: Code)
    requires Resolved(e, technician, t) && t.eligible && CONSISTENT in Victims(c) && Emits(t, styles, c)
    ensures c == CROSS_DISK || c == AMBIGUOUS
  {
    hide Resolved, Emits, Blocks, LeavesOpen, ExactRelations, ModeFits, Misplaced, EspElsewhere, StoreElsewhere,
         Several, SeveralEsps, StoresUnclear, FoundWindows, LockUndecided, SaysLocked, FailureReported,
         HealthUndecided, HealthReported;
    DraftedIffFound(e, technician, t, styles, c);
    ResolvedMode(e, technician, t);
    ResolvedParts(e, technician, t);
    OneMode(e, t.mode, UnknownMode);
    OneMode(e, t.mode, ConflictingMode);
    LayoutTold(e, technician);
    LocksTold(e, technician);
    HealthTold(e, technician);
    assert EspElsewhere(e, t.selection) ==> t.selection.NoSelection? by { ElsewhereIsUnselected(e, t.selection); }
    NothingReported(e);
  }

  lemma ElsewhereIsUnselected(e: CaseEvidence, s: Selection)
    ensures EspElsewhere(e, s) ==> s.NoSelection?
  {
  }

  /** The topology is called consistent exactly when nothing blocks it and there was nothing to choose between: one
      installation, one EFI system partition, at most one boot store, on one partition, and that a selected one. */
  lemma ConsistentSurvivesIff(e: CaseEvidence, technician: Option<TechnicianSelection>, t: Topology,
                              styles: map<Id, Style>)
    requires Resolved(e, technician, t)
    ensures CONSISTENT in Suppress(DraftsOf(t, styles)) <==> Found(e, technician, styles, t, CONSISTENT)
  {
    hide Resolved, Suppress, DraftsOf, Emits, Blocks, Several, SeveralEsps, StoresUnclear, StoreElsewhere, EspElsewhere;
    var drafts := DraftsOf(t, styles);
    ConsistentSuppressors(drafts);
    AllInDrafts(t, styles);
    TheTwo();
    ResolvedMode(e, technician, t);
    DraftedIffFound(e, technician, t, styles, CONSISTENT);
    DraftedIffFound(e, technician, t, styles, CROSS_DISK);
    DraftedIffFound(e, technician, t, styles, AMBIGUOUS);
    if t.eligible {
      forall c | c in drafts && CONSISTENT in Victims(c) ensures c == CROSS_DISK || c == AMBIGUOUS {
        EligibleSuppressors(e, technician, t, styles, c);
      }
    }
  }

  lemma ConsistentSuppressors(drafts: Drafts)
    ensures CONSISTENT in Suppress(drafts) <==>
      CONSISTENT in drafts && forall c | c in drafts :: CONSISTENT !in Victims(c)
  {
    hide Victims;
    assert CONSISTENT in Dropped(drafts.Keys) <==> exists c :: c in drafts.Keys && CONSISTENT in Victims(c);
  }

  lemma TheTwo()
    ensures CONSISTENT in Victims(CROSS_DISK) && CONSISTENT in Victims(AMBIGUOUS)
  {
  }

  /** What is found is what drafting and suppression leave. */
  lemma KeptIffFound(e: CaseEvidence, technician: Option<TechnicianSelection>, t: Topology, styles: map<Id, Style>,
                     c: Code)
    requires Resolved(e, technician, t)
    ensures c in Suppress(DraftsOf(t, styles)) <==> Found(e, technician, styles, t, c)
  {
    hide Resolved, DraftsOf, Emits, Found, Victims;
    var drafts := DraftsOf(t, styles);
    if c == CONSISTENT {
      ConsistentSurvivesIff(e, technician, t, styles);
    } else {
      AllInDrafts(t, styles);
      DraftedIffFound(e, technician, t, styles, c);
      ConsistentSuppressesNone();
      if s :| s in drafts && c in Victims(s) {
        DraftedIffFound(e, technician, t, styles, s);
        OnlyConsistentIsDropped(e, technician, t, styles, s, c);
      }
    }
  }

  lemma ConsistentSuppressesNone()
    ensures Victims(CONSISTENT) == {}
  {
  }

  /** Every resolved topology gives findings, and suppression leaves some. */
  lemma FindingsRemain(e: CaseEvidence, technician: Option<TechnicianSelection>, t: Topology, styles: map<Id, Style>)
    requires Resolved(e, technician, t)
    ensures Suppress(DraftsOf(t, styles)) != map[]
  {
    hide Resolved, Suppress, DraftsOf, Emits, Blocks;
    var incomplete := OfOverall(BootTopologyIncomplete);
    AllInDrafts(t, styles);
    ResolvedMode(e, technician, t);
    DraftedIffFound(e, technician, t, styles, CONSISTENT);
    DraftedIffFound(e, technician, t, styles, incomplete);
    assert CONSISTENT in DraftsOf(t, styles) || incomplete in DraftsOf(t, styles);
    SuppressionKeepsSome(DraftsOf(t, styles));
  }

  /** `Analyze` on what `Resolve` returned. */
  method AnalyzeEvidence(e: CaseEvidence, technician: Option<TechnicianSelection>, styles: map<Id, Style>)
    returns (topology: Option<Topology>, findings: Drafts)
    requires Collections.DistinctOn(e.targets, MachineKey)
    ensures topology.Some? <==>
      HasFirmware(e) && !SomethingShared(e) && (technician.Some? ==> TechnicianFits(e, technician.value))
    ensures topology.Some? ==>
      && WellResolved(e, technician, topology.value) && findings != map[]
      && (forall c :: c in findings <==> Found(e, technician, styles, topology.value, c))
      && (forall c | c in findings :: findings[c] <==> Lacking(e, c))
      && findings == Suppress(DraftsOf(topology.value, styles))
      && (forall c, v | c in findings && v in Victims(c) :: v !in findings)
  {
    hide WellResolved, Emits, Victims, Suppress, SomethingShared, TechnicianFits, DraftsOf, Found, Lacking;
    findings := map[];
    topology := Resolve(e, technician);
    if topology.Some? {
      var t := topology.value;
      var drafts := CollectDrafts(t, styles);
      findings := ApplySuppression(drafts);
      FindingsRemain(e, technician, t, styles);
      SuppressionSettles(drafts);
      forall c ensures c in findings <==> Found(e, technician, styles, t, c) {
        KeptIffFound(e, technician, t, styles, c);
      }
      forall c | c in findings ensures findings[c] <==> Lacking(e, c) {
        KeptMark(drafts, c);
        InDrafts(t, styles, c);
        MarkedIffLacking(e, technician, t, styles, c);
      }
    }
  }

  lemma KeptMark(drafts: Drafts, c: Code)
    requires c in Suppress(drafts)
    ensures c in drafts && Suppress(drafts)[c] == drafts[c]
  {
  }
}
