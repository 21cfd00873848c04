/** `Snapshot.Validate` pass by pass: single loops over look-up tables decide what the declarative rules say. */
module Validator {
  import opened Domain
  import opened Semantics
  import opened Validation
  import opened Collections
  import opened Replay
  import opened Preservation

  function IdOfTarget(t: Target): Id { t.targetId }
  function IdOfEvidence(e: Evidence): Id { e.evidenceId }
  function IdOfFinding(f: Finding): Id { f.findingId }
  function IdOfPlan(p: Plan): Id { p.planId }
  function IdOfExecution(e: Execution): Id { e.executionId }
  function IdOfVerification(x: Verification): Id { x.verificationId }
  function IdOfEvent(e: Event): Id { e.eventId }
  function IdOfAcquisition(a: Acquisition): Id { a.acquisitionId }
  function RequestOfAcquisition(a: Acquisition): Id { a.requestId }
  function IdOfConsultation(c: Consultation): Id { c.consultationId }
  function RequestOfConsultation(c: Consultation): Id { c.requestId }

  // ---------------------------------------------------------------- identifiers

  /** One pass over a collection, remembering the identifiers seen. */
  method CollectIds<T(==)>(xs: seq<T>, key: T -> Id) returns (ids: set<Id>, ok: bool)
    ensures ok <==> DistinctOn(xs, key)
    ensures ok ==> ids == set x | x in xs :: key(x)
  {
    ids, ok := {}, true;
    for i := 0 to |xs|
      invariant DistinctOn(xs[..i], key)
      invariant forall k | 0 <= k < i :: key(xs[k]) in ids
      invariant forall id | id in ids :: exists k :: 0 <= k < i && key(xs[k]) == id
    {
      if key(xs[i]) in ids { return {}, false; }
      ids := ids + {key(xs[i])};
    }
    assert xs[..|xs|] == xs;
  }

  predicate AllDistinct(s: Snapshot) {
    && DistinctOn(s.targets, IdOfTarget) && DistinctOn(s.evidence, IdOfEvidence) && DistinctOn(s.findings, IdOfFinding)
    && DistinctOn(s.plans, IdOfPlan) && DistinctOn(s.executions, IdOfExecution)
    && DistinctOn(s.verifications, IdOfVerification) && DistinctOn(s.events, IdOfEvent)
    && DistinctOn(s.acquisitions, IdOfAcquisition) && DistinctOn(s.acquisitions, RequestOfAcquisition)
    && DistinctOn(s.consultations, IdOfConsultation) && DistinctOn(s.consultations, RequestOfConsultation)
  }

  method CheckIdentifiers(s: Snapshot) returns (ok: bool)
    ensures ok <==> AllDistinct(s)
  {
    hide DistinctOn;
    var ids;
    ids, ok := CollectIds(s.targets, IdOfTarget);
    if !ok { return; }
    ids, ok := CollectIds(s.evidence, IdOfEvidence);
    if !ok { return; }
    ids, ok := CollectIds(s.findings, IdOfFinding);
    if !ok { return; }
    ids, ok := CollectIds(s.plans, IdOfPlan);
    if !ok { return; }
    ids, ok := CollectIds(s.executions, IdOfExecution);
    if !ok { return; }
    ids, ok := CollectIds(s.verifications, IdOfVerification);
    if !ok { return; }
    ids, ok := CollectIds(s.events, IdOfEvent);
    if !ok { return; }
    ids, ok := CollectIds(s.acquisitions, IdOfAcquisition);
    if !ok { return; }
    ids, ok := CollectIds(s.acquisitions, RequestOfAcquisition);
    if !ok { return; }
    ids, ok := CollectIds(s.consultations, IdOfConsultation);
    if !ok { return; }
    ids, ok := CollectIds(s.consultations, RequestOfConsultation);
  }

  /** Repeated identifiers in the lists are repeated documents or different documents with one identifier. */
  lemma DistinctEitherWay(s: Snapshot)
    ensures AllDistinct(s) <==> NoDuplicates(s) && DistinctIds(ViewOf(s))
  {
    hide DistinctOn, NoRepeats;
    DistinctOnIsDistinct(s.targets, IdOfTarget);
    DistinctOnIsDistinct(s.evidence, IdOfEvidence);
    DistinctOnIsDistinct(s.findings, IdOfFinding);
    DistinctOnIsDistinct(s.plans, IdOfPlan);
    DistinctOnIsDistinct(s.executions, IdOfExecution);
    DistinctOnIsDistinct(s.verifications, IdOfVerification);
    DistinctOnIsDistinct(s.events, IdOfEvent);
    DistinctOnIsDistinct(s.acquisitions, IdOfAcquisition);
    DistinctOnIsDistinct(s.acquisitions, RequestOfAcquisition);
    DistinctOnIsDistinct(s.consultations, IdOfConsultation);
    DistinctOnIsDistinct(s.consultations, RequestOfConsultation);
  }

  // ---------------------------------------------------------------- the case

  /** Case manifest, targets, and which collections may be empty. */
  method CheckCase(s: Snapshot) returns (ok: bool)
    ensures ok <==> DistinctOn(s.targets, IdOfTarget) && ValidCase(ViewOf(s))
  {
    EmptyLists(s);
    if !s.manifest.fields.wellFormed || s.targets == [] || s.evidence == []
       || s.manifest.updatedAt < s.manifest.createdAt {
      return false;
    }
    if s.workflow.None? && (s.findings != [] || s.plans != [] || s.executions != [] || s.verifications != []
                            || s.events != [] || s.acquisitions != [] || s.consultations != []) {
      return false;
    }
    for i := 0 to |s.targets|
      invariant forall k | 0 <= k < i :: s.targets[k].fields.wellFormed
    {
      if !s.targets[i].fields.wellFormed {
        assert s.targets[i] in Elements(s.targets);
        return false;
      }
    }
    var targetIds, distinct := CollectIds(s.targets, IdOfTarget);
    if !distinct { return false; }
    var listed: set<Id> := {};
    for i := 0 to |s.manifest.targetIds|
      invariant listed == Elements(s.manifest.targetIds[..i])
    {
      assert s.manifest.targetIds[..i + 1] == s.manifest.targetIds[..i] + [s.manifest.targetIds[i]];
      listed := listed + {s.manifest.targetIds[i]};
    }
    assert s.manifest.targetIds[..|s.manifest.targetIds|] == s.manifest.targetIds;
    assert targetIds == ViewOf(s).TargetIds();
    ok := |listed| == |targetIds| && (forall id | id in targetIds :: id in listed)
          && (forall id | id in listed :: id in targetIds);
  }

  lemma EmptyLists(s: Snapshot)
    ensures s.targets == [] <==> ViewOf(s).targets == {}
    ensures s.evidence == [] <==> ViewOf(s).evidence == {}
    ensures s.findings == [] <==> ViewOf(s).findings == {}
    ensures s.plans == [] <==> ViewOf(s).plans == {}
    ensures s.executions == [] <==> ViewOf(s).executions == {}
    ensures s.verifications == [] <==> ViewOf(s).verifications == {}
    ensures s.events == [] <==> ViewOf(s).events == {}
    ensures s.acquisitions == [] <==> ViewOf(s).acquisitions == {}
    ensures s.consultations == [] <==> ViewOf(s).consultations == {}
  {
    EmptyIffNoElements(s.targets);
    EmptyIffNoElements(s.evidence);
    EmptyIffNoElements(s.findings);
    EmptyIffNoElements(s.plans);
    EmptyIffNoElements(s.executions);
    EmptyIffNoElements(s.verifications);
    EmptyIffNoElements(s.events);
    EmptyIffNoElements(s.acquisitions);
    EmptyIffNoElements(s.consultations);
  }

  // ---------------------------------------------------------------- artifacts

  /** The references up to artifact `j` of bundle `i` all agree with the first of their id. */
  predicate AgreeUpTo(evidence: seq<Evidence>, first: map<Id, ArtifactRef>, i: nat, j: nat)
    requires i <= |evidence| && (i < |evidence| ==> j <= |evidence[i].artifacts|)
  {
    && (forall k, l | 0 <= k < i && 0 <= l < |evidence[k].artifacts| ::
          AgreesWithFirst(first, evidence[k].artifacts[l]))
    && (i < |evidence| ==> forall l | 0 <= l < j :: AgreesWithFirst(first, evidence[i].artifacts[l]))
  }

  predicate AgreesWithFirst(first: map<Id, ArtifactRef>, a: ArtifactRef) {
    a.artifactId in first && SameArtifact(first[a.artifactId], a)
  }

  predicate Occurs(evidence: seq<Evidence>, a: ArtifactRef) {
    exists e :: e in evidence && a in e.artifacts
  }

  /** Every reference is compared with the first one of its artifact id only. */
  method CheckArtifacts(s: Snapshot) returns (ok: bool)
    ensures ok <==> ArtifactsAgree(ViewOf(s))
  {
    hide SameArtifact;
    var first: map<Id, ArtifactRef> := map[];
    for i := 0 to |s.evidence|
      invariant AgreeUpTo(s.evidence, first, i, 0)
      invariant forall id | id in first :: first[id].artifactId == id && Occurs(s.evidence, first[id])
    {
      var artifacts := s.evidence[i].artifacts;
      for j := 0 to |artifacts|
        invariant AgreeUpTo(s.evidence, first, i, j)
        invariant forall id | id in first :: first[id].artifactId == id && Occurs(s.evidence, first[id])
      {
        var a := artifacts[j];
        assert s.evidence[i] in s.evidence && a in s.evidence[i].artifacts;
        SameArtifactTwice(a, a, a);
        if a.artifactId in first {
          if !SameArtifact(first[a.artifactId], a) {
            var d :| d in s.evidence && first[a.artifactId] in d.artifacts;
            assert d in ViewOf(s).evidence && s.evidence[i] in ViewOf(s).evidence;
            return false;
          }
        } else {
          first := first[a.artifactId := a];
        }
      }
    }
    AllAgree(s, first);
    ok := true;
  }

  lemma SameArtifactTwice(a: ArtifactRef, b: ArtifactRef, c: ArtifactRef)
    ensures SameArtifact(a, a)
    ensures SameArtifact(a, b) && SameArtifact(a, c) ==> SameArtifact(b, c)
  {
  }

  lemma AllAgree(s: Snapshot, first: map<Id, ArtifactRef>)
    requires AgreeUpTo(s.evidence, first, |s.evidence|, 0)
    ensures ArtifactsAgree(ViewOf(s))
  {
    forall d, e, a, b | d in ViewOf(s).evidence && e in ViewOf(s).evidence && a in d.artifacts && b in e.artifacts
                        && a.artifactId == b.artifactId
      ensures SameArtifact(a, b)
    {
      var k :| 0 <= k < |s.evidence| && s.evidence[k] == d;
      var l :| 0 <= l < |d.artifacts| && d.artifacts[l] == a;
      var m :| 0 <= m < |s.evidence| && s.evidence[m] == e;
      var n :| 0 <= n < |e.artifacts| && e.artifacts[n] == b;
      assert AgreesWithFirst(first, s.evidence[k].artifacts[l]) && AgreesWithFirst(first, s.evidence[m].artifacts[n]);
    }
  }

  // ---------------------------------------------------------------- origins

  /** Two claims of one id among the acquisitions so far, or within one of them. */
  predicate ClaimedOnce(acquisitions: seq<Acquisition>, pick: Acquisition -> seq<Id>) {
    && (forall a | a in acquisitions :: NoRepeats(pick(a)))
    && (forall i, j | 0 <= i < j < |acquisitions| :: Elements(pick(acquisitions[i])) !! Elements(pick(acquisitions[j])))
  }

  function TargetsOf(a: Acquisition): seq<Id> { a.addedTargets }
  function EvidenceOf(a: Acquisition): seq<Id> { a.addedEvidence }

  function Claims(acquisitions: seq<Acquisition>, pick: Acquisition -> seq<Id>): set<Id> {
    set a, id | a in acquisitions && id in pick(a) :: id
  }

  /** The ids an acquisition adds to those already claimed; fails on an id that is claimed twice. */
  method AddClaims(claimed: set<Id>, ids: seq<Id>) returns (more: set<Id>, ok: bool)
    ensures ok <==> NoRepeats(ids) && claimed !! Elements(ids)
    ensures ok ==> more == claimed + Elements(ids)
  {
    more, ok := claimed, true;
    for i := 0 to |ids|
      invariant NoRepeats(ids[..i]) && claimed !! Elements(ids[..i])
      invariant more == claimed + Elements(ids[..i])
    {
      assert ids[..i + 1] == ids[..i] + [ids[i]];
      if ids[i] in more {
        assert ids[i] in claimed || ids[i] in ids[..i];
        assert ids[i] in Elements(ids);
        return {}, false;
      }
      ElementsOfSum(ids[..i], [ids[i]]);
      more := more + {ids[i]};
    }
    assert ids[..|ids|] == ids;
  }

  method CollectClaims(acquisitions: seq<Acquisition>, pick: Acquisition -> seq<Id>)
    returns (claimed: set<Id>, ok: bool)
    ensures ok <==> ClaimedOnce(acquisitions, pick)
    ensures ok ==> claimed == Claims(acquisitions, pick)
  {
    hide NoRepeats;
    claimed, ok := {}, true;
    for i := 0 to |acquisitions|
      invariant ClaimedOnce(acquisitions[..i], pick) && claimed == Claims(acquisitions[..i], pick)
    {
      var a := acquisitions[i];
      assert acquisitions[..i + 1] == acquisitions[..i] + [a];
      var more, unclaimed := AddClaims(claimed, pick(a));
      ClaimsNext(acquisitions, i, pick);
      if !unclaimed { return {}, false; }
      claimed := more;
    }
    assert acquisitions[..|acquisitions|] == acquisitions;
  }

  lemma ClaimsNext(acquisitions: seq<Acquisition>, i: nat, pick: Acquisition -> seq<Id>)
    requires i < |acquisitions| && ClaimedOnce(acquisitions[..i], pick)
    ensures var a := acquisitions[i];
      && Claims(acquisitions[..i + 1], pick) == Claims(acquisitions[..i], pick) + Elements(pick(a))
      && (ClaimedOnce(acquisitions[..i + 1], pick) <==>
            NoRepeats(pick(a)) && Claims(acquisitions[..i], pick) !! Elements(pick(a)))
      && (ClaimedOnce(acquisitions, pick) ==> ClaimedOnce(acquisitions[..i + 1], pick))
  {
    hide NoRepeats;
    var before, after, a := acquisitions[..i], acquisitions[..i + 1], acquisitions[i];
    assert after == before + [a];
    forall k | 0 <= k < i ensures Elements(pick(before[k])) <= Claims(before, pick) {
      assert before[k] in before;
    }
    if ClaimedOnce(after, pick) {
      assert a in after;
      forall id | id in Claims(before, pick) ensures id !in Elements(pick(a)) {
        var b :| b in before && id in pick(b);
        var k :| 0 <= k < i && before[k] == b;
        assert after[k] == b && after[i] == a;
      }
    } else if NoRepeats(pick(a)) && Claims(before, pick) !! Elements(pick(a)) {
      forall k, l | 0 <= k < l < |after| ensures Elements(pick(after[k])) !! Elements(pick(after[l])) {
        assert after[k] == before[k];
        assert l < i ==> after[l] == before[l];
      }
      assert false;
    }
    if ClaimedOnce(acquisitions, pick) {
      forall k, l | 0 <= k < l < |after| ensures Elements(pick(after[k])) !! Elements(pick(after[l])) {
        assert after[k] == acquisitions[k] && after[l] == acquisitions[l];
      }
    }
  }

  /** Where every acquisition is valid, its claims are free of repetitions: what is left to check is that no two
      acquisitions claim one document. That everything else then has exactly one origin needs no check. */
  method CheckOrigins(s: Snapshot) returns (ok: bool)
    requires NoRepeats(s.acquisitions) && forall a | a in s.acquisitions :: ValidAcquisition(ViewOf(s), a)
    ensures ok <==> OneOrigin(ViewOf(s))
  {
    var v := ViewOf(s);
    OriginsAreClaims(s);
    var targets, once := CollectClaims(s.acquisitions, TargetsOf);
    if !once { return false; }
    var evidence;
    evidence, once := CollectClaims(s.acquisitions, EvidenceOf);
    if !once { return false; }
    var initialTargets, initialEvidence := v.TargetIds() - targets, v.EvidenceIds() - evidence;
    if (exists id | id in targets :: id in initialTargets) || (exists id | id in evidence :: id in initialEvidence) {
      return false;
    }
    for i := 0 to |s.targets| {
      assert s.targets[i] in v.targets && s.targets[i].targetId in v.TargetIds();
      if (s.targets[i].targetId in initialTargets) == (s.targets[i].targetId in targets) {
        return false;
      }
    }
    for i := 0 to |s.evidence| {
      assert s.evidence[i] in v.evidence && s.evidence[i].evidenceId in v.EvidenceIds();
      if (s.evidence[i].evidenceId in initialEvidence) == (s.evidence[i].evidenceId in evidence) {
        return false;
      }
    }
    ok := true;
  }

  lemma OriginsAreClaims(s: Snapshot)
    requires NoRepeats(s.acquisitions) && forall a | a in s.acquisitions :: ValidAcquisition(ViewOf(s), a)
    ensures OneOrigin(ViewOf(s)) <==> ClaimedOnce(s.acquisitions, TargetsOf) && ClaimedOnce(s.acquisitions, EvidenceOf)
  {
    var xs := s.acquisitions;
    if ClaimedOnce(xs, TargetsOf) && ClaimedOnce(xs, EvidenceOf) {
      forall a, b | a in xs && b in xs && a != b
        ensures Elements(a.addedTargets) !! Elements(b.addedTargets)
            && Elements(a.addedEvidence) !! Elements(b.addedEvidence)
      {
        var i :| 0 <= i < |xs| && xs[i] == a;
        var j :| 0 <= j < |xs| && xs[j] == b;
        var lo, hi := if i < j then i else j, if i < j then j else i;
        assert Elements(TargetsOf(xs[lo])) !! Elements(TargetsOf(xs[hi]));
        assert Elements(EvidenceOf(xs[lo])) !! Elements(EvidenceOf(xs[hi]));
      }
    }
    if OneOrigin(ViewOf(s)) {
      forall i, j | 0 <= i < j < |xs|
        ensures Elements(TargetsOf(xs[i])) !! Elements(TargetsOf(xs[j]))
        ensures Elements(EvidenceOf(xs[i])) !! Elements(EvidenceOf(xs[j]))
      {
        assert xs[i] in ViewOf(s).acquisitions && xs[j] in ViewOf(s).acquisitions && xs[i] != xs[j];
      }
    }
  }

  // ---------------------------------------------------------------- reference sets of events

  /** All ids the acquisitions claim, repeated or not. */
  method UniteClaims(acquisitions: seq<Acquisition>, pick: Acquisition -> seq<Id>) returns (claimed: set<Id>)
    ensures claimed == Claims(acquisitions, pick)
  {
    claimed := {};
    for i := 0 to |acquisitions|
      invariant claimed == Claims(acquisitions[..i], pick)
    {
      var ids := pick(acquisitions[i]);
      assert acquisitions[..i + 1] == acquisitions[..i] + [acquisitions[i]];
      for j := 0 to |ids|
        invariant claimed == Claims(acquisitions[..i], pick) + Elements(ids[..j])
      {
        assert ids[..j + 1] == ids[..j] + [ids[j]];
        claimed := claimed + {ids[j]};
      }
      assert ids[..|ids|] == ids;
    }
    assert acquisitions[..|acquisitions|] == acquisitions;
  }

  lemma ClaimsAreAdded(s: Snapshot)
    ensures Claims(s.acquisitions, TargetsOf) == AddedTargets(ViewOf(s))
    ensures Claims(s.acquisitions, EvidenceOf) == AddedEvidence(ViewOf(s))
  {
    forall a, id | a in s.acquisitions && id in a.addedTargets ensures id in Claims(s.acquisitions, TargetsOf) {
      assert id in TargetsOf(a);
    }
    forall a, id | a in s.acquisitions && id in a.addedEvidence ensures id in Claims(s.acquisitions, EvidenceOf) {
      assert id in EvidenceOf(a);
    }
    forall id | id in Claims(s.acquisitions, TargetsOf) ensures id in AddedTargets(ViewOf(s)) {
      var a :| a in s.acquisitions && id in TargetsOf(a);
      assert a in ViewOf(s).acquisitions && id in a.addedTargets;
    }
    forall id | id in Claims(s.acquisitions, EvidenceOf) ensures id in AddedEvidence(ViewOf(s)) {
      var a :| a in s.acquisitions && id in EvidenceOf(a);
      assert a in ViewOf(s).acquisitions && id in a.addedEvidence;
    }
  }

  /** The reference set of the opening event: case, workflow and whatever no acquisition claims. */
  method OpeningRefs(s: Snapshot) returns (want: set<DocId>)
    ensures want == BaseRefs(s.manifest.caseId) + InitialRefs(ViewOf(s))
  {
    var v := ViewOf(s);
    var addedTargets := UniteClaims(s.acquisitions, TargetsOf);
    var addedEvidence := UniteClaims(s.acquisitions, EvidenceOf);
    ClaimsAreAdded(s);
    var targets: set<DocId> := {};
    for i := 0 to |s.targets|
      invariant targets ==
        set k | 0 <= k < i && s.targets[k].targetId !in addedTargets :: TargetRef(s.targets[k].targetId)
    {
      if s.targets[i].targetId !in addedTargets {
        targets := targets + {TargetRef(s.targets[i].targetId)};
      }
    }
    var evidence: set<DocId> := {};
    for i := 0 to |s.evidence|
      invariant evidence ==
        set k | 0 <= k < i && s.evidence[k].evidenceId !in addedEvidence :: EvidenceRef(s.evidence[k].evidenceId)
    {
      if s.evidence[i].evidenceId !in addedEvidence {
        evidence := evidence + {EvidenceRef(s.evidence[i].evidenceId)};
      }
    }
    forall id ensures TargetRef(id) in targets <==> id in InitialTargets(v) {
      if TargetRef(id) in targets {
        var k :| 0 <= k < |s.targets| && s.targets[k].targetId == id && id !in addedTargets;
        assert s.targets[k] in v.targets;
      }
      if id in InitialTargets(v) {
        var t :| t in v.targets && t.targetId == id;
        var k :| 0 <= k < |s.targets| && s.targets[k] == t;
      }
    }
    forall id ensures EvidenceRef(id) in evidence <==> id in InitialEvidence(v) {
      if EvidenceRef(id) in evidence {
        var k :| 0 <= k < |s.evidence| && s.evidence[k].evidenceId == id && id !in addedEvidence;
        assert s.evidence[k] in v.evidence;
      }
      if id in InitialEvidence(v) {
        var e :| e in v.evidence && e.evidenceId == id;
        var k :| 0 <= k < |s.evidence| && s.evidence[k] == e;
      }
    }
    want := BaseRefs(s.manifest.caseId) + targets + evidence;
  }

  /** The references of an event that commits findings, closed over what those cite. */
  method AnalysisClosure(s: Snapshot, refs: seq<DocId>) returns (want: Option<set<DocId>>)
    requires DistinctOn(s.findings, IdOfFinding)
    ensures var cited := CitedFindings(ViewOf(s), refs);
      want == if cited == {} then None else Some(BaseRefs(s.manifest.caseId) + FindingClosure(cited))
  {
    hide FindingClosure, DistinctOn;
    var closure: set<DocId> := {};
    var found := 0;
    ghost var v := ViewOf(s);
    EmptyClosure();
    assert CitedFindings(v, refs[..0]) == {};
    for i := 0 to |refs|
      invariant closure == FindingClosure(CitedFindings(v, refs[..i]))
      invariant found == 0 <==> CitedFindings(v, refs[..i]) == {}
    {
      assert refs[..i + 1] == refs[..i] + [refs[i]];
      CitedNext(s, refs[..i], refs[i]);
      if refs[i].FindingRef? {
        var finding := FirstWith(s.findings, IdOfFinding, refs[i].id);
        if finding.Some? {
          ClosureOfSum(CitedFindings(v, refs[..i]), finding.value);
          found := found + 1;
          closure := closure + {FindingRef(finding.value.findingId)}
                     + (set id | id in finding.value.evidenceRefs :: EvidenceRef(id))
                     + (set id | id in finding.value.affectedTargets :: TargetRef(id));
          OneClosure(finding.value);
          assert closure == FindingClosure(CitedFindings(v, refs[..i])) + FindingClosure({finding.value});
          assert CitedFindings(v, refs[..i + 1]) == CitedFindings(v, refs[..i]) + {finding.value};
        } else {
          assert CitedFindings(v, refs[..i + 1]) == CitedFindings(v, refs[..i]);
        }
      } else {
        assert CitedFindings(v, refs[..i + 1]) == CitedFindings(v, refs[..i]);
      }
    }
    assert refs[..|refs|] == refs;
    want := if found == 0 then None else Some(BaseRefs(s.manifest.caseId) + closure);
  }

  lemma EmptyClosure()
    ensures FindingClosure({}) == {}
  {
  }

  lemma OneClosure(f: Finding)
    ensures FindingClosure({f}) == {FindingRef(f.findingId)} + (set id | id in f.evidenceRefs :: EvidenceRef(id))
                                   + (set id | id in f.affectedTargets :: TargetRef(id))
  {
  }

  lemma CitedNext(s: Snapshot, refs: seq<DocId>, r: DocId)
    requires DistinctOn(s.findings, IdOfFinding)
    ensures CitedFindings(ViewOf(s), refs + [r]) == CitedFindings(ViewOf(s), refs)
            + (if r.FindingRef? && FirstWith(s.findings, IdOfFinding, r.id).Some?
               then {FirstWith(s.findings, IdOfFinding, r.id).value} else {})
  {
    DistinctOnIsDistinct(s.findings, IdOfFinding);
    forall f | f in s.findings && FindingRef(f.findingId) == r
      ensures FirstWith(s.findings, IdOfFinding, r.id) == Some(f)
    {
      var first := FirstWith(s.findings, IdOfFinding, r.id);
      assert IdOfFinding(f) == r.id;
      assert first.Some? && first.value in Elements(s.findings) && f in Elements(s.findings);
    }
  }

  /** The plans among the references; without repeated references there are as many as cited plans. */
  method ReferencedPlans(s: Snapshot, refs: seq<DocId>) returns (plans: seq<Plan>)
    requires NoRepeats(refs)
    ensures NoRepeats(plans)
    ensures forall p :: p in plans ==> p in s.plans && PlanRef(p.planId) in refs
    ensures forall r | r in refs && r.PlanRef? && (exists p :: p in s.plans && p.planId == r.id) ::
      exists p :: p in plans && p.planId == r.id
  {
    plans := [];
    for i := 0 to |refs|
      invariant NoRepeats(plans)
      invariant forall p :: p in plans ==> p in s.plans && PlanRef(p.planId) in refs[..i]
      invariant forall r | r in refs[..i] && r.PlanRef? && (exists p :: p in s.plans && p.planId == r.id) ::
        exists p :: p in plans && p.planId == r.id
    {
      assert refs[..i + 1] == refs[..i] + [refs[i]];
      ghost var before := plans;
      if refs[i].PlanRef? {
        var plan := FirstWith(s.plans, IdOfPlan, refs[i].id);
        if plan.Some? {
          assert IdOfPlan(plan.value) == refs[i].id && refs[i] !in refs[..i];
          assert plan.value !in plans;
          plans := plans + [plan.value];
        } else {
          assert forall p | p in s.plans :: IdOfPlan(p) != refs[i].id;
        }
      }
      forall r | r in refs[..i + 1] && r.PlanRef? && (exists p :: p in s.plans && p.planId == r.id)
        ensures exists p :: p in plans && p.planId == r.id
      {
        if r in refs[..i] {
          var p :| p in before && p.planId == r.id;
          assert p in plans;
        } else {
          assert r == refs[i];
          var p :| p in s.plans && p.planId == r.id;
          assert IdOfPlan(p) == refs[i].id;
        }
      }
    }
    assert refs[..|refs|] == refs;
  }

  /** The references of an event that commits the one plan it names. */
  method CheckPlanRefs(s: Snapshot, e: Event) returns (ok: bool)
    requires NoRepeats(e.refs) && DistinctOn(s.plans, IdOfPlan)
    ensures ok <==> exists p | p in ViewOf(s).plans :: CitesPlan(ViewOf(s), e, p)
  {
    hide PlanClosure;
    var plans := ReferencedPlans(s, e.refs);
    ghost var v := ViewOf(s);
    CitedAreReferenced(s, e.refs, plans);
    if |plans| != 1 {
      NotOnePlan(v, e, plans);
      return false;
    }
    var plan := plans[0];
    assert CitedPlans(v, e.refs) == {plan} by {
      assert forall p :: p in plans <==> p == plan;
    }
    ok := (s.workflow.Some? && s.workflow.value.state.PlanProposed? ==>
           s.workflow.value.activePlan == Some(plan.planId))
          && Elements(e.refs) == BaseRefs(s.manifest.caseId) + PlanClosure(plan);
    assert ok <==> CitesPlan(v, e, plan);
    if p :| p in v.plans && CitesPlan(v, e, p) {
      assert p in CitedPlans(v, e.refs);
    }
  }

  lemma CitedAreReferenced(s: Snapshot, refs: seq<DocId>, plans: seq<Plan>)
    requires DistinctOn(s.plans, IdOfPlan)
    requires forall p :: p in plans ==> p in s.plans && PlanRef(p.planId) in refs
    requires forall r | r in refs && r.PlanRef? && (exists p :: p in s.plans && p.planId == r.id) ::
      exists p :: p in plans && p.planId == r.id
    ensures CitedPlans(ViewOf(s), refs) == Elements(plans)
  {
    DistinctOnIsDistinct(s.plans, IdOfPlan);
    forall p | p in CitedPlans(ViewOf(s), refs) ensures p in plans {
      assert PlanRef(p.planId) in refs && PlanRef(p.planId).PlanRef?;
      var q :| q in plans && q.planId == p.planId;
      assert IdOfPlan(q) == IdOfPlan(p) && q in Elements(s.plans) && p in Elements(s.plans);
    }
  }

  lemma NotOnePlan(v: View, e: Event, plans: seq<Plan>)
    requires NoRepeats(plans) && CitedPlans(v, e.refs) == Elements(plans) && |plans| != 1
    ensures !exists p | p in v.plans :: CitesPlan(v, e, p)
  {
    EmptyIffNoElements(plans);
    if |plans| > 1 {
      assert plans[0] in Elements(plans) && plans[1] in Elements(plans);
    }
  }

  /** `validateCoordinatorEventReferenceSemantics`, after the references themselves were found to exist. */
  method CheckEvent(s: Snapshot, e: Event) returns (ok: bool)
    requires AllDistinct(s)
    ensures ok <==> ValidEvent(ViewOf(s), e)
  {
    hide DistinctOn, FindingClosure, PlanClosure, InitialRefs, Known, CitedFindings;
    var v := ViewOf(s);
    if !EventShape(e) || e.caseId != s.manifest.caseId || !NoRepeats(e.refs) { return false; }
    for i := 0 to |e.refs|
      invariant forall k | 0 <= k < i :: Known(v, e.refs[k]) && !e.refs[k].EventRef?
    {
      if !Known(v, e.refs[i]) || e.refs[i].EventRef? {
        assert e.refs[i] in e.refs;
        return false;
      }
    }
    if CaseRef(s.manifest.caseId) !in e.refs || WorkflowRef !in e.refs { return false; }
    match e.kind {
      case CaseCreatedEvent | LegacyCaseAdopted =>
        var want := OpeningRefs(s);
        ok := Elements(e.refs) == want;
      case AnalysisCommitted =>
        var want := AnalysisClosure(s, e.refs);
        ok := want.Some? && Elements(e.refs) == want.value;
      case PlanCommitted =>
        ok := CheckPlanRefs(s, e);
      case CaseFailedEvent | CaseCancelledEvent =>
        var want := {CaseRef(s.manifest.caseId), WorkflowRef};
        if s.workflow.Some? && s.workflow.value.activePlan.Some? {
          want := want + {PlanRef(s.workflow.value.activePlan.value)};
        }
        ok := Elements(e.refs) == want;
    }
  }

  // ---------------------------------------------------------------- the workflow

  /** The references of events of one kind that name a known document. */
  method AuditedRefs(events: seq<Event>, kind: EventType, known: set<DocId>) returns (audited: set<DocId>)
    ensures forall r :: r in audited <==> r in known && exists e :: e in events && e.kind == kind && r in e.refs
  {
    audited := {};
    for i := 0 to |events|
      invariant forall r :: r in audited <==>
        r in known && exists e :: e in events[..i] && e.kind == kind && r in e.refs
    {
      assert events[..i + 1] == events[..i] + [events[i]];
      ghost var before := audited;
      if events[i].kind == kind {
        var refs := events[i].refs;
        for j := 0 to |refs|
          invariant forall r :: r in audited <==> r in before || (r in known && r in refs[..j])
        {
          assert refs[..j + 1] == refs[..j] + [refs[j]];
          if refs[j] in known { audited := audited + {refs[j]}; }
        }
        assert refs[..|refs|] == refs;
      }
      forall r
        ensures r in audited <==> r in known && exists e :: e in events[..i + 1] && e.kind == kind && r in e.refs
      {
        if e :| e in events[..i + 1] && e.kind == kind && r in e.refs {
          assert e in events[..i] || e == events[i];
        }
        if r in before {
          var e :| e in events[..i] && e.kind == kind && r in e.refs;
          assert e in events[..i + 1];
        } else if r in audited {
          assert events[i] in events[..i + 1];
        }
      }
    }
    assert events[..|events|] == events;
  }

  /** The findings and plans among the audited references. */
  method CheckAudited(s: Snapshot) returns (ok: bool)
    ensures ok <==> FindingsCommitted(ViewOf(s)) && PlansCommitted(ViewOf(s))
  {
    var v := ViewOf(s);
    var findings := AuditedRefs(s.events, AnalysisCommitted, set f | f in s.findings :: FindingRef(f.findingId));
    var plans := AuditedRefs(s.events, PlanCommitted, set p | p in s.plans :: PlanRef(p.planId));
    for i := 0 to |s.findings|
      invariant forall k | 0 <= k < i :: FindingRef(s.findings[k].findingId) in findings
    {
      if FindingRef(s.findings[i].findingId) !in findings {
        assert s.findings[i] in v.findings;
        return false;
      }
    }
    for i := 0 to |s.plans|
      invariant forall k | 0 <= k < i :: PlanRef(s.plans[k].planId) in plans
    {
      if PlanRef(s.plans[i].planId) !in plans {
        assert s.plans[i] in v.plans;
        return false;
      }
    }
    AllAudited(s, findings, plans);
    ok := true;
  }

  /** `validateLifecycleProvenance`: every finding and plan is named by an event that committed it. */
  method CheckLifecycle(s: Snapshot) returns (ok: bool)
    requires s.workflow.Some?
    ensures ok <==> LifecycleProvenance(ViewOf(s))
  {
    hide FindingsCommitted, PlansCommitted;
    var w := s.workflow.value;
    EmptyLists(s);
    if s.executions != [] || s.verifications != [] { return false; }
    ok := CheckAudited(s);
    if !ok { return; }
    match w.state {
      case EvidenceCollected => ok := s.findings == [] && s.plans == [];
      case Analyzed => ok := s.findings != [] && s.plans == [];
      case PlanProposed =>
        ok := s.findings != [] && s.plans != [] && w.activePlan.Some?
              && FirstWith(s.plans, IdOfPlan, w.activePlan.value).Some?;
        if w.activePlan.Some? { PlanIsFound(s, w.activePlan.value); }
      case _ => ok := true;
    }
  }

  lemma PlanIsFound(s: Snapshot, id: Id)
    ensures FirstWith(s.plans, IdOfPlan, id).Some? <==> id in ViewOf(s).PlanIds()
    ensures id in ViewOf(s).PlanIds() ==> s.plans != []
  {
    if p :| p in ViewOf(s).plans && p.planId == id {
      assert IdOfPlan(p) == id && p in s.plans;
    }
  }

  lemma AllAudited(s: Snapshot, findings: set<DocId>, plans: set<DocId>)
    requires forall f | f in s.findings :: FindingRef(f.findingId) in findings
    requires forall p | p in s.plans :: PlanRef(p.planId) in plans
    requires forall r | r in findings :: exists e :: e in s.events && e.kind == AnalysisCommitted && r in e.refs
    requires forall r | r in plans :: exists e :: e in s.events && e.kind == PlanCommitted && r in e.refs
    ensures FindingsCommitted(ViewOf(s)) && PlansCommitted(ViewOf(s))
  {
    forall f | f in ViewOf(s).findings ensures exists e | e in ViewOf(s).events :: CommitsFinding(e, f) {
      var e :| e in s.events && e.kind == AnalysisCommitted && FindingRef(f.findingId) in e.refs;
      assert e in ViewOf(s).events && CommitsFinding(e, f);
    }
    forall p | p in ViewOf(s).plans ensures exists e | e in ViewOf(s).events :: CommitsPlan(e, p) {
      var e :| e in s.events && e.kind == PlanCommitted && PlanRef(p.planId) in e.refs;
      assert e in ViewOf(s).events && CommitsPlan(e, p);
    }
  }

  /** `validateWorkflowTransitionIntegrity`: look-ups and passes over the revisions decide the same as the relation
      between all pairs of events. */
  method CheckTransitionIntegrity(s: Snapshot) returns (ok: bool)
    requires s.workflow.Some? && NoRepeats(s.events)
    ensures ok <==> TransitionIntegrity(ViewOf(s))
  {
    hide EventSemantics, LifecycleProvenance, WorkflowSemantics, TransitionIntegrity, Contiguous, ContinuesAt, Indexed;
    var w := s.workflow.value;
    var byRevision, indexed := IndexEvents(s.events);
    if !indexed || |s.events| != w.revision || w.revision == 0 {
      CountsMustAgree(s);
      return false;
    }
    var contiguous := CheckContiguity(byRevision, w.revision);
    if !contiguous {
      MustBeContiguous(s, byRevision);
      return false;
    }
    IntegrityByRevision(s, byRevision);
    FirstAndLast(byRevision, s.events, w.revision);
    var continuous := CheckContinuity(byRevision, w.revision);
    if !continuous { return false; }
    var first, last := byRevision[1], byRevision[w.revision];
    ok := && (first.kind.CaseCreatedEvent? || first.kind.LegacyCaseAdopted?)
          && last.eventId == w.lastTransition && last.caseId == s.manifest.caseId && last.next == Some(w.state)
          && WorkflowSemantics(w, s.manifest, last);
    if !ok { return; }
    ok := CheckLifecycle(s);
  }

  method CheckWorkflow(s: Snapshot) returns (ok: bool)
    requires s.workflow.Some? && NoDuplicates(s) && forall a | a in s.acquisitions :: ValidAcquisition(ViewOf(s), a)
    ensures ok <==> ValidWorkflow(ViewOf(s))
  {
    hide TransitionIntegrity, OneOrigin, ValidAcquisition;
    var v, w := ViewOf(s), s.workflow.value;
    if w.revision < 1 || !ValidFailure(w.failure) || w.caseId != s.manifest.caseId { return false; }
    if w.activePlan.Some? && w.activePlan.value !in v.PlanIds() { return false; }
    if w.activeExecution.Some? && !Known(v, ExecutionRef(w.activeExecution.value)) { return false; }
    if w.lastTransition !in v.EventIds() || CaseStateFor(w.state) != s.manifest.currentState { return false; }
    ok := CheckTransitionIntegrity(s);
    if !ok { return; }
    ok := CheckOrigins(s);
  }

  // ---------------------------------------------------------------- the whole snapshot

  /** Every element passes its own check. */
  method CheckEach<T>(xs: seq<T>, good: T -> bool) returns (ok: bool)
    ensures ok <==> forall x | x in xs :: good(x)
  {
    ok := true;
    for i := 0 to |xs|
      invariant forall k | 0 <= k < i :: good(xs[k])
    {
      if !good(xs[i]) {
        assert xs[i] in xs;
        return false;
      }
    }
  }

  method CheckDocuments(s: Snapshot) returns (ok: bool)
    ensures ok <==> ValidDocuments(ViewOf(s))
  {
    hide ValidEvidence, ValidFinding, ValidPlan, ValidAcquisition, ValidConsultation, ArtifactsAgree;
    var v := ViewOf(s);
    ok := CheckArtifacts(s);
    if !ok { return; }
    ok := CheckEach(s.evidence, e => ValidEvidence(v, e));
    if !ok { return; }
    ok := CheckEach(s.findings, f => ValidFinding(v, f));
    if !ok { return; }
    ok := CheckEach(s.plans, p => ValidPlan(v, p));
    if !ok { return; }
    ok := CheckEach(s.acquisitions, a => ValidAcquisition(v, a));
    if !ok { return; }
    ok := CheckEach(s.consultations, c => ValidConsultation(v, c));
  }

  method CheckEvents(s: Snapshot) returns (ok: bool)
    requires AllDistinct(s)
    ensures ok <==> ValidEvents(ViewOf(s))
  {
    hide AllDistinct, ValidEvent;
    ok := true;
    for i := 0 to |s.events|
      invariant forall k | 0 <= k < i :: ValidEvent(ViewOf(s), s.events[k])
    {
      ok := CheckEvent(s, s.events[i]);
      if !ok {
        assert s.events[i] in ViewOf(s).events;
        return;
      }
    }
  }

  /** `Snapshot.Validate`: the passes together accept exactly the valid snapshots. */
  method Validate(s: Snapshot) returns (ok: bool)
    ensures ok <==> Valid(s)
  {
    hide ValidCase, ValidEvents, ValidWorkflow, DistinctOn, DistinctIds, NoDuplicates, ValidAcquisition, ArtifactsAgree,
         ValidEvidence, ValidFinding, ValidPlan, ValidConsultation;
    DistinctEitherWay(s);
    ok := CheckCase(s);
    if !ok { return; }
    ok := CheckIdentifiers(s);
    if !ok { return; }
    ok := CheckDocuments(s);
    if !ok { return; }
    ok := CheckEvents(s);
    if !ok { return; }
    if s.workflow.Some? {
      ok := CheckWorkflow(s);
    }
  }
}
