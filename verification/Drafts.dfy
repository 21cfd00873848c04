/** The coordinator's step-by-step edits of a copied snapshot, and its merge and reference loops. */
module Drafts {
  import opened Domain
  import opened Collections
  import opened Commands

  /** The copy of a head that a command turns into its successor. */
  class Draft {
    var s: Snapshot

    constructor (head: Snapshot)
      ensures s == head
    {
      s := head;
    }

    method AppendEvent(e: Event)
      modifies this
      ensures s == old(s).(events := old(s).events + [e])
    {
      s := s.(events := s.events + [e]);
    }

    /** Not earlier than anything the snapshot is dated by: the maximum over the candidate times. */
    method MonotonicNow(clock: Time) returns (latest: Time)
      ensures latest == Commands.MonotonicNow(s, clock)
      ensures latest >= clock && latest >= s.manifest.createdAt && latest >= s.manifest.updatedAt
    {
      var candidates := [clock, s.manifest.createdAt, s.manifest.updatedAt];
      if s.workflow.Some? {
        candidates := candidates + [s.workflow.value.updatedAt];
      }
      latest := candidates[0];
      for i := 1 to |candidates|
        invariant latest in candidates[..i]
        invariant forall t | t in candidates[..i] :: t <= latest
      {
        assert candidates[..i + 1] == candidates[..i] + [candidates[i]];
        if latest < candidates[i] {
          latest := candidates[i];
        }
      }
      assert candidates[..|candidates|] == candidates;
      assert candidates[0] == clock && candidates[1] == s.manifest.createdAt && candidates[2] == s.manifest.updatedAt;
      assert s.workflow.Some? ==> candidates[3] == s.workflow.value.updatedAt && candidates[3] in candidates;
      ghost var expected := Commands.MonotonicNow(s, clock);
      assert expected == candidates[0] || expected == candidates[1] || expected == candidates[2]
          || (s.workflow.Some? && expected == candidates[3]);
      ghost var k :| 0 <= k < |candidates| && candidates[k] == latest;
      assert candidates[k] <= expected && expected in candidates;
    }

    method SetWorkflow(state: WorkflowName, eventId: Id, revision: nat, failure: Option<Failure>,
                       activePlan: Option<Id>, clock: Time)
      modifies this
      ensures var now := Commands.MonotonicNow(old(s), clock);
        s == old(s).(
          manifest := old(s).manifest.(updatedAt := now, currentState := Semantics.CaseStateFor(state)),
          workflow := Some(Workflow(old(s).manifest.caseId, state, revision, now, eventId, activePlan, None, failure)))
    {
      var now := MonotonicNow(clock);
      s := s.(manifest := s.manifest.(updatedAt := now, currentState := Semantics.CaseStateFor(state)));
      s := s.(workflow := Some(Workflow(s.manifest.caseId, state, revision, now, eventId, activePlan, None, failure)));
    }

    /** Overwrite references and time of the first event with this id, in place. */
    method StampAuditEvent(id: Id, refs: seq<DocId>, at: Time)
      modifies this
      ensures s == old(s).(events := Stamp(old(s).events, id, refs, at))
    {
      for i := 0 to |s.events|
        invariant s == old(s)
        invariant forall k | 0 <= k < i :: s.events[k].eventId != id
      {
        if s.events[i].eventId == id {
          StampHits(s.events, i, id, refs, at);
          s := s.(events := s.events[i := s.events[i].(refs := refs, occurredAt := at)]);
          return;
        }
      }
      StampMisses(s.events, id, refs, at);
    }
  }

  lemma {:induction false} StampHits(events: seq<Event>, i: nat, id: Id, refs: seq<DocId>, at: Time)
    requires i < |events| && events[i].eventId == id && forall k | 0 <= k < i :: events[k].eventId != id
    ensures Stamp(events, id, refs, at) == events[i := events[i].(refs := refs, occurredAt := at)]
  {
    if i > 0 {
      StampHits(events[1..], i - 1, id, refs, at);
    }
  }

  lemma {:induction false} StampMisses(events: seq<Event>, id: Id, refs: seq<DocId>, at: Time)
    requires forall e | e in events :: e.eventId != id
    ensures Stamp(events, id, refs, at) == events
  {
    if events != [] {
      StampMisses(events[1..], id, refs, at);
    }
  }

  // ---------------------------------------------------------------- reference lists

  /** First occurrences only, remembered in a set. */
  method CollectUniqueRefs(refs: seq<DocId>) returns (out: seq<DocId>)
    ensures out == UniqueRefs(refs)
  {
    out := [];
    var seen: set<DocId> := {};
    for i := 0 to |refs|
      invariant out == UniqueRefs(refs[..i]) && seen == Elements(out)
    {
      assert refs[..i + 1][..i] == refs[..i];
      if refs[i] !in seen {
        ElementsOfSum(out, [refs[i]]);
        seen := seen + {refs[i]};
        out := out + [refs[i]];
      }
    }
    assert refs[..|refs|] == refs;
  }

  method CollectAnalysisRefs(caseId: Id, findings: seq<Finding>) returns (out: seq<DocId>)
    ensures out == AnalysisRefs(caseId, findings)
  {
    var refs := [CaseRef(caseId)];
    for i := 0 to |findings|
      invariant refs == [CaseRef(caseId)] + FindingListRefs(findings[..i])
    {
      var f := findings[i];
      assert findings[..i + 1][..i] == findings[..i];
      refs := refs + [FindingRef(f.findingId)];
      refs := refs + seq(|f.evidenceRefs|, k requires 0 <= k < |f.evidenceRefs| => EvidenceRef(f.evidenceRefs[k]));
      refs := refs + seq(|f.affectedTargets|,
                         k requires 0 <= k < |f.affectedTargets| => TargetRef(f.affectedTargets[k]));
    }
    assert findings[..|findings|] == findings;
    out := CollectUniqueRefs(refs + [WorkflowRef]);
  }

  method CollectCreateRefs(s: Snapshot) returns (out: seq<DocId>)
    ensures out == CreateRefs(s)
  {
    var ts := seq(|s.targets|, i requires 0 <= i < |s.targets| => TargetRef(s.targets[i].targetId));
    var es := seq(|s.evidence|, i requires 0 <= i < |s.evidence| => EvidenceRef(s.evidence[i].evidenceId));
    var refs := [CaseRef(s.manifest.caseId)];
    for i := 0 to |s.targets|
      invariant refs == [CaseRef(s.manifest.caseId)] + ts[..i]
    {
      refs := refs + [TargetRef(s.targets[i].targetId)];
      assert ts[..i + 1] == ts[..i] + [ts[i]];
    }
    for i := 0 to |s.evidence|
      invariant refs == [CaseRef(s.manifest.caseId)] + ts + es[..i]
    {
      refs := refs + [EvidenceRef(s.evidence[i].evidenceId)];
      assert es[..i + 1] == es[..i] + [es[i]];
    }
    assert refs == [CaseRef(s.manifest.caseId)]
                   + seq(|s.targets|, i requires 0 <= i < |s.targets| => TargetRef(s.targets[i].targetId))
                   + seq(|s.evidence|, i requires 0 <= i < |s.evidence| => EvidenceRef(s.evidence[i].evidenceId));
    out := CollectUniqueRefs(refs + [WorkflowRef]);
  }

  method CollectPlanRefs(caseId: Id, p: Plan) returns (out: seq<DocId>)
    ensures out == PlanRefs(caseId, p)
  {
    var fs := seq(|p.findingRefs|, i requires 0 <= i < |p.findingRefs| => FindingRef(p.findingRefs[i]));
    var ts := seq(|p.stepTargets|, i requires 0 <= i < |p.stepTargets| => TargetRef(p.stepTargets[i]));
    var refs := [CaseRef(caseId), PlanRef(p.planId)] + fs;
    for i := 0 to |p.stepTargets|
      invariant refs == [CaseRef(caseId), PlanRef(p.planId)] + fs + ts[..i]
    {
      refs := refs + [TargetRef(p.stepTargets[i])];
      assert ts[..i + 1] == ts[..i] + [ts[i]];
    }
    assert refs == [CaseRef(caseId), PlanRef(p.planId)]
                   + seq(|p.findingRefs|, i requires 0 <= i < |p.findingRefs| => FindingRef(p.findingRefs[i]))
                   + seq(|p.stepTargets|, i requires 0 <= i < |p.stepTargets| => TargetRef(p.stepTargets[i]));
    out := CollectUniqueRefs(refs + [WorkflowRef]);
  }

  // ---------------------------------------------------------------- append-only merges

  lemma LastWithLast<T>(s: seq<T>, x: T, key: T -> Id, id: Id)
    ensures LastWith(s + [x], key, id) == if key(x) == id then Some(x) else LastWith(s, key, id)
  {
    assert (s + [x])[..|s|] == s;
  }

  /** Findings already present win; a divergent repetition is an error. */
  method MergeFindings(existing: seq<Finding>, incoming: seq<Finding>) returns (merged: Option<seq<Finding>>)
    ensures merged == MergeById(existing, incoming, FindingKey)
  {
    var byId: map<Id, Finding> := map[];
    var out: seq<Finding> := [];
    for i := 0 to |existing|
      invariant out == existing[..i]
      invariant forall id :: LastWith(out, FindingKey, id) == if id in byId then Some(byId[id]) else None
    {
      LastWithAppended(out, existing[i], FindingKey);
      byId := byId[existing[i].findingId := existing[i]];
      out := out + [existing[i]];
    }
    assert existing[..|existing|] == existing;
    for i := 0 to |incoming|
      invariant MergeById(existing, incoming, FindingKey) == MergeById(out, incoming[i..], FindingKey)
      invariant forall id :: LastWith(out, FindingKey, id) == if id in byId then Some(byId[id]) else None
    {
      var f := incoming[i];
      assert incoming[i..][1..] == incoming[i + 1..];
      if f.findingId in byId {
        if byId[f.findingId] != f { return None; }
      } else {
        LastWithAppended(out, f, FindingKey);
        byId := byId[f.findingId := f];
        out := out + [f];
      }
    }
    merged := Some(out);
  }

  lemma LastWithAppended<T>(s: seq<T>, x: T, key: T -> Id)
    ensures forall id :: LastWith(s + [x], key, id) == if key(x) == id then Some(x) else LastWith(s, key, id)
  {
    forall id ensures LastWith(s + [x], key, id) == if key(x) == id then Some(x) else LastWith(s, key, id) {
      LastWithLast(s, x, key, id);
    }
  }

  /** The same for evidence, through an index into the output. */
  method MergeEvidence(existing: seq<Evidence>, incoming: seq<Evidence>) returns (merged: Option<seq<Evidence>>)
    ensures merged == MergeById(existing, incoming, EvidenceKey)
  {
    var out := existing;
    var index: map<Id, nat> := map[];
    for i := 0 to |out|
      invariant forall id | id in index :: index[id] < i
      invariant forall id :: LastWith(out[..i], EvidenceKey, id) == if id in index then Some(out[index[id]]) else None
    {
      assert out[..i + 1] == out[..i] + [out[i]];
      LastWithAppended(out[..i], out[i], EvidenceKey);
      index := index[out[i].evidenceId := i];
    }
    assert out[..|out|] == out;
    for i := 0 to |incoming|
      invariant MergeById(existing, incoming, EvidenceKey) == MergeById(out, incoming[i..], EvidenceKey)
      invariant forall id | id in index :: index[id] < |out|
      invariant forall id :: LastWith(out, EvidenceKey, id) == if id in index then Some(out[index[id]]) else None
    {
      var e := incoming[i];
      assert incoming[i..][1..] == incoming[i + 1..];
      if e.evidenceId in index {
        if out[index[e.evidenceId]] != e { return None; }
      } else {
        LastWithAppended(out, e, EvidenceKey);
        out := out + [e];
        index := index[e.evidenceId := |out| - 1];
      }
    }
    merged := Some(out);
  }

  /** A plan id is new, repeats an identical plan, or conflicts. */
  method MergePlansImmutable(existing: seq<Plan>, incoming: Plan) returns (merged: Option<seq<Plan>>)
    ensures merged == MergePlan(existing, incoming)
  {
    for i := 0 to |existing|
      invariant FirstWith(existing, PlanKey, incoming.planId) == FirstWith(existing[i..], PlanKey, incoming.planId)
    {
      assert existing[i..][1..] == existing[i + 1..];
      if existing[i].planId == incoming.planId {
        return if existing[i] == incoming then Some(existing) else None;
      }
    }
    merged := Some(existing + [incoming]);
  }
}
