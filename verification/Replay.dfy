/** The audit log as a run of the workflow: what transition integrity says about the events of a snapshot. */
module Replay {
  import opened Domain
  import opened Semantics
  import opened Validation

  /** A legal run: revisions 1, 2, 3, ..., opened by create or adopt, each event continuing the one before it. */
  predicate LegalRun(run: seq<Event>) {
    && run != []
    && (forall i | 0 <= i < |run| :: run[i].revision == i + 1 && EventSemantics(run[i]))
    && (run[0].kind.CaseCreatedEvent? || run[0].kind.LegacyCaseAdopted?)
    && (forall i | 1 <= i < |run| ::
          run[i].previous == run[i - 1].next && run[i - 1].occurredAt <= run[i].occurredAt)
  }

  ghost function At(events: set<Event>, revision: nat): (e: Event)
    requires HasRevision(events, revision)
    ensures e in events && e.revision == revision
  {
    var e :| e in events && e.revision == revision; e
  }

  /** The events in revision order. */
  ghost function Run(v: View): (run: seq<Event>)
    requires v.workflow.Some? && TransitionIntegrity(v)
    ensures |run| == v.workflow.value.revision
    ensures forall i | 0 <= i < |run| :: run[i] in v.events && run[i].revision == i + 1
  {
    seq(v.workflow.value.revision, i requires 0 <= i < v.workflow.value.revision => At(v.events, i + 1))
  }

  // The events with revisions 1..k number k, so nothing is left over beyond revision N.
  lemma {:induction false} RevisionsCounted(events: set<Event>, k: nat) returns (counted: set<Event>)
    requires forall r | 1 <= r <= k :: HasRevision(events, r)
    ensures counted <= events && |counted| == k
    ensures forall e | e in counted :: 1 <= e.revision <= k
  {
    if k == 0 {
      counted := {};
    } else {
      var smaller := RevisionsCounted(events, k - 1);
      counted := smaller + {At(events, k)};
    }
  }

  lemma SubsetOfEqualSize<T>(a: set<T>, b: set<T>)
    requires a <= b && |a| == |b|
    ensures a == b
  {
    if x :| x in b && x !in a {
      assert a <= b - {x};
      SubsetSize(a, b - {x});
    }
  }

  lemma {:induction false} SubsetSize<T>(a: set<T>, b: set<T>)
    requires a <= b
    ensures |a| <= |b|
  {
    if x :| x in a {
      SubsetSize(a - {x}, b - {x});
    }
  }

  lemma RevisionBound(v: View, e: Event)
    requires v.workflow.Some? && TransitionIntegrity(v) && e in v.events
    ensures 1 <= e.revision <= v.workflow.value.revision
  {
    var counted := RevisionsCounted(v.events, v.workflow.value.revision);
    SubsetOfEqualSize(counted, v.events);
  }

  lemma RunCoversLog(v: View)
    requires v.workflow.Some? && TransitionIntegrity(v)
    ensures Elements(Run(v)) == v.events
  {
    hide EventSemantics, LifecycleProvenance, IsLast;
    var run := Run(v);
    forall e | e in v.events ensures e in run {
      RevisionBound(v, e);
      assert run[e.revision - 1] == e;
    }
  }

  lemma RunIsLegal(v: View)
    requires v.workflow.Some? && TransitionIntegrity(v)
    ensures LegalRun(Run(v))
    ensures IsLast(v, Run(v)[v.workflow.value.revision - 1])
  {
    hide EventSemantics, LifecycleProvenance, IsLast;
    var run := Run(v);
    LastEvent(v, run[|run| - 1]);
    assert run[0].revision == 1;
    forall i | 1 <= i < |run|
      ensures run[i].previous == run[i - 1].next && run[i - 1].occurredAt <= run[i].occurredAt
    {
      assert run[i].revision == run[i - 1].revision + 1;
    }
  }

  /** Whatever the order, the ids or the ties in time of its events, a valid snapshot's log is a legal run that
      ends in the stored state; the run is determined by the set of events. */
  lemma LogIsLegalRun(s: Snapshot)
    requires Valid(s) && s.workflow.Some?
    ensures var run := Run(ViewOf(s));
      && LegalRun(run)
      && Elements(run) == Elements(s.events)
      && |run| == |s.events|
      && run[|run| - 1].next == Some(s.workflow.value.state)
      && run[|run| - 1].eventId == s.workflow.value.lastTransition
      && run[|run| - 1].occurredAt == s.workflow.value.updatedAt == s.manifest.updatedAt
  {
    hide ValidDocuments, ValidEvents, DistinctIds, LifecycleProvenance, EventSemantics;
    var v := ViewOf(s);
    RunCoversLog(v);
    RunIsLegal(v);
    DistinctSeqSize(s.events);
  }

  /** Conversely a legal run with the stored state at its end is accepted, in whatever order its events are kept. */
  lemma LegalRunHasIntegrity(v: View, run: seq<Event>)
    requires v.workflow.Some?
    requires LegalRun(run) && Elements(run) == v.events && |run| == v.workflow.value.revision
    requires IsLast(v, run[|run| - 1])
    requires LifecycleProvenance(v)
    ensures TransitionIntegrity(v)
  {
    forall i, j | 0 <= i < j < |run| ensures run[i] != run[j] {
      assert run[i].revision != run[j].revision;
    }
    DistinctSeqSize(run);
    forall r | 1 <= r <= |run| ensures HasRevision(v.events, r) {
      assert run[r - 1] in v.events;
    }
    assert run[|run| - 1] in v.events;
  }

  lemma {:induction false} DistinctSeqSize<T>(s: seq<T>)
    requires NoRepeats(s)
    ensures |Elements(s)| == |s|
  {
    if s == [] {
      assert Elements(s) == {};
    } else {
      var n := |s| - 1;
      DistinctSeqSize(s[..n]);
      assert Elements(s) == Elements(s[..n]) + {s[n]};
      assert s[n] !in s[..n];
    }
  }

  predicate Terminal(state: WorkflowName) {
    state.Failed? || state.Cancelled?
  }

  /** The event that follows a non-last event, and continues it. */
  lemma Successor(v: View, e: Event) returns (after: Event)
    requires v.workflow.Some? && TransitionIntegrity(v) && e in v.events
    requires e.revision < v.workflow.value.revision
    ensures after in v.events && after.revision == e.revision + 1
    ensures EventSemantics(after) && after.previous == e.next
  {
    assert HasRevision(v.events, e.revision + 1);
    after :| after in v.events && after.revision == e.revision + 1;
  }

  /** The last event is the one of the stored revision. */
  lemma LastEvent(v: View, e: Event)
    requires v.workflow.Some? && TransitionIntegrity(v) && e in v.events
    requires e.revision >= v.workflow.value.revision
    ensures IsLast(v, e)
  {
    RevisionBound(v, e);
    var last :| last in v.events && IsLast(v, last);
    assert e == last;
  }

  /** Nothing follows failed or cancelled. */
  lemma NothingAfterTerminal(v: View, e: Event)
    requires v.workflow.Some? && TransitionIntegrity(v) && e in v.events
    requires e.kind.CaseFailedEvent? || e.kind.CaseCancelledEvent?
    ensures Terminal(v.workflow.value.state)
    ensures e.revision == v.workflow.value.revision
  {
    assert EventSemantics(e);
    if e.revision < v.workflow.value.revision {
      var after := Successor(v, e);
      assert false;
    }
    LastEvent(v, e);
  }

  /** A plan is committed only once: its event is the last, or the last but one before a terminal event. */
  lemma PlanEventIsNearlyLast(v: View, e: Event)
    requires v.workflow.Some? && TransitionIntegrity(v) && e in v.events && e.kind.PlanCommitted?
    ensures var w := v.workflow.value;
      || (w.state.PlanProposed? && e.revision == w.revision)
      || (Terminal(w.state) && e.revision + 1 == w.revision)
  {
    assert EventSemantics(e);
    if e.revision < v.workflow.value.revision {
      var after := Successor(v, e);
      NothingAfterTerminal(v, after);
    } else {
      LastEvent(v, e);
    }
  }

  lemma OnePlanEvent(v: View, a: Event, b: Event)
    requires v.workflow.Some? && TransitionIntegrity(v) && a in v.events && b in v.events
    requires a.kind.PlanCommitted? && b.kind.PlanCommitted?
    ensures a == b
  {
    PlanEventIsNearlyLast(v, a);
    PlanEventIsNearlyLast(v, b);
  }

  function PlanEvents(v: View): set<Event> {
    set e | e in v.events && e.kind.PlanCommitted?
  }

  lemma EventOfPlan(v: View, p: Plan) returns (e: Event)
    requires v.workflow.Some? && TransitionIntegrity(v) && p in v.plans
    ensures e in v.events && CommitsPlan(e, p)
  {
    hide FindingsCommitted, EventSemantics;
    e :| e in v.events && CommitsPlan(e, p);
  }

  lemma PlanOfEvent(v: View, e: Event) returns (p: Plan)
    requires ValidEvents(v) && e in v.events && e.kind.PlanCommitted?
    ensures p in v.plans && CitesPlan(v, e, p)
  {
    hide CitesFindings, InitialRefs, PlanClosure;
    assert ValidEvent(v, e);
    p :| p in v.plans && CitesPlan(v, e, p);
  }

  lemma PlansAreThoseOf(v: View, e: Event) returns (p: Plan)
    requires ValidView(v) && v.workflow.Some? && e in v.events && e.kind.PlanCommitted?
    ensures v.plans == {p}
    ensures Elements(e.refs) == BaseRefs(v.manifest.caseId) + PlanClosure(p)
  {
    hide ValidEvents, TransitionIntegrity, ValidDocuments, DistinctIds, ValidCase;
    p := PlanOfEvent(v, e);
    forall q | q in v.plans ensures q == p {
      var c := EventOfPlan(v, q);
      OnePlanEvent(v, c, e);
      assert q in CitedPlans(v, e.refs);
    }
  }

  /** A valid snapshot has as many repair plans as plan_committed events, and never more than one of either. */
  lemma PlanUniqueness(v: View)
    requires ValidView(v) && v.workflow.Some?
    ensures |v.plans| == |PlanEvents(v)| <= 1
    ensures v.workflow.value.state.PlanProposed? ==> |v.plans| == 1
    ensures v.workflow.value.state.EvidenceCollected? || v.workflow.value.state.Analyzed? ==> |v.plans| == 0
  {
    hide ValidEvents, ValidDocuments, DistinctIds;
    forall p | p in v.plans ensures PlanEvents(v) != {} {
      var c := EventOfPlan(v, p);
      assert c in PlanEvents(v);
    }
    if e :| e in PlanEvents(v) {
      var p := PlansAreThoseOf(v, e);
      forall c | c in PlanEvents(v) ensures c == e {
        OnePlanEvent(v, c, e);
      }
      assert PlanEvents(v) == {e};
    } else {
      assert v.plans == {};
    }
  }

  // ---------------------------------------------------------------- the validator's own pass over the log

  /** The events seen so far, by revision. */
  predicate Indexed(byRevision: map<nat, Event>, events: seq<Event>) {
    && (forall r | r in byRevision :: byRevision[r] in events && byRevision[r].revision == r)
    && (forall e | e in events :: e.revision in byRevision && byRevision[e.revision] == e)
  }

  /** Index the events by revision; fails on an event that breaks the rules of its type or shares a revision. */
  method IndexEvents(events: seq<Event>) returns (byRevision: map<nat, Event>, ok: bool)
    requires NoRepeats(events)
    ensures ok ==> Indexed(byRevision, events)
    ensures ok <==> (forall e | e in events :: EventSemantics(e))
                    && (forall a, b | a in events && b in events && a.revision == b.revision :: a == b)
  {
    hide EventSemantics;
    byRevision, ok := map[], true;
    for i := 0 to |events|
      invariant Indexed(byRevision, events[..i])
      invariant forall e | e in events[..i] :: EventSemantics(e)
      invariant forall a, b | a in events[..i] && b in events[..i] && a.revision == b.revision :: a == b
    {
      var e := events[i];
      assert e in events && e !in events[..i];
      assert events[..i + 1] == events[..i] + [e];
      if e.revision in byRevision {
        assert byRevision[e.revision] in events && byRevision[e.revision] != e;
        return byRevision, false;
      }
      if !EventSemantics(e) { return byRevision, false; }
      byRevision := byRevision[e.revision := e];
    }
    assert events[..|events|] == events;
  }

  predicate Contiguous(byRevision: map<nat, Event>, n: nat) {
    forall r | 1 <= r <= n :: r in byRevision
  }

  predicate Continues(a: Event, b: Event) {
    a.occurredAt <= b.occurredAt && b.previous == a.next
  }

  predicate ContinuesAt(byRevision: map<nat, Event>, r: nat) {
    r in byRevision && r + 1 in byRevision && Continues(byRevision[r], byRevision[r + 1])
  }

  /** Each revision continues the one before it, in time and in state. */
  method CheckContinuity(byRevision: map<nat, Event>, n: nat) returns (ok: bool)
    requires Contiguous(byRevision, n) && n >= 1
    ensures ok <==> forall r | 1 <= r < n :: ContinuesAt(byRevision, r)
  {
    for r := 2 to n + 1
      invariant forall k | 1 <= k < r - 1 :: byRevision[k].occurredAt <= byRevision[k + 1].occurredAt
    {
      if byRevision[r].occurredAt < byRevision[r - 1].occurredAt {
        assert !ContinuesAt(byRevision, r - 1);
        return false;
      }
    }
    for r := 2 to n + 1
      invariant forall k | 1 <= k < r - 1 :: byRevision[k + 1].previous == byRevision[k].next
    {
      if byRevision[r].previous != byRevision[r - 1].next {
        assert !ContinuesAt(byRevision, r - 1);
        return false;
      }
    }
    ok := true;
  }

  method CheckContiguity(byRevision: map<nat, Event>, n: nat) returns (ok: bool)
    ensures ok <==> Contiguous(byRevision, n)
  {
    for r := 1 to n + 1
      invariant forall k | 1 <= k < r :: k in byRevision
    {
      if r !in byRevision { return false; }
    }
    ok := true;
  }

  lemma FirstAndLast(byRevision: map<nat, Event>, events: seq<Event>, n: nat)
    requires Contiguous(byRevision, n) && n >= 1 && Indexed(byRevision, events)
    ensures 1 in byRevision && n in byRevision && byRevision[n] in events && byRevision[n].revision == n
  {
  }

  lemma CountsMustAgree(s: Snapshot)
    requires s.workflow.Some? && NoRepeats(s.events)
    ensures TransitionIntegrity(ViewOf(s)) ==>
      && |s.events| == s.workflow.value.revision >= 1
      && (forall e | e in s.events :: EventSemantics(e))
      && (forall a, b | a in s.events && b in s.events && a.revision == b.revision :: a == b)
  {
    hide EventSemantics, LifecycleProvenance, WorkflowSemantics;
    DistinctSeqSize(s.events);
    if TransitionIntegrity(ViewOf(s)) {
      forall a, b | a in s.events && b in s.events && a.revision == b.revision ensures a == b {
        assert a in ViewOf(s).events && b in ViewOf(s).events;
      }
      forall e | e in s.events ensures EventSemantics(e) {
        assert e in ViewOf(s).events;
      }
    }
  }

  lemma MustBeContiguous(s: Snapshot, byRevision: map<nat, Event>)
    requires s.workflow.Some? && Indexed(byRevision, s.events) && !Contiguous(byRevision, s.workflow.value.revision)
    ensures !TransitionIntegrity(ViewOf(s))
  {
    hide EventSemantics, LifecycleProvenance, WorkflowSemantics;
    var r :| 1 <= r <= s.workflow.value.revision && r !in byRevision;
    assert !HasRevision(ViewOf(s).events, r);
  }

  /** With one event per revision 1..N, integrity is decided by neighbours, the first event and the last. */
  lemma IntegrityByRevision(s: Snapshot, byRevision: map<nat, Event>)
    requires s.workflow.Some? && NoRepeats(s.events) && Indexed(byRevision, s.events)
    requires |s.events| == s.workflow.value.revision >= 1 && Contiguous(byRevision, s.workflow.value.revision)
    requires forall e | e in s.events :: EventSemantics(e)
    requires forall a, b | a in s.events && b in s.events && a.revision == b.revision :: a == b
    ensures var n := s.workflow.value.revision;
      1 in byRevision && n in byRevision &&
      (TransitionIntegrity(ViewOf(s)) <==>
         && (forall r | 1 <= r < n :: ContinuesAt(byRevision, r))
         && (byRevision[1].kind.CaseCreatedEvent? || byRevision[1].kind.LegacyCaseAdopted?)
         && IsLast(ViewOf(s), byRevision[n])
         && LifecycleProvenance(ViewOf(s)))
  {
    hide EventSemantics, LifecycleProvenance, WorkflowSemantics;
    var v, n := ViewOf(s), s.workflow.value.revision;
    DistinctSeqSize(s.events);
    assert byRevision[1] in v.events && byRevision[n] in v.events;
    if TransitionIntegrity(v) {
      forall r | 1 <= r < n ensures ContinuesAt(byRevision, r) {
        assert byRevision[r] in v.events && byRevision[r + 1] in v.events;
      }
      LastEvent(v, byRevision[n]);
    }
    if (forall r | 1 <= r < n :: ContinuesAt(byRevision, r))
       && (byRevision[1].kind.CaseCreatedEvent? || byRevision[1].kind.LegacyCaseAdopted?)
       && IsLast(v, byRevision[n]) && LifecycleProvenance(v) {
      NeighboursSuffice(s, byRevision);
    }
  }

  lemma NeighboursSuffice(s: Snapshot, byRevision: map<nat, Event>)
    requires s.workflow.Some? && NoRepeats(s.events) && Indexed(byRevision, s.events)
    requires |s.events| == s.workflow.value.revision >= 1 && Contiguous(byRevision, s.workflow.value.revision)
    requires forall e | e in s.events :: EventSemantics(e)
    requires forall r | 1 <= r < s.workflow.value.revision :: ContinuesAt(byRevision, r)
    requires byRevision[1].kind.CaseCreatedEvent? || byRevision[1].kind.LegacyCaseAdopted?
    requires IsLast(ViewOf(s), byRevision[s.workflow.value.revision]) && LifecycleProvenance(ViewOf(s))
    ensures TransitionIntegrity(ViewOf(s))
  {
    hide EventSemantics, LifecycleProvenance, WorkflowSemantics;
    var v, n := ViewOf(s), s.workflow.value.revision;
    DistinctSeqSize(s.events);
    forall r | 1 <= r <= n ensures HasRevision(v.events, r) {
      assert byRevision[r] in v.events;
    }
    forall a, b | a in v.events && b in v.events && b.revision == a.revision + 1
      ensures a.occurredAt <= b.occurredAt && b.previous == a.next
    {
      InRange(byRevision, s.events, n, a);
      InRange(byRevision, s.events, n, b);
      assert ContinuesAt(byRevision, a.revision);
    }
    assert byRevision[n] in v.events;
  }

  /** As many events as revisions, one for each: none lies outside 1..N. */
  lemma InRange(byRevision: map<nat, Event>, events: seq<Event>, n: nat, e: Event)
    requires Indexed(byRevision, events) && NoRepeats(events) && |events| == n && e in events
    requires Contiguous(byRevision, n)
    ensures 1 <= e.revision <= n
  {
    var all := Elements(events);
    forall r | 1 <= r <= n ensures HasRevision(all, r) {
      assert byRevision[r] in all;
    }
    var counted := RevisionsCounted(all, n);
    DistinctSeqSize(events);
    SubsetOfEqualSize(counted, all);
    assert e in all;
  }
}
