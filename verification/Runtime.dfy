/** The agent runtime: a bounded advisory consultation, driven by an untrusted provider, on top of the coordinator. */
module Runtime {
  import opened Domain
  import opened Validation
  import opened Preservation
  import opened Collections
  import opened Codec
  import opened Loading
  import opened History
  import opened Publication
  import opened Store
  import opened Commands
  import opened Evolution
  import opened Runs
  import opened Coordinators
  import Manifests
  import Replay

  const MAX_ROUNDS := 3
  const MAX_READS_PER_ROUND := 4
  const MAX_READS_TOTAL := 8

  /** A read the provider asks for. Whether its operation is registered, read-only and free of commands is decided by
      `allowed`; `canonical` encodes operation, version, target and parameters. */
  datatype ReadDraft = ReadDraft(key: Option<nat>, target: Id, allowed: bool, canonical: nat)

  /** `wellFormed` stands for the contract checks that concern neither the status nor the requests; `content` is what
      the rest of the proposal comes to once it is normalized for the record. */
  datatype Proposal = Proposal(status: ConsultationStatus, requests: seq<ReadDraft>, wellFormed: bool, content: Fields)

  /** Whatever a provider answers in a round. */
  datatype Reply = ProviderError | Reply(proposal: Proposal)

  datatype Outcome =
    | RunError(error: Error)
    | Replay(stored: Consultation)
    | Persisted(record: CommitRecord, status: ConsultationStatus, round: nat)
    | NotPersisted(error: Error, round: nat)

  // ---------------------------------------------------------------- authorization

  /** The keys of all reads issued so far, round after round. */
  function Flat(rounds: seq<seq<nat>>): seq<nat> {
    if rounds == [] then [] else Flat(rounds[..|rounds| - 1]) + rounds[|rounds| - 1]
  }

  function KeysOf(requests: seq<ReadDraft>): seq<nat> {
    seq(|requests|, i requires 0 <= i < |requests| => if requests[i].key.Some? then requests[i].key.value else 0)
  }

  /** Within the budgets: at most three rounds of at most four reads, eight in all, no key twice. */
  predicate Bounded(rounds: seq<seq<nat>>) {
    && |rounds| <= MAX_ROUNDS
    && (forall r | r in rounds :: |r| <= MAX_READS_PER_ROUND)
    && |Flat(rounds)| <= MAX_READS_TOTAL
    && NoRepeats(Flat(rounds))
  }

  /** Within the budget, every read permitted on a target of the case, and no key used before or twice. */
  predicate Authorized(s: Snapshot, requests: seq<ReadDraft>, prior: set<nat>, budget: int) {
    && |requests| <= MAX_READS_PER_ROUND && |requests| <= budget
    && (forall i | 0 <= i < |requests| :: Permitted(s, requests[i]) && requests[i].key.value !in prior)
    && (forall i, j | 0 <= i < j < |requests| :: requests[i].key != requests[j].key)
  }

  /** `AuthorizeReadRequests`: all of a round's requests or none; every key is new. */
  method Authorize(s: Snapshot, requests: seq<ReadDraft>, prior: set<nat>, budget: int) returns (ok: bool)
    ensures ok <==> Authorized(s, requests, prior, budget)
  {
    if |requests| > MAX_READS_PER_ROUND || |requests| > budget { return false; }
    var seen: set<nat> := {};
    for i := 0 to |requests|
      invariant forall k | 0 <= k < i :: Permitted(s, requests[k]) && requests[k].key.value !in prior
      invariant forall k, l | 0 <= k < l < i :: requests[k].key != requests[l].key
      invariant forall k | 0 <= k < i :: requests[k].key.value in seen
      invariant forall x | x in seen :: exists k :: 0 <= k < i && requests[k].key == Some(x)
    {
      var r := requests[i];
      if r.key.None? || r.key.value in seen || r.key.value in prior { return false; }
      if !Permitted(s, r) { return false; }
      seen := seen + {r.key.value};
    }
    ok := true;
  }

  predicate Permitted(s: Snapshot, r: ReadDraft) {
    r.key.Some? && r.allowed && exists t | t in s.targets :: t.targetId == r.target
  }

  /** What `ValidateProposal` says about status and requests. */
  predicate ValidProposal(p: Proposal) {
    p.wellFormed && (p.status.NeedsMoreEvidence? <==> p.requests != [])
  }

  /** Terminal records never ask for more evidence. */
  function TerminalStatus(status: ConsultationStatus): (r: ConsultationStatus)
    ensures !r.NeedsMoreEvidence?
  {
    if status.NeedsMoreEvidence? then ConsultationFailed else status
  }

  // ---------------------------------------------------------------- what a run may do to the case

  /** Only evidence and acquisitions were added. */
  predicate OnlyReads(v: View, w: View) {
    && w == v.(manifest := v.manifest.(targetIds := w.manifest.targetIds), evidence := w.evidence,
               acquisitions := w.acquisitions)
    && v.evidence <= w.evidence && v.acquisitions <= w.acquisitions
  }

  /** At most one consultation was added, and it is terminal. */
  predicate OneConsultation(v: View, w: View) {
    w.consultations == v.consultations
    || exists c | c in w.consultations ::
         w.consultations == v.consultations + {c} && !c.status.NeedsMoreEvidence? && 1 <= c.roundCount <= MAX_ROUNDS
  }

  /** The workflow is exactly where it was: state, findings, plans, events. */
  predicate Advisory(v: View, w: View) {
    OnlyReads(v, w.(consultations := v.consultations)) && OneConsultation(v, w)
  }

  lemma ReadIsAdvisory(s: Snapshot, head: CommitId, r: ReadRequest, reading: Reading, env: Env)
    requires Valid(s) && s.workflow.Some? && ReadSuccessor(s, head, r, reading, env).Ok?
    ensures OnlyReads(ViewOf(s), ViewOf(ReadSuccessor(s, head, r, reading, env).value))
  {
    hide Valid, ReadSuccessor;
    ReadAcceptance(s, head, r, reading, env);
    ReadingAccepted(s, head, r, reading, env);
    ReadingView(s, reading, AcquisitionOf(s, head, r, reading, env));
  }

  lemma ConsultIsAdvisory(s: Snapshot, c: Consultation)
    requires Valid(s) && s.workflow.Some? && AppendConsultation(s, c).Ok?
    ensures ViewOf(AppendConsultation(s, c).value) == ViewOf(s).(consultations := ViewOf(s).consultations + {c})
    ensures 1 <= c.roundCount <= 3
  {
    hide ValidCase, ValidDocuments, ValidEvents, ValidWorkflow, DistinctIds, NoDuplicates;
    ConsultationAcceptance(s, c);
    ElementsOfSum(s.consultations, [c]);
  }

  // ---------------------------------------------------------------- the store between the calls of a run

  /** The case is readable, all its commits are its own, and the head has this view. */
  ghost predicate At(store: CaseDirectory, log: Log)
    reads store
  {
    store.Past() == Some(log) && log != [] && OwnCase(log, store.caseId)
  }

  /** The coordinator would not load this case. */
  ghost predicate Broken(store: CaseDirectory)
    reads store
  {
    !store.present || !SoundCase(store.Files(), store.caseId)
  }

  function HeadView(log: Log): View
    requires log != []
  {
    ViewOf(log[|log| - 1].snapshot)
  }

  /** A command on a head read earlier leaves the history alone, or appends its successor if that head still is the
      head. */
  lemma HandOverAdvances(before: Disk, after: Disk, caseId: Id, log: Log, wasLocked: bool, read: Entry, c: Command,
                         now: Time, outcome: Store.Outcome, r: Result<CommitRecord>)
    returns (next: Log)
    requires HistoryOf(before, caseId) == Some(log) && OwnCase(log, caseId) && read in log && Valid(read.snapshot)
    requires Finished(SuccessorOf(read.snapshot, read.record.commitId, c), before, after, caseId, Some(log), wasLocked,
                      read.record.commitId, now, outcome, r)
    ensures HistoryOf(after, caseId) == Some(next) && OwnCase(next, caseId)
    ensures next == log || (|next| == |log| + 1 && next[..|log|] == log && log[|log| - 1] == read
                            && FollowsBy(read, next[|log|], c))
    ensures r.Ok? ==> next != [] && r.value == next[|next| - 1].record && Reached(read, next[|next| - 1], c)
    ensures next != log ==> r.Ok? || r == Err(OutcomeUnknown)
    ensures read == log[|log| - 1] && r == Err(RevisionConflict) ==>
      SuccessorOf(read.snapshot, read.record.commitId, c) == Err(RevisionConflict)
  {
    hide Valid, Decide, SuccessorOf, Canonical, NextRecord, Material, Grows, HasHistory, IdempotentHead;
    var built := SuccessorOf(read.snapshot, read.record.commitId, c);
    next := log;
    if built.Ok? {
      SuccessorKeepsCase(read, c);
      var req := RequestFor(built.value, read.record.commitId);
      if read == log[|log| - 1] { HeadIsNoConflict(before, caseId, log, read, req); }
      if Decide(before, caseId, log, req).Reuse? {
        ReuseIsIdempotent(before, caseId, log, req);
        IdempotentIsHead(before, caseId, log, req);
      }
      if !wasLocked && Decide(before, caseId, log, req).Proceed? && (outcome.Committed? || outcome.UnknownOutcome?) {
        ProceedChecksParent(before, caseId, log, req);
        SwapHitsHead(before, caseId, log, read, req.parent);
        next := Appended(caseId, log, req, now);
        CanonicalKeepsCase(built.value);
      }
    }
  }

  /** On the head the store finds no conflict. */
  lemma HeadIsNoConflict(d: Disk, caseId: Id, log: Log, head: Entry, req: Request)
    requires log != [] && head == log[|log| - 1] && req.parent == ExpectCommit(head.record.commitId)
    ensures Decide(d, caseId, log, req) != Reject(RevisionConflict)
  {
    hide ProvenanceHolds;
    DecisionOn(d, caseId, log, req);
    assert RecordsOf(log)[|log| - 1] == head.record;
  }

  /** Reads and consultations are refused for what they say, never as stale, before they are handed over. */
  lemma NeverBuiltStale(s: Snapshot, head: CommitId, c: Command)
    requires c.Read? || c.Consult?
    ensures SuccessorOf(s, head, c) != Err(RevisionConflict)
  {
    hide Valid;
  }

  /** `entry` holds what the command builds on `head`. */
  predicate Reached(head: Entry, entry: Entry, c: Command) {
    var built := SuccessorOf(head.snapshot, head.record.commitId, c);
    built.Ok? && entry.snapshot == Canonical(built.value)
  }

  lemma ReuseIsIdempotent(d: Disk, caseId: Id, log: Log, req: Request)
    requires Decide(d, caseId, log, req).Reuse?
    ensures IdempotentHead(log, req)
  {
  }

  /** The identifier under which a read of a consultation is recorded. */
  function AcquisitionRequestId(requestId: Id, round: nat, key: nat): Id {
    Pair(requestId, Pair(round, key))
  }

  function Pair(a: nat, b: nat): nat {
    (a + b) * (a + b + 1) / 2 + b
  }

  // ---------------------------------------------------------------- other coordinators

  /** A command another coordinator runs on the head it loads. It may stop after so many steps, and leave the lock held.
      One that works on an older head changes nothing. */
  datatype Rival = Rival(command: Command, now: Time, draws: seq<nat>, fuse: Option<nat>, holdsLock: bool)

  /** The points at which others may act between the calls of a run. */
  datatype Moment =
    | BeforeRead(round: nat, read: nat) | DuringRead(round: nat, read: nat) | BeforeReload(round: nat)
    | BeforeAnswer | DuringAnswer

  /** What the operation handlers, the clock, the random source and the other coordinators yield, call by call. */
  datatype World = World(
    readings: (nat, nat) -> Option<Reading>, envs: (nat, nat) -> Env, times: nat -> Time, draws: nat -> seq<nat>,
    rivals: Moment -> seq<Rival>)

  /** No other coordinator works on the case during the run. */
  ghost predicate Alone(world: World) {
    forall m :: world.rivals(m) == []
  }

  /** Who appended a commit, and what for. */
  datatype Share = OwnRead | OwnAnswer | Theirs

  predicate Answered(v: View, w: View) {
    exists c | c in w.consultations ::
      w == v.(consultations := v.consultations + {c}) && !c.status.NeedsMoreEvidence? && 1 <= c.roundCount <= MAX_ROUNDS
  }

  /** A read adds evidence and acquisitions, an answer one terminal consultation, all else is another coordinator's
      command. */
  ghost predicate ShareHolds(x: Share, parent: Entry, child: Entry) {
    match x
    case OwnRead => OnlyReads(ViewOf(parent.snapshot), ViewOf(child.snapshot))
    case OwnAnswer => Answered(ViewOf(parent.snapshot), ViewOf(child.snapshot))
    case Theirs => Follows(parent, child)
  }

  /** The history only grew, and `shares` accounts for every commit appended since `first`. */
  ghost predicate Accounted(first: Log, last: Log, shares: seq<Share>) {
    && first != [] && first <= last && |last| == |first| + |shares|
    && forall i | 0 <= i < |shares| :: ShareHolds(shares[i], last[|first| + i - 1], last[|first| + i])
  }

  function Reads(shares: seq<Share>): nat {
    multiset(shares)[OwnRead]
  }

  function Answers(shares: seq<Share>): nat {
    multiset(shares)[OwnAnswer]
  }

  predicate AllTheirs(shares: seq<Share>) {
    forall x | x in shares :: x.Theirs?
  }

  predicate NoneTheirs(shares: seq<Share>) {
    Theirs !in shares
  }

  lemma TheirsAreNotOwn(shares: seq<Share>)
    requires AllTheirs(shares)
    ensures Reads(shares) == 0 && Answers(shares) == 0
  {
    assert OwnRead !in shares && OwnAnswer !in shares;
  }

  lemma SharesSum(some: seq<Share>, more: seq<Share>)
    ensures Reads(some + more) == Reads(some) + Reads(more) && Answers(some + more) == Answers(some) + Answers(more)
    ensures NoneTheirs(some + more) <==> NoneTheirs(some) && NoneTheirs(more)
    ensures AllTheirs(some) && AllTheirs(more) ==> AllTheirs(some + more)
  {
    assert multiset(some + more) == multiset(some) + multiset(more);
  }

  lemma ShareCounts()
    ensures Reads([]) == 0 && Answers([]) == 0 && NoneTheirs([]) && AllTheirs([])
    ensures Reads([OwnRead]) == 1 && Answers([OwnRead]) == 0 && NoneTheirs([OwnRead])
    ensures Reads([OwnAnswer]) == 0 && Answers([OwnAnswer]) == 1 && NoneTheirs([OwnAnswer])
    ensures AllTheirs([Theirs])
  {
  }

  lemma AccountedTwice(first: Log, middle: Log, last: Log, some: seq<Share>, more: seq<Share>)
    requires Accounted(first, middle, some) && Accounted(middle, last, more)
    ensures Accounted(first, last, some + more)
    ensures Reads(some + more) == Reads(some) + Reads(more) && Answers(some + more) == Answers(some) + Answers(more)
    ensures NoneTheirs(some + more) <==> NoneTheirs(some) && NoneTheirs(more)
    ensures AllTheirs(some) && AllTheirs(more) ==> AllTheirs(some + more)
  {
    hide ShareHolds, Reads, Answers, NoneTheirs, AllTheirs;
    SharesSum(some, more);
    var all := some + more;
    forall i | 0 <= i < |all| ensures ShareHolds(all[i], last[|first| + i - 1], last[|first| + i]) {
      if i < |some| {
        assert last[|first| + i - 1] == middle[|first| + i - 1] && last[|first| + i] == middle[|first| + i];
      } else {
        assert all[i] == more[i - |some|];
      }
    }
  }

  lemma AccountedNone(log: Log)
    requires log != []
    ensures Accounted(log, log, [])
  {
  }

  lemma AccountedOne(log: Log, next: Log, x: Share)
    requires log != [] && log <= next && |next| == |log| + 1 && ShareHolds(x, log[|log| - 1], next[|log|])
    ensures Accounted(log, next, [x])
  {
    hide ShareHolds;
    assert next[|log| - 1] == log[|log| - 1];
  }

  /** One command of another coordinator, with its own fate. */
  method RivalActs(co: Coordinator, ghost log: Log, rival: Rival) returns (ghost after: Log, ghost shares: seq<Share>)
    requires At(co.store, log)
    modifies co.store
    ensures At(co.store, after) && Accounted(log, after, shares)
    ensures AllTheirs(shares)
    ensures Keeps(HeadView(log), HeadView(after))
    ensures old(Broken(co.store)) ==> Broken(co.store)
  {
    hide Valid, Finished, Keeps, SuccessorOf, HistoryOf, HasHistory, SoundCase, EmptyCase, FollowsBy, Reached, OwnCase,
         ViewOf, Accounted, AllTheirs;
    ShareCounts();
    after, shares := log, [];
    AccountedNone(log);
    KeepsItself(HeadView(log));
    var own := co.store.fuse;
    co.store.fuse := rival.fuse;
    var head := co.LoadLatestVerified();
    if head.Ok? {
      OwnHead(log, co.store.caseId);
      SuccessorKeepsCase(head.value, rival.command);
      ghost var before := co.store.Files();
      ghost var wasLocked := co.store.locked;
      ghost var outcome;
      var r;
      r, outcome := co.Finish(SuccessorOf(head.value.snapshot, head.value.record.commitId, rival.command), head.value,
                              rival.now, rival.draws);
      after := HandOverAdvances(before, co.store.Files(), co.store.caseId, log, wasLocked, head.value, rival.command,
                                rival.now, outcome, r);
      if after != log {
        shares := [Theirs];
        TheirStep(log, after, rival.command);
      }
    }
    co.store.fuse, co.store.locked := own, rival.holdsLock;
  }

  lemma TheirStep(log: Log, after: Log, c: Command)
    requires log != [] && log <= after && |after| == |log| + 1
    requires Valid(log[|log| - 1].snapshot) && FollowsBy(log[|log| - 1], after[|log|], c)
    ensures Accounted(log, after, [Theirs]) && Keeps(HeadView(log), HeadView(after))
  {
    hide Valid, FollowsBy, Accounted, OneOriginStep, Keeps;
    FollowsWhen(log[|log| - 1], after[|log|], c);
    FollowsEvolves(log[|log| - 1], after[|log|]);
    AccountedOne(log, after, Theirs);
  }

  lemma KeepsItself(v: View)
    ensures Keeps(v, v)
  {
  }

  lemma KeepsTwice(u: View, v: View, w: View)
    requires Keeps(u, v) && Keeps(v, w)
    ensures Keeps(u, w)
  {
  }

  /** Whatever others do between two calls of a run, they only append commands, and lose no document. */
  method LetOthersAct(co: Coordinator, ghost log: Log, rivals: seq<Rival>)
    returns (ghost after: Log, ghost shares: seq<Share>)
    requires At(co.store, log)
    modifies co.store
    ensures At(co.store, after) && Accounted(log, after, shares)
    ensures Reads(shares) == 0 && Answers(shares) == 0
    ensures rivals == [] ==> NoneTheirs(shares) && after == log
                             && co.store.Files() == old(co.store.Files()) && co.store.locked == old(co.store.locked)
    ensures Keeps(HeadView(log), HeadView(after))
    ensures old(Broken(co.store)) ==> Broken(co.store)
    ensures rivals == [] && Broken(co.store) ==> old(Broken(co.store))
  {
    hide Accounted, Keeps, HistoryOf, OwnCase, ViewOf, Reads, Answers, NoneTheirs, AllTheirs, Broken;
    ShareCounts();
    after, shares := log, [];
    AccountedNone(log);
    KeepsItself(HeadView(log));
    for i := 0 to |rivals|
      invariant At(co.store, after) && Accounted(log, after, shares)
      invariant AllTheirs(shares)
      invariant i == 0 ==> shares == [] && after == log
      invariant i == 0 ==> co.store.Files() == old(co.store.Files()) && co.store.locked == old(co.store.locked)
      invariant old(Broken(co.store)) ==> Broken(co.store)
      invariant i == 0 && Broken(co.store) ==> old(Broken(co.store))
      invariant Keeps(HeadView(log), HeadView(after))
    {
      ghost var was, more := after, [];
      after, more := RivalActs(co, after, rivals[i]);
      AccountedTwice(log, was, after, shares, more);
      KeepsTwice(HeadView(log), HeadView(was), HeadView(after));
      shares := shares + more;
    }
    TheirsAreNotOwn(shares);
  }

  /** No acquisition is lost. */
  predicate Retains(v: View, w: View) {
    v.acquisitions <= w.acquisitions
  }

  lemma KeepsRetains(v: View, w: View)
    ensures Keeps(v, w) || OnlyReads(v, w) ==> Retains(v, w)
  {
  }

  lemma RetainsTwice(u: View, v: View, w: View)
    requires Retains(u, v) && Retains(v, w)
    ensures Retains(u, w)
  {
  }

  /** The case holds what a read of this request, with these parameters, acquired. */
  predicate Fetched(v: View, requestId: Id, canonical: nat) {
    exists a | a in v.acquisitions :: a.requestId == requestId && a.parameters == Digest(canonical)
  }

  lemma FetchedLater(v: View, w: View, requestId: Id, canonical: nat)
    requires Fetched(v, requestId, canonical) && Retains(v, w)
    ensures Fetched(w, requestId, canonical)
  {
  }

  lemma ReplayIsFetched(s: Snapshot, request: ReadRequest)
    requires AcquisitionReplay(s, request).Replayed?
    ensures Fetched(ViewOf(s), request.requestId, request.canonical)
  {
    var a := AcquisitionReplay(s, request).stored;
    assert a in ViewOf(s).acquisitions;
  }

  lemma ReachedIsFetched(head: Entry, entry: Entry, request: ReadRequest, reading: Reading, env: Env)
    requires Valid(head.snapshot) && Reached(head, entry, Read(request, reading, env))
    ensures Fetched(ViewOf(entry.snapshot), request.requestId, request.canonical)
  {
    hide Valid, ReadSuccessor, Canonical;
    var s, id := head.snapshot, head.record.commitId;
    ReadAcceptance(s, id, request, reading, env);
    ReadingAccepted(s, id, request, reading, env);
    var a := AcquisitionOf(s, id, request, reading, env);
    ReadingView(s, reading, a);
    CanonicalKeepsView(ReadSuccessor(s, id, request, reading, env).value);
    assert a in ViewOf(entry.snapshot).acquisitions;
  }

  /** One read through the coordinator, on whatever head it finds; others may act while it works. */
  method ExecuteRead(co: Coordinator, ghost log: Log, request: ReadRequest, reading: Option<Reading>, env: Env,
                     now: Time, draws: seq<nat>, rivals: seq<Rival>)
    returns (r: Result<CommitRecord>, ghost next: Log, ghost shares: seq<Share>)
    requires At(co.store, log)
    modifies co.store
    ensures At(co.store, next) && Accounted(log, next, shares)
    ensures Answers(shares) == 0 && Reads(shares) <= 1
    ensures rivals == [] ==> NoneTheirs(shares)
    ensures r.Ok? ==> Names(next, r.value.commitId) && Fetched(HeadView(next), request.requestId, request.canonical)
    ensures r.Ok? && rivals == [] ==> r.value == next[|next| - 1].record
    ensures rivals == [] && request.expected == Some(log[|log| - 1].record.commitId) ==> r != Err(RevisionConflict)
    ensures Retains(HeadView(log), HeadView(next))
  {
    hide Retains, Fetched, Valid, Finished, OnlyReads, AcquisitionReplay, HistoryOf, FollowsBy, SoundCase, SuccessorOf,
         ViewOf, HasHistory, Reached, EmptyCase, AcquisitionAllowed, AcquisitionActor, OwnCase, Accounted, Keeps, Reads,
         Answers, NoneTheirs, AllTheirs;
    ShareCounts();
    next, shares := log, [];
    AccountedNone(log);
    var head := co.LoadLatestVerified();
    KeepsItself(HeadView(log));
    KeepsRetains(HeadView(log), HeadView(log));
    if head.Err? { return Err(head.error), log, []; }
    OwnHead(log, co.store.caseId);
    next, shares := LetOthersAct(co, log, rivals);
    StillThere(log, next, shares, head.value);
    KeepsRetains(HeadView(log), HeadView(next));
    ghost var middle, theirs := next, shares;
    ghost var before := co.store.Files();
    ghost var wasLocked := co.store.locked;
    ghost var outcome;
    var replayed;
    r, replayed, outcome := co.Acquire(head.value, request, reading, env, now, draws);
    if r.Ok? { StillNames(log, next, theirs, head.value.record.commitId); }
    if r == Err(RevisionConflict) && rivals == [] && request.expected == Some(head.value.record.commitId) {
      NeverBuiltStale(head.value.snapshot, head.value.record.commitId, Read(request, reading.value, env));
      ghost var same := HandOverAdvances(before, co.store.Files(), co.store.caseId, middle, wasLocked, head.value,
                                         Read(request, reading.value, env), now, outcome, r);
    }
    if replayed.Some? {
      ReplayIsFetched(head.value.snapshot, request);
      FetchedLater(HeadView(log), HeadView(next), request.requestId, request.canonical);
    }
    if co.store.Files() != before || (r.Ok? && replayed.None?) {
      var c := Read(request, reading.value, env);
      next := HandOverAdvances(before, co.store.Files(), co.store.caseId, middle, wasLocked, head.value, c, now,
                               outcome, r);
      NeverBuiltStale(head.value.snapshot, head.value.record.commitId, c);
      if r.Ok? { ReachedIsFetched(head.value, next[|next| - 1], request, reading.value, env); }
      if next != middle {
        ReadStepIsAdvisory(middle[|middle| - 1], next[|middle|], request, reading.value, env);
        KeepsRetains(HeadView(middle), HeadView(next));
        RetainsTwice(HeadView(log), HeadView(middle), HeadView(next));
        AccountedOne(middle, next, OwnRead);
        AccountedTwice(log, middle, next, theirs, [OwnRead]);
        shares := theirs + [OwnRead];
      }
    }
  }

  /** What was the head is still a commit of the case, whoever appended since. */
  lemma StillThere(log: Log, next: Log, shares: seq<Share>, head: Entry)
    requires Accounted(log, next, shares) && head == log[|log| - 1]
    ensures head in next && head.record in RecordsOf(next)
  {
    hide ShareHolds;
    assert next[|log| - 1] == head && RecordsOf(next)[|log| - 1] == head.record;
  }

  /** `commit` is the id of one of these commits. */
  predicate Names(log: Log, commit: CommitId) {
    exists e | e in log :: e.record.commitId == commit
  }

  lemma StillNames(log: Log, next: Log, shares: seq<Share>, commit: CommitId)
    requires Accounted(log, next, shares)
    ensures Names(log, commit) || commit == log[|log| - 1].record.commitId ==> Names(next, commit)
  {
    hide ShareHolds;
    forall e | e in log ensures e in next {
      var k := Manifests.AtIndex(log, e);
      assert next[k] == e;
    }
    assert log[|log| - 1] in log;
  }

  lemma HeadIsNamed(log: Log)
    requires log != []
    ensures Names(log, log[|log| - 1].record.commitId)
  {
    assert log[|log| - 1] in log;
  }

  /** A commit from before the history grew is not the head. */
  lemma NamedBefore(d: Disk, caseId: Id, log: Log, seen: Log, after: Log, commit: CommitId)
    requires HasHistory(d, caseId, after) && log <= seen <= after && |log| < |seen| && Names(log, commit)
    ensures commit != seen[|seen| - 1].record.commitId
  {
    hide LoadAt, Valid;
    var e :| e in log && e.record.commitId == commit;
    var k := Manifests.AtIndex(log, e);
    assert seen[k] == e && after[k] == e && after[|seen| - 1] == seen[|seen| - 1];
    EntryIsCommitted(d, caseId, after, k);
    EntryIsCommitted(d, caseId, after, |seen| - 1);
  }

  lemma SameReads(v: View)
    ensures OnlyReads(v, v)
  {
  }

  lemma OwnHead(log: Log, caseId: Id)
    requires OwnCase(log, caseId) && log != []
    ensures log[|log| - 1].snapshot.manifest.caseId == caseId
  {
  }

  lemma ReadStepIsAdvisory(parent: Entry, child: Entry, request: ReadRequest, reading: Reading, env: Env)
    requires Valid(parent.snapshot) && FollowsBy(parent, child, Read(request, reading, env))
    ensures OnlyReads(ViewOf(parent.snapshot), ViewOf(child.snapshot))
  {
    hide Valid, ReadSuccessor, OnlyReads, Canonical;
    var next := SuccessorOf(parent.snapshot, parent.record.commitId, Read(request, reading, env)).value;
    ReadIsAdvisory(parent.snapshot, parent.record.commitId, request, reading, env);
    CanonicalKeepsView(next);
  }

  lemma ConsultStepIsAdvisory(parent: Entry, child: Entry, c: Consultation)
    requires Valid(parent.snapshot) && FollowsBy(parent, child, Consult(c)) && !c.status.NeedsMoreEvidence?
    ensures ShareHolds(OwnAnswer, parent, child) && c in ViewOf(child.snapshot).consultations
  {
    hide Valid, AppendConsultation, Canonical;
    var next := SuccessorOf(parent.snapshot, parent.record.commitId, Consult(c)).value;
    ConsultIsAdvisory(parent.snapshot, c);
    CanonicalKeepsView(next);
  }

  /** Every commit since `first` is accounted for, none is an answer, and at most `n` are the run's own reads. */
  ghost predicate OnReads(first: Log, log: Log, shares: seq<Share>, n: nat, world: World) {
    && Accounted(first, log, shares) && Answers(shares) == 0 && Reads(shares) <= n
    && (Alone(world) ==> NoneTheirs(shares))
  }

  lemma NoReads(first: Log, world: World)
    requires first != []
    ensures OnReads(first, first, [], 0, world)
  {
    ShareCounts();
    AccountedNone(first);
  }

  lemma MoreReads(first: Log, was: Log, log: Log, shares: seq<Share>, more: seq<Share>, n: nat, k: nat, world: World)
    requires OnReads(first, was, shares, n, world) && Accounted(was, log, more)
    requires Answers(more) == 0 && Reads(more) <= k && (Alone(world) ==> NoneTheirs(more))
    ensures OnReads(first, log, shares + more, n + k, world)
  {
    hide Accounted, Reads, Answers, NoneTheirs;
    AccountedTwice(first, was, log, shares, more);
  }

  /** The case holds what this read, asked for in this round, acquired. */
  predicate WasRead(v: View, requestId: Id, round: nat, d: ReadDraft) {
    d.key.Some? && Fetched(v, AcquisitionRequestId(requestId, round, d.key.value), d.canonical)
  }

  lemma ReadLater(v: View, w: View, requestId: Id, round: nat, requests: seq<ReadDraft>)
    requires Retains(v, w) && forall d | d in requests :: WasRead(v, requestId, round, d)
    ensures forall d | d in requests :: WasRead(w, requestId, round, d)
  {
    hide Retains, Fetched, AcquisitionRequestId;
    forall d | d in requests ensures WasRead(w, requestId, round, d) {
      FetchedLater(v, w, AcquisitionRequestId(requestId, round, d.key.value), d.canonical);
    }
  }

  lemma JustRead(v: View, requestId: Id, round: nat, d: ReadDraft)
    requires d.key.Some? && Fetched(v, AcquisitionRequestId(requestId, round, d.key.value), d.canonical)
    ensures WasRead(v, requestId, round, d)
  {
  }

  /** `executeAuthorizedReads`: each read expects the commit the one before it produced; the first failure ends them. */
  method ExecuteReads(co: Coordinator, ghost log: Log, commitId: CommitId, requestId: Id, round: nat,
                      actor: Option<Actor>, requests: seq<ReadDraft>, world: World)
    returns (commit: CommitId, failed: Option<Error>, issued: seq<nat>, ghost after: Log, ghost shares: seq<Share>)
    requires At(co.store, log)
    requires forall r | r in requests :: r.key.Some?
    modifies co.store
    ensures At(co.store, after) && OnReads(log, after, shares, |issued|, world)
    ensures issued <= KeysOf(requests) && (failed.None? ==> issued == KeysOf(requests))
    ensures Names(log, commitId) || (failed.None? && requests != []) ==> Names(after, commit)
    ensures Retains(HeadView(log), HeadView(after))
    ensures failed.None? ==> forall d | d in requests :: WasRead(HeadView(after), requestId, round, d)
    ensures Alone(world) && failed.None? && requests != [] ==> commit == after[|after| - 1].record.commitId
    ensures Alone(world) && commitId == log[|log| - 1].record.commitId ==> failed != Some(RevisionConflict)
  {
    hide OnReads, Retains, WasRead, OnlyReads, HistoryOf, OwnCase, HasHistory, ViewOf, AcquisitionRequestId, Accounted,
         Keeps, RecordsOf, Reads, Answers, NoneTheirs, AllTheirs, Names;
    commit, failed, issued, after, shares := commitId, None, [], log, [];
    NoReads(log, world);
    KeepsItself(HeadView(log));
    KeepsRetains(HeadView(log), HeadView(log));
    for i := 0 to |requests|
      invariant At(co.store, after) && OnReads(log, after, shares, i, world)
      invariant issued == KeysOf(requests)[..i] && failed.None?
      invariant Names(log, commitId) || i > 0 ==> Names(after, commit)
      invariant Retains(HeadView(log), HeadView(after))
      invariant forall d | d in requests[..i] :: WasRead(HeadView(after), requestId, round, d)
      invariant Alone(world) && (i > 0 || commitId == log[|log| - 1].record.commitId) ==>
        commit == after[|after| - 1].record.commitId
    {
      var d := requests[i];
      assert d in requests && KeysOf(requests)[i] == d.key.value;
      assert KeysOf(requests)[..i + 1] == KeysOf(requests)[..i] + [d.key.value];
      var request := ReadRequest(AcquisitionRequestId(requestId, round, d.key.value), Some(commit), actor, d.canonical);
      ghost var start, was, more := after, after, [];
      after, more := LetOthersAct(co, after, world.rivals(BeforeRead(round, i)));
      MoreReads(log, was, after, shares, more, i, 0, world);
      StillNames(was, after, more, commit);
      KeepsRetains(HeadView(was), HeadView(after));
      shares, was := shares + more, after;
      var r;
      r, after, more := ExecuteRead(co, after, request, world.readings(round, i), world.envs(round, i),
                                    world.times(round), world.draws(round), world.rivals(DuringRead(round, i)));
      MoreReads(log, was, after, shares, more, i, 1, world);
      StillNames(was, after, more, commit);
      shares, issued := shares + more, issued + [d.key.value];
      RetainsTwice(HeadView(start), HeadView(was), HeadView(after));
      RetainsTwice(HeadView(log), HeadView(start), HeadView(after));
      if r.Err? {
        failed := Some(r.error);
        return;
      }
      commit := r.value.commitId;
      ReadLater(HeadView(start), HeadView(after), requestId, round, requests[..i]);
      JustRead(HeadView(after), requestId, round, d);
      assert requests[..i + 1] == requests[..i] + [d];
    }
    assert requests[..|requests|] == requests;
  }

  // ---------------------------------------------------------------- the terminal record

  function FindingIdList(s: Snapshot): seq<Id> {
    seq(|s.findings|, i requires 0 <= i < |s.findings| => s.findings[i].findingId)
  }

  function EvidenceIdList(s: Snapshot): seq<Id> {
    seq(|s.evidence|, i requires 0 <= i < |s.evidence| => s.evidence[i].evidenceId)
  }

  /** `buildConsultation` of the normalized proposal. */
  function BuildConsultation(s: Snapshot, requestId: Id, consultationId: Id, source: CommitId, round: nat,
                             status: ConsultationStatus, content: Fields, now: Time): Consultation
  {
    Consultation(consultationId, s.manifest.caseId, requestId, source, TerminalStatus(status), round, now,
                 FindingIdList(s), EvidenceIdList(s), TargetIdList(s.targets), content)
  }

  /** The request is new to the head, and so is the consultation's id. */
  predicate NotYetAsked(log: Log, requestId: Id, consultationId: Id)
    requires log != []
  {
    forall d | d in log[|log| - 1].snapshot.consultations ::
      d.requestId != requestId && d.consultationId != consultationId
  }

  lemma {:induction false} FreshRequestHasNoReplay(consultations: seq<Consultation>, c: Consultation)
    requires forall d | d in consultations :: d.requestId != c.requestId && d.consultationId != c.consultationId
    ensures ConsultationReplay(consultations, c).NoReplay?
  {
    if consultations != [] {
      FreshRequestHasNoReplay(consultations[1..], c);
    }
  }

  lemma {:induction false} ReplayedIsStored(consultations: seq<Consultation>, c: Consultation, stored: Consultation)
    requires ConsultationReplay(consultations, c) == Replayed(stored)
    ensures stored in consultations && Identity(stored) == Identity(c)
  {
    if !SameSlot(consultations[0], c) {
      ReplayedIsStored(consultations[1..], c, stored);
    }
  }

  lemma ConsultReached(head: Entry, entry: Entry, c: Consultation)
    requires Valid(head.snapshot) && Reached(head, entry, Consult(c))
    ensures c in ViewOf(entry.snapshot).consultations
  {
    hide Valid, AppendConsultation, Canonical;
    ConsultIsAdvisory(head.snapshot, c);
    CanonicalKeepsView(AppendConsultation(head.snapshot, c).value);
  }

  /** The case holds this consultation, up to its time. */
  predicate Holds(v: View, c: Consultation) {
    exists d | d in v.consultations :: Identity(d) == Identity(c)
  }

  /** The case holds a consultation for this request that ended like this, on what the run saw of the case last. */
  predicate Recorded(v: View, seen: Snapshot, requestId: Id, consultationId: Id, status: ConsultationStatus, round: nat,
                     content: Fields)
  {
    exists c | c in v.consultations ::
      && c.requestId == requestId && c.consultationId == consultationId && c.caseId == seen.manifest.caseId
      && c.status == status && c.roundCount == round && c.fields == content
      && Elements(c.findingRefs) == (set f | f in seen.findings :: f.findingId)
      && Elements(c.evidenceRefs) == (set e | e in seen.evidence :: e.evidenceId)
      && Elements(c.targetRefs) == (set t | t in seen.targets :: t.targetId)
  }

  lemma BuiltIsRecorded(v: View, s: Snapshot, requestId: Id, consultationId: Id, source: CommitId, round: nat,
                        status: ConsultationStatus, content: Fields, now: Time)
    requires Holds(v, BuildConsultation(s, requestId, consultationId, source, round, status, content, now))
    ensures Recorded(v, s, requestId, consultationId, TerminalStatus(status), round, content)
  {
    var c := BuildConsultation(s, requestId, consultationId, source, round, status, content, now);
    var d :| d in v.consultations && Identity(d) == Identity(c);
    assert d.findingRefs == c.findingRefs && d.evidenceRefs == c.evidenceRefs && d.targetRefs == c.targetRefs;
    ListedFindings(s);
    ListedEvidence(s);
    ListedTargets(s);
  }

  lemma ListedFindings(s: Snapshot)
    ensures Elements(FindingIdList(s)) == (set f | f in s.findings :: f.findingId)
  {
    forall f | f in s.findings ensures f.findingId in FindingIdList(s) {
      var i := Manifests.AtIndex(s.findings, f);
      assert FindingIdList(s)[i] == f.findingId;
    }
  }

  lemma ListedEvidence(s: Snapshot)
    ensures Elements(EvidenceIdList(s)) == (set e | e in s.evidence :: e.evidenceId)
  {
    forall e | e in s.evidence ensures e.evidenceId in EvidenceIdList(s) {
      var i := Manifests.AtIndex(s.evidence, e);
      assert EvidenceIdList(s)[i] == e.evidenceId;
    }
  }

  lemma ListedTargets(s: Snapshot)
    ensures Elements(TargetIdList(s.targets)) == (set t | t in s.targets :: t.targetId)
  {
    forall t | t in s.targets ensures t.targetId in TargetIdList(s.targets) {
      var i := Manifests.AtIndex(s.targets, t);
      assert TargetIdList(s.targets)[i] == t.targetId;
    }
  }

  /** A record of this case, by the advisor, is refused on its state only. */
  lemma OnlyTheStateCounts(s: Snapshot, r: ConsultRequest)
    requires r.actor == Some(LlmAdvisor) && r.consultation.requestId == r.requestId
    ensures r.consultation.caseId == s.manifest.caseId ==>
      (ConsultationRefusal(s, r).None? <==> ConsultationAllowed(s))
  {
  }

  lemma NeverRefusedStale(s: Snapshot, r: ConsultRequest)
    ensures ConsultationRefusal(s, r) != Some(RevisionConflict)
  {
  }

  /** What the coordinator answered. */
  function ResultIn(outcome: Outcome): Result<CommitRecord> {
    match outcome
    case Persisted(record, _, _) => Ok(record)
    case NotPersisted(error, _) => Err(error)
    case RunError(error) => Err(error)
    case Replay(_) => Err(RequestConflict)
  }

  /** The commit of the terminal record on the head the coordinator loaded, which others may have moved since. */
  method Answer(co: Coordinator, ghost log: Log, head: Entry, requestId: Id, commit: CommitId, c: Consultation,
                now: Time, draws: seq<nat>)
    returns (outcome: Outcome, ghost after: Log, ghost shares: seq<Share>, ghost committed: Store.Outcome)
    requires At(co.store, log) && head in log && head.snapshot.manifest.caseId == co.store.caseId
        && Valid(head.snapshot)
    requires Keeps(ViewOf(head.snapshot), HeadView(log)) && c.requestId == requestId && !c.status.NeedsMoreEvidence?
    modifies co.store
    ensures At(co.store, after) && Accounted(log, after, shares)
    ensures Reads(shares) == 0 && Answers(shares) <= 1 && NoneTheirs(shares)
    ensures outcome.Persisted? || outcome.NotPersisted?
    ensures outcome.Persisted? ==>
      outcome.status == c.status && outcome.round == c.roundCount && Holds(HeadView(after), c)
    ensures outcome.NotPersisted? && Answers(shares) > 0 ==> outcome.error.OutcomeUnknown?
    ensures head == log[|log| - 1] && commit == head.record.commitId && c.caseId == co.store.caseId ==>
      !(outcome.NotPersisted? && outcome.error.RevisionConflict?)
    ensures c.caseId == co.store.caseId && ConsultationAllowed(head.snapshot) && commit == head.record.commitId
            && ConsultationReplay(head.snapshot.consultations, c).NoReplay? ==>
      Finished(SuccessorOf(head.snapshot, commit, Consult(c)), old(co.store.Files()), co.store.Files(),
               co.store.caseId, Some(log), old(co.store.locked), commit, now, committed, ResultIn(outcome))
    ensures commit != head.record.commitId && ConsultationReplay(head.snapshot.consultations, c).NoReplay? ==>
      outcome.NotPersisted? && Answers(shares) == 0
  {
    hide Valid, Finished, HistoryOf, FollowsBy, ConsultationReplay, SuccessorOf, HasHistory, ConsultationRefusal,
         OwnCase, Reached, Accounted, Answered, Reads, Answers, NoneTheirs, AllTheirs;
    ShareCounts();
    after, shares := log, [];
    AccountedNone(log);
    var request := ConsultRequest(requestId, Some(commit), Some(LlmAdvisor), true, c);
    OnlyTheStateCounts(head.snapshot, request);
    ghost var before := co.store.Files();
    ghost var wasLocked := co.store.locked;
    var r, replayed;
    r, replayed, committed := co.CommitAgentConsultation(head, request, now, draws);
    NeverBuiltStale(head.snapshot, head.record.commitId, Consult(c));
    if r == Err(RevisionConflict) && head == log[|log| - 1] && commit == head.record.commitId
       && c.caseId == co.store.caseId
    {
      NeverRefusedStale(head.snapshot, request);
      ghost var same := HandOverAdvances(before, co.store.Files(), co.store.caseId, log, wasLocked, head, Consult(c),
                                         now, committed, r);
    }
    if replayed.Some? {
      ReplayedIsStored(head.snapshot.consultations, c, replayed.value);
      assert replayed.value in ViewOf(head.snapshot).consultations;
    }
    if co.store.Files() != before || (r.Ok? && replayed.None?) {
      after := HandOverAdvances(before, co.store.Files(), co.store.caseId, log, wasLocked, head, Consult(c), now,
                                committed, r);
      if r.Ok? { ConsultReached(head, after[|after| - 1], c); }
      if after != log {
        ConsultStepIsAdvisory(log[|log| - 1], after[|log|], c);
        AccountedOne(log, after, OwnAnswer);
        shares := [OwnAnswer];
      }
    }
    outcome := if r.Ok? then Persisted(r.value, c.status, c.roundCount) else NotPersisted(r.error, c.roundCount);
  }

  /** `persistTerminal`: one attempt to record the outcome on the commit the run has reached. `seen` is the history as
      the coordinator finds it. */
  method Persist(co: Coordinator, ghost log: Log, view: Entry, requestId: Id, consultationId: Id, commit: CommitId,
                 round: nat, status: ConsultationStatus, content: Fields, now: Time, draws: seq<nat>, world: World)
    returns (outcome: Outcome, ghost seen: Log, ghost after: Log, ghost shares: seq<Share>,
             ghost committed: Store.Outcome)
    requires At(co.store, log) && view.snapshot.manifest.caseId == co.store.caseId
    modifies co.store
    ensures At(co.store, after) && Accounted(log, after, shares)
    ensures Reads(shares) == 0 && Answers(shares) <= 1
    ensures Alone(world) ==> NoneTheirs(shares) && seen == log
    ensures outcome.Persisted? || outcome.NotPersisted?
    ensures outcome.Persisted? ==>
      && outcome.status == TerminalStatus(status) && outcome.round == round
      && Recorded(HeadView(after), view.snapshot, requestId, consultationId, outcome.status, round, content)
    ensures old(Broken(co.store)) ==> outcome.NotPersisted?
    ensures outcome.NotPersisted? && Answers(shares) > 0 ==> outcome.error.OutcomeUnknown?
    ensures Alone(world) && commit == log[|log| - 1].record.commitId ==>
      !(outcome.NotPersisted? && outcome.error.RevisionConflict?)
    ensures log <= seen <= after
    ensures commit != seen[|seen| - 1].record.commitId && NotYetAsked(seen, requestId, consultationId) ==>
      outcome.NotPersisted? && Answers(shares) == 0
    ensures var head := log[|log| - 1];
      Alone(world) && !old(Broken(co.store)) && NotYetAsked(log, requestId, consultationId)
      && commit == head.record.commitId && ConsultationAllowed(head.snapshot) ==>
        var c := BuildConsultation(view.snapshot, requestId, consultationId, commit, round, status, content, now);
        Finished(SuccessorOf(head.snapshot, commit, Consult(c)), old(co.store.Files()), co.store.Files(),
                 co.store.caseId, Some(log), old(co.store.locked), commit, now, committed, ResultIn(outcome))
  {
    hide ConsultationAllowed, Valid, Finished, HistoryOf, FollowsBy, SoundCase, ConsultationReplay, SuccessorOf, ViewOf,
         HasHistory, ConsultationRefusal, OwnCase, Reached, EmptyCase, Accounted, Keeps, Answered, Reads, Answers,
         NoneTheirs, AllTheirs;
    var c := BuildConsultation(view.snapshot, requestId, consultationId, commit, round, status, content, now);
    seen, shares := LetOthersAct(co, log, world.rivals(BeforeAnswer));
    AccountedGrows(log, seen, shares);
    var head := co.LoadLatestVerified();
    if head.Err? { return NotPersisted(head.error, round), seen, seen, shares, Stopped; }
    OwnHead(seen, co.store.caseId);
    ghost var more;
    after, more := LetOthersAct(co, seen, world.rivals(DuringAnswer));
    AccountedGrows(seen, after, more);
    AccountedTwice(log, seen, after, shares, more);
    StillThere(seen, after, more, head.value);
    ghost var middle := after;
    shares := shares + more;
    outcome, after, more, committed := Answer(co, middle, head.value, requestId, commit, c, now, draws);
    AccountedGrows(middle, after, more);
    AccountedTwice(log, middle, after, shares, more);
    shares := shares + more;
    if outcome.Persisted? {
      BuiltIsRecorded(HeadView(after), view.snapshot, requestId, consultationId, commit, round, status, content, now);
    }
    if NotYetAsked(seen, requestId, consultationId) {
      FreshRequestHasNoReplay(seen[|seen| - 1].snapshot.consultations, c);
    }
  }

  lemma AccountedGrows(first: Log, last: Log, shares: seq<Share>)
    requires Accounted(first, last, shares)
    ensures first != [] && first <= last && (shares == [] ==> last == first)
    ensures Reads(shares) > 0 ==> |first| < |last|
  {
    hide ShareHolds;
  }

  // ---------------------------------------------------------------- the loop

  lemma {:induction false} FlatAppend(rounds: seq<seq<nat>>, more: seq<nat>)
    ensures Flat(rounds + [more]) == Flat(rounds) + more
  {
    assert (rounds + [more])[..|rounds|] == rounds;
  }

  lemma NoRepeatsSum<T>(a: seq<T>, b: seq<T>)
    requires NoRepeats(a) && NoRepeats(b) && forall x | x in b :: x !in a
    ensures NoRepeats(a + b)
  {
    var s := a + b;
    forall i, j | 0 <= i < j < |s| ensures s[i] != s[j] {
      if i < |a| <= j {
        assert s[j] in b && s[i] in a;
      }
    }
  }

  /** The keys issued are among distinct keys none of which was used before. */
  lemma IssuedAreFresh(flat: seq<nat>, requests: seq<ReadDraft>, issued: seq<nat>)
    requires forall i | 0 <= i < |requests| :: requests[i].key.Some? && requests[i].key.value !in Elements(flat)
    requires forall i, j | 0 <= i < j < |requests| :: requests[i].key != requests[j].key
    requires issued <= KeysOf(requests)
    ensures NoRepeats(issued) && forall x | x in issued :: x !in flat
  {
    var keys := KeysOf(requests);
    forall i, j | 0 <= i < j < |issued| ensures issued[i] != issued[j] {
      assert issued[i] == keys[i] && issued[j] == keys[j];
    }
    forall i | 0 <= i < |issued| ensures issued[i] !in flat {
      assert issued[i] == keys[i] && keys[i] !in Elements(flat);
    }
  }

  lemma OneMoreRound(rounds: seq<seq<nat>>, issued: seq<nat>)
    requires |rounds| < MAX_ROUNDS && |issued| <= MAX_READS_PER_ROUND
    requires forall r | r in rounds :: |r| <= MAX_READS_PER_ROUND
    requires |Flat(rounds)| + |issued| <= MAX_READS_TOTAL && NoRepeats(Flat(rounds) + issued)
    ensures Bounded(rounds + [issued])
  {
    hide Flat, NoRepeats;
    FlatAppend(rounds, issued);
  }

  lemma BoundedParts(rounds: seq<seq<nat>>)
    requires Bounded(rounds)
    ensures forall r | r in rounds :: |r| <= MAX_READS_PER_ROUND
    ensures NoRepeats(Flat(rounds)) && |Elements(Flat(rounds))| == |Flat(rounds)| <= MAX_READS_TOTAL
  {
    hide Flat, NoRepeats;
    Replay.DistinctSeqSize(Flat(rounds));
  }

  /** Authorized requests stay within the budgets, however many of them were issued. */
  lemma RoundIsBounded(rounds: seq<seq<nat>>, requests: seq<ReadDraft>, issued: seq<nat>)
    requires Bounded(rounds) && |rounds| < MAX_ROUNDS
    requires |requests| <= MAX_READS_PER_ROUND && |requests| <= MAX_READS_TOTAL - |Elements(Flat(rounds))|
    requires forall i | 0 <= i < |requests| ::
      requests[i].key.Some? && requests[i].key.value !in Elements(Flat(rounds))
    requires forall i, j | 0 <= i < j < |requests| :: requests[i].key != requests[j].key
    requires issued <= KeysOf(requests)
    ensures Bounded(rounds + [issued])
  {
    hide Bounded, Flat, NoRepeats, Elements;
    BoundedParts(rounds);
    IssuedAreFresh(Flat(rounds), requests, issued);
    NoRepeatsSum(Flat(rounds), issued);
    OneMoreRound(rounds, issued);
  }

  /** What a run leaves behind where nobody else acts, compared with what it found. */
  ghost predicate RunEffect(before: Option<Log>, after: Option<Log>) {
    if before.None? || before.value == [] then after == before
    else
      && after.Some? && before.value <= after.value
      && Advisory(HeadView(before.value), HeadView(after.value))
  }

  /** Commits of the run's own only add evidence, acquisitions and at most one terminal consultation. */
  lemma {:induction false} OwnSharesAreAdvisory(first: Log, last: Log, shares: seq<Share>)
    requires Accounted(first, last, shares) && NoneTheirs(shares)
    ensures Answers(shares) == 0 ==> OnlyReads(HeadView(first), HeadView(last))
    ensures Answers(shares) <= 1 ==> Advisory(HeadView(first), HeadView(last))
    decreases |shares|
  {
    hide Accounted, Advisory, OnlyReads, ViewOf, Reads, Answers, NoneTheirs, ShareHolds, AllTheirs;
    AccountedGrows(first, last, shares);
    if shares == [] {
      AdvisoryItself(HeadView(first));
    } else {
      var n := |shares| - 1;
      var x := shares[n];
      AccountedPrefix(first, last, shares);
      assert shares == shares[..n] + [x];
      SharesSum(shares[..n], [x]);
      OwnOnly(x);
      OwnSharesAreAdvisory(first, last[..|last| - 1], shares[..n]);
      if Answers(shares) <= 1 {
        OneMoreShare(HeadView(first), last[|last| - 2], last[|last| - 1], x, Answers(shares[..n]) == 0);
      }
    }
  }

  lemma OwnOnly(x: Share)
    ensures NoneTheirs([x]) <==> !x.Theirs?
    ensures Answers([x]) == if x.OwnAnswer? then 1 else 0
  {
  }

  lemma AdvisoryItself(v: View)
    ensures OnlyReads(v, v) && Advisory(v, v)
  {
  }

  lemma AccountedPrefix(first: Log, last: Log, shares: seq<Share>)
    requires Accounted(first, last, shares) && shares != []
    ensures var n := |shares| - 1;
      && |last| >= 2 && Accounted(first, last[..|last| - 1], shares[..n])
      && HeadView(last[..|last| - 1]) == ViewOf(last[|last| - 2].snapshot)
      && ShareHolds(shares[n], last[|last| - 2], last[|last| - 1])
  {
    hide ShareHolds;
    var n := |shares| - 1;
    assert |first| + n == |last| - 1;
    forall i | 0 <= i < n
      ensures ShareHolds(shares[..n][i], last[..|last| - 1][|first| + i - 1], last[..|last| - 1][|first| + i])
    {
      assert ShareHolds(shares[i], last[|first| + i - 1], last[|first| + i]);
    }
  }

  lemma OneMoreShare(v: View, parent: Entry, child: Entry, x: Share, none: bool)
    requires ShareHolds(x, parent, child) && !x.Theirs?
    requires none ==> OnlyReads(v, ViewOf(parent.snapshot))
    requires none || x.OwnRead? ==> Advisory(v, ViewOf(parent.snapshot))
    ensures none && x.OwnRead? ==> OnlyReads(v, ViewOf(child.snapshot))
    ensures none || x.OwnRead? ==> Advisory(v, ViewOf(child.snapshot))
  {
    hide ViewOf;
  }

  /** The authorized reads of a round, and the head they lead to. If one fails, the run stays at the commit from before
      the round, whatever was committed in it. */
  method ReadAndReload(co: Coordinator, ghost log: Log, commit: CommitId, requestId: Id, round: nat,
                       actor: Option<Actor>, requests: seq<ReadDraft>, world: World)
    returns (issued: seq<nat>, readError: Option<Error>, reached: CommitId, view: Option<Entry>, ghost after: Log,
             ghost shares: seq<Share>)
    requires At(co.store, log)
    requires forall r | r in requests :: r.key.Some?
    modifies co.store
    ensures At(co.store, after) && OnReads(log, after, shares, |issued|, world)
    ensures issued <= KeysOf(requests) && (readError.None? ==> issued == KeysOf(requests))
    ensures readError.Some? ==> reached == commit && view.None?
    ensures view.Some? ==> view.value.snapshot.manifest.caseId == co.store.caseId
    ensures Names(log, commit) ==> Names(after, reached)
    ensures readError.None? && view.None? ==> Broken(co.store)
    ensures Retains(HeadView(log), HeadView(after))
    ensures view.Some? ==> view.value == after[|after| - 1]
    ensures view.Some? ==> forall d | d in requests :: WasRead(HeadView(after), requestId, round, d)
    ensures Alone(world) && readError.None? && requests != [] ==> reached == after[|after| - 1].record.commitId
    ensures Alone(world) && commit == log[|log| - 1].record.commitId ==> readError != Some(RevisionConflict)
  {
    hide Retains, WasRead, Valid, HistoryOf, SoundCase, ViewOf, HasHistory, EmptyCase, Accounted, Keeps, Reads, Answers,
         NoneTheirs, AllTheirs, RecordsOf, OwnCase, Names;
    view := None;
    reached, readError, issued, after, shares :=
      ExecuteReads(co, log, commit, requestId, round, actor, requests, world);
    if readError.Some? {
      reached := commit;
      StillNames(log, after, shares, commit);
      return;
    }
    ghost var was, more := after, [];
    after, more := LetOthersAct(co, after, world.rivals(BeforeReload(round)));
    AccountedTwice(log, was, after, shares, more);
    StillNames(was, after, more, reached);
    KeepsRetains(HeadView(was), HeadView(after));
    RetainsTwice(HeadView(log), HeadView(was), HeadView(after));
    ReadLater(HeadView(was), HeadView(after), requestId, round, requests);
    shares := shares + more;
    var reloaded := co.LoadLatestVerified();
    if reloaded.Ok? {
      OwnHead(after, co.store.caseId);
      view := Some(reloaded.value);
    }
  }

  predicate FreshId(log: Log, consultationId: Id)
    requires log != []
  {
    forall d | d in log[|log| - 1].snapshot.consultations :: d.consultationId != consultationId
  }

  lemma NoneWithRequest(consultations: seq<Consultation>, requestId: Id)
    requires FirstWith(consultations, ConsultationRequestKey, requestId).None?
    ensures forall d | d in consultations :: d.requestId != requestId
  {
    if consultations != [] {
      NoneWithRequest(consultations[1..], requestId);
      assert consultations == [consultations[0]] + consultations[1..];
    }
  }

  /** The run's own reads leave it as unknown to the case as it was. */
  lemma StillNotAsked(first: Log, log: Log, shares: seq<Share>, requestId: Id, consultationId: Id)
    requires Accounted(first, log, shares) && NoneTheirs(shares) && Answers(shares) == 0
    requires FirstWith(first[|first| - 1].snapshot.consultations, ConsultationRequestKey, requestId).None?
    requires FreshId(first, consultationId)
    ensures log != [] && NotYetAsked(log, requestId, consultationId)
  {
    hide Accounted, NoneTheirs, Answers;
    AccountedGrows(first, log, shares);
    OwnSharesAreAdvisory(first, log, shares);
    NoneWithRequest(first[|first| - 1].snapshot.consultations, requestId);
    forall d | d in log[|log| - 1].snapshot.consultations
      ensures d.requestId != requestId && d.consultationId != consultationId
    {
      assert d in HeadView(log).consultations && d in HeadView(first).consultations;
    }
  }

  /** The provider asks for reads, or it is done. */
  predicate Asks(reply: Reply) {
    && reply.Reply? && reply.proposal.wellFormed
    && reply.proposal.status.NeedsMoreEvidence? && reply.proposal.requests != []
  }

  predicate Settles(reply: Reply) {
    && reply.Reply? && reply.proposal.wellFormed
    && !reply.proposal.status.NeedsMoreEvidence? && reply.proposal.requests == []
  }

  /** All reads the provider asked for in this round were issued, and the case holds what they acquired. */
  predicate RoundDone(v: View, requestId: Id, round: nat, reply: Reply, issued: seq<nat>) {
    && Asks(reply) && issued == KeysOf(reply.proposal.requests)
    && forall d | d in reply.proposal.requests :: WasRead(v, requestId, round, d)
  }

  /** What a round leaves for the record: its own proposal, or the last one where the provider gave none. */
  function ContentOf(provider: nat -> Reply, round: nat): Fields {
    if round == 0 then Fields(true, 0)
    else match provider(round) case Reply(p) => p.content case ProviderError => ContentOf(provider, round - 1)
  }

  /** The run ended in this round with this status: all earlier ones are done, and in this one the provider settled it,
      or its reads were refused, or something failed. `rounds` holds the keys of the reads issued. */
  predicate EndedIn(provider: nat -> Reply, requestId: Id, limit: nat, rounds: seq<seq<nat>>, readError: Option<Error>,
                    seen: Snapshot, round: nat, status: ConsultationStatus)
  {
    && 1 <= round <= limit && round - 1 <= |rounds| <= round
    && (forall i | 1 <= i < round :: RoundDone(ViewOf(seen), requestId, i, provider(i), rounds[i - 1]))
    && if Settles(provider(round)) then |rounds| == round - 1 && status == provider(round).proposal.status
       else if !Asks(provider(round)) then |rounds| == round - 1 && status.ConsultationFailed?
       else if |rounds| == round - 1 then
         && status.ConsultationBlocked?
         && var prior := Elements(Flat(rounds));
            !Authorized(seen, provider(round).proposal.requests, prior, MAX_READS_TOTAL - |prior|)
       else
         && status.ConsultationFailed? && rounds[round - 1] <= KeysOf(provider(round).proposal.requests)
         && (readError.Some? || round == limit)
  }

  /** All rounds so far are done, and the view is the head they led to. */
  ghost predicate InRound(provider: nat -> Reply, requestId: Id, rounds: seq<seq<nat>>, view: Entry, log: Log,
                          round: nat, content: Fields)
  {
    && 1 <= round && |rounds| == round - 1 && log != [] && view == log[|log| - 1]
    && content == ContentOf(provider, round - 1)
    && forall i | 1 <= i < round :: RoundDone(ViewOf(view.snapshot), requestId, i, provider(i), rounds[i - 1])
  }

  lemma RoundsDoneLater(provider: nat -> Reply, requestId: Id, rounds: seq<seq<nat>>, v: View, w: View, n: nat)
    requires n <= |rounds| + 1 && Retains(v, w)
    requires forall i | 1 <= i < n :: RoundDone(v, requestId, i, provider(i), rounds[i - 1])
    ensures forall i | 1 <= i < n :: RoundDone(w, requestId, i, provider(i), rounds[i - 1])
  {
    hide Retains, WasRead, KeysOf;
    forall i | 1 <= i < n ensures RoundDone(w, requestId, i, provider(i), rounds[i - 1]) {
      assert RoundDone(v, requestId, i, provider(i), rounds[i - 1]);
      ReadLater(v, w, requestId, i, provider(i).proposal.requests);
    }
  }

  /** The reads of a run are within its budgets. */
  ghost predicate Spent(first: Log, log: Log, shares: seq<Share>, rounds: seq<seq<nat>>, world: World) {
    Bounded(rounds) && OnReads(first, log, shares, |Flat(rounds)|, world)
  }

  /** A round failed: the run stays at a commit from before it, which is no longer the head if a read of it was
      committed. */
  ghost predicate HeldBack(before: Log, log: Log, commit: CommitId, earlier: seq<Share>, shares: seq<Share>) {
    Names(before, commit) && before <= log && (Reads(earlier) < Reads(shares) ==> |before| < |log|)
  }

  lemma NothingSpent(first: Log, world: World)
    requires first != []
    ensures Spent(first, first, [], [], world)
  {
    NoReads(first, world);
  }

  /** The shares of a round join those before it, within the budgets. */
  lemma RoundIsSpent(first: Log, before: Log, log: Log, shares: seq<Share>, more: seq<Share>, rounds: seq<seq<nat>>,
                     s: Snapshot, requests: seq<ReadDraft>, issued: seq<nat>, commit: CommitId, world: World)
    requires Spent(first, before, shares, rounds, world) && OnReads(before, log, more, |issued|, world)
    requires |rounds| < MAX_ROUNDS
    requires var prior := Elements(Flat(rounds)); Authorized(s, requests, prior, MAX_READS_TOTAL - |prior|)
    requires issued <= KeysOf(requests) && Names(before, commit)
    ensures Spent(first, log, shares + more, rounds + [issued], world)
    ensures HeldBack(before, log, commit, shares, shares + more) && before <= log && log != []
  {
    hide Accounted, Bounded, Flat, Reads, Answers, NoneTheirs, KeysOf, Elements, Names;
    AccountedTwice(first, before, log, shares, more);
    AccountedGrows(before, log, more);
    RoundIsBounded(rounds, requests, issued);
    FlatAppend(rounds, issued);
  }

  lemma FirstRound(provider: nat -> Reply, requestId: Id, head: Entry, first: Log)
    requires first != [] && head == first[|first| - 1]
    ensures InRound(provider, requestId, [], head, first, 1, Fields(true, 0))
  {
  }

  lemma EndsAtOnce(provider: nat -> Reply, requestId: Id, limit: nat, rounds: seq<seq<nat>>, view: Entry, log: Log,
                   round: nat, content: Fields, status: ConsultationStatus)
    requires InRound(provider, requestId, rounds, view, log, round, content) && round <= limit
    requires var reply := provider(round);
      if Settles(reply) then status == reply.proposal.status
      else if !Asks(reply) then status.ConsultationFailed?
      else
        var prior := Elements(Flat(rounds));
        && status.ConsultationBlocked?
        && !Authorized(view.snapshot, reply.proposal.requests, prior, MAX_READS_TOTAL - |prior|)
    ensures EndedIn(provider, requestId, limit, rounds, None, view.snapshot, round, status) && view in log
  {
    hide RoundDone, Authorized, Flat;
  }

  lemma EndsReading(provider: nat -> Reply, requestId: Id, limit: nat, rounds: seq<seq<nat>>, issued: seq<nat>,
                    error: Error, view: Entry, before: Log, log: Log, round: nat, content: Fields)
    requires InRound(provider, requestId, rounds, view, before, round, content) && round <= limit && before <= log
    requires Asks(provider(round)) && issued <= KeysOf(provider(round).proposal.requests)
    ensures EndedIn(provider, requestId, limit, rounds + [issued], Some(error), view.snapshot, round,
                    ConsultationFailed)
    ensures view in log
  {
    hide RoundDone, Authorized, Flat, KeysOf;
    assert log[|before| - 1] == view;
  }

  lemma GoesOn(provider: nat -> Reply, requestId: Id, rounds: seq<seq<nat>>, view: Entry, before: Log, log: Log,
               round: nat, content: Fields)
    requires InRound(provider, requestId, rounds, view, before, round, content) && log != []
    requires Asks(provider(round)) && Retains(HeadView(before), HeadView(log))
    requires forall d | d in provider(round).proposal.requests :: WasRead(HeadView(log), requestId, round, d)
    ensures InRound(provider, requestId, rounds + [KeysOf(provider(round).proposal.requests)], log[|log| - 1], log,
                    round + 1, provider(round).proposal.content)
  {
    hide RoundDone, Retains, WasRead, KeysOf;
    RoundsDoneLater(provider, requestId, rounds, HeadView(before), HeadView(log), round);
    JustDone(HeadView(log), requestId, round, provider(round));
  }

  lemma JustDone(v: View, requestId: Id, round: nat, reply: Reply)
    requires Asks(reply) && forall d | d in reply.proposal.requests :: WasRead(v, requestId, round, d)
    ensures RoundDone(v, requestId, round, reply, KeysOf(reply.proposal.requests))
  {
  }

  lemma RunsOut(provider: nat -> Reply, requestId: Id, limit: nat, rounds: seq<seq<nat>>, view: Entry, log: Log,
                content: Fields)
    requires InRound(provider, requestId, rounds, view, log, limit + 1, content) && 1 <= limit
    ensures EndedIn(provider, requestId, limit, rounds, None, view.snapshot, limit, ConsultationFailed)
    ensures view in log
  {
    hide WasRead, Authorized, Flat, KeysOf;
    assert RoundDone(ViewOf(view.snapshot), requestId, limit, provider(limit), rounds[limit - 1]);
  }

  /** The rounds of a run, until the provider is done, something fails or the limit is reached. `before` is the history
      at the start of the last round with reads, and `earlier` are the shares of the rounds before it. */
  method RunRounds(co: Coordinator, ghost first: Log, head: Entry, requestId: Id, limit: nat, actor: Actor,
                   provider: nat -> Reply, world: World)
    returns (rounds: seq<seq<nat>>, readError: Option<Error>, view: Entry, commit: CommitId,
             status: ConsultationStatus, content: Fields, round: nat, ghost before: Log, ghost log: Log,
             ghost earlier: seq<Share>, ghost shares: seq<Share>)
    requires At(co.store, first) && head == first[|first| - 1] && 1 <= limit <= MAX_ROUNDS
    requires head.snapshot.manifest.caseId == co.store.caseId
    modifies co.store
    ensures |rounds| <= limit && 1 <= round <= limit
    ensures At(co.store, log) && Spent(first, log, shares, rounds, world)
    ensures view.snapshot.manifest.caseId == co.store.caseId
    ensures earlier <= shares
    ensures readError.Some? ==> rounds != [] && HeldBack(before, log, commit, earlier, shares)
    ensures Alone(world) && readError.None? ==> commit == log[|log| - 1].record.commitId
    ensures Alone(world) ==> readError != Some(RevisionConflict)
    ensures content == ContentOf(provider, round)
    ensures Broken(co.store)
        || (EndedIn(provider, requestId, limit, rounds, readError, view.snapshot, round, status) && view in log)
  {
    hide OnReads, Spent, HeldBack, InRound, EndedIn, Broken, Authorized, WasRead, Retains, Valid, HistoryOf, SoundCase,
         ViewOf, HasHistory, EmptyCase, Accounted, Flat, Reads, Answers, NoneTheirs, KeysOf, OwnCase, Names;
    rounds, readError, earlier, shares := [], None, [], [];
    NothingSpent(first, world);
    HeadIsNamed(first);
    view, commit, before, log := head, head.record.commitId, first, first;
    status, content, round := ConsultationFailed, Fields(true, 0), 1;
    var done := false;
    FirstRound(provider, requestId, head, first);
    while round <= limit && !done
      invariant 1 <= round <= limit + 1 && |rounds| <= round - (if done then 0 else 1) && (done ==> round <= limit)
      invariant At(co.store, log) && Spent(first, log, shares, rounds, world)
      invariant view.snapshot.manifest.caseId == co.store.caseId
      invariant earlier <= shares && (readError.None? ==> Names(log, commit))
      invariant readError.Some? ==> done && rounds != [] && HeldBack(before, log, commit, earlier, shares)
      invariant Alone(world) && readError.None? ==> commit == log[|log| - 1].record.commitId
      invariant Alone(world) ==> readError != Some(RevisionConflict)
      invariant !done ==> InRound(provider, requestId, rounds, view, log, round, content)
      invariant content == ContentOf(provider, if done then round else round - 1)
      invariant done ==>
        || Broken(co.store)
        || (EndedIn(provider, requestId, limit, rounds, readError, view.snapshot, round, status) && view in log)
      decreases limit - round, !done
    {
      match provider(round) {
        case ProviderError =>
          status, done := ConsultationFailed, true;
          EndsAtOnce(provider, requestId, limit, rounds, view, log, round, content, status);
        case Reply(p) =>
          ghost var last := content;
          content := p.content;
          if !ValidProposal(p) {
            status, done := ConsultationFailed, true;
            EndsAtOnce(provider, requestId, limit, rounds, view, log, round, last, status);
          } else if !p.status.NeedsMoreEvidence? {
            status, done := p.status, true;
            EndsAtOnce(provider, requestId, limit, rounds, view, log, round, last, status);
          } else {
            var prior := Elements(Flat(rounds));
            var ok := Authorize(view.snapshot, p.requests, prior, MAX_READS_TOTAL - |prior|);
            if !ok {
              status, done := ConsultationBlocked, true;
              EndsAtOnce(provider, requestId, limit, rounds, view, log, round, last, status);
            } else {
              AuthorizedHaveKeys(view.snapshot, p.requests, prior, MAX_READS_TOTAL - |prior|);
              ghost var more;
              var issued, reached, next;
              before, earlier := log, shares;
              issued, readError, reached, next, log, more :=
                ReadAndReload(co, before, commit, requestId, round, Some(actor), p.requests, world);
              RoundIsSpent(first, before, log, shares, more, rounds, view.snapshot, p.requests, issued, commit, world);
              if readError.Some? {
                EndsReading(provider, requestId, limit, rounds, issued, readError.value, view, before, log, round,
                            last);
              } else if next.Some? {
                GoesOn(provider, requestId, rounds, view, before, log, round, last);
              }
              shares, rounds, commit := shares + more, rounds + [issued], reached;
              match next {
                case None => status, done := ConsultationFailed, true;
                case Some(reloaded) => view, round := reloaded, round + 1;
              }
            }
          }
      }
    }
    if !done {
      RunsOut(provider, requestId, limit, rounds, view, log, content);
      status, round := ConsultationFailed, limit;
    }
  }

  /** The case holds a terminal record of the round that ended the run, made on `asked`, a commit of the case. */
  predicate Concluded(provider: nat -> Reply, requestId: Id, consultationId: Id, limit: nat, rounds: seq<seq<nat>>,
                      readError: Option<Error>, asked: Entry, past: Log, status: ConsultationStatus, round: nat)
  {
    && !status.NeedsMoreEvidence? && past != [] && asked in past
    && EndedIn(provider, requestId, limit, rounds, readError, asked.snapshot, round, status)
    && Recorded(HeadView(past), asked.snapshot, requestId, consultationId, status, round, ContentOf(provider, round))
  }

  /** How a run begins: a known request is answered from the case, the expected commit must be the head, and the case
      must be analyzed; otherwise it ends with an attempt to record its outcome. */
  predicate Begins(past: Log, requestId: Id, expected: Option<CommitId>, outcome: Outcome)
    requires past != []
  {
    var head := past[|past| - 1];
    if exists c | c in head.snapshot.consultations :: c.requestId == requestId then
      outcome.Replay? && outcome.stored in head.snapshot.consultations && outcome.stored.requestId == requestId
    else if expected.Some? && expected.value != head.record.commitId then outcome == RunError(RevisionConflict)
    else if head.snapshot.workflow.None? || !head.snapshot.workflow.value.state.Analyzed? then
      outcome == RunError(IllegalTransition)
    else outcome.Persisted? || outcome.NotPersisted?
  }

  lemma BeginsAs(past: Log, requestId: Id, expected: Option<CommitId>, outcome: Outcome)
    requires past != []
    requires var head := past[|past| - 1];
      var known := FirstWith(head.snapshot.consultations, ConsultationRequestKey, requestId);
      if known.Some? then outcome == Replay(known.value)
      else if expected.Some? && expected.value != head.record.commitId then outcome == RunError(RevisionConflict)
      else if CurrentState(head.snapshot) != Some(Analyzed) then outcome == RunError(IllegalTransition)
      else outcome.Persisted? || outcome.NotPersisted?
    ensures Begins(past, requestId, expected, outcome)
  {
    var consultations := past[|past| - 1].snapshot.consultations;
    if FirstWith(consultations, ConsultationRequestKey, requestId).None? {
      NoneWithRequest(consultations, requestId);
    }
  }

  /** `Run`: whatever the provider answers, whenever operations fail, wherever commits stop and whatever other
      coordinators do between its calls, the run ends within three rounds and eight reads, and of the commits it leaves
      at most eight are its reads and at most one is its answer, which never asks for more. What is persisted is what
      the first round that ends the run calls for, on the commit the provider was asked about last (`asked`). Where it
      is alone, the workflow of the case is untouched; and where a round failed after one of its reads was committed
      (`earlier` are the shares of the rounds before), there is no answer at all. */
  method Run(co: Coordinator, requestId: Id, consultationId: Id, expected: Option<CommitId>, given: Option<Actor>,
             maxRounds: int, provider: nat -> Reply, world: World)
    returns (outcome: Outcome, rounds: seq<seq<nat>>, readError: Option<Error>, ghost earlier: seq<Share>,
             ghost shares: seq<Share>, ghost asked: Option<Entry>)
    requires co.store.Past().Some? ==> OwnCase(co.store.Past().value, co.store.caseId)
    modifies co.store
    ensures Bounded(rounds)
    ensures 0 < maxRounds <= MAX_ROUNDS ==> |rounds| <= maxRounds
    ensures var past := old(co.store.Past());
      if past.None? || past.value == [] then co.store.Past() == past && shares == []
      else co.store.Past().Some? && Accounted(past.value, co.store.Past().value, shares)
    ensures Reads(shares) <= |Flat(rounds)| && Answers(shares) <= 1
    ensures Alone(world) ==> NoneTheirs(shares) && RunEffect(old(co.store.Past()), co.store.Past())
    ensures outcome.Persisted? ==>
      && co.store.Past().Some? && asked.Some?
      && Concluded(provider, requestId, consultationId, LimitOf(maxRounds), rounds, readError, asked.value,
                   co.store.Past().value, outcome.status, outcome.round)
    ensures outcome.NotPersisted? && Answers(shares) > 0 ==> outcome.error.OutcomeUnknown?
    ensures Alone(world) ==>
      && readError != Some(RevisionConflict)
      && (readError.None? ==> !(outcome.NotPersisted? && outcome.error.RevisionConflict?))
    ensures old(Broken(co.store)) <==> outcome.RunError? && (outcome.error.CaseNotFound? || outcome.error.CaseCorrupt?)
    ensures !old(Broken(co.store)) ==>
      && old(co.store.Past()).Some? && old(co.store.Past()).value != []
      && Begins(old(co.store.Past()).value, requestId, expected, outcome)
    ensures outcome.RunError? || outcome.Replay? ==> co.store.Past() == old(co.store.Past()) && rounds == []
    ensures earlier <= shares && (readError.Some? ==> rounds != [] && !outcome.RunError? && !outcome.Replay?)
    ensures var past := old(co.store.Past());
      readError.Some? && Reads(earlier) < Reads(shares) && Alone(world) && past.Some? && past.value != []
      && FreshId(past.value, consultationId) ==>
        outcome.NotPersisted? && Answers(shares) == 0
  {
    hide Concluded, RunEffect, Begins, Spent, HeldBack, EndedIn, ContentOf, Valid, HistoryOf, SoundCase, ViewOf,
         HasHistory, Bounded, Recorded, EmptyCase, Accounted, Flat, Reads, Answers, NoneTheirs, CurrentState, FirstWith,
         Advisory, NotYetAsked, OwnCase, FreshId;
    ShareCounts();
    rounds, readError, earlier, shares, asked := [], None, [], [], None;
    EmptyIsBounded();
    ghost var start := co.store.Past();
    var loaded := co.LoadLatestVerified();
    if loaded.Err? {
      NothingDone(start);
      if start.Some? && start.value != [] { AccountedNone(start.value); }
      return RunError(loaded.error), [], None, [], [], None;
    }
    ghost var first := start.value;
    AccountedNone(first);
    NothingDone(start);
    var view := loaded.value;
    OwnHead(first, co.store.caseId);
    var existing := FirstWith(view.snapshot.consultations, ConsultationRequestKey, requestId);
    if existing.Some? {
      BeginsAs(first, requestId, expected, Replay(existing.value));
      return Replay(existing.value), [], None, [], [], None;
    }
    if expected.Some? && expected.value != view.record.commitId {
      BeginsAs(first, requestId, expected, RunError(RevisionConflict));
      return RunError(RevisionConflict), [], None, [], [], None;
    }
    if CurrentState(view.snapshot) != Some(Analyzed) {
      BeginsAs(first, requestId, expected, RunError(IllegalTransition));
      return RunError(IllegalTransition), [], None, [], [], None;
    }
    var limit := LimitOf(maxRounds);
    var commit, status, content, round;
    ghost var before, log;
    rounds, readError, view, commit, status, content, round, before, log, earlier, shares :=
      RunRounds(co, first, view, requestId, limit, OrElse(given, Actor.System), provider, world);
    ghost var seen, after, more, committed;
    outcome, seen, after, more, committed :=
      Persist(co, log, view, requestId, consultationId, commit, round, status, content, world.times(round),
              world.draws(round), world);
    BeginsAs(first, requestId, expected, outcome);
    if readError.Some? && Reads(earlier) < Reads(shares) && Alone(world) && FreshId(first, consultationId) {
      AnswerIsStale(co.store.Files(), co.store.caseId, first, before, log, after, earlier, shares, rounds, world,
                    commit, requestId, consultationId);
    }
    AnswerIsSpent(first, log, after, shares, more, rounds, world);
    asked := Some(view);
    if outcome.Persisted? {
      IsConcluded(provider, requestId, consultationId, limit, rounds, readError, view, log, after, status, round);
    }
    shares := shares + more;
  }

  /** The answer joins the reads. */
  lemma AnswerIsSpent(first: Log, log: Log, after: Log, shares: seq<Share>, more: seq<Share>, rounds: seq<seq<nat>>,
                      world: World)
    requires Spent(first, log, shares, rounds, world) && Accounted(log, after, more)
    requires Reads(more) == 0 && Answers(more) <= 1 && (Alone(world) ==> NoneTheirs(more))
    ensures Accounted(first, after, shares + more) && Bounded(rounds) && log <= after && after != []
    ensures Reads(shares + more) == Reads(shares) <= |Flat(rounds)| && Answers(shares + more) == Answers(more)
    ensures Alone(world) ==> NoneTheirs(shares + more) && RunEffect(Some(first), Some(after))
  {
    hide Accounted, Bounded, Flat, Reads, Answers, NoneTheirs, Advisory, ViewOf;
    AccountedTwice(first, log, after, shares, more);
    AccountedGrows(log, after, more);
    AccountedGrows(first, after, shares + more);
    if Alone(world) { OwnSharesAreAdvisory(first, after, shares + more); }
  }

  /** Alone, a run that was held back answers on a commit that is no longer the head. */
  lemma AnswerIsStale(d: Disk, caseId: Id, first: Log, before: Log, log: Log, after: Log, earlier: seq<Share>,
                      shares: seq<Share>, rounds: seq<seq<nat>>, world: World, commit: CommitId, requestId: Id,
                      consultationId: Id)
    requires HasHistory(d, caseId, after) && log <= after && Alone(world)
    requires Spent(first, log, shares, rounds, world) && HeldBack(before, log, commit, earlier, shares)
    requires Reads(earlier) < Reads(shares) && FreshId(first, consultationId)
    requires FirstWith(first[|first| - 1].snapshot.consultations, ConsultationRequestKey, requestId).None?
    ensures log != [] && NotYetAsked(log, requestId, consultationId) && commit != log[|log| - 1].record.commitId
  {
    hide HasHistory, Accounted, Bounded, Flat, Reads, Answers, NoneTheirs, Names, FreshId, NotYetAsked, FirstWith;
    StillNotAsked(first, log, shares, requestId, consultationId);
    NamedBefore(d, caseId, before, log, after, commit);
  }

  lemma IsConcluded(provider: nat -> Reply, requestId: Id, consultationId: Id, limit: nat, rounds: seq<seq<nat>>,
                    readError: Option<Error>, asked: Entry, log: Log, after: Log, status: ConsultationStatus,
                    round: nat)
    requires EndedIn(provider, requestId, limit, rounds, readError, asked.snapshot, round, status)
    requires asked in log && log <= after
    requires Recorded(HeadView(after), asked.snapshot, requestId, consultationId, TerminalStatus(status), round,
                      ContentOf(provider, round))
    ensures TerminalStatus(status) == status
    ensures Concluded(provider, requestId, consultationId, limit, rounds, readError, asked, after, status, round)
  {
    hide RoundDone, Authorized, Flat, KeysOf, ContentOf, Recorded;
    InPrefix(log, after, asked);
  }

  lemma InPrefix(log: Log, after: Log, e: Entry)
    requires log <= after && e in log
    ensures e in after
  {
    var k := Manifests.AtIndex(log, e);
    assert after[k] == e;
  }

  /** A limit out of range counts as the greatest one. */
  function LimitOf(maxRounds: int): (limit: nat)
    ensures 1 <= limit <= MAX_ROUNDS
  {
    if maxRounds <= 0 || maxRounds > MAX_ROUNDS then MAX_ROUNDS else maxRounds
  }

  function ConsultationRequestKey(c: Consultation): Id { c.requestId }

  lemma EmptyIsBounded()
    ensures Bounded([])
  {
  }

  lemma NothingDone(past: Option<Log>)
    ensures RunEffect(past, past)
  {
    if past.Some? && past.value != [] {
      SameReads(HeadView(past.value));
    }
  }

  lemma AuthorizedHaveKeys(s: Snapshot, requests: seq<ReadDraft>, prior: set<nat>, budget: int)
    requires Authorized(s, requests, prior, budget)
    ensures forall r | r in requests :: r.key.Some?
  {
  }
}
