/** Promotion as a step system: any number of pushers, their phases interleaved one
    transaction at a time, crashes (a pusher that takes no further step), lost
    compare-and-swaps and claims reclaimed rightly or wrongly. No lock is modelled:
    nothing proved here needs one. */
module Protocol {
  import opened Options
  import opened Ordering
  import opened Paths
  import opened Trees
  import opened Envelopes
  import opened Selection
  import opened Chain
  import opened RefTransactions
  import opened BatchChains

  /** The ref store, what the pushers hold in memory, and the record of the run:
      history is every value integration took, log the batches that landed,
      promoted and rejected which batch settled an id. */
  datatype State = State(
    refs: Refs,
    accepted: map<Id, Member>,
    batches: map<BatchId, Batch>,
    verdicts: map<BatchId, bool>,
    history: seq<Commit>,
    log: seq<Batch>,
    promoted: map<Id, nat>,
    rejected: map<Id, BatchId>)

  datatype Action =
    | Bootstrap(head: Commit)
    | Accept(member: Member, base: Commit)
    | Claim(batch: BatchId, snapshot: Commit, view: View, texts: seq<string>)
    | Verify(batch: BatchId, passed: bool)
    | Land(batch: BatchId)
    | Release(batch: BatchId)
    | Retire(batch: BatchId)

  const START := State(map[], map[], map[], map[], [], [], map[], map[])

  function AcceptLines(m: Member): seq<Line> {
    [Create(Candidate(m.id), EnvelopeBlob(m.envelope)), Create(Proposal(m.id), CommitObject(m.proposal))]
  }

  /** An envelope Capture minted for this proposal, against the tree integ. */
  predicate Minted(m: Member, integ: Tree) {
    && WellFormed(integ) && WellFormed(m.proposal.tree) && CanonicalPaths(m.envelope.writeSet)
    && CapturedFrom(m.envelope, integ, m.proposal.tree)
  }

  /** What the one who takes the step knows before. A candidate was captured from some
      value integration had, now or long ago. A claim may come of any view at all, read
      at any time, in any order; only the snapshot is one commit. */
  predicate Enabled(s: State, a: Action) {
    match a
    case Bootstrap(head) => WellFormed(head.tree)
    case Accept(m, base) => m.id != "" && m.id !in s.accepted && base in s.history && Minted(m, base.tree)
    case Claim(id, snapshot, view, texts) =>
      && id !in s.batches && view.snapshot == snapshot.tree
      && Select(view).Done? && Select(view).choice.members != []
      && |texts| == |Select(view).choice.members|
    case Verify(id, _) => id in s.batches && id !in s.verdicts
    case Land(id) => id in s.batches && id in s.verdicts && s.verdicts[id]
    case Release(id) => id in s.batches
    case Retire(id) => id in s.batches && id in s.verdicts && !s.verdicts[id] && |s.batches[id].members| == 1
  }

  function Claimed(id: BatchId, snapshot: Commit, view: View, texts: seq<string>): Batch
    requires Select(view).Done? && |texts| == |Select(view).choice.members|
  {
    var ms := Select(view).choice.members;
    Batch(id, snapshot, ms, texts, BuildChain(snapshot, ms, texts))
  }

  /** The one ref transaction the step runs. */
  function Lines(s: State, a: Action): seq<Line>
    requires Enabled(s, a)
  {
    match a
    case Bootstrap(head) => [Create(Integration, CommitObject(head))]
    case Accept(m, _) => AcceptLines(m)
    case Claim(id, snapshot, view, texts) =>
      [Create(Promoting(id), CommitObject(Claimed(id, snapshot, view, texts).tip))]
    case Verify(_, _) => []
    case Land(id) => LandLines(s.batches[id])
    case Release(id) => [DropClaim(s.batches[id])]
    case Retire(id) => RetireLines(s.batches[id])
  }

  function LandedAt(ms: seq<Member>, n: nat): map<Id, nat> {
    map i | 0 <= i < |ms| :: ms[i].id := n
  }

  /** What the run's record gains when the step's transaction went through. */
  function Recorded(s: State, a: Action, refs: Refs): State
    requires Enabled(s, a)
  {
    var t := s.(refs := refs);
    match a
    case Bootstrap(head) => t.(history := s.history + [head])
    case Accept(m, _) => t.(accepted := s.accepted[m.id := m])
    case Claim(id, snapshot, view, texts) => t.(batches := s.batches[id := Claimed(id, snapshot, view, texts)])
    case Verify(id, passed) => t.(verdicts := s.verdicts[id := passed])
    case Land(id) =>
      var b := s.batches[id];
      t.(history := s.history + [b.tip], log := s.log + [b], promoted := s.promoted + LandedAt(b.members, |s.log|))
    case Release(_) => t
    case Retire(id) => t.(rejected := s.rejected[s.batches[id].members[0].id := id])
  }

  /** One step. A transaction that fails leaves everything as it was. */
  function Next(s: State, a: Action): State {
    if !Enabled(s, a) then s
    else if a.Verify? then Recorded(s, a, s.refs)
    else
      match Transact(s.refs, Lines(s, a))
      case Ok(refs) => Recorded(s, a, refs)
      case Err(_) => s
  }

  /** A run: the steps of every pusher, in whatever order they took effect. */
  function Run(s: State, steps: seq<Action>): State {
    if |steps| == 0 then s else Next(Run(s, steps[..|steps| - 1]), steps[|steps| - 1])
  }

  // --- what every step keeps ------------------------------------------------

  predicate Settled(s: State, id: Id) {
    id in s.promoted || id in s.rejected
  }

  /** The refs of one id: both or neither, and what acceptance wrote. */
  predicate CandidateRefs(s: State, id: Id) {
    if id in s.accepted && !Settled(s, id) then
      && Candidate(id) in s.refs && s.refs[Candidate(id)] == EnvelopeBlob(s.accepted[id].envelope)
      && Proposal(id) in s.refs && s.refs[Proposal(id)] == CommitObject(s.accepted[id].proposal)
    else Candidate(id) !in s.refs && Proposal(id) !in s.refs
  }

  ghost predicate QueueOk(s: State) {
    && (forall id :: CandidateRefs(s, id))
    && (forall id :: Settled(s, id) ==> id in s.accepted)
    && (forall id :: !(id in s.promoted && id in s.rejected))
  }

  ghost predicate AcceptedOk(accepted: map<Id, Member>) {
    forall id :: id in accepted ==> Sound(accepted[id].envelope)
  }

  /** A batch as phase 1 builds one, whatever it read. */
  ghost predicate Built(b: Batch) {
    && b.members != [] && |b.texts| == |b.members| && DistinctIds(b.members)
    && Batchable(b.snapshot.tree, b.members)
    && b.tip == BuildChain(b.snapshot, b.members, b.texts)
  }

  ghost predicate BatchesOk(batches: map<BatchId, Batch>) {
    forall k :: k in batches ==> Built(batches[k])
  }

  ghost predicate KeysOk(s: State) {
    && (forall id :: id in s.accepted ==> s.accepted[id].id == id && id != "")
    && (forall k :: k in s.batches ==> s.batches[k].id == k && s.batches[k].members != [])
    && (forall k :: k in s.verdicts ==> k in s.batches)
  }

  ghost predicate ClaimsOk(s: State) {
    forall k :: Promoting(k) in s.refs ==>
      k in s.batches && s.refs[Promoting(k)] == CommitObject(s.batches[k].tip)
  }

  ghost predicate MemberLanded(s: State, n: nat, m: Member) {
    m.id in s.accepted && s.accepted[m.id] == m && m.id in s.promoted && s.promoted[m.id] == n
  }

  /** Landing n: a batch that passed verify, built on the value it replaced, whose
      claim is gone. */
  ghost predicate LandingOk(s: State, n: nat)
    requires n < |s.log| && n + 1 < |s.history|
  {
    var b := s.log[n];
    && b.id in s.batches && s.batches[b.id] == b && b.id in s.verdicts && s.verdicts[b.id]
    && b.snapshot == s.history[n] && b.tip == s.history[n + 1]
    && Promoting(b.id) !in s.refs
    && (forall k :: 0 <= k < |b.members| ==> MemberLanded(s, n, b.members[k]))
  }

  ghost predicate HistoryOk(s: State) {
    && (Integration in s.refs <==> s.history != [])
    && (s.history == [] ==> s.log == [])
    && (s.history != [] ==> |s.history| == |s.log| + 1 && s.refs[Integration] == CommitObject(s.history[|s.log|]))
    && (forall n :: 0 <= n < |s.log| ==> LandingOk(s, n))
  }

  ghost predicate PromotedOk(s: State) {
    forall id :: id in s.promoted ==> s.promoted[id] < |s.log| && Names(s.log[s.promoted[id]].members, id)
  }

  ghost predicate RejectedBy(s: State, id: Id, k: BatchId)
    requires id in s.accepted
  {
    && k in s.batches && s.batches[k].members == [s.accepted[id]]
    && k in s.verdicts && !s.verdicts[k]
    && Promoting(k) !in s.refs
  }

  /** A rejection names the batch that held this candidate alone and failed. */
  ghost predicate RejectedOk(s: State) {
    forall id :: id in s.rejected ==> id in s.accepted && RejectedBy(s, id, s.rejected[id])
  }

  /** The ref store against the record. */
  ghost predicate RefsOk(s: State) {
    KeysOk(s) && QueueOk(s) && ClaimsOk(s) && HistoryOk(s) && PromotedOk(s) && RejectedOk(s)
  }

  /** The content of what is on record: sound candidates, honestly built batches. */
  ghost predicate RecordsOk(s: State) {
    AcceptedOk(s.accepted) && BatchesOk(s.batches)
  }

  ghost predicate TreesOk(history: seq<Commit>) {
    forall n :: 0 <= n < |history| ==> WellFormed(history[n].tree)
  }

  /** e was captured from one of these values of integration. */
  ghost predicate CapturedFromOne(e: Envelope, history: seq<Commit>) {
    exists i, prop :: 0 <= i < |history| && CapturedFrom(e, history[i].tree, prop)
  }

  ghost predicate CapturedOk(s: State) {
    forall id :: id in s.accepted ==> CapturedFromOne(s.accepted[id].envelope, s.history)
  }

  ghost predicate Inv(s: State) {
    RefsOk(s) && RecordsOk(s) && TreesOk(s.history) && CapturedOk(s)
  }

  lemma StartOk()
    ensures Inv(START)
  {
  }

  /** What is on record stays there, and no claim once gone comes back. */
  ghost predicate Grows(s: State, t: State) {
    && (forall k :: k in s.batches ==> k in t.batches && t.batches[k] == s.batches[k])
    && (forall k :: k in s.batches && Promoting(k) in t.refs ==> Promoting(k) in s.refs)
    && (forall k :: k in s.verdicts ==> k in t.verdicts && t.verdicts[k] == s.verdicts[k])
    && (forall id :: id in s.accepted ==> id in t.accepted && t.accepted[id] == s.accepted[id])
    && (forall id :: id in s.promoted ==> id in t.promoted && t.promoted[id] == s.promoted[id])
    && (forall id :: id in s.rejected ==> id in t.rejected && t.rejected[id] == s.rejected[id])
    && s.history <= t.history && s.log <= t.log
  }

  lemma LandingStays(s: State, t: State, n: nat)
    requires n < |s.log| && n + 1 < |s.history| && LandingOk(s, n) && Grows(s, t)
    ensures LandingOk(t, n)
  {
    forall k | 0 <= k < |s.log[n].members| ensures MemberLanded(t, n, s.log[n].members[k]) {
      assert MemberLanded(s, n, s.log[n].members[k]);
    }
  }

  lemma LandingsStay(s: State, t: State)
    requires HistoryOk(s) && Grows(s, t)
    ensures forall n :: 0 <= n < |s.log| ==> n + 1 < |t.history| && LandingOk(t, n)
  {
    forall n | 0 <= n < |s.log| ensures n + 1 < |t.history| && LandingOk(t, n) {
      LandingStays(s, t, n);
    }
  }

  lemma RejectionsStay(s: State, t: State)
    requires RejectedOk(s) && Grows(s, t)
    ensures forall id :: id in s.rejected ==> id in t.accepted && RejectedBy(t, id, t.rejected[id])
  {
    forall id | id in s.rejected ensures id in t.accepted && RejectedBy(t, id, t.rejected[id]) {
      assert RejectedBy(s, id, s.rejected[id]);
    }
  }

  /** Steps that settle no candidate and write none. */
  ghost predicate QueueSame(s: State, t: State) {
    && t.accepted == s.accepted && t.promoted == s.promoted && t.rejected == s.rejected
    && forall id :: SameAt(s.refs, t.refs, Candidate(id)) && SameAt(s.refs, t.refs, Proposal(id))
  }

  lemma QueueStays(s: State, t: State)
    requires QueueOk(s) && QueueSame(s, t)
    ensures QueueOk(t)
  {
    forall id ensures CandidateRefs(t, id) {
      assert CandidateRefs(s, id);
      assert SameAt(s.refs, t.refs, Candidate(id)) && SameAt(s.refs, t.refs, Proposal(id));
    }
  }

  /** Steps that leave integration alone. */
  lemma HistoryStays(s: State, t: State)
    requires HistoryOk(s) && PromotedOk(s) && RejectedOk(s) && Grows(s, t) && SameAt(s.refs, t.refs, Integration)
    requires t.history == s.history && t.log == s.log && t.promoted == s.promoted
    ensures HistoryOk(t) && PromotedOk(t)
  {
    LandingsStay(s, t);
  }

  /** A script of one line. */
  lemma OneLine(refs: Refs, u: Line)
    ensures Transact(refs, [u]) == if LineHolds(refs, u) then Ok(Apply(refs, u)) else Err(LineError(refs, u))
  {
    assert [u][..0] == [] && [u][1..] == [];
    assert ApplyAll(refs, [u]) == Apply(ApplyAll(refs, []), u);
  }

  lemma BootstrapKeeps(s: State, head: Commit)
    requires RefsOk(s) && Integration !in s.refs
    ensures var t := s.(refs := s.refs[Integration := CommitObject(head)], history := s.history + [head]);
      RefsOk(t) && Grows(s, t)
  {
    var t := s.(refs := s.refs[Integration := CommitObject(head)], history := s.history + [head]);
    assert t.history == [head];
    QueueStays(s, t);
    assert forall k :: Promoting(k) in t.refs ==> Promoting(k) in s.refs && t.refs[Promoting(k)] == s.refs[Promoting(k)];
    RejectionsStay(s, t);
  }

  lemma AcceptedRefs(refs: Refs, m: Member)
    requires Transact(refs, AcceptLines(m)).Ok?
    ensures Transact(refs, AcceptLines(m)).value
      == refs[Candidate(m.id) := EnvelopeBlob(m.envelope)][Proposal(m.id) := CommitObject(m.proposal)]
  {
    var us := AcceptLines(m);
    assert us[..1] == [us[0]] && [us[0]][..0] == [];
    assert ApplyAll(refs, us) == Apply(Apply(ApplyAll(refs, []), us[0]), us[1]);
  }

  function WithCandidate(s: State, m: Member): State {
    s.(refs := s.refs[Candidate(m.id) := EnvelopeBlob(m.envelope)][Proposal(m.id) := CommitObject(m.proposal)],
      accepted := s.accepted[m.id := m])
  }

  lemma AcceptQueue(s: State, m: Member)
    requires QueueOk(s) && m.id !in s.accepted
    ensures QueueOk(WithCandidate(s, m))
  {
    var t := WithCandidate(s, m);
    forall id ensures CandidateRefs(t, id) {
      assert CandidateRefs(s, id);
    }
    assert forall id :: Settled(t, id) ==> Settled(s, id);
  }

  lemma AcceptKeeps(s: State, m: Member)
    requires RefsOk(s) && m.id != "" && m.id !in s.accepted
    ensures RefsOk(WithCandidate(s, m)) && Grows(s, WithCandidate(s, m))
  {
    var t := WithCandidate(s, m);
    assert forall k :: Promoting(k) in t.refs ==> Promoting(k) in s.refs && t.refs[Promoting(k)] == s.refs[Promoting(k)];
    AcceptQueue(s, m);
    HistoryStays(s, t);
    RejectionsStay(s, t);
  }

  function WithClaim(s: State, b: Batch): State {
    s.(refs := s.refs[Promoting(b.id) := CommitObject(b.tip)], batches := s.batches[b.id := b])
  }

  lemma ClaimGrows(s: State, b: Batch)
    requires KeysOk(s) && ClaimsOk(s) && b.id !in s.batches && b.members != []
    ensures KeysOk(WithClaim(s, b)) && ClaimsOk(WithClaim(s, b)) && Grows(s, WithClaim(s, b))
    ensures QueueSame(s, WithClaim(s, b)) && SameAt(s.refs, WithClaim(s, b).refs, Integration)
  {
    var t := WithClaim(s, b);
    assert forall k :: k != b.id && Promoting(k) in t.refs ==>
      Promoting(k) in s.refs && t.refs[Promoting(k)] == s.refs[Promoting(k)];
  }

  lemma ClaimKeeps(s: State, b: Batch)
    requires RefsOk(s) && b.id !in s.batches && b.members != []
    ensures RefsOk(WithClaim(s, b)) && Grows(s, WithClaim(s, b))
  {
    var t := WithClaim(s, b);
    ClaimGrows(s, b);
    QueueStays(s, t);
    HistoryStays(s, t);
    RejectionsStay(s, t);
  }

  lemma VerifyKeeps(s: State, id: BatchId, passed: bool)
    requires RefsOk(s) && id in s.batches && id !in s.verdicts
    ensures var t := s.(verdicts := s.verdicts[id := passed]); RefsOk(t) && Grows(s, t)
  {
    var t := s.(verdicts := s.verdicts[id := passed]);
    QueueStays(s, t);
    HistoryStays(s, t);
    RejectionsStay(s, t);
  }

  lemma ReleaseKeeps(s: State, id: BatchId)
    requires RefsOk(s)
    ensures var t := s.(refs := s.refs - {Promoting(id)}); RefsOk(t) && Grows(s, t)
  {
    var t := s.(refs := s.refs - {Promoting(id)});
    QueueStays(s, t);
    assert forall k :: Promoting(k) in t.refs ==> Promoting(k) in s.refs && t.refs[Promoting(k)] == s.refs[Promoting(k)];
    HistoryStays(s, t);
    RejectionsStay(s, t);
  }

  /** A batch whose transaction goes through holds exactly what was accepted, even
      if phase 1 read something else. */
  lemma IntactIsAccepted(s: State, m: Member)
    requires QueueOk(s) && KeysOk(s) && MemberIntact(s.refs, m)
    ensures m.id in s.accepted && s.accepted[m.id] == m && !Settled(s, m.id)
  {
    assert CandidateRefs(s, m.id);
  }

  lemma LandedIds(ms: seq<Member>, n: nat)
    ensures forall id :: id in LandedAt(ms, n) <==> Names(ms, id)
    ensures forall id :: id in LandedAt(ms, n) ==> LandedAt(ms, n)[id] == n
  {
    forall id ensures id in LandedAt(ms, n) <==> Names(ms, id) {
      if Names(ms, id) {
        var i :| 0 <= i < |ms| && ms[i].id == id;
        assert ms[i].id in LandedAt(ms, n);
      }
    }
  }

  /** A batch every member of which is still waiting, as accepted. */
  ghost predicate AllWaiting(s: State, ms: seq<Member>) {
    forall id :: Names(ms, id) ==> id in s.accepted && !Settled(s, id)
  }

  ghost predicate AsAccepted(s: State, ms: seq<Member>) {
    forall k :: 0 <= k < |ms| ==> ms[k].id in s.accepted && s.accepted[ms[k].id] == ms[k]
  }

  function WithLanding(s: State, b: Batch, refs: Refs): State {
    s.(refs := refs, history := s.history + [b.tip], log := s.log + [b],
      promoted := s.promoted + LandedAt(b.members, |s.log|))
  }

  ghost predicate JustLanded(s: State, t: State, b: Batch) {
    && t == WithLanding(s, b, t.refs)
    && LandedRefs(s.refs, b, t.refs)
    && AllWaiting(s, b.members) && AsAccepted(s, b.members)
  }

  lemma LandGrows(s: State, t: State, b: Batch)
    requires JustLanded(s, t, b)
    ensures Grows(s, t)
    ensures forall id :: id in t.promoted <==> id in s.promoted || Names(b.members, id)
    ensures forall id :: Names(b.members, id) ==> t.promoted[id] == |s.log|
  {
    LandedIds(b.members, |s.log|);
    assert forall k :: Promoting(k) in t.refs ==> k != b.id && SameAt(s.refs, t.refs, Promoting(k));
    assert forall id :: id in s.promoted ==> Settled(s, id);
  }

  lemma LandQueue(s: State, t: State, b: Batch)
    requires QueueOk(s) && JustLanded(s, t, b)
    ensures QueueOk(t)
  {
    LandGrows(s, t, b);
    forall id ensures CandidateRefs(t, id) {
      assert CandidateRefs(s, id);
      if !Names(b.members, id) {
        assert SameAt(s.refs, t.refs, Candidate(id)) && SameAt(s.refs, t.refs, Proposal(id));
      }
    }
  }

  lemma LandHistory(s: State, t: State, b: Batch)
    requires HistoryOk(s) && JustLanded(s, t, b) && Intact(s.refs, b)
    requires b.id in s.batches && s.batches[b.id] == b && b.id in s.verdicts && s.verdicts[b.id]
    ensures HistoryOk(t)
  {
    LandGrows(s, t, b);
    LandingsStay(s, t);
    var n := |s.log|;
    forall k | 0 <= k < |b.members| ensures MemberLanded(t, n, b.members[k]) {
      assert Names(b.members, b.members[k].id);
    }
    assert LandingOk(t, n);
  }

  lemma LandClaims(s: State, t: State, b: Batch)
    requires ClaimsOk(s) && JustLanded(s, t, b)
    ensures ClaimsOk(t)
  {
    assert forall k :: Promoting(k) in t.refs ==> k != b.id && SameAt(s.refs, t.refs, Promoting(k));
  }

  lemma LandPromoted(s: State, t: State, b: Batch)
    requires PromotedOk(s) && JustLanded(s, t, b)
    ensures PromotedOk(t)
  {
    LandGrows(s, t, b);
    forall id | id in t.promoted ensures t.promoted[id] < |t.log| && Names(t.log[t.promoted[id]].members, id) {
      if !Names(b.members, id) {
        assert Names(s.log[s.promoted[id]].members, id);
      }
    }
  }

  lemma LandWaiting(s: State, ms: seq<Member>)
    requires QueueOk(s) && KeysOk(s) && forall k :: 0 <= k < |ms| ==> MemberIntact(s.refs, ms[k])
    ensures AllWaiting(s, ms) && AsAccepted(s, ms)
  {
    forall k | 0 <= k < |ms| ensures ms[k].id in s.accepted && s.accepted[ms[k].id] == ms[k] && !Settled(s, ms[k].id) {
      IntactIsAccepted(s, ms[k]);
    }
  }

  lemma LandKeeps(s: State, b: Batch, refs: Refs)
    requires RefsOk(s) && Intact(s.refs, b) && LandedRefs(s.refs, b, refs)
    requires b.id in s.batches && s.batches[b.id] == b && b.id in s.verdicts && s.verdicts[b.id]
    ensures RefsOk(WithLanding(s, b, refs)) && Grows(s, WithLanding(s, b, refs))
    ensures AsAccepted(s, b.members)
  {
    var t := WithLanding(s, b, refs);
    LandWaiting(s, b.members);
    LandGrows(s, t, b);
    LandQueue(s, t, b);
    LandHistory(s, t, b);
    LandClaims(s, t, b);
    LandPromoted(s, t, b);
    RejectionsStay(s, t);
  }

  function WithRejection(s: State, b: Batch, refs: Refs): State
    requires |b.members| == 1
  {
    s.(refs := refs, rejected := s.rejected[b.members[0].id := b.id])
  }

  lemma RetireQueue(s: State, b: Batch, refs: Refs)
    requires QueueOk(s) && |b.members| == 1 && RetiredRefs(s.refs, b, refs)
    requires b.members[0].id in s.accepted && !Settled(s, b.members[0].id)
    ensures QueueOk(WithRejection(s, b, refs))
  {
    var t := WithRejection(s, b, refs);
    forall x ensures CandidateRefs(t, x) {
      assert CandidateRefs(s, x);
      if x != b.members[0].id {
        assert SameAt(s.refs, t.refs, Candidate(x)) && SameAt(s.refs, t.refs, Proposal(x));
      }
    }
  }

  lemma RetireGrows(s: State, b: Batch, refs: Refs)
    requires KeysOk(s) && ClaimsOk(s) && |b.members| == 1 && RetiredRefs(s.refs, b, refs)
    requires b.id in s.batches && s.batches[b.id] == b && b.id in s.verdicts && !s.verdicts[b.id]
    requires b.members[0].id !in s.rejected && b.members[0].id in s.accepted && s.accepted[b.members[0].id] == b.members[0]
    ensures var t := WithRejection(s, b, refs);
      KeysOk(t) && ClaimsOk(t) && Grows(s, t) && RejectedBy(t, b.members[0].id, b.id)
  {
    var t := WithRejection(s, b, refs);
    assert forall k :: Promoting(k) in t.refs ==> k != b.id && SameAt(s.refs, t.refs, Promoting(k));
    assert b.members == [b.members[0]];
  }

  lemma RetireKeeps(s: State, b: Batch, refs: Refs)
    requires RefsOk(s) && |b.members| == 1 && MemberIntact(s.refs, b.members[0]) && RetiredRefs(s.refs, b, refs)
    requires b.id in s.batches && s.batches[b.id] == b && b.id in s.verdicts && !s.verdicts[b.id]
    ensures RefsOk(WithRejection(s, b, refs)) && Grows(s, WithRejection(s, b, refs))
  {
    var t := WithRejection(s, b, refs);
    IntactIsAccepted(s, b.members[0]);
    RetireGrows(s, b, refs);
    RetireQueue(s, b, refs);
    HistoryStays(s, t);
    RejectionsStay(s, t);
  }

  lemma NextAccept(s: State, m: Member, base: Commit)
    requires RefsOk(s)
    ensures RefsOk(Next(s, Accept(m, base))) && Grows(s, Next(s, Accept(m, base)))
  {
    if Enabled(s, Accept(m, base)) && Transact(s.refs, AcceptLines(m)).Ok? {
      AcceptedRefs(s.refs, m);
      AcceptKeeps(s, m);
    }
  }

  lemma NextClaim(s: State, id: BatchId, snapshot: Commit, view: View, texts: seq<string>)
    requires RefsOk(s)
    ensures RefsOk(Next(s, Claim(id, snapshot, view, texts))) && Grows(s, Next(s, Claim(id, snapshot, view, texts)))
  {
    if Enabled(s, Claim(id, snapshot, view, texts)) {
      var b := Claimed(id, snapshot, view, texts);
      OneLine(s.refs, Create(Promoting(id), CommitObject(b.tip)));
      ClaimKeeps(s, b);
    }
  }

  lemma NextLand(s: State, id: BatchId)
    requires RefsOk(s)
    ensures RefsOk(Next(s, Land(id))) && Grows(s, Next(s, Land(id)))
  {
    if Enabled(s, Land(id)) {
      var b := s.batches[id];
      LandExactly(s.refs, b);
      if Transact(s.refs, LandLines(b)).Ok? {
        LandKeeps(s, b, Transact(s.refs, LandLines(b)).value);
      }
    }
  }

  lemma NextRetire(s: State, id: BatchId)
    requires RefsOk(s)
    ensures RefsOk(Next(s, Retire(id))) && Grows(s, Next(s, Retire(id)))
  {
    if Enabled(s, Retire(id)) {
      var b := s.batches[id];
      RetireExactly(s.refs, b);
      if Transact(s.refs, RetireLines(b)).Ok? {
        RetireKeeps(s, b, Transact(s.refs, RetireLines(b)).value);
      }
    }
  }

  lemma NextRelease(s: State, id: BatchId)
    requires RefsOk(s)
    ensures RefsOk(Next(s, Release(id))) && Grows(s, Next(s, Release(id)))
  {
    if Enabled(s, Release(id)) {
      OneLine(s.refs, DropClaim(s.batches[id]));
      ReleaseKeeps(s, id);
    }
  }

  lemma NextBootstrap(s: State, head: Commit)
    requires RefsOk(s)
    ensures RefsOk(Next(s, Bootstrap(head))) && Grows(s, Next(s, Bootstrap(head)))
  {
    OneLine(s.refs, Create(Integration, CommitObject(head)));
    if Integration !in s.refs { BootstrapKeeps(s, head); }
  }

  /** The ref store stays true to the record through any step. */
  lemma NextRefs(s: State, a: Action)
    requires RefsOk(s)
    ensures RefsOk(Next(s, a)) && Grows(s, Next(s, a))
  {
    match a
    case Bootstrap(head) => NextBootstrap(s, head);
    case Accept(m, base) => NextAccept(s, m, base);
    case Claim(id, snapshot, view, texts) => NextClaim(s, id, snapshot, view, texts);
    case Verify(id, passed) =>
      if Enabled(s, a) { VerifyKeeps(s, id, passed); }
    case Land(id) => NextLand(s, id);
    case Release(id) => NextRelease(s, id);
    case Retire(id) => NextRetire(s, id);
  }

  lemma SelectionBuilt(id: BatchId, snapshot: Commit, view: View, texts: seq<string>)
    requires view.snapshot == snapshot.tree && Select(view).Done? && Select(view).choice.members != []
    requires |texts| == |Select(view).choice.members|
    ensures Built(Claimed(id, snapshot, view, texts))
  {
    var k := SelectionAccounts(view);
    var ms := Select(view).choice.members;
    forall i, j | 0 <= i < j < |ms| ensures ms[i].id != ms[j].id {
      Trichotomy(ms[i].id, ms[j].id);
    }
  }

  lemma AcceptRecords(s: State, m: Member, base: Commit)
    requires RecordsOk(s)
    ensures RecordsOk(Next(s, Accept(m, base)))
  {
    if Enabled(s, Accept(m, base)) {
      CapturedIsSound(m.envelope, base.tree, m.proposal.tree);
    }
  }

  lemma ClaimRecords(s: State, id: BatchId, snapshot: Commit, view: View, texts: seq<string>)
    requires RecordsOk(s)
    ensures RecordsOk(Next(s, Claim(id, snapshot, view, texts)))
  {
    if Enabled(s, Claim(id, snapshot, view, texts)) {
      SelectionBuilt(id, snapshot, view, texts);
    }
  }

  lemma NextRecords(s: State, a: Action)
    requires RecordsOk(s)
    ensures RecordsOk(Next(s, a))
  {
    if a.Accept? {
      AcceptRecords(s, a.member, a.base);
    } else if a.Claim? {
      ClaimRecords(s, a.batch, a.snapshot, a.view, a.texts);
    }
  }

  /** The batch theorem where it counts: what lands on a well-formed tree is
      well-formed. */
  lemma LandTree(s: State, b: Batch)
    requires AcceptedOk(s.accepted) && Built(b) && AsAccepted(s, b.members) && WellFormed(b.snapshot.tree)
    ensures Applies(b.snapshot.tree, b.members) && WellFormed(b.tip.tree)
  {
    ChainRestsOn(b.snapshot, b.members, b.texts);
    ChainWellFormed(b.snapshot.tree, b.members);
  }

  lemma TreesOneMore(history: seq<Commit>, c: Commit)
    requires TreesOk(history)
    ensures WellFormed(c.tree) ==> TreesOk(history + [c])
  {
  }

  lemma IntactTree(s: State, b: Batch)
    requires RefsOk(s) && AcceptedOk(s.accepted) && TreesOk(s.history) && Built(b) && Intact(s.refs, b)
    ensures WellFormed(b.tip.tree)
  {
    LandWaiting(s, b.members);
    assert b.snapshot == s.history[|s.log|];
    LandTree(s, b);
  }

  lemma LandTrees(s: State, id: BatchId)
    requires RefsOk(s) && RecordsOk(s) && TreesOk(s.history)
    ensures TreesOk(Next(s, Land(id)).history)
  {
    if Enabled(s, Land(id)) {
      var b := s.batches[id];
      LandExactly(s.refs, b);
      assert Built(b);
      if Transact(s.refs, LandLines(b)).Ok? { IntactTree(s, b); }
      TreesOneMore(s.history, b.tip);
    }
  }

  lemma OtherTrees(s: State, a: Action)
    requires TreesOk(s.history) && !a.Land?
    ensures TreesOk(Next(s, a).history)
  {
  }

  lemma NextTrees(s: State, a: Action)
    requires RefsOk(s) && RecordsOk(s) && TreesOk(s.history)
    ensures TreesOk(Next(s, a).history)
  {
    if a.Land? { LandTrees(s, a.batch); } else { OtherTrees(s, a); }
  }

  lemma CapturedStays(e: Envelope, history: seq<Commit>, longer: seq<Commit>)
    requires CapturedFromOne(e, history) && history <= longer
    ensures CapturedFromOne(e, longer)
  {
    var i, prop :| 0 <= i < |history| && CapturedFrom(e, history[i].tree, prop);
    assert longer[i] == history[i];
  }

  lemma NewlyAccepted(s: State, a: Action, id: Id)
    requires id in Next(s, a).accepted && id !in s.accepted
    ensures CapturedFromOne(Next(s, a).accepted[id].envelope, Next(s, a).history)
  {
    assert a.Accept?;
    var i :| 0 <= i < |s.history| && s.history[i] == a.base;
    assert CapturedFrom(a.member.envelope, s.history[i].tree, a.member.proposal.tree);
  }

  lemma NextCaptured(s: State, a: Action)
    requires CapturedOk(s) && Grows(s, Next(s, a))
    ensures CapturedOk(Next(s, a))
  {
    var t := Next(s, a);
    forall id | id in t.accepted ensures CapturedFromOne(t.accepted[id].envelope, t.history) {
      if id in s.accepted {
        CapturedStays(s.accepted[id].envelope, s.history, t.history);
      } else {
        NewlyAccepted(s, a, id);
      }
    }
  }

  /** Every step of every pusher keeps the invariant, and the record only grows. */
  lemma NextKeeps(s: State, a: Action)
    requires Inv(s)
    ensures Inv(Next(s, a)) && Grows(s, Next(s, a))
  {
    NextRefs(s, a);
    NextRecords(s, a);
    NextTrees(s, a);
    NextCaptured(s, a);
  }

  lemma {:induction false} RunKeeps(s: State, steps: seq<Action>)
    requires Inv(s)
    ensures Inv(Run(s, steps)) && Grows(s, Run(s, steps))
  {
    if |steps| > 0 {
      RunKeeps(s, steps[..|steps| - 1]);
      NextKeeps(Run(s, steps[..|steps| - 1]), steps[|steps| - 1]);
    }
  }
}
