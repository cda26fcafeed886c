/** What every run of the promotion protocol guarantees: one linear integration
    history, no candidate lost or settled twice, no way back for a reclaimed claim. */
module Histories {
  import opened Options
  import opened Paths
  import opened Trees
  import opened Envelopes
  import opened Selection
  import opened Chain
  import opened RefTransactions
  import opened BatchChains
  import opened Protocol
  import Admission

  lemma Reached(steps: seq<Action>)
    ensures Inv(Run(START, steps))
  {
    StartOk();
    RunKeeps(START, steps);
  }

  ghost predicate LandedFresh(base: Commit, b: Batch, i: nat)
    requires i < |b.members| == |b.texts|
  {
    Admission.PreimagesHold(b.members[i].envelope.transitions, BuildChain(base, b.members[..i], b.texts[..i]).tree)
  }

  /** Landing n, in full: it passed verify, was built on exactly the value it
      replaced, one single-parent commit a member, and every member still read its
      preimages at the commit its own was built on. */
  ghost predicate HonestLanding(s: State, n: nat)
    requires n < |s.log| && n + 1 < |s.history|
  {
    var b := s.log[n];
    && b.id in s.verdicts && s.verdicts[b.id]
    && b.members != [] && |b.texts| == |b.members|
    && s.history[n + 1] == BuildChain(s.history[n], b.members, b.texts)
    && Back(s.history[n + 1], |b.members|) == Some(s.history[n])
    && (forall i :: 0 <= i < |b.members| ==> LandedFresh(s.history[n], b, i))
  }

  lemma LandingApplies(s: State, n: nat)
    requires Inv(s) && n < |s.log|
    ensures |s.history| == |s.log| + 1 && Built(s.log[n])
    ensures Applies(s.history[n].tree, s.log[n].members)
    ensures s.history[n + 1].tree == ChainTree(s.history[n].tree, s.log[n].members)
  {
    var b := s.log[n];
    assert LandingOk(s, n);
    forall k | 0 <= k < |b.members| ensures Sound(b.members[k].envelope) {
      assert MemberLanded(s, n, b.members[k]);
    }
    ChainRestsOn(b.snapshot, b.members, b.texts);
  }

  predicate HoldsIntegration(s: State, c: Commit) {
    Integration in s.refs && s.refs[Integration] == CommitObject(c)
  }

  /** Safety: whatever the interleaving, integration moves only by honest landings,
      through well-formed trees, and its ref holds the last of them. */
  lemma LinearHistory(steps: seq<Action>)
    ensures var s := Run(START, steps);
      && (s.history == [] ==> Integration !in s.refs)
      && (s.history != [] ==> |s.history| == |s.log| + 1 && HoldsIntegration(s, s.history[|s.log|]))
      && (forall n :: 0 <= n < |s.history| ==> WellFormed(s.history[n].tree))
      && (forall n :: 0 <= n < |s.log| ==> n + 1 < |s.history| && HonestLanding(s, n))
  {
    var s := Run(START, steps);
    Reached(steps);
    forall n | 0 <= n < |s.log| ensures n + 1 < |s.history| && HonestLanding(s, n) {
      var b := s.log[n];
      LandingApplies(s, n);
      assert LandingOk(s, n);
      ChainRestsOn(b.snapshot, b.members, b.texts);
      forall i | 0 <= i < |b.members| ensures LandedFresh(s.history[n], b, i) {
        PreimagesAtOwnBase(s.history[n].tree, b.members, i);
        ChainRestsOn(s.history[n], b.members[..i], b.texts[..i]);
      }
    }
  }

  /** The values integration takes form one chain: each descends from every one
      before it, first parent by first parent. */
  lemma {:induction false} OneChain(steps: seq<Action>, i: nat, j: nat)
    requires i <= j < |Run(START, steps).history|
    ensures Ancestor(Run(START, steps).history[i], Run(START, steps).history[j])
    decreases j
  {
    var s := Run(START, steps);
    if i == j {
      assert Back(s.history[i], 0) == Some(s.history[i]);
    } else {
      OneChain(steps, i, j - 1);
      LinearHistory(steps);
      assert HonestLanding(s, j - 1);
      var b := s.log[j - 1];
      AncestorStep(s.history[i], s.history[j], s.history[j - 1], b.members, b.texts);
    }
  }

  function MembersOf(bs: seq<Batch>): seq<seq<Member>> {
    seq(|bs|, i requires 0 <= i < |bs| => bs[i].members)
  }

  ghost predicate Step(t: Tree, ms: seq<Member>, after: Tree) {
    Applies(t, ms) && after == ChainTree(t, ms)
  }

  /** Landing by landing, as far as the trees are concerned. */
  ghost predicate LandsAll(history: seq<Commit>, log: seq<Batch>) {
    && |history| == |log| + 1
    && forall n :: 0 <= n < |log| ==> Step(history[n].tree, log[n].members, history[n + 1].tree)
  }

  lemma RunLandsAll(s: State)
    requires Inv(s) && s.history != []
    ensures LandsAll(s.history, s.log)
  {
    forall n | 0 <= n < |s.log| ensures Step(s.history[n].tree, s.log[n].members, s.history[n + 1].tree) {
      LandingApplies(s, n);
    }
  }

  /** What a list of landings makes of a tree. */
  ghost predicate LeadsTo(t: Tree, bs: seq<seq<Member>>, after: Tree) {
    LandsInTurn(t, bs) && Landed(t, bs) == after
  }

  lemma LeadsOn(t: Tree, front: seq<seq<Member>>, mid: Tree, ms: seq<Member>, after: Tree, bs: seq<seq<Member>>)
    requires LeadsTo(t, front, mid) && Step(mid, ms, after) && bs == front + [ms]
    ensures LeadsTo(t, bs, after)
  {
    assert bs[..|front|] == front;
    forall n | 0 <= n < |bs| ensures Applies(Landed(t, bs[..n]), bs[n]) {
      if n < |front| { assert bs[..n] == front[..n] && bs[n] == front[n]; }
    }
  }

  lemma LeadsNowhere(t: Tree, bs: seq<seq<Member>>)
    requires |bs| == 0
    ensures LeadsTo(t, bs, t)
  {
  }

  lemma MembersOfLast(log: seq<Batch>, i: nat, j: nat)
    requires i < j <= |log|
    ensures MembersOf(log[i..j]) == MembersOf(log[i..j - 1]) + [log[j - 1].members]
  {
  }

  lemma LeadsByOne(history: seq<Commit>, log: seq<Batch>, i: nat, j: nat)
    requires LandsAll(history, log) && i < j < |history|
    requires LeadsTo(history[i].tree, MembersOf(log[i..j - 1]), history[j - 1].tree)
    ensures LeadsTo(history[i].tree, MembersOf(log[i..j]), history[j].tree)
  {
    assert Step(history[j - 1].tree, log[j - 1].members, history[j].tree);
    MembersOfLast(log, i, j);
    LeadsOn(history[i].tree, MembersOf(log[i..j - 1]), history[j - 1].tree, log[j - 1].members, history[j].tree, MembersOf(log[i..j]));
  }

  /** From any value on, the tree is what the later batches wrote, each selected
      against the integration it landed on. */
  lemma {:induction false} TreesAreLandings(history: seq<Commit>, log: seq<Batch>, i: nat, j: nat)
    requires LandsAll(history, log) && i <= j < |history|
    ensures LeadsTo(history[i].tree, MembersOf(log[i..j]), history[j].tree)
    decreases j
  {
    if i == j {
      LeadsNowhere(history[i].tree, MembersOf(log[i..j]));
    } else {
      TreesAreLandings(history, log, i, j - 1);
      LeadsByOne(history, log, i, j);
    }
  }

  /** Between two values of a run's integration, the landings that made one of the
      other. */
  lemma LandingsBetween(steps: seq<Action>, i: nat, j: nat)
    requires i <= j < |Run(START, steps).history|
    ensures j <= |Run(START, steps).log|
    ensures var s := Run(START, steps);
      WellFormed(s.history[i].tree) && LeadsTo(s.history[i].tree, MembersOf(s.log[i..j]), s.history[j].tree)
  {
    Reached(steps);
    RunLandsAll(Run(START, steps));
    TreesAreLandings(Run(START, steps).history, Run(START, steps).log, i, j);
  }

  /** In every run, promotion makes no directory: one that is there now was there at
      every earlier value of integration. */
  lemma NoNewDirectories(steps: seq<Action>, i: nat, j: nat, d: Path)
    requires i <= j < |Run(START, steps).history|
    requires HasBeneath(Run(START, steps).history[j].tree, d)
    ensures HasBeneath(Run(START, steps).history[i].tree, d)
  {
    LandingsBetween(steps, i, j);
    var s := Run(START, steps);
    LandedDirectories(s.history[i].tree, MembersOf(s.log[i..j]), d);
  }

  lemma CapturedReads(steps: seq<Action>, j: nat, e: Envelope)
    requires j < |Run(START, steps).history| && CapturedFromOne(e, Run(START, steps).history[..j + 1])
    ensures AllReadable(e.transitions, Run(START, steps).history[j].tree)
  {
    var s := Run(START, steps);
    var i, prop :| 0 <= i < j + 1 && CapturedFrom(e, s.history[..j + 1][i].tree, prop);
    LandingsBetween(steps, i, j);
    forall k | 0 <= k < |e.transitions| ensures Readable(s.history[j].tree, e.transitions[k].path) {
      assert e.transitions[k] == CapturedTransition(s.history[i].tree, prop, e.writeSet[k]);
      LandedReadable(s.history[i].tree, MembersOf(s.log[i..j]), e.transitions[k].path);
    }
  }

  /** So a candidate captured by the time of the snapshot can be read in it: the round
      that looks at such a queue can choose, whatever was promoted in between. */
  lemma CapturedQueueSelects(steps: seq<Action>, j: nat, v: View)
    requires j < |Run(START, steps).history| && v.snapshot == Run(START, steps).history[j].tree
    requires forall id :: id in v.candidates && v.candidates[id].EnvelopeBlob? ==>
      CapturedFromOne(v.candidates[id].envelope, Run(START, steps).history[..j + 1])
    ensures Select(v).Done?
  {
    forall id | id in v.candidates && v.candidates[id].EnvelopeBlob?
      ensures AllReadable(v.candidates[id].envelope.transitions, v.snapshot)
    {
      CapturedReads(steps, j, v.candidates[id].envelope);
    }
    ReadableQueueSelects(v);
  }

  /** None of e's paths is written by a landing between values i and j. */
  ghost predicate LeftAlone(s: State, i: nat, j: nat, e: Envelope)
    requires i <= j <= |s.log|
  {
    forall k :: 0 <= k < |e.transitions| ==> !WrittenBy(MembersOf(s.log[i..j]), e.transitions[k].path)
  }

  /** A candidate fresh at one value of integration, none of whose paths a later batch
      writes, still reads every preimage at any later value. It can only turn
      stale-ancestry, and does so exactly when a directory it needs is gone: every file
      that was in it has then been written away, and no longer exists. */
  lemma WaitingStaysFresh(steps: seq<Action>, i: nat, j: nat, e: Envelope)
    requires i <= j < |Run(START, steps).history| && j <= |Run(START, steps).log|
    requires Admission.Fresh(e, Run(START, steps).history[i].tree) && LeftAlone(Run(START, steps), i, j, e)
    ensures var s := Run(START, steps);
      var now := s.history[j].tree;
      && Admission.PreimagesHold(e.transitions, now)
      && ClassifyStale(e, now) == Ok(if Admission.AncestryHolds(e.ancestry, now) then None else Some(StaleAncestry))
      && (forall d, f :: d in e.ancestry && f in s.history[i].tree && Beneath(d, f) && !TreeAt(now, d) ==>
            WrittenBy(MembersOf(s.log[i..j]), f) && f !in now)
  {
    var s := Run(START, steps);
    LandingsBetween(steps, i, j);
    var t, now, bs := s.history[i].tree, s.history[j].tree, MembersOf(s.log[i..j]);
    WaitingVerdict(t, bs, e);
    forall k | 0 <= k < |e.transitions| ensures BlobAt(now, e.transitions[k].path) == Ok(e.transitions[k].expected) {
      WaitingPreimages(t, bs, e, k);
    }
    NeededAreTrees(e, t);
    forall d, f | d in e.ancestry && f in t && Beneath(d, f) && !TreeAt(now, d) ensures WrittenBy(bs, f) && f !in now {
      WaitingAncestry(t, bs, d, f);
    }
  }

  predicate Queued(s: State, id: Id) {
    Candidate(id) in s.refs && Proposal(id) in s.refs
  }

  /** Conservation: an accepted id is queued, promoted or rejected, exactly one of
      the three, and no other id is any of them. Its two refs come and go together
      and never change in between. */
  lemma Conservation(steps: seq<Action>, id: Id)
    ensures var s := Run(START, steps);
      && (id in s.accepted <==> Queued(s, id) || id in s.promoted || id in s.rejected)
      && !(Queued(s, id) && id in s.promoted) && !(Queued(s, id) && id in s.rejected)
      && !(id in s.promoted && id in s.rejected)
      && (Candidate(id) in s.refs <==> Proposal(id) in s.refs)
      && (Queued(s, id) ==> MemberIntact(s.refs, s.accepted[id].(id := id)))
  {
    Reached(steps);
    assert CandidateRefs(Run(START, steps), id);
  }

  lemma SameMember(ms: seq<Member>, k: nat, l: nat)
    requires DistinctIds(ms) && k < |ms| && l < |ms|
    ensures ms[k].id == ms[l].id ==> k == l
  {
  }

  /** No id is promoted twice, in one batch or in two. */
  lemma PromotedOnce(steps: seq<Action>, i: nat, k: nat, j: nat, l: nat)
    requires i < |Run(START, steps).log| && k < |Run(START, steps).log[i].members|
    requires j < |Run(START, steps).log| && l < |Run(START, steps).log[j].members|
    requires Run(START, steps).log[i].members[k].id == Run(START, steps).log[j].members[l].id
    ensures i == j && k == l
  {
    var s := Run(START, steps);
    Reached(steps);
    assert LandingOk(s, i) && LandingOk(s, j);
    assert MemberLanded(s, i, s.log[i].members[k]) && MemberLanded(s, j, s.log[j].members[l]);
    LandingApplies(s, i);
    SameMember(s.log[i].members, k, l);
  }

  /** What was promoted is what was accepted, and it is where the record says. */
  lemma PromotedAsAccepted(steps: seq<Action>, id: Id) returns (k: nat)
    requires id in Run(START, steps).promoted
    ensures var s := Run(START, steps);
      s.promoted[id] < |s.log| && k < |s.log[s.promoted[id]].members|
      && id in s.accepted && s.log[s.promoted[id]].members[k] == s.accepted[id]
  {
    var s := Run(START, steps);
    Reached(steps);
    var n := s.promoted[id];
    assert Names(s.log[n].members, id);
    k :| 0 <= k < |s.log[n].members| && s.log[n].members[k].id == id;
    assert LandingOk(s, n);
    assert MemberLanded(s, n, s.log[n].members[k]);
  }

  /** A candidate is rejected only after a chain holding it alone failed verify. */
  lemma RejectedAlone(steps: seq<Action>, id: Id)
    requires id in Run(START, steps).rejected
    ensures var s := Run(START, steps);
      var k := s.rejected[id];
      && id in s.accepted && k in s.batches && k in s.verdicts && !s.verdicts[k]
      && s.batches[k].members == [s.accepted[id]]
      && s.batches[k].tip.tree == PutAll(s.batches[k].snapshot.tree, s.accepted[id].envelope.transitions)
  {
    var s := Run(START, steps);
    Reached(steps);
    assert RejectedBy(s, id, s.rejected[id]);
    var b := s.batches[s.rejected[id]];
    assert Built(b);
    ChainRestsOn(b.snapshot, b.members, b.texts);
    assert b.members[..0] == [];
    assert ChainTree(b.snapshot.tree, b.members) == PutAll(ChainTree(b.snapshot.tree, []), b.members[0].envelope.transitions);
  }

  /** Only a batch whose claim still stands can land. */
  lemma LandsOnlyClaimed(s: State, a: Action)
    requires KeysOk(s)
    ensures Next(s, a).log == s.log ||
      (a.Land? && a.batch in s.batches && Promoting(a.batch) in s.refs && Next(s, a).log == s.log + [s.batches[a.batch]])
  {
    if Enabled(s, a) && a.Land? {
      LandExactly(s.refs, s.batches[a.batch]);
    }
  }

  lemma {:induction false} RunAppend(s: State, a: seq<Action>, b: seq<Action>)
    ensures Run(s, a + b) == Run(Run(s, a), b)
  {
    if |b| == 0 {
      assert a + b == a;
    } else {
      assert (a + b)[..|a + b| - 1] == a + b[..|b| - 1];
      RunAppend(s, a, b[..|b| - 1]);
    }
  }

  /** No batch k landed after the first n. */
  predicate NotSince(s: State, n: nat, k: BatchId) {
    forall i | n <= i < |s.log| :: s.log[i].id != k
  }

  lemma StepNotSince(s: State, a: Action, n: nat, k: BatchId)
    requires RefsOk(s) && k in s.batches && Promoting(k) !in s.refs && n <= |s.log| && NotSince(s, n, k)
    ensures var t := Next(s, a); k in t.batches && Promoting(k) !in t.refs && n <= |t.log| && NotSince(t, n, k)
  {
    NextRefs(s, a);
    LandsOnlyClaimed(s, a);
  }

  lemma {:induction false} RunNotSince(s: State, steps: seq<Action>, k: BatchId)
    requires RefsOk(s) && k in s.batches && Promoting(k) !in s.refs
    ensures var t := Run(s, steps);
      RefsOk(t) && k in t.batches && Promoting(k) !in t.refs && |s.log| <= |t.log| && NotSince(t, |s.log|, k)
  {
    if |steps| > 0 {
      RunNotSince(s, steps[..|steps| - 1], k);
      NextRefs(Run(s, steps[..|steps| - 1]), steps[|steps| - 1]);
      StepNotSince(Run(s, steps[..|steps| - 1]), steps[|steps| - 1], |s.log|, k);
    }
  }

  /** A pusher whose claim was taken away, by anyone and for any reason, can never
      land that batch: not in any continuation of the run. */
  lemma ReclaimedNeverLands(steps: seq<Action>, more: seq<Action>, k: BatchId)
    requires k in Run(START, steps).batches && Promoting(k) !in Run(START, steps).refs
    ensures var t := Run(START, steps + more);
      Promoting(k) !in t.refs && NotSince(t, |Run(START, steps).log|, k)
  {
    Reached(steps);
    RunAppend(START, steps, more);
    RunNotSince(Run(START, steps), more, k);
  }

  predicate SomeSettled(s: State, ms: seq<Member>) {
    exists i | 0 <= i < |ms| :: Settled(s, ms[i].id)
  }

  lemma MembersStand(s: State, ms: seq<Member>)
    requires QueueOk(s) && AsAccepted(s, ms)
    ensures forall i :: 0 <= i < |ms| ==>
      if Settled(s, ms[i].id) then MemberGone(s.refs, ms[i]) else MemberIntact(s.refs, ms[i])
  {
    forall i | 0 <= i < |ms|
      ensures if Settled(s, ms[i].id) then MemberGone(s.refs, ms[i]) else MemberIntact(s.refs, ms[i])
    {
      assert CandidateRefs(s, ms[i].id);
    }
  }

  /** A lost landing is requeued exactly when integration moved. If instead its claim
      was reclaimed or a member was settled by a peer, the transaction fails without
      the words of a lost compare-and-swap, and the run stops. */
  lemma RequeuedOnlyWhenMoved(steps: seq<Action>, k: BatchId)
    requires k in Run(START, steps).batches && Integration in Run(START, steps).refs
    requires AsAccepted(Run(START, steps), Run(START, steps).batches[k].members)
    ensures var s := Run(START, steps);
      var b := s.batches[k];
      var moved := s.refs[Integration] != CommitObject(b.snapshot);
      && (Transact(s.refs, LandLines(b)) == Err(CasLost) <==> moved)
      && (Transact(s.refs, LandLines(b)) == Err(Refused) <==> !moved && (Promoting(k) !in s.refs || SomeSettled(s, b.members)))
  {
    var s := Run(START, steps);
    Reached(steps);
    assert Built(s.batches[k]);
    MembersStand(s, s.batches[k].members);
    RequeuedExactly(s.refs, s.batches[k]);
  }
}
