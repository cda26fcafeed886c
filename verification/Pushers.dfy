/** One pusher's Promote call, as it runs beside any number of peers. */
module Pushers {
  import opened Options
  import opened Ordering
  import opened Trees
  import opened Envelopes
  import opened Selection
  import opened Choices
  import opened RefTransactions
  import opened BatchChains
  import opened Protocol
  import opened Histories
  import opened Diaries
  import Admission
  import Messages

  const DEFAULT_MAX_BATCH: nat := 3
  const DEFAULT_MAX_ROUNDS: nat := 4

  /** What can befall a transaction besides its own verdict: nothing, a failure before
      git saw it, or one after git carried it out. */
  datatype Fault = NoFault | Before | Behind

  /** What a promoting ref's own message says about it. */
  datatype ClaimVerdict = Dead | Spoken(ids: seq<Id>) | Blocking

  /** reclaimOnePromotion's verdict on one claim: a readable one is the owner's while
      it may live; an unreadable one still speaks for the ids it names, and one that
      names none stops the round. */
  function Judge(message: string, dead: bool): ClaimVerdict {
    match Messages.ReadClaim(message)
    case Ok(c) => if dead then Dead else Spoken(c.candidates)
    case Err(e) => if e.candidates == [] then Blocking else Spoken(e.candidates)
  }

  /** A step only the pusher that owns the batch takes. */
  predicate OwnerStep(a: Action, mine: set<BatchId>) {
    (a.Verify? || a.Land? || a.Retire?) && a.batch in mine
  }

  function Longest(used: seq<string>): (n: nat)
    ensures forall i :: 0 <= i < |used| ==> |used[i]| <= n
  {
    if used == [] then 0
    else
      var n := Longest(used[1..]);
      if |used[0]| > n then |used[0]| else n
  }

  /** An id nobody has used: longer than all of them. */
  function FreshId(used: seq<string>): (id: string)
    ensures id !in used
  {
    "b-" + seq(Longest(used), _ => '0')
  }

  function CandidateListing(refs: Refs): (m: map<Id, Object>)
    ensures forall id :: id in m <==> Candidate(id) in refs
    ensures forall id :: id in m ==> m[id] == refs[Candidate(id)]
  {
    var ids := set r | r in refs && r.Candidate? :: r.id;
    assert forall id :: Candidate(id) in refs ==> id in ids;
    map id | id in ids :: refs[Candidate(id)]
  }

  function ProposalListing(refs: Refs): map<Id, Envelopes.Commit> {
    var ids := set r | r in refs && r.Proposal? && refs[r].CommitObject? :: r.id;
    map id | id in ids && Proposal(id) in refs && refs[Proposal(id)].CommitObject? :: refs[Proposal(id)].commit
  }

  function ClaimListing(refs: Refs): (ks: set<BatchId>)
    ensures forall k :: k in ks <==> Promoting(k) in refs
  {
    var ks := set r | r in refs && r.Promoting? :: r.batch;
    assert forall k :: Promoting(k) in refs ==> k in ks;
    ks
  }

  // --- a run, as it gets longer ---------------------------------------------

  /** The store after the first n steps. */
  function At(trace: seq<Action>, n: nat): State
    requires n <= |trace|
  {
    Run(START, trace[..n])
  }

  /** What was on record is on record, and no claim once gone is back. */
  lemma Onward(a: seq<Action>, b: seq<Action>)
    requires a <= b
    ensures Inv(Run(START, a)) && Grows(Run(START, a), Run(START, b))
  {
    Reached(a);
    assert a + b[|a|..] == b;
    RunAppend(START, a, b[|a|..]);
    RunKeeps(Run(START, a), b[|a|..]);
  }

  /** Every batch of ours is on record. */
  ghost predicate Owned(mine: set<BatchId>, s: State) {
    forall k :: k in mine ==> k in s.batches
  }

  /** None of our own claims is left, those in ks aside. */
  ghost predicate Clean(mine: set<BatchId>, ks: set<BatchId>, s: State) {
    forall k :: k in mine && k !in ks ==> Promoting(k) !in s.refs
  }

  ghost predicate OnRecord(b: Batch, s: State) {
    b.id in s.batches && s.batches[b.id] == b
  }

  lemma OwnedStays(mine: set<BatchId>, a: seq<Action>, b: seq<Action>)
    requires a <= b && Owned(mine, Run(START, a))
    ensures Owned(mine, Run(START, b))
  {
    Onward(a, b);
  }

  lemma CleanStays(mine: set<BatchId>, ks: set<BatchId>, a: seq<Action>, b: seq<Action>)
    requires a <= b && Owned(mine, Run(START, a)) && Clean(mine, ks, Run(START, a))
    ensures Clean(mine, ks, Run(START, b))
  {
    Onward(a, b);
  }

  lemma RecordStays(b: Batch, t: seq<Action>, u: seq<Action>)
    requires t <= u && OnRecord(b, Run(START, t))
    ensures OnRecord(b, Run(START, u))
    ensures b.id in Run(START, t).verdicts ==>
      b.id in Run(START, u).verdicts && Run(START, u).verdicts[b.id] == Run(START, t).verdicts[b.id]
  {
    Onward(t, u);
  }

  /** A batch is on record under its own id. */
  lemma KeyOf(steps: seq<Action>, k: BatchId)
    requires k in Run(START, steps).batches
    ensures Run(START, steps).batches[k].id == k
  {
    Reached(steps);
  }

  /** Steps by peers leave the verdicts on our batches alone. */
  lemma PeersLeaveOurs(s: State, a: Action, mine: set<BatchId>)
    requires !OwnerStep(a, mine)
    ensures forall k :: k in mine && k in Next(s, a).verdicts ==> k in s.verdicts
  {
  }

  lemma LongerRun(trace: seq<Action>, a: Action)
    ensures Run(START, trace + [a]) == Next(Run(START, trace), a)
  {
    assert (trace + [a])[..|trace|] == trace;
  }

  // --- what a call may say --------------------------------------------------

  /** A transaction for a batch that names id found integration moved on. */
  ghost predicate LostAt(trace: seq<Action>, n: nat, b: Batch, id: Id)
    requires n <= |trace|
  {
    Names(b.members, id) && OnRecord(b, At(trace, n)) && Transact(At(trace, n).refs, LandLines(b)) == Err(CasLost)
  }

  ghost predicate RaceSeen(trace: seq<Action>, id: Id) {
    exists n: nat, b: Batch :: n <= |trace| && LostAt(trace, n, b, id)
  }

  ghost predicate True(o: Outcome, trace: seq<Action>) {
    match o.class_
    case Promoted => o.id in Run(START, trace).promoted
    case VerifyRed => o.id in Run(START, trace).rejected
    case PromotionRace => RaceSeen(trace, o.id)
    case _ => true
  }

  /** Every outcome that claims a settlement, or a race, is borne out by the run. */
  ghost predicate Honest(outcomes: seq<Outcome>, trace: seq<Action>) {
    forall i :: 0 <= i < |outcomes| ==> True(outcomes[i], trace)
  }

  /** At most one outcome a candidate. */
  ghost predicate OneEach(outcomes: seq<Outcome>) {
    forall i, j :: 0 <= i < j < |outcomes| ==> outcomes[i].id != outcomes[j].id
  }

  ghost predicate OnlyAbout(outcomes: seq<Outcome>, ids: set<Id>) {
    forall i :: 0 <= i < |outcomes| ==> outcomes[i].id in ids
  }

  function IdsOf(ms: seq<Member>): set<Id> {
    set i | 0 <= i < |ms| :: ms[i].id
  }

  lemma ClassifiedOnce(ms: seq<Member>)
    requires DistinctIds(ms)
    ensures forall c :: OneEach(ClassifyAll(ms, c)) && OnlyAbout(ClassifyAll(ms, c), IdsOf(ms))
  {
  }

  lemma TrueStays(o: Outcome, t: seq<Action>, u: seq<Action>)
    requires t <= u && True(o, t)
    ensures True(o, u)
  {
    Onward(t, u);
    if o.class_.PromotionRace? {
      var n: nat, b: Batch :| n <= |t| && LostAt(t, n, b, o.id);
      assert u[..n] == t[..n];
      assert LostAt(u, n, b, o.id);
    }
  }

  lemma HonestStays(outcomes: seq<Outcome>, t: seq<Action>, u: seq<Action>)
    requires t <= u && Honest(outcomes, t)
    ensures Honest(outcomes, u)
  {
    forall i | 0 <= i < |outcomes| ensures True(outcomes[i], u) {
      TrueStays(outcomes[i], t, u);
    }
  }

  /** Phase 1's outcomes, and an infrastructure failure's, claim nothing of the kind. */
  predicate ClaimsNothing(outcomes: seq<Outcome>) {
    forall i | 0 <= i < |outcomes| :: outcomes[i].class_ in {StalePreimage, StaleAncestry, VerifyInfra}
  }

  lemma NothingClaimed(outcomes: seq<Outcome>, trace: seq<Action>)
    requires ClaimsNothing(outcomes)
    ensures Honest(outcomes, trace)
  {
  }

  lemma InfraClaimsNothing(ms: seq<Member>, trace: seq<Action>)
    ensures Honest(ClassifyAll(ms, VerifyInfra), trace)
  {
    NothingClaimed(ClassifyAll(ms, VerifyInfra), trace);
  }

  lemma RaceHonest(b: Batch, t: seq<Action>, u: seq<Action>)
    requires t <= u && OnRecord(b, Run(START, t)) && Transact(Run(START, t).refs, LandLines(b)) == Err(CasLost)
    ensures Honest(ClassifyAll(b.members, PromotionRace), u)
  {
    assert t[..|t|] == t && u[..|t|] == t;
    forall i | 0 <= i < |b.members| ensures RaceSeen(u, b.members[i].id) {
      assert LostAt(u, |t|, b, b.members[i].id);
    }
  }

  /** Real ids are never empty, so one can name a solo round. */
  predicate IdsPlain(ms: seq<Member>) {
    forall i | 0 <= i < |ms| :: ms[i].id != ""
  }

  /** Outcomes of phase 1 alone: a stale candidate settles nothing. */
  predicate NoVerdicts(outcomes: seq<Outcome>) {
    forall i | 0 <= i < |outcomes| :: outcomes[i].class_ in {StalePreimage, StaleAncestry}
  }

  /** No candidate is both passed over and taken. */
  ghost predicate Apart(outcomes: seq<Outcome>, ms: seq<Member>) {
    forall i, j :: 0 <= i < |outcomes| && 0 <= j < |ms| ==> outcomes[i].id != ms[j].id
  }

  lemma PlainListing(steps: seq<Action>)
    ensures forall id :: id in CandidateListing(Run(START, steps).refs) ==> id != ""
  {
    Reached(steps);
    forall id | id in CandidateListing(Run(START, steps).refs) ensures id != "" {
      assert CandidateRefs(Run(START, steps), id);
    }
  }

  lemma ScannedMembers(v: View, ms: seq<Member>, seen: seq<Id>)
    requires MembersScanned(v, ms, seen) && forall id :: id in v.candidates ==> id != ""
    ensures DistinctIds(ms) && IdsPlain(ms) && (v.only != "" && ms != [] ==> IdsOf(ms) == {v.only})
  {
    forall i, j | 0 <= i < j < |ms| ensures ms[i].id != ms[j].id {
      Trichotomy(ms[i].id, ms[j].id);
    }
    forall i | 0 <= i < |ms| ensures ms[i].id != "" && (v.only != "" ==> ms[i].id == v.only) {
      assert FromView(v, ms[i]);
    }
    if v.only != "" && ms != [] {
      assert ms[0].id in IdsOf(ms);
    }
  }

  lemma ScannedOutcomes(v: View, c: Choice, seen: seq<Id>)
    requires OutcomesScanned(v, c, seen)
    ensures OneEach(c.outcomes) && NoVerdicts(c.outcomes) && Apart(c.outcomes, c.members)
    ensures v.only != "" ==> OnlyAbout(c.outcomes, {v.only})
  {
    forall i | 0 <= i < |c.outcomes|
      ensures c.outcomes[i].class_ in {StalePreimage, StaleAncestry} && (v.only != "" ==> c.outcomes[i].id == v.only)
    {
      assert StaleNow(v, c.outcomes[i]);
    }
  }

  /** A batch a selection could have chosen. */
  predicate PlainMembers(ms: seq<Member>) {
    ms != [] && DistinctIds(ms) && IdsPlain(ms)
  }

  /** What phase 1 needs of its selection. */
  lemma ChosenFacts(v: View)
    requires Select(v).Done? && forall id :: id in v.candidates ==> id != ""
    ensures var c := Select(v).choice;
      && OneEach(c.outcomes) && NoVerdicts(c.outcomes) && Apart(c.outcomes, c.members)
      && (c.members != [] ==> PlainMembers(c.members)) && |c.members| <= v.maxBatch
      && (v.only != "" ==> OnlyAbout(c.outcomes, {v.only}))
      && (v.only != "" && c.members != [] ==> IdsOf(c.members) == {v.only})
  {
    var k := SelectionAccounts(v);
    var seen := Listing(v.candidates.Keys)[..k];
    ScannedMembers(v, Select(v).choice.members, seen);
    ScannedOutcomes(v, Select(v).choice, seen);
  }

  lemma FailedOutcomes(v: View)
    requires Select(v).Failed?
    ensures OneEach(Select(v).outcomes) && NoVerdicts(Select(v).outcomes)
    ensures v.only != "" ==> OnlyAbout(Select(v).outcomes, {v.only})
  {
    var d, k := FailureAccounts(v);
    ScannedOutcomes(v, d, Listing(v.candidates.Keys)[..k]);
  }

  /** The step's transaction went through. */
  ghost predicate Carried(s: State, a: Action, t: State) {
    Enabled(s, a) && t == Next(s, a) && Transact(s.refs, Lines(s, a)).Ok?
  }

  lemma ClaimRecorded(s: State, id: BatchId, snapshot: Envelopes.Commit, view: View, texts: seq<string>)
    requires Carried(s, Claim(id, snapshot, view, texts), Next(s, Claim(id, snapshot, view, texts)))
    ensures var t := Next(s, Claim(id, snapshot, view, texts));
      id !in s.batches && t.batches == s.batches[id := Claimed(id, snapshot, view, texts)] && t.verdicts == s.verdicts
  {
  }

  lemma ClaimTaken(steps: seq<Action>, id: BatchId, snapshot: Envelopes.Commit, view: View, texts: seq<string>)
    requires Carried(Run(START, steps), Claim(id, snapshot, view, texts), Next(Run(START, steps), Claim(id, snapshot, view, texts)))
    ensures var t := Next(Run(START, steps), Claim(id, snapshot, view, texts));
      OnRecord(Claimed(id, snapshot, view, texts), t) && id !in t.verdicts && id !in Run(START, steps).batches
  {
    Reached(steps);
    ClaimRecorded(Run(START, steps), id, snapshot, view, texts);
  }

  function Limit(asked: int, default: nat): nat {
    if asked <= 0 then default else asked
  }

  ghost predicate AllTold(rounds: seq<seq<Outcome>>, trace: seq<Action>) {
    forall r :: 0 <= r < |rounds| ==> OneEach(rounds[r]) && Honest(rounds[r], trace)
  }

  lemma ToldStays(rounds: seq<seq<Outcome>>, t: seq<Action>, u: seq<Action>)
    requires AllTold(rounds, t) && t <= u
    ensures AllTold(rounds, u)
  {
    forall r | 0 <= r < |rounds| ensures Honest(rounds[r], u) {
      HonestStays(rounds[r], t, u);
    }
  }

  function Flatten(rounds: seq<seq<Outcome>>): seq<Outcome> {
    if |rounds| == 0 then [] else Flatten(rounds[..|rounds| - 1]) + rounds[|rounds| - 1]
  }

  lemma FlattenLast(rounds: seq<seq<Outcome>>, last: seq<Outcome>)
    ensures Flatten(rounds + [last]) == Flatten(rounds) + last
  {
    assert (rounds + [last])[..|rounds|] == rounds;
  }

  lemma Grow(i: nat, per: nat)
    ensures (i + 1) * per == i * per + per
  {
  }

  lemma {:induction false} AtMost(i: nat, limit: nat, per: nat)
    requires i <= limit
    ensures i * per <= limit * per
    decreases limit - i
  {
    if i < limit {
      Grow(i, per);
      AtMost(i + 1, limit, per);
    }
  }

  /** No more verifies than this many rounds allow: one a batch, and one for each of its
      members alone. */
  predicate Affords(was: nat, now: nat, rounds: nat, size: nat) {
    now <= was + rounds * (size + 1)
  }

  lemma Spend(now: nat, then_: nat, start: nat, i: nat, limit: nat, per: nat)
    requires now <= then_ + per && then_ <= start + i * per && i < limit
    ensures now <= start + (i + 1) * per && (i + 1) * per <= limit * per
  {
    Grow(i, per);
    AtMost(i + 1, limit, per);
  }

  lemma {:induction false} IdsCounted(ms: seq<Member>)
    requires DistinctIds(ms)
    ensures |IdsOf(ms)| == |ms|
  {
    if |ms| > 0 {
      var n := |ms| - 1;
      IdsCounted(ms[..n]);
      assert IdsOf(ms) == IdsOf(ms[..n]) + {ms[n].id};
      assert ms[n].id !in IdsOf(ms[..n]);
    }
  }

  lemma AccountsJoin(outcomes: seq<Outcome>, more: seq<Outcome>, ms: seq<Member>, i: nat)
    requires i < |ms| && DistinctIds(ms)
    requires OneEach(outcomes) && OnlyAbout(outcomes, IdsOf(ms[..i]))
    requires OneEach(more) && OnlyAbout(more, {ms[i].id})
    ensures OneEach(outcomes + more) && OnlyAbout(outcomes + more, IdsOf(ms[..i + 1]))
    ensures OnlyAbout(outcomes + more, IdsOf(ms))
  {
    assert IdsOf(ms[..i + 1]) == IdsOf(ms[..i]) + {ms[i].id};
    assert ms[i].id !in IdsOf(ms[..i]);
    assert IdsOf(ms[..i + 1]) <= IdsOf(ms);
  }

  lemma RoundJoins(outcomes: seq<Outcome>, told: seq<Outcome>, ms: seq<Member>)
    requires OneEach(outcomes) && NoVerdicts(outcomes) && Apart(outcomes, ms)
    requires OneEach(told) && OnlyAbout(told, IdsOf(ms))
    ensures OneEach(outcomes + told)
  {
    forall i, j | 0 <= i < |outcomes| && 0 <= j < |told| ensures outcomes[i].id != told[j].id {
      assert told[j].id in IdsOf(ms);
    }
  }

  lemma HonestJoins(outcomes: seq<Outcome>, told: seq<Outcome>, trace: seq<Action>)
    requires NoVerdicts(outcomes) && Honest(told, trace)
    ensures Honest(outcomes + told, trace)
  {
    NothingClaimed(outcomes, trace);
  }

  lemma PrefixGrows<T>(ks: seq<T>, i: nat)
    requires i < |ks|
    ensures ks[..i] + [ks[i]] == ks[..i + 1]
  {
  }

  // --- what our own steps mean ----------------------------------------------

  /** What a landing that went through means for its batch. */
  lemma LandSettles(s: State, k: BatchId)
    requires Enabled(s, Land(k)) && s.batches[k].id == k && Transact(s.refs, LandLines(s.batches[k])).Ok?
    ensures var t := Next(s, Land(k));
      Promoting(k) !in t.refs && forall i :: 0 <= i < |s.batches[k].members| ==> s.batches[k].members[i].id in t.promoted
  {
    LandExactly(s.refs, s.batches[k]);
    var ms := s.batches[k].members;
    LandedIds(ms, |s.log|);
    forall i | 0 <= i < |ms| ensures ms[i].id in LandedAt(ms, |s.log|) {
      assert Names(ms, ms[i].id);
    }
  }

  lemma LandHonest(steps: seq<Action>, b: Batch)
    requires OnRecord(b, Run(START, steps)) && Carried(Run(START, steps), Land(b.id), Run(START, steps + [Land(b.id)]))
    ensures Promoting(b.id) !in Run(START, steps + [Land(b.id)]).refs
    ensures Honest(ClassifyAll(b.members, Promoted), steps + [Land(b.id)])
  {
    KeyOf(steps, b.id);
    LandSettles(Run(START, steps), b.id);
  }

  lemma RetireSettles(s: State, k: BatchId)
    requires Enabled(s, Retire(k)) && s.batches[k].id == k && Transact(s.refs, RetireLines(s.batches[k])).Ok?
    ensures Promoting(k) !in Next(s, Retire(k)).refs && s.batches[k].members[0].id in Next(s, Retire(k)).rejected
  {
    RetireExactly(s.refs, s.batches[k]);
  }

  lemma RetireHonest(steps: seq<Action>, b: Batch)
    requires OnRecord(b, Run(START, steps)) && Carried(Run(START, steps), Retire(b.id), Run(START, steps + [Retire(b.id)]))
    ensures Promoting(b.id) !in Run(START, steps + [Retire(b.id)]).refs
    ensures Honest(ClassifyAll(b.members, VerifyRed), steps + [Retire(b.id)])
  {
    KeyOf(steps, b.id);
    RetireSettles(Run(START, steps), b.id);
  }

  lemma ReleaseSettles(s: State, k: BatchId)
    requires Enabled(s, Release(k)) && s.batches[k].id == k && Transact(s.refs, Lines(s, Release(k))).Ok?
    ensures Promoting(k) !in Next(s, Release(k)).refs
  {
    OneLine(s.refs, DropClaim(s.batches[k]));
  }

  /** What a release means. */
  lemma ReleaseDone(steps: seq<Action>, k: BatchId)
    requires Carried(Run(START, steps), Release(k), Run(START, steps + [Release(k)]))
    ensures Promoting(k) !in Run(START, steps + [Release(k)]).refs
  {
    KeyOf(steps, k);
    ReleaseSettles(Run(START, steps), k);
  }

  // --- the claims a round finds ---------------------------------------------

  /** A claim as listed: its batch's own tip. */
  ghost predicate ListedClaim(refs: Refs, k: BatchId, s: State) {
    && Promoting(k) in refs && k in s.batches && s.batches[k].id == k
    && refs[Promoting(k)] == CommitObject(s.batches[k].tip)
  }

  lemma ListedAll(steps: seq<Action>, refs: Refs, ks: seq<BatchId>)
    requires refs == Run(START, steps).refs && forall j :: 0 <= j < |ks| ==> Promoting(ks[j]) in refs
    ensures forall j :: 0 <= j < |ks| ==> ListedClaim(refs, ks[j], Run(START, steps))
  {
    Reached(steps);
  }

  lemma ListedStay(refs: Refs, ks: seq<BatchId>, t: seq<Action>, u: seq<Action>)
    requires t <= u && forall j :: 0 <= j < |ks| ==> ListedClaim(refs, ks[j], Run(START, t))
    ensures forall j :: 0 <= j < |ks| ==> ListedClaim(refs, ks[j], Run(START, u))
  {
    Onward(t, u);
  }

  predicate HasClaim(found: Refs, k: BatchId) {
    Promoting(k) in found && found[Promoting(k)].CommitObject?
  }

  function TipText(refs: Refs, k: BatchId): string
    requires HasClaim(refs, k)
  {
    refs[Promoting(k)].commit.message
  }

  /** The claim under k names exactly these candidates. */
  ghost predicate Reads(found: Refs, k: BatchId, named: seq<Id>) {
    HasClaim(found, k) && named == Messages.ClaimedIds(TipText(found, k))
  }

  ghost predicate ReadsAll(found: Refs, ks: seq<BatchId>, named: seq<seq<Id>>) {
    |named| <= |ks| && forall j :: 0 <= j < |named| ==> Reads(found, ks[j], named[j])
  }

  lemma ReadsOne(found: Refs, ks: seq<BatchId>, named: seq<seq<Id>>, ids: seq<Id>)
    requires ReadsAll(found, ks, named) && |named| < |ks| && Reads(found, ks[|named|], ids)
    ensures ReadsAll(found, ks, named + [ids])
  {
    forall j | 0 <= j < |named + [ids]| ensures Reads(found, ks[j], (named + [ids])[j]) {
      if j < |named| { assert (named + [ids])[j] == named[j] && Reads(found, ks[j], named[j]); }
    }
  }

  /** What a sweep learnt of the claims it came past: the candidates each names,
      whether it was dropped, and the moment its owner was looked for. */
  datatype Gleaned = Gleaned(named: seq<seq<Id>>, drops: seq<bool>, at: seq<nat>)

  function Members(ids: seq<Id>): set<Id> {
    set x | x in ids
  }

  /** The candidates named by the claims a sweep has come past and not dropped. */
  ghost function SpokenBy(named: seq<seq<Id>>, drops: seq<bool>): set<Id>
    requires |drops| == |named|
  {
    if |named| == 0 then {}
    else
      var n := |named| - 1;
      SpokenBy(named[..n], drops[..n]) + (if drops[n] then {} else Members(named[n]))
  }

  ghost predicate Speaks(named: seq<seq<Id>>, drops: seq<bool>, j: nat, id: Id)
    requires j < |drops| == |named|
  {
    !drops[j] && id in named[j]
  }

  /** Exactly the candidates some claim left standing names. */
  lemma {:induction false} SpokenExactly(named: seq<seq<Id>>, drops: seq<bool>, id: Id)
    requires |drops| == |named|
    ensures id in SpokenBy(named, drops) <==> exists j: nat :: j < |named| && Speaks(named, drops, j, id)
  {
    if |named| > 0 {
      var n := |named| - 1;
      SpokenExactly(named[..n], drops[..n], id);
      if j: nat :| j < n && Speaks(named[..n], drops[..n], j, id) { assert Speaks(named, drops, j, id); }
      if !drops[n] && id in named[n] { assert Speaks(named, drops, n, id); }
      if j: nat :| j < |named| && Speaks(named, drops, j, id) && j < n { assert Speaks(named[..n], drops[..n], j, id); }
    }
  }

  /** The sweep so far: what the claims name, whom those that stand speak for, and
      whether one names nobody. */
  ghost predicate SweptSoFar(found: Refs, ks: seq<BatchId>, named: seq<seq<Id>>, drops: seq<bool>, claimed: set<Id>, blocked: bool) {
    && ReadsAll(found, ks, named) && |drops| == |named|
    && claimed == SpokenBy(named, drops) && blocked == ([] in named)
  }

  lemma SweptOne(found: Refs, ks: seq<BatchId>, named: seq<seq<Id>>, drops: seq<bool>, claimed: set<Id>, blocked: bool,
      names: seq<Id>, drop: bool, ids: set<Id>)
    requires SweptSoFar(found, ks, named, drops, claimed, blocked) && |named| < |ks| && Reads(found, ks[|named|], names)
    requires ids == if drop then {} else Members(names)
    ensures SweptSoFar(found, ks, named + [names], drops + [drop], claimed + ids, blocked || names == [])
  {
    ReadsOne(found, ks, named, names);
    assert (named + [names])[..|named|] == named && (drops + [drop])[..|named|] == drops;
  }

  // --- what a look at the store saw -----------------------------------------

  /** What the integration ref holds is the last of its history. */
  lemma IntegrationRead(steps: seq<Action>)
    requires Integration in Run(START, steps).refs
    ensures Run(START, steps).refs[Integration].CommitObject?
    ensures HoldsIntegration(Run(START, steps), Run(START, steps).refs[Integration].commit)
  {
    Reached(steps);
    var s := Run(START, steps);
    assert s.refs[Integration] == CommitObject(s.history[|s.log|]);
  }

  lemma BootstrapHeld(s: State, head: Envelopes.Commit)
    requires Carried(s, Bootstrap(head), Next(s, Bootstrap(head)))
    ensures HoldsIntegration(Next(s, Bootstrap(head)), head)
  {
    OneLine(s.refs, Create(Integration, CommitObject(head)));
  }

  /** The dropped claims are gone. */
  ghost predicate Dropped(ks: seq<BatchId>, drops: seq<bool>, s: State) {
    |drops| <= |ks| && forall j :: 0 <= j < |drops| && drops[j] ==> Promoting(ks[j]) !in s.refs
  }

  /** g is what a sweep of all the claims that stood in s learnt, and what came of it;
      by now what it dropped is gone. */
  ghost predicate SweepOf(s: State, now: State, g: Gleaned, claimed: set<Id>, blocked: bool) {
    var ks := Listing(ClaimListing(s.refs));
    |g.named| == |ks| && SweptSoFar(s.refs, ks, g.named, g.drops, claimed, blocked) && Dropped(ks, g.drops, now)
  }

  /** claimed and blocked come of the claims that stood at one moment. */
  ghost predicate SweptBetween(claimed: set<Id>, blocked: bool, from: nat, trace: seq<Action>) {
    exists n: nat, g :: from <= n <= |trace| && SweepOf(At(trace, n), Run(START, trace), g, claimed, blocked)
  }

  lemma SweptThen(g: Gleaned, claimed: set<Id>, blocked: bool, from: nat, t: seq<Action>, u: seq<Action>)
    requires from <= |t| && t <= u && SweepOf(Run(START, t), Run(START, u), g, claimed, blocked)
    ensures SweptBetween(claimed, blocked, from, u)
  {
    assert u[..|t|] == t;
    assert SweepOf(At(u, |t|), Run(START, u), g, claimed, blocked);
  }

  /** The refs were these at some moment since from. */
  ghost predicate StoodBetween(refs: Refs, from: nat, trace: seq<Action>) {
    exists t :: from <= |t| && t <= trace && refs == Run(START, t).refs
  }

  lemma StoodThen(refs: Refs, from: nat, t: seq<Action>, trace: seq<Action>)
    requires from <= |t| && t <= trace && refs == Run(START, t).refs
    ensures StoodBetween(refs, from, trace)
  {
  }

  /** A claim that names nobody stood at some moment of the call. */
  ghost predicate BlockedBetween(from: nat, trace: seq<Action>) {
    exists claimed, t :: t <= trace && SweptBetween(claimed, true, from, t)
  }

  lemma SweptEarlier(claimed: set<Id>, blocked: bool, from: nat, later: nat, trace: seq<Action>)
    requires from <= later && SweptBetween(claimed, blocked, later, trace)
    ensures SweptBetween(claimed, blocked, from, trace)
  {
  }

  lemma BlockedThen(claimed: set<Id>, from: nat, later: nat, trace: seq<Action>)
    requires from <= later && SweptBetween(claimed, true, later, trace)
    ensures BlockedBetween(from, trace)
  {
    SweptEarlier(claimed, true, from, later, trace);
  }

  /** A claim that stood during the call is gone. */
  ghost predicate Vanished(from: nat, trace: seq<Action>) {
    exists n: nat, k :: from <= n <= |trace| && Promoting(k) in At(trace, n).refs && Promoting(k) !in Run(START, trace).refs
  }

  lemma VanishedThen(k: BatchId, from: nat, t: seq<Action>, u: seq<Action>)
    requires from <= |t| && t <= u && Promoting(k) in Run(START, t).refs && Promoting(k) !in Run(START, u).refs
    ensures Vanished(from, u)
  {
    assert u[..|t|] == t;
    assert Promoting(k) in At(u, |t|).refs;
  }

  lemma VanishedEarlier(from: nat, later: nat, trace: seq<Action>)
    requires from <= later && Vanished(later, trace)
    ensures Vanished(from, trace)
  {
  }

  // --- why a transaction of ours may be refused -----------------------------

  /** Creating integration is refused only where it is, and there it stays. */
  lemma BootstrapRefused(t: seq<Action>, u: seq<Action>, head: Envelopes.Commit)
    requires t <= u && Transact(Run(START, t).refs, [Create(Integration, CommitObject(head))]).Err?
    ensures Integration in Run(START, u).refs
  {
    OneLine(Run(START, t).refs, Create(Integration, CommitObject(head)));
    Onward(t, u);
    Reached(u);
  }

  /** Dropping a claim is refused only where it is gone. */
  lemma ReleaseRefused(t: seq<Action>, k: BatchId)
    requires Enabled(Run(START, t), Release(k)) && Transact(Run(START, t).refs, Lines(Run(START, t), Release(k))).Err?
    ensures Promoting(k) !in Run(START, t).refs
  {
    Reached(t);
    var s := Run(START, t);
    OneLine(s.refs, DropClaim(s.batches[k]));
  }

  /** Claiming under an unused id is never refused. */
  lemma ClaimAccepted(t: seq<Action>, a: Action)
    requires a.Claim? && Enabled(Run(START, t), a)
    ensures Transact(Run(START, t).refs, Lines(Run(START, t), a)).Ok?
  {
    Reached(t);
    var s := Run(START, t);
    OneLine(s.refs, Create(Promoting(a.batch), CommitObject(Claimed(a.batch, a.snapshot, a.view, a.texts).tip)));
  }

  /** A rejection is refused only when the candidate or the claim is no longer there. */
  lemma RetireRefused(t: seq<Action>, b: Batch)
    requires OnRecord(b, Run(START, t)) && |b.members| == 1 && Transact(Run(START, t).refs, RetireLines(b)).Err?
    ensures !MemberIntact(Run(START, t).refs, b.members[0]) || Promoting(b.id) !in Run(START, t).refs
  {
    RetireExactly(Run(START, t).refs, b);
    Reached(t);
  }

  // --- what a look saw ------------------------------------------------------

  ghost predicate ReadAt(view: View, snapshot: Envelopes.Commit, a: seq<Action>, c: seq<Action>, b: seq<Action>, d: seq<Action>) {
    && a <= c <= b <= d
    && HoldsIntegration(Run(START, a), snapshot)
    && SweptBetween(view.claimed, false, |a|, c)
    && view.candidates == CandidateListing(Run(START, b).refs)
    && view.proposals == ProposalListing(Run(START, d).refs)
  }

  /** The snapshot, the claims, the queue and the proposals are what the store held at
      four moments of the call, in that order. */
  ghost predicate ReadBetween(view: View, snapshot: Envelopes.Commit, from: nat, trace: seq<Action>) {
    && view.snapshot == snapshot.tree
    && exists a, c, b, d :: from <= |a| && d <= trace && ReadAt(view, snapshot, a, c, b, d)
  }

  /** Integration's tree is t. */
  predicate IntegrationIs(s: State, t: Tree) {
    Integration in s.refs && s.refs[Integration].CommitObject? && s.refs[Integration].commit.tree == t
  }

  /** With integration unmoved between the snapshot and the queue, the round can
      choose. */
  lemma UnmovedSelects(view: View, b: seq<Action>)
    requires view.candidates == CandidateListing(Run(START, b).refs) && IntegrationIs(Run(START, b), view.snapshot)
    ensures Select(view).Done?
  {
    Reached(b);
    var s := Run(START, b);
    var j := |s.log|;
    assert s.history[..j + 1] == s.history;
    forall id | id in view.candidates && view.candidates[id].EnvelopeBlob?
      ensures CapturedFromOne(view.candidates[id].envelope, s.history)
    {
      assert CandidateRefs(s, id);
    }
    CapturedQueueSelects(b, j, view);
  }

  ghost predicate ReadPast(view: View, b: seq<Action>) {
    view.candidates == CandidateListing(Run(START, b).refs) && !IntegrationIs(Run(START, b), view.snapshot)
  }

  /** The queue was read when integration was no longer the snapshot. */
  ghost predicate Overtaken(view: View, from: nat, trace: seq<Action>) {
    exists b :: from <= |b| && b <= trace && ReadPast(view, b)
  }

  /** Only then can a look that saw the queue fail to choose. */
  lemma FailsOvertaken(view: View, snapshot: Envelopes.Commit, from: nat, trace: seq<Action>)
    requires ReadBetween(view, snapshot, from, trace) && Select(view).Failed?
    ensures Overtaken(view, from, trace)
  {
    var a, c, b, d :| from <= |a| && d <= trace && ReadAt(view, snapshot, a, c, b, d);
    if IntegrationIs(Run(START, b), view.snapshot) {
      UnmovedSelects(view, b);
    }
    assert from <= |b| && b <= trace;
  }

  lemma OtherStep(s: State, a: Action)
    requires Integration in s.refs && !a.Land?
    ensures Next(s, a).history == s.history
  {
    if a.Bootstrap? { OneLine(s.refs, Create(Integration, CommitObject(a.head))); }
  }

  lemma IntegrationStays(t: seq<Action>, u: seq<Action>)
    requires t <= u && Integration in Run(START, t).refs
    ensures Integration in Run(START, u).refs
  {
    Onward(t, u);
    Reached(u);
  }

  /** Only a landing moves integration. */
  lemma {:induction false} UnmovedByOthers(a: seq<Action>, b: seq<Action>)
    requires a <= b && Integration in Run(START, a).refs
    requires forall i :: |a| <= i < |b| ==> !b[i].Land?
    ensures Run(START, b).history == Run(START, a).history
  {
    if |a| == |b| {
      assert a == b;
    } else {
      var n := |b| - 1;
      UnmovedByOthers(a, b[..n]);
      IntegrationStays(a, b[..n]);
      OtherStep(Run(START, b[..n]), b[n]);
    }
  }

  /** So a round during whose look nothing lands can choose. Phase 3 takes the flock that
      phase 1 holds. */
  lemma LockedLookSelects(view: View, snapshot: Envelopes.Commit, a: seq<Action>, b: seq<Action>)
    requires a <= b && forall i :: |a| <= i < |b| ==> !b[i].Land?
    requires HoldsIntegration(Run(START, a), snapshot) && view.snapshot == snapshot.tree
    requires view.candidates == CandidateListing(Run(START, b).refs)
    ensures Select(view).Done?
  {
    UnmovedByOthers(a, b);
    Reached(a);
    Reached(b);
    UnmovedSelects(view, b);
  }

  lemma OvertakenStays(view: View, from: nat, t: seq<Action>, u: seq<Action>)
    requires t <= u && Overtaken(view, from, t)
    ensures Overtaken(view, from, u)
  {
    var b :| from <= |b| && b <= t && ReadPast(view, b);
    assert b <= u;
  }

  lemma ReadStays(view: View, snapshot: Envelopes.Commit, from: nat, t: seq<Action>, u: seq<Action>)
    requires t <= u && ReadBetween(view, snapshot, from, t)
    ensures ReadBetween(view, snapshot, from, u)
  {
    var a, c, b, d :| from <= |a| && d <= t && ReadAt(view, snapshot, a, c, b, d);
    assert d <= u;
  }

  /** No candidate the store held goes without a name. */
  lemma ReadPlain(view: View, snapshot: Envelopes.Commit, from: nat, trace: seq<Action>)
    requires ReadBetween(view, snapshot, from, trace)
    ensures forall id :: id in view.candidates ==> id != ""
  {
    var a, c, b, d :| from <= |a| && d <= trace && ReadAt(view, snapshot, a, c, b, d);
    PlainListing(b);
  }

  /** What the diary gains from one transaction of a fate decided elsewhere. */
  function Reported(f: Fault, r: Result<Refs, TxError>): TxResult {
    if f != NoFault then TxFailed
    else if r.Ok? then TxOk
    else if r.error == CasLost then TxCasLost
    else TxFailed
  }

  /** The claim is dropped exactly if it reads back whole and its owner is gone when
      looked for. */
  ghost predicate DropsOne(found: Refs, k: BatchId, gone: (nat, BatchId) -> bool, n: nat, drop: bool) {
    HasClaim(found, k) && (drop <==> Messages.ReadClaim(TipText(found, k)).Ok? && gone(n, k))
  }

  ghost predicate DropsExactly(found: Refs, ks: seq<BatchId>, g: Gleaned, gone: (nat, BatchId) -> bool) {
    && |g.at| == |g.drops| <= |ks|
    && forall j: nat :: j < |g.drops| ==> DropsOne(found, ks[j], gone, g.at[j], g.drops[j])
  }

  /** The owners were looked for between these moments. */
  predicate Timed(g: Gleaned, since: nat, upto: nat) {
    forall n | n in g.at :: since <= n <= upto
  }

  lemma TimedOneMore(g: Gleaned, since: nat, n: nat, upto: nat, names: seq<Id>, drop: bool)
    requires Timed(g, since, n) && since <= n <= upto
    ensures Timed(Gleaned(g.named + [names], g.drops + [drop], g.at + [n]), since, upto)
  {
  }

  lemma DropsOneMore(found: Refs, ks: seq<BatchId>, g: Gleaned, gone: (nat, BatchId) -> bool, n: nat, drop: bool, names: seq<Id>)
    requires DropsExactly(found, ks, g, gone) && |g.drops| < |ks| && DropsOne(found, ks[|g.drops|], gone, n, drop)
    ensures DropsExactly(found, ks, Gleaned(g.named + [names], g.drops + [drop], g.at + [n]), gone)
  {
  }

  /** The claim under k cannot be read whole, or its owner was still there: it speaks
      for id, whatever a sweep makes of it. */
  ghost predicate Protects(found: Refs, k: BatchId, gone: (nat, BatchId) -> bool, n: nat, id: Id) {
    && HasClaim(found, k) && (Messages.ReadClaim(TipText(found, k)).Ok? ==> !gone(n, k))
    && id in Messages.ClaimedIds(TipText(found, k))
  }

  /** A finished sweep of ks, whose owners were looked for at these moments. Every claim
      that reads back whole and whose owner was gone no longer stands; the others, and
      only they, speak for the candidates they name; one that names nobody blocks. */
  ghost predicate SweepsExactly(found: Refs, ks: seq<BatchId>, at: seq<nat>, gone: (nat, BatchId) -> bool,
    claimed: set<Id>, blocked: bool, s: State)
  {
    && |at| == |ks| && (forall j: nat :: j < |ks| ==> HasClaim(found, ks[j]))
    && (forall j: nat :: j < |ks| && Messages.ReadClaim(TipText(found, ks[j])).Ok? && gone(at[j], ks[j]) ==>
         Promoting(ks[j]) !in s.refs)
    && (forall id :: id in claimed <==> exists j: nat :: j < |ks| && Protects(found, ks[j], gone, at[j], id))
    && (blocked <==> exists j: nat :: j < |ks| && Messages.ClaimedIds(TipText(found, ks[j])) == [])
  }

  lemma SweepProtects(found: Refs, ks: seq<BatchId>, g: Gleaned, gone: (nat, BatchId) -> bool, id: Id)
    requires ReadsAll(found, ks, g.named) && |g.drops| == |g.named| == |ks| && DropsExactly(found, ks, g, gone)
    ensures id in SpokenBy(g.named, g.drops) <==> exists j: nat :: j < |ks| && Protects(found, ks[j], gone, g.at[j], id)
  {
    SpokenExactly(g.named, g.drops, id);
    forall j: nat | j < |ks| ensures Speaks(g.named, g.drops, j, id) <==> Protects(found, ks[j], gone, g.at[j], id) {
      assert Reads(found, ks[j], g.named[j]) && DropsOne(found, ks[j], gone, g.at[j], g.drops[j]);
    }
  }

  lemma SweepBlocks(found: Refs, ks: seq<BatchId>, named: seq<seq<Id>>)
    requires ReadsAll(found, ks, named) && |named| == |ks|
    ensures forall j: nat :: j < |ks| ==> HasClaim(found, ks[j])
    ensures [] in named <==> exists j: nat :: j < |ks| && Messages.ClaimedIds(TipText(found, ks[j])) == []
  {
    forall j: nat | j < |ks| ensures HasClaim(found, ks[j]) && named[j] == Messages.ClaimedIds(TipText(found, ks[j])) {
      assert Reads(found, ks[j], named[j]);
    }
  }

  lemma SweepMeans(found: Refs, ks: seq<BatchId>, g: Gleaned, gone: (nat, BatchId) -> bool, claimed: set<Id>, blocked: bool, s: State)
    requires SweptSoFar(found, ks, g.named, g.drops, claimed, blocked) && |g.named| == |ks|
    requires Dropped(ks, g.drops, s) && DropsExactly(found, ks, g, gone)
    ensures SweepsExactly(found, ks, g.at, gone, claimed, blocked, s)
  {
    SweepBlocks(found, ks, g.named);
    forall id ensures id in claimed <==> exists j: nat :: j < |ks| && Protects(found, ks[j], gone, g.at[j], id) {
      SweepProtects(found, ks, g, gone, id);
    }
    forall j: nat | j < |ks| && Messages.ReadClaim(TipText(found, ks[j])).Ok? && gone(g.at[j], ks[j])
      ensures Promoting(ks[j]) !in s.refs
    {
      assert DropsOne(found, ks[j], gone, g.at[j], g.drops[j]);
    }
  }

  lemma DroppedOne(ks: seq<BatchId>, drops: seq<bool>, drop: bool, s: State)
    requires Dropped(ks, drops, s) && |drops| < |ks| && (drop ==> Promoting(ks[|drops|]) !in s.refs)
    ensures Dropped(ks, drops + [drop], s)
  {
  }

  lemma DroppedStay(refs: Refs, ks: seq<BatchId>, drops: seq<bool>, t: seq<Action>, u: seq<Action>)
    requires t <= u && Dropped(ks, drops, Run(START, t))
    requires forall j :: 0 <= j < |ks| ==> ListedClaim(refs, ks[j], Run(START, t))
    ensures Dropped(ks, drops, Run(START, u))
  {
    Onward(t, u);
  }

  lemma RecordKept(k: BatchId, t: seq<Action>, u: seq<Action>)
    requires t <= u && k in Run(START, t).batches
    ensures k in Run(START, u).batches
  {
    Onward(t, u);
  }

  /** What the verdict on a claim says about the claim. */
  lemma JudgedFacts(found: Refs, k: BatchId, dead: bool)
    requires HasClaim(found, k)
    ensures Judge(TipText(found, k), dead) == Blocking <==> Messages.ClaimedIds(TipText(found, k)) == []
    ensures Judge(TipText(found, k), dead).Spoken? ==> Judge(TipText(found, k), dead).ids == Messages.ClaimedIds(TipText(found, k))
    ensures Judge(TipText(found, k), dead) == Dead <==> Messages.ReadClaim(TipText(found, k)).Ok? && dead
  {
  }

  predicate Plain(b: Batch) {
    PlainMembers(b.members)
  }

  /** The view is one of the store, taken since from, for this round. */
  ghost predicate Looking(view: View, only: Id, maxBatch: nat, from: nat, trace: seq<Action>) {
    && view.only == only && view.maxBatch == maxBatch
    && (exists snapshot :: ReadBetween(view, snapshot, from, trace))
    && (Select(view).Failed? ==> Overtaken(view, from, trace))
  }

  lemma SawStore(view: View, snapshot: Envelopes.Commit, only: Id, maxBatch: nat, from: nat, trace: seq<Action>)
    requires view.only == only && view.maxBatch == maxBatch && ReadBetween(view, snapshot, from, trace)
    ensures Looking(view, only, maxBatch, from, trace) && view.snapshot == snapshot.tree
  {
    if Select(view).Failed? { FailsOvertaken(view, snapshot, from, trace); }
  }

  lemma LookingStays(view: View, only: Id, maxBatch: nat, from: nat, t: seq<Action>, u: seq<Action>)
    requires t <= u && Looking(view, only, maxBatch, from, t)
    ensures Looking(view, only, maxBatch, from, u)
  {
    var snapshot :| ReadBetween(view, snapshot, from, t);
    ReadStays(view, snapshot, from, t, u);
    if Select(view).Failed? { OvertakenStays(view, from, t, u); }
  }

  predicate AcceptedAs(m: Member, s: State) {
    m.id in s.accepted && s.accepted[m.id] == m
  }

  /** The members are as accepted, and there is an integration to land them on. */
  ghost predicate Landable(ms: seq<Member>, s: State) {
    if |ms| == 0 then Integration in s.refs
    else Landable(ms[..|ms| - 1], s) && AcceptedAs(ms[|ms| - 1], s)
  }

  lemma {:induction false} LandableMeans(ms: seq<Member>, s: State)
    ensures Landable(ms, s) <==> AsAccepted(s, ms) && Integration in s.refs
  {
    if |ms| > 0 {
      LandableMeans(ms[..|ms| - 1], s);
    }
  }

  lemma LandableStays(ms: seq<Member>, t: seq<Action>, u: seq<Action>)
    requires t <= u && Landable(ms, Run(START, t))
    ensures Landable(ms, Run(START, u))
  {
    Onward(t, u);
    LandableMeans(ms, Run(START, t));
    IntegrationStays(t, u);
    LandableMeans(ms, Run(START, u));
  }

  lemma CapturedIsWhole(e: Envelope, history: seq<Envelopes.Commit>)
    requires CapturedFromOne(e, history)
    ensures e.candidateId != "" && e.bead != "" && e.writeSet != [] && |e.transitions| == |e.writeSet|
  {
    var i, prop :| 0 <= i < |history| && CapturedFrom(e, history[i].tree, prop);
  }

  /** What the store holds of a queued candidate is whole: Capture minted it. */
  lemma QueuedIsWhole(view: View, b: seq<Action>, d: seq<Action>, id: Id)
    requires b <= d && Candidate(id) in Run(START, b).refs && Proposal(id) in Run(START, d).refs
    requires view.candidates == CandidateListing(Run(START, b).refs) && view.proposals == ProposalListing(Run(START, d).refs)
    ensures id in Run(START, d).accepted && Whole(view, id) && HeldUnder(view, id) == Run(START, d).accepted[id]
  {
    Onward(b, d);
    Reached(d);
    assert CandidateRefs(Run(START, b), id);
    assert CandidateRefs(Run(START, d), id);
    CapturedIsWhole(Run(START, d).accepted[id].envelope, Run(START, d).history);
  }

  /** m has a member of smaller id in its way, or the batch was full before its turn. */
  ghost predicate NotItsTurn(ms: seq<Member>, maxBatch: nat, m: Member) {
    || (exists i :: 0 <= i < |ms| && Less(ms[i].id, m.id) && SharesPath(ms[i].envelope, m.envelope))
    || (|ms| == maxBatch && forall i :: 0 <= i < |ms| ==> Less(ms[i].id, m.id))
  }

  lemma ServedExactly(view: View, c: Choice, id: Id)
    requires Served(view, c, id) && Whole(view, id)
    requires id !in view.claimed && (view.only == "" || id == view.only)
    ensures var m := HeldUnder(view, id);
      var holds := Admission.PreimagesHold(m.envelope.transitions, view.snapshot);
      var applies := holds && Admission.AncestryHolds(m.envelope.ancestry, view.snapshot);
      && (m in c.members <==> applies && !NotItsTurn(c.members, view.maxBatch, m))
      && (Outcome(id, if holds then StaleAncestry else StalePreimage) in c.outcomes <==>
            !applies && !NotItsTurn(c.members, view.maxBatch, m))
  {
    var m := HeldUnder(view, id);
    assert HasATurn(view, c, id) <==> !NotItsTurn(c.members, view.maxBatch, m);
    assert m in c.members ==> HasMember(c, id);
    assert forall o :: o in c.outcomes && o.id == id ==> HasOutcome(c, id);
  }

  /** Every queued candidate the look may take is served: taken if it is fresh against
      the snapshot, told why if it is not, unless it must yield or comes too late; and it
      is taken or told in no other case. */
  lemma QueuedIsServed(view: View, b: seq<Action>, d: seq<Action>, id: Id)
    requires b <= d && Candidate(id) in Run(START, b).refs && Proposal(id) in Run(START, d).refs
    requires view.candidates == CandidateListing(Run(START, b).refs) && view.proposals == ProposalListing(Run(START, d).refs)
    requires id !in view.claimed && (view.only == "" || id == view.only) && Select(view).Done?
    ensures id in Run(START, d).accepted
    ensures var m, c := Run(START, d).accepted[id], Select(view).choice;
      var holds := Admission.PreimagesHold(m.envelope.transitions, view.snapshot);
      var applies := holds && Admission.AncestryHolds(m.envelope.ancestry, view.snapshot);
      && (m in c.members <==> applies && !NotItsTurn(c.members, view.maxBatch, m))
      && (Outcome(id, if holds then StaleAncestry else StalePreimage) in c.outcomes <==>
            !applies && !NotItsTurn(c.members, view.maxBatch, m))
  {
    QueuedIsWhole(view, b, d, id);
    ChoosesExactly(view, id);
    ServedExactly(view, Select(view).choice, id);
  }

  /** A landing that did not find integration moved is refused only when the claim is
      gone or a member has been settled. */
  lemma LandRefused(t: seq<Action>, b: Batch)
    requires OnRecord(b, Run(START, t)) && Landable(b.members, Run(START, t))
    requires Transact(Run(START, t).refs, LandLines(b)).Err? && Transact(Run(START, t).refs, LandLines(b)) != Err(CasLost)
    ensures Promoting(b.id) !in Run(START, t).refs || SomeSettled(Run(START, t), b.members)
  {
    LandableMeans(b.members, Run(START, t));
    NeverEmpty(Run(START, t).refs, LandLines(b));
    RequeuedOnlyWhenMoved(t, b.id);
  }

  lemma LoadedAsAccepted(view: View, id: Id, b: seq<Action>, d: seq<Action>, trace: seq<Action>)
    requires b <= d <= trace && id in view.candidates && LoadMember(view, id).Some?
    requires view.candidates == CandidateListing(Run(START, b).refs) && view.proposals == ProposalListing(Run(START, d).refs)
    ensures id in Run(START, trace).accepted && Run(START, trace).accepted[id] == LoadMember(view, id).value
  {
    Onward(b, d);
    Onward(d, trace);
    assert CandidateRefs(Run(START, b), id);
    assert CandidateRefs(Run(START, d), id);
  }

  lemma MembersAsAccepted(view: View, b: seq<Action>, d: seq<Action>, trace: seq<Action>)
    requires b <= d <= trace && Select(view).Done?
    requires view.candidates == CandidateListing(Run(START, b).refs) && view.proposals == ProposalListing(Run(START, d).refs)
    ensures AsAccepted(Run(START, trace), Select(view).choice.members)
  {
    var n := SelectionAccounts(view);
    var ms := Select(view).choice.members;
    forall k | 0 <= k < |ms|
      ensures ms[k].id in Run(START, trace).accepted && Run(START, trace).accepted[ms[k].id] == ms[k]
    {
      assert FromView(view, ms[k]);
      LoadedAsAccepted(view, ms[k].id, b, d, trace);
    }
  }

  /** What a look chooses are candidates as they were accepted, and integration is there
      to land them on. */
  lemma ChosenAsAccepted(view: View, only: Id, maxBatch: nat, from: nat, trace: seq<Action>)
    requires Looking(view, only, maxBatch, from, trace) && Select(view).Done?
    ensures Landable(Select(view).choice.members, Run(START, trace))
  {
    var snapshot :| ReadBetween(view, snapshot, from, trace);
    var a, c, b, d :| from <= |a| && d <= trace && ReadAt(view, snapshot, a, c, b, d);
    assert a <= trace;
    MembersAsAccepted(view, b, d, trace);
    IntegrationStays(a, trace);
    LandableMeans(Select(view).choice.members, Run(START, trace));
  }

  ghost predicate Claims(d: seq<Entry>, c: Batch) {
    && |d| == 2 && d[1] == Opened(c, TxOk)
    && d[0].Looked? && d[0].sight.Seen? && Select(d[0].sight.view).Done?
    && c.members == Select(d[0].sight.view).choice.members
  }

  predicate HasChoice(e: Entry) {
    e.Looked? && e.sight.Seen? && Select(e.sight.view).Done? && Select(e.sight.view).choice.members != []
  }

  /** An error in phase 1: nothing readable to choose from, or the claim failed. */
  ghost predicate Unclaimed(d: seq<Entry>) {
    Grave(d) && Legal(d, None) && |d| <= 2 && (|d| == 2 ==> d[1].Opened? && d[1].result != TxOk && HasChoice(d[0]))
  }

  /** What phase 1 leaves in the diary, and hands back. */
  ghost predicate Surveyed(d: seq<Entry>, only: Id, maxBatch: nat, b: Option<Batch>, outcomes: seq<Outcome>, ok: bool,
    from: nat, trace: seq<Action>)
  {
    && d != [] && d[0].Looked? && d[0].only == only
    && (d[0].sight.Seen? ==> Looking(d[0].sight.view, only, maxBatch, from, trace))
    && (d[0].sight.Blocked? ==> BlockedBetween(from, trace))
    && outcomes == PassedOver(d[0].sight)
    && match b
       case Some(c) => ok && Claims(d, c)
       case None => if ok then d == [d[0]] && Nothing(d[0].sight) else Unclaimed(d)
  }

  ghost predicate FitMembers(ms: seq<Member>, outcomes: seq<Outcome>, only: Id, maxBatch: nat) {
    |ms| <= maxBatch && Apart(outcomes, ms) && (only != "" ==> IdsOf(ms) == {only})
  }

  /** The outcomes of a selection and the batch it claimed. */
  ghost predicate Fit(b: Option<Batch>, outcomes: seq<Outcome>, only: Id, maxBatch: nat) {
    && OneEach(outcomes) && NoVerdicts(outcomes) && (only != "" ==> OnlyAbout(outcomes, {only}))
    && (b.Some? ==> FitMembers(b.value.members, outcomes, only, maxBatch))
  }

  /** The selection a view leads to has one outcome a candidate and a plain batch. */
  ghost predicate Fits(v: View) {
    && Fit(None, PassedOver(Seen(v)), v.only, v.maxBatch)
    && (Select(v).Done? && Select(v).choice.members != [] ==>
      PlainMembers(Select(v).choice.members) && FitMembers(Select(v).choice.members, PassedOver(Seen(v)), v.only, v.maxBatch))
  }

  lemma SelectionFits(v: View)
    requires forall id :: id in v.candidates ==> id != ""
    ensures Fits(v)
  {
    if Select(v).Done? { ChosenFacts(v); } else { FailedOutcomes(v); }
  }

  lemma LookGrave(only: Id, sight: Sight)
    requires !Nothing(sight) && !HasChoice(Looked(only, sight))
    ensures Unclaimed([Looked(only, sight)])
  {
    One(Looked(only, sight), None);
  }

  /** A look that leads nowhere. */
  lemma LookEnds(only: Id, sight: Sight, maxBatch: nat, from: nat, trace: seq<Action>)
    requires sight.Seen? ==> Looking(sight.view, only, maxBatch, from, trace)
    requires sight.Seen? && Select(sight.view).Done? ==> Select(sight.view).choice.members == []
    requires sight.Blocked? ==> BlockedBetween(from, trace)
    ensures Surveyed([Looked(only, sight)], only, maxBatch, None, PassedOver(sight), Nothing(sight), from, trace)
    ensures [Looked(only, sight)] + [] == [Looked(only, sight)]
  {
    if !Nothing(sight) { LookGrave(only, sight); }
  }

  lemma ClaimFailed(view: View, c: Batch, tx: TxResult)
    requires tx != TxOk && Select(view).Done? && Select(view).choice.members != []
    requires c.members == Select(view).choice.members
    ensures Unclaimed([Looked(view.only, Seen(view)), Opened(c, tx)])
  {
    One(Looked(view.only, Seen(view)), None);
    One(Opened(c, tx), None);
    Two(Looked(view.only, Seen(view)), Opened(c, tx), None);
  }

  /** One that leads to a claim, carried or not. */
  lemma LookClaims(view: View, c: Batch, tx: TxResult, from: nat, trace: seq<Action>)
    requires Looking(view, view.only, view.maxBatch, from, trace)
    requires Select(view).Done? && Select(view).choice.members != [] && c.members == Select(view).choice.members
    ensures Surveyed([Looked(view.only, Seen(view))] + [Opened(c, tx)], view.only, view.maxBatch,
      if tx == TxOk then Some(c) else None, PassedOver(Seen(view)), tx == TxOk, from, trace)
  {
    var e, f := Looked(view.only, Seen(view)), Opened(c, tx);
    assert [e] + [f] == [e, f];
    if tx != TxOk { ClaimFailed(view, c, tx); }
  }

  lemma TwoMore<T>(s: seq<T>, x: T, y: T)
    ensures s + [x] + [y] == s + [x, y]
  {
  }

  /** A batch of ours stays ours while others work. */
  lemma StillCarried(b: Batch, mine: set<BatchId>, t: seq<Action>, u: seq<Action>)
    requires t <= u && Owned(mine, Run(START, t)) && OnRecord(b, Run(START, t)) && Clean(mine, {b.id}, Run(START, t))
    requires Landable(b.members, Run(START, t))
    ensures OnRecord(b, Run(START, u)) && Clean(mine, {b.id}, Run(START, u)) && Landable(b.members, Run(START, u))
    ensures b.id in Run(START, t).verdicts ==>
      b.id in Run(START, u).verdicts && Run(START, u).verdicts[b.id] == Run(START, t).verdicts[b.id]
  {
    CleanStays(mine, {b.id}, t, u);
    RecordStays(b, t, u);
    LandableStays(b.members, t, u);
  }

  lemma ClaimRefused(d: seq<Entry>)
    requires Unclaimed(d) && |d| == 2 && d[0].Looked?
    ensures Trouble(d) && Looks(d) == [d[0].only]
  {
    assert d == [d[0], d[1]];
    One(d[0], None);
    One(d[1], None);
    Two(d[0], d[1], None);
    assert [d[0].only] + [] == [d[0].only];
  }

  /** A first phase that claimed nothing is a whole call. */
  lemma NothingTaken(d: seq<Entry>, only: Id, maxBatch: nat, outcomes: seq<Outcome>, ok: bool, from: nat, trace: seq<Action>)
    requires Surveyed(d, only, maxBatch, None, outcomes, ok, from, trace)
    ensures Reports(d, outcomes, !ok, ok) && Looks(d) == [only]
    ensures Trouble(d) == !ok && (ok && only == "" ==> Idle(d))
  {
    if |d| == 2 {
      ClaimRefused(d);
    } else {
      assert d == [d[0]];
      One(d[0], None);
    }
  }

  /** One that claimed a batch, and what became of it. */
  lemma ClaimThen(d: seq<Entry>, b: Batch, outcomes: seq<Outcome>, more: seq<Entry>, told: seq<Outcome>, stop: bool, ok: bool)
    requires Claims(d, b) && outcomes == PassedOver(d[0].sight) && Begins(more, b) && Reports(more, told, stop, ok)
    ensures Reports(d + more, outcomes + told, stop, ok) && Looks(d + more) == [d[0].only] + Looks(more)
    ensures |d + more| > 1
  {
    assert d == [d[0], d[1]];
    One(d[0], None);
    One(d[1], None);
    Two(d[0], d[1], Some(more[0]));
    assert PassedOver(d[0].sight) + [] == PassedOver(d[0].sight);
    ReportsJoin(d, outcomes, more, told, stop, ok);
  }

  /** A look for one candidate that comes to nothing: blocked, or the candidate is not
      ours to take and says nothing. */
  predicate Silent(s: Sight, id: Id) {
    s.Blocked? || (s.Seen? && (id in s.view.claimed || !Whole(s.view, id)))
  }

  function OutcomeIds(outcomes: seq<Outcome>): set<Id> {
    set i | 0 <= i < |outcomes| :: outcomes[i].id
  }

  lemma {:induction false} OutcomesCounted(outcomes: seq<Outcome>)
    requires OneEach(outcomes)
    ensures |OutcomeIds(outcomes)| == |outcomes|
  {
    if |outcomes| > 0 {
      var n := |outcomes| - 1;
      OutcomesCounted(outcomes[..n]);
      assert OutcomeIds(outcomes) == OutcomeIds(outcomes[..n]) + {outcomes[n].id};
      assert outcomes[n].id !in OutcomeIds(outcomes[..n]);
    }
  }

  lemma AtMostOne(outcomes: seq<Outcome>, id: Id)
    requires OneEach(outcomes) && OnlyAbout(outcomes, {id})
    ensures |outcomes| <= 1
  {
    OutcomesCounted(outcomes);
    assert OutcomeIds(outcomes) == {} || OutcomeIds(outcomes) == {id};
  }

  lemma TakenNotPassed(outcomes: seq<Outcome>, ms: seq<Member>, id: Id)
    requires OneEach(outcomes) && OnlyAbout(outcomes, {id}) && Apart(outcomes, ms) && IdsOf(ms) == {id}
    ensures outcomes == []
  {
    OutcomesCounted(outcomes);
    assert id in IdsOf(ms);
    assert OutcomeIds(outcomes) == {};
  }

  /** In a solo round a chosen candidate is not also passed over. */
  lemma ChoiceOrOutcome(view: View, from: nat, trace: seq<Action>)
    requires Looking(view, view.only, view.maxBatch, from, trace) && view.only != ""
    requires Select(view).Done? && Select(view).choice.members != []
    ensures Select(view).choice.outcomes == []
  {
    var snapshot :| ReadBetween(view, snapshot, from, trace);
    ReadPlain(view, snapshot, from, trace);
    ChosenFacts(view);
    TakenNotPassed(Select(view).choice.outcomes, Select(view).choice.members, view.only);
  }

  /** A solo look gives the candidate an outcome exactly when it neither claims it, nor
      fails, nor comes to nothing. */
  lemma SoloLook(d: seq<Entry>, id: Id, b: Option<Batch>, outcomes: seq<Outcome>, ok: bool, from: nat, trace: seq<Action>)
    requires id != "" && Surveyed(d, id, 1, b, outcomes, ok, from, trace) && Fit(b, outcomes, id, 1)
    ensures b.None? ==> |outcomes| == if Grave(d) || Silent(d[0].sight, id) then 0 else 1
    ensures b.Some? ==> outcomes == [] && !Silent(d[0].sight, id)
  {
    AtMostOne(outcomes, id);
    if d[0].sight.Seen? {
      var view := d[0].sight.view;
      if Select(view).Done? {
        SilentExactly(view);
        if Select(view).choice.members != [] { ChoiceOrOutcome(view, from, trace); }
      } else {
        FailsSilently(view);
      }
    }
    if b.None? && ok {
      One(d[0], None);
    } else if b.None? && |d| == 1 {
      assert d == [d[0]];
      One(d[0], None);
    }
  }

  lemma ClaimNotGrave(d: seq<Entry>, b: Batch)
    requires Claims(d, b)
    ensures !Grave(d)
  {
    One(d[0], None);
    One(d[1], None);
    Two(d[0], d[1], None);
    assert d == [d[0], d[1]];
  }

  /** One candidate, looked for, claimed and settled. */
  lemma SoloAnswers(d: seq<Entry>, id: Id, b: Batch, outcomes: seq<Outcome>, more: seq<Entry>, told: seq<Outcome>, ok: bool,
      from: nat, trace: seq<Action>)
    requires id != "" && Surveyed(d, id, 1, Some(b), outcomes, true, from, trace) && Fit(Some(b), outcomes, id, 1)
    requires AnswersAll(more, told) && |told| == (if ok then 1 else 0) && (ok <==> !Grave(more))
    ensures AnswersAll(d + more, outcomes + told)
    ensures |outcomes + told| == if Grave(d + more) || Silent(d[0].sight, id) then 0 else 1
  {
    SoloLook(d, id, Some(b), outcomes, true, from, trace);
    AnswersLook(d);
    AnswersJoin(d, outcomes, more, told);
    TroubleJoins(d, more);
    ClaimNotGrave(d, b);
  }

  // --- what a whole call looked at ------------------------------------------

  /** A look that saw the queue saw what the store held, and for this size. */
  ghost predicate SawOne(e: Entry, size: nat, trace: seq<Action>) {
    e.Looked? && e.sight.Seen? ==> Looking(e.sight.view, e.only, if e.only == "" then size else 1, 0, trace)
  }

  /** So did every look on record. */
  ghost predicate Saw(d: seq<Entry>, size: nat, trace: seq<Action>) {
    forall i :: 0 <= i < |d| ==> SawOne(d[i], size, trace)
  }

  /** Every look is for one candidate. */
  predicate Solo(d: seq<Entry>) {
    forall i | 0 <= i < |d| :: d[i].Looked? ==> d[i].only != ""
  }

  lemma SoloSaw(d: seq<Entry>, size: nat, trace: seq<Action>)
    requires Solo(d) && Saw(d, 1, trace)
    ensures Saw(d, size, trace)
  {
    forall i | 0 <= i < |d| ensures SawOne(d[i], size, trace) {
      assert SawOne(d[i], 1, trace);
    }
  }

  lemma SawStays(d: seq<Entry>, size: nat, t: seq<Action>, u: seq<Action>)
    requires t <= u && Saw(d, size, t)
    ensures Saw(d, size, u)
  {
    forall i | 0 <= i < |d| ensures SawOne(d[i], size, u) {
      assert SawOne(d[i], size, t);
      if d[i].Looked? && d[i].sight.Seen? {
        LookingStays(d[i].sight.view, d[i].only, if d[i].only == "" then size else 1, 0, t, u);
      }
    }
  }

  lemma SawJoins(a: seq<Entry>, b: seq<Entry>, size: nat, trace: seq<Action>)
    requires Saw(a, size, trace) && Saw(b, size, trace)
    ensures Saw(a + b, size, trace)
    ensures Solo(a) && Solo(b) ==> Solo(a + b)
  {
    forall i | 0 <= i < |a + b| ensures SawOne((a + b)[i], size, trace) {
      if i < |a| { assert SawOne(a[i], size, trace); } else { assert SawOne(b[i - |a|], size, trace); }
    }
  }

  lemma NoLooks(d: seq<Entry>, trace: seq<Action>)
    requires forall i :: 0 <= i < |d| ==> !d[i].Looked?
    ensures Solo(d) && Saw(d, 1, trace)
  {
  }

  lemma LookingEarlier(view: View, only: Id, maxBatch: nat, from: nat, trace: seq<Action>)
    requires Looking(view, only, maxBatch, from, trace)
    ensures Looking(view, only, maxBatch, 0, trace)
  {
    var snapshot :| ReadBetween(view, snapshot, from, trace);
    var a, c, b, d :| from <= |a| && d <= trace && ReadAt(view, snapshot, a, c, b, d);
    assert ReadBetween(view, snapshot, 0, trace);
    if Select(view).Failed? {
      var p :| from <= |p| && p <= trace && ReadPast(view, p);
    }
  }

  lemma LookSaw(e: Entry, maxBatch: nat, from: nat, trace: seq<Action>)
    requires e.Looked? && (e.only == "" || maxBatch == 1)
    requires e.sight.Seen? ==> Looking(e.sight.view, e.only, maxBatch, from, trace)
    ensures SawOne(e, maxBatch, trace)
  {
    if e.sight.Seen? { LookingEarlier(e.sight.view, e.only, maxBatch, from, trace); }
  }

  lemma SurveyShape(d: seq<Entry>, only: Id, maxBatch: nat, b: Option<Batch>, outcomes: seq<Outcome>, ok: bool,
      from: nat, trace: seq<Action>)
    requires Surveyed(d, only, maxBatch, b, outcomes, ok, from, trace)
    ensures 0 < |d| <= 2 && (|d| == 2 ==> d[1].Opened?)
  {
  }

  lemma SurveySaw(d: seq<Entry>, only: Id, maxBatch: nat, b: Option<Batch>, outcomes: seq<Outcome>, ok: bool,
      from: nat, trace: seq<Action>)
    requires Surveyed(d, only, maxBatch, b, outcomes, ok, from, trace) && (only == "" || maxBatch == 1)
    ensures Saw(d, maxBatch, trace) && (only != "" ==> Solo(d))
  {
    SurveyShape(d, only, maxBatch, b, outcomes, ok, from, trace);
    LookSaw(d[0], maxBatch, from, trace);
  }

  /** A sweep that met no trouble in its first i members. */
  ghost predicate SweepSoFar(ms: seq<Member>, i: nat, d: seq<Entry>, outcomes: seq<Outcome>) {
    && i <= |ms| && Reports(d, outcomes, false, true) && Looks(d) == MemberIds(ms)[..i]
    && OneEach(outcomes) && OnlyAbout(outcomes, IdsOf(ms[..i])) && Solo(d)
  }

  lemma SweepBegins(ms: seq<Member>)
    ensures SweepSoFar(ms, 0, [], []) && forall trace :: Saw([], 1, trace)
  {
    ReportsNothing();
  }

  lemma SweepGoesOn(ms: seq<Member>, i: nat, d: seq<Entry>, outcomes: seq<Outcome>, play: seq<Entry>, more: seq<Outcome>,
      stop: bool, ok: bool, was: seq<Action>, trace: seq<Action>)
    requires SweepSoFar(ms, i, d, outcomes) && i < |ms| && DistinctIds(ms)
    requires Reports(play, more, stop, ok) && Looks(play) == [ms[i].id]
    requires was <= trace && Saw(d, 1, was) && Solo(play) && Saw(play, 1, trace)
    requires OneEach(more) && OnlyAbout(more, {ms[i].id}) && AnswersAll(d, outcomes) && AnswersAll(play, more)
    ensures Reports(d + play, outcomes + more, stop, ok) && Looks(d + play) <= MemberIds(ms)
    ensures AnswersAll(d + play, outcomes + more)
    ensures OneEach(outcomes + more) && OnlyAbout(outcomes + more, IdsOf(ms))
    ensures !stop ==> SweepSoFar(ms, i + 1, d + play, outcomes + more)
    ensures Solo(d + play) && Saw(d + play, 1, trace)
  {
    SawStays(d, 1, was, trace);
    SawJoins(d, play, 1, trace);
    AccountsJoin(outcomes, more, ms, i);
    LegalRests(d);
    AnswersJoin(d, outcomes, play, more);
    ReportsOn(d, outcomes, play, more, stop, ok);
    PrefixGrows(MemberIds(ms), i);
    assert Grave(d + play) ==> Trouble(d + play);
  }

  lemma SweepEnds(ms: seq<Member>, d: seq<Entry>, outcomes: seq<Outcome>)
    requires SweepSoFar(ms, |ms|, d, outcomes)
    ensures Looks(d) == MemberIds(ms) && OnlyAbout(outcomes, IdsOf(ms))
  {
    assert ms[..|ms|] == ms;
  }

  predicate BeginsRound(d: seq<Entry>) {
    d != [] && d[0].Looked? && d[0].only == ""
  }

  /** What a round did before its batch was verified, and after. */
  lemma RoundSaw(d: seq<Entry>, maxBatch: nat, b: Option<Batch>, outcomes: seq<Outcome>, ok: bool, play: seq<Entry>,
      from: nat, seen: seq<Action>, trace: seq<Action>)
    requires Surveyed(d, "", maxBatch, b, outcomes, ok, from, seen) && seen <= trace && Solo(play) && Saw(play, 1, trace)
    ensures Saw(d + play, maxBatch, trace) && BeginsRound(d + play)
  {
    SurveySaw(d, "", maxBatch, b, outcomes, ok, from, seen);
    SawStays(d, maxBatch, seen, trace);
    SoloSaw(play, maxBatch, trace);
    SawJoins(d, play, maxBatch, trace);
  }

  ghost predicate ClaimsAfter(d: seq<Entry>, i: nat, c: Choice, size: nat)
    requires i < |d| && d[i].Looked? && d[i].sight.Seen?
  {
    && |c.members| <= size && (|c.members| < size ==> ToTheEnd(d[i].sight.view, c))
    && (c.members != [] ==> i + 1 < |d| && d[i + 1].Opened? && d[i + 1].batch.members == c.members)
  }

  /** The looks at the whole queue are for size candidates; whatever such a look chooses
      is claimed next, and less than size only when the scan got to the end. */
  ghost predicate ClaimsInFull(d: seq<Entry>, size: nat) {
    forall i :: 0 <= i < |d| && d[i].Looked? && d[i].only == "" && d[i].sight.Seen? && Select(d[i].sight.view).Done? ==>
      ClaimsAfter(d, i, Select(d[i].sight.view).choice, size)
  }

  /** Every look is for the candidates it says: the whole queue for size of them, or one
      for itself. */
  predicate LooksFor(d: seq<Entry>, size: nat) {
    forall i | 0 <= i < |d| :: d[i].Looked? && d[i].sight.Seen? ==>
      d[i].sight.view.only == d[i].only && d[i].sight.view.maxBatch == if d[i].only == "" then size else 1
  }

  lemma SawClaimsInFull(d: seq<Entry>, size: nat, trace: seq<Action>)
    requires Saw(d, size, trace) && Legal(d, None)
    ensures ClaimsInFull(d, size) && LooksFor(d, size)
  {
    forall i | 0 <= i < |d| && d[i].Looked? && d[i].sight.Seen?
      ensures d[i].sight.view.only == d[i].only && d[i].sight.view.maxBatch == if d[i].only == "" then size else 1
    {
      assert SawOne(d[i], size, trace);
    }
    forall i | 0 <= i < |d| && d[i].Looked? && d[i].only == "" && d[i].sight.Seen? && Select(d[i].sight.view).Done?
      ensures ClaimsAfter(d, i, Select(d[i].sight.view).choice, size)
    {
      var view := d[i].sight.view;
      assert Follow(d[i], Upcoming(d, i, None));
      var k := SelectionAccounts(view);
      if |Select(view).choice.members| < size { ShortBatchSawAll(view); }
    }
  }

  lemma RoundsGoOn(d: seq<Entry>, rounds: seq<seq<Outcome>>, play: seq<Entry>, outcomes: seq<Outcome>, ok: bool,
      size: nat, was: seq<Action>, trace: seq<Action>)
    requires Reports(d, Flatten(rounds), false, true) && Reports(play, outcomes, Trouble(play), ok)
    requires was <= trace && Saw(d, size, was) && Saw(play, size, trace)
    ensures Reports(d + play, Flatten(rounds + [outcomes]), Trouble(d + play), ok)
    ensures (Trouble(d + play) <==> Trouble(play)) && (Idle(play) ==> EndsIdle(d + play))
    ensures (!Trouble(play) ==> ok) && Saw(d + play, size, trace)
  {
    SawStays(d, size, was, trace);
    SawJoins(d, play, size, trace);
    ReportsOn(d, Flatten(rounds), play, outcomes, Trouble(play), ok);
    FlattenLast(rounds, outcomes);
    TroubleJoins(d, play);
    LastOf(d, play);
    assert Grave(play) ==> Trouble(play);
  }

  /** A call's account of the candidates it was about: what its diary says, one outcome
      each at most, every claim borne out by the run, and looks for one candidate at a
      time that saw the store. */
  ghost predicate Tells(d: seq<Entry>, outcomes: seq<Outcome>, about: set<Id>, stop: bool, ok: bool, trace: seq<Action>) {
    && Reports(d, outcomes, stop, ok) && OneEach(outcomes) && OnlyAbout(outcomes, about) && Honest(outcomes, trace)
    && Solo(d) && Saw(d, 1, trace)
  }

  /** A solo call that claimed nothing. */
  lemma SoloEnds(d: seq<Entry>, id: Id, outcomes: seq<Outcome>, ok: bool, from: nat, trace: seq<Action>)
    requires id != "" && Surveyed(d, id, 1, None, outcomes, ok, from, trace) && Fit(None, outcomes, id, 1)
    ensures Tells(d, outcomes, {id}, !ok, ok, trace) && Looks(d) == [id]
    ensures AnswersAll(d, outcomes) && |outcomes| == if Grave(d) || Silent(d[0].sight, id) then 0 else 1
  {
    NothingClaimed(outcomes, trace);
    NothingTaken(d, id, 1, outcomes, ok, from, trace);
    SurveySaw(d, id, 1, None, outcomes, ok, from, trace);
    SoloLook(d, id, None, outcomes, ok, from, trace);
    AnswersLook(d);
  }

  lemma SoloSees(d: seq<Entry>, id: Id, b: Batch, outcomes: seq<Outcome>, more: seq<Entry>, from: nat, seen: seq<Action>, trace: seq<Action>)
    requires id != "" && Surveyed(d, id, 1, Some(b), outcomes, true, from, seen) && seen <= trace
    requires Solo(more) && Saw(more, 1, trace)
    ensures Solo(d + more) && Saw(d + more, 1, trace)
  {
    SurveySaw(d, id, 1, Some(b), outcomes, true, from, seen);
    SawStays(d, 1, seen, trace);
    SawJoins(d, more, 1, trace);
  }

  /** And one that claimed its candidate and settled it. */
  lemma SoloDone(d: seq<Entry>, id: Id, b: Batch, outcomes: seq<Outcome>, more: seq<Entry>, told: seq<Outcome>, stop: bool,
      ok: bool, from: nat, seen: seq<Action>, trace: seq<Action>)
    requires id != "" && Surveyed(d, id, 1, Some(b), outcomes, true, from, seen) && Fit(Some(b), outcomes, id, 1)
    requires seen <= trace && Begins(more, b) && Looks(more) == [] && Tells(more, told, IdsOf(b.members), stop, ok, trace)
    requires AnswersAll(more, told) && |told| == if ok then 1 else 0
    ensures Tells(d + more, outcomes + told, {id}, stop, ok, trace) && Looks(d + more) == [id]
    ensures AnswersAll(d + more, outcomes + told)
    ensures |outcomes + told| == if Grave(d + more) || Silent((d + more)[0].sight, id) then 0 else 1
  {
    SoloAnswers(d, id, b, outcomes, more, told, ok, from, seen);
    SoloSees(d, id, b, outcomes, more, from, seen, trace);
    ClaimThen(d, b, outcomes, more, told, stop, ok);
    RoundJoins(outcomes, told, b.members);
    HonestJoins(outcomes, told, trace);
  }

  lemma InfraTold(b: Batch, tx: TxResult, outcomes: seq<Outcome>, trace: seq<Action>)
    requires DistinctIds(b.members) && (outcomes == [] || outcomes == ClassifyAll(b.members, VerifyInfra))
    requires tx == TxOk ==> outcomes == ClassifyAll(b.members, VerifyInfra)
    ensures var d := [Judged(b, Infra), Dropping(b, tx)];
      Tells(d, outcomes, IdsOf(b.members), true, tx == TxOk, trace) && Begins(d, b) && Looks(d) == []
    ensures outcomes == (if tx == TxOk then ClassifyAll(b.members, VerifyInfra) else []) ==>
      AnswersAll([Judged(b, Infra), Dropping(b, tx)], outcomes)
  {
    InfraReported(b, tx, outcomes);
    NoLooks([Judged(b, Infra), Dropping(b, tx)], trace);
    AnswersReleased(Judged(b, Infra), b, tx);
    ClassifiedOnce(b.members);
    InfraClaimsNothing(b.members, trace);
  }

  lemma RedTold(b: Batch, tx: TxResult, outcomes: seq<Outcome>, trace: seq<Action>)
    requires DistinctIds(b.members) && |b.members| == 1
    requires outcomes == if tx == TxOk then ClassifyAll(b.members, VerifyRed) else []
    requires tx == TxOk ==> Honest(ClassifyAll(b.members, VerifyRed), trace)
    ensures var d := [Judged(b, Red), Rejecting(b, tx)];
      Tells(d, outcomes, IdsOf(b.members), tx != TxOk, tx == TxOk, trace) && Begins(d, b) && Looks(d) == []
        && AnswersAll(d, outcomes)
  {
    RedReported(b, tx, outcomes);
    NoLooks([Judged(b, Red), Rejecting(b, tx)], trace);
    AnswersRejected(b, tx);
    ClassifiedOnce(b.members);
  }

  lemma PassedTold(b: Batch, tx: TxResult, drop: TxResult, outcomes: seq<Outcome>, trace: seq<Action>)
    requires DistinctIds(b.members) && (outcomes == [] || (tx != TxFailed && outcomes == ClassifyAll(b.members, LandClass(tx))))
    requires Finished(tx, drop) ==> outcomes == ClassifyAll(b.members, LandClass(tx))
    requires tx != TxFailed ==> Honest(ClassifyAll(b.members, LandClass(tx)), trace)
    ensures var d := [Judged(b, Passed)] + LandEntries(b, tx, drop);
      Tells(d, outcomes, IdsOf(b.members), !Finished(tx, drop), Finished(tx, drop), trace) && Begins(d, b) && Looks(d) == []
    ensures outcomes == (if Finished(tx, drop) then ClassifyAll(b.members, LandClass(tx)) else []) ==>
      AnswersAll([Judged(b, Passed)] + LandEntries(b, tx, drop), outcomes)
  {
    PassedReported(b, tx, drop, outcomes);
    NoLooks([Judged(b, Passed)] + LandEntries(b, tx, drop), trace);
    AnswersLanded(b, tx, drop);
    ClassifiedOnce(b.members);
  }

  /** A red batch whose claim was dropped: the sweep's account is the call's. */
  lemma SweptTold(b: Batch, d: seq<Entry>, outcomes: seq<Outcome>, stop: bool, ok: bool, trace: seq<Action>)
    requires Tells(d, outcomes, IdsOf(b.members), stop, ok, trace)
    requires Looks(d) <= MemberIds(b.members) && (!stop ==> Looks(d) == MemberIds(b.members)) && AnswersAll(d, outcomes)
    ensures var whole := [Judged(b, Red)] + ([Dropping(b, TxOk)] + d);
      Tells(whole, outcomes, IdsOf(b.members), stop, ok, trace) && Begins(whole, b) && Swept(whole, b, stop)
        && AnswersAll(whole, outcomes)
  {
    AnswersSwept(b, d, outcomes);
    NoLooks([Dropping(b, TxOk)], trace);
    NoLooks([Judged(b, Red)], trace);
    SawJoins([Dropping(b, TxOk)], d, 1, trace);
    SawJoins([Judged(b, Red)], [Dropping(b, TxOk)] + d, 1, trace);
    SweepReported(b, d, outcomes, stop, ok);
  }

  lemma StuckTold(b: Batch, tx: TxResult, trace: seq<Action>)
    requires tx != TxOk
    ensures var whole := [Judged(b, Red)] + [Dropping(b, tx)];
      Tells(whole, [], IdsOf(b.members), true, false, trace) && Begins(whole, b) && Swept(whole, b, true)
        && AnswersAll(whole, [])
  {
    AnswersStuck(b, tx);
    NoLooks([Judged(b, Red)] + [Dropping(b, tx)], trace);
    StuckReported(b, tx);
  }
}
