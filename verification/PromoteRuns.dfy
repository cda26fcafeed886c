/** Promote as the source runs it: rounds of survey, claim, verify and land, beside
    peers that take any step at any moment and transactions that may fail. */
module PromoteRuns {
  import opened Options
  import opened Ordering
  import opened Trees
  import opened Envelopes
  import opened Selection
  import opened RefTransactions
  import opened BatchChains
  import opened Protocol
  import opened Histories
  import opened Diaries
  import opened Pushers
  import opened Decimals
  import Messages

  /** The shared ref store as one pusher meets it. st is the store together with what
      every pusher remembers; script is what the peers do between two of this
      pusher's own operations, and the other oracles are the clock's. */
  class World {
    const script: nat -> seq<Action>
    const verdict: nat -> Verdict
    const fault: nat -> Fault
    const gone: (nat, BatchId) -> bool
    const head: nat -> Commit
    const sha: Commit -> string
    const host: string
    const pid: int
    const procStart: int
    var st: State
    var clock: nat
    var mine: set<BatchId>
    var verifies: seq<VerifyRun>
    ghost var trace: seq<Action>
    ghost var diary: seq<Entry>

    /** st is what a run of the protocol reaches. */
    ghost predicate Valid()
      reads this
    {
      && st == Run(START, trace) && Owned(mine, st) && verifies == Runs(diary)
      && forall n :: WellFormed(head(n).tree)
    }

    /** None of our own claims is left, those in ks aside. */
    ghost predicate CleanBut(ks: set<BatchId>)
      reads this
    {
      Clean(mine, ks, st)
    }

    /** A transaction of ours met a fault of its own. */
    ghost predicate Faulted(from: nat, upto: nat) {
      exists n: nat :: from <= n < upto && fault(n) != NoFault
    }

    /** One step of the protocol, by whoever takes it. */
    method Take(a: Action)
      requires Valid()
      modifies this`st, this`trace
      ensures Valid() && st == Next(old(st), a) && trace == old(trace) + [a]
    {
      LongerRun(trace, a);
      OwnedStays(mine, trace, trace + [a]);
      st := Next(st, a);
      trace := trace + [a];
    }

    ghost method Note(e: Entry)
      requires Valid() && !e.Judged?
      modifies this`diary
      ensures Valid() && diary == old(diary) + [e]
    {
      RunsOn(diary, e);
      diary := diary + [e];
    }

    /** Any number of peers take any steps of their own. */
    method Interfere()
      requires Valid()
      modifies this`st, this`clock, this`trace
      ensures Valid() && old(trace) <= trace && clock == old(clock) + 1
      ensures forall k :: k in mine && k in st.verdicts ==> k in old(st).verdicts
    {
      var steps := script(clock);
      for i := 0 to |steps|
        invariant Valid() && old(trace) <= trace && clock == old(clock)
        invariant forall k :: k in mine && k in st.verdicts ==> k in old(st).verdicts
      {
        if !OwnerStep(steps[i], mine) {
          PeersLeaveOurs(st, steps[i], mine);
          Take(steps[i]);
        }
      }
      clock := clock + 1;
    }

    /** UpdateRefsTx: one of our own transactions, with whatever may befall it. Without
        a fault the caller learns the store's own verdict; a fault after the fact
        reports a failure of something that happened. */
    method Commit(a: Action) returns (r: TxResult)
      requires Valid() && Enabled(st, a) && !a.Verify?
      modifies this`st, this`clock, this`trace
      ensures Valid() && old(trace) <= trace && clock == old(clock) + 1
      ensures var t := Transact(old(st).refs, Lines(old(st), a));
        r == if fault(old(clock)) != NoFault then TxFailed
             else if t.Ok? then TxOk else if t.error == CasLost then TxCasLost else TxFailed
      ensures if fault(old(clock)) != Before && Transact(old(st).refs, Lines(old(st), a)).Ok?
        then trace == old(trace) + [a] && Carried(old(st), a, st)
        else trace == old(trace) && st == old(st)
    {
      var f := fault(clock);
      clock := clock + 1;
      if f == Before { return TxFailed; }
      var t := UpdateRefsTx(st.refs, Lines(st, a));
      if t.Ok? { Take(a); }
      r := Reported(f, t);
    }

    /** ResolveIntegrationRef: read it, or create it from HEAD, or read what the peer
        that won the race created. What comes back is what the ref holds. */
    method ResolveIntegration() returns (r: Option<Envelopes.Commit>)
      requires Valid()
      modifies this`st, this`clock, this`trace
      ensures Valid() && old(trace) <= trace && clock > old(clock)
      ensures r.Some? ==> HoldsIntegration(st, r.value)
      ensures r.None? ==> Integration !in st.refs && Faulted(old(clock), clock)
    {
      Interfere();
      if Integration in st.refs {
        IntegrationRead(trace);
        return Some(st.refs[Integration].commit);
      }
      var h := head(clock);
      Interfere();
      ghost var s, steps := st, trace;
      var tx := Commit(Bootstrap(h));
      if tx == TxOk {
        BootstrapHeld(s, h);
        return Some(h);
      }
      ghost var n := clock - 1;
      Interfere();
      if fault(n) == NoFault { BootstrapRefused(steps, trace, h); }
      if Integration !in st.refs { return None; }
      IntegrationRead(trace);
      r := Some(st.refs[Integration].commit);
    }

    /** reclaimOnePromotion: the claim is deleted as dead, speaks for the candidates
        it names, or blocks the round because it names none. */
    method ReclaimOne(k: BatchId, refs: Refs) returns (drop: bool, blocks: bool, ok: bool, ghost named: seq<Id>, ids: set<Id>)
      requires Valid() && ListedClaim(refs, k, st)
      modifies this`st, this`clock, this`trace
      ensures Valid() && old(trace) <= trace
      ensures Reads(refs, k, named) && (blocks <==> named == [])
      ensures drop <==> Messages.ReadClaim(TipText(refs, k)).Ok? && gone(old(clock), k)
      ensures drop && ok ==> Promoting(k) !in st.refs
      ensures !drop ==> ok && st == old(st)
      ensures !ok ==> Faulted(old(clock), clock) || Promoting(k) !in st.refs
      ensures clock >= old(clock)
      ensures ids == if drop then {} else Members(named)
    {
      ids, drop, blocks, ok, named := {}, false, false, true, Messages.ClaimedIds(TipText(refs, k));
      JudgedFacts(refs, k, gone(clock, k));
      match Judge(TipText(refs, k), gone(clock, k))
      case Dead =>
        drop := true;
        ghost var was := trace;
        Interfere();
        RecordKept(k, was, trace);
        ghost var steps := trace;
        var tx := Commit(Release(k));
        ok := tx == TxOk;
        if ok { ReleaseDone(steps, k); } else if fault(clock - 1) == NoFault { ReleaseRefused(steps, k); }
      case Spoken(candidates) =>
        ids := Members(candidates);
      case Blocking =>
        blocks := true;
    }

    /** The sweep so far: what it dropped is gone, and it dropped the readable claims
        whose owners were gone; the others speak for the candidates they name, and
        nobody else is spoken for; one that names nobody blocks the round. */
    ghost predicate Sweeping(found: Refs, ks: seq<BatchId>, g: Gleaned, claimed: set<Id>, blocked: bool)
      reads this
    {
      && SweptSoFar(found, ks, g.named, g.drops, claimed, blocked)
      && Dropped(ks, g.drops, st) && DropsExactly(found, ks, g, gone)
    }

    /** The next claim's turn. */
    method ReclaimNext(refs: Refs, ks: seq<BatchId>, i: nat, claimed: set<Id>, blocked: bool, ghost g: Gleaned, ghost since: nat)
      returns (spoken: set<Id>, blocks: bool, ok: bool, ghost h: Gleaned)
      requires Valid() && Sweeping(refs, ks, g, claimed, blocked) && |g.named| == i < |ks| && Timed(g, since, clock) && since <= clock
      requires forall j :: 0 <= j < |ks| ==> ListedClaim(refs, ks[j], st)
      modifies this`st, this`clock, this`trace
      ensures Valid() && old(trace) <= trace
      ensures ok ==> Sweeping(refs, ks, h, spoken, blocks) && |h.named| == i + 1 && Timed(h, since, clock)
      ensures !ok ==> Faulted(old(clock), clock) || Promoting(ks[i]) !in st.refs
      ensures clock >= old(clock)
    {
      ghost var was, names := trace, [];
      var drop, ids;
      drop, blocks, ok, names, ids := ReclaimOne(ks[i], refs);
      h := Gleaned(g.named + [names], g.drops + [drop], g.at + [old(clock)]);
      spoken, blocks := claimed + ids, blocked || blocks;
      if !ok { return; }
      DroppedStay(refs, ks, g.drops, was, trace);
      DroppedOne(ks, g.drops, drop, st);
      SweptOne(refs, ks, g.named, g.drops, claimed, blocked, names, drop, ids);
      TimedOneMore(g, since, old(clock), clock, names, drop);
      DropsOneMore(refs, ks, g, gone, old(clock), drop, names);
    }

    /** The claims that stand, each in its turn. */
    method SweepClaims() returns (claimed: set<Id>, blocked: bool, ok: bool, ghost found: Refs, ghost ks: seq<BatchId>, ghost g: Gleaned)
      requires Valid()
      modifies this`st, this`clock, this`trace
      ensures Valid() && old(trace) <= trace && clock > old(clock)
      ensures StoodBetween(found, |old(trace)|, trace)
      ensures ks == Listing(ClaimListing(found))
      ensures ok ==> Sweeping(found, ks, g, claimed, blocked) && |g.named| == |ks|
      ensures ok ==> Timed(g, old(clock), clock)
      ensures ok ==> SweptBetween(claimed, blocked, |old(trace)|, trace)
      ensures !ok ==> Faulted(old(clock), clock) || Vanished(|old(trace)|, trace)
    {
      Interfere();
      ghost var start := trace;
      var refs := st.refs;
      var listed := Listing(ClaimListing(refs));
      found, ks, g := refs, listed, Gleaned([], [], []);
      claimed, blocked, ok := {}, false, true;
      ListedAll(trace, refs, listed);
      for i := 0 to |listed|
        invariant Valid() && old(trace) <= start <= trace && |g.named| == i && ok
        invariant forall j :: 0 <= j < |ks| ==> ListedClaim(refs, ks[j], st)
        invariant Sweeping(refs, ks, g, claimed, blocked) && clock > old(clock)
        invariant Timed(g, old(clock), clock)
      {
        ghost var was := trace;
        claimed, blocked, ok, g := ReclaimNext(refs, listed, i, claimed, blocked, g, old(clock));
        if !ok {
          if Promoting(ks[i]) !in st.refs { VanishedThen(ks[i], |old(trace)|, start, trace); }
          StoodThen(found, |old(trace)|, start, trace);
          return;
        }
        ListedStay(refs, ks, was, trace);
      }
      StoodThen(found, |old(trace)|, start, trace);
      SweptThen(g, claimed, blocked, |old(trace)|, start, trace);
    }

    /** reclaimDeadPromotions: of the claims that stood at one moment, those that read
        back whole and whose owners were gone when looked for no longer stand; the
        others, and only they, speak for the candidates they name; one that names
        nobody blocks the round. */
    method Reclaim() returns (claimed: set<Id>, blocked: bool, ok: bool, ghost found: Refs, ghost ks: seq<BatchId>, ghost g: Gleaned)
      requires Valid()
      modifies this`st, this`clock, this`trace
      ensures Valid() && old(trace) <= trace && clock > old(clock)
      ensures StoodBetween(found, |old(trace)|, trace)
      ensures forall k :: k in ks <==> Promoting(k) in found
      ensures ok ==> SweepsExactly(found, ks, g.at, gone, claimed, blocked, st)
      ensures ok ==> Timed(g, old(clock), clock)
      ensures ok ==> SweptBetween(claimed, blocked, |old(trace)|, trace)
      ensures !ok ==> Faulted(old(clock), clock) || Vanished(|old(trace)|, trace)
    {
      claimed, blocked, ok, found, ks, g := SweepClaims();
      if ok { SweepMeans(found, ks, g, gone, claimed, blocked, st); }
    }

    function Head(m: Member): string {
      Messages.Attribution(m.id, sha(m.proposal), m.envelope.agent, m.envelope.session, m.envelope.bead)
    }

    function ClaimFor(ms: seq<Member>): Messages.Claim {
      Messages.Claim(host, pid, procStart, MemberIds(ms))
    }

    /** The messages of a batch's commits: each names its candidate, the last one also
        carries the claim. */
    function Texts(id: BatchId, ms: seq<Member>): seq<string> {
      seq(|ms|, i requires 0 <= i < |ms| =>
        if i + 1 == |ms| then Messages.TipMessage(Head(ms[i]), id, ClaimFor(ms)) else Head(ms[i]) + "\n")
    }

    /** What the batch's claim has to say fits its trailer lines. */
    ghost predicate Tellable(b: Batch) {
      && Messages.CleanValue(b.id) && Messages.CleanValue(host)
      && MIN_INT64 <= pid <= MAX_INT64 && MIN_INT64 <= procStart <= MAX_INT64
      && forall i :: 0 <= i < |b.members| ==> Messages.CleanId(b.members[i].id)
    }

    /** A peer that reads the claim's tip reads this very process as the owner, and the
        batch's candidates, all of them, in order. */
    lemma ClaimReads(b: Batch)
      requires b.members != [] && b.texts == Texts(b.id, b.members) && b.tip == BuildChain(b.snapshot, b.members, b.texts)
      ensures Tellable(b) ==>
        Messages.ReadClaim(b.tip.message) == Ok(Messages.Claim(host, pid, procStart, MemberIds(b.members)))
    {
      if Tellable(b) {
        var last := b.members[|b.members| - 1];
        Messages.ClaimRoundTrip(Head(last), b.id, ClaimFor(b.members));
      }
    }

    /** Each commit of a chain names its own candidate, proposal, agent, session and
        bead, if each fits a trailer line. */
    lemma TextsRead(b: Batch, i: nat)
      requires i < |b.members| && b.texts == Texts(b.id, b.members) && Tellable(b)
      requires var e := b.members[i].envelope;
        && Messages.CleanValue(sha(b.members[i].proposal))
        && forall v | v in [e.agent, e.session, e.bead] :: v == "" || Messages.CleanValue(v)
      ensures var m := b.members[i];
        Messages.SaysOf(b.texts[i], m.id, sha(m.proposal), m.envelope.agent, m.envelope.session, m.envelope.bead)
    {
      var m := b.members[i];
      var e := m.envelope;
      assert [e.agent, e.session, e.bead][0] == e.agent && [e.agent, e.session, e.bead][1] == e.session
        && [e.agent, e.session, e.bead][2] == e.bead;
      Messages.AttributionStays(m.id, sha(m.proposal), e.agent, e.session, e.bead, b.id, ClaimFor(b.members));
    }

    /** The batch is ours, on record, its members are as accepted, and its claim is the
        only one of ours that may stand. */
    ghost predicate Carrying(b: Batch)
      reads this
    {
      b.id in mine && OnRecord(b, st) && Plain(b) && CleanBut({b.id}) && Landable(b.members, st)
    }

    /** The queue and the proposals, each read at its own moment. */
    method ReadQueue(snapshot: Envelopes.Commit, claimed: set<Id>, only: Id, maxBatch: nat, ghost from: nat, ghost a: seq<Action>)
      returns (view: View)
      requires Valid() && from <= |a| && a <= trace
      requires HoldsIntegration(Run(START, a), snapshot) && SweptBetween(claimed, false, |a|, trace)
      modifies this`st, this`clock, this`trace
      ensures Valid() && old(trace) <= trace && clock > old(clock)
      ensures view.only == only && view.maxBatch == maxBatch && ReadBetween(view, snapshot, from, trace)
    {
      Interfere();
      ghost var b := trace;
      var candidates := CandidateListing(st.refs);
      Interfere();
      view := View(candidates, ProposalListing(st.refs), claimed, only, maxBatch, snapshot.tree);
      assert ReadAt(view, snapshot, a, old(trace), b, trace);
    }

    /** Why a look may come back with nothing readable: a fault, or a dead claim that
        was gone before it could be dropped. */
    ghost predicate Hindered(from: nat, upto: nat, start: nat)
      reads this
    {
      Faulted(from, upto) || Vanished(start, trace)
    }

    /** Phase 1's reads: the snapshot, the claims, the queue. */
    method Survey(only: Id, maxBatch: nat) returns (snapshot: Option<Envelopes.Commit>, sight: Sight)
      requires Valid()
      modifies this`st, this`clock, this`trace
      ensures Valid() && old(trace) <= trace && clock > old(clock)
      ensures sight.Seen? ==> snapshot.Some? && sight.view.only == only && sight.view.maxBatch == maxBatch
      ensures sight.Seen? ==> ReadBetween(sight.view, snapshot.value, |old(trace)|, trace)
      ensures sight.Blocked? ==> BlockedBetween(|old(trace)|, trace)
      ensures sight.Unread? ==> Hindered(old(clock), clock, |old(trace)|)
    {
      snapshot := ResolveIntegration();
      if snapshot.None? { return None, Unread; }
      ghost var a := trace;
      var claimed, blocked, swept, _, _, _ := Reclaim();
      if !swept {
        if Vanished(|a|, trace) { VanishedEarlier(|old(trace)|, |a|, trace); }
        return snapshot, Unread;
      }
      if blocked {
        BlockedThen(claimed, |old(trace)|, |a|, trace);
        return snapshot, Blocked;
      }
      var view := ReadQueue(snapshot.value, claimed, only, maxBatch, |old(trace)|, a);
      sight := Seen(view);
    }

    /** Build the chain for what was selected, under an id nobody has used. */
    method Prepare(snapshot: Envelopes.Commit, view: View) returns (b: Batch)
      requires Valid() && CleanBut({}) && view.snapshot == snapshot.tree
      requires Select(view).Done? && Select(view).choice.members != [] && Landable(Select(view).choice.members, st)
      modifies this`st, this`clock, this`trace
      ensures Valid() && old(trace) <= trace && CleanBut({}) && clock > old(clock) && Landable(b.members, st)
      ensures b.snapshot == snapshot && b.members == Select(view).choice.members && b.texts == Texts(b.id, b.members)
      ensures Enabled(st, Claim(b.id, snapshot, view, b.texts)) && b == Claimed(b.id, snapshot, view, b.texts)
    {
      ghost var was := trace;
      Interfere();
      CleanStays(mine, {}, was, trace);
      var ms := Select(view).choice.members;
      LandableStays(ms, was, trace);
      var id := FreshId(Listing(st.batches.Keys));
      var texts := Texts(id, ms);
      var tip := BuildBatchChain(snapshot, ms, texts);
      b := Batch(id, snapshot, ms, texts, tip);
    }

    /** The claim itself: under an unused id nothing but a fault can stop it. */
    method CommitClaim(a: Action) returns (tx: TxResult)
      requires Valid() && CleanBut({}) && a.Claim? && Enabled(st, a) && Landable(Select(a.view).choice.members, st)
      modifies this`st, this`clock, this`trace
      ensures Valid() && old(trace) <= trace && CleanBut({}) && clock == old(clock) + 1
      ensures tx == TxOk || Faulted(old(clock), clock)
      ensures tx == TxOk ==> OnRecord(Claimed(a.batch, a.snapshot, a.view, a.texts), st) && a.batch !in st.verdicts
      ensures Landable(Select(a.view).choice.members, st)
    {
      ghost var steps := trace;
      ClaimAccepted(steps, a);
      tx := Commit(a);
      CleanStays(mine, {}, steps, trace);
      LandableStays(Select(a.view).choice.members, steps, trace);
      if tx == TxOk { ClaimTaken(steps, a.batch, a.snapshot, a.view, a.texts); }
    }

    /** Prepare a batch, and claim it. */
    method MakeClaim(snapshot: Envelopes.Commit, view: View) returns (b: Batch, tx: TxResult)
      requires Valid() && CleanBut({}) && view.snapshot == snapshot.tree
      requires Select(view).Done? && Select(view).choice.members != [] && Landable(Select(view).choice.members, st)
      modifies this`st, this`clock, this`trace
      ensures Valid() && old(trace) <= trace && CleanBut({})
      ensures b.snapshot == snapshot && b.members == Select(view).choice.members
      ensures b.texts == Texts(b.id, b.members) && b.tip == BuildChain(snapshot, b.members, b.texts)
      ensures tx == TxOk ==> OnRecord(b, st) && Landable(b.members, st) && b.id !in st.verdicts
      ensures clock > old(clock) && (tx == TxOk || Faulted(old(clock), clock))
    {
      b := Prepare(snapshot, view);
      tx := CommitClaim(Claim(b.id, snapshot, view, b.texts));
    }

    /** A claim that went through is ours to carry. */
    method Own(b: Batch)
      requires Valid() && CleanBut({}) && OnRecord(b, st) && Plain(b) && Landable(b.members, st)
      modifies this`mine
      ensures Valid() && Carrying(b)
    {
      mine := mine + {b.id};
    }

    /** Claim the batch: the ref is what tells a peer this work is in flight. */
    method ClaimBatch(snapshot: Envelopes.Commit, view: View) returns (b: Batch, tx: TxResult)
      requires Valid() && CleanBut({}) && view.snapshot == snapshot.tree
      requires Select(view).Done? && Select(view).choice.members != [] && PlainMembers(Select(view).choice.members)
      requires Landable(Select(view).choice.members, st)
      modifies this`st, this`clock, this`trace, this`mine, this`diary
      ensures Valid() && old(trace) <= trace
      ensures diary == old(diary) + [Opened(b, tx)]
      ensures b.members == Select(view).choice.members && b.snapshot == snapshot
      ensures b.texts == Texts(b.id, b.members) && b.tip == BuildChain(snapshot, b.members, b.texts)
      ensures Tellable(b) ==>
        Messages.ReadClaim(b.tip.message) == Ok(Messages.Claim(host, pid, procStart, MemberIds(b.members)))
      ensures tx == TxOk ==> Carrying(b) && b.id !in st.verdicts
      ensures clock > old(clock) && (tx == TxOk || Faulted(old(clock), clock))
    {
      b, tx := MakeClaim(snapshot, view);
      ClaimReads(b);
      Note(Opened(b, tx));
      if tx == TxOk { Own(b); }
    }

    /** The look a round takes, on record. */
    method Look(only: Id, maxBatch: nat) returns (snapshot: Option<Envelopes.Commit>, sight: Sight)
      requires Valid() && CleanBut({})
      modifies this`st, this`clock, this`trace, this`diary
      ensures Valid() && old(trace) <= trace && CleanBut({}) && clock > old(clock)
      ensures diary == old(diary) + [Looked(only, sight)]
      ensures sight.Blocked? ==> BlockedBetween(|old(trace)|, trace)
      ensures sight.Unread? ==> Hindered(old(clock), clock, |old(trace)|)
      ensures sight.Seen? ==> snapshot.Some? && sight.view.snapshot == snapshot.value.tree
      ensures sight.Seen? ==> Looking(sight.view, only, maxBatch, |old(trace)|, trace)
      ensures sight.Seen? ==> Fits(sight.view)
    {
      ghost var was := trace;
      snapshot, sight := Survey(only, maxBatch);
      CleanStays(mine, {}, was, trace);
      Note(Looked(only, sight));
      if sight.Seen? {
        SawStore(sight.view, snapshot.value, only, maxBatch, |was|, trace);
        ReadPlain(sight.view, snapshot.value, |was|, trace);
        SelectionFits(sight.view);
      }
    }

    /** Claim what was selected. */
    method ClaimChosen(snapshot: Envelopes.Commit, view: View, ghost from: nat) returns (b: Option<Batch>, ghost d: seq<Entry>)
      requires Valid() && CleanBut({}) && view.snapshot == snapshot.tree
      requires Looking(view, view.only, view.maxBatch, from, trace) && Fits(view)
      requires Select(view).Done? && Select(view).choice.members != []
      modifies this`st, this`clock, this`trace, this`mine, this`diary
      ensures Valid() && old(trace) <= trace && diary == old(diary) + d
      ensures Surveyed([Looked(view.only, Seen(view))] + d, view.only, view.maxBatch, b, PassedOver(Seen(view)), b.Some?, from, trace)
      ensures b.Some? ==> b.value.members == Select(view).choice.members && Carrying(b.value) && b.value.id !in st.verdicts
    {
      ghost var was := trace;
      ChosenAsAccepted(view, view.only, view.maxBatch, from, trace);
      var c, tx := ClaimBatch(snapshot, view);
      LookingStays(view, view.only, view.maxBatch, from, was, trace);
      LookClaims(view, c, tx, from, trace);
      b, d := if tx == TxOk then Some(c) else None, [Opened(c, tx)];
    }

    /** Select from what the look saw, and claim what was selected. */
    method Choose(snapshot: Envelopes.Commit, view: View, ghost from: nat)
      returns (b: Option<Batch>, outcomes: seq<Outcome>, ok: bool, ghost d: seq<Entry>)
      requires Valid() && CleanBut({}) && view.snapshot == snapshot.tree
      requires Looking(view, view.only, view.maxBatch, from, trace) && Fits(view)
      modifies this`st, this`clock, this`trace, this`mine, this`diary
      ensures Valid() && old(trace) <= trace && diary == old(diary) + d
      ensures Surveyed([Looked(view.only, Seen(view))] + d, view.only, view.maxBatch, b, outcomes, ok, from, trace)
      ensures Fit(b, outcomes, view.only, view.maxBatch)
      ensures b.Some? ==> Carrying(b.value) && b.value.id !in st.verdicts
      ensures ok && b.None? ==> CleanBut({})
    {
      b, d := None, [];
      var chosen := SelectCandidates(view);
      outcomes := if chosen.Failed? then chosen.outcomes else chosen.choice.outcomes;
      if chosen.Failed? || chosen.choice.members == [] {
        LookEnds(view.only, Seen(view), view.maxBatch, from, trace);
        ok := chosen.Done?;
      } else {
        b, d := ClaimChosen(snapshot, view, from);
        ok := b.Some?;
      }
    }

    /** promotePhase1For: snapshot, reclaim, select, build the chain, claim it. */
    method Phase1(only: Id, maxBatch: nat) returns (b: Option<Batch>, outcomes: seq<Outcome>, ok: bool, ghost d: seq<Entry>)
      requires Valid() && CleanBut({})
      modifies this`st, this`clock, this`trace, this`mine, this`diary
      ensures Valid() && old(trace) <= trace && diary == old(diary) + d
      ensures Surveyed(d, only, maxBatch, b, outcomes, ok, |old(trace)|, trace) && Fit(b, outcomes, only, maxBatch)
      ensures b.Some? ==> Carrying(b.value) && b.value.id !in st.verdicts
      ensures ok && b.None? ==> CleanBut({})
    {
      var snapshot, sight := Look(only, maxBatch);
      if sight.Seen? {
        b, outcomes, ok, d := Choose(snapshot.value, sight.view, |old(trace)|);
        Regroup(old(diary), [Looked(only, sight)], d);
        d := [Looked(only, sight)] + d;
      } else {
        LookEnds(only, sight, maxBatch, |old(trace)|, trace);
        b, outcomes, ok, d := None, [], sight.Blocked?, [Looked(only, sight)];
      }
    }

    /** A verdict reached is on record. */
    method Rule(b: Batch, passed: bool)
      requires Valid() && Carrying(b) && b.id !in st.verdicts
      modifies this`st, this`trace
      ensures Valid() && old(trace) <= trace && Carrying(b)
      ensures b.id in st.verdicts && st.verdicts[b.id] == passed
    {
      ghost var was := trace;
      Take(Verify(b.id, passed));
      StillCarried(b, mine, was, trace);
    }

    /** timedVerify: the one place a verify runs, so every one is accounted for. No
        lock is held while it does. */
    method VerifyBatch(b: Batch) returns (v: Verdict)
      requires Valid() && Carrying(b) && b.id !in st.verdicts
      modifies this`st, this`clock, this`trace, this`verifies, this`diary
      ensures Valid() && old(trace) <= trace && Carrying(b)
      ensures clock > old(clock) && v == verdict(clock - 1)
      ensures v != Infra ==> b.id in st.verdicts && st.verdicts[b.id] == (v == Passed)
      ensures verifies == old(verifies) + [VerifyRun(b.id, |b.members|, v)]
      ensures diary == old(diary) + [Judged(b, v)]
    {
      ghost var was := trace;
      Interfere();
      StillCarried(b, mine, was, trace);
      v := verdict(clock);
      clock := clock + 1;
      RunsOn(diary, Judged(b, v));
      verifies := verifies + [VerifyRun(b.id, |b.members|, v)];
      diary := diary + [Judged(b, v)];
      if v != Infra { Rule(b, v == Passed); }
    }

    /** releaseBatch: drop the claim, leave the candidates. */
    method ReleaseBatch(b: Batch) returns (tx: TxResult)
      requires Valid() && Carrying(b)
      modifies this`st, this`clock, this`trace, this`diary
      ensures Valid() && old(trace) <= trace
      ensures diary == old(diary) + [Dropping(b, tx)]
      ensures tx == TxOk ==> CleanBut({})
      ensures tx != TxOk ==> Faulted(old(clock), clock) || Promoting(b.id) !in st.refs
    {
      ghost var was := trace;
      Interfere();
      StillCarried(b, mine, was, trace);
      ghost var steps := trace;
      tx := Commit(Release(b.id));
      Note(Dropping(b, tx));
      if tx == TxOk {
        ReleaseDone(steps, b.id);
        StillCarried(b, mine, steps, trace);
      } else if fault(clock - 1) == NoFault {
        ReleaseRefused(steps, b.id);
      }
    }

    /** The landing itself. It is refused only when integration moved, the claim is gone
        or a member has been settled. */
    method CommitLanding(b: Batch) returns (tx: TxResult)
      requires Valid() && Carrying(b) && b.id in st.verdicts && st.verdicts[b.id]
      modifies this`st, this`clock, this`trace
      ensures Valid() && old(trace) <= trace && clock == old(clock) + 1
      ensures tx == TxOk ==> CleanBut({}) && Honest(ClassifyAll(b.members, Promoted), trace)
      ensures tx == TxCasLost ==> Carrying(b) && Honest(ClassifyAll(b.members, PromotionRace), trace)
      ensures tx == TxFailed ==> Faulted(old(clock), clock) || Promoting(b.id) !in st.refs || SomeSettled(st, b.members)
    {
      ghost var steps := trace;
      tx := Commit(Land(b.id));
      if tx == TxOk {
        LandHonest(steps, b);
        StillCarried(b, mine, steps, trace);
      } else if tx == TxCasLost {
        RaceHonest(b, steps, trace);
      } else if fault(clock - 1) == NoFault {
        LandRefused(steps, b);
      }
    }

    /** promotePhase3: one transaction against everything phase 1 read. */
    method Phase3(b: Batch) returns (tx: TxResult)
      requires Valid() && Carrying(b) && b.id in st.verdicts && st.verdicts[b.id]
      modifies this`st, this`clock, this`trace, this`diary
      ensures Valid() && old(trace) <= trace
      ensures diary == old(diary) + [Landing(b, tx)]
      ensures tx == TxOk ==> CleanBut({}) && Honest(ClassifyAll(b.members, Promoted), trace)
      ensures tx == TxCasLost ==> Carrying(b) && Honest(ClassifyAll(b.members, PromotionRace), trace)
      ensures tx == TxFailed ==> Faulted(old(clock), clock) || Promoting(b.id) !in st.refs || SomeSettled(st, b.members)
    {
      ghost var was := trace;
      Interfere();
      StillCarried(b, mine, was, trace);
      tx := CommitLanding(b);
      Note(Landing(b, tx));
    }

    /** Land the batch; if integration moved under it, give the claim up. */
    method LandOrRelease(b: Batch) returns (tx: TxResult, drop: TxResult)
      requires Valid() && Carrying(b) && b.id in st.verdicts && st.verdicts[b.id]
      modifies this`st, this`clock, this`trace, this`diary
      ensures Valid() && old(trace) <= trace
      ensures diary == old(diary) + LandEntries(b, tx, drop)
      ensures Finished(tx, drop) ==> CleanBut({})
      ensures tx != TxFailed ==> Honest(ClassifyAll(b.members, LandClass(tx)), trace)
    {
      drop := TxOk;
      tx := Phase3(b);
      if tx == TxCasLost {
        ghost var was := trace;
        drop := ReleaseBatch(b);
        HonestStays(ClassifyAll(b.members, PromotionRace), was, trace);
        Regroup(old(diary), [Landing(b, tx)], [Dropping(b, drop)]);
      }
    }

    /** rejectSolo: the one path that destroys a candidate. */
    method RejectSolo(b: Batch) returns (tx: TxResult)
      requires Valid() && Carrying(b) && |b.members| == 1 && b.id in st.verdicts && !st.verdicts[b.id]
      modifies this`st, this`clock, this`trace, this`diary
      ensures Valid() && old(trace) <= trace
      ensures diary == old(diary) + [Rejecting(b, tx)]
      ensures tx == TxOk ==> CleanBut({}) && Honest(ClassifyAll(b.members, VerifyRed), trace)
      ensures tx != TxOk ==>
        Faulted(old(clock), clock) || !MemberIntact(st.refs, b.members[0]) || Promoting(b.id) !in st.refs
    {
      ghost var was := trace;
      Interfere();
      StillCarried(b, mine, was, trace);
      ghost var steps := trace;
      tx := Commit(Retire(b.id));
      Note(Rejecting(b, tx));
      if tx == TxOk {
        RetireHonest(steps, b);
        StillCarried(b, mine, steps, trace);
      } else if fault(clock - 1) == NoFault {
        RetireRefused(steps, b);
      }
    }

    /** A call's account, and, without an error, none of its own claims left. */
    ghost predicate Account(d: seq<Entry>, outcomes: seq<Outcome>, about: set<Id>, stop: bool, ok: bool)
      reads this
    {
      Tells(d, outcomes, about, stop, ok, trace) && (ok ==> CleanBut({}))
    }

    /** Verify and settle a batch of one. */
    method SettleSolo(b: Batch) returns (outcomes: seq<Outcome>, stop: bool, ok: bool, ghost d: seq<Entry>)
      requires Valid() && Carrying(b) && b.id !in st.verdicts && |b.members| == 1
      modifies this
      ensures Valid() && old(trace) <= trace && diary == old(diary) + d
      ensures Account(d, outcomes, IdsOf(b.members), stop, ok)
      ensures Begins(d, b) && Looks(d) == []
      ensures AnswersAll(d, outcomes) && |outcomes| == if ok then 1 else 0
      ensures |verifies| == |old(verifies)| + 1
    {
      outcomes, stop, ok := [], true, false;
      var v := VerifyBatch(b);
      match v
      case Infra =>
        var tx := ReleaseBatch(b);
        ok := tx == TxOk;
        if ok { outcomes := ClassifyAll(b.members, VerifyInfra); }
        d := [Judged(b, Infra), Dropping(b, tx)];
        InfraTold(b, tx, outcomes, trace);
        TwoMore(old(diary), Judged(b, Infra), Dropping(b, tx));
      case Red =>
        var tx := RejectSolo(b);
        ok, stop := tx == TxOk, tx != TxOk;
        if ok { outcomes := ClassifyAll(b.members, VerifyRed); }
        d := [Judged(b, Red), Rejecting(b, tx)];
        RedTold(b, tx, outcomes, trace);
        TwoMore(old(diary), Judged(b, Red), Rejecting(b, tx));
      case Passed =>
        var tx, drop := LandOrRelease(b);
        ok, stop := Finished(tx, drop), !Finished(tx, drop);
        if ok { outcomes := ClassifyAll(b.members, LandClass(tx)); }
        d := [Judged(b, Passed)] + LandEntries(b, tx, drop);
        PassedTold(b, tx, drop, outcomes, trace);
        Regroup(old(diary), [Judged(b, Passed)], LandEntries(b, tx, drop));
    }

    /** promoteSolo: the three phases for one candidate on a fresh snapshot. It leaves
        with exactly one outcome unless the call has an error, or the look was silent. */
    method PromoteSolo(id: Id) returns (outcomes: seq<Outcome>, stop: bool, ok: bool, ghost d: seq<Entry>)
      requires Valid() && CleanBut({}) && id != ""
      modifies this
      ensures Valid() && old(trace) <= trace && diary == old(diary) + d
      ensures Account(d, outcomes, {id}, stop, ok)
      ensures Looks(d) == [id] && AnswersAll(d, outcomes)
      ensures d != [] && d[0].Looked? && |outcomes| == if Grave(d) || Silent(d[0].sight, id) then 0 else 1
      ensures |verifies| <= |old(verifies)| + 1
    {
      var one: Option<Batch>;
      one, outcomes, ok, d := Phase1(id, 1);
      stop := !ok;
      if one.None? {
        SoloEnds(d, id, outcomes, ok, |old(trace)|, trace);
        return;
      }
      var b := one.value;
      IdsCounted(b.members);
      ghost var more, seen := [], trace;
      var told;
      told, stop, ok, more := SettleSolo(b);
      SoloDone(d, id, b, outcomes, more, told, stop, ok, |old(trace)|, seen, trace);
      Regroup(old(diary), d, more);
      outcomes, d := outcomes + told, d + more;
    }

    /** redBatchSweep: each member of a red batch alone, in order, unless trouble
        stops the sweep. */
    method RedBatchSweep(ms: seq<Member>) returns (outcomes: seq<Outcome>, stop: bool, ok: bool, ghost d: seq<Entry>)
      requires Valid() && CleanBut({}) && DistinctIds(ms) && IdsPlain(ms)
      modifies this
      ensures Valid() && old(trace) <= trace && diary == old(diary) + d
      ensures Account(d, outcomes, IdsOf(ms), stop, ok)
      ensures Looks(d) <= MemberIds(ms) && (!stop ==> Looks(d) == MemberIds(ms)) && AnswersAll(d, outcomes)
      ensures |verifies| <= |old(verifies)| + |ms|
    {
      outcomes, stop, ok, d := [], false, true, [];
      SweepBegins(ms);
      for i := 0 to |ms|
        invariant Valid() && old(trace) <= trace && diary == old(diary) + d
        invariant SweepSoFar(ms, i, d, outcomes) && Honest(outcomes, trace) && CleanBut({})
        invariant !stop && ok && AnswersAll(d, outcomes) && Saw(d, 1, trace)
        invariant |verifies| <= |old(verifies)| + i
      {
        ghost var was := trace;
        ghost var play;
        var more;
        more, stop, ok, play := PromoteSolo(ms[i].id);
        HonestStays(outcomes, was, trace);
        SweepGoesOn(ms, i, d, outcomes, play, more, stop, ok, was, trace);
        Regroup(old(diary), d, play);
        outcomes, d := outcomes + more, d + play;
        if stop { return; }
      }
      SweepEnds(ms, d, outcomes);
    }

    /** A red batch: the claim is dropped, and each member tried alone. */
    method ReleaseAndSweep(b: Batch) returns (outcomes: seq<Outcome>, stop: bool, ok: bool, ghost d: seq<Entry>)
      requires Valid() && Carrying(b)
      modifies this
      ensures Valid() && old(trace) <= trace && diary == old(diary) + d
      ensures Account([Judged(b, Red)] + d, outcomes, IdsOf(b.members), stop, ok)
      ensures Swept([Judged(b, Red)] + d, b, stop) && AnswersAll([Judged(b, Red)] + d, outcomes)
      ensures |verifies| <= |old(verifies)| + |b.members|
    {
      outcomes, stop, ok := [], true, false;
      var tx := ReleaseBatch(b);
      d := [Dropping(b, tx)];
      if tx == TxOk {
        ghost var more;
        outcomes, stop, ok, more := RedBatchSweep(b.members);
        SweptTold(b, more, outcomes, stop, ok, trace);
        Regroup(old(diary), [Dropping(b, TxOk)], more);
        d := [Dropping(b, TxOk)] + more;
      } else {
        StuckTold(b, tx, trace);
      }
    }

    /** promoteVerifyAndCommit: phases 2 and 3 for a claimed batch, and the red-batch
        fallback. */
    method VerifyAndCommit(b: Batch) returns (outcomes: seq<Outcome>, stop: bool, ok: bool, ghost d: seq<Entry>)
      requires Valid() && Carrying(b) && b.id !in st.verdicts
      modifies this
      ensures Valid() && old(trace) <= trace && diary == old(diary) + d
      ensures Account(d, outcomes, IdsOf(b.members), stop, ok)
      ensures Begins(d, b) && Swept(d, b, stop) && Heard(d, b, outcomes)
      ensures |verifies| <= |old(verifies)| + 1 + |b.members|
    {
      outcomes, stop, ok := [], true, false;
      var v := VerifyBatch(b);
      match v
      case Infra =>
        var tx := ReleaseBatch(b);
        outcomes, ok, d := ClassifyAll(b.members, VerifyInfra), tx == TxOk, [Judged(b, Infra), Dropping(b, tx)];
        InfraTold(b, tx, outcomes, trace);
        TwoMore(old(diary), Judged(b, Infra), Dropping(b, tx));
      case Red =>
        ghost var more;
        outcomes, stop, ok, more := ReleaseAndSweep(b);
        Regroup(old(diary), [Judged(b, Red)], more);
        d := [Judged(b, Red)] + more;
      case Passed =>
        var tx, drop := LandOrRelease(b);
        ok, stop := Finished(tx, drop), !Finished(tx, drop);
        if tx != TxFailed { outcomes := ClassifyAll(b.members, LandClass(tx)); }
        d := [Judged(b, Passed)] + LandEntries(b, tx, drop);
        PassedTold(b, tx, drop, outcomes, trace);
        Regroup(old(diary), [Judged(b, Passed)], LandEntries(b, tx, drop));
    }

    /** One round; more says whether another may follow: not after trouble, and not
        when there was nothing to do. */
    method Round(maxBatch: nat) returns (outcomes: seq<Outcome>, more: bool, ok: bool, ghost d: seq<Entry>)
      requires Valid() && CleanBut({})
      modifies this
      ensures Valid() && old(trace) <= trace && diary == old(diary) + d
      ensures Reports(d, outcomes, Trouble(d), ok) && OneEach(outcomes) && Honest(outcomes, trace)
      ensures more <==> !Trouble(d) && !Idle(d)
      ensures Saw(d, maxBatch, trace) && BeginsRound(d)
      ensures |verifies| <= |old(verifies)| + 1 + maxBatch
      ensures ok ==> CleanBut({})
    {
      var b: Option<Batch>;
      b, outcomes, ok, d := Phase1("", maxBatch);
      more := false;
      NothingClaimed(outcomes, trace);
      if b.None? {
        NothingTaken(d, "", maxBatch, outcomes, ok, |old(trace)|, trace);
        SurveySaw(d, "", maxBatch, b, outcomes, ok, |old(trace)|, trace);
        return;
      }
      ghost var play, seen := [], trace;
      var told, stop;
      told, stop, ok, play := VerifyAndCommit(b.value);
      RoundSaw(d, maxBatch, b, outcomes, true, play, |old(trace)|, seen, trace);
      ClaimThen(d, b.value, outcomes, play, told, stop, ok);
      RoundJoins(outcomes, told, b.value.members);
      HonestJoins(outcomes, told, trace);
      Regroup(old(diary), d, play);
      outcomes, more, d := outcomes + told, !stop, d + play;
    }

    /** Round after round, until the last one or until one has nothing more to do. */
    method Rounds(size: nat, limit: nat) returns (rounds: seq<seq<Outcome>>, ok: bool, ghost d: seq<Entry>)
      requires Valid() && CleanBut({}) && limit > 0
      modifies this
      ensures Valid() && old(trace) <= trace && diary == old(diary) + d
      ensures Reports(d, Flatten(rounds), Trouble(d), ok) && AllTold(rounds, trace) && Saw(d, size, trace)
      ensures |rounds| <= limit && (|rounds| == limit || Trouble(d) || EndsIdle(d))
      ensures Affords(|old(verifies)|, |verifies|, limit, size)
      ensures ok ==> CleanBut({})
    {
      rounds, ok, d := [], true, [];
      ReportsNothing();
      for i := 0 to limit
        invariant Valid() && old(trace) <= trace && diary == old(diary) + d
        invariant |rounds| == i && ok && AllTold(rounds, trace)
        invariant Reports(d, Flatten(rounds), false, true)
        invariant |verifies| <= |old(verifies)| + i * (size + 1)
        invariant CleanBut({}) && Saw(d, size, trace)
      {
        ghost var was, spent := trace, |verifies|;
        ghost var play;
        var outcomes, more;
        outcomes, more, ok, play := Round(size);
        ToldStays(rounds, was, trace);
        Spend(|verifies|, spent, |old(verifies)|, i, limit, size + 1);
        RoundsGoOn(d, rounds, play, outcomes, ok, size, was, trace);
        Regroup(old(diary), d, play);
        rounds, d := rounds + [outcomes], d + play;
        if !more { return; }
      }
    }

    /** Promote: bounded rounds. Whatever the peers, the faults and the verdicts, the
        run stays a run of the protocol; what the call did is what the diary gained,
        in legal order; its outcomes are what the diary tells, a round gives no
        candidate two, and a claimed settlement is borne out by the run; every look at
        the queue is for the asked size, and claims less only at the queue's end; it
        fails exactly when the diary has an error, leaves none of its own claims
        otherwise, and ends before its last round only on trouble or with nothing left
        to do. */
    method Promote(maxBatch: int, maxRounds: int) returns (rounds: seq<seq<Outcome>>, ok: bool, ghost d: seq<Entry>)
      requires Valid() && CleanBut({})
      modifies this
      ensures Valid() && old(trace) <= trace && diary == old(diary) + d
      ensures Reports(d, Flatten(rounds), Trouble(d), ok)
      ensures AllTold(rounds, trace)
      ensures Saw(d, if maxBatch <= 0 then 3 else maxBatch, trace)
      ensures LooksFor(d, if maxBatch <= 0 then 3 else maxBatch)
      ensures ClaimsInFull(d, if maxBatch <= 0 then 3 else maxBatch)
      ensures var limit := if maxRounds <= 0 then 4 else maxRounds;
        |rounds| <= limit && (|rounds| == limit || Trouble(d) || EndsIdle(d))
      ensures Affords(|old(verifies)|, |verifies|, if maxRounds <= 0 then 4 else maxRounds, if maxBatch <= 0 then 3 else maxBatch)
      ensures ok ==> CleanBut({})
    {
      rounds, ok, d := Rounds(Limit(maxBatch, DEFAULT_MAX_BATCH), Limit(maxRounds, DEFAULT_MAX_ROUNDS));
      SawClaimsInFull(d, if maxBatch <= 0 then 3 else maxBatch, trace);
    }
  }
}
