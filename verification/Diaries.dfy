/** What one pusher did, in order: its looks at the queue, the batches it claimed, the
    verdicts it got, the transactions it tried. A call's outcomes and its errors are
    read off this and nothing else. */
module Diaries {
  import opened Options
  import opened Ordering
  import opened Trees
  import opened Envelopes
  import opened Selection
  import opened Choices
  import opened RefTransactions
  import opened BatchChains
  import Admission

  datatype TxResult = TxOk | TxCasLost | TxFailed

  datatype Verdict = Passed | Red | Infra

  /** One phase-2 verify, as accounted for. */
  datatype VerifyRun = VerifyRun(batch: BatchId, candidates: nat, verdict: Verdict)

  /** What a look at the queue gave: nothing readable, a claim that blocks the round,
      or the queue. */
  datatype Sight = Unread | Blocked | Seen(view: View)

  datatype Entry =
    | Looked(only: Id, sight: Sight)
    | Opened(batch: Batch, result: TxResult)
    | Judged(batch: Batch, verdict: Verdict)
    | Landing(batch: Batch, result: TxResult)
    | Dropping(batch: Batch, result: TxResult)
    | Rejecting(batch: Batch, result: TxResult)

  function ClassifyAll(ms: seq<Member>, class_: OutcomeClass): (outs: seq<Outcome>)
    ensures |outs| == |ms| && forall i :: 0 <= i < |ms| ==> outs[i] == Outcome(ms[i].id, class_)
  {
    seq(|ms|, i requires 0 <= i < |ms| => Outcome(ms[i].id, class_))
  }

  /** The candidates passed over as stale. */
  function PassedOver(s: Sight): seq<Outcome> {
    if !s.Seen? then []
    else
      match Select(s.view)
      case Done(c) => c.outcomes
      case Failed(outcomes, _) => outcomes
  }

  /** The outcomes one entry accounts for. */
  function ToldBy(e: Entry): seq<Outcome> {
    match e
    case Looked(_, sight) => PassedOver(sight)
    case Judged(b, Infra) => ClassifyAll(b.members, VerifyInfra)
    case Landing(b, TxOk) => ClassifyAll(b.members, Promoted)
    case Landing(b, TxCasLost) => ClassifyAll(b.members, PromotionRace)
    case Rejecting(b, TxOk) => ClassifyAll(b.members, VerifyRed)
    case _ => []
  }

  function Told(d: seq<Entry>): seq<Outcome> {
    if |d| == 0 then [] else Told(d[..|d| - 1]) + ToldBy(d[|d| - 1])
  }

  /** An error: the queue cannot be read or chosen from, or a transaction failed that
      is not a landing's lost compare-and-swap. */
  predicate IsGrave(e: Entry) {
    match e
    case Looked(_, sight) => sight.Unread? || (sight.Seen? && Select(sight.view).Failed?)
    case Judged(_, _) => false
    case Landing(_, result) => result == TxFailed
    case _ => e.result != TxOk
  }

  predicate Grave(d: seq<Entry>) {
    exists i | 0 <= i < |d| :: IsGrave(d[i])
  }

  /** Not worth another try: an error, or a verify that reached no verdict. */
  predicate IsTrouble(e: Entry) {
    IsGrave(e) || (e.Judged? && e.verdict == Infra)
  }

  predicate Trouble(d: seq<Entry>) {
    exists i | 0 <= i < |d| :: IsTrouble(d[i])
  }

  /** The candidates looked for, in order; "" is the whole queue. */
  function Looks(d: seq<Entry>): seq<Id> {
    if |d| == 0 then []
    else if d[|d| - 1].Looked? then Looks(d[..|d| - 1]) + [d[|d| - 1].only]
    else Looks(d[..|d| - 1])
  }

  /** Nothing to do: the round is blocked, or no candidate is eligible. */
  predicate Nothing(s: Sight) {
    s.Blocked? || (s.Seen? && Select(s.view).Done? && Select(s.view).choice.members == [])
  }

  /** What has to come next. A batch chosen is claimed, a batch claimed is verified, a
      verdict is acted on at once, and a lost landing gives its claim up. */
  predicate Follow(e: Entry, next: Option<Entry>) {
    match e
    case Looked(_, Seen(view)) =>
      Select(view).Done? && Select(view).choice.members != [] ==>
        next.Some? && next.value.Opened? && next.value.batch.members == Select(view).choice.members
    case Opened(b, TxOk) => next.Some? && next.value.Judged? && next.value.batch == b
    case Judged(b, Passed) => next.Some? && next.value.Landing? && next.value.batch == b
    case Judged(b, Infra) => next.Some? && next.value.Dropping? && next.value.batch == b
    case Judged(b, Red) =>
      next.Some? && (next.value.Dropping? || (next.value.Rejecting? && |b.members| == 1)) && next.value.batch == b
    case Landing(b, TxCasLost) => next.Some? && next.value.Dropping? && next.value.batch == b
    case _ => true
  }

  function Upcoming(d: seq<Entry>, i: nat, next: Option<Entry>): Option<Entry>
    requires i < |d|
  {
    if i + 1 < |d| then Some(d[i + 1]) else next
  }

  /** Every entry is followed as it must be; next is what comes after the last. */
  predicate Legal(d: seq<Entry>, next: Option<Entry>) {
    forall i | 0 <= i < |d| :: Follow(d[i], Upcoming(d, i, next))
  }

  lemma Regroup<T>(a: seq<T>, b: seq<T>, c: seq<T>)
    ensures a + b + c == a + (b + c)
  {
  }

  lemma {:induction false} ToldJoins(a: seq<Entry>, b: seq<Entry>)
    ensures Told(a + b) == Told(a) + Told(b)
  {
    if |b| == 0 {
      assert a + b == a;
    } else {
      assert (a + b)[..|a + b| - 1] == a + b[..|b| - 1];
      ToldJoins(a, b[..|b| - 1]);
      Regroup(Told(a), Told(b[..|b| - 1]), ToldBy(b[|b| - 1]));
    }
  }

  lemma {:induction false} LooksJoin(a: seq<Entry>, b: seq<Entry>)
    ensures Looks(a + b) == Looks(a) + Looks(b)
  {
    if |b| == 0 {
      assert a + b == a;
    } else {
      assert (a + b)[..|a + b| - 1] == a + b[..|b| - 1];
      LooksJoin(a, b[..|b| - 1]);
      Regroup(Looks(a), Looks(b[..|b| - 1]), if b[|b| - 1].Looked? then [b[|b| - 1].only] else []);
    }
  }

  lemma TroubleJoins(a: seq<Entry>, b: seq<Entry>)
    ensures Grave(a + b) <==> Grave(a) || Grave(b)
    ensures Trouble(a + b) <==> Trouble(a) || Trouble(b)
  {
    var d := a + b;
    assert forall i :: 0 <= i < |a| ==> d[i] == a[i];
    assert forall i :: 0 <= i < |b| ==> d[|a| + i] == b[i];
    assert forall i :: |a| <= i < |d| ==> d[i] == b[i - |a|];
  }

  lemma LegalJoins(a: seq<Entry>, b: seq<Entry>)
    requires Legal(b, None) && Legal(a, if b == [] then None else Some(b[0]))
    ensures Legal(a + b, None)
  {
    var d := a + b;
    forall i | 0 <= i < |d| ensures Follow(d[i], Upcoming(d, i, None)) {
      if i < |a| {
        assert d[i] == a[i] && Follow(a[i], Upcoming(a, i, if b == [] then None else Some(b[0])));
      } else {
        assert d[i] == b[i - |a|] && Follow(b[i - |a|], Upcoming(b, i - |a|, None));
      }
    }
  }

  /** A complete record may be followed by anything. */
  lemma LegalOpens(d: seq<Entry>, next: Option<Entry>)
    requires Legal(d, None)
    ensures Legal(d, next)
  {
    forall i | 0 <= i < |d| ensures Follow(d[i], Upcoming(d, i, next)) {
      assert Follow(d[i], Upcoming(d, i, None));
    }
  }

  /** A call that did d: its record is complete, its errors are the record's, and
      without one its outcomes are the record's too. */
  ghost predicate Reports(d: seq<Entry>, outcomes: seq<Outcome>, stop: bool, ok: bool) {
    && Legal(d, None)
    && (ok <==> !Grave(d)) && (stop <==> Trouble(d))
    && (ok ==> outcomes == Told(d))
  }

  lemma ReportsNothing()
    ensures Reports([], [], false, true) && Looks([]) == []
  {
  }

  /** One call after another, the first without an error. */
  lemma ReportsJoin(a: seq<Entry>, was: seq<Outcome>, b: seq<Entry>, more: seq<Outcome>, stop: bool, ok: bool)
    requires Legal(a, if b == [] then None else Some(b[0])) && !Trouble(a) && was == Told(a)
    requires Reports(b, more, stop, ok)
    ensures Reports(a + b, was + more, stop, ok) && Looks(a + b) == Looks(a) + Looks(b)
  {
    ToldJoins(a, b);
    LooksJoin(a, b);
    TroubleJoins(a, b);
    LegalJoins(a, b);
    assert Grave(a) ==> Trouble(a);
  }

  lemma One(e: Entry, next: Option<Entry>)
    ensures Told([e]) == ToldBy(e) && Looks([e]) == (if e.Looked? then [e.only] else [])
    ensures (Grave([e]) <==> IsGrave(e)) && (Trouble([e]) <==> IsTrouble(e))
    ensures Legal([e], next) <==> Follow(e, next)
  {
    var d := [e];
    assert d[..0] == [];
    assert d[0] == e && Upcoming(d, 0, next) == next;
  }

  lemma Two(e: Entry, f: Entry, next: Option<Entry>)
    ensures Told([e, f]) == ToldBy(e) + ToldBy(f)
    ensures Looks([e, f]) == Looks([e]) + Looks([f])
    ensures (Grave([e, f]) <==> IsGrave(e) || IsGrave(f)) && (Trouble([e, f]) <==> IsTrouble(e) || IsTrouble(f))
    ensures Legal([e, f], next) <==> Follow(e, Some(f)) && Follow(f, next)
  {
    assert [e] + [f] == [e, f];
    One(e, Some(f));
    One(f, next);
    ToldJoins([e], [f]);
    LooksJoin([e], [f]);
    TroubleJoins([e], [f]);
    var d := [e, f];
    assert Upcoming(d, 0, next) == Some(f) && Upcoming(d, 1, next) == next && d[0] == e && d[1] == f;
  }

  /** No verdict: the claim is given up and the call stops. */
  lemma InfraReported(b: Batch, tx: TxResult, outcomes: seq<Outcome>)
    requires tx == TxOk ==> outcomes == ClassifyAll(b.members, VerifyInfra)
    ensures var d := [Judged(b, Infra), Dropping(b, tx)];
      Reports(d, outcomes, true, tx == TxOk) && Looks(d) == []
  {
    Two(Judged(b, Infra), Dropping(b, tx), None);
    One(Judged(b, Infra), None);
    One(Dropping(b, tx), None);
  }

  /** Red, alone: the candidate goes. */
  lemma RedReported(b: Batch, tx: TxResult, outcomes: seq<Outcome>)
    requires |b.members| == 1 && (tx == TxOk ==> outcomes == ClassifyAll(b.members, VerifyRed))
    ensures var d := [Judged(b, Red), Rejecting(b, tx)];
      Reports(d, outcomes, tx != TxOk, tx == TxOk) && Looks(d) == []
  {
    Two(Judged(b, Red), Rejecting(b, tx), None);
    One(Judged(b, Red), None);
    One(Rejecting(b, tx), None);
  }

  /** A landing and, if it lost, the claim given up. */
  function LandEntries(b: Batch, tx: TxResult, drop: TxResult): (d: seq<Entry>)
    ensures d != [] && d[0] == Landing(b, tx)
  {
    if tx == TxCasLost then [Landing(b, tx), Dropping(b, drop)] else [Landing(b, tx)]
  }

  /** The landing's class, when there is one. */
  function LandClass(tx: TxResult): OutcomeClass {
    if tx == TxOk then Promoted else PromotionRace
  }

  predicate Finished(tx: TxResult, drop: TxResult) {
    tx == TxOk || (tx == TxCasLost && drop == TxOk)
  }

  lemma LandReported(b: Batch, tx: TxResult, drop: TxResult, outcomes: seq<Outcome>)
    requires Finished(tx, drop) ==> outcomes == ClassifyAll(b.members, LandClass(tx))
    ensures Reports(LandEntries(b, tx, drop), outcomes, !Finished(tx, drop), Finished(tx, drop))
    ensures Looks(LandEntries(b, tx, drop)) == []
  {
    One(Landing(b, tx), None);
    One(Dropping(b, drop), None);
    if tx == TxCasLost { Two(Landing(b, tx), Dropping(b, drop), None); }
  }

  /** Passed: the batch is landed. */
  lemma PassedReported(b: Batch, tx: TxResult, drop: TxResult, outcomes: seq<Outcome>)
    requires Finished(tx, drop) ==> outcomes == ClassifyAll(b.members, LandClass(tx))
    ensures var d := [Judged(b, Passed)] + LandEntries(b, tx, drop);
      Reports(d, outcomes, !Finished(tx, drop), Finished(tx, drop)) && Looks(d) == []
  {
    One(Judged(b, Passed), Some(Landing(b, tx)));
    LandReported(b, tx, drop, outcomes);
    ReportsJoin([Judged(b, Passed)], [], LandEntries(b, tx, drop), outcomes, !Finished(tx, drop), Finished(tx, drop));
    assert [] + outcomes == outcomes;
  }

  lemma AfterDrop(b: Batch, a: seq<Entry>, d: seq<Entry>, outcomes: seq<Outcome>, stop: bool, ok: bool)
    requires a == [Judged(b, Red), Dropping(b, TxOk)] && Reports(d, outcomes, stop, ok)
    ensures Reports(a + d, outcomes, stop, ok) && Looks(a + d) == Looks(d)
  {
    Two(Judged(b, Red), Dropping(b, TxOk), if d == [] then None else Some(d[0]));
    One(Judged(b, Red), None);
    One(Dropping(b, TxOk), None);
    ReportsJoin(a, [], d, outcomes, stop, ok);
    assert [] + outcomes == outcomes && [] + Looks(d) == Looks(d);
  }

  /** Red, in company: the claim is given up, and the rest is the sweep's. */
  lemma SweepReported(b: Batch, d: seq<Entry>, outcomes: seq<Outcome>, stop: bool, ok: bool)
    requires Reports(d, outcomes, stop, ok)
    ensures var whole := [Judged(b, Red)] + ([Dropping(b, TxOk)] + d);
      Reports(whole, outcomes, stop, ok) && Looks(whole) == Looks(d)
  {
    Regroup([Judged(b, Red)], [Dropping(b, TxOk)], d);
    AfterDrop(b, [Judged(b, Red)] + [Dropping(b, TxOk)], d, outcomes, stop, ok);
  }

  lemma StuckReported(b: Batch, tx: TxResult)
    requires tx != TxOk
    ensures var d := [Judged(b, Red)] + [Dropping(b, tx)]; Reports(d, [], true, false) && Looks(d) == []
  {
    assert [Judged(b, Red)] + [Dropping(b, tx)] == [Judged(b, Red), Dropping(b, tx)];
    Two(Judged(b, Red), Dropping(b, tx), None);
    One(Judged(b, Red), None);
    One(Dropping(b, tx), None);
  }

  // --- who gets an outcome --------------------------------------------------

  predicate Mentions(outcomes: seq<Outcome>, id: Id) {
    exists i | 0 <= i < |outcomes| :: outcomes[i].id == id
  }

  /** Word that is passed on only once the claim has been given up. */
  predicate AwaitsRelease(e: Entry) {
    (e.Judged? && e.verdict == Infra) || (e.Landing? && e.result == TxCasLost)
  }

  predicate GivenUp(d: seq<Entry>, n: nat) {
    n < |d| && d[n].Dropping? && d[n].result == TxOk
  }

  /** The n-th entry gives id an outcome. */
  predicate Answers(d: seq<Entry>, n: nat, id: Id)
    requires n < |d|
  {
    Mentions(ToldBy(d[n]), id) && (AwaitsRelease(d[n]) ==> GivenUp(d, n + 1))
  }

  /** A look passed id over, a verify of it reached no verdict, its landing went through
      or lost the race, or it was rejected; and where the claim then had to be given up,
      it was. */
  predicate Answered(d: seq<Entry>, id: Id) {
    exists n | 0 <= n < |d| :: Answers(d, n, id)
  }

  ghost predicate AnswersAll(d: seq<Entry>, outcomes: seq<Outcome>) {
    forall id :: Mentions(outcomes, id) <==> Answered(d, id)
  }

  predicate Rests(d: seq<Entry>) {
    d == [] || !AwaitsRelease(d[|d| - 1])
  }

  lemma LegalRests(d: seq<Entry>)
    requires Legal(d, None)
    ensures Rests(d)
  {
    if d != [] { assert Follow(d[|d| - 1], Upcoming(d, |d| - 1, None)); }
  }

  lemma MentionsJoin(a: seq<Outcome>, b: seq<Outcome>, id: Id)
    ensures Mentions(a + b, id) <==> Mentions(a, id) || Mentions(b, id)
  {
    var all := a + b;
    assert forall i :: 0 <= i < |a| ==> all[i] == a[i];
    assert forall i :: 0 <= i < |b| ==> all[|a| + i] == b[i];
    assert forall i :: |a| <= i < |all| ==> all[i] == b[i - |a|];
  }

  lemma AnsweredJoin(a: seq<Entry>, b: seq<Entry>, id: Id)
    requires Rests(a)
    ensures Answered(a + b, id) <==> Answered(a, id) || Answered(b, id)
  {
    var d := a + b;
    forall n | 0 <= n < |a| ensures Answers(d, n, id) <==> Answers(a, n, id) {
      assert d[n] == a[n];
    }
    forall n | 0 <= n < |b| ensures Answers(d, |a| + n, id) <==> Answers(b, n, id) {
      assert d[|a| + n] == b[n];
    }
    if n :| 0 <= n < |d| && Answers(d, n, id) && n >= |a| { assert Answers(b, n - |a|, id); }
  }

  lemma AnswersJoin(a: seq<Entry>, was: seq<Outcome>, b: seq<Entry>, more: seq<Outcome>)
    requires Rests(a) && AnswersAll(a, was) && AnswersAll(b, more)
    ensures AnswersAll(a + b, was + more)
  {
    forall id ensures Mentions(was + more, id) <==> Answered(a + b, id) {
      MentionsJoin(was, more, id);
      AnsweredJoin(a, b, id);
    }
  }

  lemma AnswersOne(e: Entry)
    requires !AwaitsRelease(e)
    ensures AnswersAll([e], ToldBy(e)) && Rests([e])
  {
    forall id ensures Mentions(ToldBy(e), id) <==> Answered([e], id) {
      assert Answers([e], 0, id) <==> Mentions(ToldBy(e), id);
    }
  }

  /** What phase 1 says is what its look passed over. */
  lemma AnswersLook(d: seq<Entry>)
    requires 0 < |d| <= 2 && d[0].Looked? && (|d| == 2 ==> d[1].Opened?)
    ensures AnswersAll(d, PassedOver(d[0].sight)) && Rests(d)
  {
    AnswersOne(d[0]);
    if |d| == 2 {
      AnswersOne(d[1]);
      AnswersJoin([d[0]], PassedOver(d[0].sight), [d[1]], []);
      assert [d[0]] + [d[1]] == d && PassedOver(d[0].sight) + [] == PassedOver(d[0].sight);
    } else {
      assert [d[0]] == d;
    }
  }

  /** Word and release: one is passed on exactly when the other went through. */
  lemma AnswersReleased(e: Entry, b: Batch, tx: TxResult)
    requires AwaitsRelease(e)
    ensures AnswersAll([e, Dropping(b, tx)], if tx == TxOk then ToldBy(e) else [])
  {
    var d := [e, Dropping(b, tx)];
    forall id ensures Mentions(if tx == TxOk then ToldBy(e) else [], id) <==> Answered(d, id) {
      assert Answers(d, 0, id) <==> Mentions(ToldBy(e), id) && tx == TxOk;
      assert !Answers(d, 1, id);
    }
  }

  lemma AnswersRejected(b: Batch, tx: TxResult)
    ensures AnswersAll([Judged(b, Red), Rejecting(b, tx)], if tx == TxOk then ClassifyAll(b.members, VerifyRed) else [])
  {
    var told := ToldBy(Rejecting(b, tx));
    AnswersOne(Judged(b, Red));
    AnswersOne(Rejecting(b, tx));
    AnswersJoin([Judged(b, Red)], [], [Rejecting(b, tx)], told);
    NothingBefore(told);
    assert [Judged(b, Red)] + [Rejecting(b, tx)] == [Judged(b, Red), Rejecting(b, tx)];
  }

  lemma AnswersLanded(b: Batch, tx: TxResult, drop: TxResult)
    ensures AnswersAll([Judged(b, Passed)] + LandEntries(b, tx, drop),
      if Finished(tx, drop) then ClassifyAll(b.members, LandClass(tx)) else [])
  {
    var told := if Finished(tx, drop) then ClassifyAll(b.members, LandClass(tx)) else [];
    AnswersOne(Judged(b, Passed));
    if tx == TxCasLost { AnswersReleased(Landing(b, tx), b, drop); } else { AnswersOne(Landing(b, tx)); }
    AnswersJoin([Judged(b, Passed)], [], LandEntries(b, tx, drop), told);
    NothingBefore(told);
  }

  /** A red batch's members have what the sweep gave them. */
  lemma AnswersSwept(b: Batch, d: seq<Entry>, outcomes: seq<Outcome>)
    requires AnswersAll(d, outcomes)
    ensures AnswersAll([Judged(b, Red)] + ([Dropping(b, TxOk)] + d), outcomes)
  {
    AnswersOne(Judged(b, Red));
    AnswersOne(Dropping(b, TxOk));
    AnswersJoin([Dropping(b, TxOk)], [], d, outcomes);
    NothingBefore(outcomes);
    AnswersJoin([Judged(b, Red)], [], [Dropping(b, TxOk)] + d, outcomes);
  }

  lemma AnswersStuck(b: Batch, tx: TxResult)
    ensures AnswersAll([Judged(b, Red)] + [Dropping(b, tx)], [])
  {
    AnswersOne(Judged(b, Red));
    AnswersOne(Dropping(b, tx));
    AnswersJoin([Judged(b, Red)], [], [Dropping(b, tx)], []);
    NothingBefore<Outcome>([]);
  }

  /** A look that found nothing for a round that may take some: every candidate of the
      queue is spoken for, not whole, or stale as the snapshot stands and told so. */
  lemma NothingEligible(v: View, id: Id)
    requires Nothing(Seen(v)) && v.maxBatch > 0
    requires Whole(v, id) && id !in v.claimed && (v.only == "" || id == v.only)
    ensures !Admission.Fresh(v.candidates[id].envelope, v.snapshot) && Mentions(PassedOver(Seen(v)), id)
  {
    ChoosesExactly(v, id);
    assert HasATurn(v, Select(v).choice, id);
    var o := Outcome(id, if Admission.PreimagesHold(v.candidates[id].envelope.transitions, v.snapshot) then StaleAncestry
      else StalePreimage);
    assert o in Select(v).choice.outcomes;
  }

  /** The record opens with b's verdict. */
  predicate Begins(d: seq<Entry>, b: Batch) {
    d != [] && d[0].Judged? && d[0].batch == b
  }

  function MemberIds(ms: seq<Member>): (ids: seq<Id>)
    ensures |ids| == |ms| && forall i :: 0 <= i < |ms| ==> ids[i] == ms[i].id
  {
    seq(|ms|, i requires 0 <= i < |ms| => ms[i].id)
  }

  /** A record that opens with a red verdict goes on to each member alone, in order,
      until trouble. */
  ghost predicate Swept(d: seq<Entry>, b: Batch, stop: bool)
    requires Begins(d, b)
  {
    if d[0].verdict == Red then Looks(d) <= MemberIds(b.members) && (!stop ==> Looks(d) == MemberIds(b.members))
    else Looks(d) == []
  }

  /** Who of a claimed batch hears of it: without a verdict everybody, after a pass
      everybody unless the landing failed outright, after a red verdict those whom the
      sweep answered. */
  ghost predicate Heard(d: seq<Entry>, b: Batch, outcomes: seq<Outcome>)
    requires Begins(d, b)
  {
    match d[0].verdict
    case Infra => outcomes == ClassifyAll(b.members, VerifyInfra)
    case Passed =>
      && |d| > 1 && d[1].Landing?
      && outcomes == if d[1].result == TxFailed then [] else ClassifyAll(b.members, LandClass(d[1].result))
    case Red => AnswersAll(d, outcomes)
  }

  predicate EndsIdle(d: seq<Entry>) {
    d != [] && d[|d| - 1].Looked? && d[|d| - 1].only == "" && Nothing(d[|d| - 1].sight)
  }

  /** A look that found nothing to do, and that was all. */
  predicate Idle(d: seq<Entry>) {
    |d| == 1 && EndsIdle(d)
  }

  lemma LastOf(a: seq<Entry>, b: seq<Entry>)
    ensures Idle(b) ==> EndsIdle(a + b)
  {
  }

  /** One whole call after another. */
  lemma ReportsOn(a: seq<Entry>, was: seq<Outcome>, b: seq<Entry>, more: seq<Outcome>, stop: bool, ok: bool)
    requires Reports(a, was, false, true) && Reports(b, more, stop, ok)
    ensures Reports(a + b, was + more, stop, ok) && Looks(a + b) == Looks(a) + Looks(b)
  {
    if b != [] { LegalOpens(a, Some(b[0])); }
    ReportsJoin(a, was, b, more, stop, ok);
  }

  function RunOf(e: Entry): seq<VerifyRun> {
    if e.Judged? then [VerifyRun(e.batch.id, |e.batch.members|, e.verdict)] else []
  }

  /** The verify runs the record accounts for. */
  function Runs(d: seq<Entry>): seq<VerifyRun> {
    if |d| == 0 then [] else Runs(d[..|d| - 1]) + RunOf(d[|d| - 1])
  }

  lemma RunsOn(d: seq<Entry>, e: Entry)
    ensures Runs(d + [e]) == Runs(d) + RunOf(e)
  {
    assert (d + [e])[..|d|] == d;
  }
}
