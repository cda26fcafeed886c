/** Claim exclusivity: what the promotion flock adds. Phase 1 runs one pusher at a
    time; everything else interleaves with it as freely as before. */
module Claims {
  import opened Options
  import opened Ordering
  import opened Trees
  import opened Envelopes
  import opened Selection
  import opened RefTransactions
  import opened BatchChains
  import opened Protocol
  import opened Histories
  import opened Diaries
  import opened Pushers
  import Messages

  /** Where the pusher that holds the flock stands. */
  datatype Phase = Free | Sweeping(todo: seq<BatchId>, claimed: set<Id>, blocked: bool)

  /** proper are the claims made under the flock; any other ref under promoting/ may
      say anything at all. */
  datatype Locked = Locked(s: State, phase: Phase, proper: set<BatchId>)

  datatype Turn =
    | Lock
    | Sweep(dead: bool)
    | Choose(batch: BatchId, snapshot: Envelopes.Commit, view: View, texts: seq<string>, head: string, host: string, pid: int, procStart: int)
    | Unlock
    | Peer(step: Action)

  function TipOf(s: State, k: BatchId): string
    requires k in s.batches
  {
    s.batches[k].tip.message
  }

  /** The candidates the ref under k is known to hold. */
  function Holds(s: State, k: BatchId): seq<Id> {
    if k in s.batches then Messages.ClaimedIds(TipOf(s, k)) else []
  }

  /** The batch's last commit carries the claim commitTree writes, in values that fit
      their lines. */
  predicate ProperClaim(t: Turn)
    requires t.Choose? && Select(t.view).Done?
  {
    var c := Messages.Claim(t.host, t.pid, t.procStart, MemberIds(Select(t.view).choice.members));
    && |t.texts| == |c.candidates| && c.candidates != []
    && Messages.CleanValue(t.batch) && Messages.CleanClaim(c)
    && t.texts[|t.texts| - 1] == Messages.TipMessage(t.head, t.batch, c)
  }

  function ClaimStep(t: Turn): Action
    requires t.Choose?
  {
    Claim(t.batch, t.snapshot, t.view, t.texts)
  }

  /** Whether the turn can be taken. Only the flock's holder claims. */
  predicate MayTake(l: Locked, t: Turn) {
    match t
    case Lock => l.phase.Free?
    case Unlock => true
    case Peer(step) => !step.Claim?
    case Sweep(_) => l.phase.Sweeping? && l.phase.todo != [] && l.phase.todo[0] in l.s.batches
    case Choose(_, _, view, _, _, _, _, _) =>
      && l.phase.Sweeping? && l.phase.todo == [] && !l.phase.blocked && view.claimed == l.phase.claimed
      && Select(view).Done? && ProperClaim(t) && Enabled(l.s, ClaimStep(t))
  }

  function SweepOne(l: Locked, dead: bool): Locked
    requires l.phase.Sweeping? && l.phase.todo != [] && l.phase.todo[0] in l.s.batches
  {
    var k, rest := l.phase.todo[0], l.phase.todo[1..];
    match Judge(TipOf(l.s, k), dead)
    case Spoken(ids) => l.(phase := Sweeping(rest, l.phase.claimed + (set x | x in ids), l.phase.blocked))
    case Blocking => l.(phase := Sweeping(rest, l.phase.claimed, true))
    case Dead =>
      if Transact(l.s.refs, [DropClaim(l.s.batches[k])]).Ok?
      then Locked(Next(l.s, Release(k)), Sweeping(rest, l.phase.claimed, l.phase.blocked), l.proper)
      else l.(phase := Free)
  }

  /** One turn. A failed deletion ends the round, as every error does. */
  function After(l: Locked, t: Turn): Locked {
    if !MayTake(l, t) then l
    else
      match t
      case Lock => l.(phase := Sweeping(Listing(ClaimListing(l.s.refs)), {}, false))
      case Unlock => l.(phase := Free)
      case Peer(step) => l.(s := Next(l.s, step))
      case Choose(k, _, _, _, _, _, _, _) => Locked(Next(l.s, ClaimStep(t)), Free, l.proper + {k})
      case Sweep(dead) => SweepOne(l, dead)
  }

  function Turns(l: Locked, ts: seq<Turn>): Locked {
    if |ts| == 0 then l else After(Turns(l, ts[..|ts| - 1]), ts[|ts| - 1])
  }

  predicate Standing(s: State, k: BatchId) {
    Promoting(k) in s.refs
  }

  ghost predicate Speaks(claimed: set<Id>, ids: seq<Id>) {
    ids != [] && forall i :: 0 <= i < |ids| ==> ids[i] in claimed
  }

  /** Every standing claim is still to be swept, or has spoken for what it holds. */
  ghost predicate SweepOk(s: State, phase: Phase) {
    phase.Sweeping? ==> forall k :: Standing(s, k) && k !in phase.todo ==>
      phase.blocked || Speaks(phase.claimed, Holds(s, k))
  }

  ghost predicate NoOverlap(a: seq<Id>, b: seq<Id>) {
    forall i, j :: 0 <= i < |a| && 0 <= j < |b| ==> a[i] != b[j]
  }

  /** Two standing claims never name the same candidate, unless neither was made
      under the flock. */
  ghost predicate Exclusive(s: State, proper: set<BatchId>) {
    forall j, k :: Standing(s, j) && Standing(s, k) && j != k && j in proper ==> NoOverlap(Holds(s, j), Holds(s, k))
  }

  ghost predicate LockedOk(l: Locked) {
    RefsOk(l.s) && SweepOk(l.s, l.phase) && Exclusive(l.s, l.proper)
    && forall k :: k in l.proper ==> k in l.s.batches
  }

  /** No claim appears, and none says anything new. */
  ghost predicate NoNewClaim(s: State, t: State) {
    && (forall k :: Standing(t, k) ==> Standing(s, k) && Holds(t, k) == Holds(s, k))
    && (forall k :: k in s.batches ==> k in t.batches)
  }

  lemma StandingKnown(s: State, k: BatchId)
    requires RefsOk(s) && Standing(s, k)
    ensures k in s.batches
  {
  }

  lemma NoNewClaimStays(s: State, t: State, phase: Phase, proper: set<BatchId>)
    requires NoNewClaim(s, t) && SweepOk(s, phase) && Exclusive(s, proper)
    ensures SweepOk(t, phase) && Exclusive(t, proper)
  {
  }

  lemma BatchesSame(s: State, a: Action)
    requires !a.Claim?
    ensures Next(s, a).batches == s.batches
  {
  }

  /** Only a claim step makes a claim. */
  lemma PeersClaimNothing(s: State, a: Action)
    requires RefsOk(s) && !a.Claim?
    ensures NoNewClaim(s, Next(s, a))
  {
    var t := Next(s, a);
    NextRefs(s, a);
    BatchesSame(s, a);
    forall k | Standing(t, k) ensures Standing(s, k) && Holds(t, k) == Holds(s, k) {
      StandingKnown(t, k);
    }
  }

  lemma SpokenIds(message: string, dead: bool)
    ensures Judge(message, dead).Spoken? ==>
      Judge(message, dead).ids == Messages.ClaimedIds(message) && Messages.ClaimedIds(message) != []
  {
  }

  lemma SpokenKeeps(l: Locked, ids: seq<Id>)
    requires l.phase.Sweeping? && l.phase.todo != [] && ids == Holds(l.s, l.phase.todo[0]) && ids != []
    requires SweepOk(l.s, l.phase)
    ensures SweepOk(l.s, Sweeping(l.phase.todo[1..], l.phase.claimed + (set x | x in ids), l.phase.blocked))
  {
    assert l.phase.todo == [l.phase.todo[0]] + l.phase.todo[1..];
  }

  lemma DeadKeeps(l: Locked)
    requires LockedOk(l) && l.phase.Sweeping? && l.phase.todo != [] && l.phase.todo[0] in l.s.batches
    requires Transact(l.s.refs, [DropClaim(l.s.batches[l.phase.todo[0]])]).Ok?
    ensures LockedOk(Locked(Next(l.s, Release(l.phase.todo[0])),
      Sweeping(l.phase.todo[1..], l.phase.claimed, l.phase.blocked), l.proper))
  {
    var k := l.phase.todo[0];
    var t := Next(l.s, Release(k));
    NextRelease(l.s, k);
    ReleaseSettles(l.s, k);
    PeersClaimNothing(l.s, Release(k));
    NoNewClaimStays(l.s, t, l.phase, l.proper);
    assert l.phase.todo == [k] + l.phase.todo[1..];
  }

  lemma SweepKeeps(l: Locked, dead: bool)
    requires LockedOk(l) && MayTake(l, Sweep(dead))
    ensures LockedOk(After(l, Sweep(dead)))
  {
    var k := l.phase.todo[0];
    SpokenIds(TipOf(l.s, k), dead);
    match Judge(TipOf(l.s, k), dead)
    case Spoken(ids) => SpokenKeeps(l, ids);
    case Blocking =>
    case Dead =>
      if Transact(l.s.refs, [DropClaim(l.s.batches[k])]).Ok? { DeadKeeps(l); }
  }

  lemma DropGoes(s: State, k: BatchId)
    requires RefsOk(s) && k in s.batches
    ensures Transact(s.refs, [DropClaim(s.batches[k])]).Ok? <==> Standing(s, k)
    ensures Standing(s, k) ==> !Standing(Next(s, Release(k)), k)
  {
    OneLine(s.refs, DropClaim(s.batches[k]));
  }

  /** A claim that reads back whole, and whose owner is gone, is dropped and speaks for
      nobody; if it no longer stands, that ends the round. */
  lemma SweepDrops(l: Locked)
    requires RefsOk(l.s) && MayTake(l, Sweep(true)) && Messages.ReadClaim(TipOf(l.s, l.phase.todo[0])).Ok?
    ensures var k, n := l.phase.todo[0], After(l, Sweep(true));
      if Standing(l.s, k)
      then !Standing(n.s, k) && n.phase == Sweeping(l.phase.todo[1..], l.phase.claimed, l.phase.blocked)
      else n.s == l.s && n.phase == Free
  {
    DropGoes(l.s, l.phase.todo[0]);
  }

  /** Any other stays, speaks for exactly the candidates it names, and blocks the round
      if it names none. */
  lemma SweepHeeds(l: Locked, dead: bool)
    requires MayTake(l, Sweep(dead)) && (dead ==> Messages.ReadClaim(TipOf(l.s, l.phase.todo[0])).Err?)
    ensures var ids, n := Messages.ClaimedIds(TipOf(l.s, l.phase.todo[0])), After(l, Sweep(dead));
      && n.s == l.s && n.phase.Sweeping? && n.phase.todo == l.phase.todo[1..]
      && (forall id :: id in n.phase.claimed <==> id in l.phase.claimed || id in ids)
      && (n.phase.blocked <==> l.phase.blocked || ids == [])
  {
    SpokenIds(TipOf(l.s, l.phase.todo[0]), dead);
  }

  lemma TipText(base: Envelopes.Commit, ms: seq<Member>, texts: seq<string>)
    requires |texts| == |ms| > 0
    ensures BuildChain(base, ms, texts).message == texts[|texts| - 1]
  {
  }

  lemma ProperText(head: string, batch: string, c: Messages.Claim)
    requires Messages.CleanValue(batch) && Messages.CleanClaim(c)
    ensures Messages.ClaimedIds(Messages.TipMessage(head, batch, c)) == c.candidates
  {
    Messages.ClaimRoundTrip(head, batch, c);
  }

  /** The tip of a properly written batch reads back as its members. */
  lemma ProperReads(t: Turn)
    requires t.Choose? && Select(t.view).Done? && ProperClaim(t) && |t.texts| == |Select(t.view).choice.members|
    ensures var b := Claimed(t.batch, t.snapshot, t.view, t.texts);
      Messages.ClaimedIds(b.tip.message) == MemberIds(Select(t.view).choice.members)
  {
    var ms := Select(t.view).choice.members;
    TipText(t.snapshot, ms, t.texts);
    ProperText(t.head, t.batch, Messages.Claim(t.host, t.pid, t.procStart, MemberIds(ms)));
  }

  /** A batch that holds none of the standing claims' candidates can be claimed. */
  lemma ApartKeeps(s: State, proper: set<BatchId>, b: Batch)
    requires RefsOk(s) && Exclusive(s, proper) && b.id !in s.batches && Promoting(b.id) !in s.refs && b.members != []
    requires forall k :: Standing(s, k) ==>
      NoOverlap(Messages.ClaimedIds(b.tip.message), Holds(s, k)) && NoOverlap(Holds(s, k), Messages.ClaimedIds(b.tip.message))
    ensures Exclusive(WithClaim(s, b), proper + {b.id})
  {
    var t := WithClaim(s, b);
    assert Holds(t, b.id) == Messages.ClaimedIds(b.tip.message);
    forall k | Standing(t, k) && k != b.id ensures Standing(s, k) && Holds(t, k) == Holds(s, k) {
      StandingKnown(s, k);
    }
  }

  lemma OneLineClaim(s: State, t: Turn)
    requires RefsOk(s) && t.Choose? && Enabled(s, ClaimStep(t))
    ensures Next(s, ClaimStep(t)) == WithClaim(s, Claimed(t.batch, t.snapshot, t.view, t.texts))
    ensures t.batch !in s.batches && Promoting(t.batch) !in s.refs
  {
    OneLine(s.refs, Create(Promoting(t.batch), CommitObject(Claimed(t.batch, t.snapshot, t.view, t.texts).tip)));
  }

  lemma NewClaimApart(l: Locked, view: View)
    requires LockedOk(l) && l.phase.Sweeping? && l.phase.todo == [] && !l.phase.blocked && view.claimed == l.phase.claimed
    requires Select(view).Done?
    ensures forall k :: Standing(l.s, k) ==>
      NoOverlap(MemberIds(Select(view).choice.members), Holds(l.s, k)) && NoOverlap(Holds(l.s, k), MemberIds(Select(view).choice.members))
  {
    var n := SelectionAccounts(view);
    var ms := Select(view).choice.members;
    forall i | 0 <= i < |ms| ensures ms[i].id !in view.claimed {
      assert FromView(view, ms[i]);
    }
  }

  /** The new claim holds nothing a standing claim does. */
  lemma ChooseKeeps(l: Locked, t: Turn)
    requires LockedOk(l) && t.Choose? && MayTake(l, t)
    ensures LockedOk(After(l, t))
  {
    var b := Claimed(t.batch, t.snapshot, t.view, t.texts);
    OneLineClaim(l.s, t);
    NextClaim(l.s, t.batch, t.snapshot, t.view, t.texts);
    ProperReads(t);
    NewClaimApart(l, t.view);
    ApartKeeps(l.s, l.proper, b);
  }

  lemma TurnKeeps(l: Locked, t: Turn)
    requires LockedOk(l)
    ensures LockedOk(After(l, t))
  {
    if MayTake(l, t) {
      match t
      case Lock =>
      case Unlock =>
      case Peer(step) =>
        NextRefs(l.s, step);
        PeersClaimNothing(l.s, step);
        NoNewClaimStays(l.s, Next(l.s, step), l.phase, l.proper);
      case Sweep(dead) => SweepKeeps(l, dead);
      case Choose(_, _, _, _, _, _, _, _) => ChooseKeeps(l, t);
    }
  }

  lemma {:induction false} TurnsKeep(l: Locked, ts: seq<Turn>)
    requires LockedOk(l)
    ensures LockedOk(Turns(l, ts))
  {
    if |ts| > 0 {
      TurnsKeep(l, ts[..|ts| - 1]);
      TurnKeeps(Turns(l, ts[..|ts| - 1]), ts[|ts| - 1]);
    }
  }

  /** From any ref store whatsoever, claims garbled or not, and however the steps
      interleave: a claim made under the flock shares no candidate with any other
      standing claim. */
  lemma ClaimsNeverOverlap(before: seq<Action>, ts: seq<Turn>, j: BatchId, k: BatchId, id: Id)
    requires var l := Turns(Locked(Run(START, before), Free, {}), ts);
      j in l.proper && Standing(l.s, j) && Standing(l.s, k) && j != k && id in Holds(l.s, j)
    ensures id !in Holds(Turns(Locked(Run(START, before), Free, {}), ts).s, k)
  {
    Reached(before);
    TurnsKeep(Locked(Run(START, before), Free, {}), ts);
    var s := Turns(Locked(Run(START, before), Free, {}), ts).s;
    assert NoOverlap(Holds(s, j), Holds(s, k));
  }

  /** While a claim that names no candidate stands, no claim can be made. */
  lemma ListlessClaimStopsAll(before: seq<Action>, ts: seq<Turn>, k: BatchId, t: Turn)
    requires var l := Turns(Locked(Run(START, before), Free, {}), ts);
      t.Choose? && MayTake(l, t) && Standing(l.s, k)
    ensures Holds(Turns(Locked(Run(START, before), Free, {}), ts).s, k) != []
  {
    Reached(before);
    TurnsKeep(Locked(Run(START, before), Free, {}), ts);
  }
}
