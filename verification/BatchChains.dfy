/** A batch as one pusher carries it: the commits built for its members and the
    transactions that claim, land or retire it. */
module BatchChains {
  import opened Options
  import opened Trees
  import opened Envelopes
  import opened Selection
  import opened Chain
  import opened RefTransactions

  type BatchId = string

  datatype Ref = Integration | Candidate(id: Id) | Proposal(id: Id) | Promoting(batch: BatchId)

  type Refs = map<Ref, Object>

  type Line = RefUpdate<Ref, Object>

  /** texts are the commit messages, one a member; nothing here reads them. */
  datatype Batch = Batch(id: BatchId, snapshot: Commit, members: seq<Member>, texts: seq<string>, tip: Commit)

  /** One synthetic commit a member, each on the one before. */
  function BuildChain(base: Commit, ms: seq<Member>, texts: seq<string>): Commit
    requires |texts| == |ms|
  {
    if |ms| == 0 then base
    else
      var n := |ms| - 1;
      var parent := BuildChain(base, ms[..n], texts[..n]);
      Commit([parent], PutAll(parent.tree, ms[n].envelope.transitions), texts[n])
  }

  /** buildChain's running base. */
  method BuildBatchChain(base: Commit, ms: seq<Member>, texts: seq<string>) returns (tip: Commit)
    requires |texts| == |ms|
    ensures tip == BuildChain(base, ms, texts)
  {
    tip := base;
    for i := 0 to |ms|
      invariant tip == BuildChain(base, ms[..i], texts[..i])
    {
      var tree := tip.tree;
      var trs := ms[i].envelope.transitions;
      for j := 0 to |trs|
        invariant tree == PutAll(tip.tree, trs[..j])
      {
        tree := match trs[j].result
          case Some(b) => tree[trs[j].path := b]
          case None => tree - {trs[j].path};
        assert trs[..j + 1][..j] == trs[..j];
      }
      assert trs[..|trs|] == trs;
      assert ms[..i + 1][..i] == ms[..i] && texts[..i + 1][..i] == texts[..i];
      tip := Commit([tip], tree, texts[i]);
    }
    assert ms[..|ms|] == ms && texts[..|ms|] == texts;
  }

  /** The chain's tree is the members' transitions in turn, and the chain rests on
      its base: one single-parent commit a member. */
  lemma {:induction false} ChainRestsOn(base: Commit, ms: seq<Member>, texts: seq<string>)
    requires |texts| == |ms|
    ensures BuildChain(base, ms, texts).tree == ChainTree(base.tree, ms)
    ensures Back(BuildChain(base, ms, texts), |ms|) == Some(base)
  {
    if |ms| > 0 {
      ChainRestsOn(base, ms[..|ms| - 1], texts[..|ms| - 1]);
    }
  }

  lemma {:induction false} BackAdds(c: Commit, m: nat, n: nat)
    requires Back(c, m).Some?
    ensures Back(c, m + n) == Back(Back(c, m).value, n)
  {
    if m > 0 {
      BackAdds(c.parents[0], m - 1, n);
    }
  }

  /** c is d, or d was built on it. */
  ghost predicate Ancestor(c: Commit, d: Commit) {
    exists n: nat :: Back(d, n) == Some(c)
  }

  lemma AncestorStep(c: Commit, d: Commit, base: Commit, ms: seq<Member>, texts: seq<string>)
    requires |texts| == |ms| && d == BuildChain(base, ms, texts) && Ancestor(c, base)
    ensures Ancestor(c, d)
  {
    var n: nat :| Back(base, n) == Some(c);
    ChainRestsOn(base, ms, texts);
    BackAdds(d, |ms|, n);
    assert Back(d, |ms| + n) == Some(c);
  }

  // --- the transactions -----------------------------------------------------

  function DropCandidate(m: Member): Line {
    Delete(Candidate(m.id), Some(EnvelopeBlob(m.envelope)))
  }

  function DropProposal(m: Member): Line {
    Delete(Proposal(m.id), Some(CommitObject(m.proposal)))
  }

  function DropClaim(b: Batch): Line {
    Delete(Promoting(b.id), Some(CommitObject(b.tip)))
  }

  function MemberLines(ms: seq<Member>): (us: seq<Line>)
    ensures |us| == 2 * |ms|
  {
    if |ms| == 0 then []
    else MemberLines(ms[..|ms| - 1]) + [DropCandidate(ms[|ms| - 1]), DropProposal(ms[|ms| - 1])]
  }

  /** promotePhase3's script. */
  function LandLines(b: Batch): seq<Line> {
    [Update(Integration, CommitObject(b.tip), Some(CommitObject(b.snapshot)))] + MemberLines(b.members) + [DropClaim(b)]
  }

  /** rejectSolo's script. */
  function RetireLines(b: Batch): seq<Line>
    requires |b.members| > 0
  {
    [DropCandidate(b.members[0]), DropProposal(b.members[0]), DropClaim(b)]
  }

  predicate DistinctIds(ms: seq<Member>) {
    forall i, j :: 0 <= i < j < |ms| ==> ms[i].id != ms[j].id
  }

  predicate Names(ms: seq<Member>, id: Id) {
    exists i | 0 <= i < |ms| :: ms[i].id == id
  }

  lemma {:induction false} MemberLinesAt(ms: seq<Member>, k: nat)
    requires k < |ms|
    ensures MemberLines(ms)[2 * k] == DropCandidate(ms[k]) && MemberLines(ms)[2 * k + 1] == DropProposal(ms[k])
  {
    var n := |ms| - 1;
    if k < n {
      MemberLinesAt(ms[..n], k);
    }
  }

  /** The whole script, line by line. */
  lemma LandLinesAt(b: Batch)
    ensures |LandLines(b)| == 2 * |b.members| + 2
    ensures LandLines(b)[0] == Update(Integration, CommitObject(b.tip), Some(CommitObject(b.snapshot)))
    ensures LandLines(b)[2 * |b.members| + 1] == DropClaim(b)
    ensures forall k :: 0 <= k < |b.members| ==> LandLines(b)[2 * k + 1] == DropCandidate(b.members[k])
    ensures forall k :: 0 <= k < |b.members| ==> LandLines(b)[2 * k + 2] == DropProposal(b.members[k])
  {
    forall k | 0 <= k < |b.members|
      ensures LandLines(b)[2 * k + 1] == DropCandidate(b.members[k]) && LandLines(b)[2 * k + 2] == DropProposal(b.members[k])
    {
      MemberLinesAt(b.members, k);
    }
  }

  /** Line i is the integration move, member k's, or the claim's. */
  predicate LineKind(b: Batch, i: nat, k: nat)
    requires i < |LandLines(b)|
  {
    || (i == 0 && LandLines(b)[i] == Update(Integration, CommitObject(b.tip), Some(CommitObject(b.snapshot))))
    || (i == 2 * |b.members| + 1 && LandLines(b)[i] == DropClaim(b))
    || (k < |b.members| && i == 2 * k + 1 && LandLines(b)[i] == DropCandidate(b.members[k]))
    || (k < |b.members| && i == 2 * k + 2 && LandLines(b)[i] == DropProposal(b.members[k]))
  }

  lemma LandLineKinds(b: Batch, i: nat) returns (k: nat)
    requires i < |LandLines(b)|
    ensures LineKind(b, i, k)
  {
    LandLinesAt(b);
    k := if i == 0 then 0 else (i - 1) / 2;
    assert i == 0 || i == 2 * k + 1 || i == 2 * k + 2;
  }

  lemma LandDistinct(b: Batch)
    requires DistinctIds(b.members)
    ensures DistinctRefs(LandLines(b))
  {
    LandLinesAt(b);
    var us := LandLines(b);
    forall i, j | 0 <= i < j < |us| ensures us[i].ref != us[j].ref {
      var k := LandLineKinds(b, i);
      var l := LandLineKinds(b, j);
    }
  }

  lemma DistinctFromLines(b: Batch)
    requires DistinctRefs(LandLines(b))
    ensures DistinctIds(b.members)
  {
    LandLinesAt(b);
    forall i, j | 0 <= i < j < |b.members| ensures b.members[i].id != b.members[j].id {
      assert LandLines(b)[2 * i + 1].ref != LandLines(b)[2 * j + 1].ref;
    }
  }

  predicate MemberIntact(refs: Refs, m: Member) {
    && Candidate(m.id) in refs && refs[Candidate(m.id)] == EnvelopeBlob(m.envelope)
    && Proposal(m.id) in refs && refs[Proposal(m.id)] == CommitObject(m.proposal)
  }

  /** Everything the batch consumes is still exactly what phase 1 read. */
  predicate Intact(refs: Refs, b: Batch) {
    && Integration in refs && refs[Integration] == CommitObject(b.snapshot)
    && Promoting(b.id) in refs && refs[Promoting(b.id)] == CommitObject(b.tip)
    && forall k | 0 <= k < |b.members| :: MemberIntact(refs, b.members[k])
  }

  /** The store after a landing: integration at the tip, everything the batch
      consumed gone, every other ref as it was. */
  ghost predicate LandedRefs(refs: Refs, b: Batch, after: Refs) {
    && Integration in after && after[Integration] == CommitObject(b.tip)
    && Promoting(b.id) !in after
    && (forall id :: Names(b.members, id) ==> Candidate(id) !in after && Proposal(id) !in after)
    && (forall id :: !Names(b.members, id) ==> SameAt(refs, after, Candidate(id)) && SameAt(refs, after, Proposal(id)))
    && (forall k :: k != b.id ==> SameAt(refs, after, Promoting(k)))
  }

  lemma LandHolds(refs: Refs, b: Batch)
    requires Admissible(refs, LandLines(b))
    ensures Intact(refs, b)
  {
    var us := LandLines(b);
    LandLinesAt(b);
    assert LineHolds(refs, us[0]) && LineHolds(refs, us[2 * |b.members| + 1]);
    forall k | 0 <= k < |b.members| ensures MemberIntact(refs, b.members[k]) {
      assert LineHolds(refs, us[2 * k + 1]) && LineHolds(refs, us[2 * k + 2]);
    }
  }

  lemma LandFrame(refs: Refs, b: Batch, after: Refs)
    requires forall i :: 0 <= i < |LandLines(b)| ==> Effected(after, LandLines(b)[i])
    requires forall r :: r !in Named(LandLines(b)) ==> SameAt(refs, after, r)
    ensures LandedRefs(refs, b, after)
  {
    var us := LandLines(b);
    LandLinesAt(b);
    assert Effected(after, us[0]) && Effected(after, us[2 * |b.members| + 1]);
    forall id | Names(b.members, id) ensures Candidate(id) !in after && Proposal(id) !in after {
      var k :| 0 <= k < |b.members| && b.members[k].id == id;
      assert Effected(after, us[2 * k + 1]) && Effected(after, us[2 * k + 2]);
    }
    forall r | r in Named(us)
      ensures r == Integration || r == Promoting(b.id) || ((r.Candidate? || r.Proposal?) && Names(b.members, r.id))
    {
      var i :| 0 <= i < |us| && us[i].ref == r;
      var k := LandLineKinds(b, i);
    }
  }

  /** All or nothing, and exactly when nothing the batch read has moved. */
  lemma LandExactly(refs: Refs, b: Batch)
    ensures Transact(refs, LandLines(b)).Ok? <==> Intact(refs, b) && DistinctIds(b.members)
    ensures Transact(refs, LandLines(b)).Ok? ==> LandedRefs(refs, b, Transact(refs, LandLines(b)).value)
  {
    var us := LandLines(b);
    LandLinesAt(b);
    if Intact(refs, b) && DistinctIds(b.members) {
      LandDistinct(b);
      forall i | 0 <= i < |us| ensures LineHolds(refs, us[i]) {
        var k := LandLineKinds(b, i);
      }
    }
    if Transact(refs, us).Ok? {
      DistinctFromLines(b);
      TransactEffect(refs, us);
      LandHolds(refs, b);
      LandFrame(refs, b, Transact(refs, us).value);
    }
  }

  predicate MemberGone(refs: Refs, m: Member) {
    Candidate(m.id) !in refs && Proposal(m.id) !in refs
  }

  lemma {:induction false} NeverEmpty(refs: Refs, us: seq<Line>)
    ensures FirstError(refs, us) != EmptyTransaction
  {
    if us != [] { NeverEmpty(refs, us[1..]); }
  }

  /** With only the first line able to lose a compare-and-swap, the error says
      whether it did. */
  lemma ErrorKinds(refs: Refs, us: seq<Line>)
    requires us != [] && DistinctRefs(us) && forall i :: 1 <= i < |us| ==> !Moved(refs, us[i])
    requires us[0].Update? && us[0].ref in refs
    ensures Transact(refs, us).Err? ==>
      Transact(refs, us).error == if Moved(refs, us[0]) then CasLost else Refused
    ensures Moved(refs, us[0]) ==> Transact(refs, us).Err?
  {
    if FirstError(refs, us) == CasLost {
      var k := CasLostMeansMoved(refs, us);
      assert k == 0;
    }
    NeverEmpty(refs, us);
  }

  /** A landing is requeued only when integration itself moved: with the batch's own
      members untouched or gone, every other loss stops the run. */
  lemma RequeuedExactly(refs: Refs, b: Batch)
    requires Integration in refs && DistinctIds(b.members)
    requires Promoting(b.id) in refs ==> refs[Promoting(b.id)] == CommitObject(b.tip)
    requires forall k :: 0 <= k < |b.members| ==> MemberIntact(refs, b.members[k]) || MemberGone(refs, b.members[k])
    ensures Transact(refs, LandLines(b)) == Err(CasLost) <==> refs[Integration] != CommitObject(b.snapshot)
    ensures Transact(refs, LandLines(b)) == Err(Refused) <==>
      refs[Integration] == CommitObject(b.snapshot) && !Intact(refs, b)
  {
    var us := LandLines(b);
    LandExactly(refs, b);
    LandDistinct(b);
    LandLinesAt(b);
    forall i | 1 <= i < |us| ensures !Moved(refs, us[i]) {
      var k := LandLineKinds(b, i);
      assert i != 2 * |b.members| + 1 ==> MemberIntact(refs, b.members[k]) || MemberGone(refs, b.members[k]);
    }
    ErrorKinds(refs, us);
  }

  ghost predicate RetiredRefs(refs: Refs, b: Batch, after: Refs)
    requires |b.members| == 1
  {
    && Promoting(b.id) !in after
    && SameAt(refs, after, Integration)
    && Candidate(b.members[0].id) !in after && Proposal(b.members[0].id) !in after
    && (forall id :: id != b.members[0].id ==>
      SameAt(refs, after, Candidate(id)) && SameAt(refs, after, Proposal(id)))
    && (forall k :: k != b.id ==> SameAt(refs, after, Promoting(k)))
  }

  /** rejectSolo's transaction, likewise all or nothing. */
  lemma RetireExactly(refs: Refs, b: Batch)
    requires |b.members| == 1
    ensures Transact(refs, RetireLines(b)).Ok? <==>
      MemberIntact(refs, b.members[0]) && Promoting(b.id) in refs && refs[Promoting(b.id)] == CommitObject(b.tip)
    ensures Transact(refs, RetireLines(b)).Ok? ==> RetiredRefs(refs, b, Transact(refs, RetireLines(b)).value)
  {
    var us := RetireLines(b);
    var m := b.members[0];
    assert us[0] == DropCandidate(m) && us[1] == DropProposal(m) && us[2] == DropClaim(b);
    if Transact(refs, us).Ok? {
      TransactEffect(refs, us);
      assert LineHolds(refs, us[0]) && LineHolds(refs, us[1]) && LineHolds(refs, us[2]);
      assert Effected(Transact(refs, us).value, us[0]) && Effected(Transact(refs, us).value, us[1]) && Effected(Transact(refs, us).value, us[2]);
      assert Named(us) == {Candidate(m.id), Proposal(m.id), Promoting(b.id)};
    }
  }
}
