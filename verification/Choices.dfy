/** What a round chooses, told from the queue alone: who is taken, who is passed over
    and why, and who hears nothing. */
module Choices {
  import opened Options
  import opened Ordering
  import opened Paths
  import opened Trees
  import opened Envelopes
  import opened Selection
  import Admission

  /** The queue holds a candidate under id that can be promoted at all: a whole envelope,
      and a proposal to go with it. */
  predicate Whole(v: View, id: Id) {
    && id in v.candidates && v.candidates[id].EnvelopeBlob? && id in v.proposals
    && var e := v.candidates[id].envelope;
    e.candidateId != "" && e.bead != "" && e.writeSet != [] && |e.transitions| == |e.writeSet|
  }

  function HeldUnder(v: View, id: Id): Member
    requires Whole(v, id)
  {
    Member(id, v.candidates[id].envelope, v.proposals[id])
  }

  lemma LoadsExactly(v: View, id: Id)
    requires id in v.candidates
    ensures LoadMember(v, id) == if Whole(v, id) then Some(HeldUnder(v, id)) else None
  {
  }

  predicate SharesPath(a: Envelope, b: Envelope) {
    exists i, j | 0 <= i < |a.writeSet| && 0 <= j < |b.writeSet| :: a.writeSet[i] == b.writeSet[j]
  }

  lemma MeetsExactly(a: Member, b: Member)
    ensures Meets(a, b) <==> SharesPath(a.envelope, b.envelope)
  {
    if Meets(a, b) {
      var p :| p in PathSet(a.envelope.writeSet) && p in PathSet(b.envelope.writeSet);
      var i :| 0 <= i < |a.envelope.writeSet| && a.envelope.writeSet[i] == p;
      var j :| 0 <= j < |b.envelope.writeSet| && b.envelope.writeSet[j] == p;
      assert a.envelope.writeSet[i] == b.envelope.writeSet[j];
    }
    if SharesPath(a.envelope, b.envelope) {
      var i, j :| 0 <= i < |a.envelope.writeSet| && 0 <= j < |b.envelope.writeSet| && a.envelope.writeSet[i] == b.envelope.writeSet[j];
      assert a.envelope.writeSet[i] in PathSet(a.envelope.writeSet) && a.envelope.writeSet[i] in PathSet(b.envelope.writeSet);
    }
  }

  /** A member with a smaller id writes one of m's paths. */
  ghost predicate Yields(ms: seq<Member>, m: Member) {
    exists i :: 0 <= i < |ms| && Less(ms[i].id, m.id) && SharesPath(ms[i].envelope, m.envelope)
  }

  predicate HasMember(c: Choice, id: Id) {
    exists i | 0 <= i < |c.members| :: c.members[i].id == id
  }

  predicate HasOutcome(c: Choice, id: Id) {
    exists i | 0 <= i < |c.outcomes| :: c.outcomes[i].id == id
  }

  /** The round may take id: it is whole, not another's, not restricted away, none of its
      paths goes to a smaller id, and its turn came before the batch was full. */
  ghost predicate HasATurn(v: View, c: Choice, id: Id) {
    && Whole(v, id) && id !in v.claimed && (v.only == "" || id == v.only)
    && !Yields(c.members, HeldUnder(v, id))
    && !(|c.members| == v.maxBatch && forall i :: 0 <= i < |c.members| ==> Less(c.members[i].id, id))
  }

  /** What becomes of id. */
  ghost predicate Served(v: View, c: Choice, id: Id) {
    if !HasATurn(v, c, id) then !HasMember(c, id) && !HasOutcome(c, id)
    else
      var m := HeldUnder(v, id);
      if Admission.PreimagesHold(m.envelope.transitions, v.snapshot) && Admission.AncestryHolds(m.envelope.ancestry, v.snapshot)
      then m in c.members && !HasOutcome(c, id)
      else
        && !HasMember(c, id)
        && Outcome(id, if Admission.PreimagesHold(m.envelope.transitions, v.snapshot) then StaleAncestry else StalePreimage) in c.outcomes
  }

  lemma YieldsExactly(v: View, c: Choice, id: Id)
    requires Whole(v, id)
    ensures Yields(c.members, HeldUnder(v, id)) <==> OutrankedBy(v, c, id)
  {
    LoadsExactly(v, id);
    forall i | 0 <= i < |c.members|
      ensures Meets(c.members[i], HeldUnder(v, id)) <==> SharesPath(c.members[i].envelope, HeldUnder(v, id).envelope)
    {
      MeetsExactly(c.members[i], HeldUnder(v, id));
    }
  }

  lemma TakenFacts(v: View, c: Choice, seen: seq<Id>, i: nat)
    requires Scanned(v, c, seen) && i < |c.members|
    ensures var id := c.members[i].id;
      && id in seen && HasATurn(v, c, id) && c.members[i] == HeldUnder(v, id) && !HasOutcome(c, id)
      && Admission.Fresh(c.members[i].envelope, v.snapshot)
  {
    var m := c.members[i];
    assert FromView(v, m);
    LoadsExactly(v, m.id);
    forall j | 0 <= j < |c.members| && Less(c.members[j].id, m.id) ensures !SharesPath(c.members[j].envelope, m.envelope) {
      Trichotomy(m.id, m.id);
      assert j != i && !Meets(c.members[j], m);
      MeetsExactly(c.members[j], m);
    }
    Trichotomy(m.id, m.id);
  }

  lemma PassedFacts(v: View, c: Choice, seen: seq<Id>, i: nat)
    requires Scanned(v, c, seen) && i < |c.outcomes|
    ensures var id := c.outcomes[i].id;
      && id in seen && HasATurn(v, c, id) && !HasMember(c, id) && StaleNow(v, c.outcomes[i])
  {
    var id := c.outcomes[i].id;
    assert StaleNow(v, c.outcomes[i]);
    LoadsExactly(v, id);
    YieldsExactly(v, c, id);
    var k :| 0 <= k < |seen| && seen[k] == id;
    assert !TooLate(c.members, v.maxBatch, seen[k]);
  }

  /** One that had a turn was taken or passed over. */
  lemma TurnLeads(v: View, c: Choice, seen: seq<Id>, id: Id)
    requires Scanned(v, c, seen) && id in seen && HasATurn(v, c, id)
    ensures HasMember(c, id) || HasOutcome(c, id)
  {
    var k :| 0 <= k < |seen| && seen[k] == id;
    assert Explained(v, c, seen[k]);
    LoadsExactly(v, id);
    YieldsExactly(v, c, id);
  }

  lemma SeenSettled(v: View, c: Choice, seen: seq<Id>, id: Id)
    requires Scanned(v, c, seen)
    requires id in seen || !HasATurn(v, c, id)
    ensures Served(v, c, id)
  {
    if i :| 0 <= i < |c.members| && c.members[i].id == id {
      TakenFacts(v, c, seen, i);
    } else if i :| 0 <= i < |c.outcomes| && c.outcomes[i].id == id {
      PassedFacts(v, c, seen, i);
      LoadsExactly(v, id);
      assert c.outcomes[i] in c.outcomes;
    } else if HasATurn(v, c, id) {
      TurnLeads(v, c, seen, id);
    }
  }

  lemma InFrontOrLater(ids: seq<Id>, k: nat, id: Id) returns (n: nat)
    requires k <= |ids| && id in ids && id !in ids[..k]
    ensures k <= n < |ids| && ids[n] == id
  {
    n :| 0 <= n < |ids| && ids[n] == id;
    assert forall i :: 0 <= i < k ==> ids[i] in ids[..k];
  }

  lemma AllBefore(ids: seq<Id>, k: nat, n: nat, x: Id)
    requires Increasing(ids) && k <= n < |ids| && x in ids[..k]
    ensures Less(x, ids[n])
  {
    var j :| 0 <= j < k && ids[..k][j] == x;
  }

  lemma UnseenTooLate(v: View, c: Choice, ids: seq<Id>, k: nat, id: Id)
    requires Increasing(ids) && k <= |ids| && (k == |ids| || |c.members| == v.maxBatch)
    requires forall i :: 0 <= i < |c.members| ==> c.members[i].id in ids[..k]
    requires id in ids && id !in ids[..k]
    ensures !HasATurn(v, c, id)
  {
    var n := InFrontOrLater(ids, k, id);
    forall i | 0 <= i < |c.members| ensures Less(c.members[i].id, id) {
      AllBefore(ids, k, n, c.members[i].id);
    }
  }

  /** A round that can choose gives every candidate of its queue exactly what it is due,
      and nobody else anything. */
  lemma ChoosesExactly(v: View, id: Id)
    requires Select(v).Done?
    ensures Served(v, Select(v).choice, id)
    ensures HasMember(Select(v).choice, id) || HasOutcome(Select(v).choice, id) ==> id in v.candidates
  {
    var k := SelectionAccounts(v);
    var ids, c := Listing(v.candidates.Keys), Select(v).choice;
    if id in v.candidates && id !in ids[..k] {
      UnseenTooLate(v, c, ids, k, id);
    }
    SeenSettled(v, c, ids[..k], id);
  }

  /** Every candidate of the queue had its turn, or is not to be had. */
  ghost predicate ToTheEnd(v: View, c: Choice) {
    forall id :: id in v.candidates && Whole(v, id) && id !in v.claimed && (v.only == "" || id == v.only) ==>
      HasMember(c, id) || HasOutcome(c, id) || Yields(c.members, HeldUnder(v, id))
  }

  /** A batch smaller than it might be means the scan got to the end of the queue. */
  lemma ShortBatchSawAll(v: View)
    requires Select(v).Done? && |Select(v).choice.members| < v.maxBatch
    ensures ToTheEnd(v, Select(v).choice)
  {
    var c := Select(v).choice;
    forall id | id in v.candidates && Whole(v, id) && id !in v.claimed && (v.only == "" || id == v.only)
      ensures HasMember(c, id) || HasOutcome(c, id) || Yields(c.members, HeldUnder(v, id))
    {
      ChoosesExactly(v, id);
      if !Yields(c.members, HeldUnder(v, id)) { assert HasATurn(v, c, id); }
    }
  }

  /** In a solo round a candidate comes out with nothing said about it exactly when a
      peer has claimed it or taken it away, or what is left of it is not whole. */
  lemma SilentExactly(v: View)
    requires v.only != "" && v.maxBatch > 0 && Select(v).Done?
    ensures Select(v).choice.members == [] && Select(v).choice.outcomes == [] <==> v.only in v.claimed || !Whole(v, v.only)
  {
    var c := Select(v).choice;
    ChoosesExactly(v, v.only);
    if c.members != [] {
      ChoosesExactly(v, c.members[0].id);
      assert HasMember(c, c.members[0].id);
    }
    if c.outcomes != [] {
      ChoosesExactly(v, c.outcomes[0].id);
      assert HasOutcome(c, c.outcomes[0].id);
    }
  }
}
