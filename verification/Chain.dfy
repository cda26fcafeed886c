/** The batch theorem: every freshness check reads the snapshot alone, the batch is
    applied as a chain, and that is enough. */
module Chain {
  import opened Options
  import opened Paths
  import opened Trees
  import opened Envelopes
  import opened Selection
  import Admission

  /** The tree after the members' transitions, one commit each, on top of t. */
  function ChainTree(t: Tree, ms: seq<Member>): Tree {
    if |ms| == 0 then t
    else PutAll(ChainTree(t, ms[..|ms| - 1]), ms[|ms| - 1].envelope.transitions)
  }

  /** A batch as promotion relies on it: selected against t, each envelope sound. */
  ghost predicate Applies(t: Tree, ms: seq<Member>) {
    && Batchable(t, ms)
    && forall i :: 0 <= i < |ms| ==> Sound(ms[i].envelope)
  }

  lemma AppliesPrefix(t: Tree, ms: seq<Member>, k: nat)
    requires Applies(t, ms) && k <= |ms|
    ensures Applies(t, ms[..k])
  {
  }

  lemma WriteSetIsWrites(e: Envelope)
    requires Sound(e)
    ensures Writes(e.transitions) == PathSet(e.writeSet)
  {
    forall p ensures p in Writes(e.transitions) <==> p in PathSet(e.writeSet) {
      if p in Writes(e.transitions) {
        var i :| 0 <= i < |e.transitions| && e.transitions[i].path == p;
        assert e.writeSet[i] == p;
      }
      if p in PathSet(e.writeSet) {
        var i :| 0 <= i < |e.writeSet| && e.writeSet[i] == p;
        assert e.transitions[i].path == p;
      }
    }
  }

  /** Paths outside every write-set keep what the snapshot held. */
  lemma {:induction false} ChainOff(t: Tree, ms: seq<Member>, p: Path)
    requires Applies(t, ms)
    requires forall i :: 0 <= i < |ms| ==> p !in PathSet(ms[i].envelope.writeSet)
    ensures Lookup(ChainTree(t, ms), p) == Lookup(t, p)
  {
    if |ms| > 0 {
      var last := ms[|ms| - 1].envelope;
      AppliesPrefix(t, ms, |ms| - 1);
      ChainOff(t, ms[..|ms| - 1], p);
      WriteSetIsWrites(last);
      PutAllLookup(ChainTree(t, ms[..|ms| - 1]), last.transitions, p);
      AfterUntouched(last.transitions, p, Lookup(t, p));
    }
  }

  /** A path of member i ends at that member's result, whatever rode with it. */
  lemma {:induction false} ChainOn(t: Tree, ms: seq<Member>, i: nat, k: nat)
    requires Applies(t, ms) && i < |ms| && k < |ms[i].envelope.transitions|
    ensures Lookup(ChainTree(t, ms), ms[i].envelope.transitions[k].path) == ms[i].envelope.transitions[k].result
  {
    var n := |ms| - 1;
    var p := ms[i].envelope.transitions[k].path;
    var last := ms[n].envelope;
    AppliesPrefix(t, ms, n);
    PutAllLookup(ChainTree(t, ms[..n]), last.transitions, p);
    if i == n {
      AfterTouched(last.transitions, k, Lookup(ChainTree(t, ms[..n]), p));
    } else {
      assert ms[..n][i] == ms[i];
      ChainOn(t, ms[..n], i, k);
      WriteSetIsWrites(last);
      WriteSetIsWrites(ms[i].envelope);
      assert p in Writes(ms[i].envelope.transitions);
      assert !Meets(ms[i], ms[n]);
      AfterUntouched(last.transitions, p, Lookup(ChainTree(t, ms[..n]), p));
    }
  }

  /** Where the file at p in a chain tree comes from. */
  lemma ChainSource(t: Tree, ms: seq<Member>, p: Path) returns (i: int, k: int)
    requires Applies(t, ms) && p in ChainTree(t, ms)
    ensures i == -1 ==> p in t && forall j :: 0 <= j < |ms| ==> p !in PathSet(ms[j].envelope.writeSet)
    ensures i != -1 ==> 0 <= i < |ms| && 0 <= k < |ms[i].envelope.transitions|
    ensures i != -1 ==> ms[i].envelope.transitions[k].path == p && ms[i].envelope.transitions[k].result.Some?
  {
    if j :| 0 <= j < |ms| && p in PathSet(ms[j].envelope.writeSet) {
      WriteSetIsWrites(ms[j].envelope);
      i := j;
      k :| 0 <= k < |ms[j].envelope.transitions| && ms[j].envelope.transitions[k].path == p;
      ChainOn(t, ms, i, k);
    } else {
      i, k := -1, 0;
      ChainOff(t, ms, p);
    }
  }

  lemma NeededAreTrees(e: Envelope, t: Tree)
    requires Admission.Fresh(e, t)
    ensures forall d :: d in e.ancestry ==> TreeAt(t, d)
  {
    forall d | d in e.ancestry ensures TreeAt(t, d) {
      var n :| 0 <= n < |e.ancestry| && e.ancestry[n] == d;
      assert TreeAt(t, e.ancestry[n]);
    }
  }

  /** Two fresh envelopes never nest: a path one of them writes cannot be a
      directory the other writes into, because the snapshot would have to hold it
      both as a directory and as a file or nothing. */
  lemma WritesNeverNest(t: Tree, a: Envelope, i: nat, b: Envelope, j: nat)
    requires WellFormed(t) && Sound(b)
    requires Admission.Fresh(a, t) && Admission.Fresh(b, t)
    requires i < |a.transitions| && j < |b.transitions|
    ensures !Beneath(a.transitions[i].path, b.transitions[j].path)
  {
    var p, q := a.transitions[i].path, b.transitions[j].path;
    assert BlobAt(t, p) == Ok(a.transitions[i].expected);
    assert BlobAt(t, q) == Ok(b.transitions[j].expected);
    NeededAreTrees(b, t);
    assert b.transitions[j].expected.None? && Beneath(p, q) ==> p in b.ancestry;
  }

  /** No file of the snapshot lies beneath a written path, nor the other way round
      when the written path is new: that needed its directories. */
  lemma SnapshotApart(t: Tree, e: Envelope, k: nat, q: Path)
    requires WellFormed(t) && Sound(e) && Admission.Fresh(e, t)
    requires k < |e.transitions| && q in t
    ensures !Beneath(e.transitions[k].path, q)
    ensures !Beneath(q, e.transitions[k].path)
  {
    var p := e.transitions[k].path;
    assert BlobAt(t, p) == Ok(e.transitions[k].expected);
    NeededAreTrees(e, t);
    assert e.transitions[k].expected.None? && Beneath(q, p) ==> q in e.ancestry;
  }

  /** No file/directory clash at the tip. */
  lemma ChainWellFormed(t: Tree, ms: seq<Member>)
    requires WellFormed(t) && Applies(t, ms)
    ensures WellFormed(ChainTree(t, ms))
  {
    forall p, q | p in ChainTree(t, ms) && q in ChainTree(t, ms) ensures !Beneath(p, q) {
      var i, k := ChainSource(t, ms, p);
      var j, l := ChainSource(t, ms, q);
      if i == -1 && j != -1 {
        SnapshotApart(t, ms[j].envelope, l, p);
      } else if i != -1 && j == -1 {
        SnapshotApart(t, ms[i].envelope, k, q);
      } else if i != -1 && j != -1 {
        WritesNeverNest(t, ms[i].envelope, k, ms[j].envelope, l);
      }
    }
  }

  /** Snapshot-relative checks suffice: at the tree its own commit is built on,
      member i still reads every preimage its envelope captured. */
  lemma PreimagesAtOwnBase(t: Tree, ms: seq<Member>, i: nat)
    requires WellFormed(t) && Applies(t, ms) && i < |ms|
    ensures Admission.PreimagesHold(ms[i].envelope.transitions, ChainTree(t, ms[..i]))
  {
    var base := ChainTree(t, ms[..i]);
    var e := ms[i].envelope;
    AppliesPrefix(t, ms, i);
    forall k | 0 <= k < |e.transitions| ensures BlobAt(base, e.transitions[k].path) == Ok(e.transitions[k].expected) {
      var p := e.transitions[k].path;
      assert BlobAt(t, p) == Ok(e.transitions[k].expected);
      forall j | 0 <= j < i ensures p !in PathSet(ms[..i][j].envelope.writeSet) {
        WriteSetIsWrites(e);
        assert p in Writes(e.transitions);
        assert !Meets(ms[j], ms[i]);
      }
      ChainOff(t, ms[..i], p);
      if p !in base {
        forall q | q in base ensures !Beneath(p, q) {
          var j, l := ChainSource(t, ms[..i], q);
          if j == -1 {
            SnapshotApart(t, e, k, q);
          } else {
            WritesNeverNest(t, e, k, ms[j].envelope, l);
          }
        }
      }
    }
  }

  lemma NeverFile(t: Tree, ms: seq<Member>, d: Path)
    requires Applies(t, ms) && TreeAt(t, d)
    ensures d !in ChainTree(t, ms)
  {
    forall i | 0 <= i < |ms| ensures d !in PathSet(ms[i].envelope.writeSet) {
      var e := ms[i].envelope;
      WriteSetIsWrites(e);
      forall k | 0 <= k < |e.transitions| ensures e.transitions[k].path != d {
        assert BlobAt(t, e.transitions[k].path) == Ok(e.transitions[k].expected);
      }
    }
    ChainOff(t, ms, d);
  }

  /** The directories a member needs may lapse along the chain, but none of them
      ever turns into a file, at its own base or at the tip. */
  lemma AncestorsNeverFiles(t: Tree, ms: seq<Member>, i: nat, d: Path)
    requires WellFormed(t) && Applies(t, ms) && i < |ms| && d in ms[i].envelope.ancestry
    ensures d !in ChainTree(t, ms[..i]) && d !in ChainTree(t, ms)
  {
    NeededAreTrees(ms[i].envelope, t);
    NeverFile(t, ms, d);
    AppliesPrefix(t, ms, i);
    NeverFile(t, ms[..i], d);
  }

  /** The tip, path by path: the snapshot off the write-sets, each member's result
      on its own. */
  lemma TipExactly(t: Tree, ms: seq<Member>, p: Path)
    requires Applies(t, ms)
    ensures (forall i :: 0 <= i < |ms| ==> p !in PathSet(ms[i].envelope.writeSet)) ==>
      Lookup(ChainTree(t, ms), p) == Lookup(t, p)
    ensures forall i, k :: 0 <= i < |ms| && 0 <= k < |ms[i].envelope.transitions| ==>
      ms[i].envelope.transitions[k].path == p ==>
      Lookup(ChainTree(t, ms), p) == ms[i].envelope.transitions[k].result
  {
    if forall i :: 0 <= i < |ms| ==> p !in PathSet(ms[i].envelope.writeSet) {
      ChainOff(t, ms, p);
    }
    forall i, k | 0 <= i < |ms| && 0 <= k < |ms[i].envelope.transitions| && ms[i].envelope.transitions[k].path == p
      ensures Lookup(ChainTree(t, ms), p) == ms[i].envelope.transitions[k].result
    {
      ChainOn(t, ms, i, k);
    }
  }

  lemma {:induction false} Occurrence(ms: seq<Member>, m: Member) returns (i: nat)
    requires multiset(ms)[m] >= 1
    ensures i < |ms| && ms[i] == m
  {
    assert m in ms;
    i :| 0 <= i < |ms| && ms[i] == m;
  }

  lemma {:induction false} TwoOccurrences(ms: seq<Member>, m: Member) returns (i: nat, j: nat)
    requires multiset(ms)[m] >= 2
    ensures i < j < |ms| && ms[i] == m && ms[j] == m
  {
    assert ms == [ms[0]] + ms[1..];
    if ms[0] == m {
      i := 0;
      var k := Occurrence(ms[1..], m);
      j := k + 1;
    } else {
      var a, b := TwoOccurrences(ms[1..], m);
      i, j := a + 1, b + 1;
    }
  }

  lemma TwiceCounted(ms: seq<Member>, i: nat, j: nat)
    requires i < j < |ms| && ms[i] == ms[j]
    ensures multiset(ms)[ms[i]] >= 2
  {
    assert ms == ms[..j] + ms[j..];
    assert ms[i] in ms[..j] && ms[j] in ms[j..];
    assert ms[..j][i] == ms[i] && ms[j..][0] == ms[j];
  }

  /** Reordering a batch leaves it a batch. */
  lemma AppliesPermuted(t: Tree, ms: seq<Member>, order: seq<Member>)
    requires Applies(t, ms) && multiset(ms) == multiset(order)
    ensures Applies(t, order)
  {
    forall i | 0 <= i < |order|
      ensures Decodes(order[i].envelope) && Admission.Fresh(order[i].envelope, t) && Sound(order[i].envelope)
    {
      assert order[i] in multiset(order);
      var k := Occurrence(ms, order[i]);
    }
    forall i, j | 0 <= i < |order| && 0 <= j < |order| && i != j ensures !Meets(order[i], order[j]) {
      if order[i] == order[j] {
        if i < j { TwiceCounted(order, i, j); } else { TwiceCounted(order, j, i); }
        var a, b := TwoOccurrences(ms, order[i]);
        assert !Meets(ms[a], ms[b]);
      } else {
        assert order[i] in multiset(order) && order[j] in multiset(order);
        var a := Occurrence(ms, order[i]);
        var b := Occurrence(ms, order[j]);
        assert !Meets(ms[a], ms[b]);
      }
    }
  }

  /** Every tree along the chain is a well-formed one, in any order. */
  lemma EveryTreeWellFormed(t: Tree, ms: seq<Member>, order: seq<Member>, k: nat)
    requires WellFormed(t) && Applies(t, ms) && multiset(ms) == multiset(order) && k <= |order|
    ensures WellFormed(ChainTree(t, order[..k]))
  {
    AppliesPermuted(t, ms, order);
    AppliesPrefix(t, order, k);
    ChainWellFormed(t, order[..k]);
  }

  /** The tip does not depend on the order the members were applied in. */
  lemma OrderIndependent(t: Tree, ms: seq<Member>, order: seq<Member>)
    requires Applies(t, ms) && multiset(ms) == multiset(order)
    ensures ChainTree(t, order) == ChainTree(t, ms)
  {
    AppliesPermuted(t, ms, order);
    forall p ensures Lookup(ChainTree(t, order), p) == Lookup(ChainTree(t, ms), p) {
      TipExactly(t, ms, p);
      TipExactly(t, order, p);
      if i :| 0 <= i < |ms| && p in PathSet(ms[i].envelope.writeSet) {
        WriteSetIsWrites(ms[i].envelope);
        var k :| 0 <= k < |ms[i].envelope.transitions| && ms[i].envelope.transitions[k].path == p;
        assert ms[i] in multiset(ms);
        var j := Occurrence(order, ms[i]);
        assert order[j].envelope.transitions[k].path == p;
      } else {
        forall j | 0 <= j < |order| ensures p !in PathSet(order[j].envelope.writeSet) {
          assert order[j] in multiset(order);
          var i := Occurrence(ms, order[j]);
        }
      }
    }
    SameTree(ChainTree(t, order), ChainTree(t, ms));
  }

  /** What integration becomes when several batches land one after another. */
  function Landed(t: Tree, batches: seq<seq<Member>>): Tree {
    if |batches| == 0 then t
    else ChainTree(Landed(t, batches[..|batches| - 1]), batches[|batches| - 1])
  }

  /** Each batch was selected against the integration it landed on. */
  ghost predicate LandsInTurn(t: Tree, batches: seq<seq<Member>>) {
    forall n :: 0 <= n < |batches| ==> Applies(Landed(t, batches[..n]), batches[n])
  }

  /** Every path any of the batches writes. */
  ghost predicate WrittenBy(batches: seq<seq<Member>>, p: Path) {
    exists n, i :: 0 <= n < |batches| && 0 <= i < |batches[n]| && p in PathSet(batches[n][i].envelope.writeSet)
  }

  lemma LandsInTurnPrefix(t: Tree, batches: seq<seq<Member>>)
    requires LandsInTurn(t, batches) && |batches| > 0
    ensures LandsInTurn(t, batches[..|batches| - 1])
  {
    var front := batches[..|batches| - 1];
    forall n | 0 <= n < |front| ensures Applies(Landed(t, front[..n]), front[n]) {
      assert front[..n] == batches[..n];
    }
  }

  lemma WrittenByPrefix(batches: seq<seq<Member>>, p: Path)
    requires |batches| > 0
    ensures WrittenBy(batches[..|batches| - 1], p) ==> WrittenBy(batches, p)
  {
    var front := batches[..|batches| - 1];
    if WrittenBy(front, p) {
      var k, i :| 0 <= k < |front| && 0 <= i < |front[k]| && p in PathSet(front[k][i].envelope.writeSet);
      assert batches[k] == front[k];
    }
  }

  lemma {:induction false} LandedOff(t: Tree, batches: seq<seq<Member>>, p: Path)
    requires LandsInTurn(t, batches) && !WrittenBy(batches, p)
    ensures Lookup(Landed(t, batches), p) == Lookup(t, p)
  {
    var n := |batches| - 1;
    if n >= 0 {
      var front := batches[..n];
      LandsInTurnPrefix(t, batches);
      WrittenByPrefix(batches, p);
      LandedOff(t, front, p);
      ChainOff(Landed(t, front), batches[n], p);
    }
  }

  lemma {:induction false} LandedWellFormed(t: Tree, batches: seq<seq<Member>>)
    requires WellFormed(t) && LandsInTurn(t, batches)
    ensures WellFormed(Landed(t, batches))
  {
    var n := |batches| - 1;
    if n >= 0 {
      LandsInTurnPrefix(t, batches);
      LandedWellFormed(t, batches[..n]);
      ChainWellFormed(Landed(t, batches[..n]), batches[n]);
    }
  }

  /** No batch ever makes a directory: a new file's directories are in its envelope's
      ancestry, so the snapshot had them. */
  lemma DirectoriesOnlyShrink(t: Tree, ms: seq<Member>, d: Path)
    requires Applies(t, ms) && HasBeneath(ChainTree(t, ms), d)
    ensures HasBeneath(t, d)
  {
    var q :| q in ChainTree(t, ms) && Beneath(d, q);
    var i, k := ChainSource(t, ms, q);
    if i != -1 {
      var e := ms[i].envelope;
      assert BlobAt(t, e.transitions[k].path) == Ok(e.transitions[k].expected);
      NeededAreTrees(e, t);
      assert e.transitions[k].expected.None? ==> d in e.ancestry;
    }
  }

  lemma {:induction false} LandedDirectories(t: Tree, batches: seq<seq<Member>>, d: Path)
    requires LandsInTurn(t, batches) && HasBeneath(Landed(t, batches), d)
    ensures HasBeneath(t, d)
  {
    var n := |batches| - 1;
    if n >= 0 {
      LandsInTurnPrefix(t, batches);
      DirectoriesOnlyShrink(Landed(t, batches[..n]), batches[n], d);
      LandedDirectories(t, batches[..n], d);
    }
  }

  /** A path that could be read once can be read for good, whatever is promoted. */
  lemma LandedReadable(t: Tree, batches: seq<seq<Member>>, p: Path)
    requires WellFormed(t) && LandsInTurn(t, batches) && Readable(t, p)
    ensures Readable(Landed(t, batches), p)
  {
    if HasBeneath(Landed(t, batches), p) {
      LandedDirectories(t, batches, p);
    }
  }

  /** Disjoint promotions cannot make a waiting candidate's content stale: a path none
      of them writes still reads as captured. */
  lemma WaitingPreimages(t: Tree, batches: seq<seq<Member>>, e: Envelope, k: nat)
    requires LandsInTurn(t, batches) && Admission.Fresh(e, t) && k < |e.transitions|
    requires !WrittenBy(batches, e.transitions[k].path)
    ensures BlobAt(Landed(t, batches), e.transitions[k].path) == Ok(e.transitions[k].expected)
  {
    var p := e.transitions[k].path;
    assert BlobAt(t, p) == Ok(e.transitions[k].expected);
    LandedOff(t, batches, p);
    if HasBeneath(Landed(t, batches), p) {
      LandedDirectories(t, batches, p);
    }
  }

  /** So all it can turn is stale-ancestry. */
  lemma WaitingVerdict(t: Tree, batches: seq<seq<Member>>, e: Envelope)
    requires LandsInTurn(t, batches) && Admission.Fresh(e, t)
    requires forall k :: 0 <= k < |e.transitions| ==> !WrittenBy(batches, e.transitions[k].path)
    ensures ClassifyStale(e, Landed(t, batches)) ==
      Ok(if Admission.AncestryHolds(e.ancestry, Landed(t, batches)) then None else Some(StaleAncestry))
  {
    var now := Landed(t, batches);
    forall k | 0 <= k < |e.transitions| ensures BlobAt(now, e.transitions[k].path) == Ok(e.transitions[k].expected) {
      WaitingPreimages(t, batches, e, k);
    }
    Admission.TransitionsVerdict(e.transitions, now);
    Admission.AncestryVerdict(e.ancestry, now);
    StaleVerdict(e, now);
  }

  /** And a needed directory is lost only when the batches wrote away every file it
      held: a promoted deletion emptied it. */
  lemma WaitingAncestry(t: Tree, batches: seq<seq<Member>>, d: Path, f: Path)
    requires WellFormed(t) && LandsInTurn(t, batches) && TreeAt(t, d)
    requires !TreeAt(Landed(t, batches), d)
    requires f in t && Beneath(d, f)
    ensures WrittenBy(batches, f) && f !in Landed(t, batches)
  {
    LandedWellFormed(t, batches);
    if !WrittenBy(batches, f) {
      LandedOff(t, batches, f);
    }
  }

  predicate Deletes(trs: seq<Transition>, f: Path) {
    exists k | 0 <= k < |trs| :: trs[k].path == f && trs[k].result.None?
  }

  /** One of the first i members deletes f. */
  predicate DeletedBefore(ms: seq<Member>, i: nat, f: Path)
    requires i <= |ms|
  {
    exists j | 0 <= j < i :: Deletes(ms[j].envelope.transitions, f)
  }

  /** Whatever the first i members write beneath d, they delete. */
  predicate OnlyDeletes(ms: seq<Member>, i: nat, d: Path)
    requires i <= |ms|
  {
    forall j | 0 <= j < i :: forall k | 0 <= k < |ms[j].envelope.transitions| ::
      Beneath(d, ms[j].envelope.transitions[k].path) ==> ms[j].envelope.transitions[k].result.None?
  }

  /** A file of the snapshot that is gone was deleted by a member. */
  lemma EmptiedByDeletion(t: Tree, ms: seq<Member>, i: nat, f: Path)
    requires i <= |ms| && Applies(t, ms[..i]) && f in t && f !in ChainTree(t, ms[..i])
    ensures DeletedBefore(ms, i, f)
  {
    if forall j :: 0 <= j < i ==> f !in PathSet(ms[..i][j].envelope.writeSet) {
      ChainOff(t, ms[..i], f);
    } else {
      var j :| 0 <= j < i && f in PathSet(ms[..i][j].envelope.writeSet);
      WriteSetIsWrites(ms[j].envelope);
      var k :| 0 <= k < |ms[j].envelope.transitions| && ms[j].envelope.transitions[k].path == f;
      ChainOn(t, ms[..i], j, k);
      assert Deletes(ms[j].envelope.transitions, f);
    }
  }

  lemma UnwrittenStays(e: Envelope, f: Path)
    requires Sound(e) && f !in PathSet(e.writeSet)
    ensures !Deletes(e.transitions, f)
  {
    WriteSetIsWrites(e);
    forall k | 0 <= k < |e.transitions| ensures e.transitions[k].path != f {
      assert e.transitions[k].path in Writes(e.transitions);
    }
  }

  /** The other half of the batch theorem's price: a directory a member needs is gone
      at that member's own base exactly when the members before it deleted every file
      the snapshot had in it and put none there. */
  lemma AncestryLapsesExactly(t: Tree, ms: seq<Member>, i: nat, d: Path)
    requires WellFormed(t) && Applies(t, ms) && i < |ms| && d in ms[i].envelope.ancestry
    ensures !TreeAt(ChainTree(t, ms[..i]), d) <==>
      (forall f :: f in t && Beneath(d, f) ==> DeletedBefore(ms, i, f)) && OnlyDeletes(ms, i, d)
  {
    AncestorsNeverFiles(t, ms, i, d);
    AppliesPrefix(t, ms, i);
    if !TreeAt(ChainTree(t, ms[..i]), d) {
      forall j, k | 0 <= j < i && 0 <= k < |ms[j].envelope.transitions| && Beneath(d, ms[j].envelope.transitions[k].path)
        ensures ms[j].envelope.transitions[k].result.None?
      {
        ChainOn(t, ms[..i], j, k);
      }
      forall f | f in t && Beneath(d, f) ensures DeletedBefore(ms, i, f) {
        EmptiedByDeletion(t, ms, i, f);
      }
    } else {
      var f :| f in ChainTree(t, ms[..i]) && Beneath(d, f);
      var j, k := ChainSource(t, ms[..i], f);
      if j == -1 {
        forall n | 0 <= n < i ensures !Deletes(ms[n].envelope.transitions, f) {
          UnwrittenStays(ms[..i][n].envelope, f);
        }
      }
    }
  }

  function OneTransition(id: string, proposal: Commit, tr: Transition, ancestry: seq<Path>): Member {
    Member(id, Envelope(id, proposal, "", "", "", "bead", [tr.path], [tr], ancestry, map[]), proposal)
  }

  lemma OnePath(p: Path)
    ensures PathSet([p]) == {p}
  {
    assert [p][0] == p;
  }

  /** And such a batch exists: one member deletes a/x, the other creates a/y. */
  lemma LapseHappens(proposal: Commit, x: Blob, y: Blob)
    ensures var t := map["a/x" := x];
      var ms := [OneTransition("c1", proposal, Transition("a/x", Some(x), None), []),
        OneTransition("c2", proposal, Transition("a/y", None, Some(y)), ["a"])];
      WellFormed(t) && Applies(t, ms) && TreeAt(t, "a") && !TreeAt(ChainTree(t, ms[..1]), "a")
  {
    var t := map["a/x" := x];
    var ms := [OneTransition("c1", proposal, Transition("a/x", Some(x), None), []),
      OneTransition("c2", proposal, Transition("a/y", None, Some(y)), ["a"])];
    assert "a" + "/" == "a/x"[..2] && Beneath("a", "a/x");
    assert TreeAt(t, "a") by { assert "a/x" in t; }
    assert !HasBeneath(t, "a/y");
    forall d | Beneath(d, "a/y") ensures d == "a" {
      assert (d + "/")[|d|] == '/' && (d + "/") == "a/y"[..|d| + 1];
      assert |d| == 1 && d[0] == "a/y"[0];
    }
    assert Sound(ms[1].envelope);
    assert Sound(ms[0].envelope);
    assert Admission.Fresh(ms[0].envelope, t) && Admission.Fresh(ms[1].envelope, t);
    OnePath("a/x");
    OnePath("a/y");
    assert !Meets(ms[0], ms[1]) && !Meets(ms[1], ms[0]);
    assert Batchable(t, ms);
    assert Deletes(ms[0].envelope.transitions, "a/x") by { assert ms[0].envelope.transitions[0].path == "a/x"; }
    forall f | f in t && Beneath("a", f) ensures DeletedBefore(ms, 1, f) { assert f == "a/x"; }
    AncestryLapsesExactly(t, ms, 1, "a");
  }
}
