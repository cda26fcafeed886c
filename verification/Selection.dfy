/** Phase 1's choice of a batch: the candidate refs in id order, each taken,
    passed over as stale, or skipped. */
module Selection {
  import opened Options
  import opened Ordering
  import opened Paths
  import opened Trees
  import opened Envelopes
  import Admission

  type Id = string

  /** What a ref can point at. */
  datatype Object = EnvelopeBlob(envelope: Envelope) | CommitObject(commit: Commit)

  datatype Member = Member(id: Id, envelope: Envelope, proposal: Commit)

  datatype OutcomeClass = Promoted | StalePreimage | StaleAncestry | VerifyRed | VerifyInfra | PromotionRace

  datatype Outcome = Outcome(id: Id, class_: OutcomeClass)

  /** What one round reads before it chooses. only is the red sweep's single id;
      "" means the whole queue. */
  datatype View = View(
    candidates: map<Id, Object>,
    proposals: map<Id, Commit>,
    claimed: set<Id>,
    only: Id,
    maxBatch: nat,
    snapshot: Tree)

  datatype Choice = Choice(members: seq<Member>, outcomes: seq<Outcome>, taken: set<Path>)

  datatype Chosen = Done(choice: Choice) | Failed(outcomes: seq<Outcome>, error: ReadError)

  /** DecodeEnvelope's own check: bytes that parse but could not have been minted. */
  predicate Decodes(e: Envelope) {
    e.candidateId != "" && e.bead != "" && e.writeSet != [] && |e.transitions| == |e.writeSet|
  }

  function LoadMember(v: View, id: Id): Option<Member>
    requires id in v.candidates
  {
    if v.candidates[id].EnvelopeBlob? && Decodes(v.candidates[id].envelope) && id in v.proposals then
      Some(Member(id, v.candidates[id].envelope, v.proposals[id]))
    else None
  }

  /** classifyStale: admission's own freshness checks, against the snapshot. */
  function ClassifyStale(e: Envelope, t: Tree): Result<Option<OutcomeClass>, ReadError> {
    match Admission.CheckTransitionsCurrent(e.transitions, t)
    case Err(x) => Err(x)
    case Ok(Rejected(_, _)) => Ok(Some(StalePreimage))
    case Ok(Accepted) =>
      if Admission.CheckAncestryCurrent(e.ancestry, t).Rejected? then Ok(Some(StaleAncestry)) else Ok(None)
  }

  predicate Overlaps(taken: set<Path>, ws: seq<Path>) {
    exists i | 0 <= i < |ws| :: ws[i] in taken
  }

  function PathSet(ws: seq<Path>): set<Path> {
    set i | 0 <= i < |ws| :: ws[i]
  }

  function Consider(c: Choice, t: Tree, m: Member): Result<Choice, ReadError> {
    match ClassifyStale(m.envelope, t)
    case Err(x) => Err(x)
    case Ok(Some(class_)) => Ok(c.(outcomes := c.outcomes + [Outcome(m.id, class_)]))
    case Ok(None) => Ok(c.(members := c.members + [m], taken := c.taken + PathSet(m.envelope.writeSet)))
  }

  /** Not this round's, or another pusher's live batch owns it. */
  predicate NotOurs(v: View, id: Id) {
    (v.only != "" && id != v.only) || id in v.claimed
  }

  /** One candidate's turn in the scan. */
  function Scan(v: View, c: Choice, id: Id): Chosen
    requires id in v.candidates
  {
    if NotOurs(v, id) then Done(c)
    else
      match LoadMember(v, id)
      case None => Done(c)
      case Some(m) =>
        if Overlaps(c.taken, m.envelope.writeSet) then Done(c)
        else
          match Consider(c, v.snapshot, m)
          case Err(x) => Failed(c.outcomes, x)
          case Ok(next) => Done(next)
  }

  function SelectFrom(ids: seq<Id>, v: View, c: Choice): Chosen
    requires forall i :: 0 <= i < |ids| ==> ids[i] in v.candidates
  {
    if ids == [] || |c.members| >= v.maxBatch then Done(c)
    else
      match Scan(v, c, ids[0])
      case Failed(outcomes, error) => Failed(outcomes, error)
      case Done(next) => SelectFrom(ids[1..], v, next)
  }

  function Select(v: View): Chosen {
    SelectFrom(Listing(v.candidates.Keys), v, Choice([], [], {}))
  }

  /** selectCandidates. */
  method SelectCandidates(v: View) returns (r: Chosen)
    ensures r == Select(v)
  {
    var ids := Listing(v.candidates.Keys);
    var c := Choice([], [], {});
    var i := 0;
    assert ids[0..] == ids;
    while i < |ids| && |c.members| < v.maxBatch
      invariant 0 <= i <= |ids|
      invariant forall j :: i <= j < |ids| ==> ids[j] in v.candidates
      invariant SelectFrom(ids[i..], v, c) == Select(v)
    {
      assert ids[i..][1..] == ids[i + 1..];
      var turn := Scan(v, c, ids[i]);
      if turn.Failed? { return turn; }
      c := turn.choice;
      i := i + 1;
    }
    r := Done(c);
  }

  predicate Disjoint(a: seq<Path>, b: seq<Path>) {
    PathSet(a) !! PathSet(b)
  }

  predicate Meets(a: Member, b: Member) {
    !Disjoint(a.envelope.writeSet, b.envelope.writeSet)
  }

  /** What may be applied as a chain on t: fresh members whose write-sets never meet. */
  ghost predicate Batchable(t: Tree, ms: seq<Member>) {
    && (forall i :: 0 <= i < |ms| ==> Decodes(ms[i].envelope) && Admission.Fresh(ms[i].envelope, t))
    && (forall i, j :: 0 <= i < |ms| && 0 <= j < |ms| && i != j ==>
      !Meets(ms[i], ms[j]))
  }

  /** m is exactly what the view holds under its id, and the round may take it. */
  predicate FromView(v: View, m: Member) {
    && m.id in v.candidates && LoadMember(v, m.id) == Some(m) && !NotOurs(v, m.id)
  }

  /** A member with a smaller id already writes one of id's paths. */
  ghost predicate OutrankedBy(v: View, c: Choice, id: Id)
    requires id in v.candidates && LoadMember(v, id).Some?
  {
    exists i :: 0 <= i < |c.members| && Less(c.members[i].id, id) && Meets(c.members[i], LoadMember(v, id).value)
  }

  /** Why a scanned candidate is where it is. First by id wins an overlap. */
  ghost predicate Explained(v: View, c: Choice, id: Id)
    requires id in v.candidates
  {
    || (exists i :: 0 <= i < |c.members| && c.members[i].id == id)
    || (exists i :: 0 <= i < |c.outcomes| && c.outcomes[i].id == id)
    || NotOurs(v, id)
    || LoadMember(v, id).None?
    || OutrankedBy(v, c, id)
  }

  /** A passed-over candidate, and why it is stale. */
  ghost predicate StaleNow(v: View, o: Outcome) {
    && o.id in v.candidates && LoadMember(v, o.id).Some? && !NotOurs(v, o.id)
    && !Admission.Fresh(LoadMember(v, o.id).value.envelope, v.snapshot)
    && o.class_ == if Admission.PreimagesHold(LoadMember(v, o.id).value.envelope.transitions, v.snapshot) then StaleAncestry
      else StalePreimage
  }

  ghost predicate MembersScanned(v: View, ms: seq<Member>, seen: seq<Id>) {
    && |ms| <= v.maxBatch
    && (forall i :: 0 <= i < |ms| ==> FromView(v, ms[i]) && ms[i].id in seen)
    && (forall i, j :: 0 <= i < j < |ms| ==> Less(ms[i].id, ms[j].id))
  }

  ghost predicate TakenExact(ms: seq<Member>, taken: set<Path>) {
    forall p :: p in taken <==> exists i :: 0 <= i < |ms| && p in PathSet(ms[i].envelope.writeSet)
  }

  ghost predicate OutcomesScanned(v: View, c: Choice, seen: seq<Id>) {
    && (forall i :: 0 <= i < |c.outcomes| ==> StaleNow(v, c.outcomes[i]) && c.outcomes[i].id in seen)
    && (forall i, j :: 0 <= i < j < |c.outcomes| ==> c.outcomes[i].id != c.outcomes[j].id)
    && (forall i, j :: 0 <= i < |c.outcomes| && 0 <= j < |c.members| ==> c.outcomes[i].id != c.members[j].id)
  }

  ghost predicate AllExplained(v: View, c: Choice, seen: seq<Id>) {
    forall i :: 0 <= i < |seen| ==> seen[i] in v.candidates && Explained(v, c, seen[i])
  }

  /** Nobody is passed over whose paths a member with a smaller id has taken. */
  ghost predicate NoneOutranked(v: View, c: Choice) {
    forall i :: 0 <= i < |c.outcomes| && c.outcomes[i].id in v.candidates && LoadMember(v, c.outcomes[i].id).Some? ==>
      !OutrankedBy(v, c, c.outcomes[i].id)
  }

  /** The batch is full, and was before id's turn came. */
  predicate TooLate(ms: seq<Member>, maxBatch: nat, id: Id) {
    |ms| == maxBatch && forall i | 0 <= i < |ms| :: Less(ms[i].id, id)
  }

  ghost predicate InTime(ms: seq<Member>, maxBatch: nat, seen: seq<Id>) {
    forall i :: 0 <= i < |seen| ==> !TooLate(ms, maxBatch, seen[i])
  }

  /** The account of the scan once the candidates in seen have had their turn. */
  ghost predicate Scanned(v: View, c: Choice, seen: seq<Id>) {
    && MembersScanned(v, c.members, seen)
    && Batchable(v.snapshot, c.members)
    && TakenExact(c.members, c.taken)
    && OutcomesScanned(v, c, seen)
    && AllExplained(v, c, seen)
    && NoneOutranked(v, c) && InTime(c.members, v.maxBatch, seen)
  }

  lemma StaleVerdict(e: Envelope, t: Tree)
    ensures ClassifyStale(e, t) == Ok(None) <==> Admission.Fresh(e, t)
    ensures ClassifyStale(e, t).Ok? && ClassifyStale(e, t).value.Some? ==>
      ClassifyStale(e, t).value.value == if Admission.PreimagesHold(e.transitions, t) then StaleAncestry else StalePreimage
  {
    Admission.TransitionsVerdict(e.transitions, t);
    Admission.AncestryVerdict(e.ancestry, t);
  }

  lemma OverlapsMeaning(taken: set<Path>, ws: seq<Path>)
    ensures Overlaps(taken, ws) <==> exists p :: p in taken && p in PathSet(ws)
  {
    if Overlaps(taken, ws) {
      var i :| 0 <= i < |ws| && ws[i] in taken;
      assert ws[i] in PathSet(ws);
    }
  }

  lemma SeenGrows(v: View, c: Choice, seen: seq<Id>, id: Id)
    requires Scanned(v, c, seen) && id in v.candidates && Explained(v, c, id) && |c.members| < v.maxBatch
    ensures Scanned(v, c, seen + [id])
  {
  }

  lemma ExplainedGrows(v: View, c: Choice, d: Choice, id: Id)
    requires id in v.candidates && Explained(v, c, id)
    requires c.members <= d.members && c.outcomes <= d.outcomes
    ensures Explained(v, d, id)
  {
  }

  lemma ExplainedStays(v: View, c: Choice, d: Choice, seen: seq<Id>, id: Id)
    requires AllExplained(v, c, seen) && id in v.candidates && Explained(v, d, id)
    requires c.members <= d.members && c.outcomes <= d.outcomes
    ensures AllExplained(v, d, seen + [id])
  {
    forall i | 0 <= i < |seen| ensures seen[i] in v.candidates && Explained(v, d, seen[i]) {
      ExplainedGrows(v, c, d, seen[i]);
    }
  }

  lemma NotSeen(seen: seq<Id>, id: Id)
    requires forall i :: 0 <= i < |seen| ==> Less(seen[i], id)
    ensures id !in seen
  {
    Trichotomy(id, id);
  }

  lemma TakenGrows(ms: seq<Member>, taken: set<Path>, m: Member)
    requires TakenExact(ms, taken)
    ensures TakenExact(ms + [m], taken + PathSet(m.envelope.writeSet))
  {
    var ds := ms + [m];
    forall p ensures p in taken + PathSet(m.envelope.writeSet) <==>
        exists i :: 0 <= i < |ds| && p in PathSet(ds[i].envelope.writeSet)
    {
      if p in taken {
        var i :| 0 <= i < |ms| && p in PathSet(ms[i].envelope.writeSet);
        assert ds[i] == ms[i];
      } else if p in PathSet(m.envelope.writeSet) {
        assert ds[|ms|] == m;
      }
    }
  }

  lemma BatchGrows(t: Tree, ms: seq<Member>, taken: set<Path>, m: Member)
    requires Batchable(t, ms) && TakenExact(ms, taken)
    requires Decodes(m.envelope) && Admission.Fresh(m.envelope, t)
    requires forall p :: p in taken ==> p !in PathSet(m.envelope.writeSet)
    ensures Batchable(t, ms + [m])
  {
    forall i | 0 <= i < |ms| ensures !Meets(ms[i], m) && !Meets(m, ms[i]) {
      assert forall p :: p in PathSet(ms[i].envelope.writeSet) ==> p in taken;
    }
  }

  /** A new member, larger than all before, outranks nobody seen and is itself in time. */
  lemma TakeInTime(v: View, c: Choice, d: Choice, seen: seq<Id>, m: Member)
    requires NoneOutranked(v, c) && OutcomesScanned(v, c, seen) && |c.members| < v.maxBatch
    requires forall i :: 0 <= i < |seen| ==> Less(seen[i], m.id)
    requires d.outcomes == c.outcomes && d.members == c.members + [m]
    ensures NoneOutranked(v, d) && InTime(d.members, v.maxBatch, seen + [m.id])
  {
    assert d.members[|c.members|] == m;
    forall i | 0 <= i < |seen + [m.id]| ensures !Less(m.id, (seen + [m.id])[i]) {
      Trichotomy(m.id, (seen + [m.id])[i]);
    }
    forall i | 0 <= i < |d.outcomes| ensures !Less(m.id, d.outcomes[i].id) {
      assert StaleNow(v, c.outcomes[i]) && c.outcomes[i].id in seen;
      Trichotomy(m.id, c.outcomes[i].id);
    }
    forall i | 0 <= i < |d.outcomes| ensures !OutrankedBy(v, d, d.outcomes[i].id) {
      assert StaleNow(v, c.outcomes[i]);
      assert !OutrankedBy(v, c, c.outcomes[i].id);
    }
  }

  /** A candidate none of whose paths is taken is outranked by nobody. */
  lemma UntakenNotOutranked(v: View, c: Choice, m: Member)
    requires FromView(v, m) && TakenExact(c.members, c.taken)
    requires forall p :: p in c.taken ==> p !in PathSet(m.envelope.writeSet)
    ensures !OutrankedBy(v, c, m.id)
  {
    forall i | 0 <= i < |c.members| ensures !Meets(c.members[i], m) {
      assert forall p :: p in PathSet(c.members[i].envelope.writeSet) ==> p in c.taken;
    }
  }

  lemma TakeKeeps(v: View, c: Choice, seen: seq<Id>, m: Member)
    requires Scanned(v, c, seen) && FromView(v, m) && |c.members| < v.maxBatch
    requires forall i :: 0 <= i < |seen| ==> Less(seen[i], m.id)
    requires Admission.Fresh(m.envelope, v.snapshot)
    requires forall p :: p in c.taken ==> p !in PathSet(m.envelope.writeSet)
    ensures Scanned(v, c.(members := c.members + [m], taken := c.taken + PathSet(m.envelope.writeSet)), seen + [m.id])
  {
    var d := c.(members := c.members + [m], taken := c.taken + PathSet(m.envelope.writeSet));
    NotSeen(seen, m.id);
    TakenGrows(c.members, c.taken, m);
    BatchGrows(v.snapshot, c.members, c.taken, m);
    assert d.members[|c.members|].id == m.id;
    TakeInTime(v, c, d, seen, m);
    ExplainedStays(v, c, d, seen, m.id);
  }

  lemma PassInOrder(v: View, c: Choice, d: Choice, id: Id, class_: OutcomeClass)
    requires NoneOutranked(v, c) && id in v.candidates && LoadMember(v, id).Some? && !OutrankedBy(v, c, id)
    requires d.members == c.members && d.outcomes == c.outcomes + [Outcome(id, class_)]
    ensures NoneOutranked(v, d)
  {
    forall i | 0 <= i < |d.outcomes| && d.outcomes[i].id in v.candidates && LoadMember(v, d.outcomes[i].id).Some?
      ensures !OutrankedBy(v, d, d.outcomes[i].id)
    {
      assert !OutrankedBy(v, c, d.outcomes[i].id);
    }
  }

  lemma PassKeeps(v: View, c: Choice, seen: seq<Id>, m: Member, class_: OutcomeClass)
    requires Scanned(v, c, seen) && FromView(v, m) && |c.members| < v.maxBatch
    requires forall i :: 0 <= i < |seen| ==> Less(seen[i], m.id)
    requires StaleNow(v, Outcome(m.id, class_))
    requires forall p :: p in c.taken ==> p !in PathSet(m.envelope.writeSet)
    ensures Scanned(v, c.(outcomes := c.outcomes + [Outcome(m.id, class_)]), seen + [m.id])
  {
    var d := c.(outcomes := c.outcomes + [Outcome(m.id, class_)]);
    NotSeen(seen, m.id);
    assert d.outcomes[|c.outcomes|].id == m.id;
    UntakenNotOutranked(v, c, m);
    PassInOrder(v, c, d, m.id, class_);
    ExplainedStays(v, c, d, seen, m.id);
  }

  /** Scanning one more candidate, in increasing id order, keeps the account. */
  lemma ScanKeeps(v: View, c: Choice, seen: seq<Id>, id: Id)
    requires Scanned(v, c, seen) && id in v.candidates && |c.members| < v.maxBatch
    requires forall i :: 0 <= i < |seen| ==> Less(seen[i], id)
    requires Scan(v, c, id).Done?
    ensures Scanned(v, Scan(v, c, id).choice, seen + [id])
  {
    var next := Scan(v, c, id).choice;
    if NotOurs(v, id) || LoadMember(v, id).None? {
      assert Explained(v, c, id);
      SeenGrows(v, c, seen, id);
    } else {
      var m := LoadMember(v, id).value;
      OverlapsMeaning(c.taken, m.envelope.writeSet);
      if Overlaps(c.taken, m.envelope.writeSet) {
        assert Explained(v, c, id);
        SeenGrows(v, c, seen, id);
      } else {
        StaleVerdict(m.envelope, v.snapshot);
        if ClassifyStale(m.envelope, v.snapshot) == Ok(None) {
          TakeKeeps(v, c, seen, m);
        } else {
          PassKeeps(v, c, seen, m, ClassifyStale(m.envelope, v.snapshot).value.value);
        }
      }
    }
  }

  /** k is how far the scan got: to the end, or until the batch was full. */
  lemma {:induction false} SelectFromKeeps(ids: seq<Id>, v: View, c: Choice, seen: seq<Id>) returns (k: nat)
    requires Increasing(seen + ids)
    requires forall i :: 0 <= i < |ids| ==> ids[i] in v.candidates
    requires Scanned(v, c, seen)
    requires SelectFrom(ids, v, c).Done?
    ensures k <= |ids| && Scanned(v, SelectFrom(ids, v, c).choice, seen + ids[..k])
    ensures k == |ids| || |SelectFrom(ids, v, c).choice.members| == v.maxBatch
  {
    if ids == [] || |c.members| >= v.maxBatch {
      k := 0;
      assert seen + ids[..0] == seen;
    } else {
      forall i | 0 <= i < |seen| ensures Less(seen[i], ids[0]) {
        assert (seen + ids)[i] == seen[i] && (seen + ids)[|seen|] == ids[0];
      }
      ScanKeeps(v, c, seen, ids[0]);
      var next := Scan(v, c, ids[0]).choice;
      assert (seen + [ids[0]]) + ids[1..] == seen + ids;
      var j := SelectFromKeeps(ids[1..], v, next, seen + [ids[0]]);
      k := j + 1;
      assert (seen + [ids[0]]) + ids[1..][..j] == seen + ids[..k];
    }
  }

  lemma NothingBefore<T>(s: seq<T>)
    ensures [] + s == s
  {
  }

  /** The batch is a chain that can be applied, every member is the candidate its
      refs hold, and every candidate scanned is a member, an outcome with its true
      reason, or a skip with one. The scan ends early only when the batch is full. */
  lemma SelectionAccounts(v: View) returns (k: nat)
    requires Select(v).Done?
    ensures k <= |Listing(v.candidates.Keys)|
    ensures Scanned(v, Select(v).choice, Listing(v.candidates.Keys)[..k])
    ensures k == |Listing(v.candidates.Keys)| || |Select(v).choice.members| == v.maxBatch
  {
    var ids := Listing(v.candidates.Keys);
    NothingBefore(ids);
    k := SelectFromKeeps(ids, v, Choice([], [], {}), []);
    NothingBefore(ids[..k]);
  }

  /** A candidate the round may take, past the paths already taken: its first path that
      does not hold is a directory. */
  ghost predicate MeetsDirectory(v: View, taken: set<Path>, id: Id)
    requires id in v.candidates
  {
    && !NotOurs(v, id) && LoadMember(v, id).Some?
    && var e := LoadMember(v, id).value.envelope;
    && !Overlaps(taken, e.writeSet)
    && exists n :: 0 <= n < |e.transitions| && Admission.FirstDirectory(e.transitions, v.snapshot, n)
  }

  lemma ScanFailsExactly(v: View, c: Choice, id: Id)
    requires id in v.candidates
    ensures Scan(v, c, id).Failed? <==> MeetsDirectory(v, c.taken, id)
  {
    if LoadMember(v, id).Some? {
      Admission.FailsExactly(LoadMember(v, id).value.envelope.transitions, v.snapshot);
    }
  }

  /** A scan that fails had accounted for everything before the candidate it failed
      on; d is what it held then. */
  lemma {:induction false} SelectFromFails(ids: seq<Id>, v: View, c: Choice, seen: seq<Id>) returns (d: Choice, k: nat)
    requires Increasing(seen + ids)
    requires forall i :: 0 <= i < |ids| ==> ids[i] in v.candidates
    requires Scanned(v, c, seen)
    requires SelectFrom(ids, v, c).Failed?
    ensures k < |ids| && Scanned(v, d, seen + ids[..k]) && d.outcomes == SelectFrom(ids, v, c).outcomes
    ensures MeetsDirectory(v, d.taken, ids[k])
  {
    if Scan(v, c, ids[0]).Failed? {
      d, k := c, 0;
      ScanFailsExactly(v, c, ids[0]);
      assert seen + ids[..0] == seen;
    } else {
      forall i | 0 <= i < |seen| ensures Less(seen[i], ids[0]) {
        assert (seen + ids)[i] == seen[i] && (seen + ids)[|seen|] == ids[0];
      }
      ScanKeeps(v, c, seen, ids[0]);
      assert (seen + [ids[0]]) + ids[1..] == seen + ids;
      var j: nat;
      d, j := SelectFromFails(ids[1..], v, Scan(v, c, ids[0]).choice, seen + [ids[0]]);
      k := j + 1;
      assert (seen + [ids[0]]) + ids[1..][..j] == seen + ids[..k];
    }
  }

  /** A selection that fails had accounted for every candidate before the one it failed
      on, which is one it may take whose first path that does not hold is a directory. */
  lemma FailureAccounts(v: View) returns (d: Choice, k: nat)
    requires Select(v).Failed?
    ensures k < |Listing(v.candidates.Keys)|
    ensures Scanned(v, d, Listing(v.candidates.Keys)[..k]) && d.outcomes == Select(v).outcomes
    ensures Listing(v.candidates.Keys)[k] in v.candidates && MeetsDirectory(v, d.taken, Listing(v.candidates.Keys)[k])
  {
    var ids := Listing(v.candidates.Keys);
    NothingBefore(ids);
    d, k := SelectFromFails(ids, v, Choice([], [], {}), []);
    NothingBefore(ids[..k]);
  }

  lemma {:induction false} TransitionsError(trs: seq<Transition>, t: Tree)
    requires Admission.CheckTransitionsCurrent(trs, t).Err?
    ensures Admission.CheckTransitionsCurrent(trs, t).error.path in Writes(trs)
    ensures TreeAt(t, Admission.CheckTransitionsCurrent(trs, t).error.path)
  {
    if BlobAt(t, trs[0].path).Ok? {
      TransitionsError(trs[1..], t);
      assert Writes(trs[1..]) <= Writes(trs) by {
        forall i | 0 <= i < |trs[1..]| ensures trs[1..][i].path in Writes(trs) { assert trs[1..][i] == trs[i + 1]; }
      }
    } else {
      assert trs[0].path in Writes(trs);
    }
  }

  /** A round that cannot choose was stopped by a candidate one of whose paths is a
      directory in the snapshot. */
  lemma {:induction false} FailureNamesADirectory(ids: seq<Id>, v: View, c: Choice) returns (id: Id)
    requires forall i :: 0 <= i < |ids| ==> ids[i] in v.candidates
    requires SelectFrom(ids, v, c).Failed?
    ensures id in ids && !NotOurs(v, id) && LoadMember(v, id).Some?
    ensures SelectFrom(ids, v, c).error.path in Writes(LoadMember(v, id).value.envelope.transitions)
    ensures TreeAt(v.snapshot, SelectFrom(ids, v, c).error.path)
  {
    if Scan(v, c, ids[0]).Failed? {
      id := ids[0];
      TransitionsError(LoadMember(v, id).value.envelope.transitions, v.snapshot);
    } else {
      id := FailureNamesADirectory(ids[1..], v, Scan(v, c, ids[0]).choice);
    }
  }

  /** The scan of ids gets to the k-th with room to spare, and there meets such a
      candidate. */
  ghost predicate StopsAt(ids: seq<Id>, v: View, c: Choice, k: nat)
    requires k < |ids| && forall i :: 0 <= i < |ids| ==> ids[i] in v.candidates
  {
    var before := SelectFrom(ids[..k], v, c);
    && before.Done? && |before.choice.members| < v.maxBatch
    && MeetsDirectory(v, before.choice.taken, ids[k])
  }

  /** Nothing is reached past a full batch, or past a candidate that stops the scan. */
  lemma NeverPast(ids: seq<Id>, v: View, c: Choice)
    requires forall i :: 0 <= i < |ids| ==> ids[i] in v.candidates
    requires ids == [] || |c.members| >= v.maxBatch || Scan(v, c, ids[0]).Failed?
    ensures forall k :: 0 < k < |ids| ==> !StopsAt(ids, v, c, k)
    ensures |c.members| >= v.maxBatch && ids != [] ==> !StopsAt(ids, v, c, 0)
  {
    forall k | 0 < k < |ids| ensures !StopsAt(ids, v, c, k) {
      assert ids[..k][0] == ids[0];
    }
  }

  lemma {:induction false} SelectFromFailsExactly(ids: seq<Id>, v: View, c: Choice)
    requires forall i :: 0 <= i < |ids| ==> ids[i] in v.candidates
    ensures SelectFrom(ids, v, c).Failed? <==> exists k :: 0 <= k < |ids| && StopsAt(ids, v, c, k)
  {
    if ids != [] && |c.members| < v.maxBatch {
      ScanFailsExactly(v, c, ids[0]);
      assert StopsAt(ids, v, c, 0) <==> Scan(v, c, ids[0]).Failed?;
      if Scan(v, c, ids[0]).Done? {
        var next := Scan(v, c, ids[0]).choice;
        SelectFromFailsExactly(ids[1..], v, next);
        forall k | 0 <= k < |ids[1..]| ensures StopsAt(ids[1..], v, next, k) <==> StopsAt(ids, v, c, k + 1) {
          assert ids[..k + 1][1..] == ids[1..][..k];
        }
        if k :| 0 <= k < |ids| && StopsAt(ids, v, c, k) { assert k > 0 && StopsAt(ids[1..], v, next, k - 1); }
      } else {
        NeverPast(ids, v, c);
      }
    } else {
      NeverPast(ids, v, c);
    }
  }

  /** A round cannot choose exactly when its scan, taken that far, meets a candidate it
      may take whose first path that does not hold is a directory in the snapshot. */
  lemma SelectFailsExactly(v: View)
    ensures Select(v).Failed? <==>
      exists k :: 0 <= k < |Listing(v.candidates.Keys)| && StopsAt(Listing(v.candidates.Keys), v, Choice([], [], {}), k)
  {
    var ids, c := Listing(v.candidates.Keys), Choice([], [], {});
    SelectFromFailsExactly(ids, v, c);
    assert Select(v) == SelectFrom(ids, v, c);
  }

  ghost predicate AllReadable(trs: seq<Transition>, t: Tree) {
    forall i :: 0 <= i < |trs| ==> Readable(t, trs[i].path)
  }

  /** Where no candidate's path is a directory the round can choose. */
  lemma ReadableQueueSelects(v: View)
    requires forall id :: id in v.candidates && v.candidates[id].EnvelopeBlob? ==>
      AllReadable(v.candidates[id].envelope.transitions, v.snapshot)
    ensures Select(v).Done?
  {
    var ids := Listing(v.candidates.Keys);
    SelectFailsExactly(v);
    forall k | 0 <= k < |ids| ensures !StopsAt(ids, v, Choice([], [], {}), k) {
      assert v.candidates[ids[k]].EnvelopeBlob? ==> AllReadable(v.candidates[ids[k]].envelope.transitions, v.snapshot);
    }
  }

  /** A solo round that cannot choose says nothing about its candidate. */
  lemma FailsSilently(v: View)
    requires v.only != "" && Select(v).Failed?
    ensures Select(v).outcomes == []
  {
    var d, k := FailureAccounts(v);
    var ids := Listing(v.candidates.Keys);
    if d.outcomes != [] {
      assert StaleNow(v, d.outcomes[0]) && d.outcomes[0].id in ids[..k];
      var i :| 0 <= i < k && ids[i] == d.outcomes[0].id;
      Trichotomy(ids[i], ids[k]);
    }
  }
}
