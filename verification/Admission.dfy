/** The admission verdict: a candidate is judged against the state as it stands,
    never against the snapshot its envelope recorded. */
module Admission {
  import opened Options
  import opened Ordering
  import opened Paths
  import opened Trees
  import opened Envelopes

  datatype Reason =
    | ProposalMismatch
    | MalformedCandidate
    | UnauthorizedPath
    | StaleLeaseEpoch
    | StalePreimage
    | StaleAncestry
    | ViolationIntersect

  datatype Decision = Accepted | Rejected(reason: Reason, path: Option<Path>)

  /** What the caller reads from live state just before asking: the commit put
      forward, integration, the open violations and the current lease epochs. */
  datatype Presented = Presented(
    proposal: Commit,
    integ: Tree,
    violations: set<Path>,
    epochs: map<Path, int>)

  /** The paths on which two trees differ. */
  function Changed(a: Tree, b: Tree): (ps: set<Path>)
    ensures forall p :: p in ps <==> Lookup(a, p) != Lookup(b, p)
  {
    set p | p in a.Keys + b.Keys && Lookup(a, p) != Lookup(b, p)
  }

  /** diffStringSets as a recursion: what is only in a and what is only in b. */
  function Difference(a: seq<string>, b: seq<string>): (seq<string>, seq<string>) {
    if a == [] then ([], b)
    else if b == [] then (a, [])
    else if a[0] == b[0] then Difference(a[1..], b[1..])
    else if Less(a[0], b[0]) then
      var (onlyA, onlyB) := Difference(a[1..], b); ([a[0]] + onlyA, onlyB)
    else
      var (onlyA, onlyB) := Difference(a, b[1..]); (onlyA, [b[0]] + onlyB)
  }

  /** The two-index merge. */
  method DiffStringSets(a: seq<string>, b: seq<string>) returns (onlyA: seq<string>, onlyB: seq<string>)
    ensures (onlyA, onlyB) == Difference(a, b)
  {
    onlyA, onlyB := [], [];
    var i, j := 0, 0;
    assert a[0..] == a && b[0..] == b;
    assert [] + Difference(a, b).0 == Difference(a, b).0 && [] + Difference(a, b).1 == Difference(a, b).1;
    while i < |a| && j < |b|
      invariant 0 <= i <= |a| && 0 <= j <= |b|
      invariant (onlyA + Difference(a[i..], b[j..]).0, onlyB + Difference(a[i..], b[j..]).1) == Difference(a, b)
      decreases |a| - i + |b| - j
    {
      assert a[i..][1..] == a[i + 1..] && b[j..][1..] == b[j + 1..];
      if a[i] == b[j] {
        i, j := i + 1, j + 1;
      } else if Less(a[i], b[j]) {
        assert onlyA + ([a[i]] + Difference(a[i + 1..], b[j..]).0) == onlyA + [a[i]] + Difference(a[i + 1..], b[j..]).0;
        onlyA, i := onlyA + [a[i]], i + 1;
      } else {
        assert onlyB + ([b[j]] + Difference(a[i..], b[j + 1..]).1) == onlyB + [b[j]] + Difference(a[i..], b[j + 1..]).1;
        onlyB, j := onlyB + [b[j]], j + 1;
      }
    }
    onlyA, onlyB := onlyA + a[i..], onlyB + b[j..];
  }

  lemma SortedHeadBelow(s: seq<string>, x: string)
    requires Sorted(s) && s != [] && Less(x, s[0])
    ensures x !in s
  {
    forall i | 0 <= i < |s| ensures s[i] != x {
      Trichotomy(x, s[0]);
    }
  }

  /** The merge so far is multiset difference, both ways. */
  ghost predicate Exact(a: seq<string>, b: seq<string>) {
    && multiset(Difference(a, b).0) == multiset(a) - multiset(b)
    && multiset(Difference(a, b).1) == multiset(b) - multiset(a)
  }

  lemma HeadAndTail(s: seq<string>)
    requires s != []
    ensures multiset(s) == multiset{s[0]} + multiset(s[1..])
  {
    assert s == [s[0]] + s[1..];
  }

  lemma ExactShared(a: seq<string>, b: seq<string>)
    requires a != [] && b != [] && a[0] == b[0] && Exact(a[1..], b[1..])
    ensures Exact(a, b)
  {
    HeadAndTail(a);
    HeadAndTail(b);
  }

  lemma ExactOwnA(a: seq<string>, b: seq<string>)
    requires a != [] && b != [] && Less(a[0], b[0]) && a[0] !in b && Exact(a[1..], b)
    ensures Exact(a, b)
  {
    HeadAndTail(a);
    assert a[0] !in multiset(b);
    HeadAndTail(Difference(a, b).0);
  }

  lemma ExactOwnB(a: seq<string>, b: seq<string>)
    requires a != [] && b != [] && a[0] != b[0] && !Less(a[0], b[0]) && b[0] !in a && Exact(a, b[1..])
    ensures Exact(a, b)
  {
    HeadAndTail(b);
    assert b[0] !in multiset(a);
    HeadAndTail(Difference(a, b).1);
  }

  /** On sorted lists the merge is exactly multiset difference, both ways. */
  lemma {:induction false} DifferenceExact(a: seq<string>, b: seq<string>)
    requires Sorted(a) && Sorted(b)
    ensures multiset(Difference(a, b).0) == multiset(a) - multiset(b)
    ensures multiset(Difference(a, b).1) == multiset(b) - multiset(a)
    decreases |a| + |b|
  {
    if a != [] && b != [] {
      Trichotomy(a[0], b[0]);
      if a[0] == b[0] {
        DifferenceExact(a[1..], b[1..]);
        ExactShared(a, b);
      } else if Less(a[0], b[0]) {
        SortedHeadBelow(b, a[0]);
        DifferenceExact(a[1..], b);
        ExactOwnA(a, b);
      } else {
        SortedHeadBelow(a, b[0]);
        DifferenceExact(a, b[1..]);
        ExactOwnB(a, b);
      }
    }
  }

  lemma EmptyDifferences(a: multiset<string>, b: multiset<string>)
    requires a - b == multiset{} && b - a == multiset{}
    ensures a == b
  {
    forall x ensures a[x] == b[x] {
      assert (a - b)[x] == 0 && (b - a)[x] == 0;
    }
  }

  lemma {:induction false} IncreasingOnce(l: seq<string>, x: string)
    requires Increasing(l) && x in l
    ensures multiset(l)[x] == 1
  {
    assert l == [l[0]] + l[1..];
    assert Increasing(l[1..]);
    if l[0] == x {
      forall i | 0 <= i < |l[1..]| ensures l[1..][i] != x { Trichotomy(l[0], l[i + 1]); }
      assert x !in multiset(l[1..]);
    } else {
      IncreasingOnce(l[1..], x);
    }
  }

  lemma {:induction false} ListingMultiset(s: set<string>)
    ensures multiset(Listing(s)) == multiset(s)
  {
    var l := Listing(s);
    forall x ensures multiset(l)[x] == multiset(s)[x] {
      if x in s {
        assert x in l;
        IncreasingOnce(l, x);
      } else {
        assert x !in l;
      }
    }
  }

  /** The declared write-set passes exactly when it lists the paths the proposal
      changes, each once. */
  lemma DeclaredExactly(declared: seq<Path>, changed: set<Path>)
    ensures Difference(Sort(declared), Listing(changed)) == ([], []) <==> multiset(declared) == multiset(changed)
  {
    var d, c := Sort(declared), Listing(changed);
    assert Sorted(c) by {
      forall i, j | 0 <= i < j < |c| ensures !Less(c[j], c[i]) { Trichotomy(c[i], c[j]); }
    }
    ListingMultiset(changed);
    DifferenceExact(d, c);
    var (onlyD, onlyC) := Difference(d, c);
    if onlyD == [] && onlyC == [] {
      assert multiset(d) - multiset(c) == multiset{} && multiset(c) - multiset(d) == multiset{};
      EmptyDifferences(multiset(d), multiset(c));
    }
    if multiset(declared) == multiset(changed) {
      assert |multiset(onlyD)| == 0 && |multiset(onlyC)| == 0;
    }
  }

  function CheckCommitShape(c: Commit): Decision {
    if |c.parents| == 1 then Accepted else Rejected(MalformedCandidate, None)
  }

  /** checkDiffMatchesWriteSet, for a commit with a parent: the declared paths
      against the paths the commit really changes. */
  function CheckDiffMatchesWriteSet(e: Envelope): Decision
    requires |e.proposal.parents| == 1
  {
    var actual := Listing(Changed(e.proposal.parents[0].tree, e.proposal.tree));
    var (onlyDeclared, onlyActual) := Difference(Sort(e.writeSet), actual);
    if onlyActual != [] then Rejected(UnauthorizedPath, Some(onlyActual[0]))
    else if onlyDeclared != [] then Rejected(UnauthorizedPath, Some(onlyDeclared[0]))
    else Accepted
  }

  function EpochAt(epochs: map<Path, int>, p: Path): int {
    if p in epochs then epochs[p] else 0
  }

  function CheckLeaseEpochs(ws: seq<Path>, captured: map<Path, int>, current: map<Path, int>): Decision {
    if ws == [] then Accepted
    else if EpochAt(captured, ws[0]) != EpochAt(current, ws[0]) then Rejected(StaleLeaseEpoch, Some(ws[0]))
    else CheckLeaseEpochs(ws[1..], captured, current)
  }

  /** checkTransitionsCurrent: the first path whose content moved, or a read error. */
  function CheckTransitionsCurrent(trs: seq<Transition>, integ: Tree): Result<Decision, ReadError> {
    if trs == [] then Ok(Accepted)
    else
      match BlobAt(integ, trs[0].path)
      case Err(e) => Err(e)
      case Ok(now) =>
        if now != trs[0].expected then Ok(Rejected(StalePreimage, Some(trs[0].path)))
        else CheckTransitionsCurrent(trs[1..], integ)
  }

  /** checkAncestryCurrent: the first needed directory that is one no more. */
  function CheckAncestryCurrent(ancestry: seq<Path>, integ: Tree): Decision {
    if ancestry == [] then Accepted
    else if !TreeAt(integ, ancestry[0]) then Rejected(StaleAncestry, Some(ancestry[0]))
    else CheckAncestryCurrent(ancestry[1..], integ)
  }

  function CheckViolationIntersect(ws: seq<Path>, violations: set<Path>): Decision {
    if ws == [] then Accepted
    else if ws[0] in violations then Rejected(ViolationIntersect, Some(ws[0]))
    else CheckViolationIntersect(ws[1..], violations)
  }

  /** Admit: the checks in order, the first refusal standing. */
  function Admit(e: Envelope, p: Presented): Result<Decision, ReadError> {
    if e.proposal != p.proposal then Ok(Rejected(ProposalMismatch, None))
    else if CheckCommitShape(e.proposal) != Accepted then Ok(CheckCommitShape(e.proposal))
    else if CheckDiffMatchesWriteSet(e) != Accepted then Ok(CheckDiffMatchesWriteSet(e))
    else if CheckLeaseEpochs(e.writeSet, e.leaseEpoch, p.epochs) != Accepted then
      Ok(CheckLeaseEpochs(e.writeSet, e.leaseEpoch, p.epochs))
    else
      match CheckTransitionsCurrent(e.transitions, p.integ)
      case Err(x) => Err(x)
      case Ok(Rejected(r, path)) => Ok(Rejected(r, path))
      case Ok(Accepted) =>
        if CheckAncestryCurrent(e.ancestry, p.integ) != Accepted then Ok(CheckAncestryCurrent(e.ancestry, p.integ))
        else Ok(CheckViolationIntersect(e.writeSet, p.violations))
  }

  /** p is leased under the same epoch in both; an absent one counts as zero. */
  predicate SameEpoch(captured: map<Path, int>, current: map<Path, int>, p: Path) {
    (if p in captured then captured[p] else 0) == (if p in current then current[p] else 0)
  }

  /** Every path reads as exactly the content the envelope captured. */
  ghost predicate PreimagesHold(trs: seq<Transition>, integ: Tree) {
    forall i :: 0 <= i < |trs| ==> BlobAt(integ, trs[i].path) == Ok(trs[i].expected)
  }

  ghost predicate AncestryHolds(ancestry: seq<Path>, integ: Tree) {
    forall i :: 0 <= i < |ancestry| ==> TreeAt(integ, ancestry[i])
  }

  /** The envelope still applies to integ as it stands. */
  ghost predicate Fresh(e: Envelope, integ: Tree) {
    PreimagesHold(e.transitions, integ) && AncestryHolds(e.ancestry, integ)
  }

  /** The transition check passes exactly when every preimage holds. */
  lemma {:induction false} TransitionsVerdict(trs: seq<Transition>, integ: Tree)
    ensures CheckTransitionsCurrent(trs, integ) == Ok(Accepted) <==> PreimagesHold(trs, integ)
    ensures CheckTransitionsCurrent(trs, integ).Ok? && CheckTransitionsCurrent(trs, integ).value.Rejected? ==>
      CheckTransitionsCurrent(trs, integ).value.reason == StalePreimage
  {
    if trs != [] {
      TransitionsVerdict(trs[1..], integ);
      assert trs == [trs[0]] + trs[1..];
    }
  }

  /** Path i can be read and has moved; the ones before it hold. */
  ghost predicate FirstMoved(trs: seq<Transition>, integ: Tree, i: nat)
    requires i < |trs|
  {
    && PreimagesHold(trs[..i], integ)
    && BlobAt(integ, trs[i].path).Ok? && BlobAt(integ, trs[i].path).value != trs[i].expected
  }

  lemma HeadHolds(trs: seq<Transition>, integ: Tree, i: nat)
    requires trs != [] && i < |trs[1..]| && BlobAt(integ, trs[0].path) == Ok(trs[0].expected)
    ensures PreimagesHold(trs[..i + 1], integ) <==> PreimagesHold(trs[1..][..i], integ)
  {
    assert trs[..i + 1] == [trs[0]] + trs[1..][..i];
    assert forall j :: 0 <= j < i ==> trs[1..][..i][j] == trs[..i + 1][j + 1];
  }

  /** It refuses exactly when some path can be read and has moved, every earlier one
      holding. */
  lemma {:induction false} RefusesExactly(trs: seq<Transition>, integ: Tree)
    ensures CheckTransitionsCurrent(trs, integ).Ok? && CheckTransitionsCurrent(trs, integ).value.Rejected? <==>
      exists i :: 0 <= i < |trs| && FirstMoved(trs, integ, i)
  {
    if trs != [] {
      RefusesExactly(trs[1..], integ);
      if BlobAt(integ, trs[0].path) == Ok(trs[0].expected) {
        forall i | 0 <= i < |trs[1..]| ensures FirstMoved(trs[1..], integ, i) <==> FirstMoved(trs, integ, i + 1) {
          assert trs[..i + 1] == [trs[0]] + trs[1..][..i];
          HeadHolds(trs, integ, i);
        }
        if i :| 0 <= i < |trs| && FirstMoved(trs, integ, i) { assert i > 0 && FirstMoved(trs[1..], integ, i - 1); }
      } else {
        assert FirstMoved(trs, integ, 0) <==> BlobAt(integ, trs[0].path).Ok?;
        forall i | 0 < i < |trs| ensures !FirstMoved(trs, integ, i) { assert trs[..i][0] == trs[0]; }
      }
    }
  }

  /** Path i is a directory; the ones before it hold. */
  ghost predicate FirstDirectory(trs: seq<Transition>, integ: Tree, i: nat)
    requires i < |trs|
  {
    PreimagesHold(trs[..i], integ) && TreeAt(integ, trs[i].path)
  }

  /** It fails to read exactly when the first path that does not hold is a directory. */
  lemma {:induction false} FailsExactly(trs: seq<Transition>, integ: Tree)
    ensures CheckTransitionsCurrent(trs, integ).Err? <==> exists i :: 0 <= i < |trs| && FirstDirectory(trs, integ, i)
  {
    if trs != [] {
      FailsExactly(trs[1..], integ);
      if BlobAt(integ, trs[0].path) == Ok(trs[0].expected) {
        forall i | 0 <= i < |trs[1..]| ensures FirstDirectory(trs[1..], integ, i) <==> FirstDirectory(trs, integ, i + 1) {
          HeadHolds(trs, integ, i);
        }
        if i :| 0 <= i < |trs| && FirstDirectory(trs, integ, i) { assert i > 0 && FirstDirectory(trs[1..], integ, i - 1); }
      } else {
        assert FirstDirectory(trs, integ, 0) <==> BlobAt(integ, trs[0].path).Err?;
        forall i | 0 < i < |trs| ensures !FirstDirectory(trs, integ, i) { assert trs[..i][0] == trs[0]; }
      }
    }
  }

  lemma {:induction false} AncestryVerdict(ancestry: seq<Path>, integ: Tree)
    ensures CheckAncestryCurrent(ancestry, integ) == Accepted <==> AncestryHolds(ancestry, integ)
    ensures CheckAncestryCurrent(ancestry, integ).Rejected? ==>
      CheckAncestryCurrent(ancestry, integ).reason == StaleAncestry
  {
    if ancestry != [] {
      AncestryVerdict(ancestry[1..], integ);
      assert ancestry == [ancestry[0]] + ancestry[1..];
    }
  }

  lemma {:induction false} EpochsVerdict(ws: seq<Path>, captured: map<Path, int>, current: map<Path, int>)
    ensures CheckLeaseEpochs(ws, captured, current) == Accepted <==>
      forall p :: p in ws ==> SameEpoch(captured, current, p)
  {
    if ws != [] {
      EpochsVerdict(ws[1..], captured, current);
      assert ws == [ws[0]] + ws[1..];
      assert SameEpoch(captured, current, ws[0]) <==> EpochAt(captured, ws[0]) == EpochAt(current, ws[0]);
    }
  }

  lemma {:induction false} ViolationsVerdict(ws: seq<Path>, violations: set<Path>)
    ensures CheckViolationIntersect(ws, violations) == Accepted <==> forall p :: p in ws ==> p !in violations
  {
    if ws != [] {
      ViolationsVerdict(ws[1..], violations);
      assert ws == [ws[0]] + ws[1..];
    }
  }

  /** Admit accepts exactly the candidates that meet every condition at once. */
  lemma AdmitExact(e: Envelope, p: Presented)
    ensures Admit(e, p) == Ok(Accepted) <==>
      && e.proposal == p.proposal
      && |e.proposal.parents| == 1
      && multiset(e.writeSet) == multiset(Changed(e.proposal.parents[0].tree, e.proposal.tree))
      && (forall q :: q in e.writeSet ==> SameEpoch(e.leaseEpoch, p.epochs, q))
      && Fresh(e, p.integ)
      && (forall q :: q in e.writeSet ==> q !in p.violations)
  {
    if |e.proposal.parents| == 1 {
      DeclaredExactly(e.writeSet, Changed(e.proposal.parents[0].tree, e.proposal.tree));
    }
    EpochsVerdict(e.writeSet, e.leaseEpoch, p.epochs);
    TransitionsVerdict(e.transitions, p.integ);
    AncestryVerdict(e.ancestry, p.integ);
    ViolationsVerdict(e.writeSet, p.violations);
  }

  /** An envelope is fresh against the very tree it was captured from. */
  lemma CapturedIsFresh(e: Envelope, integ: Tree, prop: Tree)
    requires CapturedFrom(e, integ, prop)
    ensures Fresh(e, integ)
  {
    forall i | 0 <= i < |e.ancestry| ensures TreeAt(integ, e.ancestry[i]) {
      assert e.ancestry[i] in e.ancestry;
    }
  }

  lemma {:induction false} EpochNamed(ws: seq<Path>, captured: map<Path, int>, current: map<Path, int>)
    ensures var d := CheckLeaseEpochs(ws, captured, current);
      d.Rejected? ==>
        d.reason == StaleLeaseEpoch && d.path.Some? && d.path.value in ws && !SameEpoch(captured, current, d.path.value)
  {
    if ws != [] { EpochNamed(ws[1..], captured, current); }
  }

  lemma {:induction false} ViolationNamed(ws: seq<Path>, violations: set<Path>)
    ensures var d := CheckViolationIntersect(ws, violations);
      d.Rejected? ==> d.reason == ViolationIntersect && d.path.Some? && d.path.value in ws && d.path.value in violations
  {
    if ws != [] { ViolationNamed(ws[1..], violations); }
  }

  /** With nothing moved between them, admission never calls a capture stale and
      never fails to read. */
  lemma CaptureThenAdmit(e: Envelope, prop: Tree, p: Presented)
    requires CapturedFrom(e, p.integ, prop)
    ensures Admit(e, p).Ok?
    ensures Admit(e, p).value.Rejected? ==> Admit(e, p).value.reason !in {StalePreimage, StaleAncestry}
  {
    CapturedIsFresh(e, p.integ, prop);
    TransitionsVerdict(e.transitions, p.integ);
    AncestryVerdict(e.ancestry, p.integ);
    EpochNamed(e.writeSet, e.leaseEpoch, p.epochs);
    ViolationNamed(e.writeSet, p.violations);
  }

  ghost predicate Declared(e: Envelope) {
    |e.proposal.parents| == 1 && multiset(e.writeSet) == multiset(Changed(e.proposal.parents[0].tree, e.proposal.tree))
  }

  ghost predicate EpochsHold(e: Envelope, p: Presented) {
    forall q :: q in e.writeSet ==> SameEpoch(e.leaseEpoch, p.epochs, q)
  }

  /** The first n of admission's conditions, in its own order. */
  ghost predicate MeetsFirst(e: Envelope, p: Presented, n: nat) {
    && (n > 0 ==> e.proposal == p.proposal)
    && (n > 1 ==> |e.proposal.parents| == 1)
    && (n > 2 ==> Declared(e))
    && (n > 3 ==> EpochsHold(e, p))
    && (n > 4 ==> PreimagesHold(e.transitions, p.integ))
    && (n > 5 ==> AncestryHolds(e.ancestry, p.integ))
  }

  /** q is declared and not changed, or changed and not declared, or declared twice. */
  ghost predicate Misdeclared(e: Envelope, q: Path)
    requires |e.proposal.parents| == 1
  {
    multiset(e.writeSet)[q] != multiset(Changed(e.proposal.parents[0].tree, e.proposal.tree))[q]
  }

  ghost predicate Moved(trs: seq<Transition>, integ: Tree, q: Path) {
    exists i :: 0 <= i < |trs| && trs[i].path == q && BlobAt(integ, q).Ok? && BlobAt(integ, q).value != trs[i].expected
  }

  /** What each refusal says is so, and everything asked before it held. */
  ghost predicate Earned(e: Envelope, p: Presented, reason: Reason, path: Option<Path>) {
    match reason
    case ProposalMismatch => e.proposal != p.proposal
    case MalformedCandidate => MeetsFirst(e, p, 1) && |e.proposal.parents| != 1
    case UnauthorizedPath => MeetsFirst(e, p, 2) && path.Some? && Misdeclared(e, path.value)
    case StaleLeaseEpoch =>
      MeetsFirst(e, p, 3) && path.Some? && path.value in e.writeSet && !SameEpoch(e.leaseEpoch, p.epochs, path.value)
    case StalePreimage => MeetsFirst(e, p, 4) && path.Some? && Moved(e.transitions, p.integ, path.value)
    case StaleAncestry => MeetsFirst(e, p, 5) && path.Some? && path.value in e.ancestry && !TreeAt(p.integ, path.value)
    case ViolationIntersect => MeetsFirst(e, p, 6) && path.Some? && path.value in e.writeSet && path.value in p.violations
  }

  ghost predicate EarnedIf(e: Envelope, p: Presented, r: Result<Decision, ReadError>) {
    match r
    case Ok(Rejected(reason, path)) => Earned(e, p, reason, path)
    case Ok(Accepted) => true
    case Err(x) => MeetsFirst(e, p, 4) && TreeAt(p.integ, x.path)
  }

  lemma DeclaredPasses(e: Envelope)
    requires |e.proposal.parents| == 1
    ensures CheckDiffMatchesWriteSet(e) == Accepted <==> Declared(e)
  {
    DeclaredExactly(e.writeSet, Changed(e.proposal.parents[0].tree, e.proposal.tree));
  }

  lemma MovedLater(trs: seq<Transition>, integ: Tree, q: Path)
    requires trs != [] && Moved(trs[1..], integ, q)
    ensures Moved(trs, integ, q)
  {
    var i :| 0 <= i < |trs[1..]| && trs[1..][i].path == q && BlobAt(integ, q).Ok? && BlobAt(integ, q).value != trs[1..][i].expected;
    assert trs[i + 1] == trs[1..][i];
  }

  lemma {:induction false} TransitionNamed(trs: seq<Transition>, integ: Tree)
    ensures var r := CheckTransitionsCurrent(trs, integ);
      && (r.Ok? && r.value.Rejected? ==> r.value.reason == StalePreimage && r.value.path.Some? && Moved(trs, integ, r.value.path.value))
      && (r.Err? ==> TreeAt(integ, r.error.path))
  {
    if trs != [] {
      TransitionNamed(trs[1..], integ);
      var r := CheckTransitionsCurrent(trs[1..], integ);
      if r.Ok? && r.value.Rejected? {
        MovedLater(trs, integ, r.value.path.value);
      }
    }
  }

  lemma {:induction false} AncestryNamed(ancestry: seq<Path>, integ: Tree)
    ensures var d := CheckAncestryCurrent(ancestry, integ);
      d.Rejected? ==> d.reason == StaleAncestry && d.path.Some? && d.path.value in ancestry && !TreeAt(integ, d.path.value)
  {
    if ancestry != [] { AncestryNamed(ancestry[1..], integ); }
  }

  /** The three reads against live state, the cheap checks passed. */
  lemma FreshnessEarned(e: Envelope, p: Presented)
    requires MeetsFirst(e, p, 4)
    requires CheckCommitShape(e.proposal) == Accepted && CheckDiffMatchesWriteSet(e) == Accepted
    requires CheckLeaseEpochs(e.writeSet, e.leaseEpoch, p.epochs) == Accepted
    ensures EarnedIf(e, p, Admit(e, p))
  {
    TransitionsVerdict(e.transitions, p.integ);
    TransitionNamed(e.transitions, p.integ);
    if CheckTransitionsCurrent(e.transitions, p.integ) == Ok(Accepted) {
      AncestryVerdict(e.ancestry, p.integ);
      AncestryNamed(e.ancestry, p.integ);
      ViolationNamed(e.writeSet, p.violations);
    }
  }

  lemma MisdeclaredNamed(e: Envelope)
    requires |e.proposal.parents| == 1
    ensures var d := CheckDiffMatchesWriteSet(e);
      d.Rejected? ==> d.reason == UnauthorizedPath && d.path.Some? && Misdeclared(e, d.path.value)
  {
    var changed := Changed(e.proposal.parents[0].tree, e.proposal.tree);
    var ws, actual := Sort(e.writeSet), Listing(changed);
    assert Sorted(actual) by {
      forall i, j | 0 <= i < j < |actual| ensures !Less(actual[j], actual[i]) { Trichotomy(actual[i], actual[j]); }
    }
    ListingMultiset(changed);
    DifferenceExact(ws, actual);
    var (onlyDeclared, onlyActual) := Difference(ws, actual);
    if onlyActual != [] { assert onlyActual[0] in multiset(onlyActual); }
    if onlyDeclared != [] { assert onlyDeclared[0] in multiset(onlyDeclared); }
  }

  /** Every refusal is earned, and the first one stands. A read that fails found a
      directory at one of the paths, after everything cheaper had passed. */
  lemma RefusalEarned(e: Envelope, p: Presented)
    ensures EarnedIf(e, p, Admit(e, p))
  {
    if e.proposal == p.proposal && |e.proposal.parents| == 1 {
      DeclaredPasses(e);
      MisdeclaredNamed(e);
      if CheckDiffMatchesWriteSet(e) == Accepted {
        EpochsVerdict(e.writeSet, e.leaseEpoch, p.epochs);
        EpochNamed(e.writeSet, e.leaseEpoch, p.epochs);
        if CheckLeaseEpochs(e.writeSet, e.leaseEpoch, p.epochs) == Accepted {
          FreshnessEarned(e, p);
        }
      }
    }
  }
}
