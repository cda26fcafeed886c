/** Bridge runs side by side: their reads at different moments, integration growing,
    main absorbing prefixes of it, people deleting branches, runs dying anywhere. */
module BridgeRuns {
  import opened Options
  import opened Text
  import opened Filters
  import opened Envelopes
  import opened RefTransactions
  import opened Bridge
  import opened BridgeBuilds

  /** What one run has read so far for one bead. The commits it lists are
      integration's from one position up to another. */
  datatype Reading =
    | Listed(main: Commit, from: nat, upto: nat)
    | BranchRead(main: Commit, from: nat, upto: nat, bead: string, branch: Option<Commit>)
    | Ready(main: Commit, from: nat, upto: nat, bead: string, branch: Option<Commit>, marker: Option<string>)

  /** Where a bead's present branch started. */
  datatype Origin = Origin(base: Commit, from: nat)

  datatype World = World(
    integ: seq<Source>,
    absorbed: nat,
    store: Store,
    readings: map<nat, Reading>,
    replayed: seq<string>,
    origins: map<string, Origin>)

  datatype Step =
    | Promote(commit: Source)
    | Absorb(upto: nat)
    | DropBranch(bead: string)
    | List(run: nat, main: Commit)
    | ReadBranch(run: nat, copy: nat, bead: string)
    | ReadMarker(run: nat)
    | Build(run: nat)

  const START := World([], 0, map[], map[], [], map[])

  /** The bead's commits as the run listed them. */
  function ListOf(w: World, r: Reading): seq<Source> {
    if r.Ready? && r.from <= r.upto <= |w.integ| then OfBead(w.integ[r.from..r.upto], r.bead) else []
  }

  function PendingOf(w: World, r: Reading): seq<Source> {
    if r.Ready? && SelectPending(ListOf(w, r), r.marker, r.branch.Some?).Pending? then
      SelectPending(ListOf(w, r), r.marker, r.branch.Some?).commits
    else []
  }

  function ShasOf(cs: seq<Source>): seq<string> {
    seq(|cs|, i requires 0 <= i < |cs| => cs[i].sha)
  }

  predicate CanTake(w: World, step: Step) {
    match step
    case Promote(c) => MarkerAt(w.integ, c.sha) == |w.integ|
    case Absorb(n) => w.absorbed <= n <= |w.integ|
    case DropBranch(_) => true
    case List(r, _) => r !in w.readings
    case ReadBranch(r, q, bead) => r in w.readings && w.readings[r].Listed? && q !in w.readings && UsableAsRef(bead)
    case ReadMarker(r) => r in w.readings && w.readings[r].BranchRead?
    case Build(r) => r in w.readings && PendingOf(w, w.readings[r]) != []
  }

  function ParentOf(r: Reading): Commit
    requires r.Ready?
  {
    if r.branch.Some? then r.branch.value else r.main
  }

  function LinesOf(w: World, r: Reading): seq<StoreLine>
    requires r.Ready? && PendingOf(w, r) != []
  {
    var cs := PendingOf(w, r);
    BuildLines(r.bead, r.branch, r.marker, ReplayAll(ParentOf(r), cs), cs[|cs| - 1].sha)
  }

  function Built(w: World, r: Reading, store: Store): World
    requires r.Ready?
  {
    w.(store := store, replayed := w.replayed + ShasOf(PendingOf(w, r)),
      origins := if r.branch.Some? then w.origins else w.origins[r.bead := Origin(r.main, r.from)])
  }

  /** One step. A build whose transaction fails changes nothing. */
  function Next(w: World, step: Step): World {
    if !CanTake(w, step) then w
    else
      match step
      case Promote(c) => w.(integ := w.integ + [c])
      case Absorb(n) => w.(absorbed := n)
      case DropBranch(bead) => w.(store := w.store - {BranchOf(bead)})
      case List(r, main) => w.(readings := w.readings[r := Listed(main, w.absorbed, |w.integ|)])
      case ReadBranch(r, q, bead) =>
        var l := w.readings[r];
        w.(readings := w.readings[q := BranchRead(l.main, l.from, l.upto, bead, BranchAt(w.store, bead))])
      case ReadMarker(r) =>
        var l := w.readings[r];
        w.(readings := w.readings[r := Ready(l.main, l.from, l.upto, l.bead, l.branch, MarkedAt(w.store, l.bead))])
      case Build(r) =>
        var l := w.readings[r];
        match Transact(w.store, LinesOf(w, l))
        case Err(_) => w
        case Ok(store) => Built(w, l, store)
  }

  function Run(w: World, steps: seq<Step>): World {
    if |steps| == 0 then w else Next(Run(w, steps[..|steps| - 1]), steps[|steps| - 1])
  }

  /** Where the bead's marker points, or -1 without one. */
  function MarkerPos(w: World, bead: string): int {
    match MarkedAt(w.store, bead)
    case None => -1
    case Some(sha) => MarkerAt(w.integ, sha)
  }

  // --- what every step keeps ------------------------------------------------

  ghost predicate ListsOk(w: World) {
    && DistinctShas(w.integ) && w.absorbed <= |w.integ|
    && forall r :: r in w.readings ==> w.readings[r].from <= w.readings[r].upto <= |w.integ| && w.readings[r].from <= w.absorbed
  }

  predicate MarkerOk(w: World, b: string) {
    MarkedAt(w.store, b).Some? && MarkerPos(w, b) < |w.integ| && BeadOf(w.integ[MarkerPos(w, b)]) == b
  }

  /** Markers name commits of their bead. */
  ghost predicate MarkersOk(w: World) {
    && (forall b :: MarkerOf(b) in w.store ==> MarkerOk(w, b))
    && (forall b :: BranchOf(b) in w.store ==> w.store[BranchOf(b)].BranchTip?)
  }

  /** What a bead's branch must be: its commits from where the branch started up to
      the marker, in order, on the main it started from. */
  ghost predicate Carries(integ: seq<Source>, absorbed: nat, o: Origin, m: int, bead: string, tip: Commit) {
    && o.from <= absorbed && o.from <= m < |integ|
    && tip == ReplayAll(o.base, OfBead(integ[o.from..m + 1], bead))
  }

  ghost predicate BranchOk(w: World, b: string) {
    && MarkerOf(b) in w.store && b in w.origins && BranchAt(w.store, b).Some?
    && Carries(w.integ, w.absorbed, w.origins[b], MarkerPos(w, b), b, BranchAt(w.store, b).value)
  }

  ghost predicate BranchesOk(w: World) {
    forall b :: BranchOf(b) in w.store ==> BranchOk(w, b)
  }

  ghost predicate Inv(w: World) {
    ListsOk(w) && MarkersOk(w) && BranchesOk(w)
  }

  lemma MarkerAtGrows(cs: seq<Source>, c: Source, sha: string)
    requires MarkerAt(cs, sha) < |cs|
    ensures MarkerAt(cs + [c], sha) == MarkerAt(cs, sha)
  {
    var k := MarkerAt(cs + [c], sha);
    assert (cs + [c])[MarkerAt(cs, sha)] == cs[MarkerAt(cs, sha)];
  }

  lemma CarriesGrows(integ: seq<Source>, c: Source, absorbed: nat, o: Origin, m: int, bead: string, tip: Commit)
    requires Carries(integ, absorbed, o, m, bead, tip)
    ensures Carries(integ + [c], absorbed, o, m, bead, tip)
  {
    assert (integ + [c])[o.from..m + 1] == integ[o.from..m + 1];
  }

  lemma PromoteMarkers(w: World, c: Source)
    requires MarkersOk(w)
    ensures forall b :: MarkerOf(b) in w.store ==> MarkerPos(w.(integ := w.integ + [c]), b) == MarkerPos(w, b)
    ensures MarkersOk(w.(integ := w.integ + [c]))
  {
    var t := w.(integ := w.integ + [c]);
    forall b | MarkerOf(b) in w.store ensures MarkerPos(t, b) == MarkerPos(w, b) && MarkerOk(t, b) {
      assert MarkerOk(w, b);
      MarkerAtGrows(w.integ, c, w.store[MarkerOf(b)].sha);
    }
  }

  lemma PromoteKeeps(w: World, c: Source)
    requires Inv(w) && MarkerAt(w.integ, c.sha) == |w.integ|
    ensures Inv(w.(integ := w.integ + [c]))
  {
    var t := w.(integ := w.integ + [c]);
    PromoteMarkers(w, c);
    forall b | BranchOf(b) in w.store ensures BranchOk(t, b) {
      assert BranchOk(w, b);
      CarriesGrows(w.integ, c, w.absorbed, w.origins[b], MarkerPos(w, b), b, BranchAt(w.store, b).value);
    }
  }

  /** A read plan whose build goes through: everything it rests on, at build time. */
  ghost predicate GoesThrough(w: World, r: Reading) {
    && r.Ready? && r.from <= r.upto <= |w.integ| && r.from <= w.absorbed
    && PendingOf(w, r) != []
    && BranchAt(w.store, r.bead) == r.branch && MarkedAt(w.store, r.bead) == r.marker
  }

  lemma BuildGoesThrough(w: World, r: Reading)
    requires Inv(w) && r.Ready? && r.from <= r.upto <= |w.integ| && r.from <= w.absorbed && PendingOf(w, r) != []
    ensures Transact(w.store, LinesOf(w, r)).Ok? <==> GoesThrough(w, r)
    ensures var cs := PendingOf(w, r);
      Transact(w.store, LinesOf(w, r)).Ok? ==>
        Transact(w.store, LinesOf(w, r)).value == Published(w.store, r.bead, ReplayAll(ParentOf(r), cs), cs[|cs| - 1].sha)
  {
    var cs := PendingOf(w, r);
    BuildExactly(w.store, r.bead, r.branch, r.marker, ReplayAll(ParentOf(r), cs), cs[|cs| - 1].sha);
  }

  /** What follows the k-th of a bead's commits in a stretch is the bead's from right
      after the place where that one stands. */
  lemma PendingAfter(integ: seq<Source>, from: nat, upto: nat, bead: string, k: nat) returns (start: nat)
    requires DistinctShas(integ) && from <= upto <= |integ| && k < |OfBead(integ[from..upto], bead)|
    ensures from <= start <= upto && OfBead(integ[from..upto], bead)[k + 1..] == OfBead(integ[start..upto], bead)
    ensures start == MarkerAt(integ, OfBead(integ[from..upto], bead)[k].sha) + 1
  {
    var part := integ[from..upto];
    var j := OfBeadSplit(part, bead, k);
    start := from + j + 1;
    assert integ[from + j] == part[j];
    MarkerFound(integ, from + j);
    DropOfSlice(integ, from, upto, j + 1);
  }

  /** The pending commits are the bead's from start to the end of what was listed:
      from right after the marker when the branch is there, from the beginning of the
      list when it is not. */
  lemma PendingIs(w: World, r: Reading) returns (start: nat)
    requires Inv(w) && GoesThrough(w, r)
    ensures r.from <= start <= r.upto && PendingOf(w, r) == OfBead(w.integ[start..r.upto], r.bead)
    ensures r.branch.Some? ==> start == MarkerPos(w, r.bead) + 1 && MarkerOf(r.bead) in w.store
    ensures r.branch.None? ==> start == r.from
  {
    start := r.from;
    if r.branch.Some? {
      var k := MarkerAt(ListOf(w, r), r.marker.value);
      start := PendingAfter(w.integ, r.from, r.upto, r.bead, k);
    }
  }

  /** m is where the last of them stands. */
  lemma LastPending(w: World, r: Reading, start: nat) returns (m: nat)
    requires r.Ready? && start <= r.upto <= |w.integ| && PendingOf(w, r) == OfBead(w.integ[start..r.upto], r.bead) != []
    requires DistinctShas(w.integ)
    ensures start <= m < r.upto && BeadOf(w.integ[m]) == r.bead
    ensures w.integ[m].sha == PendingOf(w, r)[|PendingOf(w, r)| - 1].sha && MarkerAt(w.integ, w.integ[m].sha) == m
    ensures PendingOf(w, r) == OfBead(w.integ[start..m + 1], r.bead)
  {
    var part := w.integ[start..r.upto];
    var k := OfBeadSplit(part, r.bead, |OfBead(part, r.bead)| - 1);
    m := start + k;
    assert w.integ[m] == part[k];
    MarkerFound(w.integ, m);
    TakeOfSlice(w.integ, start, r.upto, k + 1);
  }

  /** The condition a build must avoid: its plan has a marker but no branch, and the
      marker names a commit promoted after the list was read. */
  predicate BehindMarker(w: World, r: Reading) {
    r.Ready? && r.marker.Some? && r.branch.None? && MarkerAt(w.integ, r.marker.value) >= r.upto
  }

  /** What the step makes of a build that goes through. */
  function AfterBuild(w: World, r: Reading): World
    requires GoesThrough(w, r)
  {
    var cs := PendingOf(w, r);
    Built(w, r, Published(w.store, r.bead, ReplayAll(ParentOf(r), cs), cs[|cs| - 1].sha))
  }

  lemma ListedIsFound(w: World, r: Reading, p: nat)
    requires r.Ready? && r.from <= p < r.upto <= |w.integ| && BeadOf(w.integ[p]) == r.bead
    ensures MarkerAt(ListOf(w, r), w.integ[p].sha) < |ListOf(w, r)|
  {
    var part := w.integ[r.from..r.upto];
    assert part[p - r.from] == w.integ[p];
    OfBeadHas(part, r.bead, p - r.from);
  }

  /** A marker the list does not hold is either before it, absorbed when the list was
      read, or after it. */
  lemma UnlistedMarker(w: World, r: Reading)
    requires Inv(w) && GoesThrough(w, r) && r.branch.None? && r.marker.Some?
    ensures MarkerPos(w, r.bead) < r.from || MarkerPos(w, r.bead) >= r.upto
  {
    var p := MarkerPos(w, r.bead);
    assert MarkerOk(w, r.bead);
    if r.from <= p < r.upto {
      ListedIsFound(w, r, p);
    }
  }

  /** A build moves its bead's marker forward exactly when its plan was not behind it. */
  lemma MarkerForwardExactly(w: World, r: Reading)
    requires Inv(w) && GoesThrough(w, r)
    ensures MarkerPos(AfterBuild(w, r), r.bead) > MarkerPos(w, r.bead) <==> !BehindMarker(w, r)
  {
    var start := PendingIs(w, r);
    var m := LastPending(w, r, start);
    assert MarkerPos(AfterBuild(w, r), r.bead) == m;
    if r.branch.None? && r.marker.Some? {
      UnlistedMarker(w, r);
    }
  }

  lemma OfBeadRange(integ: seq<Source>, from: nat, mid: nat, upto: nat, bead: string)
    requires from <= mid <= upto <= |integ|
    ensures OfBead(integ[from..upto], bead) == OfBead(integ[from..mid], bead) + OfBead(integ[mid..upto], bead)
  {
    OfBeadAppend(integ[from..mid], integ[mid..upto], bead);
    SlicesJoin(integ, from, mid, upto);
  }

  lemma CarriesOn(integ: seq<Source>, absorbed: nat, o: Origin, m: int, bead: string, early: seq<Source>, late: seq<Source>, tip: Commit)
    requires o.from <= absorbed && o.from <= m < |integ|
    requires OfBead(integ[o.from..m + 1], bead) == early + late && tip == ReplayAll(o.base, early)
    ensures Carries(integ, absorbed, o, m, bead, ReplayAll(tip, late))
  {
    ReplayAppend(o.base, early, late);
  }

  /** Appending the commits after the marker extends the branch. */
  lemma CarriesMore(integ: seq<Source>, absorbed: nat, o: Origin, p: int, m: int, bead: string, tip: Commit, late: seq<Source>)
    requires Carries(integ, absorbed, o, p, bead, tip) && p < m < |integ| && late == OfBead(integ[p + 1..m + 1], bead)
    ensures Carries(integ, absorbed, o, m, bead, ReplayAll(tip, late))
  {
    var early := OfBead(integ[o.from..p + 1], bead);
    OfBeadRange(integ, o.from, p + 1, m + 1, bead);
    assert OfBead(integ[o.from..m + 1], bead) == early + late;
    CarriesOn(integ, absorbed, o, m, bead, early, late, tip);
  }

  lemma BuildPlaces(w: World, r: Reading) returns (m: nat)
    requires Inv(w) && GoesThrough(w, r)
    ensures m < r.upto && BeadOf(w.integ[m]) == r.bead && MarkerAt(w.integ, w.integ[m].sha) == m
    ensures w.integ[m].sha == PendingOf(w, r)[|PendingOf(w, r)| - 1].sha
    ensures r.branch.Some? ==> MarkerPos(w, r.bead) < m && MarkerOf(r.bead) in w.store
    ensures r.branch.Some? ==> PendingOf(w, r) == OfBead(w.integ[MarkerPos(w, r.bead) + 1..m + 1], r.bead)
    ensures r.branch.None? ==> r.from <= m && PendingOf(w, r) == OfBead(w.integ[r.from..m + 1], r.bead)
  {
    var start := PendingIs(w, r);
    m := LastPending(w, r, start);
  }

  /** All a build rests on, m being where its last commit stands: the pending commits
      continue the branch, or begin it. */
  ghost predicate Continues(w: World, r: Reading, m: nat) {
    && GoesThrough(w, r) && m < r.upto && BeadOf(w.integ[m]) == r.bead && MarkerAt(w.integ, w.integ[m].sha) == m
    && w.integ[m].sha == PendingOf(w, r)[|PendingOf(w, r)| - 1].sha
    && if r.branch.Some? then
        && BranchOk(w, r.bead) && MarkerPos(w, r.bead) < m
        && PendingOf(w, r) == OfBead(w.integ[MarkerPos(w, r.bead) + 1..m + 1], r.bead)
      else r.from <= m && PendingOf(w, r) == OfBead(w.integ[r.from..m + 1], r.bead)
  }

  lemma BuildContinues(w: World, r: Reading) returns (m: nat)
    requires Inv(w) && GoesThrough(w, r)
    ensures Continues(w, r, m)
  {
    m := BuildPlaces(w, r);
    if r.branch.Some? { assert BranchOk(w, r.bead); }
  }

  /** The pieces of BranchOk, put together. */
  lemma AssembleBranch(w: World, t: World, bead: string, o: Origin, m: int, tip: Commit)
    requires Carries(w.integ, w.absorbed, o, m, bead, tip)
    requires t.integ == w.integ && t.absorbed == w.absorbed && MarkerOf(bead) in t.store && bead in t.origins
    requires t.origins[bead] == o && MarkerPos(t, bead) == m && BranchAt(t.store, bead) == Some(tip)
    ensures BranchOk(t, bead)
  {
  }

  lemma BuiltStore(w: World, r: Reading)
    requires GoesThrough(w, r)
    ensures var t := AfterBuild(w, r);
      && t.integ == w.integ && t.absorbed == w.absorbed && MarkerOf(r.bead) in t.store
      && BranchAt(t.store, r.bead) == Some(ReplayAll(ParentOf(r), PendingOf(w, r)))
      && t.origins == if r.branch.Some? then w.origins else w.origins[r.bead := Origin(r.main, r.from)]
  {
  }

  lemma BuiltMarker(w: World, r: Reading, m: nat)
    requires Continues(w, r, m)
    ensures MarkerOk(AfterBuild(w, r), r.bead) && MarkerPos(AfterBuild(w, r), r.bead) == m
  {
  }

  lemma FreshBranch(w: World, r: Reading, m: nat)
    requires Continues(w, r, m) && r.branch.None?
    ensures BranchOk(AfterBuild(w, r), r.bead)
  {
    BuiltMarker(w, r, m);
    BuiltStore(w, r);
    AssembleBranch(w, AfterBuild(w, r), r.bead, Origin(r.main, r.from), m, ReplayAll(ParentOf(r), PendingOf(w, r)));
  }

  lemma CarriedSoFar(w: World, r: Reading, m: nat)
    requires Continues(w, r, m) && r.branch.Some?
    ensures r.bead in w.origins && MarkerPos(w, r.bead) < m < |w.integ|
    ensures Carries(w.integ, w.absorbed, w.origins[r.bead], MarkerPos(w, r.bead), r.bead, r.branch.value)
    ensures PendingOf(w, r) == OfBead(w.integ[MarkerPos(w, r.bead) + 1..m + 1], r.bead)
  {
    assert BranchOk(w, r.bead);
  }

  lemma GrownCarries(w: World, r: Reading, m: nat)
    requires Continues(w, r, m) && r.branch.Some?
    ensures r.bead in w.origins
    ensures Carries(w.integ, w.absorbed, w.origins[r.bead], m, r.bead, ReplayAll(r.branch.value, PendingOf(w, r)))
  {
    CarriedSoFar(w, r, m);
    CarriesMore(w.integ, w.absorbed, w.origins[r.bead], MarkerPos(w, r.bead), m, r.bead, r.branch.value, PendingOf(w, r));
  }

  lemma GrownBranch(w: World, r: Reading, m: nat)
    requires Continues(w, r, m) && r.branch.Some?
    ensures BranchOk(AfterBuild(w, r), r.bead)
  {
    BuiltMarker(w, r, m);
    BuiltStore(w, r);
    GrownCarries(w, r, m);
    AssembleBranch(w, AfterBuild(w, r), r.bead, w.origins[r.bead], m, ReplayAll(r.branch.value, PendingOf(w, r)));
  }

  lemma BuildBranch(w: World, r: Reading)
    requires Inv(w) && GoesThrough(w, r)
    ensures BranchOk(AfterBuild(w, r), r.bead) && MarkerOk(AfterBuild(w, r), r.bead)
  {
    var m := BuildContinues(w, r);
    BuiltMarker(w, r, m);
    if r.branch.Some? { GrownBranch(w, r, m); } else { FreshBranch(w, r, m); }
  }

  lemma StoreElsewhere(store: Store, bead: string, b: string, head: Commit, last: string)
    requires b != bead
    ensures var t := Published(store, bead, head, last);
      && MarkedAt(t, b) == MarkedAt(store, b) && BranchAt(t, b) == BranchAt(store, b)
      && (MarkerOf(b) in t <==> MarkerOf(b) in store)
  {
  }

  /** b's side of two worlds is the same. */
  ghost predicate SameFor(w: World, t: World, b: string) {
    && t.integ == w.integ && t.absorbed == w.absorbed
    && MarkedAt(t.store, b) == MarkedAt(w.store, b) && BranchAt(t.store, b) == BranchAt(w.store, b)
    && (MarkerOf(b) in t.store <==> MarkerOf(b) in w.store)
    && (b in w.origins ==> b in t.origins && t.origins[b] == w.origins[b])
  }

  lemma SameStaysOk(w: World, t: World, b: string)
    requires SameFor(w, t, b)
    ensures MarkerPos(t, b) == MarkerPos(w, b)
    ensures MarkerOk(w, b) ==> MarkerOk(t, b)
    ensures BranchOk(w, b) ==> BranchOk(t, b)
  {
  }

  lemma BuildElsewhere(w: World, r: Reading, b: string)
    requires GoesThrough(w, r) && b != r.bead
    ensures MarkerPos(AfterBuild(w, r), b) == MarkerPos(w, b)
    ensures MarkerOk(w, b) ==> MarkerOk(AfterBuild(w, r), b)
    ensures BranchOk(w, b) ==> BranchOk(AfterBuild(w, r), b)
  {
    var cs := PendingOf(w, r);
    StoreElsewhere(w.store, r.bead, b, ReplayAll(ParentOf(r), cs), cs[|cs| - 1].sha);
    SameStaysOk(w, AfterBuild(w, r), b);
  }

  lemma BuildKeeps(w: World, r: Reading)
    requires Inv(w) && GoesThrough(w, r)
    ensures Inv(AfterBuild(w, r))
  {
    var t := AfterBuild(w, r);
    BuildBranch(w, r);
    forall b | b != r.bead
      ensures (MarkerOf(b) in t.store ==> MarkerOk(t, b)) && (BranchOf(b) in t.store ==> BranchOk(t, b))
    {
      BuildElsewhere(w, r, b);
    }
  }

  lemma SameButReadings(w: World, t: World)
    requires MarkersOk(w) && BranchesOk(w)
    requires t.integ == w.integ && t.store == w.store && t.origins == w.origins && t.absorbed >= w.absorbed
    ensures MarkersOk(t) && BranchesOk(t)
  {
    forall b | MarkerOf(b) in t.store ensures MarkerOk(t, b) { assert MarkerOk(w, b); }
    forall b | BranchOf(b) in t.store ensures BranchOk(t, b) { assert BranchOk(w, b); }
  }

  lemma ReadKeeps(w: World, run: nat, r: Reading)
    requires Inv(w) && r.from <= r.upto <= |w.integ| && r.from <= w.absorbed
    ensures Inv(w.(readings := w.readings[run := r]))
  {
    var t := w.(readings := w.readings[run := r]);
    SameButReadings(w, t);
  }

  lemma DropKeeps(w: World, bead: string)
    requires Inv(w)
    ensures Inv(w.(store := w.store - {BranchOf(bead)}))
  {
    var t := w.(store := w.store - {BranchOf(bead)});
    forall b | MarkerOf(b) in t.store ensures MarkerOk(t, b) { assert MarkerOk(w, b); }
    forall b | BranchOf(b) in t.store ensures BranchOk(t, b) { assert BranchOk(w, b); }
  }

  /** The build step, seen through what it rests on. */
  lemma BuildStep(w: World, run: nat)
    requires Inv(w) && CanTake(w, Build(run))
    ensures Next(w, Build(run)) == if GoesThrough(w, w.readings[run]) then AfterBuild(w, w.readings[run]) else w
  {
    BuildGoesThrough(w, w.readings[run]);
  }

  lemma NextKeeps(w: World, step: Step)
    requires Inv(w)
    ensures Inv(Next(w, step))
  {
    if CanTake(w, step) {
      match step
      case Promote(c) => PromoteKeeps(w, c);
      case Absorb(n) => SameButReadings(w, w.(absorbed := n));
      case DropBranch(bead) => DropKeeps(w, bead);
      case List(r, main) => ReadKeeps(w, r, Listed(main, w.absorbed, |w.integ|));
      case ReadBranch(r, q, bead) =>
        var l := w.readings[r];
        ReadKeeps(w, q, BranchRead(l.main, l.from, l.upto, bead, BranchAt(w.store, bead)));
      case ReadMarker(r) =>
        var l := w.readings[r];
        ReadKeeps(w, r, Ready(l.main, l.from, l.upto, l.bead, l.branch, MarkedAt(w.store, l.bead)));
      case Build(r) =>
        BuildStep(w, r);
        if GoesThrough(w, w.readings[r]) { BuildKeeps(w, w.readings[r]); }
    }
  }

  lemma {:induction false} RunKeeps(steps: seq<Step>)
    ensures Inv(Run(START, steps))
  {
    if |steps| > 0 {
      RunKeeps(steps[..|steps| - 1]);
      NextKeeps(Run(START, steps[..|steps| - 1]), steps[|steps| - 1]);
    }
  }

  /** Whenever a bead's branch and its marker both exist, the branch carries the
      bead's commits up to the marker, in order and without a gap, from a point main
      has absorbed everything before. */
  lemma BranchCarriesUpToMarker(steps: seq<Step>, bead: string)
    requires BranchOf(bead) in Run(START, steps).store
    ensures var w := Run(START, steps);
      && MarkedAt(w.store, bead).Some? && bead in w.origins && BranchAt(w.store, bead).Some?
      && Carries(w.integ, w.absorbed, w.origins[bead], MarkerPos(w, bead), bead, BranchAt(w.store, bead).value)
  {
    RunKeeps(steps);
    assert BranchOk(Run(START, steps), bead);
    assert MarkerOk(Run(START, steps), bead);
  }

  /** Where a bead's commits of a range stand. */
  lemma RangePlaces(integ: seq<Source>, start: nat, upto: nat, bead: string) returns (at: seq<nat>)
    requires start <= upto <= |integ|
    ensures |at| == |OfBead(integ[start..upto], bead)|
    ensures forall i :: 0 <= i < |at| ==> start <= at[i] < upto && integ[at[i]] == OfBead(integ[start..upto], bead)[i]
    ensures forall i :: 0 <= i < |at| ==> BeadOf(integ[at[i]]) == bead
    ensures forall i, j :: 0 <= i < j < |at| ==> at[i] < at[j]
  {
    var part := integ[start..upto];
    var rel := OfBeadPositions(part, bead);
    at := seq(|rel|, i requires 0 <= i < |rel| => start + rel[i]);
    forall i | 0 <= i < |at| ensures integ[at[i]] == part[rel[i]] && rel[i] in rel {
    }
  }

  lemma ListDistinct(w: World, from: nat, upto: nat, bead: string)
    requires DistinctShas(w.integ) && from <= upto <= |w.integ|
    ensures DistinctShas(OfBead(w.integ[from..upto], bead))
  {
    var at := RangePlaces(w.integ, from, upto, bead);
    var list := OfBead(w.integ[from..upto], bead);
    forall i, j | 0 <= i < j < |list| ensures list[i].sha != list[j].sha {
      assert at[i] < at[j];
      assert w.integ[at[i]] == list[i] && w.integ[at[j]] == list[j];
    }
  }

  /** The same list read against the refs as they now stand. */
  function Reread(w: World, r: Reading, main: Commit): Reading
    requires r.Ready?
  {
    Ready(main, r.from, r.upto, r.bead, BranchAt(w.store, r.bead), MarkedAt(w.store, r.bead))
  }

  lemma RereadAfter(w: World, r: Reading, main: Commit)
    requires GoesThrough(w, r)
    ensures var again, cs := Reread(AfterBuild(w, r), r, main), PendingOf(w, r);
      again.branch.Some? && again.marker == Some(cs[|cs| - 1].sha) && ListOf(AfterBuild(w, r), again) == ListOf(w, r)
  {
  }

  /** Right after a build that went through, reading again finds the bead up to date. */
  lemma RebuiltIsUpToDate(w: World, r: Reading, main: Commit)
    requires Inv(w) && GoesThrough(w, r)
    ensures var t := AfterBuild(w, r);
      var again := Reread(t, r, main);
      SelectPending(ListOf(t, again), again.marker, again.branch.Some?) == Pending([]) && PendingOf(t, again) == []
  {
    RereadAfter(w, r, main);
    ListDistinct(w, r.from, r.upto, r.bead);
    NothingPastLast(ListOf(w, r), r.marker, r.branch.Some?);
    var t := AfterBuild(w, r);
    var again := Reread(t, r, main);
    assert SelectPending(ListOf(t, again), again.marker, true) == Pending([]);
  }

  // --- exactly once ---------------------------------------------------------

  predicate BehindItsMarker(w: World, sha: string) {
    var k := MarkerAt(w.integ, sha);
    k < |w.integ| && k <= MarkerPos(w, BeadOf(w.integ[k]))
  }

  /** Nothing was replayed twice, and nothing past its bead's marker. */
  ghost predicate OnceOk(w: World) {
    && (forall i, j :: 0 <= i < j < |w.replayed| ==> w.replayed[i] != w.replayed[j])
    && (forall i :: 0 <= i < |w.replayed| ==> BehindItsMarker(w, w.replayed[i]))
  }

  ghost predicate BuildsBehind(w: World, step: Step) {
    step.Build? && CanTake(w, step) && GoesThrough(w, w.readings[step.run]) && BehindMarker(w, w.readings[step.run])
  }

  /** No build that goes through is taken from a plan that is behind its marker. */
  ghost predicate NeverBehind(steps: seq<Step>) {
    |steps| > 0 ==>
      NeverBehind(steps[..|steps| - 1]) && !BuildsBehind(Run(START, steps[..|steps| - 1]), steps[|steps| - 1])
  }

  /** All along the run. */
  ghost predicate AlwaysOnce(steps: seq<Step>) {
    OnceOk(Run(START, steps)) && (|steps| > 0 ==> AlwaysOnce(steps[..|steps| - 1]))
  }

  lemma OldNotPending(w: World, r: Reading, sha: string, more: seq<string>, at: seq<nat>)
    requires r.Ready? && BehindItsMarker(w, sha) && |at| == |more|
    requires forall i :: 0 <= i < |at| ==> MarkerAt(w.integ, more[i]) == at[i] && MarkerPos(w, r.bead) < at[i] < |w.integ|
    requires forall i :: 0 <= i < |at| ==> BeadOf(w.integ[at[i]]) == r.bead
    ensures sha !in more
  {
    forall i | 0 <= i < |more| ensures more[i] != sha {
      assert MarkerAt(w.integ, more[i]) == at[i];
    }
  }

  lemma OldStaysBehind(w: World, r: Reading, sha: string)
    requires Inv(w) && GoesThrough(w, r) && BehindItsMarker(w, sha)
    requires MarkerPos(AfterBuild(w, r), r.bead) > MarkerPos(w, r.bead)
    ensures BehindItsMarker(AfterBuild(w, r), sha)
  {
    var b := BeadOf(w.integ[MarkerAt(w.integ, sha)]);
    if b != r.bead { BuildElsewhere(w, r, b); }
  }

  lemma OnceJoined(was: seq<string>, more: seq<string>, integ: seq<Source>, at: seq<nat>)
    requires forall i, j :: 0 <= i < j < |was| ==> was[i] != was[j]
    requires forall i :: 0 <= i < |was| ==> was[i] !in more
    requires |at| == |more| && forall i :: 0 <= i < |at| ==> MarkerAt(integ, more[i]) == at[i]
    requires forall i, j :: 0 <= i < j < |at| ==> at[i] < at[j]
    ensures forall i, j :: 0 <= i < j < |was + more| ==> (was + more)[i] != (was + more)[j]
  {
    forall i, j | 0 <= i < j < |more| ensures more[i] != more[j] {
      assert at[i] < at[j];
    }
  }

  /** Commits standing past the marker and up to the new one join what was replayed. */
  lemma PastTheMarker(w: World, t: World, r: Reading, at: seq<nat>, m: nat)
    requires Inv(w) && OnceOk(w) && GoesThrough(w, r) && t == AfterBuild(w, r)
    requires MarkerPos(w, r.bead) < MarkerPos(t, r.bead) == m < |w.integ|
    requires |at| == |PendingOf(w, r)| && forall i, j :: 0 <= i < j < |at| ==> at[i] < at[j]
    requires forall i :: 0 <= i < |at| ==> MarkerPos(w, r.bead) < at[i] <= m
    requires forall i :: 0 <= i < |at| ==> w.integ[at[i]] == PendingOf(w, r)[i] && BeadOf(w.integ[at[i]]) == r.bead
    ensures OnceOk(t)
  {
    var more := ShasOf(PendingOf(w, r));
    forall i | 0 <= i < |more| ensures MarkerAt(w.integ, more[i]) == at[i] && BehindItsMarker(t, more[i]) {
      MarkerFound(w.integ, at[i]);
    }
    forall i | 0 <= i < |w.replayed| ensures BehindItsMarker(t, w.replayed[i]) && w.replayed[i] !in more {
      OldStaysBehind(w, r, w.replayed[i]);
      OldNotPending(w, r, w.replayed[i], more, at);
    }
    OnceJoined(w.replayed, more, w.integ, at);
  }

  lemma BuiltAt(w: World, r: Reading, m: nat)
    requires GoesThrough(w, r) && m < |w.integ| && MarkerAt(w.integ, w.integ[m].sha) == m
    requires w.integ[m].sha == PendingOf(w, r)[|PendingOf(w, r)| - 1].sha
    ensures MarkerPos(AfterBuild(w, r), r.bead) == m
  {
  }

  lemma StartsPast(w: World, r: Reading)
    requires Inv(w) && GoesThrough(w, r) && !BehindMarker(w, r) && r.branch.None?
    ensures MarkerPos(w, r.bead) < r.from
  {
    if r.marker.Some? { UnlistedMarker(w, r); }
  }

  /** A plan that is not behind takes up past the marker. */
  lemma TakesUp(w: World, r: Reading) returns (start: nat, m: nat)
    requires Inv(w) && GoesThrough(w, r) && !BehindMarker(w, r)
    ensures MarkerPos(w, r.bead) < start <= m < |w.integ| && MarkerAt(w.integ, w.integ[m].sha) == m
    ensures w.integ[m].sha == PendingOf(w, r)[|PendingOf(w, r)| - 1].sha
    ensures PendingOf(w, r) == OfBead(w.integ[start..m + 1], r.bead)
  {
    m := BuildPlaces(w, r);
    if r.branch.Some? {
      start := MarkerPos(w, r.bead) + 1;
    } else {
      StartsPast(w, r);
      start := r.from;
    }
  }

  /** Where what it replays stands: past the marker. */
  lemma PlacesPast(w: World, r: Reading) returns (at: seq<nat>, m: nat)
    requires Inv(w) && GoesThrough(w, r) && !BehindMarker(w, r)
    ensures MarkerPos(w, r.bead) < m < |w.integ| && MarkerAt(w.integ, w.integ[m].sha) == m
    ensures w.integ[m].sha == PendingOf(w, r)[|PendingOf(w, r)| - 1].sha
    ensures |at| == |PendingOf(w, r)| && forall i, j :: 0 <= i < j < |at| ==> at[i] < at[j]
    ensures forall i :: 0 <= i < |at| ==> MarkerPos(w, r.bead) < at[i] <= m
    ensures forall i :: 0 <= i < |at| ==> w.integ[at[i]] == PendingOf(w, r)[i] && BeadOf(w.integ[at[i]]) == r.bead
  {
    var start;
    start, m := TakesUp(w, r);
    at := RangePlaces(w.integ, start, m + 1, r.bead);
  }

  /** A build whose plan is not behind replays only what lies past the marker, so
      nothing it replays was replayed before. */
  lemma BuildOnce(w: World, r: Reading)
    requires Inv(w) && OnceOk(w) && GoesThrough(w, r) && !BehindMarker(w, r)
    ensures OnceOk(AfterBuild(w, r))
  {
    var at, m := PlacesPast(w, r);
    BuiltAt(w, r, m);
    PastTheMarker(w, AfterBuild(w, r), r, at, m);
  }

  lemma PromoteOnce(w: World, c: Source)
    requires Inv(w) && OnceOk(w)
    ensures OnceOk(w.(integ := w.integ + [c]))
  {
    var t := w.(integ := w.integ + [c]);
    PromoteMarkers(w, c);
    forall i | 0 <= i < |w.replayed| ensures BehindItsMarker(t, w.replayed[i]) {
      assert BehindItsMarker(w, w.replayed[i]);
      MarkerAtGrows(w.integ, c, w.replayed[i]);
    }
  }

  lemma NextOnce(w: World, step: Step)
    requires Inv(w) && OnceOk(w)
    requires !BuildsBehind(w, step)
    ensures OnceOk(Next(w, step))
  {
    if CanTake(w, step) && step.Build? {
      BuildStep(w, step.run);
      if GoesThrough(w, w.readings[step.run]) { BuildOnce(w, w.readings[step.run]); }
    } else if CanTake(w, step) && step.Promote? {
      PromoteOnce(w, step.commit);
    } else {
      var t := Next(w, step);
      assert t.replayed == w.replayed && t.integ == w.integ;
      forall i | 0 <= i < |t.replayed| ensures BehindItsMarker(t, t.replayed[i]) {
        assert BehindItsMarker(w, w.replayed[i]);
      }
    }
  }

  /** Every marker names a commit that has been replayed. */
  ghost predicate MarkersReplayed(w: World) {
    forall b :: MarkerOf(b) in w.store ==> MarkedAt(w.store, b).Some? && MarkedAt(w.store, b).value in w.replayed
  }

  lemma BuildMarksReplayed(w: World, r: Reading)
    requires GoesThrough(w, r) && MarkersReplayed(w)
    ensures MarkersReplayed(AfterBuild(w, r))
  {
    var t, cs := AfterBuild(w, r), PendingOf(w, r);
    assert ShasOf(cs)[|cs| - 1] in t.replayed;
    forall b | MarkerOf(b) in t.store ensures MarkedAt(t.store, b).Some? && MarkedAt(t.store, b).value in t.replayed {
      if b != r.bead { assert MarkedAt(t.store, b) == MarkedAt(w.store, b); }
    }
  }

  lemma NextMarksReplayed(w: World, step: Step)
    requires Inv(w) && MarkersReplayed(w)
    ensures MarkersReplayed(Next(w, step))
  {
    if CanTake(w, step) && step.Build? {
      BuildStep(w, step.run);
      if GoesThrough(w, w.readings[step.run]) { BuildMarksReplayed(w, w.readings[step.run]); }
    }
  }

  lemma {:induction false} RunMarksReplayed(steps: seq<Step>)
    ensures MarkersReplayed(Run(START, steps))
  {
    if |steps| > 0 {
      RunMarksReplayed(steps[..|steps| - 1]);
      RunKeeps(steps[..|steps| - 1]);
      NextMarksReplayed(Run(START, steps[..|steps| - 1]), steps[|steps| - 1]);
    }
  }

  /** A build behind its marker leaves the commit the marker named past the new one. */
  lemma BehindBreaks(w: World, r: Reading)
    requires Inv(w) && MarkersReplayed(w) && GoesThrough(w, r) && BehindMarker(w, r)
    ensures !OnceOk(AfterBuild(w, r))
  {
    var t := AfterBuild(w, r);
    var m := BuildPlaces(w, r);
    var i :| 0 <= i < |w.replayed| && w.replayed[i] == r.marker.value;
    assert MarkerOk(w, r.bead);
    assert t.replayed[i] == r.marker.value;
    assert MarkerPos(t, r.bead) == m;
    assert !BehindItsMarker(t, t.replayed[i]);
  }

  lemma NextBehindBreaks(steps: seq<Step>, w: World, step: Step)
    requires w == Run(START, steps) && BuildsBehind(w, step)
    ensures !OnceOk(Next(w, step))
  {
    RunKeeps(steps);
    RunMarksReplayed(steps);
    BuildStep(w, step.run);
    BehindBreaks(w, w.readings[step.run]);
  }

  /** Exactly once: over any runs, concurrent, crashing, racing promotion, absorption
      and deleted branches, no commit is ever replayed twice, nor past its bead's marker,
      exactly when no build that goes through is taken from a plan behind its marker. */
  lemma {:induction false} ExactlyOnce(steps: seq<Step>)
    ensures AlwaysOnce(steps) <==> NeverBehind(steps)
  {
    if |steps| > 0 {
      var w, last := Run(START, steps[..|steps| - 1]), steps[|steps| - 1];
      ExactlyOnce(steps[..|steps| - 1]);
      if BuildsBehind(w, last) {
        NextBehindBreaks(steps[..|steps| - 1], w, last);
      } else if OnceOk(w) {
        RunKeeps(steps[..|steps| - 1]);
        NextOnce(w, last);
      }
    }
  }

  /** Reads taken with nothing between them never plan behind the marker. */
  lemma AtomicPlanIsNotBehind(steps: seq<Step>, main: Commit, bead: string)
    ensures var w := Run(START, steps);
      !BehindMarker(w, Ready(main, w.absorbed, |w.integ|, bead, BranchAt(w.store, bead), MarkedAt(w.store, bead)))
  {
    RunKeeps(steps);
    var w := Run(START, steps);
    if MarkerOf(bead) in w.store { assert MarkerOk(w, bead); }
  }

  /** Two runs list before and after a second commit; the later one builds, someone
      deletes its branch, and only then does the earlier one read the refs. */
  function RaceSteps(main: Commit, c1: Source, c2: Source): seq<Step> {
    [Promote(c1), List(1, main), Promote(c2), List(2, main),
     ReadBranch(2, 3, c1.bead), ReadMarker(3), Build(3), DropBranch(c1.bead),
     ReadBranch(1, 4, c1.bead), ReadMarker(4), Build(4)]
  }

  lemma TwoListed(c1: Source, c2: Source)
    requires c1.bead == c2.bead
    ensures OfBead([c1, c2], c1.bead) == [c1, c2] && OfBead([c1], c1.bead) == [c1]
  {
    OneOfBead(c1, c1.bead);
    OneOfBead(c2, c1.bead);
    OfBeadAppend([c1], [c2], c1.bead);
    assert [c1] + [c2] == [c1, c2];
  }

  function Both(main: Commit, c1: Source, c2: Source): Reading {
    Ready(main, 0, 2, c1.bead, None, None)
  }

  /** The world after both lists and the first, honest, build. */
  function AfterFirst(main: Commit, c1: Source, c2: Source): World {
    World([c1, c2], 0, Published(map[], c1.bead, ReplayAll(main, [c1, c2]), c2.sha),
      map[1 := Listed(main, 0, 1), 2 := Listed(main, 0, 2), 3 := Both(main, c1, c2)],
      [c1.sha, c2.sha], map[c1.bead := Origin(main, 0)])
  }

  /** The worlds along the way to the first build. */
  function Along(main: Commit, c1: Source, c2: Source, n: nat): World
    requires n <= 6
  {
    var one, two := Listed(main, 0, 1), Listed(main, 0, 2);
    match n
    case 0 => START
    case 1 => START.(integ := [c1])
    case 2 => START.(integ := [c1], readings := map[1 := one])
    case 3 => START.(integ := [c1, c2], readings := map[1 := one])
    case 4 => START.(integ := [c1, c2], readings := map[1 := one, 2 := two])
    case 5 => START.(integ := [c1, c2], readings := map[1 := one, 2 := two, 3 := BranchRead(main, 0, 2, c1.bead, None)])
    case 6 => START.(integ := [c1, c2], readings := map[1 := one, 2 := two, 3 := Both(main, c1, c2)])
  }

  lemma OneAlong(main: Commit, c1: Source, c2: Source, n: nat)
    requires n < 6 && c1.bead == c2.bead && c1.sha != c2.sha && UsableAsRef(c1.bead)
    ensures Next(Along(main, c1, c2, n), RaceSteps(main, c1, c2)[n]) == Along(main, c1, c2, n + 1)
  {
    if n == 2 { assert MarkerAt([c1], c2.sha) == 1 by { assert [c1][1..] == []; } }
  }

  lemma NextOfRun(steps: seq<Step>, n: nat)
    requires n < |steps|
    ensures Run(START, steps[..n + 1]) == Next(Run(START, steps[..n]), steps[n])
  {
    assert steps[..n + 1][..n] == steps[..n];
  }

  lemma {:induction false} GetsAlong(main: Commit, c1: Source, c2: Source, n: nat)
    requires n <= 6 && c1.bead == c2.bead && c1.sha != c2.sha && UsableAsRef(c1.bead)
    ensures Run(START, RaceSteps(main, c1, c2)[..n]) == Along(main, c1, c2, n)
  {
    if n > 0 {
      GetsAlong(main, c1, c2, n - 1);
      OneAlong(main, c1, c2, n - 1);
      NextOfRun(RaceSteps(main, c1, c2), n - 1);
    }
  }

  lemma StepTo(steps: seq<Step>, n: nat, w: World, step: Step)
    requires n < |steps| && Run(START, steps[..n]) == w && steps[n] == step
    ensures Run(START, steps[..n + 1]) == Next(w, step)
  {
    NextOfRun(steps, n);
  }

  lemma BothPending(w: World, main: Commit, c1: Source, c2: Source)
    requires c1.bead == c2.bead && w.integ == [c1, c2]
    ensures PendingOf(w, Both(main, c1, c2)) == [c1, c2]
  {
    TwoListed(c1, c2);
    assert [c1, c2][0..2] == [c1, c2];
  }

  lemma BothRecorded(w: World, main: Commit, c1: Source, c2: Source, store: Store)
    requires PendingOf(w, Both(main, c1, c2)) == [c1, c2] && w.replayed == [] && w.origins == map[]
    ensures Built(w, Both(main, c1, c2), store)
      == w.(store := store, replayed := [c1.sha, c2.sha], origins := map[c1.bead := Origin(main, 0)])
  {
    assert [] + ShasOf([c1, c2]) == [c1.sha, c2.sha];
  }

  lemma BothGo(w: World, main: Commit, c1: Source, c2: Source)
    requires PendingOf(w, Both(main, c1, c2)) == [c1, c2] && w.store == map[]
    ensures Transact(w.store, LinesOf(w, Both(main, c1, c2))) == Ok(Published(map[], c1.bead, ReplayAll(main, [c1, c2]), c2.sha))
  {
    BuildExactly(w.store, c1.bead, None, None, ReplayAll(main, [c1, c2]), c2.sha);
  }

  lemma BuildTaken(w: World, n: nat, r: Reading, store: Store)
    requires n in w.readings && w.readings[n] == r && r.Ready? && PendingOf(w, r) != []
    requires Transact(w.store, LinesOf(w, r)) == Ok(store)
    ensures Next(w, Build(n)) == Built(w, r, store)
  {
  }

  lemma FirstBuild(w: World, main: Commit, c1: Source, c2: Source)
    requires c1.bead == c2.bead && c1.sha != c2.sha
    requires w == START.(integ := [c1, c2],
      readings := map[1 := Listed(main, 0, 1), 2 := Listed(main, 0, 2), 3 := Both(main, c1, c2)])
    ensures Next(w, Build(3)) == AfterFirst(main, c1, c2)
  {
    BothPending(w, main, c1, c2);
    BothGo(w, main, c1, c2);
    var store := Published(map[], c1.bead, ReplayAll(main, [c1, c2]), c2.sha);
    BuildTaken(w, 3, Both(main, c1, c2), store);
    BothRecorded(w, main, c1, c2, store);
  }

  lemma FirstHalf(main: Commit, c1: Source, c2: Source)
    requires c1.bead == c2.bead && c1.sha != c2.sha && UsableAsRef(c1.bead)
    ensures Run(START, RaceSteps(main, c1, c2)[..7]) == AfterFirst(main, c1, c2)
  {
    GetsAlong(main, c1, c2, 6);
    StepTo(RaceSteps(main, c1, c2), 6, Along(main, c1, c2, 6), Build(3));
    FirstBuild(Along(main, c1, c2, 6), main, c1, c2);
  }

  /** The second run's plan: the first commit alone, no branch, the newer marker. */
  function Late(main: Commit, c1: Source, c2: Source): Reading {
    Ready(main, 0, 1, c1.bead, None, Some(c2.sha))
  }

  lemma Dropped(w: World, bead: string)
    ensures Next(w, DropBranch(bead)) == w.(store := w.store - {BranchOf(bead)})
  {
  }

  lemma BranchWasRead(w: World, r: nat, q: nat, bead: string, main: Commit, from: nat, upto: nat)
    requires r in w.readings && w.readings[r] == Listed(main, from, upto) && q !in w.readings && UsableAsRef(bead)
    requires BranchOf(bead) !in w.store
    ensures Next(w, ReadBranch(r, q, bead)) == w.(readings := w.readings[q := BranchRead(main, from, upto, bead, None)])
  {
  }

  lemma MarkerWasRead(w: World, r: nat, main: Commit, from: nat, upto: nat, bead: string, sha: string)
    requires r in w.readings && w.readings[r] == BranchRead(main, from, upto, bead, None)
    requires MarkerOf(bead) in w.store && w.store[MarkerOf(bead)] == Bridged(sha)
    ensures Next(w, ReadMarker(r)) == w.(readings := w.readings[r := Ready(main, from, upto, bead, None, Some(sha))])
  {
  }

  lemma ToLate(main: Commit, c1: Source, c2: Source)
    requires UsableAsRef(c1.bead)
    ensures var w := Next(Next(Next(AfterFirst(main, c1, c2), DropBranch(c1.bead)), ReadBranch(1, 4, c1.bead)), ReadMarker(4));
      && w.integ == [c1, c2] && w.replayed == [c1.sha, c2.sha]
      && w.store == map[MarkerOf(c1.bead) := Bridged(c2.sha)]
      && 4 in w.readings && w.readings[4] == Late(main, c1, c2)
  {
    var w0 := AfterFirst(main, c1, c2);
    Dropped(w0, c1.bead);
    var w1 := w0.(store := w0.store - {BranchOf(c1.bead)});
    assert w1.store == map[MarkerOf(c1.bead) := Bridged(c2.sha)];
    BranchWasRead(w1, 1, 4, c1.bead, main, 0, 1);
    var w2 := w1.(readings := w1.readings[4 := BranchRead(main, 0, 1, c1.bead, None)]);
    MarkerWasRead(w2, 4, main, 0, 1, c1.bead, c2.sha);
  }

  lemma LatePending(w: World, main: Commit, c1: Source, c2: Source)
    requires w.integ == [c1, c2] && c1.bead == c2.bead && c1.sha != c2.sha
    ensures PendingOf(w, Late(main, c1, c2)) == [c1] && BehindMarker(w, Late(main, c1, c2))
  {
    TwoListed(c1, c2);
    assert w.integ[0..1] == [c1];
    assert [c1][1..] == [] && [c1, c2][1..] == [c2];
    assert MarkerAt([c2], c2.sha) == 0;
  }

  lemma LateBuild(w: World, main: Commit, c1: Source, c2: Source)
    requires w.integ == [c1, c2] && c1.bead == c2.bead && c1.sha != c2.sha
    requires w.store == map[MarkerOf(c1.bead) := Bridged(c2.sha)]
    requires 4 in w.readings && w.readings[4] == Late(main, c1, c2)
    ensures BuildsBehind(w, Build(4))
    ensures Next(w, Build(4)).replayed == w.replayed + [c1.sha]
    ensures MarkedAt(Next(w, Build(4)).store, c1.bead) == Some(c1.sha)
  {
    LatePending(w, main, c1, c2);
    BuildExactly(w.store, c1.bead, None, Some(c2.sha), ReplayAll(main, [c1]), c1.sha);
    assert ShasOf([c1]) == [c1.sha];
  }

  lemma LastBehind(steps: seq<Step>, w: World, run: nat)
    requires |steps| > 0 && steps[|steps| - 1] == Build(run) && w == Run(START, steps[..|steps| - 1])
    requires BuildsBehind(w, Build(run))
    ensures !NeverBehind(steps)
  {
  }

  lemma ThreeMore(steps: seq<Step>, n: nat)
    requires n + 3 <= |steps|
    ensures Run(START, steps[..n + 3]) == Next(Next(Next(Run(START, steps[..n]), steps[n]), steps[n + 1]), steps[n + 2])
  {
    NextOfRun(steps, n);
    NextOfRun(steps, n + 1);
    NextOfRun(steps, n + 2);
  }

  lemma BeforeLate(main: Commit, c1: Source, c2: Source)
    requires c1.bead == c2.bead && c1.sha != c2.sha && UsableAsRef(c1.bead)
    ensures var w := Run(START, RaceSteps(main, c1, c2)[..10]);
      && w.integ == [c1, c2] && w.replayed == [c1.sha, c2.sha]
      && w.store == map[MarkerOf(c1.bead) := Bridged(c2.sha)]
      && 4 in w.readings && w.readings[4] == Late(main, c1, c2)
  {
    var s := RaceSteps(main, c1, c2);
    FirstHalf(main, c1, c2);
    ThreeMore(s, 7);
    ToLate(main, c1, c2);
  }

  /** The second build goes through and replays the first commit again: an
      integration commit can be replayed twice, and the marker moves back. */
  lemma ReplayedTwice(main: Commit, c1: Source, c2: Source)
    requires c1.bead == c2.bead && c1.sha != c2.sha && UsableAsRef(c1.bead)
    ensures var w := Run(START, RaceSteps(main, c1, c2));
      w.replayed == [c1.sha, c2.sha, c1.sha] && MarkedAt(w.store, c1.bead) == Some(c1.sha)
    ensures !NeverBehind(RaceSteps(main, c1, c2))
  {
    var s := RaceSteps(main, c1, c2);
    BeforeLate(main, c1, c2);
    assert s[..10 + 1] == s;
    NextOfRun(s, 10);
    LateBuild(Run(START, s[..10]), main, c1, c2);
    LastBehind(s, Run(START, s[..10]), 4);
  }
}
