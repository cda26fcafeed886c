/** One bead's crossing: the plan of one run, and the build that publishes it. */
module BridgeBuilds {
  import opened Options
  import opened Paths
  import opened Trees
  import opened Envelopes
  import opened RefTransactions
  import opened Bridge

  /** The two refs of a bead: its branch and the marker of the last commit on it. */
  datatype BridgeRef = BranchOf(bead: string) | MarkerOf(bead: string)

  datatype Tip = BranchTip(commit: Commit) | Bridged(sha: string)

  type Store = map<BridgeRef, Tip>

  type StoreLine = RefUpdate<BridgeRef, Tip>

  datatype BridgeClass = Buildable | Built | UpToDate | StaleBase(path: Path) | Refused(detail: Detail)

  /** refWrite: create, or update against what was read. */
  function RefWrite(ref: BridgeRef, target: Tip, was: Option<Tip>): StoreLine {
    if was.None? then Create(ref, target) else Update(ref, target, was)
  }

  function BranchWas(branch: Option<Commit>): Option<Tip> {
    match branch
    case None => None
    case Some(c) => Some(BranchTip(c))
  }

  function MarkerWas(marker: Option<string>): Option<Tip> {
    match marker
    case None => None
    case Some(sha) => Some(Bridged(sha))
  }

  /** The branch and its marker, in one transaction. */
  function BuildLines(bead: string, branch: Option<Commit>, marker: Option<string>, head: Commit, last: string): seq<StoreLine> {
    [RefWrite(BranchOf(bead), BranchTip(head), BranchWas(branch)),
     RefWrite(MarkerOf(bead), Bridged(last), MarkerWas(marker))]
  }

  /** The store with the bead's branch at head and its marker at last. */
  function Published(store: Store, bead: string, head: Commit, last: string): Store {
    store[BranchOf(bead) := BranchTip(head)][MarkerOf(bead) := Bridged(last)]
  }

  /** The store still holds the branch that was read, or still none. */
  predicate BranchStands(store: Store, bead: string, branch: Option<Commit>) {
    if branch.Some? then BranchOf(bead) in store && store[BranchOf(bead)] == BranchTip(branch.value) else BranchOf(bead) !in store
  }

  /** The store still holds the marker that was read, or still none. */
  predicate MarkerStands(store: Store, bead: string, marker: Option<string>) {
    if marker.Some? then MarkerOf(bead) in store && store[MarkerOf(bead)] == Bridged(marker.value) else MarkerOf(bead) !in store
  }

  /** What a run reads under a bead's two refs. */
  function BranchAt(store: Store, bead: string): Option<Commit> {
    if BranchOf(bead) in store && store[BranchOf(bead)].BranchTip? then Some(store[BranchOf(bead)].commit) else None
  }

  function MarkedAt(store: Store, bead: string): Option<string> {
    if MarkerOf(bead) in store && store[MarkerOf(bead)].Bridged? then Some(store[MarkerOf(bead)].sha) else None
  }

  /** Both refs move or neither does, and they move exactly when neither has since it
      was read. */
  lemma BuildExactly(store: Store, bead: string, branch: Option<Commit>, marker: Option<string>, head: Commit, last: string)
    ensures var t := Transact(store, BuildLines(bead, branch, marker, head, last));
      && (t.Ok? <==> BranchStands(store, bead, branch) && MarkerStands(store, bead, marker))
      && (t.Ok? ==> t.value == Published(store, bead, head, last))
  {
    var us := BuildLines(bead, branch, marker, head, last);
    assert us[..1] == [us[0]] && [us[0]][..0] == [];
    assert ApplyAll(store, us) == Apply(Apply(ApplyAll(store, []), us[0]), us[1]);
    assert LineHolds(store, us[0]) <==> BranchStands(store, bead, branch);
    assert LineHolds(store, us[1]) <==> MarkerStands(store, bead, marker);
    assert Admissible(store, us) <==> LineHolds(store, us[0]) && LineHolds(store, us[1]);
  }

  class RefStore {
    var refs: Store

    constructor (initial: Store)
      ensures refs == initial
    {
      refs := initial;
    }
  }

  class BeadBridge {
    const bead: string
    const hadBranch: bool
    const marker: Option<string>
    const parent: Commit
    var head: Commit
    var pending: seq<Source>
    var writeSet: seq<Path>
    var class_: BridgeClass

    /** What the plan read under the branch ref. */
    function Branch(): Option<Commit> {
      if hadBranch then Some(parent) else None
    }

    /** Neither ref has moved since the plan read it. */
    predicate Unmoved(refs: Store) {
      && BranchStands(refs, bead, if hadBranch then Some(parent) else None)
      && MarkerStands(refs, bead, marker)
    }

    constructor Plan(bead: string, main: Commit, branch: Option<Commit>, marker: Option<string>, pending: seq<Source>)
      ensures this.bead == bead && this.marker == marker && this.hadBranch == branch.Some?
      ensures parent == (if branch.Some? then branch.value else main) && head == parent
      ensures this.pending == pending && writeSet == [] && class_ == UpToDate
    {
      this.bead, this.marker, this.hadBranch := bead, marker, branch.Some?;
      this.parent, this.head := if branch.Some? then branch.value else main, if branch.Some? then branch.value else main;
      this.pending, this.writeSet, this.class_ := pending, [], UpToDate;
    }

    /** The pending commits, each on the one before. */
    method ReplayPending() returns (tip: Commit)
      ensures tip == ReplayAll(parent, pending) && CarriesAll(tip, parent, pending)
    {
      tip := parent;
      for i := 0 to |pending|
        invariant tip == ReplayAll(parent, pending[..i])
      {
        assert pending[..i + 1][..i] == pending[..i];
        tip := Commit([tip], PutAll(tip.tree, pending[i].transitions), ReplayMessage(pending[i]));
      }
      assert pending[..|pending|] == pending;
      ReplayCarries(parent, pending);
    }

    /** Every commit pending, in order, on the plan's parent; then both refs at once.
        Nothing is touched when the bead is not buildable or a ref has moved. */
    method Build(store: RefStore) returns (ok: bool)
      modifies this`head, this`class_, store
      ensures ok <==> old(class_ == Buildable && pending != [] && Unmoved(store.refs))
      ensures ok ==> class_ == Built && head == ReplayAll(parent, pending) && CarriesAll(head, parent, pending)
      ensures ok ==> store.refs == Published(old(store.refs), bead, head, pending[|pending| - 1].sha)
      ensures !ok ==> unchanged(this) && unchanged(store)
    {
      if class_ != Buildable || pending == [] { return false; }
      var tip := ReplayPending();
      var last := pending[|pending| - 1].sha;
      BuildExactly(store.refs, bead, Branch(), marker, tip, last);
      var tx := UpdateRefsTx(store.refs, BuildLines(bead, Branch(), marker, tip, last));
      if tx.Err? { return false; }
      store.refs := tx.value;
      head, class_ := tip, Built;
      ok := true;
    }
  }

  ghost predicate Planned(b: BeadBridge, bead: string, main: Commit, commits: seq<Source>, branch: Option<Commit>, marker: Option<string>)
    reads b
  {
    && b.bead == bead && b.marker == marker && b.hadBranch == branch.Some?
    && match SelectPending(commits, marker, branch.Some?)
      case StaleBranch(d) => b.class_ == BridgeClass.Refused(d) && b.pending == []
      case Pending(cs) =>
        && b.pending == cs && b.parent == (if branch.Some? then branch.value else main) && b.head == b.parent
        && (b.class_ == UpToDate <==> cs == [])
        && (b.class_ == Buildable <==> cs != [] && BaseHolds(b.parent.tree, Flat(cs)))
        && (b.class_.StaleBase? ==>
          MovedUnder(b.parent.tree, Flat(cs), b.class_.path) && HoldsBefore(b.parent.tree, Flat(cs), b.class_.path))
        && b.class_ != Built && !b.class_.Refused?
        && forall p :: p in b.writeSet <==> p in Writes(Flat(cs))
  }

  /** planBead: what is pending on the bead, and whether it replays cleanly. Every
      class is earned: refused or up to date by the selection, stale by a path that
      moved under it, buildable by every first-touch preimage holding. */
  method PlanBead(bead: string, main: Commit, commits: seq<Source>, branch: Option<Commit>, marker: Option<string>)
    returns (r: Result<BeadBridge, ReadError>)
    ensures r.Ok? ==> fresh(r.value) && Planned(r.value, bead, main, commits, branch, marker)
    ensures r.Err? ==> SelectPending(commits, marker, branch.Some?).Pending?
    ensures r.Err? ==> var parent := if branch.Some? then branch.value.tree else main.tree;
      TreeAt(parent, r.error.path) && r.error.path in Writes(Flat(SelectPending(commits, marker, branch.Some?).commits))
  {
    var selected := SelectPending(commits, marker, branch.Some?);
    var b := new BeadBridge.Plan(bead, main, branch, marker, if selected.Pending? then selected.commits else []);
    if selected.StaleBranch? {
      b.class_ := BridgeClass.Refused(selected.detail);
    } else if b.pending != [] {
      b.writeSet := AggregateWriteSet(b.pending);
      var stale := PlanStaleBase(b.parent.tree, b.pending);
      if stale.Err? { return Err(stale.error); }
      b.class_ := if stale.value.Some? then StaleBase(stale.value.value) else Buildable;
    }
    r := Ok(b);
  }

  /** Two runs, one after the other with nothing moved in between: if the first one
      built, the second has nothing to do. */
  method BuildAndPlanAgain(store: RefStore, bead: string, main: Commit, commits: seq<Source>)
    returns (ok: bool, again: Result<BeadBridge, ReadError>)
    requires DistinctShas(commits)
    modifies store
    ensures ok ==> again.Ok? && again.value.class_ == UpToDate && again.value.pending == []
    ensures !ok ==> store.refs == old(store.refs)
  {
    ok := false;
    again := PlanBead(bead, main, commits, BranchAt(store.refs, bead), MarkedAt(store.refs, bead));
    if again.Err? { return; }
    ok := again.value.Build(store);
    if ok {
      NothingPastLast(commits, MarkedAt(old(store.refs), bead), BranchAt(old(store.refs), bead).Some?);
      again := PlanBead(bead, main, commits, BranchAt(store.refs, bead), MarkedAt(store.refs, bead));
    }
  }
}
