/** loto sync, the part that only looks: what diverges, who holds a path, and whether
    a write is still the one that was decided. */
module SyncDecisions {
  import opened Options
  import opened Ordering
  import opened Paths
  import opened Territory
  import opened Filters

  datatype Node = File(oid: string, exec: bool) | Other

  /** The worktree by path: files, and what is no ordinary file. Directories are the
      paths something lies beneath. */
  type Worktree = map<Path, Node>

  datatype Look = Nothing | Regular(oid: string, exec: bool) | NotRegular | Failed

  predicate Above(t: Worktree, p: Path) {
    exists q | q in t :: Beneath(q, p)
  }

  predicate HasBeneath(t: Worktree, p: Path) {
    exists q | q in t :: Beneath(p, q)
  }

  /** lstat: a path through a file cannot be looked at. */
  function Lstat(t: Worktree, p: Path): Look {
    if p in t then (if t[p].File? then Regular(t[p].oid, t[p].exec) else NotRegular)
    else if HasBeneath(t, p) then NotRegular
    else if Above(t, p) then Failed
    else Nothing
  }

  /** One integration entry; regular is false for symlinks and submodules. */
  datatype Entry = Entry(path: Path, oid: string, exec: bool, regular: bool)

  datatype DiffState = Missing | Modified | ModeOnly | Unsupported

  datatype Diff = Diff(entry: Entry, state: DiffState, observed: string)

  /** What the scan makes of one entry. */
  function Classify(e: Entry, t: Worktree): Option<Diff> {
    if !e.regular then Some(Diff(e, Unsupported, ""))
    else
      match Lstat(t, e.path)
      case Nothing => Some(Diff(e, Missing, ""))
      case NotRegular => Some(Diff(e, Unsupported, ""))
      case Failed => None
      case Regular(oid, exec) =>
        if oid != e.oid then Some(Diff(e, Modified, oid))
        else if exec != e.exec then Some(Diff(e, ModeOnly, oid))
        else None
  }

  predicate Readable(e: Entry, t: Worktree) {
    !e.regular || Lstat(t, e.path) != Failed
  }

  /** Every difference, in path order. */
  function Divergence(entries: seq<Entry>, t: Worktree): seq<Diff> {
    if |entries| == 0 then []
    else
      var n := |entries| - 1;
      match Classify(entries[n], t)
      case None => Divergence(entries[..n], t)
      case Some(d) => Divergence(entries[..n], t) + [d]
  }

  lemma {:induction false} DivergenceHolds(entries: seq<Entry>, t: Worktree)
    ensures forall i :: 0 <= i < |Divergence(entries, t)| ==>
      Divergence(entries, t)[i].entry in entries && Classify(Divergence(entries, t)[i].entry, t) == Some(Divergence(entries, t)[i])
    ensures forall k :: 0 <= k < |entries| && Classify(entries[k], t).Some? ==> Classify(entries[k], t).value in Divergence(entries, t)
  {
    if |entries| > 0 {
      var n := |entries| - 1;
      DivergenceHolds(entries[..n], t);
      forall k | 0 <= k < |entries| && Classify(entries[k], t).Some?
        ensures Classify(entries[k], t).value in Divergence(entries, t)
      {
        if k < n { assert entries[..n][k] == entries[k]; }
      }
    }
  }

  /** The entry is in place: the file it names, with its bytes and its mode. */
  predicate InPlace(e: Entry, t: Worktree) {
    e.regular && e.path in t && t[e.path] == File(e.oid, e.exec)
  }

  /** A file stands where the path needs a directory. */
  predicate Behind(t: Worktree, p: Path) {
    p !in t && (forall q | q in t :: !Beneath(p, q)) && exists q | q in t :: Beneath(q, p)
  }

  /** What the difference says of the work tree is so. */
  predicate Shown(d: Diff, t: Worktree) {
    var e := d.entry;
    match d.state
    case Unsupported =>
      d.observed == "" && (!e.regular || (if e.path in t then t[e.path].Other? else exists q | q in t :: Beneath(e.path, q)))
    case Missing =>
      d.observed == "" && e.regular && e.path !in t && forall q | q in t :: !Beneath(e.path, q) && !Beneath(q, e.path)
    case Modified => e.regular && e.path in t && t[e.path].File? && t[e.path].oid == d.observed != e.oid
    case ModeOnly => e.regular && e.path in t && t[e.path] == File(e.oid, !e.exec) && d.observed == e.oid
  }

  lemma ClassifyExactly(e: Entry, t: Worktree)
    ensures Readable(e, t) <==> (e.regular ==> !Behind(t, e.path))
    ensures Readable(e, t) ==> (Classify(e, t).None? <==> InPlace(e, t))
    ensures Classify(e, t).Some? ==> Classify(e, t).value.entry == e && Shown(Classify(e, t).value, t)
  {
  }

  lemma ReadableExactly(entries: seq<Entry>, t: Worktree)
    ensures (forall i :: 0 <= i < |entries| ==> Readable(entries[i], t)) <==>
      forall i :: 0 <= i < |entries| && entries[i].regular ==> !Behind(t, entries[i].path)
  {
    forall i | 0 <= i < |entries|
      ensures Readable(entries[i], t) <==> (entries[i].regular ==> !Behind(t, entries[i].path))
    {
      ClassifyExactly(entries[i], t);
    }
  }

  /** A scan misses nothing, and says of everything it reports what is so. */
  lemma ScannedExactly(entries: seq<Entry>, t: Worktree)
    requires forall i :: 0 <= i < |entries| ==> Readable(entries[i], t)
    ensures forall i :: 0 <= i < |entries| ==>
      (InPlace(entries[i], t) <==> forall d :: d in Divergence(entries, t) ==> d.entry != entries[i])
    ensures forall d :: d in Divergence(entries, t) ==> d.entry in entries && Shown(d, t)
  {
    DivergenceHolds(entries, t);
    forall d | d in Divergence(entries, t) ensures d.entry in entries && Shown(d, t) && Classify(d.entry, t) == Some(d) {
      ClassifyExactly(d.entry, t);
    }
    forall i | 0 <= i < |entries|
      ensures InPlace(entries[i], t) <==> forall d :: d in Divergence(entries, t) ==> d.entry != entries[i]
    {
      ClassifyExactly(entries[i], t);
    }
  }

  /** syncDivergence: the differences, or an error for a path that cannot be looked at. */
  method Scan(entries: seq<Entry>, t: Worktree) returns (r: Option<seq<Diff>>)
    ensures r.Some? <==> forall i :: 0 <= i < |entries| && entries[i].regular ==> !Behind(t, entries[i].path)
    ensures r.Some? ==> r.value == Divergence(entries, t)
    ensures r.Some? ==> forall i :: 0 <= i < |entries| ==>
      (InPlace(entries[i], t) <==> forall d :: d in r.value ==> d.entry != entries[i])
    ensures r.Some? ==> forall d :: d in r.value ==> d.entry in entries && Shown(d, t)
  {
    var diffs := [];
    for i := 0 to |entries|
      invariant forall j :: 0 <= j < i ==> Readable(entries[j], t)
      invariant diffs == Divergence(entries[..i], t)
    {
      ClassifyExactly(entries[i], t);
      if !Readable(entries[i], t) { return None; }
      assert entries[..i + 1][..i] == entries[..i];
      var d := Classify(entries[i], t);
      if d.Some? { diffs := diffs + [d.value]; }
    }
    assert entries[..|entries|] == entries;
    ReadableExactly(entries, t);
    ScannedExactly(entries, t);
    r := Some(diffs);
  }

  // --- who holds a path -----------------------------------------------------

  datatype CandidateClaim = CandidateClaim(path: Path, candidate: string)

  /** The coordination state one section reads. */
  datatype Coord = Coord(integration: Option<string>, locks: seq<Record>, claims: seq<CandidateClaim>, ec: Context, worktree: string)

  datatype Reason = Leased | LapsedHolderLive | LapsedHolderUnknown | CandidateClaimed | NotFile

  datatype Conflict = Conflict(path: Path, reason: Reason, holder: string)

  function LapsedReason(v: Liveness): Reason {
    if v == Alive then LapsedHolderLive else LapsedHolderUnknown
  }

  /** syncLockConflictFor: the first row that holds the bytes back. */
  function LockConflictFor(path: Path, locks: seq<Record>, ec: Context, worktree: string): Option<Conflict> {
    if locks == [] then None
    else
      var l, rest := locks[0], locks[1..];
      var h := ec.LockHold(l);
      if ec.Refuses("", worktree, path, h) then Some(Conflict(path, Leased, l.owner))
      else if !ec.Covers(worktree, path, h) then LockConflictFor(path, rest, ec, worktree)
      else
        var (v, probed) := ec.HolderLiveness(l);
        if HoldAbove(l.target, path) && v != Alive then LockConflictFor(path, rest, ec, worktree)
        else if probed && v != Dead then Some(Conflict(path, LapsedReason(v), l.owner))
        else LockConflictFor(path, rest, ec, worktree)
  }

  function ClaimOn(path: Path, claims: seq<CandidateClaim>): Option<CandidateClaim> {
    if claims == [] then None
    else if claims[0].path == path then Some(claims[0])
    else ClaimOn(path, claims[1..])
  }

  /** syncConflictFor. */
  function ConflictFor(path: Path, c: Coord): Option<Conflict> {
    match LockConflictFor(path, c.locks, c.ec, c.worktree)
    case Some(x) => Some(x)
    case None =>
      match ClaimOn(path, c.claims)
      case Some(claim) => Some(Conflict(path, CandidateClaimed, claim.candidate))
      case None => None
  }

  /** The row has run out, or its holder is known dead. */
  predicate Lapsed(l: Record, ec: Context) {
    (ec.now >= l.expires && !l.inFlight) || (ec.live.Some? && ec.live.value(l) == Dead)
  }

  /** l is on path's territory, case folded or not, from a worktree that may be this
      one: an unset one may be any. */
  predicate Spans(l: Record, path: Path, ec: Context, worktree: string) {
    && (worktree == "" || l.worktree == "" || worktree == l.worktree)
    && (PrefixOverlaps(l.target, path) || (ec.caseFold && PrefixOverlaps(ec.lower(l.target), ec.lower(path))))
  }

  /** l holds path's bytes back: it spans path, and either it is live, whoever owns it,
      or it lapsed while its holder is not known dead. A lapsed directory hold protects
      what is beneath it only while its holder is known alive. */
  predicate HoldsBack(l: Record, path: Path, ec: Context, worktree: string) {
    && Spans(l, path, ec, worktree)
    && (!Lapsed(l, ec)
      || (ec.live.Some? && (if HoldAbove(l.target, path) then ec.live.value(l) == Alive else ec.live.value(l) != Dead)))
  }

  /** Why l holds a path back. */
  function Cause(l: Record, ec: Context): Reason {
    if !Lapsed(l, ec) then Leased
    else if ec.live.Some? && ec.live.value(l) == Alive then LapsedHolderLive
    else LapsedHolderUnknown
  }

  /** The first row of all that holds path back. */
  ghost predicate FirstBack(path: Path, locks: seq<Record>, ec: Context, worktree: string, i: nat) {
    && i < |locks| && HoldsBack(locks[i], path, ec, worktree)
    && forall j :: 0 <= j < i ==> !HoldsBack(locks[j], path, ec, worktree)
  }

  /** There is a conflict exactly when some row holds path back; it names the first
      such row's owner, and says whether the row is live, or lapsed with its holder
      known alive, or lapsed with its holder unknown. */
  lemma {:induction false} LockConflictExactly(path: Path, locks: seq<Record>, ec: Context, worktree: string)
    ensures LockConflictFor(path, locks, ec, worktree).Some? <==>
      exists i :: 0 <= i < |locks| && HoldsBack(locks[i], path, ec, worktree)
    ensures forall i: nat :: FirstBack(path, locks, ec, worktree, i) ==>
      LockConflictFor(path, locks, ec, worktree) == Some(Conflict(path, Cause(locks[i], ec), locks[i].owner))
  {
    if locks != [] {
      LockConflictExactly(path, locks[1..], ec, worktree);
      if i :| 0 <= i < |locks[1..]| && HoldsBack(locks[1..][i], path, ec, worktree) {
        assert HoldsBack(locks[i + 1], path, ec, worktree);
      }
      assert locks == [locks[0]] + locks[1..];
      forall i: nat | FirstBack(path, locks, ec, worktree, i) && i > 0
        ensures FirstBack(path, locks[1..], ec, worktree, i - 1)
      {
        assert !HoldsBack(locks[0], path, ec, worktree);
      }
    }
  }

  /** The first claim on path of all. */
  ghost predicate FirstOn(path: Path, claims: seq<CandidateClaim>, i: nat) {
    i < |claims| && claims[i].path == path && forall j :: 0 <= j < i ==> claims[j].path != path
  }

  lemma {:induction false} ClaimOnExactly(path: Path, claims: seq<CandidateClaim>)
    ensures ClaimOn(path, claims).Some? <==> exists i :: 0 <= i < |claims| && claims[i].path == path
    ensures forall i: nat :: FirstOn(path, claims, i) ==> ClaimOn(path, claims) == Some(claims[i])
  {
    if claims != [] {
      ClaimOnExactly(path, claims[1..]);
      assert claims == [claims[0]] + claims[1..];
      forall i: nat | FirstOn(path, claims, i) && i > 0 ensures FirstOn(path, claims[1..], i - 1) {
        assert claims[0].path != path;
      }
    }
  }

  ghost predicate NoneBack(path: Path, c: Coord) {
    forall j :: 0 <= j < |c.locks| ==> !HoldsBack(c.locks[j], path, c.ec, c.worktree)
  }

  /** A path is refused exactly when some hold keeps its bytes back or a candidate
      claims it: for the first such hold if there is one, else for the first claim. */
  lemma ConflictExactly(path: Path, c: Coord)
    ensures ConflictFor(path, c).Some? <==>
      (exists i :: 0 <= i < |c.locks| && HoldsBack(c.locks[i], path, c.ec, c.worktree))
      || (exists i :: 0 <= i < |c.claims| && c.claims[i].path == path)
    ensures forall i: nat :: FirstBack(path, c.locks, c.ec, c.worktree, i) ==>
      ConflictFor(path, c) == Some(Conflict(path, Cause(c.locks[i], c.ec), c.locks[i].owner))
    ensures forall i: nat :: FirstOn(path, c.claims, i) && NoneBack(path, c) ==>
      ConflictFor(path, c) == Some(Conflict(path, CandidateClaimed, c.claims[i].candidate))
  {
    LockConflictExactly(path, c.locks, c.ec, c.worktree);
    ClaimOnExactly(path, c.claims);
  }

  // --- residue and probes ---------------------------------------------------

  /** A path a rejected candidate recorded as created, with the bytes it wrote. */
  datatype Residue = Residue(path: Path, candidate: string, blob: string)

  datatype Probe = Hashed(oid: string) | Vanished | NotAFile | ProbeFailed

  /** syncProbePath. */
  function ProbePath(t: Worktree, p: Path): Probe {
    match Lstat(t, p)
    case Nothing => Vanished
    case Failed => ProbeFailed
    case NotRegular => NotAFile
    case Regular(oid, _) => Hashed(oid)
  }

  /** syncTargetMoved: the write is no longer the one that was decided. */
  predicate TargetMoved(d: Diff, probe: Probe) {
    if d.state == Missing then probe != Vanished
    else match probe
      case Hashed(oid) => oid != d.observed
      case _ => true
  }

  function DiffPaths(ds: seq<Diff>): seq<Path> {
    seq(|ds|, i requires 0 <= i < |ds| => ds[i].entry.path)
  }

  function ResiduePaths(rs: seq<Residue>): seq<Path> {
    seq(|rs|, i requires 0 <= i < |rs| => rs[i].path)
  }

  function ConflictPaths(cs: seq<Conflict>): seq<Path> {
    seq(|cs|, i requires 0 <= i < |cs| => cs[i].path)
  }

  /** syncDecide and syncDecideResidue, on paths: what may be touched and what is held. */
  function Clear(paths: seq<Path>, c: Coord): seq<Path> {
    Filter(paths, p => ConflictFor(p, c).None?)
  }

  /** Every path is either clear or a conflict with its true reason, and each once. */
  ghost predicate Parted(paths: seq<Path>, clear: seq<Path>, conflicts: seq<Conflict>, c: Coord) {
    && clear == Clear(paths, c)
    && (forall i :: 0 <= i < |conflicts| ==> ConflictFor(conflicts[i].path, c) == Some(conflicts[i]))
    && multiset(paths) == multiset(clear) + multiset(ConflictPaths(conflicts))
  }

  lemma ClearGrows(paths: seq<Path>, p: Path, c: Coord)
    ensures Clear(paths + [p], c) == Clear(paths, c) + if ConflictFor(p, c).None? then [p] else []
  {
    assert (paths + [p])[..|paths|] == paths;
  }

  lemma PartedClear(paths: seq<Path>, clear: seq<Path>, conflicts: seq<Conflict>, p: Path, c: Coord)
    requires Parted(paths, clear, conflicts, c) && ConflictFor(p, c).None?
    ensures Parted(paths + [p], clear + [p], conflicts, c)
  {
    ClearGrows(paths, p, c);
  }

  lemma {:induction false} LockConflictNamesItsPath(path: Path, locks: seq<Record>, ec: Context, worktree: string)
    ensures LockConflictFor(path, locks, ec, worktree).Some? ==> LockConflictFor(path, locks, ec, worktree).value.path == path
  {
    if locks != [] { LockConflictNamesItsPath(path, locks[1..], ec, worktree); }
  }

  lemma ConflictNamesItsPath(p: Path, c: Coord)
    requires ConflictFor(p, c).Some?
    ensures ConflictFor(p, c).value.path == p
  {
    LockConflictNamesItsPath(p, c.locks, c.ec, c.worktree);
  }

  lemma PartedConflict(paths: seq<Path>, clear: seq<Path>, conflicts: seq<Conflict>, p: Path, x: Conflict, c: Coord)
    requires Parted(paths, clear, conflicts, c) && ConflictFor(p, c) == Some(x)
    ensures Parted(paths + [p], clear, conflicts + [x], c)
  {
    ClearGrows(paths, p, c);
    ConflictNamesItsPath(p, c);
    assert ConflictPaths(conflicts + [x]) == ConflictPaths(conflicts) + [p];
  }

  lemma DiffPathsGrow(ds: seq<Diff>, i: nat)
    requires i < |ds|
    ensures DiffPaths(ds[..i + 1]) == DiffPaths(ds[..i]) + [ds[i].entry.path]
  {
  }

  lemma DiffPathsAppend(ds: seq<Diff>, d: Diff)
    ensures DiffPaths(ds + [d]) == DiffPaths(ds) + [d.entry.path]
  {
  }

  method Decide(diffs: seq<Diff>, c: Coord) returns (apply: seq<Diff>, conflicts: seq<Conflict>)
    ensures Parted(DiffPaths(diffs), DiffPaths(apply), conflicts, c)
    ensures forall i :: 0 <= i < |apply| ==> apply[i] in diffs
  {
    apply, conflicts := [], [];
    for i := 0 to |diffs|
      invariant Parted(DiffPaths(diffs[..i]), DiffPaths(apply), conflicts, c)
      invariant forall j :: 0 <= j < |apply| ==> apply[j] in diffs
    {
      var d := diffs[i];
      DiffPathsGrow(diffs, i);
      var x := ConflictFor(d.entry.path, c);
      if x.Some? {
        PartedConflict(DiffPaths(diffs[..i]), DiffPaths(apply), conflicts, d.entry.path, x.value, c);
        conflicts := conflicts + [x.value];
      } else {
        PartedClear(DiffPaths(diffs[..i]), DiffPaths(apply), conflicts, d.entry.path, c);
        DiffPathsAppend(apply, d);
        apply := apply + [d];
      }
    }
    assert diffs[..|diffs|] == diffs;
  }

  lemma ResiduePathsGrow(rs: seq<Residue>, i: nat)
    requires i < |rs|
    ensures ResiduePaths(rs[..i + 1]) == ResiduePaths(rs[..i]) + [rs[i].path]
  {
  }

  lemma ResiduePathsAppend(rs: seq<Residue>, r: Residue)
    ensures ResiduePaths(rs + [r]) == ResiduePaths(rs) + [r.path]
  {
  }

  method DecideResidue(residue: seq<Residue>, c: Coord) returns (sweep: seq<Residue>, conflicts: seq<Conflict>)
    ensures Parted(ResiduePaths(residue), ResiduePaths(sweep), conflicts, c)
    ensures forall i :: 0 <= i < |sweep| ==> sweep[i] in residue
  {
    sweep, conflicts := [], [];
    for i := 0 to |residue|
      invariant Parted(ResiduePaths(residue[..i]), ResiduePaths(sweep), conflicts, c)
      invariant forall j :: 0 <= j < |sweep| ==> sweep[j] in residue
    {
      var r := residue[i];
      ResiduePathsGrow(residue, i);
      var x := ConflictFor(r.path, c);
      if x.Some? {
        PartedConflict(ResiduePaths(residue[..i]), ResiduePaths(sweep), conflicts, r.path, x.value, c);
        conflicts := conflicts + [x.value];
      } else {
        PartedClear(ResiduePaths(residue[..i]), ResiduePaths(sweep), conflicts, r.path, c);
        ResiduePathsAppend(sweep, r);
        sweep := sweep + [r];
      }
    }
    assert residue[..|residue|] == residue;
  }

  lemma {:induction false} ClearIsClear(paths: seq<Path>, c: Coord)
    ensures forall p :: p in Clear(paths, c) <==> p in paths && ConflictFor(p, c).None?
  {
    if |paths| > 0 {
      var front, last := paths[..|paths| - 1], paths[|paths| - 1];
      ClearIsClear(front, c);
      ClearGrows(front, last, c);
      assert front + [last] == paths;
    }
  }
}
