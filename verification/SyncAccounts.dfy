/** What a sync run did, told exactly: each path once, each write authorized, and what
    a second scan would find. */
module SyncAccounts {
  import opened Options
  import opened Paths
  import opened Filters
  import opened SyncDecisions

  /** syncApplyBatch. */
  const BATCH: nat := 16

  /** One thing sync did to the tree, and the section that authorized it. */
  datatype Write = Write(path: Path, before: Option<Node>, after: Option<Node>, section: nat)

  /** What a sweep made of its paths. */
  datatype Swept = Swept(deleted: seq<Residue>, skips: seq<Conflict>, modified: seq<Residue>, vanished: seq<Residue>)

  /** What a run tells: published, refused and skipped differences, what the sweep made
      of the residue and whom it was refused for, and what was never decided. */
  datatype Report = Report(
    synced: seq<Path>,
    conflicts: seq<Conflict>,
    targetSkips: seq<Diff>,
    swept: Swept,
    refused: seq<Conflict>,
    unsupported: seq<Diff>)

  /** The differences a run decides on. */
  function Decidable(entries: seq<Entry>, t: Worktree): seq<Diff> {
    Filter(Divergence(entries, t), (d: Diff) => d.state != Unsupported)
  }

  function EntryPaths(entries: seq<Entry>): seq<Path> {
    seq(|entries|, i requires 0 <= i < |entries| => entries[i].path)
  }

  /** No file lies beneath a file. */
  ghost predicate Physical(t: Worktree) {
    forall p, q :: p in t && q in t ==> !Beneath(p, q)
  }

  /** What a second scan finds of entry e. */
  predicate Diverges(e: Entry, t: Worktree) {
    Classify(e, t).Some?
  }

  predicate LeftOver(e: Entry, was: Worktree, r: Report) {
    Diverges(e, was) && (Classify(e, was).value.state == Unsupported || e.path in ConflictPaths(r.conflicts))
  }

  /** A second scan diverges exactly at what the first could not decide, what was
      refused, and what this very run deleted. */
  ghost predicate Rescanned(entries: seq<Entry>, was: Worktree, now: Worktree, r: Report) {
    forall i :: 0 <= i < |entries| ==>
      (Diverges(entries[i], now) <==> LeftOver(entries[i], was, r) || entries[i].path in ResiduePaths(r.swept.deleted))
  }

  /** A residue at the path of an integration file that was in order, or put in order. */
  predicate Sweepable(e: Entry, x: Residue, was: Worktree, r: Report) {
    x.path == e.path && !LeftOver(e, was, r) && x.path !in ConflictPaths(r.refused)
  }

  /** And a file integration holds is deleted exactly when a rejected candidate once
      recorded the same bytes at its path, and nobody holds it. */
  ghost predicate DeletedIntegrated(entries: seq<Entry>, residue: seq<Residue>, was: Worktree, r: Report) {
    forall i, k :: 0 <= i < |entries| && 0 <= k < |residue| && Sweepable(entries[i], residue[k], was, r) ==>
      (residue[k] in r.swept.deleted <==> residue[k].blob == entries[i].oid)
  }

  function NodeAt(t: Worktree, p: Path): Option<Node> {
    if p in t then Some(t[p]) else None
  }

  function WrittenPaths(ws: seq<Write>): seq<Path> {
    seq(|ws|, i requires 0 <= i < |ws| => ws[i].path)
  }

  /** The scan saw exactly this content at the path. */
  predicate AsScanned(d: Diff, before: Option<Node>) {
    if d.state == Missing then before == None
    else before.Some? && before.value.File? && before.value.oid == d.observed
  }

  predicate PublishesOne(w: Write, d: Diff) {
    w.path == d.entry.path && AsScanned(d, w.before) && w.after == Some(File(d.entry.oid, d.entry.exec))
  }

  /** A write that publishes one of these differences over what the scan saw. */
  ghost predicate Publishes(w: Write, ds: seq<Diff>, section: nat) {
    w.section == section && exists i :: 0 <= i < |ds| && PublishesOne(w, ds[i])
  }

  predicate RemovesOne(w: Write, r: Residue) {
    w.path == r.path && w.before.Some? && w.before.value.File? && w.before.value.oid == r.blob && w.after == None
  }

  /** A write that removes one of these residues while it still holds the recorded
      bytes. */
  ghost predicate Removes(w: Write, rs: seq<Residue>, section: nat) {
    w.section == section && exists i :: 0 <= i < |rs| && RemovesOne(w, rs[i])
  }

  predicate Apart(a: Path, b: Path) {
    a != b && !Beneath(a, b) && !Beneath(b, a)
  }

  ghost predicate AllApart(paths: seq<Path>) {
    forall i, j :: 0 <= i < |paths| && 0 <= j < |paths| && i != j ==> Apart(paths[i], paths[j])
  }

  /** Nothing about the decided writes has moved. */
  ghost predicate Steady(ds: seq<Diff>, t: Worktree) {
    forall i :: 0 <= i < |ds| ==> !TargetMoved(ds[i], ProbePath(t, ds[i].entry.path))
  }

  /** Two trees agree off the listed paths. */
  ghost predicate SameOff(t: Worktree, u: Worktree, paths: seq<Path>) {
    forall p :: p !in paths ==> NodeAt(t, p) == NodeAt(u, p)
  }

  ghost predicate HoldsEntries(t: Worktree, ds: seq<Diff>, paths: seq<Path>) {
    forall i :: 0 <= i < |ds| && ds[i].entry.path in paths ==> NodeAt(t, ds[i].entry.path) == Some(File(ds[i].entry.oid, ds[i].entry.exec))
  }

  /** A path apart from every written file looks the same as before. */
  lemma LooksTheSame(t: Worktree, u: Worktree, paths: seq<Path>, q: Path)
    requires SameOff(t, u, paths) && forall i :: 0 <= i < |paths| ==> Apart(paths[i], q)
    ensures Lstat(u, q) == Lstat(t, q)
  {
    assert q !in paths;
    forall x | Beneath(q, x) || Beneath(x, q) || x == q ensures x in t <==> x in u {
      assert x !in paths;
      assert NodeAt(t, x) == NodeAt(u, x);
    }
    assert NodeAt(t, q) == NodeAt(u, q);
  }

  lemma LaterLooksTheSame(t: Worktree, u: Worktree, ds: seq<Diff>, i: nat)
    requires i < |ds| && AllApart(DiffPaths(ds)) && SameOff(t, u, DiffPaths(ds[..i]))
    ensures ProbePath(u, ds[i].entry.path) == ProbePath(t, ds[i].entry.path)
    ensures ds[i].entry.path !in DiffPaths(ds[..i])
  {
    var paths := DiffPaths(ds[..i]);
    forall k | 0 <= k < |paths| ensures Apart(paths[k], ds[i].entry.path) {
      assert DiffPaths(ds)[k] == paths[k] && DiffPaths(ds)[i] == ds[i].entry.path;
    }
    LooksTheSame(t, u, paths, ds[i].entry.path);
  }

  function Joined(a: Swept, b: Swept): Swept {
    Swept(a.deleted + b.deleted, a.skips + b.skips, a.modified + b.modified, a.vanished + b.vanished)
  }

  lemma PathsJoined(a: seq<Residue>, b: seq<Residue>)
    ensures ResiduePaths(a + b) == ResiduePaths(a) + ResiduePaths(b)
  {
  }

  predicate DistinctPaths(rs: seq<Residue>) {
    forall i, j :: 0 <= i < j < |rs| ==> rs[i].path != rs[j].path
  }

  lemma SliceDistinct(rs: seq<Residue>, lo: nat, hi: nat)
    requires lo <= hi <= |rs| && DistinctPaths(rs)
    ensures DistinctPaths(rs[lo..hi])
  {
  }

  lemma RemovesInRange(w: Write, rs: seq<Residue>, lo: nat, hi: nat)
    requires lo <= hi <= |rs| && exists i :: 0 <= i < |rs[lo..hi]| && RemovesOne(w, rs[lo..hi][i])
    ensures exists i :: 0 <= i < |rs| && RemovesOne(w, rs[i])
  {
    var i :| 0 <= i < |rs[lo..hi]| && RemovesOne(w, rs[lo..hi][i]);
    assert RemovesOne(w, rs[lo + i]);
  }

  lemma SameOffJoined(t: Worktree, u: Worktree, v: Worktree, a: seq<Path>, b: seq<Path>)
    requires SameOff(t, u, a) && SameOff(u, v, b)
    ensures SameOff(t, v, a + b)
  {
    forall p | p !in a + b ensures NodeAt(t, p) == NodeAt(v, p) {
      assert p !in a && p !in b;
      assert NodeAt(t, p) == NodeAt(u, p);
    }
  }

  /** The tree lost the deleted paths and nothing else. */
  ghost predicate GoneOnly(t: Worktree, u: Worktree, deleted: seq<Residue>) {
    SameOff(t, u, ResiduePaths(deleted)) && forall p :: p in ResiduePaths(deleted) ==> p !in u
  }

  lemma GoneJoined(t: Worktree, u: Worktree, v: Worktree, a: seq<Residue>, b: seq<Residue>)
    requires GoneOnly(t, u, a) && GoneOnly(u, v, b)
    ensures GoneOnly(t, v, a + b)
  {
    PathsJoined(a, b);
    SameOffJoined(t, u, v, ResiduePaths(a), ResiduePaths(b));
    forall p | p in ResiduePaths(a + b) ensures p !in v {
      if p !in ResiduePaths(b) { assert NodeAt(u, p) == NodeAt(v, p); }
    }
  }

  /** Every residue was deleted, refused, skipped, kept or found gone, once. */
  ghost predicate FullySwept(rs: seq<Residue>, s: Swept, conflicts: seq<Conflict>) {
    multiset(ResiduePaths(rs)) == multiset(ResiduePaths(s.deleted)) + multiset(ConflictPaths(conflicts))
      + multiset(ConflictPaths(s.skips)) + multiset(ResiduePaths(s.modified)) + multiset(ResiduePaths(s.vanished))
  }

  lemma SweptJoined(rs: seq<Residue>, lo: nat, hi: nat, a: Swept, ac: seq<Conflict>, b: Swept, bc: seq<Conflict>)
    requires lo <= hi <= |rs| && FullySwept(rs[..lo], a, ac) && FullySwept(rs[lo..hi], b, bc)
    ensures FullySwept(rs[..hi], Joined(a, b), ac + bc)
  {
    assert ResiduePaths(rs[..hi]) == ResiduePaths(rs[..lo]) + ResiduePaths(rs[lo..hi]);
    PathsJoined(a.deleted, b.deleted);
    PathsJoined(a.modified, b.modified);
    PathsJoined(a.vanished, b.vanished);
    assert ConflictPaths(ac + bc) == ConflictPaths(ac) + ConflictPaths(bc);
    assert ConflictPaths(a.skips + b.skips) == ConflictPaths(a.skips) + ConflictPaths(b.skips);
  }

  /** A refusal names one of the paths it was about. */
  lemma RefusedIsSwept(rs: seq<Residue>, s: Swept, conflicts: seq<Conflict>, p: Path)
    requires FullySwept(rs, s, conflicts) && p in ConflictPaths(conflicts)
    ensures p in ResiduePaths(rs)
  {
    assert p in multiset(ConflictPaths(conflicts));
    assert p in multiset(ResiduePaths(rs));
  }

  lemma EarlierPart(rs: seq<Residue>, lo: nat, hi: nat, b: Swept, bc: seq<Conflict>, i: nat)
    requires i < lo <= hi <= |rs| && DistinctPaths(rs) && FullySwept(rs[lo..hi], b, bc)
    requires forall r :: r in b.deleted ==> r in rs[lo..hi]
    ensures rs[i] !in b.deleted && rs[i].path !in ConflictPaths(bc)
  {
    forall k | 0 <= k < |rs[lo..hi]| ensures rs[lo..hi][k].path != rs[i].path { assert rs[lo + k].path != rs[i].path; }
    if rs[i].path in ConflictPaths(bc) { RefusedIsSwept(rs[lo..hi], b, bc, rs[i].path); }
  }

  lemma LaterPart(rs: seq<Residue>, lo: nat, hi: nat, a: Swept, ac: seq<Conflict>, i: nat, t: Worktree)
    requires lo <= i < hi <= |rs| && DistinctPaths(rs) && FullySwept(rs[..lo], a, ac)
    requires forall r :: r in a.deleted ==> r in rs[..lo]
    ensures rs[i] !in a.deleted && rs[i].path !in ConflictPaths(ac) && rs[i].path !in ResiduePaths(a.deleted)
  {
    forall k | 0 <= k < |rs[..lo]| ensures rs[..lo][k].path != rs[i].path { assert rs[k].path != rs[i].path; }
    forall k | 0 <= k < |a.deleted| ensures a.deleted[k].path != rs[i].path { assert a.deleted[k] in rs[..lo]; }
    if rs[i].path in ConflictPaths(ac) { RefusedIsSwept(rs[..lo], a, ac, rs[i].path); }
  }

  /** Deleted are exactly the residues that held the recorded bytes and were not
      refused. */
  ghost predicate SweptOrRefused(rs: seq<Residue>, deleted: seq<Residue>, conflicts: seq<Conflict>, t: Worktree) {
    && (forall i :: 0 <= i < |rs| ==>
      (rs[i] in deleted <==> ProbePath(t, rs[i].path) == Hashed(rs[i].blob) && rs[i].path !in ConflictPaths(conflicts)))
    && forall r :: r in deleted ==> r in rs
  }

  lemma RefusedJoined(rs: seq<Residue>, lo: nat, hi: nat, a: Swept, ac: seq<Conflict>, b: Swept, bc: seq<Conflict>, t: Worktree, u: Worktree)
    requires lo <= hi <= |rs| && DistinctPaths(rs) && GoneOnly(t, u, a.deleted)
    requires FullySwept(rs[..lo], a, ac) && FullySwept(rs[lo..hi], b, bc)
    requires SweptOrRefused(rs[..lo], a.deleted, ac, t) && SweptOrRefused(rs[lo..hi], b.deleted, bc, u)
    ensures SweptOrRefused(rs[..hi], Joined(a, b).deleted, ac + bc, t)
  {
    var seen := rs[..hi];
    forall i | 0 <= i < |seen|
      ensures seen[i] in a.deleted + b.deleted <==>
        ProbePath(t, seen[i].path) == Hashed(seen[i].blob) && seen[i].path !in ConflictPaths(ac + bc)
    {
      var p := seen[i].path;
      assert ConflictPaths(ac + bc) == ConflictPaths(ac) + ConflictPaths(bc);
      if i < lo {
        EarlierPart(rs, lo, hi, b, bc, i);
        assert rs[..lo][i] == seen[i];
      } else {
        LaterPart(rs, lo, hi, a, ac, i, t);
        assert rs[lo..hi][i - lo] == seen[i];
        assert p !in ResiduePaths(a.deleted);
        assert NodeAt(t, p) == NodeAt(u, p);
      }
    }
    forall r | r in a.deleted + b.deleted ensures r in seen {
      if r in a.deleted { assert r in rs[..lo]; } else { assert r in rs[lo..hi]; }
    }
  }

  lemma PublishesInRange(w: Write, ds: seq<Diff>, lo: nat, hi: nat)
    requires lo <= hi <= |ds| && exists i :: 0 <= i < |ds[lo..hi]| && PublishesOne(w, ds[lo..hi][i])
    ensures exists i :: 0 <= i < |ds| && PublishesOne(w, ds[i])
  {
    var i :| 0 <= i < |ds[lo..hi]| && PublishesOne(w, ds[lo..hi][i]);
    assert PublishesOne(w, ds[lo + i]);
  }

  /** The run's new writes, in order, are exactly these paths. */
  ghost predicate WroteOnly(was: seq<Write>, now: seq<Write>, paths: seq<Path>) {
    was <= now && WrittenPaths(now[|was|..]) == paths
  }

  lemma WroteJoined(start: seq<Write>, was: seq<Write>, now: seq<Write>, a: seq<Path>, b: seq<Path>)
    requires WroteOnly(start, was, a) && WroteOnly(was, now, b)
    ensures WroteOnly(start, now, a + b)
  {
    assert now[|start|..] == was[|start|..] + now[|was|..];
  }

  /** Every difference was published, refused or skipped, and each once. */
  ghost predicate FullyTold(ds: seq<Diff>, synced: seq<Path>, conflicts: seq<Conflict>, skips: seq<Diff>) {
    multiset(DiffPaths(ds)) == multiset(synced) + multiset(ConflictPaths(conflicts)) + multiset(DiffPaths(skips))
  }

  lemma ToldJoined(ds: seq<Diff>, lo: nat, hi: nat, a: seq<Path>, ac: seq<Conflict>, ak: seq<Diff>, b: seq<Path>, bc: seq<Conflict>, bk: seq<Diff>)
    requires lo <= hi <= |ds| && FullyTold(ds[..lo], a, ac, ak) && FullyTold(ds[lo..hi], b, bc, bk)
    ensures FullyTold(ds[..hi], a + b, ac + bc, ak + bk)
  {
    assert DiffPaths(ds[..hi]) == DiffPaths(ds[..lo]) + DiffPaths(ds[lo..hi]);
    assert ConflictPaths(ac + bc) == ConflictPaths(ac) + ConflictPaths(bc);
    assert DiffPaths(ak + bk) == DiffPaths(ak) + DiffPaths(bk);
  }

  /** What was published came from the differences told so far. */
  lemma SyncedIsTold(ds: seq<Diff>, synced: seq<Path>, conflicts: seq<Conflict>, skips: seq<Diff>, p: Path)
    requires FullyTold(ds, synced, conflicts, skips) && p in synced
    ensures p in DiffPaths(ds)
  {
    assert p in multiset(synced);
    assert p in multiset(DiffPaths(ds));
  }

  lemma LaterDiffCalm(ds: seq<Diff>, lo: nat, i: nat, t: Worktree, u: Worktree, synced: seq<Path>, conflicts: seq<Conflict>, skips: seq<Diff>)
    requires lo <= i < |ds| && AllApart(DiffPaths(ds)) && FullyTold(ds[..lo], synced, conflicts, skips) && SameOff(t, u, synced)
    ensures ProbePath(u, ds[i].entry.path) == ProbePath(t, ds[i].entry.path)
  {
    var paths := DiffPaths(ds);
    forall k | 0 <= k < |synced| ensures Apart(synced[k], ds[i].entry.path) {
      SyncedIsTold(ds[..lo], synced, conflicts, skips, synced[k]);
      var m :| 0 <= m < lo && DiffPaths(ds[..lo])[m] == synced[k];
      assert paths[m] == synced[k] && paths[i] == ds[i].entry.path;
    }
    LooksTheSame(t, u, synced, ds[i].entry.path);
  }

  lemma BatchApart(ds: seq<Diff>, lo: nat, hi: nat)
    requires lo <= hi <= |ds| && AllApart(DiffPaths(ds))
    ensures AllApart(DiffPaths(ds[lo..hi]))
  {
    var paths, batch := DiffPaths(ds), DiffPaths(ds[lo..hi]);
    forall i, j | 0 <= i < |batch| && 0 <= j < |batch| && i != j ensures Apart(batch[i], batch[j]) {
      assert paths[lo + i] == batch[i] && paths[lo + j] == batch[j];
    }
  }

  /** Earlier batches leave a later one as the scan saw it. */
  lemma NextBatchCalm(ds: seq<Diff>, lo: nat, hi: nat, t: Worktree, u: Worktree, synced: seq<Path>, conflicts: seq<Conflict>, skips: seq<Diff>)
    requires lo <= hi <= |ds| && Steady(ds, t) && AllApart(DiffPaths(ds))
    requires FullyTold(ds[..lo], synced, conflicts, skips) && SameOff(t, u, synced)
    ensures Steady(ds[lo..hi], u) && AllApart(DiffPaths(ds[lo..hi]))
  {
    var batch := ds[lo..hi];
    forall i | 0 <= i < |batch| ensures !TargetMoved(batch[i], ProbePath(u, batch[i].entry.path)) {
      LaterDiffCalm(ds, lo, lo + i, t, u, synced, conflicts, skips);
      assert batch[i] == ds[lo + i];
    }
    BatchApart(ds, lo, hi);
  }

  lemma SamePathSameDiff(ds: seq<Diff>, i: nat, j: nat)
    requires AllApart(DiffPaths(ds)) && i < |ds| && j < |ds| && ds[i].entry.path == ds[j].entry.path
    ensures i == j
  {
    assert DiffPaths(ds)[i] == DiffPaths(ds)[j];
  }

  lemma EntriesJoined(ds: seq<Diff>, lo: nat, hi: nat, t: Worktree, u: Worktree, synced: seq<Path>, conflicts: seq<Conflict>, skips: seq<Diff>,
      more: seq<Path>, moreConflicts: seq<Conflict>, moreSkips: seq<Diff>)
    requires lo <= hi <= |ds| && AllApart(DiffPaths(ds)) && FullyTold(ds[..lo], synced, conflicts, skips)
    requires HoldsEntries(t, ds[..lo], synced) && SameOff(t, u, more) && HoldsEntries(u, ds[lo..hi], more)
    requires FullyTold(ds[lo..hi], more, moreConflicts, moreSkips)
    ensures HoldsEntries(u, ds[..hi], synced + more)
  {
    var paths := DiffPaths(ds);
    forall i | 0 <= i < hi && ds[..hi][i].entry.path in synced + more
      ensures NodeAt(u, ds[i].entry.path) == Some(File(ds[i].entry.oid, ds[i].entry.exec))
    {
      var p := ds[i].entry.path;
      if i < lo {
        assert ds[..lo][i] == ds[i];
        forall k | 0 <= k < |ds[lo..hi]| ensures DiffPaths(ds[lo..hi])[k] != p {
          assert paths[lo + k] == DiffPaths(ds[lo..hi])[k] && paths[i] == p;
        }
        assert p !in more by {
          if p in more { SyncedIsTold(ds[lo..hi], more, moreConflicts, moreSkips, p); }
        }
        assert NodeAt(t, p) == NodeAt(u, p);
      } else {
        assert ds[lo..hi][i - lo] == ds[i];
        if p in synced {
          SyncedIsTold(ds[..lo], synced, conflicts, skips, p);
          var m :| 0 <= m < lo && DiffPaths(ds[..lo])[m] == p;
          SamePathSameDiff(ds, m, i);
        }
      }
    }
  }

  /** Every residue was deleted, skipped, kept as modified or found gone, once. */
  ghost predicate ToldResidue(rs: seq<Residue>, s: Swept) {
    multiset(ResiduePaths(rs)) == multiset(ResiduePaths(s.deleted)) + multiset(ConflictPaths(s.skips))
      + multiset(ResiduePaths(s.modified)) + multiset(ResiduePaths(s.vanished))
  }

  lemma PartedSwept(rs: seq<Residue>, sweep: seq<Residue>, s: Swept, conflicts: seq<Conflict>, c: Coord)
    requires Parted(ResiduePaths(rs), ResiduePaths(sweep), conflicts, c) && ToldResidue(sweep, s)
    ensures FullySwept(rs, s, conflicts)
  {
  }

  lemma SweptIsClear(w: Write, sweep: seq<Residue>, rs: seq<Residue>, c: Coord)
    requires exists i :: 0 <= i < |sweep| && RemovesOne(w, sweep[i])
    requires ResiduePaths(sweep) == Clear(ResiduePaths(rs), c) && forall i :: 0 <= i < |sweep| ==> sweep[i] in rs
    ensures ConflictFor(w.path, c).None? && exists i :: 0 <= i < |rs| && RemovesOne(w, rs[i])
  {
    var i :| 0 <= i < |sweep| && RemovesOne(w, sweep[i]);
    var k :| 0 <= k < |rs| && rs[k] == sweep[i];
    ClearIsClear(ResiduePaths(rs), c);
    assert ResiduePaths(sweep)[i] in Clear(ResiduePaths(rs), c);
  }

  lemma SweepDistinct(rs: seq<Residue>, sweep: seq<Residue>, c: Coord)
    requires DistinctPaths(rs) && ResiduePaths(sweep) == Clear(ResiduePaths(rs), c)
    ensures DistinctPaths(sweep)
  {
    var paths := ResiduePaths(rs);
    var at := FilterPlaces(paths, p => ConflictFor(p, c).None?);
    forall i, j | 0 <= i < j < |sweep| ensures sweep[i].path != sweep[j].path {
      assert at[i] < at[j];
      assert paths[at[i]] == ResiduePaths(sweep)[i] && paths[at[j]] == ResiduePaths(sweep)[j];
      assert rs[at[i]].path != rs[at[j]].path;
    }
  }

  lemma DistinctMeansSame(rs: seq<Residue>, i: nat, j: nat)
    requires DistinctPaths(rs) && i < |rs| && j < |rs| && rs[i].path == rs[j].path
    ensures i == j
  {
  }

  /** A path is among the refusals exactly when it was refused. */
  lemma RefusedExactly(paths: seq<Path>, clear: seq<Path>, conflicts: seq<Conflict>, i: nat, c: Coord)
    requires Parted(paths, clear, conflicts, c) && i < |paths|
    ensures paths[i] in ConflictPaths(conflicts) <==> ConflictFor(paths[i], c).Some?
  {
    ClearIsClear(paths, c);
    assert paths[i] in multiset(paths);
    if ConflictFor(paths[i], c).Some? {
      assert paths[i] !in multiset(clear);
      assert paths[i] in multiset(ConflictPaths(conflicts));
    }
  }

  /** Deleted are exactly those that still held the recorded bytes. */
  ghost predicate DeletedExactly(rs: seq<Residue>, deleted: seq<Residue>, t: Worktree) {
    forall i :: 0 <= i < |rs| ==> (rs[i] in deleted <==> ProbePath(t, rs[i].path) == Hashed(rs[i].blob))
  }

  /** And nothing but them, so far. */
  ghost predicate SweptExactly(rs: seq<Residue>, deleted: seq<Residue>, t: Worktree) {
    DeletedExactly(rs, deleted, t) && forall r :: r in deleted ==> r in rs
  }

  lemma SweptExactlyRefused(rs: seq<Residue>, sweep: seq<Residue>, deleted: seq<Residue>, conflicts: seq<Conflict>, c: Coord, t: Worktree)
    requires DistinctPaths(rs) && Parted(ResiduePaths(rs), ResiduePaths(sweep), conflicts, c)
    requires forall i :: 0 <= i < |sweep| ==> sweep[i] in rs
    requires SweptExactly(sweep, deleted, t)
    ensures SweptOrRefused(rs, deleted, conflicts, t)
  {
    var paths := ResiduePaths(rs);
    ClearIsClear(paths, c);
    forall i | 0 <= i < |rs| ensures rs[i] in sweep <==> ConflictFor(rs[i].path, c).None? {
      assert paths[i] == rs[i].path;
      if rs[i] in sweep {
        var k :| 0 <= k < |sweep| && sweep[k] == rs[i];
        assert ResiduePaths(sweep)[k] in Clear(paths, c);
      }
      if ConflictFor(rs[i].path, c).None? {
        assert rs[i].path in ResiduePaths(sweep);
        var k :| 0 <= k < |sweep| && ResiduePaths(sweep)[k] == rs[i].path;
        var j :| 0 <= j < |rs| && rs[j] == sweep[k];
        DistinctMeansSame(rs, i, j);
      }
    }
    forall i | 0 <= i < |rs| ensures rs[i].path in ConflictPaths(conflicts) <==> ConflictFor(rs[i].path, c).Some? {
      RefusedExactly(paths, ResiduePaths(sweep), conflicts, i, c);
    }
    forall i | 0 <= i < |rs| ensures rs[i] in deleted <==> ProbePath(t, rs[i].path) == Hashed(rs[i].blob) && rs[i].path !in ConflictPaths(conflicts) {
      if rs[i] in sweep { var k :| 0 <= k < |sweep| && sweep[k] == rs[i]; }
    }
  }

  /** Every difference was either published or skipped, and each once. */
  ghost predicate Told(ds: seq<Diff>, synced: seq<Path>, skipped: seq<Diff>) {
    multiset(DiffPaths(ds)) == multiset(synced) + multiset(DiffPaths(skipped))
  }

  lemma PartedTold(ds: seq<Diff>, apply: seq<Diff>, synced: seq<Path>, conflicts: seq<Conflict>, skips: seq<Diff>, c: Coord)
    requires Parted(DiffPaths(ds), DiffPaths(apply), conflicts, c) && Told(apply, synced, skips)
    ensures FullyTold(ds, synced, conflicts, skips)
  {
  }

  lemma AppliedIsClear(w: Write, apply: seq<Diff>, ds: seq<Diff>, c: Coord)
    requires exists i :: 0 <= i < |apply| && PublishesOne(w, apply[i])
    requires DiffPaths(apply) == Clear(DiffPaths(ds), c) && forall i :: 0 <= i < |apply| ==> apply[i] in ds
    ensures ConflictFor(w.path, c).None? && exists i :: 0 <= i < |ds| && PublishesOne(w, ds[i])
  {
    var i :| 0 <= i < |apply| && PublishesOne(w, apply[i]);
    var k :| 0 <= k < |ds| && ds[k] == apply[i];
    ClearIsClear(DiffPaths(ds), c);
    assert DiffPaths(apply)[i] in Clear(DiffPaths(ds), c);
  }

  lemma ClearApart(paths: seq<Path>, c: Coord)
    requires AllApart(paths)
    ensures AllApart(Clear(paths, c))
  {
    var at := FilterPlaces(paths, p => ConflictFor(p, c).None?);
    var clear := Clear(paths, c);
    forall i, j | 0 <= i < |clear| && 0 <= j < |clear| && i != j ensures Apart(clear[i], clear[j]) {
      assert at[i] != at[j];
      assert Apart(paths[at[i]], paths[at[j]]);
    }
  }

  lemma ClearStaysCalm(ds: seq<Diff>, apply: seq<Diff>, t: Worktree, c: Coord)
    requires Steady(ds, t) && AllApart(DiffPaths(ds))
    requires DiffPaths(apply) == Clear(DiffPaths(ds), c) && forall i :: 0 <= i < |apply| ==> apply[i] in ds
    ensures Steady(apply, t) && AllApart(DiffPaths(apply))
  {
    ClearApart(DiffPaths(ds), c);
    forall i | 0 <= i < |apply| ensures !TargetMoved(apply[i], ProbePath(t, apply[i].entry.path)) {
      var k :| 0 <= k < |ds| && ds[k] == apply[i];
    }
  }

  lemma AppliedEntries(t: Worktree, ds: seq<Diff>, apply: seq<Diff>, synced: seq<Path>)
    requires AllApart(DiffPaths(ds)) && HoldsEntries(t, apply, synced) && synced == DiffPaths(apply)
    requires forall i :: 0 <= i < |apply| ==> apply[i] in ds
    ensures HoldsEntries(t, ds, synced)
  {
    forall i | 0 <= i < |ds| && ds[i].entry.path in synced
      ensures NodeAt(t, ds[i].entry.path) == Some(File(ds[i].entry.oid, ds[i].entry.exec))
    {
      var k :| 0 <= k < |synced| && synced[k] == ds[i].entry.path;
      var j :| 0 <= j < |ds| && ds[j] == apply[k];
      SamePathSameDiff(ds, i, j);
    }
  }

  datatype Fate = Deleted | NotFileThere | Changed | Gone | Stopped

  function Tally(s: Swept, r: Residue, fate: Fate): Swept {
    match fate
    case Deleted => s.(deleted := s.deleted + [r])
    case NotFileThere => s.(skips := s.skips + [Conflict(r.path, NotFile, r.candidate)])
    case Changed => s.(modified := s.modified + [r])
    case Gone => s.(vanished := s.vanished + [r])
    case Stopped => s
  }

  lemma TallyTells(rs: seq<Residue>, i: nat, s: Swept, fate: Fate)
    requires i < |rs| && ToldResidue(rs[..i], s) && fate != Stopped
    ensures ToldResidue(rs[..i + 1], Tally(s, rs[i], fate))
  {
    ResiduePathsGrow(rs, i);
    ResiduePathsAppend(s.deleted, rs[i]);
    ResiduePathsAppend(s.modified, rs[i]);
    ResiduePathsAppend(s.vanished, rs[i]);
    assert ConflictPaths(s.skips + [Conflict(rs[i].path, NotFile, rs[i].candidate)]) == ConflictPaths(s.skips) + [rs[i].path];
  }

  lemma GoneMore(t: Worktree, u: Worktree, deleted: seq<Residue>, r: Residue)
    requires GoneOnly(t, u, deleted)
    ensures GoneOnly(t, u - {r.path}, deleted + [r])
  {
    ResiduePathsAppend(deleted, r);
    forall p | p !in ResiduePaths(deleted + [r]) ensures NodeAt(t, p) == NodeAt(u - {r.path}, p) {
      assert p !in ResiduePaths(deleted) && p != r.path;
      assert NodeAt(t, p) == NodeAt(u, p);
    }
  }

  lemma StillThere(rs: seq<Residue>, i: nat, deleted: seq<Residue>, t: Worktree, u: Worktree)
    requires i < |rs| && DistinctPaths(rs) && GoneOnly(t, u, deleted) && forall r :: r in deleted ==> r in rs[..i]
    ensures ProbePath(u, rs[i].path) == Hashed(rs[i].blob) <==> ProbePath(t, rs[i].path) == Hashed(rs[i].blob)
  {
    forall k | 0 <= k < |deleted| ensures deleted[k].path != rs[i].path {
      assert deleted[k] in rs[..i];
    }
    assert rs[i].path !in ResiduePaths(deleted);
    assert NodeAt(t, rs[i].path) == NodeAt(u, rs[i].path);
  }

  lemma ExactlyMore(rs: seq<Residue>, i: nat, was: seq<Residue>, deleted: bool, t: Worktree)
    requires i < |rs| && DistinctPaths(rs) && SweptExactly(rs[..i], was, t)
    requires deleted == (ProbePath(t, rs[i].path) == Hashed(rs[i].blob))
    ensures SweptExactly(rs[..i + 1], if deleted then was + [rs[i]] else was, t)
  {
    var seen, now := rs[..i + 1], if deleted then was + [rs[i]] else was;
    assert seen == rs[..i] + [rs[i]];
    assert rs[i] !in was by {
      forall k | 0 <= k < |rs[..i]| ensures rs[..i][k] != rs[i] { assert rs[k].path != rs[i].path; }
    }
    forall k | 0 <= k < |seen| ensures seen[k] in now <==> ProbePath(t, seen[k].path) == Hashed(seen[k].blob) {
      if k < i { assert rs[..i][k] == seen[k] && seen[k].path != rs[i].path; }
    }
  }

  lemma RemovedOneMore(start: seq<Write>, was: seq<Write>, now: seq<Write>, deleted: seq<Residue>, r: Residue, rs: seq<Residue>, section: nat)
    requires WroteOnly(start, was, ResiduePaths(deleted)) && r in rs
    requires exists w :: RemovesOne(w, r) && w.section == section && now == was + [w]
    ensures WroteOnly(start, now, ResiduePaths(deleted + [r])) && Removes(now[|was|], rs, section) && |now| == |was| + 1
  {
    var w :| RemovesOne(w, r) && w.section == section && now == was + [w];
    assert now[|start|..] == was[|start|..] + [w];
    var i :| 0 <= i < |rs| && rs[i] == r;
    assert RemovesOne(w, rs[i]);
    ResiduePathsAppend(deleted, r);
  }

  /** Where a publishing pass stands after its first n differences. */
  ghost predicate Publishing(ds: seq<Diff>, n: nat, synced: seq<Path>, skipped: seq<Diff>, start: seq<Write>, ws: seq<Write>,
      section: nat, t: Worktree, u: Worktree, quiet: bool)
  {
    && n <= |ds|
    && WroteOnly(start, ws, synced)
    && (forall k :: |start| <= k < |ws| ==> Publishes(ws[k], ds, section))
    && Told(ds[..n], synced, skipped)
    && (quiet ==> SameOff(t, u, synced))
    && (quiet && Steady(ds, t) && AllApart(DiffPaths(ds)) ==>
      skipped == [] && synced == DiffPaths(ds[..n]) && HoldsEntries(u, ds[..n], synced))
  }

  lemma ToldMore(ds: seq<Diff>, i: nat, synced: seq<Path>, skipped: seq<Diff>)
    requires i < |ds| && Told(ds[..i], synced, skipped)
    ensures Told(ds[..i + 1], synced + [ds[i].entry.path], skipped)
    ensures Told(ds[..i + 1], synced, skipped + [ds[i]])
  {
    DiffPathsGrow(ds, i);
    DiffPathsAppend(skipped, ds[i]);
  }

  lemma WroteOneMore(start: seq<Write>, was: seq<Write>, now: seq<Write>, paths: seq<Path>, d: Diff, ds: seq<Diff>, section: nat)
    requires WroteOnly(start, was, paths) && d in ds
    requires exists w :: PublishesOne(w, d) && w.section == section && now == was + [w]
    ensures WroteOnly(start, now, paths + [d.entry.path]) && Publishes(now[|was|], ds, section) && |now| == |was| + 1
  {
    var w :| PublishesOne(w, d) && w.section == section && now == was + [w];
    assert now[|start|..] == was[|start|..] + [w];
    var i :| 0 <= i < |ds| && ds[i] == d;
    assert PublishesOne(w, ds[i]);
  }

  lemma EntryLands(t: Worktree, ds: seq<Diff>, i: nat)
    requires i < |ds| && ds[i].entry.path !in DiffPaths(ds[..i])
    requires HoldsEntries(t, ds[..i], DiffPaths(ds[..i]))
    ensures HoldsEntries(t[ds[i].entry.path := File(ds[i].entry.oid, ds[i].entry.exec)], ds[..i + 1], DiffPaths(ds[..i]) + [ds[i].entry.path])
  {
    forall k | 0 <= k < i ensures ds[k].entry.path != ds[i].entry.path && NodeAt(t, ds[k].entry.path) == Some(File(ds[k].entry.oid, ds[k].entry.exec)) {
      assert DiffPaths(ds[..i])[k] == ds[k].entry.path;
      assert ds[..i][k] == ds[k];
    }
  }

  lemma PublishingDone(ds: seq<Diff>, n: nat, synced: seq<Path>, skipped: seq<Diff>, start: seq<Write>, was: seq<Write>, ws: seq<Write>,
      section: nat, t: Worktree, u: Worktree, v: Worktree, quiet: bool)
    requires n < |ds| && Publishing(ds, n, synced, skipped, start, was, section, t, u, quiet)
    requires exists w :: PublishesOne(w, ds[n]) && w.section == section && ws == was + [w]
    requires quiet ==> v == u[ds[n].entry.path := File(ds[n].entry.oid, ds[n].entry.exec)]
    ensures Publishing(ds, n + 1, synced + [ds[n].entry.path], skipped, start, ws, section, t, v, quiet)
  {
    WroteOneMore(start, was, ws, synced, ds[n], ds, section);
    DiffPathsGrow(ds, n);
    ToldMore(ds, n, synced, skipped);
    if quiet && Steady(ds, t) && AllApart(DiffPaths(ds)) {
      LaterLooksTheSame(t, u, ds, n);
      EntryLands(u, ds, n);
    }
  }

  lemma PublishingSkipped(ds: seq<Diff>, n: nat, synced: seq<Path>, skipped: seq<Diff>, start: seq<Write>, ws: seq<Write>,
      section: nat, t: Worktree, u: Worktree, quiet: bool)
    requires n < |ds| && Publishing(ds, n, synced, skipped, start, ws, section, t, u, quiet)
    requires quiet ==> TargetMoved(ds[n], ProbePath(u, ds[n].entry.path))
    ensures Publishing(ds, n + 1, synced, skipped + [ds[n]], start, ws, section, t, u, quiet)
  {
    ToldMore(ds, n, synced, skipped);
    if quiet && Steady(ds, t) && AllApart(DiffPaths(ds)) { LaterLooksTheSame(t, u, ds, n); }
  }

  /** Where a sweep stands after its first n paths. */
  ghost predicate Progress(rs: seq<Residue>, n: nat, s: Swept, start: seq<Write>, ws: seq<Write>, section: nat, t: Worktree, u: Worktree, quiet: bool)
  {
    && n <= |rs|
    && WroteOnly(start, ws, ResiduePaths(s.deleted))
    && (forall k :: |start| <= k < |ws| ==> Removes(ws[k], rs, section))
    && ToldResidue(rs[..n], s)
    && (quiet ==> GoneOnly(t, u, s.deleted))
    && (quiet && DistinctPaths(rs) ==> SweptExactly(rs[..n], s.deleted, t))
  }

  /** The next write is still the one that was decided. */
  lemma PublishingCalm(ds: seq<Diff>, n: nat, synced: seq<Path>, skipped: seq<Diff>, start: seq<Write>, ws: seq<Write>,
      section: nat, t: Worktree, u: Worktree, quiet: bool)
    requires n < |ds| && Publishing(ds, n, synced, skipped, start, ws, section, t, u, quiet)
    ensures quiet && Steady(ds, t) && AllApart(DiffPaths(ds)) ==> !TargetMoved(ds[n], ProbePath(u, ds[n].entry.path))
  {
    if quiet && Steady(ds, t) && AllApart(DiffPaths(ds)) { LaterLooksTheSame(t, u, ds, n); }
  }

  lemma FewerPublished(ds: seq<Diff>, n: nat, synced: seq<Path>, skipped: seq<Diff>)
    requires n <= |ds| && Told(ds[..n], synced, skipped)
    ensures |synced| <= n
  {
    assert |multiset(DiffPaths(ds[..n]))| == |multiset(synced)| + |multiset(DiffPaths(skipped))|;
  }

  lemma PublishingEnds(ds: seq<Diff>, n: nat, synced: seq<Path>, skipped: seq<Diff>, start: seq<Write>, ws: seq<Write>,
      section: nat, t: Worktree, u: Worktree, quiet: bool)
    requires Publishing(ds, n, synced, skipped, start, ws, section, t, u, quiet)
    ensures |synced| <= |ds| && WroteOnly(start, ws, synced)
    ensures forall k :: |start| <= k < |ws| ==> Publishes(ws[k], ds, section)
    ensures quiet ==> SameOff(t, u, synced)
    ensures n == |ds| ==> Told(ds, synced, skipped)
    ensures n == |ds| && quiet && Steady(ds, t) && AllApart(DiffPaths(ds)) ==>
      skipped == [] && synced == DiffPaths(ds) && HoldsEntries(u, ds, synced)
  {
    FewerPublished(ds, n, synced, skipped);
    if n == |ds| { assert ds[..n] == ds; }
  }

  lemma FewerDeleted(rs: seq<Residue>, n: nat, s: Swept)
    requires n <= |rs| && ToldResidue(rs[..n], s)
    ensures |s.deleted| <= n
  {
    assert |multiset(ResiduePaths(rs[..n]))| >= |multiset(ResiduePaths(s.deleted))|;
  }

  /** No file stands above a residue's path, so each can be looked at. */
  ghost predicate Reachable(rs: seq<Residue>, t: Worktree) {
    forall i :: 0 <= i < |rs| ==> !Above(t, rs[i].path)
  }

  /** The sweep takes files away and adds none. */
  lemma SweptSubset(t1: Worktree, t2: Worktree, deleted: seq<Residue>)
    requires GoneOnly(t1, t2, deleted)
    ensures forall p :: p in t2 ==> p in t1 && t1[p] == t2[p]
    ensures forall p :: p in t1 && p !in ResiduePaths(deleted) ==> p in t2 && t2[p] == t1[p]
  {
    forall p ensures (p in t2 ==> p in t1 && t1[p] == t2[p]) && (p in t1 && p !in ResiduePaths(deleted) ==> p in t2 && t2[p] == t1[p]) {
      if p !in ResiduePaths(deleted) { assert NodeAt(t1, p) == NodeAt(t2, p); }
    }
  }

  lemma StillReachable(rs: seq<Residue>, i: nat, deleted: seq<Residue>, t: Worktree, u: Worktree)
    requires i < |rs| && Reachable(rs, t) && GoneOnly(t, u, deleted)
    ensures !Above(u, rs[i].path) && ProbePath(u, rs[i].path) != ProbeFailed
  {
    SweptSubset(t, u, deleted);
  }

  /** With nobody about, the next residue looks as it did at the start. */
  lemma ProgressCalm(rs: seq<Residue>, n: nat, s: Swept, start: seq<Write>, ws: seq<Write>, section: nat, t: Worktree, u: Worktree, quiet: bool)
    requires n < |rs| && Progress(rs, n, s, start, ws, section, t, u, quiet)
    ensures quiet && DistinctPaths(rs) ==>
      (ProbePath(u, rs[n].path) == Hashed(rs[n].blob) <==> ProbePath(t, rs[n].path) == Hashed(rs[n].blob))
    ensures quiet && Reachable(rs, t) ==> ProbePath(u, rs[n].path) != ProbeFailed
  {
    if quiet && DistinctPaths(rs) { StillThere(rs, n, s.deleted, t, u); }
    if quiet && Reachable(rs, t) { StillReachable(rs, n, s.deleted, t, u); }
  }

  lemma ProgressStep(rs: seq<Residue>, n: nat, s: Swept, start: seq<Write>, was: seq<Write>, ws: seq<Write>, section: nat,
      t: Worktree, u: Worktree, v: Worktree, quiet: bool, fate: Fate)
    requires n < |rs| && Progress(rs, n, s, start, was, section, t, u, quiet) && fate != Stopped
    requires fate == Deleted ==> exists w :: RemovesOne(w, rs[n]) && w.section == section && ws == was + [w]
    requires fate != Deleted ==> ws == was
    requires quiet ==> v == if fate == Deleted then u - {rs[n].path} else u
    requires quiet && DistinctPaths(rs) ==> (fate == Deleted <==> ProbePath(t, rs[n].path) == Hashed(rs[n].blob))
    ensures Progress(rs, n + 1, Tally(s, rs[n], fate), start, ws, section, t, v, quiet)
  {
    TallyTells(rs, n, s, fate);
    if fate == Deleted {
      RemovedOneMore(start, was, ws, s.deleted, rs[n], rs, section);
      if quiet { GoneMore(t, u, s.deleted, rs[n]); }
    }
    if quiet && DistinctPaths(rs) { ExactlyMore(rs, n, s.deleted, fate == Deleted, t); }
  }

  // --- the second scan ------------------------------------------------------

  lemma FrontApart(entries: seq<Entry>)
    requires |entries| > 0 && AllApart(EntryPaths(entries))
    ensures AllApart(EntryPaths(entries[..|entries| - 1]))
  {
    var front := entries[..|entries| - 1];
    assert forall i :: 0 <= i < |front| ==> EntryPaths(front)[i] == EntryPaths(entries)[i];
  }

  ghost predicate ApartFrom(paths: seq<Path>, p: Path) {
    forall i :: 0 <= i < |paths| ==> Apart(paths[i], p)
  }

  lemma ApartAppend(paths: seq<Path>, p: Path)
    requires AllApart(paths) && ApartFrom(paths, p)
    ensures AllApart(paths + [p])
  {
  }

  lemma DivergencePaths(entries: seq<Entry>, t: Worktree, p: Path)
    requires p in DiffPaths(Divergence(entries, t))
    ensures p in EntryPaths(entries)
  {
    DivergenceHolds(entries, t);
    var ds := Divergence(entries, t);
    var i :| 0 <= i < |ds| && DiffPaths(ds)[i] == p;
    var k :| 0 <= k < |entries| && entries[k] == ds[i].entry;
    assert EntryPaths(entries)[k] == p;
  }

  lemma LastApart(entries: seq<Entry>, t: Worktree)
    requires |entries| > 0 && AllApart(EntryPaths(entries))
    ensures ApartFrom(DiffPaths(Divergence(entries[..|entries| - 1], t)), entries[|entries| - 1].path)
  {
    var n := |entries| - 1;
    var front := entries[..n];
    var ds := DiffPaths(Divergence(front, t));
    forall i | 0 <= i < |ds| ensures Apart(ds[i], entries[n].path) {
      DivergencePaths(front, t, ds[i]);
      var k :| 0 <= k < n && EntryPaths(front)[k] == ds[i];
      assert EntryPaths(entries)[k] == ds[i] && EntryPaths(entries)[n] == entries[n].path;
    }
  }

  lemma {:induction false} DivergenceApart(entries: seq<Entry>, t: Worktree)
    requires AllApart(EntryPaths(entries))
    ensures AllApart(DiffPaths(Divergence(entries, t)))
  {
    if |entries| > 0 {
      var n := |entries| - 1;
      FrontApart(entries);
      DivergenceApart(entries[..n], t);
      match Classify(entries[n], t)
      case None =>
      case Some(d) =>
        LastApart(entries, t);
        DiffPathsAppend(Divergence(entries[..n], t), d);
        ApartAppend(DiffPaths(Divergence(entries[..n], t)), entries[n].path);
    }
  }

  lemma FilterApart(ds: seq<Diff>, f: Diff -> bool)
    requires AllApart(DiffPaths(ds))
    ensures AllApart(DiffPaths(Filter(ds, f)))
    ensures forall d :: d in Filter(ds, f) <==> d in ds && f(d)
  {
    var at := FilterPlaces(ds, f);
    var kept := Filter(ds, f);
    forall i, j | 0 <= i < |kept| && 0 <= j < |kept| && i != j ensures Apart(DiffPaths(kept)[i], DiffPaths(kept)[j]) {
      assert at[i] != at[j];
      assert Apart(DiffPaths(ds)[at[i]], DiffPaths(ds)[at[j]]);
    }
    forall d | d in ds && f(d) ensures d in kept {
      var k :| 0 <= k < |ds| && ds[k] == d;
      assert k in at;
      var i :| 0 <= i < |at| && at[i] == k;
      assert kept[i] == d;
    }
    forall d | d in kept ensures d in ds && f(d) {
      var i :| 0 <= i < |kept| && kept[i] == d;
      assert at[i] in at;
    }
  }

  /** What a run decides on: the scan's differences that are not unsupported. */
  lemma DecidableIs(entries: seq<Entry>, t: Worktree)
    requires AllApart(EntryPaths(entries))
    ensures AllApart(DiffPaths(Decidable(entries, t)))
    ensures forall d :: d in Decidable(entries, t) <==> d in Divergence(entries, t) && d.state != Unsupported
  {
    DivergenceApart(entries, t);
    FilterApart(Divergence(entries, t), (d: Diff) => d.state != Unsupported);
  }

  predicate InDiffs(e: Entry, t: Worktree, ds: seq<Diff>) {
    Classify(e, t).Some? && Classify(e, t).value in ds
  }

  lemma DecidableOf(entries: seq<Entry>, t: Worktree, i: nat)
    requires AllApart(EntryPaths(entries)) && i < |entries|
    ensures Diverges(entries[i], t) && Classify(entries[i], t).value.state != Unsupported <==>
      InDiffs(entries[i], t, Decidable(entries, t))
  {
    DecidableIs(entries, t);
    DivergenceHolds(entries, t);
  }

  /** Each of them was classified against the tree as it stands. */
  lemma DecidableClassified(entries: seq<Entry>, t: Worktree, k: nat)
    requires AllApart(EntryPaths(entries)) && k < |Decidable(entries, t)|
    ensures Classify(Decidable(entries, t)[k].entry, t) == Some(Decidable(entries, t)[k])
    ensures Decidable(entries, t)[k].state != Unsupported && Decidable(entries, t)[k].entry in entries
  {
    var all, ds := Divergence(entries, t), Decidable(entries, t);
    DecidableIs(entries, t);
    DivergenceHolds(entries, t);
    assert ds[k] in ds;
    var m :| 0 <= m < |all| && all[m] == ds[k];
  }

  lemma DecidableSteady(entries: seq<Entry>, t: Worktree)
    requires AllApart(EntryPaths(entries))
    ensures Steady(Decidable(entries, t), t) && AllApart(DiffPaths(Decidable(entries, t)))
  {
    DecidableIs(entries, t);
    var ds := Decidable(entries, t);
    forall k | 0 <= k < |ds| ensures !TargetMoved(ds[k], ProbePath(t, ds[k].entry.path)) {
      DecidableClassified(entries, t, k);
    }
  }

  /** A calm run, in its two halves: published, then swept. */
  ghost predicate CalmRun(entries: seq<Entry>, residue: seq<Residue>, t0: Worktree, t1: Worktree, t2: Worktree, r: Report) {
    var ds := Decidable(entries, t0);
    && Physical(t0) && AllApart(EntryPaths(entries))
    && (forall i :: 0 <= i < |entries| ==> Readable(entries[i], t0))
    && FullyTold(ds, r.synced, r.conflicts, []) && HoldsEntries(t1, ds, r.synced) && SameOff(t0, t1, r.synced)
    && GoneOnly(t1, t2, r.swept.deleted) && SweptOrRefused(residue, r.swept.deleted, r.refused, t1)
  }

  lemma {:induction false} ApartOnce(paths: seq<Path>, p: Path)
    requires AllApart(paths) && p in paths
    ensures multiset(paths)[p] == 1
  {
    var n := |paths| - 1;
    assert paths == paths[..n] + [paths[n]];
    if p == paths[n] {
      assert p !in paths[..n] by {
        forall k | 0 <= k < n ensures paths[k] != p { assert Apart(paths[k], paths[n]); }
      }
    } else {
      ApartOnce(paths[..n], p);
    }
  }

  lemma SameEntry(entries: seq<Entry>, i: nat, j: nat)
    requires AllApart(EntryPaths(entries)) && i < |entries| && j < |entries| && entries[i].path == entries[j].path
    ensures i == j
  {
    assert EntryPaths(entries)[i] == EntryPaths(entries)[j];
  }

  /** With nothing skipped, a difference is published or refused, not both. */
  lemma ToldOnce(ds: seq<Diff>, k: nat, synced: seq<Path>, conflicts: seq<Conflict>)
    requires k < |ds| && AllApart(DiffPaths(ds)) && FullyTold(ds, synced, conflicts, [])
    ensures ds[k].entry.path in synced <==> ds[k].entry.path !in ConflictPaths(conflicts)
  {
    var p := ds[k].entry.path;
    assert DiffPaths(ds)[k] == p;
    ApartOnce(DiffPaths(ds), p);
    assert multiset(DiffPaths([])) == multiset{};
    assert multiset(synced)[p] + multiset(ConflictPaths(conflicts))[p] == 1;
  }

  lemma DiffOfEntry(entries: seq<Entry>, t: Worktree, i: nat, k: nat)
    requires AllApart(EntryPaths(entries)) && i < |entries| && k < |Decidable(entries, t)|
    requires Decidable(entries, t)[k].entry.path == entries[i].path
    ensures Decidable(entries, t)[k].entry == entries[i] && InDiffs(entries[i], t, Decidable(entries, t))
  {
    DecidableClassified(entries, t, k);
    var j :| 0 <= j < |entries| && entries[j] == Decidable(entries, t)[k].entry;
    SameEntry(entries, i, j);
  }

  /** An entry's path was published exactly when it was decided on and not refused. */
  lemma SyncedExactly(entries: seq<Entry>, residue: seq<Residue>, t0: Worktree, t1: Worktree, t2: Worktree, r: Report, i: nat)
    requires CalmRun(entries, residue, t0, t1, t2, r) && i < |entries|
    ensures entries[i].path in r.synced <==>
      InDiffs(entries[i], t0, Decidable(entries, t0)) && entries[i].path !in ConflictPaths(r.conflicts)
    ensures NodeAt(t1, entries[i].path) ==
      if entries[i].path in r.synced then Some(File(entries[i].oid, entries[i].exec)) else NodeAt(t0, entries[i].path)
  {
    var ds, e := Decidable(entries, t0), entries[i];
    DecidableIs(entries, t0);
    if InDiffs(e, t0, ds) {
      var k :| 0 <= k < |ds| && ds[k] == Classify(e, t0).value;
      ToldOnce(ds, k, r.synced, r.conflicts);
      if e.path in r.synced { assert ds[k].entry == e; }
    }
    if e.path in r.synced {
      SyncedIsTold(ds, r.synced, r.conflicts, [], e.path);
      var k :| 0 <= k < |ds| && DiffPaths(ds)[k] == e.path;
      DiffOfEntry(entries, t0, i, k);
    }
  }

  /** A published path held an ordinary file, or nothing with nothing in the way. */
  lemma PublishedPlace(entries: seq<Entry>, residue: seq<Residue>, t0: Worktree, t1: Worktree, t2: Worktree, r: Report, p: Path)
    requires CalmRun(entries, residue, t0, t1, t2, r) && p in r.synced
    ensures p in t0 || (!HasBeneath(t0, p) && !Above(t0, p))
    ensures p in EntryPaths(entries)
  {
    var ds := Decidable(entries, t0);
    SyncedIsTold(ds, r.synced, r.conflicts, [], p);
    var k :| 0 <= k < |ds| && DiffPaths(ds)[k] == p;
    DecidableClassified(entries, t0, k);
    var j :| 0 <= j < |entries| && entries[j] == ds[k].entry;
    assert EntryPaths(entries)[j] == p;
  }

  lemma PublishedApart(entries: seq<Entry>, residue: seq<Residue>, t0: Worktree, t1: Worktree, t2: Worktree, r: Report, p: Path, q: Path)
    requires CalmRun(entries, residue, t0, t1, t2, r) && p in r.synced && q in r.synced && p != q
    ensures Apart(p, q)
  {
    PublishedPlace(entries, residue, t0, t1, t2, r, p);
    PublishedPlace(entries, residue, t0, t1, t2, r, q);
    var i :| 0 <= i < |entries| && EntryPaths(entries)[i] == p;
    var j :| 0 <= j < |entries| && EntryPaths(entries)[j] == q;
    assert Apart(EntryPaths(entries)[i], EntryPaths(entries)[j]);
  }

  /** What was published stood in nobody's way: no file came to lie in a file. */
  lemma PublishedPhysical(entries: seq<Entry>, residue: seq<Residue>, t0: Worktree, t1: Worktree, t2: Worktree, r: Report)
    requires CalmRun(entries, residue, t0, t1, t2, r)
    ensures Physical(t1)
  {
    forall p, q | p in t1 && q in t1 ensures !Beneath(p, q) {
      if p in r.synced { PublishedPlace(entries, residue, t0, t1, t2, r, p); }
      if q in r.synced { PublishedPlace(entries, residue, t0, t1, t2, r, q); }
      if p !in r.synced { assert NodeAt(t0, p) == NodeAt(t1, p); }
      if q !in r.synced { assert NodeAt(t0, q) == NodeAt(t1, q); }
      if p in r.synced && q in r.synced && p != q { PublishedApart(entries, residue, t0, t1, t2, r, p, q); }
    }
  }

  lemma BeneathTransitive(a: Path, b: Path, c: Path)
    requires Beneath(a, b) && Beneath(b, c)
    ensures Beneath(a, c)
  {
    assert a + "/" == c[..|a| + 1];
  }

  /** What was deleted was an ordinary file right before. */
  lemma DeletedWasFile(residue: seq<Residue>, deleted: seq<Residue>, refused: seq<Conflict>, t1: Worktree, p: Path)
    requires SweptOrRefused(residue, deleted, refused, t1) && p in ResiduePaths(deleted)
    ensures p in t1 && t1[p].File?
  {
    var k :| 0 <= k < |deleted| && ResiduePaths(deleted)[k] == p;
    assert deleted[k] in deleted;
    var i :| 0 <= i < |residue| && residue[i] == deleted[k];
  }

  /** A file that is gone diverges. */
  lemma GoneDiverges(t1: Worktree, t2: Worktree, e: Entry)
    requires Physical(t1) && e.path in t1 && e.path !in t2 && forall p :: p in t2 ==> p in t1
    ensures Diverges(e, t2)
  {
    assert !Above(t2, e.path);
  }

  lemma NoFileAbove(t0: Worktree, t1: Worktree, p: Path, q: Path, synced: seq<Path>)
    requires Physical(t0) && p !in t0 && q in t0 && Lstat(t0, p) != Failed
    ensures !Beneath(q, p)
  {
    if Beneath(q, p) {
      assert Above(t0, p);
      var x :| x in t0 && Beneath(p, x);
      BeneathTransitive(q, p, x);
    }
  }

  /** A path that held no file, then or now, diverges too. */
  lemma AbsentDiverges(entries: seq<Entry>, residue: seq<Residue>, t0: Worktree, t1: Worktree, t2: Worktree, r: Report, i: nat)
    requires CalmRun(entries, residue, t0, t1, t2, r) && i < |entries| && entries[i].path !in t1 && entries[i].path !in t2
    requires Physical(t1) && entries[i].path !in r.synced && forall p :: p in t2 ==> p in t1
    ensures Diverges(entries[i], t0) && Diverges(entries[i], t2)
  {
    var e, p := entries[i], entries[i].path;
    assert NodeAt(t0, p) == NodeAt(t1, p);
    if e.regular {
      forall q | q in t2 ensures !Beneath(q, p) {
        if q in r.synced {
          PublishedPlace(entries, residue, t0, t1, t2, r, q);
          var j :| 0 <= j < |entries| && EntryPaths(entries)[j] == q;
          assert EntryPaths(entries)[i] == p;
          assert Apart(EntryPaths(entries)[j], EntryPaths(entries)[i]);
        } else {
          assert NodeAt(t0, q) == NodeAt(t1, q);
          NoFileAbove(t0, t1, p, q, r.synced);
        }
      }
      assert !Above(t2, p);
    }
  }

  /** One entry after a calm run. */
  lemma EntryAfter(entries: seq<Entry>, residue: seq<Residue>, t0: Worktree, t1: Worktree, t2: Worktree, r: Report, i: nat)
    requires CalmRun(entries, residue, t0, t1, t2, r) && i < |entries|
    ensures Diverges(entries[i], t2) <==> LeftOver(entries[i], t0, r) || entries[i].path in ResiduePaths(r.swept.deleted)
  {
    var e, p := entries[i], entries[i].path;
    PublishedPhysical(entries, residue, t0, t1, t2, r);
    SyncedExactly(entries, residue, t0, t1, t2, r, i);
    DecidableOf(entries, t0, i);
    SweptSubset(t1, t2, r.swept.deleted);
    if p in ResiduePaths(r.swept.deleted) {
      DeletedWasFile(residue, r.swept.deleted, r.refused, t1, p);
      GoneDiverges(t1, t2, e);
    } else if p in t1 {
      assert Lstat(t2, p) == if t1[p].File? then Regular(t1[p].oid, t1[p].exec) else NotRegular;
    } else {
      AbsentDiverges(entries, residue, t0, t1, t2, r, i);
    }
  }

  lemma SweepableExactly(entries: seq<Entry>, residue: seq<Residue>, t0: Worktree, t1: Worktree, t2: Worktree, r: Report, i: nat, k: nat)
    requires CalmRun(entries, residue, t0, t1, t2, r) && i < |entries| && k < |residue|
    requires Sweepable(entries[i], residue[k], t0, r)
    ensures residue[k] in r.swept.deleted <==> residue[k].blob == entries[i].oid
  {
    SyncedExactly(entries, residue, t0, t1, t2, r, i);
    DecidableOf(entries, t0, i);
  }

  lemma RescanExactly(entries: seq<Entry>, residue: seq<Residue>, t0: Worktree, t1: Worktree, t2: Worktree, r: Report)
    requires CalmRun(entries, residue, t0, t1, t2, r)
    ensures Rescanned(entries, t0, t2, r) && DeletedIntegrated(entries, residue, t0, r)
  {
    forall i | 0 <= i < |entries|
      ensures Diverges(entries[i], t2) <==> LeftOver(entries[i], t0, r) || entries[i].path in ResiduePaths(r.swept.deleted)
    {
      EntryAfter(entries, residue, t0, t1, t2, r, i);
    }
    forall i, k | 0 <= i < |entries| && 0 <= k < |residue| && Sweepable(entries[i], residue[k], t0, r)
      ensures residue[k] in r.swept.deleted <==> residue[k].blob == entries[i].oid
    {
      SweepableExactly(entries, residue, t0, t1, t2, r, i, k);
    }
  }

  // --- what a caller can tell beforehand ------------------------------------

  /** Sync can do nothing about e, or may not. */
  predicate StaysBehind(e: Entry, t: Worktree, c: Coord) {
    Diverges(e, t) && (Classify(e, t).value.state == Unsupported || ConflictFor(e.path, c).Some?)
  }

  /** Nobody holds e, and a residue names its path with integration's own bytes. */
  predicate TakenAway(e: Entry, residue: seq<Residue>, c: Coord) {
    ConflictFor(e.path, c).None? && exists k | 0 <= k < |residue| :: residue[k].path == e.path && residue[k].blob == e.oid
  }

  /** A second scan diverges at exactly those entries. */
  ghost predicate Foreseen(entries: seq<Entry>, residue: seq<Residue>, was: Worktree, now: Worktree, c: Coord) {
    forall i :: 0 <= i < |entries| ==>
      (Diverges(entries[i], now) <==> StaysBehind(entries[i], was, c) || TakenAway(entries[i], residue, c))
  }

  /** The run was judged by c throughout: what it refused c refuses, and c refuses
      nothing it wrote or removed. */
  ghost predicate JudgedBy(r: Report, c: Coord) {
    && (forall p :: p in ConflictPaths(r.conflicts) || p in ConflictPaths(r.refused) ==> ConflictFor(p, c).Some?)
    && (forall p :: p in r.synced || p in ResiduePaths(r.swept.deleted) ==> ConflictFor(p, c).None?)
  }

  lemma LeftOverForeseen(entries: seq<Entry>, residue: seq<Residue>, t0: Worktree, t1: Worktree, t2: Worktree, r: Report, c: Coord, i: nat)
    requires CalmRun(entries, residue, t0, t1, t2, r) && JudgedBy(r, c) && i < |entries|
    ensures LeftOver(entries[i], t0, r) <==> StaysBehind(entries[i], t0, c)
  {
    SyncedExactly(entries, residue, t0, t1, t2, r, i);
    DecidableOf(entries, t0, i);
  }

  /** An entry that is in order once sync has published is taken away exactly by a
      residue that names it with its own bytes. */
  lemma TakenForeseen(entries: seq<Entry>, residue: seq<Residue>, t0: Worktree, t1: Worktree, t2: Worktree, r: Report, c: Coord, i: nat)
    requires CalmRun(entries, residue, t0, t1, t2, r) && JudgedBy(r, c) && i < |entries| && !LeftOver(entries[i], t0, r)
    ensures entries[i].path in ResiduePaths(r.swept.deleted) <==> TakenAway(entries[i], residue, c)
  {
    var p := entries[i].path;
    if p in ResiduePaths(r.swept.deleted) {
      var k :| 0 <= k < |r.swept.deleted| && ResiduePaths(r.swept.deleted)[k] == p;
      assert r.swept.deleted[k] in r.swept.deleted;
      var j :| 0 <= j < |residue| && residue[j] == r.swept.deleted[k];
      assert Sweepable(entries[i], residue[j], t0, r) by { assert p !in ConflictPaths(r.refused); }
      SweepableExactly(entries, residue, t0, t1, t2, r, i, j);
    }
    if TakenAway(entries[i], residue, c) {
      var j :| 0 <= j < |residue| && residue[j].path == p && residue[j].blob == entries[i].oid;
      assert p !in ConflictPaths(r.refused);
      SweepableExactly(entries, residue, t0, t1, t2, r, i, j);
      var k :| 0 <= k < |r.swept.deleted| && r.swept.deleted[k] == residue[j];
      assert ResiduePaths(r.swept.deleted)[k] == p;
    }
  }

  /** While the coordination state stays c, what an undisturbed run leaves diverging can
      be told from its inputs: what it cannot or may not write, and what a rejected
      candidate once wrote with integration's own bytes. Without such a residue only
      conflicts and unsupported paths are left. */
  lemma RescanForeseen(entries: seq<Entry>, residue: seq<Residue>, t0: Worktree, t1: Worktree, t2: Worktree, r: Report, c: Coord)
    requires CalmRun(entries, residue, t0, t1, t2, r) && JudgedBy(r, c)
    ensures Foreseen(entries, residue, t0, t2, c)
    ensures (forall i :: 0 <= i < |entries| ==> !TakenAway(entries[i], residue, c)) ==>
      forall i :: 0 <= i < |entries| ==> (Diverges(entries[i], t2) <==> StaysBehind(entries[i], t0, c))
  {
    forall i | 0 <= i < |entries|
      ensures Diverges(entries[i], t2) <==> StaysBehind(entries[i], t0, c) || TakenAway(entries[i], residue, c)
    {
      EntryAfter(entries, residue, t0, t1, t2, r, i);
      LeftOverForeseen(entries, residue, t0, t1, t2, r, c, i);
      if !LeftOver(entries[i], t0, r) { TakenForeseen(entries, residue, t0, t1, t2, r, c, i); }
    }
  }

  /** The report of a run over one file that was in order and one residue it deleted. */
  function SweptAlone(x: Residue): Report {
    Report([], [], [], Swept([x], [], [], []), [], [])
  }

  lemma NothingBeneathItself(p: Path)
    ensures !Beneath(p, p)
  {
  }

  /** And it happens: a calm run takes away a file that was in order. Integration holds
      it, the index does not know it yet, and a rejected candidate once wrote the same
      bytes. */
  lemma IntegratedFileDeleted(e: Entry, candidate: string)
    requires e.regular
    ensures var t0, x := map[e.path := File(e.oid, e.exec)], Residue(e.path, candidate, e.oid);
      CalmRun([e], [x], t0, t0, map[], SweptAlone(x)) && !Diverges(e, t0) && Diverges(e, map[])
  {
    var t0, x := map[e.path := File(e.oid, e.exec)], Residue(e.path, candidate, e.oid);
    NothingBeneathItself(e.path);
    assert Decidable([e], t0) == [] by {
      assert [e][..0] == [];
      assert Divergence([e], t0) == [];
    }
    assert ResiduePaths([x]) == [e.path];
    assert DiffPaths([]) == [];
    assert [x][0] == x;
  }

  // --- sections -------------------------------------------------------------

  /** The new writes are one section's, and few. */
  ghost predicate InSection(start: seq<Write>, ws: seq<Write>, section: nat, most: nat) {
    && start <= ws && |ws| <= |start| + most
    && forall i :: |start| <= i < |ws| ==> ws[i].section == section
  }

  /** The new writes fall into sections from one moment on, none of more than sixteen. */
  ghost predicate Batched(start: seq<Write>, ws: seq<Write>, from: nat, upto: nat) {
    && start <= ws && from <= upto
    && (forall i :: |start| <= i < |ws| ==> from <= ws[i].section < upto)
    && (forall i :: |start| <= i && i + 16 < |ws| ==> ws[i].section != ws[i + 16].section)
  }

  /** The sections it takes for n paths, sixteen in each but the last. */
  function SectionsFor(n: nat): nat {
    (n + 15) / 16
  }

  /** A batch of n took exactly the sections it takes, or fewer and stopped. */
  ghost predicate Sectioned(done: bool, was: nat, now: nat, n: nat) {
    was <= now <= was + (n + 15) / 16 && (done ==> now == was + (n + 15) / 16)
  }

  lemma NextSection(lo: nat, hi: nat, n: nat)
    requires lo < n && lo % 16 == 0 && hi == if lo + 16 < n then lo + 16 else n
    ensures SectionsFor(hi) == SectionsFor(lo) + 1 <= SectionsFor(n) && (hi % 16 == 0 || hi == n)
  {
  }

  lemma WroteInSection(start: seq<Write>, ws: seq<Write>, paths: seq<Path>, section: nat, most: nat)
    requires WroteOnly(start, ws, paths) && |paths| <= most
    requires forall i :: |start| <= i < |ws| ==> ws[i].section == section
    ensures InSection(start, ws, section, most)
  {
    assert |WrittenPaths(ws[|start|..])| == |paths|;
  }

  lemma BatchedMore(start: seq<Write>, was: seq<Write>, ws: seq<Write>, from: nat, section: nat, upto: nat, most: nat)
    requires Batched(start, was, from, section) && InSection(was, ws, section, most) && most <= BATCH && section < upto
    ensures Batched(start, ws, from, upto)
  {
    forall i | |start| <= i && i + BATCH < |ws| ensures ws[i].section != ws[i + BATCH].section {
      if i + BATCH >= |was| {
        assert i < |was| && ws[i] == was[i];
      } else {
        assert ws[i] == was[i] && ws[i + BATCH] == was[i + BATCH];
      }
    }
  }

  lemma BatchedOn(start: seq<Write>, was: seq<Write>, ws: seq<Write>, from: nat, middle: nat, upto: nat)
    requires Batched(start, was, from, middle) && Batched(was, ws, middle, upto)
    ensures Batched(start, ws, from, upto)
  {
    forall i | |start| <= i && i + BATCH < |ws| ensures ws[i].section != ws[i + BATCH].section {
      if i < |was| {
        assert ws[i] == was[i];
        if i + BATCH < |was| { assert ws[i + BATCH] == was[i + BATCH]; }
      }
    }
  }

  lemma PartedFewer(paths: seq<Path>, clear: seq<Path>, conflicts: seq<Conflict>, c: Coord)
    requires Parted(paths, clear, conflicts, c)
    ensures |clear| <= |paths|
  {
    assert |multiset(paths)| == |multiset(clear)| + |multiset(ConflictPaths(conflicts))|;
  }

  // --- a run nothing stands in the way of -----------------------------------

  /** No file stands above a residue, and integration will put none there; every entry
      can be looked at. */
  ghost predicate Unobstructed(entries: seq<Entry>, residue: seq<Residue>, t: Worktree) {
    && (forall i :: 0 <= i < |entries| ==> Readable(entries[i], t))
    && Reachable(residue, t)
    && forall i, k :: 0 <= i < |entries| && 0 <= k < |residue| ==> !Beneath(entries[i].path, residue[k].path)
  }

  lemma ReachableSlice(rs: seq<Residue>, lo: nat, hi: nat, deleted: seq<Residue>, t: Worktree, u: Worktree)
    requires lo <= hi <= |rs| && Reachable(rs, t) && GoneOnly(t, u, deleted)
    ensures Reachable(rs[lo..hi], u)
  {
    forall i | 0 <= i < |rs[lo..hi]| ensures !Above(u, rs[lo..hi][i].path) {
      StillReachable(rs, lo + i, deleted, t, u);
    }
  }

  lemma ReachablePart(rs: seq<Residue>, part: seq<Residue>, t: Worktree)
    requires Reachable(rs, t) && forall i :: 0 <= i < |part| ==> part[i] in rs
    ensures Reachable(part, t)
  {
    forall i | 0 <= i < |part| ensures !Above(t, part[i].path) {
      var k :| 0 <= k < |rs| && rs[k] == part[i];
    }
  }

  /** Publishing put no file above a residue. */
  lemma PublishedReachable(entries: seq<Entry>, residue: seq<Residue>, t0: Worktree, t1: Worktree, ds: seq<Diff>,
      synced: seq<Path>, conflicts: seq<Conflict>, skips: seq<Diff>)
    requires AllApart(EntryPaths(entries)) && Unobstructed(entries, residue, t0) && ds == Decidable(entries, t0)
    requires FullyTold(ds, synced, conflicts, skips) && SameOff(t0, t1, synced)
    ensures Reachable(residue, t1)
  {
    forall k | 0 <= k < |residue| ensures !Above(t1, residue[k].path) {
      forall q | q in t1 ensures !Beneath(q, residue[k].path) {
        if q in synced {
          SyncedIsTold(ds, synced, conflicts, skips, q);
          var m :| 0 <= m < |ds| && DiffPaths(ds)[m] == q;
          DecidableClassified(entries, t0, m);
          var i :| 0 <= i < |entries| && entries[i] == ds[m].entry;
          assert entries[i].path == q;
        } else {
          assert NodeAt(t0, q) == NodeAt(t1, q);
        }
      }
    }
  }

  /** Where a sweep stands after whole batches: what it wrote, whatever happened. */
  ghost predicate SweptWrites(s: Swept, start: seq<Write>, ws: seq<Write>, from: nat, upto: nat, t: Worktree, u: Worktree, quiet: bool) {
    && WroteOnly(start, ws, ResiduePaths(s.deleted)) && Batched(start, ws, from, upto)
    && (quiet ==> GoneOnly(t, u, s.deleted))
  }

  /** And what it has told of its first n paths. */
  ghost predicate SweptTold(rs: seq<Residue>, n: nat, s: Swept, conflicts: seq<Conflict>, t: Worktree, quiet: bool)
    requires n <= |rs|
  {
    && FullySwept(rs[..n], s, conflicts)
    && (quiet && DistinctPaths(rs) ==> SweptOrRefused(rs[..n], s.deleted, conflicts, t))
  }

  ghost predicate Sweeping(rs: seq<Residue>, n: nat, s: Swept, conflicts: seq<Conflict>, start: seq<Write>, ws: seq<Write>,
      from: nat, upto: nat, t: Worktree, u: Worktree, quiet: bool)
  {
    n <= |rs| && SweptWrites(s, start, ws, from, upto, t, u, quiet) && SweptTold(rs, n, s, conflicts, t, quiet)
  }

  lemma NextSweep(rs: seq<Residue>, lo: nat, hi: nat, s: Swept, conflicts: seq<Conflict>, start: seq<Write>, ws: seq<Write>,
      from: nat, upto: nat, t: Worktree, u: Worktree, quiet: bool)
    requires Sweeping(rs, lo, s, conflicts, start, ws, from, upto, t, u, quiet) && lo <= hi <= |rs|
    ensures quiet && DistinctPaths(rs) ==> DistinctPaths(rs[lo..hi])
    ensures quiet && Reachable(rs, t) ==> Reachable(rs[lo..hi], u)
  {
    if DistinctPaths(rs) { SliceDistinct(rs, lo, hi); }
    if quiet && Reachable(rs, t) { ReachableSlice(rs, lo, hi, s.deleted, t, u); }
  }

  /** One more batch's writes. */
  lemma SweepOnward(lo: nat, hi: nat, s: Swept, more: Swept, start: seq<Write>, was: seq<Write>, ws: seq<Write>,
      from: nat, section: nat, upto: nat, t: Worktree, u: Worktree, v: Worktree, quiet: bool)
    requires SweptWrites(s, start, was, from, section, t, u, quiet)
    requires lo <= hi <= lo + BATCH && WroteOnly(was, ws, ResiduePaths(more.deleted)) && InSection(was, ws, section, hi - lo)
    requires section < upto && (quiet ==> GoneOnly(u, v, more.deleted))
    ensures SweptWrites(Joined(s, more), start, ws, from, upto, t, v, quiet)
  {
    PathsJoined(s.deleted, more.deleted);
    WroteJoined(start, was, ws, ResiduePaths(s.deleted), ResiduePaths(more.deleted));
    BatchedMore(start, was, ws, from, section, upto, hi - lo);
    if quiet { GoneJoined(t, u, v, s.deleted, more.deleted); }
  }

  /** And what it told. */
  lemma SweepJoined(rs: seq<Residue>, lo: nat, hi: nat, s: Swept, conflicts: seq<Conflict>, more: Swept, c: seq<Conflict>,
      t: Worktree, u: Worktree, quiet: bool)
    requires lo <= hi <= |rs| && SweptTold(rs, lo, s, conflicts, t, quiet) && FullySwept(rs[lo..hi], more, c)
    requires quiet ==> GoneOnly(t, u, s.deleted)
    requires quiet && DistinctPaths(rs) ==> SweptOrRefused(rs[lo..hi], more.deleted, c, u)
    ensures SweptTold(rs, hi, Joined(s, more), conflicts + c, t, quiet)
  {
    SweptJoined(rs, lo, hi, s, conflicts, more, c);
    if quiet && DistinctPaths(rs) { RefusedJoined(rs, lo, hi, s, conflicts, more, c, t, u); }
  }
}
