/** loto sync, the part that acts: batches of paths, each decided and carried out in
    its own section, beside peers that write whenever they like. Probing a path and
    then renaming over it or removing it is one step here. */
module SyncRuns {
  import opened Options
  import opened Paths
  import opened Filters
  import opened SyncDecisions
  import opened SyncAccounts

  class Checkout {
    const peers: nat -> seq<(Path, Option<Node>)>
    const faults: nat -> bool
    const coord: nat -> Coord
    var tree: Worktree
    var clock: nat
    ghost var writes: seq<Write>
    ghost var sections: nat

    /** Nobody else touches the tree. */
    ghost predicate Calm() {
      forall n :: peers(n) == []
    }

    /** Nothing fails for reasons of its own. */
    ghost predicate Smooth() {
      forall n :: !faults(n)
    }

    /** Nobody interferes, nothing fails, and integration stays put. */
    ghost predicate Untroubled(expected: string) {
      Calm() && Smooth() && forall n :: coord(n).integration == Some(expected)
    }

    /** The locks, the claims and integration stay as they are. */
    ghost predicate Constant() {
      forall n :: coord(n) == coord(0)
    }

    /** The section's own reads refuse nothing about w, and integration stands. */
    ghost predicate Authorized(w: Write, expected: string) {
      coord(w.section).integration == Some(expected) && ConflictFor(w.path, coord(w.section)).None?
    }

    /** Peers write what they like. */
    method Interfere()
      modifies this`tree, this`clock
      ensures clock == old(clock) + 1 && (Calm() ==> tree == old(tree))
    {
      var edits := peers(clock);
      clock := clock + 1;
      for i := 0 to |edits|
        invariant clock == old(clock) + 1 && (Calm() ==> tree == old(tree))
      {
        var (p, node) := edits[i];
        tree := if node.Some? then tree[p := node.value] else tree - {p};
      }
    }

    /** Whether the next operation fails for reasons of its own. */
    method Falters() returns (bad: bool)
      modifies this`clock
      ensures clock == old(clock) + 1 && bad == faults(old(clock))
    {
      bad := faults(clock);
      clock := clock + 1;
    }

    /** One path: stage, probe, rename. done is true when the file was written, even
        if the step then failed. */
    method ApplyOne(d: Diff, section: nat) returns (done: bool, skip: bool, ok: bool)
      modifies this`tree, this`clock, this`writes
      ensures done ==> exists w :: PublishesOne(w, d) && w.section == section && writes == old(writes) + [w]
      ensures !done ==> writes == old(writes)
      ensures ok ==> done != skip
      ensures skip ==> ok && !done
      ensures Calm() ==> tree == if done then old(tree)[d.entry.path := File(d.entry.oid, d.entry.exec)] else old(tree)
      ensures Calm() && !TargetMoved(d, ProbePath(old(tree), d.entry.path)) ==> !skip && (Smooth() ==> done && ok)
      ensures clock > old(clock)
    {
      done, skip, ok := false, false, false;
      var badStage := Falters();
      if badStage { return; }
      Interfere();
      var p := d.entry.path;
      var probe := ProbePath(tree, p);
      if probe == ProbeFailed { return; }
      if TargetMoved(d, probe) { return false, true, true; }
      var badRename := Falters();
      if badRename { return; }
      ghost var w := Write(p, NodeAt(tree, p), Some(File(d.entry.oid, d.entry.exec)), section);
      writes := writes + [w];
      assert PublishesOne(w, d);
      tree := tree[p := File(d.entry.oid, d.entry.exec)];
      done := true;
      var badSync := Falters();
      ok := !badSync;
    }

    /** syncApply: one path at a time. A path that moved is skipped and named; whatever
        was written is named even when the run fails. */
    method Apply(ds: seq<Diff>, section: nat) returns (synced: seq<Path>, skipped: seq<Diff>, ok: bool)
      modifies this`tree, this`clock, this`writes
      ensures WroteOnly(old(writes), writes, synced) && forall i :: |old(writes)| <= i < |writes| ==> Publishes(writes[i], ds, section)
      ensures ok ==> Told(ds, synced, skipped)
      ensures Calm() ==> SameOff(old(tree), tree, synced)
      ensures Calm() && ok && Steady(ds, old(tree)) && AllApart(DiffPaths(ds)) ==>
        synced == DiffPaths(ds) && skipped == [] && HoldsEntries(tree, ds, synced)
      ensures Calm() && Smooth() && Steady(ds, old(tree)) && AllApart(DiffPaths(ds)) ==> ok
      ensures clock >= old(clock) && |synced| <= |ds|
    {
      synced, skipped, ok := [], [], false;
      for i := 0 to |ds|
        invariant clock >= old(clock)
        invariant Publishing(ds, i, synced, skipped, old(writes), writes, section, old(tree), tree, Calm())
      {
        ghost var before, was := tree, writes;
        PublishingCalm(ds, i, synced, skipped, old(writes), writes, section, old(tree), tree, Calm());
        var done, skip, fine := ApplyOne(ds[i], section);
        if done {
          PublishingDone(ds, i, synced, skipped, old(writes), was, writes, section, old(tree), before, tree, Calm());
          synced := synced + [ds[i].entry.path];
        } else if skip {
          PublishingSkipped(ds, i, synced, skipped, old(writes), writes, section, old(tree), before, Calm());
          skipped := skipped + [ds[i]];
        }
        if !fine {
          PublishingEnds(ds, if done then i + 1 else i, synced, skipped, old(writes), writes, section, old(tree), tree, Calm());
          return;
        }
      }
      PublishingEnds(ds, |ds|, synced, skipped, old(writes), writes, section, old(tree), tree, Calm());
      ok := true;
    }

    /** One residue: probe, remove. */
    method DeleteOne(r: Residue, section: nat) returns (fate: Fate, ok: bool)
      modifies this`tree, this`clock, this`writes
      ensures fate == Deleted ==> exists w :: RemovesOne(w, r) && w.section == section && writes == old(writes) + [w]
      ensures fate != Deleted ==> writes == old(writes)
      ensures ok <==> fate != Stopped
      ensures Calm() ==> tree == if fate == Deleted then old(tree) - {r.path} else old(tree)
      ensures Calm() && ok ==> (fate == Deleted <==> ProbePath(old(tree), r.path) == Hashed(r.blob))
      ensures Calm() && Smooth() && ProbePath(old(tree), r.path) != ProbeFailed ==> ok
      ensures clock > old(clock)
    {
      Interfere();
      ok := true;
      match ProbePath(tree, r.path)
      case ProbeFailed => fate, ok := Stopped, false;
      case Vanished => fate := Gone;
      case NotAFile => fate := NotFileThere;
      case Hashed(oid) =>
        if oid != r.blob { return Changed, true; }
        var bad := Falters();
        if bad { return Stopped, false; }
        ghost var w := Write(r.path, NodeAt(tree, r.path), None, section);
        writes := writes + [w];
        assert RemovesOne(w, r);
        tree := tree - {r.path};
        fate := Deleted;
    }

    /** syncDeleteResidue: each path probed in full right before it is removed. */
    method DeleteResidue(rs: seq<Residue>, section: nat) returns (s: Swept, ok: bool)
      modifies this`tree, this`clock, this`writes
      ensures WroteOnly(old(writes), writes, ResiduePaths(s.deleted))
      ensures forall i :: |old(writes)| <= i < |writes| ==> Removes(writes[i], rs, section)
      ensures ok ==> ToldResidue(rs, s)
      ensures Calm() ==> GoneOnly(old(tree), tree, s.deleted)
      ensures Calm() && ok && DistinctPaths(rs) ==> SweptExactly(rs, s.deleted, old(tree))
      ensures Calm() && Smooth() && Reachable(rs, old(tree)) ==> ok
      ensures clock >= old(clock) && |s.deleted| <= |rs|
    {
      s, ok := Swept([], [], [], []), false;
      for i := 0 to |rs|
        invariant clock >= old(clock)
        invariant Progress(rs, i, s, old(writes), writes, section, old(tree), tree, Calm())
      {
        ghost var before, was := tree, writes;
        ProgressCalm(rs, i, s, old(writes), writes, section, old(tree), tree, Calm());
        var fate, fine := DeleteOne(rs[i], section);
        if !fine {
          FewerDeleted(rs, i, s);
          return;
        }
        ProgressStep(rs, i, s, old(writes), was, writes, section, old(tree), before, tree, Calm(), fate);
        s := Tally(s, rs[i], fate);
      }
      FewerDeleted(rs, |rs|, s);
      assert rs[..|rs|] == rs;
      ok := true;
    }

    /** Some section's own reads gave exactly this refusal. */
    ghost predicate Judged(x: Conflict) {
      exists n :: ConflictFor(x.path, coord(n)) == Some(x)
    }

    /** The write was authorized in its own section and publishes one of these. */
    ghost predicate Sanctioned(w: Write, ds: seq<Diff>, expected: string) {
      Authorized(w, expected) && exists i :: 0 <= i < |ds| && PublishesOne(w, ds[i])
    }

    /** And this one removes a residue. */
    ghost predicate SanctionedRemoval(w: Write, rs: seq<Residue>, expected: string) {
      Authorized(w, expected) && exists i :: 0 <= i < |rs| && RemovesOne(w, rs[i])
    }

    /** One section: read the coordination state, check integration has not moved,
        decide, apply. */
    method FastForwardBatch(expected: string, ds: seq<Diff>)
      returns (synced: seq<Path>, conflicts: seq<Conflict>, skips: seq<Diff>, ok: bool)
      modifies this
      ensures WroteOnly(old(writes), writes, synced)
      ensures forall i :: |old(writes)| <= i < |writes| ==> Sanctioned(writes[i], ds, expected)
      ensures forall i :: 0 <= i < |conflicts| ==> Judged(conflicts[i])
      ensures ok ==> FullyTold(ds, synced, conflicts, skips)
      ensures Calm() ==> SameOff(old(tree), tree, synced)
      ensures Calm() && ok && Steady(ds, old(tree)) && AllApart(DiffPaths(ds)) ==> skips == [] && HoldsEntries(tree, ds, synced)
      ensures Untroubled(expected) && Steady(ds, old(tree)) && AllApart(DiffPaths(ds)) ==> ok
      ensures InSection(old(writes), writes, old(clock), |ds|) && clock > old(clock) && sections == old(sections) + 1
    {
      synced, conflicts, skips, ok := [], [], [], false;
      var section := clock;
      clock := clock + 1;
      sections := sections + 1;
      var c := coord(section);
      if c.integration != Some(expected) { return; }
      var apply;
      apply, conflicts := Decide(ds, c);
      Interfere();
      if Calm() && Steady(ds, old(tree)) && AllApart(DiffPaths(ds)) { ClearStaysCalm(ds, apply, old(tree), c); }
      ghost var was := writes;
      synced, skips, ok := Apply(apply, section);
      PartedFewer(DiffPaths(ds), DiffPaths(apply), conflicts, c);
      WroteInSection(was, writes, synced, section, |ds|);
      forall i | |was| <= i < |writes| ensures Sanctioned(writes[i], ds, expected) {
        assert Publishes(writes[i], apply, section);
        AppliedIsClear(writes[i], apply, ds, c);
      }
      if ok { PartedTold(ds, apply, synced, conflicts, skips, c); }
      if Calm() && ok && Steady(ds, old(tree)) && AllApart(DiffPaths(ds)) { AppliedEntries(tree, ds, apply, synced); }
    }

    /** syncFastForwardBatches: at most BATCH paths a section, and nothing carried over
        from one section to the next but the report. */
    method FastForwardBatches(expected: string, ds: seq<Diff>)
      returns (synced: seq<Path>, conflicts: seq<Conflict>, skips: seq<Diff>, ok: bool)
      modifies this
      ensures WroteOnly(old(writes), writes, synced)
      ensures forall i :: |old(writes)| <= i < |writes| ==> Sanctioned(writes[i], ds, expected)
      ensures forall i :: 0 <= i < |conflicts| ==> Judged(conflicts[i])
      ensures ok ==> FullyTold(ds, synced, conflicts, skips)
      ensures Calm() ==> SameOff(old(tree), tree, synced)
      ensures Calm() && ok && Steady(ds, old(tree)) && AllApart(DiffPaths(ds)) ==> skips == [] && HoldsEntries(tree, ds, synced)
      ensures Untroubled(expected) && Steady(ds, old(tree)) && AllApart(DiffPaths(ds)) ==> ok
      ensures Sectioned(ok, old(sections), sections, |ds|)
      ensures Batched(old(writes), writes, old(clock), clock)
    {
      synced, conflicts, skips, ok := [], [], [], true;
      ghost var calm := Calm() && Steady(ds, old(tree)) && AllApart(DiffPaths(ds));
      var lo := 0;
      while lo < |ds|
        invariant 0 <= lo <= |ds| && ok && (lo % 16 == 0 || lo == |ds|) && sections == old(sections) + SectionsFor(lo)
        invariant WroteOnly(old(writes), writes, synced)
        invariant forall i :: |old(writes)| <= i < |writes| ==> Sanctioned(writes[i], ds, expected)
        invariant forall i :: 0 <= i < |conflicts| ==> Judged(conflicts[i])
        invariant FullyTold(ds[..lo], synced, conflicts, skips)
        invariant Calm() ==> SameOff(old(tree), tree, synced)
        invariant calm ==> skips == [] && HoldsEntries(tree, ds[..lo], synced)
        invariant Batched(old(writes), writes, old(clock), clock)
      {
        var hi := if lo + BATCH < |ds| then lo + BATCH else |ds|;
        NextSection(lo, hi, |ds|);
        ghost var before, was, then_ := tree, writes, clock;
        if calm { NextBatchCalm(ds, lo, hi, old(tree), tree, synced, conflicts, skips); }
        var s, c, k, fine := FastForwardBatch(expected, ds[lo..hi]);
        forall i | |was| <= i < |writes| ensures Sanctioned(writes[i], ds, expected) {
          assert Sanctioned(writes[i], ds[lo..hi], expected);
          PublishesInRange(writes[i], ds, lo, hi);
        }
        WroteJoined(old(writes), was, writes, synced, s);
        BatchedMore(old(writes), was, writes, old(clock), then_, clock, hi - lo);
        if Calm() { SameOffJoined(old(tree), before, tree, synced, s); }
        if fine {
          ToldJoined(ds, lo, hi, synced, conflicts, skips, s, c, k);
          if calm { EntriesJoined(ds, lo, hi, before, tree, synced, conflicts, skips, s, c, k); }
        }
        synced, conflicts, skips, ok := synced + s, conflicts + c, skips + k, fine;
        if !ok { return; }
        lo := hi;
      }
      assert ds[..lo] == ds;
    }

    /** One section of the sweep. */
    method SweepBatch(expected: string, rs: seq<Residue>) returns (s: Swept, conflicts: seq<Conflict>, ok: bool)
      modifies this
      ensures WroteOnly(old(writes), writes, ResiduePaths(s.deleted))
      ensures forall i :: |old(writes)| <= i < |writes| ==> SanctionedRemoval(writes[i], rs, expected)
      ensures forall i :: 0 <= i < |conflicts| ==> Judged(conflicts[i])
      ensures ok ==> FullySwept(rs, s, conflicts)
      ensures Calm() ==> GoneOnly(old(tree), tree, s.deleted)
      ensures Calm() && ok && DistinctPaths(rs) ==> SweptOrRefused(rs, s.deleted, conflicts, old(tree))
      ensures Untroubled(expected) && Reachable(rs, old(tree)) ==> ok
      ensures InSection(old(writes), writes, old(clock), |rs|) && clock > old(clock) && sections == old(sections) + 1
    {
      s, conflicts, ok := Swept([], [], [], []), [], false;
      var section := clock;
      clock := clock + 1;
      sections := sections + 1;
      var c := coord(section);
      if c.integration != Some(expected) { return; }
      var sweep;
      sweep, conflicts := DecideResidue(rs, c);
      Interfere();
      ghost var was := writes;
      if Reachable(rs, old(tree)) { ReachablePart(rs, sweep, old(tree)); }
      s, ok := DeleteResidue(sweep, section);
      PartedFewer(ResiduePaths(rs), ResiduePaths(sweep), conflicts, c);
      WroteInSection(was, writes, ResiduePaths(s.deleted), section, |rs|);
      forall i | |was| <= i < |writes| ensures SanctionedRemoval(writes[i], rs, expected) {
        assert Removes(writes[i], sweep, section);
        SweptIsClear(writes[i], sweep, rs, c);
      }
      if ok { PartedSwept(rs, sweep, s, conflicts, c); }
      if Calm() && ok && DistinctPaths(rs) {
        SweepDistinct(rs, sweep, c);
        SweptExactlyRefused(rs, sweep, s.deleted, conflicts, c, old(tree));
      }
    }

    /** syncSweepBatches. */
    method SweepBatches(expected: string, rs: seq<Residue>) returns (s: Swept, conflicts: seq<Conflict>, ok: bool)
      modifies this
      ensures WroteOnly(old(writes), writes, ResiduePaths(s.deleted))
      ensures forall i :: |old(writes)| <= i < |writes| ==> SanctionedRemoval(writes[i], rs, expected)
      ensures forall i :: 0 <= i < |conflicts| ==> Judged(conflicts[i])
      ensures ok ==> FullySwept(rs, s, conflicts)
      ensures Calm() ==> GoneOnly(old(tree), tree, s.deleted)
      ensures Calm() && ok && DistinctPaths(rs) ==> SweptOrRefused(rs, s.deleted, conflicts, old(tree))
      ensures Untroubled(expected) && Reachable(rs, old(tree)) ==> ok
      ensures Sectioned(ok, old(sections), sections, |rs|)
      ensures Batched(old(writes), writes, old(clock), clock)
    {
      s, conflicts, ok := Swept([], [], [], []), [], true;
      var lo := 0;
      while lo < |rs|
        invariant 0 <= lo <= |rs| && ok && (lo % 16 == 0 || lo == |rs|) && sections == old(sections) + SectionsFor(lo)
        invariant forall i :: |old(writes)| <= i < |writes| ==> SanctionedRemoval(writes[i], rs, expected)
        invariant forall i :: 0 <= i < |conflicts| ==> Judged(conflicts[i])
        invariant Sweeping(rs, lo, s, conflicts, old(writes), writes, old(clock), clock, old(tree), tree, Calm())
      {
        var hi := if lo + BATCH < |rs| then lo + BATCH else |rs|;
        NextSection(lo, hi, |rs|);
        ghost var before, was, then_ := tree, writes, clock;
        NextSweep(rs, lo, hi, s, conflicts, old(writes), writes, old(clock), clock, old(tree), tree, Calm());
        var more, c, fine := SweepBatch(expected, rs[lo..hi]);
        forall i | |was| <= i < |writes| ensures SanctionedRemoval(writes[i], rs, expected) {
          assert SanctionedRemoval(writes[i], rs[lo..hi], expected);
          RemovesInRange(writes[i], rs, lo, hi);
        }
        SweepOnward(lo, hi, s, more, old(writes), was, writes, old(clock), then_, clock, old(tree), before, tree, Calm());
        if fine { SweepJoined(rs, lo, hi, s, conflicts, more, c, old(tree), before, Calm()); }
        s, conflicts, ok := Joined(s, more), conflicts + c, fine;
        if !ok { return; }
        lo := hi;
      }
      assert rs[..lo] == rs;
    }

    /** With the coordination state standing still, every refusal and every write of a
        run is that one state's. */
    lemma JudgedByOne(r: Report, start: seq<Write>, now: seq<Write>, expected: string)
      requires Constant() && WroteOnly(start, now, r.synced + ResiduePaths(r.swept.deleted))
      requires forall i :: |start| <= i < |now| ==> Authorized(now[i], expected)
      requires forall i :: 0 <= i < |r.conflicts| ==> Judged(r.conflicts[i])
      requires forall i :: 0 <= i < |r.refused| ==> Judged(r.refused[i])
      ensures JudgedBy(r, coord(0))
    {
      var wrote := WrittenPaths(now[|start|..]);
      forall p | p in r.synced || p in ResiduePaths(r.swept.deleted) ensures ConflictFor(p, coord(0)).None? {
        assert p in wrote;
        var k :| 0 <= k < |wrote| && wrote[k] == p;
        assert Authorized(now[|start| + k], expected);
      }
      forall p | p in ConflictPaths(r.conflicts) ensures ConflictFor(p, coord(0)).Some? {
        var k :| 0 <= k < |r.conflicts| && ConflictPaths(r.conflicts)[k] == p;
        assert Judged(r.conflicts[k]);
      }
      forall p | p in ConflictPaths(r.refused) ensures ConflictFor(p, coord(0)).Some? {
        var k :| 0 <= k < |r.refused| && ConflictPaths(r.refused)[k] == p;
        assert Judged(r.refused[k]);
      }
    }

    /** What a second scan finds after an undisturbed run. */
    lemma SecondScan(entries: seq<Entry>, residue: seq<Residue>, t0: Worktree, t1: Worktree, t2: Worktree, r: Report,
        start: seq<Write>, now: seq<Write>, expected: string)
      requires CalmRun(entries, residue, t0, t1, t2, r) && WroteOnly(start, now, r.synced + ResiduePaths(r.swept.deleted))
      requires forall i :: |start| <= i < |now| ==>
        Sanctioned(now[i], Decidable(entries, t0), expected) || SanctionedRemoval(now[i], residue, expected)
      requires forall i :: 0 <= i < |r.conflicts| ==> Judged(r.conflicts[i])
      requires forall i :: 0 <= i < |r.refused| ==> Judged(r.refused[i])
      ensures Rescanned(entries, t0, t2, r) && DeletedIntegrated(entries, residue, t0, r)
      ensures Constant() ==> Foreseen(entries, residue, t0, t2, coord(0))
    {
      RescanExactly(entries, residue, t0, t1, t2, r);
      if Constant() {
        JudgedByOne(r, start, now, expected);
        RescanForeseen(entries, residue, t0, t1, t2, r, coord(0));
      }
    }

    /** The first half of a run: scan, report what is unsupported, publish batch by
        batch. */
    method Publish(expected: string, entries: seq<Entry>) returns (r: Report, ok: bool)
      modifies this
      ensures forall i :: |old(writes)| <= i < |writes| ==> Sanctioned(writes[i], Decidable(entries, old(tree)), expected)
      ensures WroteOnly(old(writes), writes, r.synced)
      ensures forall i :: 0 <= i < |r.conflicts| ==> Judged(r.conflicts[i])
      ensures r.swept == Swept([], [], [], []) && r.refused == []
      ensures ok ==> FullyTold(Decidable(entries, old(tree)), r.synced, r.conflicts, r.targetSkips)
      ensures ok ==> forall i :: 0 <= i < |entries| ==> Readable(entries[i], old(tree))
      ensures Calm() ==> SameOff(old(tree), tree, r.synced)
      ensures Calm() && ok && AllApart(EntryPaths(entries)) ==>
        r.targetSkips == [] && HoldsEntries(tree, Decidable(entries, old(tree)), r.synced)
      ensures Untroubled(expected) && AllApart(EntryPaths(entries)) && (forall i :: 0 <= i < |entries| ==> Readable(entries[i], old(tree))) ==>
        ok
      ensures ok ==> multiset(r.unsupported) + multiset(Decidable(entries, old(tree))) == multiset(Divergence(entries, old(tree)))
      ensures ok ==> forall d :: d in r.unsupported ==> d.state == Unsupported
      ensures ok ==> sections == old(sections) + (|Decidable(entries, old(tree))| + 15) / 16
      ensures Batched(old(writes), writes, old(clock), clock)
    {
      r, ok := Report([], [], [], Swept([], [], [], []), [], []), false;
      ReadableExactly(entries, tree);
      var scan := Scan(entries, tree);
      if scan.None? { return; }
      var ds := Filter(scan.value, (d: Diff) => d.state != Unsupported);
      ghost var t0 := tree;
      Interfere();
      if AllApart(EntryPaths(entries)) { DecidableSteady(entries, t0); }
      var synced, conflicts, skips;
      synced, conflicts, skips, ok := FastForwardBatches(expected, ds);
      FilterParts(scan.value, (d: Diff) => d.state == Unsupported, (d: Diff) => d.state != Unsupported);
      r := Report(synced, conflicts, skips, r.swept, [], Filter(scan.value, (d: Diff) => d.state == Unsupported));
    }

    /** One run: scan, report what is unsupported, publish batch by batch, then sweep
        batch by batch. */
    method Sync(expected: string, entries: seq<Entry>, residue: seq<Residue>) returns (r: Report, ok: bool)
      modifies this
      ensures forall i :: |old(writes)| <= i < |writes| ==>
        Sanctioned(writes[i], Decidable(entries, old(tree)), expected) || SanctionedRemoval(writes[i], residue, expected)
      ensures WroteOnly(old(writes), writes, r.synced + ResiduePaths(r.swept.deleted))
      ensures forall i :: 0 <= i < |r.conflicts| ==> Judged(r.conflicts[i])
      ensures forall i :: 0 <= i < |r.refused| ==> Judged(r.refused[i])
      ensures ok ==> FullyTold(Decidable(entries, old(tree)), r.synced, r.conflicts, r.targetSkips)
      ensures ok ==> FullySwept(residue, r.swept, r.refused)
      ensures Calm() && ok && Physical(old(tree)) && AllApart(EntryPaths(entries)) && DistinctPaths(residue) ==>
        Rescanned(entries, old(tree), tree, r) && DeletedIntegrated(entries, residue, old(tree), r)
          && (Constant() ==> Foreseen(entries, residue, old(tree), tree, coord(0)))
      ensures Untroubled(expected) && AllApart(EntryPaths(entries)) && Unobstructed(entries, residue, old(tree)) ==> ok
      ensures ok ==> multiset(r.unsupported) + multiset(Decidable(entries, old(tree))) == multiset(Divergence(entries, old(tree)))
      ensures ok ==> forall d :: d in r.unsupported ==> d.state == Unsupported
      ensures ok ==> sections == old(sections) + (|Decidable(entries, old(tree))| + 15) / 16 + (|residue| + 15) / 16
      ensures Batched(old(writes), writes, old(clock), clock)
    {
      r, ok := Publish(expected, entries);
      ghost var middle, t1, now := writes, tree, clock;
      assert r.synced + ResiduePaths(r.swept.deleted) == r.synced;
      if !ok { return; }
      if Calm() && AllApart(EntryPaths(entries)) && Unobstructed(entries, residue, old(tree)) {
        PublishedReachable(entries, residue, old(tree), t1, Decidable(entries, old(tree)), r.synced, r.conflicts, r.targetSkips);
      }
      var s, refused;
      s, refused, ok := SweepBatches(expected, residue);
      BatchedOn(old(writes), middle, writes, old(clock), now, clock);
      r := r.(swept := s, refused := refused);
      WroteJoined(old(writes), middle, writes, r.synced, ResiduePaths(s.deleted));
      if Calm() && ok && Physical(old(tree)) && AllApart(EntryPaths(entries)) && DistinctPaths(residue) {
        SecondScan(entries, residue, old(tree), t1, tree, r, old(writes), writes, expected);
      }
    }
  }
}
