/** The crossing from integration to one branch a bead: grouping, what is pending,
    the staleness check, and the replay. */
module Bridge {
  import opened Options
  import opened Text
  import opened Ordering
  import opened Filters
  import opened Paths
  import opened Trees
  import opened Envelopes
  import Admission
  import Messages

  /** One promoted commit as the bridge reads it; bead is its Bead trailer. */
  datatype Source = Source(sha: string, message: string, bead: string, transitions: seq<Transition>)

  datatype Group = Group(bead: string, commits: seq<Source>)

  function BeadOf(c: Source): string {
    c.bead
  }

  /** A promoted commit as it is read off integration. */
  function SourceOf(sha: string, message: string, transitions: seq<Transition>): Source {
    Source(sha, message, Messages.Lookup(Messages.ParseTrailers(message), "Bead"), transitions)
  }

  /** Whichever message promotion wrote for a candidate, with the claim or without, the
      bridge reads the candidate's own bead off it. */
  lemma BeadReadsBack(candidate: string, proposalSha: string, agent: string, session: string, bead: string,
      batch: string, c: Messages.Claim, sha: string, trs: seq<Transition>)
    requires Messages.CleanValue(candidate) && Messages.CleanValue(proposalSha) && (agent == "" || Messages.CleanValue(agent))
    requires (session == "" || Messages.CleanValue(session)) && (bead == "" || Messages.CleanValue(bead))
    requires Messages.CleanValue(batch) && Messages.CleanClaim(c)
    ensures var head := Messages.Attribution(candidate, proposalSha, agent, session, bead);
      && BeadOf(SourceOf(sha, head + "\n", trs)) == bead
      && BeadOf(SourceOf(sha, Messages.TipMessage(head, batch, c), trs)) == bead
  {
    Messages.AttributionStays(candidate, proposalSha, agent, session, bead, batch, c);
  }

  predicate RefRune(c: char) {
    'a' <= c <= 'z' || 'A' <= c <= 'Z' || '0' <= c <= '9' || c == '.' || c == '-' || c == '_'
  }

  /** beadIDUsableAsRef: one ref component, verbatim. */
  predicate UsableAsRef(id: string) {
    && id != "" && id[0] != '.' && id[0] != '-'
    && !EndsWith(id, ".") && !EndsWith(id, ".lock")
    && (forall i | 0 <= i < |id| - 1 :: !(id[i] == '.' && id[i + 1] == '.'))
    && (forall i | 0 <= i < |id| :: RefRune(id[i]))
  }

  /** No part after the first is empty. */
  ghost predicate TailFull(s: string) {
    forall i :: 1 <= i < |Split(s, '.')| ==> Split(s, '.')[i] != ""
  }

  ghost predicate NoDoubleDot(s: string) {
    forall i :: 0 <= i < |s| - 1 ==> !(s[i] == '.' && s[i + 1] == '.')
  }

  lemma FirstPartFull(s: string)
    ensures Split(s, '.')[0] != "" <==> s != "" && s[0] != '.'
  {
  }

  lemma DoubleDotLater(s: string)
    requires |s| > 1
    ensures NoDoubleDot(s) <==> NoDoubleDot(s[1..]) && !(s[0] == '.' && s[1] == '.')
  {
    if NoDoubleDot(s[1..]) && !(s[0] == '.' && s[1] == '.') {
      forall i | 0 <= i < |s| - 1 ensures !(s[i] == '.' && s[i + 1] == '.') {
        if i > 0 { assert !(s[1..][i - 1] == '.' && s[1..][i] == '.'); }
      }
    }
  }

  /** One character more in front. */
  lemma TailFullLater(s: string)
    requires s != ""
    ensures TailFull(s) <==> TailFull(s[1..]) && (s[0] == '.' ==> Split(s[1..], '.')[0] != "")
  {
    var parts, rest := Split(s, '.'), Split(s[1..], '.');
    if s[0] == '.' {
      assert forall i :: 1 <= i < |parts| ==> parts[i] == rest[i - 1];
      assert forall i :: 1 <= i < |rest| ==> rest[i] == parts[i + 1];
      assert |parts| > 1 && parts[1] == rest[0];
    } else {
      assert |parts| == |rest| && forall i :: 1 <= i < |parts| ==> parts[i] == rest[i];
    }
  }

  lemma {:induction false} TailFullExactly(s: string)
    ensures TailFull(s) <==> NoDoubleDot(s) && (s != "" ==> s[|s| - 1] != '.')
  {
    if |s| > 0 {
      TailFullExactly(s[1..]);
      FirstPartFull(s[1..]);
      TailFullLater(s);
      if |s| > 1 { DoubleDotLater(s); }
    }
  }

  lemma {:induction false} RunesOfParts(s: string)
    ensures (forall c :: c in s ==> RefRune(c)) <==> forall i :: 0 <= i < |Split(s, '.')| ==> forall c :: c in Split(s, '.')[i] ==> RefRune(c)
  {
    if |s| > 0 {
      RunesOfParts(s[1..]);
      var rest := Split(s[1..], '.');
      assert forall c :: c in s <==> c == s[0] || c in s[1..];
      if s[0] == '.' {
        assert forall i :: 0 <= i < |rest| ==> Split(s, '.')[i + 1] == rest[i];
      } else {
        assert forall c :: c in Split(s, '.')[0] <==> c == s[0] || c in rest[0];
        assert forall i :: 1 <= i < |rest| ==> Split(s, '.')[i] == rest[i];
      }
    }
  }

  lemma LastPartCut(s: string, last: string)
    requires '.' !in last
    ensures (exists a :: s == a + ['.'] + last) <==> |Split(s, '.')| > 1 && Split(s, '.')[|Split(s, '.')| - 1] == last
  {
    var parts := Split(s, '.');
    var n := |parts| - 1;
    if a :| s == a + ['.'] + last {
      SplitConcat(a, last, '.');
      SplitWhole(last, '.');
    }
    if n > 0 && parts[n] == last {
      JoinSplit(s, '.');
      assert parts == parts[..n] + [last];
      JoinAppend(parts[..n], [last], '.');
      assert s == Join(parts[..n], '.') + ['.'] + last;
    }
  }

  lemma EndsAfterDot(s: string, tail: string, last: string)
    requires tail == ['.'] + last
    ensures EndsWith(s, tail) <==> exists a :: s == a + ['.'] + last
  {
    if EndsWith(s, tail) {
      var a := s[..|s| - |tail|];
      assert s == a + tail;
      assert s == a + ['.'] + last;
    }
    if a :| s == a + ['.'] + last { assert s[|a|..] == tail; }
  }

  lemma LockLast(s: string)
    ensures EndsWith(s, ".lock") <==> |Split(s, '.')| > 1 && Split(s, '.')[|Split(s, '.')| - 1] == "lock"
  {
    LastPartCut(s, "lock");
    EndsAfterDot(s, ".lock", "lock");
  }

  /** What can name a branch, read at its dots: no empty part, each of letters, digits,
      '-' and '_', the whole not starting with '-', and no trailing "lock". */
  lemma UsableExactly(id: string)
    ensures var parts := Split(id, '.');
      UsableAsRef(id) <==>
        && (forall i :: 0 <= i < |parts| ==> parts[i] != "" && forall c :: c in parts[i] ==>
              'a' <= c <= 'z' || 'A' <= c <= 'Z' || '0' <= c <= '9' || c == '-' || c == '_')
        && parts[0][0] != '-' && (|parts| > 1 ==> parts[|parts| - 1] != "lock")
  {
    FirstPartFull(id);
    TailFullExactly(id);
    RunesOfParts(id);
    LockLast(id);
    SplitPartsClean(id, '.');
    if id != "" { assert EndsWith(id, ".") <==> id[|id| - 1] == '.'; }
  }

  // --- grouping -------------------------------------------------------------

  function OfBead(cs: seq<Source>, bead: string): seq<Source> {
    Filter(cs, c => BeadOf(c) == bead)
  }

  function Unattributed(cs: seq<Source>): seq<Source> {
    Filter(cs, c => !UsableAsRef(BeadOf(c)))
  }

  /** The usable beads, by first appearance. */
  function Beads(cs: seq<Source>): seq<string> {
    if |cs| == 0 then []
    else
      var front := Beads(cs[..|cs| - 1]);
      var bead := BeadOf(cs[|cs| - 1]);
      if UsableAsRef(bead) && bead !in front then front + [bead] else front
  }

  ghost predicate GroupsOf(groups: seq<Group>, cs: seq<Source>) {
    && |groups| == |Beads(cs)|
    && forall g :: 0 <= g < |groups| ==> groups[g] == Group(Beads(cs)[g], OfBead(cs, Beads(cs)[g]))
  }

  lemma {:induction false} BeadsDistinct(cs: seq<Source>)
    ensures forall i, j :: 0 <= i < j < |Beads(cs)| ==> Beads(cs)[i] != Beads(cs)[j]
  {
    if |cs| > 0 { BeadsDistinct(cs[..|cs| - 1]); }
  }

  lemma {:induction false} FreshBeadEmpty(cs: seq<Source>, bead: string)
    ensures UsableAsRef(bead) && bead !in Beads(cs) ==> OfBead(cs, bead) == []
  {
    if |cs| > 0 { FreshBeadEmpty(cs[..|cs| - 1], bead); }
  }

  lemma {:induction false} UnusableNotListed(cs: seq<Source>, bead: string)
    ensures bead in Beads(cs) ==> UsableAsRef(bead)
  {
    if |cs| > 0 { UnusableNotListed(cs[..|cs| - 1], bead); }
  }

  /** groupByBead: an index map and an append in place. */
  method GroupByBead(commits: seq<Source>) returns (groups: seq<Group>, unattributed: seq<Source>)
    ensures GroupsOf(groups, commits) && unattributed == Unattributed(commits)
  {
    groups, unattributed := [], [];
    var at: map<string, nat> := map[];
    for i := 0 to |commits|
      invariant unattributed == Unattributed(commits[..i])
      invariant GroupsOf(groups, commits[..i])
      invariant forall b :: b in at <==> b in Beads(commits[..i])
      invariant forall b :: b in at ==> at[b] < |groups| && groups[at[b]].bead == b
    {
      assert commits[..i + 1][..i] == commits[..i];
      BeadsDistinct(commits[..i]);
      FreshBeadEmpty(commits[..i], BeadOf(commits[i]));
      var bead := BeadOf(commits[i]);
      if !UsableAsRef(bead) {
        unattributed := unattributed + [commits[i]];
        UnusableNotListed(commits[..i], bead);
      } else {
        if bead !in at {
          at := at[bead := |groups|];
          groups := groups + [Group(bead, [])];
        }
        var idx := at[bead];
        groups := groups[idx := Group(bead, groups[idx].commits + [commits[i]])];
      }
    }
    assert commits[..|commits|] == commits;
  }

  /** A bead's commits are its commits, all of them, in integration order: at are
      their positions. */
  lemma OfBeadPositions(cs: seq<Source>, bead: string) returns (at: seq<nat>)
    ensures |at| == |OfBead(cs, bead)|
    ensures forall i :: 0 <= i < |at| ==> at[i] < |cs| && cs[at[i]] == OfBead(cs, bead)[i]
    ensures forall i, j :: 0 <= i < j < |at| ==> at[i] < at[j]
    ensures forall k :: 0 <= k < |cs| ==> (BeadOf(cs[k]) == bead <==> k in at)
    ensures forall i :: 0 <= i < |at| ==> OfBead(cs[..at[i]], bead) == OfBead(cs, bead)[..i]
  {
    var f := (c: Source) => BeadOf(c) == bead;
    at := FilterPlaces(cs, f);
    assert OfBead(cs, bead) == Filter(cs, f);
    forall i | 0 <= i < |at| ensures OfBead(cs[..at[i]], bead) == OfBead(cs, bead)[..i] {
      FilterPrefix(cs, f, at, i);
    }
  }

  lemma OfBeadAppend(a: seq<Source>, b: seq<Source>, bead: string)
    ensures OfBead(a + b, bead) == OfBead(a, bead) + OfBead(b, bead)
  {
    FilterAppend(a, b, c => BeadOf(c) == bead);
  }

  lemma OneOfBead(c: Source, bead: string)
    requires BeadOf(c) == bead
    ensures OfBead([c], bead) == [c]
  {
    var f := (x: Source) => BeadOf(x) == bead;
    assert [c][..0] == [];
    assert Filter([c], f) == Filter([c][..0], f) + [c];
  }

  /** k is where the bead's i-th commit stands: what is before it is before, and what
      is after it after. */
  lemma OfBeadSplit(cs: seq<Source>, bead: string, i: nat) returns (k: nat)
    requires i < |OfBead(cs, bead)|
    ensures k < |cs| && cs[k] == OfBead(cs, bead)[i] && BeadOf(cs[k]) == bead
    ensures OfBead(cs[..k + 1], bead) == OfBead(cs, bead)[..i + 1]
    ensures OfBead(cs[k + 1..], bead) == OfBead(cs, bead)[i + 1..]
  {
    var at := OfBeadPositions(cs, bead);
    k := at[i];
    assert k in at;
    OfBeadAppend(cs[..k], [cs[k]], bead);
    OfBeadAppend(cs[..k + 1], cs[k + 1..], bead);
    assert cs[..k] + [cs[k]] == cs[..k + 1] && cs[..k + 1] + cs[k + 1..] == cs;
    OneOfBead(cs[k], bead);
  }

  /** A commit of the bead is in its list. */
  lemma OfBeadHas(cs: seq<Source>, bead: string, k: nat)
    requires k < |cs| && BeadOf(cs[k]) == bead
    ensures cs[k] in OfBead(cs, bead)
  {
    var at := OfBeadPositions(cs, bead);
    assert k in at;
    var i :| 0 <= i < |at| && at[i] == k;
    assert OfBead(cs, bead)[i] == cs[k];
  }

  function Counted(cs: seq<Source>, beads: seq<string>): multiset<Source> {
    if |beads| == 0 then multiset{}
    else Counted(cs, beads[..|beads| - 1]) + multiset(OfBead(cs, beads[|beads| - 1]))
  }

  /** Everything grouping hands back. */
  function Kept(cs: seq<Source>): multiset<Source> {
    multiset(Unattributed(cs)) + Counted(cs, Beads(cs))
  }

  lemma LastCounted(cs: seq<Source>)
    requires |cs| > 0
    ensures multiset(cs) == multiset(cs[..|cs| - 1]) + multiset{cs[|cs| - 1]}
  {
    assert cs == cs[..|cs| - 1] + [cs[|cs| - 1]];
  }

  lemma {:induction false} CountedGrows(front: seq<Source>, c: Source, beads: seq<string>)
    requires forall i, j :: 0 <= i < j < |beads| ==> beads[i] != beads[j]
    ensures Counted(front + [c], beads) == Counted(front, beads) + if BeadOf(c) in beads then multiset{c} else multiset{}
  {
    if |beads| > 0 {
      var last := beads[|beads| - 1];
      CountedGrows(front, c, beads[..|beads| - 1]);
      assert (front + [c])[..|front|] == front;
      assert BeadOf(c) in beads <==> BeadOf(c) in beads[..|beads| - 1] || BeadOf(c) == last;
    }
  }

  lemma KeptOneMore(cs: seq<Source>)
    requires |cs| > 0
    ensures Kept(cs) == Kept(cs[..|cs| - 1]) + multiset{cs[|cs| - 1]}
  {
    var front, c := cs[..|cs| - 1], cs[|cs| - 1];
    var bead := BeadOf(c);
    assert cs == front + [c];
    UnusableNotListed(front, bead);
    BeadsDistinct(front);
    CountedGrows(front, c, Beads(front));
    FreshBeadEmpty(front, bead);
    if UsableAsRef(bead) && bead !in Beads(front) {
      var beads := Beads(cs);
      assert beads[..|beads| - 1] == Beads(front);
      assert OfBead(cs, bead) == [c];
    }
  }

  /** Grouping loses nothing and duplicates nothing. */
  lemma {:induction false} GroupingIsAPartition(cs: seq<Source>)
    ensures multiset(cs) == Kept(cs)
  {
    if |cs| > 0 {
      GroupingIsAPartition(cs[..|cs| - 1]);
      KeptOneMore(cs);
      LastCounted(cs);
    }
  }

  // --- what is pending ------------------------------------------------------

  datatype Detail = BranchMissing | MergedBranch | UnmarkedBranch

  datatype Selection = Pending(commits: seq<Source>) | StaleBranch(detail: Detail)

  /** The position of the commit the marker names, or |cs|. */
  function MarkerAt(cs: seq<Source>, sha: string): (k: nat)
    ensures k <= |cs|
    ensures k < |cs| ==> cs[k].sha == sha
    ensures forall j :: 0 <= j < k ==> cs[j].sha != sha
  {
    if |cs| == 0 || cs[0].sha == sha then 0 else MarkerAt(cs[1..], sha) + 1
  }

  /** selectPending. */
  function SelectPending(cs: seq<Source>, marker: Option<string>, hadBranch: bool): Selection {
    if marker.Some? && MarkerAt(cs, marker.value) < |cs| then
      if hadBranch then Pending(cs[MarkerAt(cs, marker.value) + 1..]) else StaleBranch(BranchMissing)
    else if marker.Some? && hadBranch then StaleBranch(MergedBranch)
    else if hadBranch then StaleBranch(UnmarkedBranch)
    else Pending(cs)
  }

  /** What is pending: everything, on a bead without a branch or a marker in the list;
      what follows the marked commit, on one with both. A branch whose marker is not in
      the list, or that has none, and a marked commit without a branch are refused. */
  lemma SelectExactly(cs: seq<Source>, marker: Option<string>, hadBranch: bool, k: nat)
    requires marker.Some? ==> k <= |cs| && (forall i :: 0 <= i < k ==> cs[i].sha != marker.value)
    requires marker.Some? && k < |cs| ==> cs[k].sha == marker.value
    ensures SelectPending(cs, marker, hadBranch) ==
      if !hadBranch then (if marker.Some? && k < |cs| then StaleBranch(BranchMissing) else Pending(cs))
      else if marker.None? then StaleBranch(UnmarkedBranch)
      else if k == |cs| then StaleBranch(MergedBranch)
      else Pending(cs[k + 1..])
  {
    if marker.Some? { assert MarkerAt(cs, marker.value) == k; }
  }

  predicate DistinctShas(cs: seq<Source>) {
    forall i, j :: 0 <= i < j < |cs| ==> cs[i].sha != cs[j].sha
  }

  lemma MarkerFound(cs: seq<Source>, k: nat)
    requires DistinctShas(cs) && k < |cs|
    ensures MarkerAt(cs, cs[k].sha) == k
  {
  }

  /** Past the last of the pending commits there is nothing pending. */
  lemma NothingPastLast(cs: seq<Source>, marker: Option<string>, hadBranch: bool)
    requires DistinctShas(cs)
    requires SelectPending(cs, marker, hadBranch).Pending? && SelectPending(cs, marker, hadBranch).commits != []
    ensures var pending := SelectPending(cs, marker, hadBranch).commits;
      SelectPending(cs, Some(pending[|pending| - 1].sha), true) == Pending([])
  {
  }

  // --- transitions of a commit ----------------------------------------------

  /** The transitions a commit made: one a changed path, with both sides. */
  ghost predicate DiffOf(trs: seq<Transition>, parent: Tree, tree: Tree) {
    && Increasing(seq(|trs|, i requires 0 <= i < |trs| => trs[i].path))
    && Writes(trs) == Admission.Changed(parent, tree)
    && forall i :: 0 <= i < |trs| ==> trs[i] == Transition(trs[i].path, Lookup(parent, trs[i].path), Lookup(tree, trs[i].path))
  }

  /** commitTransitions: every changed path, its result read from the commit and its
      expected content from the commit before. */
  method CommitTransitions(parent: Tree, tree: Tree) returns (r: Result<seq<Transition>, ReadError>)
    ensures r.Ok? ==> DiffOf(r.value, parent, tree)
    ensures r.Err? <==> exists p :: p in Admission.Changed(parent, tree) && p in tree && TreeAt(parent, p)
  {
    var paths := Listing(Admission.Changed(parent, tree));
    var trs := [];
    for i := 0 to |paths|
      invariant |trs| == i
      invariant forall j :: 0 <= j < i ==>
        trs[j] == Transition(paths[j], Lookup(parent, paths[j]), Lookup(tree, paths[j])) && !TreeAt(parent, paths[j])
    {
      var p := paths[i];
      var result: Option<Blob> := None;
      if p in tree {
        var read := BlobAt(tree, p);
        result := read.value;
      }
      var expected := BlobAt(parent, p);
      if expected.Err? {
        assert p in Admission.Changed(parent, tree) && TreeAt(parent, p);
        return Err(expected.error);
      }
      trs := trs + [Transition(p, expected.value, result)];
    }
    assert seq(|trs|, i requires 0 <= i < |trs| => trs[i].path) == paths;
    forall p ensures p in Writes(trs) <==> p in Admission.Changed(parent, tree) {
      if p in Admission.Changed(parent, tree) {
        assert p in paths;
        var i :| 0 <= i < |paths| && paths[i] == p;
        assert trs[i].path == p;
      }
      if p in Writes(trs) {
        var i :| 0 <= i < |trs| && trs[i].path == p;
        assert paths[i] in paths;
      }
    }
    r := Ok(trs);
  }

  // --- the staleness check and the replay -----------------------------------

  function Flat(cs: seq<Source>): seq<Transition> {
    if |cs| == 0 then [] else Flat(cs[..|cs| - 1]) + cs[|cs| - 1].transitions
  }

  /** What the first transition on p expects, if any touches it. */
  function FirstTouch(trs: seq<Transition>, p: Path): Option<Option<Blob>> {
    if |trs| == 0 then None
    else if trs[0].path == p then Some(trs[0].expected)
    else FirstTouch(trs[1..], p)
  }

  /** Every path about to be written still holds, on parent, what its first
      transition expects. */
  ghost predicate BaseHolds(parent: Tree, trs: seq<Transition>) {
    forall p :: p in Writes(trs) ==> Some(BlobAt(parent, p)) == match FirstTouch(trs, p) { case None => None case Some(e) => Some(Ok(e)) }
  }

  /** p is about to be written and holds something else than its first transition
      expects. */
  predicate MovedUnder(parent: Tree, trs: seq<Transition>, p: Path) {
    p in Writes(trs) && BlobAt(parent, p).Ok? && FirstTouch(trs, p) != Some(BlobAt(parent, p).value)
  }

  /** p still holds, on parent, what its first transition expects. */
  predicate HoldsAt(parent: Tree, trs: seq<Transition>, p: Path) {
    BlobAt(parent, p).Ok? && FirstTouch(trs, p) == Some(BlobAt(parent, p).value)
  }

  /** Every path about to be written that sorts before p still holds. */
  ghost predicate HoldsBefore(parent: Tree, trs: seq<Transition>, p: Path) {
    forall q :: q in Writes(trs) && Less(q, p) ==> HoldsAt(parent, trs, q)
  }

  /** In an increasing list, what sorts before the i-th stands before it. */
  lemma SortsEarlier(paths: seq<Path>, i: nat, q: Path)
    requires Increasing(paths) && i < |paths| && q in paths && Less(q, paths[i])
    ensures exists j :: 0 <= j < i && paths[j] == q
  {
    var j :| 0 <= j < |paths| && paths[j] == q;
    Trichotomy(q, paths[i]);
  }

  lemma WritesGrow(trs: seq<Transition>, i: nat)
    requires i < |trs|
    ensures Writes(trs[..i + 1]) == Writes(trs[..i]) + {trs[i].path}
  {
    assert trs[..i + 1] == trs[..i] + [trs[i]];
    assert trs[..i + 1][i] == trs[i];
    forall k | 0 <= k < i ensures trs[..i][k].path in Writes(trs[..i + 1]) { assert trs[..i + 1][k] == trs[..i][k]; }
  }

  lemma {:induction false} FirstTouchAt(trs: seq<Transition>, i: nat)
    requires i < |trs| && trs[i].path !in Writes(trs[..i])
    ensures FirstTouch(trs, trs[i].path) == Some(trs[i].expected)
  {
    if i > 0 {
      assert trs[..i][0] == trs[0];
      assert trs[0].path in Writes(trs[..i]);
      var mid := trs[1..][..i - 1];
      forall k | 0 <= k < |mid| ensures mid[k].path != trs[i].path {
        assert mid[k] == trs[..i][k + 1];
        assert trs[..i][k + 1].path in Writes(trs[..i]);
      }
      FirstTouchAt(trs[1..], i - 1);
    }
  }

  /** planStaleBase: None when the base still holds everywhere; otherwise the first
      path in order that moved, or that has become a directory and cannot be read. */
  method PlanStaleBase(parent: Tree, pending: seq<Source>) returns (r: Result<Option<Path>, ReadError>)
    ensures r == Ok(None) <==> BaseHolds(parent, Flat(pending))
    ensures r.Ok? && r.value.Some? ==>
      MovedUnder(parent, Flat(pending), r.value.value) && HoldsBefore(parent, Flat(pending), r.value.value)
    ensures r.Err? ==>
      r.error.path in Writes(Flat(pending)) && TreeAt(parent, r.error.path) && HoldsBefore(parent, Flat(pending), r.error.path)
  {
    var trs := Flat(pending);
    var expected: map<Path, Option<Blob>> := map[];
    for i := 0 to |trs|
      invariant expected.Keys == Writes(trs[..i])
      invariant forall p :: p in expected ==> FirstTouch(trs, p) == Some(expected[p])
    {
      WritesGrow(trs, i);
      if trs[i].path !in expected {
        FirstTouchAt(trs, i);
        expected := expected[trs[i].path := trs[i].expected];
      }
    }
    assert trs[..|trs|] == trs;
    var paths := Listing(expected.Keys);
    for i := 0 to |paths|
      invariant forall j :: 0 <= j < i ==> BlobAt(parent, paths[j]) == Ok(expected[paths[j]])
    {
      assert paths[i] in paths;
      var have := BlobAt(parent, paths[i]);
      if have != Ok(expected[paths[i]]) {
        forall q | q in Writes(trs) && Less(q, paths[i]) ensures HoldsAt(parent, trs, q) {
          assert q in paths;
          SortsEarlier(paths, i, q);
        }
      }
      if have.Err? { return Err(have.error); }
      if have.value != expected[paths[i]] { return Ok(Some(paths[i])); }
    }
    forall p | p in Writes(trs) ensures BlobAt(parent, p) == Ok(expected[p]) {
      assert p in paths;
      var i :| 0 <= i < |paths| && paths[i] == p;
    }
    r := Ok(None);
  }

  /** aggregateWriteSet: the sorted union of the pending paths. */
  method AggregateWriteSet(pending: seq<Source>) returns (out: seq<Path>)
    ensures Increasing(out) && forall p :: p in out <==> p in Writes(Flat(pending))
  {
    var seen: set<Path> := {};
    for i := 0 to |pending|
      invariant seen == Writes(Flat(pending[..i]))
    {
      var trs := pending[i].transitions;
      assert pending[..i + 1][..i] == pending[..i];
      assert Flat(pending[..i]) + trs[..0] == Flat(pending[..i]);
      for j := 0 to |trs|
        invariant seen == Writes(Flat(pending[..i]) + trs[..j])
      {
        seen := seen + {trs[j].path};
        WritesGrow(Flat(pending[..i]) + trs, |Flat(pending[..i])| + j);
        assert (Flat(pending[..i]) + trs)[..|Flat(pending[..i])| + j] == Flat(pending[..i]) + trs[..j];
        assert (Flat(pending[..i]) + trs)[..|Flat(pending[..i])| + j + 1] == Flat(pending[..i]) + trs[..j + 1];
      }
      assert trs[..|trs|] == trs;
    }
    assert pending[..|pending|] == pending;
    out := Listing(seen);
  }

  /** The message of a replayed commit: the batch's bookkeeping dropped, its source
      named. */
  function ReplayMessage(c: Source): string {
    var msg := Messages.StripBatchTrailers(c.message);
    (if EndsWith(msg, "\n") then msg else msg + "\n") + "Source: " + c.sha + "\n"
  }

  function Replay(parent: Commit, c: Source): Commit {
    Commit([parent], PutAll(parent.tree, c.transitions), ReplayMessage(c))
  }

  function ReplayAll(parent: Commit, cs: seq<Source>): Commit {
    if |cs| == 0 then parent else Replay(ReplayAll(parent, cs[..|cs| - 1]), cs[|cs| - 1])
  }

  /** message is c's with the promoting process's own lines dropped, the rest as it
      was, and c named at the end as the source. */
  ghost predicate Rewords(message: string, c: Source) {
    var kept := Join(Filter(Split(c.message, '\n'), Messages.Lasting), '\n');
    message == (if EndsWith(kept, "\n") then kept else kept + "\n") + "Source: " + c.sha + "\n"
  }

  /** Its trailers are c's without the batch's, and the source. */
  ghost predicate Credits(message: string, c: Source) {
    Messages.CleanValue(c.sha) ==>
      Messages.ParseTrailers(message) == (Messages.ParseTrailers(c.message)
        - {"Batch", "Batch-Candidates", "Promoter-Host", "Promoter-PID", "Promoter-ProcStart"})["Source" := c.sha]
  }

  lemma SourceLineLast(front: string, sha: string)
    requires Messages.CleanValue(sha)
    ensures Messages.ParseTrailers(front + ['\n'] + Messages.TrailerLine("Source", sha) + ['\n'])
      == Messages.ParseTrailers(front)["Source" := sha]
  {
    assert Messages.PlainKey("Source");
    Messages.BreakChangesNothing(front + ['\n'] + Messages.TrailerLine("Source", sha));
    Messages.LineAtEnd(front, "Source", sha);
  }

  /** A message that ends its last line says the same as one that does not. */
  lemma LineEnded(kept: string) returns (front: string)
    ensures (if EndsWith(kept, "\n") then kept else kept + "\n") == front + ['\n']
    ensures Messages.ParseTrailers(front) == Messages.ParseTrailers(kept)
  {
    front := kept;
    if EndsWith(kept, "\n") {
      front := kept[..|kept| - 1];
      assert kept == front + ['\n'];
      Messages.BreakChangesNothing(front);
    }
  }

  lemma Respaced(msg: string, front: string, head: string, sha: string)
    requires msg == front + ['\n']
    ensures msg + head + sha + ['\n'] == front + ['\n'] + (head + sha) + ['\n']
  {
  }

  lemma SourceEnds(msg: string, front: string, sha: string)
    requires msg == front + ['\n']
    ensures msg + "Source: " + sha + "\n" == front + ['\n'] + Messages.TrailerLine("Source", sha) + ['\n']
  {
    Respaced(msg, front, "Source: ", sha);
    assert "Source" + ": " == "Source: " && ['\n'] == "\n";
  }

  lemma ReplayedReads(c: Source)
    requires Messages.CleanValue(c.sha)
    ensures Messages.ParseTrailers(ReplayMessage(c)) == (Messages.ParseTrailers(c.message)
      - {"Batch", "Batch-Candidates", "Promoter-Host", "Promoter-PID", "Promoter-ProcStart"})["Source" := c.sha]
  {
    Messages.StripExactly(c.message);
    var kept := Messages.StripBatchTrailers(c.message);
    var front := LineEnded(kept);
    SourceLineLast(front, c.sha);
    SourceEnds(if EndsWith(kept, "\n") then kept else kept + "\n", front, c.sha);
  }

  lemma Reworded(c: Source)
    ensures Rewords(ReplayMessage(c), c)
  {
    Messages.StripExactly(c.message);
  }

  lemma {:induction false} ReplayAppend(parent: Commit, a: seq<Source>, b: seq<Source>)
    ensures ReplayAll(parent, a + b) == ReplayAll(ReplayAll(parent, a), b)
  {
    if |b| == 0 {
      assert a + b == a;
    } else {
      assert (a + b)[..|a + b| - 1] == a + b[..|b| - 1];
      ReplayAppend(parent, a, b[..|b| - 1]);
    }
  }

  lemma {:induction false} ReplayTree(parent: Commit, cs: seq<Source>)
    ensures ReplayAll(parent, cs).tree == PutAll(parent.tree, Flat(cs))
  {
    if |cs| > 0 {
      ReplayTree(parent, cs[..|cs| - 1]);
      PutAllAppend(parent.tree, Flat(cs[..|cs| - 1]), cs[|cs| - 1].transitions);
    }
  }

  /** The commit c became: on the one before it alone, with c's changes and c's words. */
  ghost predicate Stands(at: Commit, below: Commit, c: Source) {
    at.parents == [below] && at.tree == PutAll(below.tree, c.transitions) && Rewords(at.message, c) && Credits(at.message, c)
  }

  /** head is parent with one commit for each of cs, in order, and nothing else. */
  ghost predicate CarriesAll(head: Commit, parent: Commit, cs: seq<Source>)
    decreases |cs|
  {
    if |cs| == 0 then head == parent
    else
      && |head.parents| == 1 && Stands(head, head.parents[0], cs[|cs| - 1])
      && CarriesAll(head.parents[0], parent, cs[..|cs| - 1])
  }

  lemma ReplayStands(parent: Commit, c: Source)
    ensures Stands(Replay(parent, c), parent, c)
  {
    Reworded(c);
    if Messages.CleanValue(c.sha) { ReplayedReads(c); }
  }

  lemma {:induction false} ReplayCarries(parent: Commit, cs: seq<Source>)
    ensures CarriesAll(ReplayAll(parent, cs), parent, cs)
  {
    if |cs| > 0 {
      var front := cs[..|cs| - 1];
      ReplayCarries(parent, front);
      ReplayStands(ReplayAll(parent, front), cs[|cs| - 1]);
    }
  }

  /** The k-th of cs is |cs| - 1 - k first-parent steps behind head. */
  lemma {:induction false} CarriedAt(head: Commit, parent: Commit, cs: seq<Source>, k: nat) returns (at: Commit)
    requires CarriesAll(head, parent, cs) && k < |cs|
    ensures Back(head, |cs| - 1 - k) == Some(at) && Rewords(at.message, cs[k]) && Credits(at.message, cs[k])
  {
    if k == |cs| - 1 {
      at := head;
    } else {
      at := CarriedAt(head.parents[0], parent, cs[..|cs| - 1], k);
      assert cs[..|cs| - 1][k] == cs[k];
    }
  }

  ghost predicate ExpectsLast(cs: seq<Source>, i: nat, tr: Transition)
    requires i < |cs|
  {
    tr.path in Writes(Flat(cs[..i])) ==> tr.expected == After(Flat(cs[..i]), tr.path, None)
  }

  /** Within the bead, a path touched before expects what its last toucher left. */
  ghost predicate Coherent(cs: seq<Source>) {
    forall i, j :: 0 <= i < |cs| && 0 <= j < |cs[i].transitions| ==> ExpectsLast(cs, i, cs[i].transitions[j])
  }

  /** A real change, path by path. */
  ghost predicate RealDiff(trs: seq<Transition>) {
    && (forall j :: 0 <= j < |trs| ==> trs[j].expected != trs[j].result)
    && (forall i, j :: 0 <= i < j < |trs| ==> trs[i].path != trs[j].path)
  }

  lemma {:induction false} TouchedForgets(trs: seq<Transition>, p: Path, x: Option<Blob>, y: Option<Blob>)
    requires p in Writes(trs)
    ensures After(trs, p, x) == After(trs, p, y)
  {
    var n := |trs| - 1;
    if trs[n].path != p {
      var i :| 0 <= i < |trs| && trs[i].path == p;
      assert trs[..n][i].path == p;
      TouchedForgets(trs[..n], p, x, y);
    }
  }

  lemma {:induction false} FlatPrefix(cs: seq<Source>, i: nat)
    requires i <= |cs|
    ensures Flat(cs[..i]) <= Flat(cs)
  {
    if i < |cs| {
      FlatPrefix(cs[..|cs| - 1], i);
      assert cs[..|cs| - 1][..i] == cs[..i];
    } else {
      assert cs[..i] == cs;
    }
  }

  /** The first touch of an untouched path is this commit's own. */
  lemma FirstTouchHere(cs: seq<Source>, i: nat, j: nat)
    requires i < |cs| && j < |cs[i].transitions| && RealDiff(cs[i].transitions)
    requires cs[i].transitions[j].path !in Writes(Flat(cs[..i]))
    ensures FirstTouch(Flat(cs), cs[i].transitions[j].path) == Some(cs[i].transitions[j].expected)
    ensures cs[i].transitions[j].path in Writes(Flat(cs))
  {
    var trs := Flat(cs);
    var n := |Flat(cs[..i])|;
    FlatPrefix(cs, i + 1);
    assert cs[..i + 1][..i] == cs[..i];
    assert Flat(cs[..i + 1]) == Flat(cs[..i]) + cs[i].transitions;
    assert trs[n + j] == Flat(cs[..i + 1])[n + j] == cs[i].transitions[j];
    var earlier := trs[..n + j];
    forall k | 0 <= k < |earlier| ensures earlier[k].path != cs[i].transitions[j].path {
      if k < n {
        assert trs[k] == Flat(cs[..i])[k];
        assert Flat(cs[..i])[k].path in Writes(Flat(cs[..i]));
      } else {
        assert trs[k] == cs[i].transitions[k - n];
      }
    }
    FirstTouchAt(trs, n + j);
  }

  /** First-touch preimages are enough: on the branch, every replayed commit finds
      exactly what its source found. */
  lemma ReplayFindsExpected(parent: Commit, cs: seq<Source>, i: nat, j: nat)
    requires BaseHolds(parent.tree, Flat(cs)) && Coherent(cs)
    requires i < |cs| && j < |cs[i].transitions| && RealDiff(cs[i].transitions)
    ensures Lookup(ReplayAll(parent, cs[..i]).tree, cs[i].transitions[j].path) == cs[i].transitions[j].expected
  {
    var p := cs[i].transitions[j].path;
    var before := Flat(cs[..i]);
    ReplayTree(parent, cs[..i]);
    PutAllLookup(parent.tree, before, p);
    assert ExpectsLast(cs, i, cs[i].transitions[j]);
    if p in Writes(before) {
      TouchedForgets(before, p, None, Lookup(parent.tree, p));
    } else {
      AfterUntouched(before, p, Lookup(parent.tree, p));
      FirstTouchHere(cs, i, j);
    }
  }

  /** And each replayed commit changes exactly the paths its source changed. */
  lemma ReplayChangesExactly(parent: Commit, cs: seq<Source>, i: nat)
    requires BaseHolds(parent.tree, Flat(cs)) && Coherent(cs) && i < |cs| && RealDiff(cs[i].transitions)
    ensures Admission.Changed(ReplayAll(parent, cs[..i]).tree, ReplayAll(parent, cs[..i + 1]).tree) == Writes(cs[i].transitions)
  {
    var before, after := ReplayAll(parent, cs[..i]).tree, ReplayAll(parent, cs[..i + 1]).tree;
    var trs := cs[i].transitions;
    assert cs[..i + 1][..i] == cs[..i];
    assert after == PutAll(before, trs);
    forall p ensures p in Admission.Changed(before, after) <==> p in Writes(trs) {
      PutAllLookup(before, trs, p);
      assert p in Admission.Changed(before, after) <==> Lookup(before, p) != Lookup(after, p);
      if p in Writes(trs) {
        var j :| 0 <= j < |trs| && trs[j].path == p;
        AfterTouched(trs, j, Lookup(before, p));
        ReplayFindsExpected(parent, cs, i, j);
      } else {
        AfterUntouched(trs, p, Lookup(before, p));
      }
    }
  }

  /** The finished branch is its parent off the write-set and the last result on it. */
  lemma BranchExactly(parent: Commit, cs: seq<Source>, p: Path)
    ensures p !in Writes(Flat(cs)) ==> Lookup(ReplayAll(parent, cs).tree, p) == Lookup(parent.tree, p)
    ensures p in Writes(Flat(cs)) ==> Lookup(ReplayAll(parent, cs).tree, p) == After(Flat(cs), p, None)
  {
    ReplayTree(parent, cs);
    PutAllLookup(parent.tree, Flat(cs), p);
    if p in Writes(Flat(cs)) {
      TouchedForgets(Flat(cs), p, Lookup(parent.tree, p), None);
    } else {
      AfterUntouched(Flat(cs), p, Lookup(parent.tree, p));
    }
  }

  // --- beads are independent ------------------------------------------------

  /** Lease disjointness: two beads never write the same path. */
  ghost predicate BeadsDisjoint(cs: seq<Source>) {
    forall i, j :: 0 <= i < |cs| && 0 <= j < |cs| && BeadOf(cs[i]) != BeadOf(cs[j]) ==>
      Writes(cs[i].transitions) !! Writes(cs[j].transitions)
  }

  /** p belongs to bead: nobody else in cs writes it. */
  ghost predicate Owns(cs: seq<Source>, bead: string, p: Path) {
    forall i :: 0 <= i < |cs| && p in Writes(cs[i].transitions) ==> BeadOf(cs[i]) == bead
  }

  lemma {:induction false} AfterAppend(a: seq<Transition>, b: seq<Transition>, p: Path, x: Option<Blob>)
    ensures After(a + b, p, x) == After(b, p, After(a, p, x))
  {
    if |b| == 0 {
      assert a + b == a;
    } else {
      assert (a + b)[..|a + b| - 1] == a + b[..|b| - 1];
      AfterAppend(a, b[..|b| - 1], p, x);
    }
  }

  /** What becomes of a path depends on its own bead's commits alone. */
  lemma {:induction false} OwnBeadDecides(cs: seq<Source>, bead: string, p: Path, x: Option<Blob>)
    requires Owns(cs, bead, p)
    ensures After(Flat(cs), p, x) == After(Flat(OfBead(cs, bead)), p, x)
  {
    if |cs| > 0 {
      var front, c := cs[..|cs| - 1], cs[|cs| - 1];
      assert Owns(front, bead, p) by {
        forall i | 0 <= i < |front| && p in Writes(front[i].transitions) ensures BeadOf(front[i]) == bead {
          assert front[i] == cs[i];
        }
      }
      OwnBeadDecides(front, bead, p, x);
      AfterAppend(Flat(front), c.transitions, p, x);
      if BeadOf(c) == bead {
        var mine := OfBead(cs, bead);
        assert mine[..|mine| - 1] == OfBead(front, bead);
        AfterAppend(Flat(OfBead(front, bead)), c.transitions, p, x);
      } else {
        AfterUntouched(c.transitions, p, After(Flat(front), p, x));
      }
    }
  }

  /** The groups one after another, in the order given. */
  function Grouped(cs: seq<Source>, order: seq<string>): seq<Source> {
    if |order| == 0 then [] else Grouped(cs, order[..|order| - 1]) + OfBead(cs, order[|order| - 1])
  }

  lemma AppendWrites(a: seq<Transition>, b: seq<Transition>, p: Path)
    ensures p in Writes(a + b) <==> p in Writes(a) || p in Writes(b)
  {
    if p in Writes(a) { var i :| 0 <= i < |a| && a[i].path == p; assert (a + b)[i].path == p; }
    if p in Writes(b) { var i :| 0 <= i < |b| && b[i].path == p; assert (a + b)[|a| + i].path == p; }
  }

  lemma {:induction false} OfBeadWrites(cs: seq<Source>, bead: string, p: Path)
    requires p in Writes(Flat(OfBead(cs, bead)))
    ensures exists i :: 0 <= i < |cs| && BeadOf(cs[i]) == bead && p in Writes(cs[i].transitions)
  {
    var front, c := cs[..|cs| - 1], cs[|cs| - 1];
    if BeadOf(c) == bead {
      var mine := OfBead(cs, bead);
      assert mine[..|mine| - 1] == OfBead(front, bead);
      if p !in Writes(c.transitions) {
        AppendWrites(Flat(OfBead(front, bead)), c.transitions, p);
        OfBeadWrites(front, bead, p);
        var i :| 0 <= i < |front| && BeadOf(front[i]) == bead && p in Writes(front[i].transitions);
        assert cs[i] == front[i];
      }
    } else {
      OfBeadWrites(front, bead, p);
      var i :| 0 <= i < |front| && BeadOf(front[i]) == bead && p in Writes(front[i].transitions);
      assert cs[i] == front[i];
    }
  }

  lemma {:induction false} FlatAppend(a: seq<Source>, b: seq<Source>)
    ensures Flat(a + b) == Flat(a) + Flat(b)
  {
    if |b| == 0 {
      assert a + b == a;
    } else {
      assert (a + b)[..|a + b| - 1] == a + b[..|b| - 1];
      FlatAppend(a, b[..|b| - 1]);
      assert Flat(a) + (Flat(b[..|b| - 1]) + b[|b| - 1].transitions) == (Flat(a) + Flat(b[..|b| - 1])) + b[|b| - 1].transitions;
    }
  }

  lemma NotItsGroup(cs: seq<Source>, bead: string, other: string, p: Path)
    requires Owns(cs, bead, p) && other != bead
    ensures p !in Writes(Flat(OfBead(cs, other)))
  {
    if p in Writes(Flat(OfBead(cs, other))) {
      OfBeadWrites(cs, other, p);
    }
  }

  /** In any grouped order, a path is decided by its own bead's group. */
  lemma {:induction false} GroupDecides(cs: seq<Source>, order: seq<string>, bead: string, p: Path, x: Option<Blob>)
    requires Owns(cs, bead, p)
    requires forall i, j :: 0 <= i < j < |order| ==> order[i] != order[j]
    ensures After(Flat(Grouped(cs, order)), p, x) == if bead in order then After(Flat(OfBead(cs, bead)), p, x) else x
  {
    if |order| > 0 {
      var front, last := order[..|order| - 1], order[|order| - 1];
      GroupDecides(cs, front, bead, p, x);
      FlatAppend(Grouped(cs, front), OfBead(cs, last));
      AfterAppend(Flat(Grouped(cs, front)), Flat(OfBead(cs, last)), p, x);
      if last != bead {
        NotItsGroup(cs, bead, last, p);
        AfterUntouched(Flat(OfBead(cs, last)), p, After(Flat(Grouped(cs, front)), p, x));
      }
      assert bead in order <==> bead in front || bead == last;
    }
  }

  lemma SameOwner(cs: seq<Source>, i: nat, k: nat, p: Path)
    requires BeadsDisjoint(cs) && i < |cs| && k < |cs|
    requires p in Writes(cs[i].transitions) && p in Writes(cs[k].transitions)
    ensures BeadOf(cs[i]) == BeadOf(cs[k])
  {
  }

  lemma OwnerOf(cs: seq<Source>, p: Path) returns (bead: string)
    requires BeadsDisjoint(cs)
    ensures Owns(cs, bead, p)
  {
    if k :| 0 <= k < |cs| && p in Writes(cs[k].transitions) {
      bead := BeadOf(cs[k]);
      forall i | 0 <= i < |cs| && p in Writes(cs[i].transitions) ensures BeadOf(cs[i]) == bead {
        SameOwner(cs, i, k, p);
      }
    } else {
      bead := "";
    }
  }

  lemma {:induction false} NoCommits(cs: seq<Source>, bead: string)
    requires forall i :: 0 <= i < |cs| ==> BeadOf(cs[i]) != bead
    ensures OfBead(cs, bead) == []
  {
    if |cs| > 0 { NoCommits(cs[..|cs| - 1], bead); }
  }

  /** Beads are independent: with disjoint beads, applying the groups in any bead
      order whatsoever gives the tree the original interleaving gave. */
  lemma AnyBeadOrder(t: Tree, cs: seq<Source>, order: seq<string>)
    requires BeadsDisjoint(cs)
    requires forall i, j :: 0 <= i < j < |order| ==> order[i] != order[j]
    requires forall i :: 0 <= i < |cs| ==> BeadOf(cs[i]) in order
    ensures PutAll(t, Flat(Grouped(cs, order))) == PutAll(t, Flat(cs))
  {
    forall p ensures Lookup(PutAll(t, Flat(Grouped(cs, order))), p) == Lookup(PutAll(t, Flat(cs)), p) {
      PutAllLookup(t, Flat(cs), p);
      PutAllLookup(t, Flat(Grouped(cs, order)), p);
      var bead := OwnerOf(cs, p);
      OwnBeadDecides(cs, bead, p, Lookup(t, p));
      GroupDecides(cs, order, bead, p, Lookup(t, p));
      if bead !in order {
        NoCommits(cs, bead);
      }
    }
    SameTree(PutAll(t, Flat(Grouped(cs, order))), PutAll(t, Flat(cs)));
  }

  /** Integration as the bridge reads it: each commit's expected contents are what
      the one before left. */
  ghost predicate ReadFrom(t: Tree, cs: seq<Source>) {
    forall i, j :: 0 <= i < |cs| && 0 <= j < |cs[i].transitions| ==>
      cs[i].transitions[j].expected == Lookup(PutAll(t, Flat(cs[..i])), cs[i].transitions[j].path)
  }

  /** So a bead's own commits agree with one another, as long as no other bead
      writes its paths. */
  lemma DisjointIsCoherent(t: Tree, cs: seq<Source>, bead: string)
    requires ReadFrom(t, cs) && BeadsDisjoint(cs)
    ensures Coherent(OfBead(cs, bead))
  {
    var mine := OfBead(cs, bead);
    var at := OfBeadPositions(cs, bead);
    forall i, j | 0 <= i < |mine| && 0 <= j < |mine[i].transitions|
      ensures ExpectsLast(mine, i, mine[i].transitions[j])
    {
      var k, p := at[i], mine[i].transitions[j].path;
      assert cs[k] == mine[i];
      assert p in Writes(cs[k].transitions);
      assert k in at;
      forall n | 0 <= n < |cs[..k]| && p in Writes(cs[..k][n].transitions) ensures BeadOf(cs[..k][n]) == bead {
        SameOwner(cs, n, k, p);
      }
      OwnBeadDecides(cs[..k], bead, p, Lookup(t, p));
      PutAllLookup(t, Flat(cs[..k]), p);
      if p in Writes(Flat(mine[..i])) {
        TouchedForgets(Flat(mine[..i]), p, Lookup(t, p), None);
      }
    }
  }

  // --- a promoted chain, as the bridge reads it -----------------------------

  function TreeBefore(base: Tree, trees: seq<Tree>, i: nat): Tree
    requires i <= |trees|
  {
    if i == 0 then base else trees[i - 1]
  }

  /** cs are commits one on the other from base, with these trees, each read the way
      the bridge reads a commit. */
  ghost predicate ReadChain(base: Tree, trees: seq<Tree>, cs: seq<Source>) {
    |trees| == |cs| && forall i :: 0 <= i < |cs| ==> DiffOf(cs[i].transitions, TreeBefore(base, trees, i), trees[i])
  }

  /** What is read of a commit is a real change, and makes its tree of its parent's. */
  lemma DiffApplies(trs: seq<Transition>, parent: Tree, tree: Tree)
    requires DiffOf(trs, parent, tree)
    ensures RealDiff(trs) && PutAll(parent, trs) == tree
  {
    var paths := seq(|trs|, i requires 0 <= i < |trs| => trs[i].path);
    forall i, j | 0 <= i < j < |trs| ensures trs[i].path != trs[j].path {
      assert Less(paths[i], paths[j]);
      Trichotomy(paths[i], paths[j]);
    }
    forall i | 0 <= i < |trs| ensures trs[i].expected != trs[i].result {
      assert trs[i].path in Writes(trs);
    }
    forall p ensures Lookup(PutAll(parent, trs), p) == Lookup(tree, p) {
      PutAllLookup(parent, trs, p);
      if p in Writes(trs) {
        var i :| 0 <= i < |trs| && trs[i].path == p;
        AfterTouched(trs, i, Lookup(parent, p));
      } else {
        AfterUntouched(trs, p, Lookup(parent, p));
        assert p !in Admission.Changed(parent, tree);
      }
    }
    SameTree(PutAll(parent, trs), tree);
  }

  lemma FlatOneMore(base: Tree, cs: seq<Source>, i: nat)
    requires i < |cs|
    ensures PutAll(base, Flat(cs[..i + 1])) == PutAll(PutAll(base, Flat(cs[..i])), cs[i].transitions)
  {
    assert cs[..i + 1][..i] == cs[..i];
    PutAllAppend(base, Flat(cs[..i]), cs[i].transitions);
  }

  lemma ChainStep(base: Tree, trees: seq<Tree>, cs: seq<Source>, i: nat)
    requires ReadChain(base, trees, cs) && i < |cs|
    ensures PutAll(TreeBefore(base, trees, i), cs[i].transitions) == TreeBefore(base, trees, i + 1)
  {
    DiffApplies(cs[i].transitions, TreeBefore(base, trees, i), trees[i]);
  }

  lemma {:induction false} ChainTrees(base: Tree, trees: seq<Tree>, cs: seq<Source>, i: nat)
    requires ReadChain(base, trees, cs) && i <= |cs|
    ensures PutAll(base, Flat(cs[..i])) == TreeBefore(base, trees, i)
  {
    if i > 0 {
      ChainTrees(base, trees, cs, i - 1);
      FlatOneMore(base, cs, i - 1);
      ChainStep(base, trees, cs, i - 1);
    }
  }

  lemma ChainReadsOn(base: Tree, trees: seq<Tree>, cs: seq<Source>)
    requires ReadChain(base, trees, cs)
    ensures ReadFrom(base, cs) && forall i :: 0 <= i < |cs| ==> RealDiff(cs[i].transitions)
  {
    forall i | 0 <= i < |cs| ensures RealDiff(cs[i].transitions) {
      DiffApplies(cs[i].transitions, TreeBefore(base, trees, i), trees[i]);
    }
    forall i, j | 0 <= i < |cs| && 0 <= j < |cs[i].transitions|
      ensures cs[i].transitions[j].expected == Lookup(PutAll(base, Flat(cs[..i])), cs[i].transitions[j].path)
    {
      ChainTrees(base, trees, cs, i);
    }
  }

  /** Of any stretch of integration as it is read, with beads disjoint, a bead's commits
      replay cleanly wherever their first-touch preimages hold: each finds what its source
      found, and changes what its source changed. */
  lemma ReadChainReplays(base: Tree, trees: seq<Tree>, cs: seq<Source>, bead: string, parent: Commit, i: nat)
    requires ReadChain(base, trees, cs) && BeadsDisjoint(cs)
    requires BaseHolds(parent.tree, Flat(OfBead(cs, bead))) && i < |OfBead(cs, bead)|
    ensures var mine := OfBead(cs, bead);
      var before, after := ReplayAll(parent, mine[..i]).tree, ReplayAll(parent, mine[..i + 1]).tree;
      && (forall j :: 0 <= j < |mine[i].transitions| ==>
            Lookup(before, mine[i].transitions[j].path) == mine[i].transitions[j].expected)
      && Admission.Changed(before, after) == Writes(mine[i].transitions)
  {
    var mine := OfBead(cs, bead);
    ChainReadsOn(base, trees, cs);
    DisjointIsCoherent(base, cs, bead);
    var k := OfBeadSplit(cs, bead, i);
    forall j | 0 <= j < |mine[i].transitions|
      ensures Lookup(ReplayAll(parent, mine[..i]).tree, mine[i].transitions[j].path) == mine[i].transitions[j].expected
    {
      ReplayFindsExpected(parent, mine, i, j);
    }
    ReplayChangesExactly(parent, mine, i);
  }
}
