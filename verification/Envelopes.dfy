/** The candidate envelope: what a proposal changes, the content each changed path
    must still have, and the directories its new files rely on. */
module Envelopes {
  import opened Options
  import opened Ordering
  import opened Paths
  import opened Trees

  /** A commit is its content, so equal commits are one commit: SHAs never collide. */
  datatype Commit = Commit(parents: seq<Commit>, tree: Tree, message: string)

  /** The commit n first-parent steps back, if the history is that deep. */
  function Back(c: Commit, n: nat): Option<Commit> {
    if n == 0 then Some(c)
    else if c.parents == [] then None
    else Back(c.parents[0], n - 1)
  }

  datatype Envelope = Envelope(
    candidateId: string,
    proposal: Commit,
    base: string,
    agent: string,
    session: string,
    bead: string,
    writeSet: seq<Path>,
    transitions: seq<Transition>,
    ancestry: seq<Path>,
    leaseEpoch: map<Path, int>)

  datatype CaptureError = EmptyField | NotBlob(path: Path) | AncestryNotTree(path: Path)

  /** The one transition Capture records for p. */
  function CapturedTransition(integ: Tree, prop: Tree, p: Path): Transition {
    Transition(p, Lookup(integ, p), Lookup(prop, p))
  }

  predicate Readable(t: Tree, p: Path) {
    BlobAt(t, p).Ok?
  }

  predicate TransitionsFrom(trs: seq<Transition>, ws: seq<Path>, integ: Tree, prop: Tree) {
    && |trs| == |ws|
    && forall i :: 0 <= i < |ws| ==>
      trs[i] == CapturedTransition(integ, prop, ws[i]) && Readable(integ, ws[i]) && Readable(prop, ws[i])
  }

  /** d is a directory some created path lies in. */
  predicate NeededBy(d: Path, trs: seq<Transition>) {
    exists i | 0 <= i < |trs| :: trs[i].expected.None? && d in AncestorsOf(trs[i].path)
  }

  predicate AncestryFrom(ancestry: seq<Path>, trs: seq<Transition>, integ: Tree) {
    && Increasing(ancestry)
    && (forall d | d in ancestry :: NeededBy(d, trs) && TreeAt(integ, d))
    && (forall i | 0 <= i < |trs| :: trs[i].expected.None? ==>
      forall d | d in AncestorsOf(trs[i].path) :: d in ancestry)
  }

  /** e is an envelope Capture could have minted against integ for a proposal
      whose tree is prop. */
  predicate CapturedFrom(e: Envelope, integ: Tree, prop: Tree) {
    && e.candidateId != "" && e.bead != "" && e.writeSet != []
    && TransitionsFrom(e.transitions, e.writeSet, integ, prop)
    && AncestryFrom(e.ancestry, e.transitions, integ)
  }

  /** No path the envelope writes lies beneath another one it writes. */
  ghost predicate ResultsApart(trs: seq<Transition>) {
    forall i, j :: 0 <= i < |trs| && 0 <= j < |trs| && trs[i].result.Some? && trs[j].result.Some?
      ==> !Beneath(trs[i].path, trs[j].path)
  }

  ghost predicate AncestryComplete(e: Envelope) {
    forall i, d :: 0 <= i < |e.transitions| && e.transitions[i].expected.None? && Beneath(d, e.transitions[i].path)
      ==> d in e.ancestry
  }

  /** What promotion relies on in an envelope, whatever trees it came from. */
  ghost predicate Sound(e: Envelope) {
    && |e.transitions| == |e.writeSet|
    && (forall i :: 0 <= i < |e.writeSet| ==> e.transitions[i].path == e.writeSet[i])
    && Consistent(e.transitions)
    && ResultsApart(e.transitions)
    && AncestryComplete(e)
  }

  predicate CanonicalPaths(ws: seq<Path>) {
    forall i :: 0 <= i < |ws| ==> Canonical(ws[i])
  }

  lemma CapturedIsSound(e: Envelope, integ: Tree, prop: Tree)
    requires CapturedFrom(e, integ, prop) && CanonicalPaths(e.writeSet)
    requires WellFormed(integ) && WellFormed(prop)
    ensures Sound(e)
  {
    forall i, d | 0 <= i < |e.transitions| && e.transitions[i].expected.None? && Beneath(d, e.transitions[i].path)
      ensures d in e.ancestry
    {
      AncestorsExact(e.transitions[i].path, d);
    }
  }

  /** captureTransitions: one transition per write-set path, and the created ones. */
  method CaptureTransitions(integ: Tree, prop: Tree, ws: seq<Path>)
    returns (r: Result<(seq<Transition>, seq<Path>), ReadError>)
    ensures r.Ok? <==> forall i :: 0 <= i < |ws| ==> Readable(integ, ws[i]) && Readable(prop, ws[i])
    ensures r.Ok? ==> TransitionsFrom(r.value.0, ws, integ, prop)
    ensures r.Ok? ==> forall p :: p in r.value.1 <==> exists i :: 0 <= i < |ws| && ws[i] == p && p !in integ
    ensures r.Err? ==> r.error.path in ws && !(Readable(integ, r.error.path) && Readable(prop, r.error.path))
  {
    var trs, created := [], [];
    for i := 0 to |ws|
      invariant forall j :: 0 <= j < i ==> Readable(integ, ws[j]) && Readable(prop, ws[j])
      invariant TransitionsFrom(trs, ws[..i], integ, prop)
      invariant forall p :: p in created <==> exists j :: 0 <= j < i && ws[j] == p && p !in integ
    {
      var expected := BlobAt(integ, ws[i]);
      if expected.Err? { return Err(expected.error); }
      var result := BlobAt(prop, ws[i]);
      if result.Err? { return Err(result.error); }
      trs := trs + [Transition(ws[i], expected.value, result.value)];
      if expected.value.None? {
        created := created + [ws[i]];
      }
    }
    assert ws[..|ws|] == ws;
    r := Ok((trs, created));
  }

  /** captureAncestry: every directory a created path lies in, each checked now. */
  method CaptureAncestry(integ: Tree, created: seq<Path>) returns (r: Result<seq<Path>, Path>)
    ensures r.Ok? ==> Increasing(r.value)
    ensures r.Ok? ==> forall d :: d in r.value <==> exists i :: 0 <= i < |created| && d in AncestorsOf(created[i])
    ensures r.Ok? ==> forall d :: d in r.value ==> TreeAt(integ, d)
    ensures r.Err? ==> !TreeAt(integ, r.error) && exists i :: 0 <= i < |created| && r.error in AncestorsOf(created[i])
  {
    var needed: set<Path> := {};
    for i := 0 to |created|
      invariant forall d :: d in needed <==> exists j :: 0 <= j < i && d in AncestorsOf(created[j])
    {
      needed := needed + (set d | d in AncestorsOf(created[i]));
    }
    var rest := needed;
    while rest != {}
      invariant rest <= needed
      invariant forall d :: d in needed - rest ==> TreeAt(integ, d)
    {
      var d :| d in rest;
      if !TreeAt(integ, d) { return Err(d); }
      rest := rest - {d};
    }
    r := Ok(Listing(needed));
  }

  /** The fact each refusal reports. */
  predicate Refused(e: CaptureError, integ: Tree, proposal: Commit, writeSet: seq<Path>, candidateId: string, bead: string) {
    match e
    case EmptyField => candidateId == "" || bead == "" || writeSet == []
    case NotBlob(p) => p in writeSet && (TreeAt(integ, p) || TreeAt(proposal.tree, p))
    case AncestryNotTree(d) => !TreeAt(integ, d) && exists p | p in writeSet :: p !in integ && d in AncestorsOf(p)
  }

  predicate AllTrees(t: Tree, ds: seq<Path>) {
    forall d | d in ds :: TreeAt(t, d)
  }

  /** Nothing stands against an envelope for this write-set: its paths are files or
      nothing on both sides, and a new file's directories are there. */
  predicate Mintable(integ: Tree, prop: Tree, ws: seq<Path>, candidateId: string, bead: string) {
    && candidateId != "" && bead != "" && ws != []
    && forall p | p in ws :: Readable(integ, p) && Readable(prop, p) && (p in integ || AllTrees(integ, AncestorsOf(p)))
  }

  function EpochsFor(ws: seq<Path>, epochs: map<Path, int>): map<Path, int> {
    map p | p in ws :: if p in epochs then epochs[p] else 0
  }

  /** A refusal is given only where there is something to refuse. */
  lemma RefusedIsUnmintable(e: CaptureError, integ: Tree, proposal: Commit, ws: seq<Path>, candidateId: string, bead: string)
    requires Refused(e, integ, proposal, ws, candidateId, bead)
    ensures !Mintable(integ, proposal.tree, ws, candidateId, bead)
  {
  }

  lemma MintedIsMintable(e: Envelope, integ: Tree, prop: Tree, ws: seq<Path>)
    requires CapturedFrom(e, integ, prop) && e.writeSet == Sort(ws) && ws != []
    ensures Mintable(integ, prop, ws, e.candidateId, e.bead)
  {
    SortMembers(ws);
    forall p | p in ws ensures Readable(integ, p) && Readable(prop, p) && (p in integ || AllTrees(integ, AncestorsOf(p))) {
      var i :| 0 <= i < |e.writeSet| && e.writeSet[i] == p;
      assert e.transitions[i] == CapturedTransition(integ, prop, p);
    }
  }

  lemma NeededDirectories(ancestry: seq<Path>, trs: seq<Transition>, ws: seq<Path>, created: seq<Path>, integ: Tree, prop: Tree)
    requires TransitionsFrom(trs, ws, integ, prop)
    requires forall p :: p in created <==> exists i :: 0 <= i < |ws| && ws[i] == p && p !in integ
    requires Increasing(ancestry) && forall d :: d in ancestry ==> TreeAt(integ, d)
    requires forall d :: d in ancestry <==> exists i :: 0 <= i < |created| && d in AncestorsOf(created[i])
    ensures AncestryFrom(ancestry, trs, integ)
  {
    forall d | d in ancestry ensures NeededBy(d, trs) {
      var i :| 0 <= i < |created| && d in AncestorsOf(created[i]);
      assert created[i] in created;
      var k :| 0 <= k < |ws| && ws[k] == created[i] && created[i] !in integ;
      assert trs[k].path == created[i] && trs[k].expected.None?;
    }
    forall i, d | 0 <= i < |trs| && trs[i].expected.None? && d in AncestorsOf(trs[i].path) ensures d in ancestry {
      assert ws[i] in created;
      var k :| 0 <= k < |created| && created[k] == ws[i];
    }
  }

  /** Capture: an envelope for the proposal as integration stands, or the reason
      there is none. */
  method Capture(integ: Tree, proposal: Commit, base: string, writeSet: seq<Path>, candidateId: string,
      agent: string, session: string, bead: string, leaseEpoch: map<Path, int>)
    returns (r: Result<Envelope, CaptureError>)
    ensures r.Ok? ==> CapturedFrom(r.value, integ, proposal.tree)
    ensures r.Ok? ==> r.value.writeSet == Sort(writeSet) && r.value.proposal == proposal
    ensures r.Ok? ==> r.value.candidateId == candidateId && r.value.base == base
    ensures r.Ok? ==> r.value.agent == agent && r.value.session == session && r.value.bead == bead
    ensures r.Ok? ==> forall p :: p in r.value.leaseEpoch <==> p in writeSet
    ensures r.Ok? ==> forall p :: p in writeSet ==> r.value.leaseEpoch[p] == if p in leaseEpoch then leaseEpoch[p] else 0
    ensures r.Ok? <==> Mintable(integ, proposal.tree, writeSet, candidateId, bead)
    ensures r.Err? ==> Refused(r.error, integ, proposal, writeSet, candidateId, bead)
  {
    if candidateId == "" || bead == "" || writeSet == [] {
      RefusedIsUnmintable(EmptyField, integ, proposal, writeSet, candidateId, bead);
      return Err(EmptyField);
    }
    var ws := Sort(writeSet);
    SortMembers(writeSet);
    var captured := CaptureTransitions(integ, proposal.tree, ws);
    if captured.Err? {
      RefusedIsUnmintable(NotBlob(captured.error.path), integ, proposal, writeSet, candidateId, bead);
      return Err(NotBlob(captured.error.path));
    }
    var (trs, created) := captured.value;
    var ancestry := CaptureAncestry(integ, created);
    if ancestry.Err? {
      ghost var i :| 0 <= i < |created| && ancestry.error in AncestorsOf(created[i]);
      assert created[i] in created;
      RefusedIsUnmintable(AncestryNotTree(ancestry.error), integ, proposal, writeSet, candidateId, bead);
      return Err(AncestryNotTree(ancestry.error));
    }
    NeededDirectories(ancestry.value, trs, ws, created, integ, proposal.tree);
    r := Ok(Envelope(candidateId, proposal, base, agent, session, bead, ws, trs, ancestry.value, EpochsFor(writeSet, leaseEpoch)));
    MintedIsMintable(r.value, integ, proposal.tree, writeSet);
  }

  /** CreatedPaths: what a rejection may hand a deleter, each path with its bytes. */
  function CreatedPaths(trs: seq<Transition>): seq<(Path, Option<Blob>)> {
    if |trs| == 0 then []
    else if trs[0].expected.None? then [(trs[0].path, trs[0].result)] + CreatedPaths(trs[1..])
    else CreatedPaths(trs[1..])
  }

  /** CreatedPaths, in one pass. */
  method ListCreated(trs: seq<Transition>) returns (out: seq<(Path, Option<Blob>)>)
    ensures out == CreatedPaths(trs)
  {
    out := [];
    var i := 0;
    assert trs[0..] == trs;
    while i < |trs|
      invariant 0 <= i <= |trs|
      invariant out + CreatedPaths(trs[i..]) == CreatedPaths(trs)
    {
      assert trs[i..][1..] == trs[i + 1..];
      if trs[i].expected.None? {
        assert out + ([(trs[i].path, trs[i].result)] + CreatedPaths(trs[i + 1..])) == out + [(trs[i].path, trs[i].result)] + CreatedPaths(trs[i + 1..]);
        out := out + [(trs[i].path, trs[i].result)];
      }
      i := i + 1;
    }
  }

  lemma {:induction false} CreatedFrom(trs: seq<Transition>, p: Path, b: Option<Blob>)
    ensures (p, b) in CreatedPaths(trs) <==> exists i :: 0 <= i < |trs| && trs[i] == Transition(p, None, b)
  {
    if |trs| > 0 {
      CreatedFrom(trs[1..], p, b);
      assert trs == [trs[0]] + trs[1..];
      if i :| 0 <= i < |trs[1..]| && trs[1..][i] == Transition(p, None, b) { assert trs[i + 1] == Transition(p, None, b); }
    }
  }

  /** What a rejection may hand a deleter: exactly the declared paths integration did
      not have at capture, each with the content the proposal gave it. */
  lemma CreatedExactly(e: Envelope, integ: Tree, prop: Tree, p: Path, b: Option<Blob>)
    requires CapturedFrom(e, integ, prop)
    ensures (p, b) in CreatedPaths(e.transitions) <==> p in e.writeSet && p !in integ && b == Lookup(prop, p)
  {
    CreatedFrom(e.transitions, p, b);
    if p in e.writeSet && p !in integ && b == Lookup(prop, p) {
      var i :| 0 <= i < |e.writeSet| && e.writeSet[i] == p;
      assert e.transitions[i] == Transition(p, None, b);
    }
  }
}
