/** A run that overtakes a look: the one way a round can fail to choose from a queue it
    has read. */
module Overtakings {
  import opened Options
  import opened Ordering
  import opened Text
  import opened Paths
  import opened Trees
  import opened Envelopes
  import opened Selection
  import opened Chain
  import opened RefTransactions
  import opened BatchChains
  import opened Protocol
  import opened Pushers
  import Histories
  import Admission

  const FILE := Blob("1", "100644")

  const HEAD := Commit([], map["p/x" := FILE], "head")

  /** Takes p/x away. */
  const CLEARS := OneTransition("c1", Commit([HEAD], map[], "clear"), Transition("p/x", Some(FILE), None), [])

  const TIP := Commit([HEAD], map[], "")

  /** Puts a file where the directory was. */
  const REPLACES := OneTransition("c2", Commit([TIP], map["p" := FILE], "replace"), Transition("p", None, Some(FILE)), [])

  const LOOK := View(map["c1" := EnvelopeBlob(CLEARS.envelope)], map["c1" := CLEARS.proposal], {}, "", 1, HEAD.tree)

  const BATCH := Batch("b", HEAD, [CLEARS], [""], TIP)

  /** One peer empties a directory, another submits a file of its name. */
  const STEPS := [Bootstrap(HEAD), Accept(CLEARS, HEAD), Claim("b", HEAD, LOOK, [""]), Verify("b", true), Land("b"),
    Accept(REPLACES, TIP)]

  lemma OneListed(id: Id)
    ensures Listing({id}) == [id]
  {
    var l := Listing({id});
    assert id in l;
    if |l| > 1 {
      assert l[0] in l && l[1] in l;
      Trichotomy(l[0], l[1]);
    }
  }

  lemma Directories()
    ensures Beneath("p", "p/x") && Canonical("p/x") && Canonical("p")
    ensures AncestorsOf("p") == []
  {
    assert "p" + "/" == "p/x"[..2];
    SplitWhole("p", '/');
    SplitWhole("x", '/');
    assert "p/x" == "p" + ['/'] + "x";
    SplitConcat("p", "x", '/');
    CanonicalIsClean("p");
    if AncestorsOf("p") != [] {
      var d := AncestorsOf("p")[0];
      AncestorsExact("p", d);
    }
  }

  lemma MintedClears()
    ensures Minted(CLEARS, HEAD.tree) && Admission.Fresh(CLEARS.envelope, HEAD.tree)
  {
    Directories();
    assert CLEARS.envelope.transitions[0] == CapturedTransition(HEAD.tree, CLEARS.proposal.tree, "p/x");
  }

  lemma MintedReplaces()
    ensures Minted(REPLACES, TIP.tree)
  {
    Directories();
    assert REPLACES.envelope.transitions[0] == CapturedTransition(TIP.tree, REPLACES.proposal.tree, "p");
  }

  /** A queue of one fresh candidate is that candidate. */
  lemma AloneChosen(v: View, m: Member)
    requires v.candidates.Keys == {m.id} && v.only == "" && m.id !in v.claimed && v.maxBatch > 0
    requires LoadMember(v, m.id) == Some(m) && Admission.Fresh(m.envelope, v.snapshot)
    ensures Select(v) == Done(Choice([m], [], {} + PathSet(m.envelope.writeSet)))
  {
    OneListed(m.id);
    StaleVerdict(m.envelope, v.snapshot);
    var c := Choice([m], [], {} + PathSet(m.envelope.writeSet));
    assert [] + [m] == [m];
    assert Scan(v, Choice([], [], {}), m.id) == Done(c);
    assert SelectFrom([m.id][1..], v, c) == Done(c);
  }

  /** The first round chooses the clearing candidate alone. */
  lemma LookChooses()
    ensures Select(LOOK).Done? && Select(LOOK).choice.members == [CLEARS] && Claimed("b", HEAD, LOOK, [""]) == BATCH
  {
    MintedClears();
    AloneChosen(LOOK, CLEARS);
    assert [CLEARS][..0] == [] && [""][..0] == [];
    assert BuildChain(HEAD, [], []) == HEAD;
    assert PutAll(HEAD.tree, CLEARS.envelope.transitions) == map[] by {
      assert CLEARS.envelope.transitions[..0] == [];
    }
  }

  // --- the run, step by step ------------------------------------------------

  const S1 := START.(refs := map[Integration := CommitObject(HEAD)], history := [HEAD])

  const S2 := WithCandidate(S1, CLEARS)

  const S3 := WithClaim(S2, BATCH)

  const S4 := S3.(verdicts := map["b" := true])

  lemma Bootstraps()
    ensures Next(START, STEPS[0]) == S1
  {
    OneLine(START.refs, Create(Integration, CommitObject(HEAD)));
  }

  lemma Accepted(s: State, m: Member, base: Envelopes.Commit)
    requires m.id != "" && m.id !in s.accepted && base in s.history && Minted(m, base.tree)
    requires Candidate(m.id) !in s.refs && Proposal(m.id) !in s.refs
    ensures Next(s, Accept(m, base)) == WithCandidate(s, m)
  {
    assert Admissible(s.refs, AcceptLines(m));
    AcceptedRefs(s.refs, m);
  }

  lemma Submits()
    ensures Next(S1, STEPS[1]) == S2
  {
    MintedClears();
    Accepted(S1, CLEARS, HEAD);
  }

  lemma ClaimsIt()
    ensures Next(S2, STEPS[2]) == S3
  {
    LookChooses();
    OneLine(S2.refs, Create(Promoting("b"), CommitObject(TIP)));
  }

  lemma Verifies()
    ensures Next(S3, STEPS[3]) == S4
  {
  }

  /** What the landing leaves. */
  ghost predicate Cleared(s: State) {
    && s.history == [HEAD, TIP] && s.accepted == map["c1" := CLEARS]
    && Integration in s.refs && s.refs[Integration] == CommitObject(TIP)
    && Candidate("c2") !in s.refs && Proposal("c2") !in s.refs
    && s.promoted.Keys == {"c1"} && s.rejected == map[]
  }

  lemma AloneNamed()
    ensures forall id :: Names([CLEARS], id) <==> id == "c1"
  {
    assert [CLEARS][0].id == "c1";
  }

  /** The batch may land. */
  ghost predicate Ready(s: State) {
    && "b" in s.batches && s.batches["b"] == BATCH && "b" in s.verdicts && s.verdicts["b"]
    && Intact(s.refs, BATCH) && Candidate("c2") !in s.refs && Proposal("c2") !in s.refs
    && s.history == [HEAD] && s.log == [] && s.accepted == map["c1" := CLEARS]
    && s.promoted == map[] && s.rejected == map[]
  }

  lemma Lands(s: State)
    requires Ready(s)
    ensures Cleared(Next(s, Land("b")))
  {
    AloneNamed();
    LandExactly(s.refs, BATCH);
    LandedIds([CLEARS], 0);
    var t := Next(s, Land("b"));
    assert t == WithLanding(s, BATCH, t.refs);
    assert LandedAt([CLEARS], 0).Keys == {"c1"};
    assert SameAt(s.refs, t.refs, Candidate("c2")) && SameAt(s.refs, t.refs, Proposal("c2"));
  }

  lemma Prefixes(k: nat)
    requires k < |STEPS|
    ensures Run(START, STEPS[..k + 1]) == Next(Run(START, STEPS[..k]), STEPS[k])
  {
    assert STEPS[..k] + [STEPS[k]] == STEPS[..k + 1];
    LongerRun(STEPS[..k], STEPS[k]);
  }

  lemma Begins()
    ensures Run(START, STEPS[..1]) == S1 && Run(START, STEPS[..4]) == S4
  {
    assert STEPS[..0] == [];
    Prefixes(0);
    Bootstraps();
    Prefixes(1);
    Submits();
    Prefixes(2);
    ClaimsIt();
    Prefixes(3);
    Verifies();
  }

  lemma Readies()
    ensures Ready(S4)
  {
  }

  lemma Landing()
    ensures Run(START, STEPS[..1]) == S1 && Cleared(Run(START, STEPS[..5]))
  {
    Begins();
    Readies();
    Prefixes(4);
    Lands(Run(START, STEPS[..4]));
  }

  lemma SubmitsAgain()
    ensures Run(START, STEPS) == WithCandidate(Run(START, STEPS[..5]), REPLACES)
  {
    Landing();
    assert STEPS[..6] == STEPS;
    Prefixes(5);
    MintedReplaces();
    Accepted(Run(START, STEPS[..5]), REPLACES, TIP);
  }

  lemma OnlyCandidate(s: State, m: Member)
    requires QueueOk(s) && forall id :: id in s.accepted && !Settled(s, id) <==> id == m.id
    requires s.accepted[m.id] == m
    ensures CandidateListing(s.refs) == map[m.id := EnvelopeBlob(m.envelope)]
    ensures m.id in ProposalListing(s.refs) && ProposalListing(s.refs)[m.id] == m.proposal
  {
    forall id ensures Candidate(id) in s.refs <==> id == m.id {
      assert CandidateRefs(s, id);
    }
    assert CandidateRefs(s, m.id);
  }

  /** The queue at the end holds the second candidate alone. */
  lemma Queue()
    ensures CandidateListing(Run(START, STEPS).refs) == map["c2" := EnvelopeBlob(REPLACES.envelope)]
    ensures "c2" in ProposalListing(Run(START, STEPS).refs) && ProposalListing(Run(START, STEPS).refs)["c2"] == REPLACES.proposal
  {
    Landing();
    SubmitsAgain();
    Histories.Reached(STEPS);
    OnlyCandidate(Run(START, STEPS), REPLACES);
  }

  /** What the round sees that read its snapshot at the start and the queue at the end. */
  function Late(): View {
    var s := Run(START, STEPS);
    View(CandidateListing(s.refs), ProposalListing(s.refs), {}, "", 1, HEAD.tree)
  }

  lemma LateFails()
    ensures Select(Late()).Failed?
  {
    Queue();
    Directories();
    OneListed("c2");
    var v := Late();
    assert v.candidates.Keys == {"c2"} && LoadMember(v, "c2") == Some(REPLACES);
    assert "p/x" in HEAD.tree && HasBeneath(HEAD.tree, "p");
    assert Scan(v, Choice([], [], {}), "c2").Failed?;
  }

  /** Such a look happens: a read error stops the round, though the candidate it stops at
      is in order as integration stands. */
  lemma ReadErrorHappens()
    ensures Histories.HoldsIntegration(Run(START, STEPS[..1]), HEAD) && Select(Late()).Failed?
    ensures Histories.HoldsIntegration(Run(START, STEPS), TIP) && Admission.Fresh(REPLACES.envelope, TIP.tree)
  {
    Landing();
    LateFails();
    MintedReplaces();
    SubmitsAgain();
  }
}
