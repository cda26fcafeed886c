/** The lane commit: a tree built from the parent and exactly the write-set. */
module Lane {
  import opened Options
  import opened Text
  import opened Ordering
  import opened Paths
  import opened Trees
  import Admission
  import Targets

  datatype LaneError = EmptyWriteSet | Misspelled(path: Path) | OnDiskDirectory(path: Path) | TrackedDirectory(path: Path) | NoMatch(path: Path)

  /** s occurs somewhere in p. */
  predicate Contains(p: string, s: string)
    requires |s| > 0
  {
    IndexOf(p, s) < |p|
  }

  /** lexicalWriteSetCheck: one literal, repo-relative, clean spelling. */
  predicate Lexical(p: Path) {
    && p != "" && '\0' !in p && p[0] != ':' && !Targets.ContainsAny(p, "*?[]") && p[0] != '/'
    && !(p == ".." || "../" <= p || Contains(p, "/../") || EndsWith(p, "/.."))
    && p[|p| - 1] != '/' && Clean(p) == p
  }

  /** What passes the spelling check names a file of the repository, or its root. */
  lemma LexicalIsCanonical(p: Path)
    requires Lexical(p)
    ensures p == "." || Canonical(p)
  {
    var segs, ups := Targets.CleanRelative(p);
    if segs != [] {
      Targets.ClimbShows(segs, ups);
      if ups == 0 { CanonicalJoin(segs); }
    }
  }

  lemma UpInside(p: Path, k: nat)
    requires OccursAt(p, "/../", k)
    ensures !Canonical(p)
  {
    var a, b := p[..k], p[k + 4..];
    assert p[k..k + 4] == "/../";
    assert p == a + ['/'] + (".." + ['/'] + b);
    SplitConcat(a, ".." + ['/'] + b, '/');
    SplitConcat("..", b, '/');
    SplitWhole("..", '/');
    assert Split(p, '/')[|Split(a, '/')|] == "..";
  }

  lemma UpAtEnd(p: Path)
    requires EndsWith(p, "/..")
    ensures !Canonical(p)
  {
    var a := p[..|p| - 3];
    assert p[|p| - 3..] == "/..";
    assert p == a + ['/'] + "..";
    SplitConcat(a, "..", '/');
    SplitWhole("..", '/');
    assert Split(p, '/')[|Split(a, '/')|] == "..";
  }

  /** Every canonical path without magic passes. */
  lemma CanonicalIsLexical(p: Path)
    requires Canonical(p) && p != "" && '\0' !in p && p[0] != ':' && !Targets.ContainsAny(p, "*?[]")
    ensures Lexical(p)
  {
    Targets.CanonicalFacts(p);
    CanonicalIsClean(p);
    FirstOccurrence(p, "/../");
    if Contains(p, "/../") {
      UpInside(p, IndexOf(p, "/../"));
    }
    if EndsWith(p, "/..") {
      UpAtEnd(p);
    }
  }

  lemma RootIsLexical()
    ensures Lexical(".")
  {
    SplitWhole(".", '/');
    assert ["."][1..] == [];
    assert CleanSegs(["."], [], false) == CleanSegs([], [], false) == [];
  }

  /** The spelling check, all of it: the root or a canonical path, without a NUL, a
      leading colon or a glob. */
  lemma LexicalExactly(p: Path)
    ensures Lexical(p) <==>
      && (p == "." || Canonical(p)) && p != "" && p[0] != ':'
      && forall c :: c in p ==> c != '\0' && c != '*' && c != '?' && c != '[' && c != ']'
  {
    assert forall c :: c in "*?[]" <==> c == '*' || c == '?' || c == '[' || c == ']';
    assert Targets.ContainsAny(p, "*?[]") <==> exists c :: c in p && c in "*?[]";
    if Lexical(p) { LexicalIsCanonical(p); }
    if Canonical(p) && p != "" && '\0' !in p && p[0] != ':' && !Targets.ContainsAny(p, "*?[]") { CanonicalIsLexical(p); }
    if p == "." { RootIsLexical(); }
  }

  predicate OnDisk(work: Tree, p: Path) {
    p == "." || (p !in work && HasBeneath(work, p))
  }

  /** A directory in the parent: something is tracked strictly under it. */
  predicate TrackedUnder(parent: Tree, p: Path) {
    exists f | f in parent :: Beneath(p, f)
  }

  predicate AtOrUnder(p: Path, q: Path) {
    p == q || Beneath(p, q)
  }

  predicate AnyAtOrUnder(t: Tree, p: Path) {
    exists q | q in t :: AtOrUnder(p, q)
  }

  predicate Matches(parent: Tree, work: Tree, p: Path) {
    AnyAtOrUnder(parent, p) || AnyAtOrUnder(work, p)
  }

  /** Some added path cannot stand beside q: one is a directory of the other. */
  predicate InTheWay(added: Tree, q: Path) {
    exists a | a in added :: Beneath(q, a) || Beneath(a, q)
  }

  /** `git add -A` on a literal path: p and everything under it is taken from the work
      tree, what is gone there is dropped, and an entry that cannot stand beside an
      added one goes too. */
  function Stage(index: Tree, work: Tree, p: Path): Tree {
    var added := map q | q in work && AtOrUnder(p, q) :: work[q];
    var kept := map q | q in index && !AtOrUnder(p, q) && !InTheWay(added, q) :: index[q];
    kept + added
  }

  /** Nothing stands against staging p as one file. */
  predicate Stageable(parent: Tree, work: Tree, p: Path) {
    Lexical(p) && !OnDisk(work, p) && !TrackedUnder(parent, p)
  }

  /** Taken out because a staged file lies beneath it. */
  predicate Shadowed(work: Tree, ws: seq<Path>, q: Path) {
    exists i | 0 <= i < |ws| :: ws[i] in work && Beneath(q, ws[i])
  }

  /** The staged tree, path by path. */
  function Staged(parent: Tree, work: Tree, ws: seq<Path>, q: Path): Option<Blob> {
    if q in ws then Lookup(work, q)
    else if Shadowed(work, ws, q) then None
    else Lookup(parent, q)
  }

  predicate Refused(e: LaneError, parent: Tree, work: Tree, ws: seq<Path>) {
    match e
    case EmptyWriteSet => ws == []
    case Misspelled(p) => p in ws && !Lexical(p)
    case OnDiskDirectory(p) => p in ws && OnDisk(work, p)
    case TrackedDirectory(p) => p in ws && TrackedUnder(parent, p)
    case NoMatch(p) => p in ws && !Matches(parent, work, p)
  }

  /** validateWriteSet. */
  method ValidateWriteSet(work: Tree, ws: seq<Path>) returns (e: Option<LaneError>)
    ensures e.None? <==> ws != [] && forall i :: 0 <= i < |ws| ==> Lexical(ws[i]) && !OnDisk(work, ws[i])
    ensures e.Some? ==> Refused(e.value, map[], work, ws) && !e.value.NoMatch?
  {
    if ws == [] { return Some(EmptyWriteSet); }
    for i := 0 to |ws|
      invariant forall j :: 0 <= j < i ==> Lexical(ws[j]) && !OnDisk(work, ws[j])
    {
      if !Lexical(ws[i]) { return Some(Misspelled(ws[i])); }
      if OnDisk(work, ws[i]) { return Some(OnDiskDirectory(ws[i])); }
    }
    e := None;
  }

  /** What staging one path does to each path. */
  lemma StageLookup(index: Tree, work: Tree, p: Path, q: Path)
    requires WellFormed(work) && !OnDisk(work, p)
    ensures Lookup(Stage(index, work, p), q) ==
      if q == p then Lookup(work, p)
      else if Beneath(p, q) || (p in work && (Beneath(q, p) || Beneath(p, q))) then None
      else Lookup(index, q)
  {
    var added := map x | x in work && AtOrUnder(p, x) :: work[x];
    assert forall x :: x in added <==> x == p && p in work by {
      forall x | x in added ensures x == p && p in work {
        if x != p { assert HasBeneath(work, p); }
      }
    }
    assert InTheWay(added, q) <==> p in work && (Beneath(q, p) || Beneath(p, q));
  }

  lemma ShadowGrows(work: Tree, ws: seq<Path>, i: nat, q: Path)
    requires i < |ws|
    ensures Shadowed(work, ws[..i + 1], q) <==> Shadowed(work, ws[..i], q) || (ws[i] in work && Beneath(q, ws[i]))
  {
    if Shadowed(work, ws[..i], q) {
      var k :| 0 <= k < i && ws[..i][k] in work && Beneath(q, ws[..i][k]);
      assert ws[..i + 1][k] == ws[..i][k];
    }
    if ws[i] in work && Beneath(q, ws[i]) { assert ws[..i + 1][i] == ws[i]; }
    if Shadowed(work, ws[..i + 1], q) {
      var k :| 0 <= k < i + 1 && ws[..i + 1][k] in work && Beneath(q, ws[..i + 1][k]);
      if k < i { assert ws[..i][k] == ws[..i + 1][k]; }
    }
  }

  lemma StageOne(parent: Tree, work: Tree, ws: seq<Path>, i: nat, index: Tree, q: Path)
    requires i < |ws| && WellFormed(work) && Stageable(parent, work, ws[i])
    requires Lookup(index, q) == Staged(parent, work, ws[..i], q)
    ensures Lookup(Stage(index, work, ws[i]), q) == Staged(parent, work, ws[..i + 1], q)
  {
    var p := ws[i];
    StageLookup(index, work, p, q);
    assert ws[..i + 1] == ws[..i] + [p];
    ShadowGrows(work, ws, i, q);
    if q != p && Beneath(p, q) {
      assert q !in parent;
      if q in work { assert HasBeneath(work, p); }
    }
    if q != p && p in work && Beneath(q, p) {
      assert q !in work;
    }
  }

  /** buildLaneTree: seed the index from the parent, refuse what would sweep a
      directory, stage the write-set path by path. */
  method BuildLaneTree(parent: Tree, work: Tree, ws: seq<Path>) returns (r: Result<Tree, LaneError>)
    requires WellFormed(parent) && WellFormed(work)
    ensures r.Ok? <==> ws != [] && forall i :: 0 <= i < |ws| ==> Stageable(parent, work, ws[i]) && Matches(parent, work, ws[i])
    ensures r.Ok? ==> forall q :: Lookup(r.value, q) == Staged(parent, work, ws, q)
    ensures r.Err? ==> Refused(r.error, parent, work, ws)
  {
    var invalid := ValidateWriteSet(work, ws);
    if invalid.Some? { return Err(invalid.value); }
    for i := 0 to |ws|
      invariant forall j :: 0 <= j < i ==> !TrackedUnder(parent, ws[j])
    {
      if TrackedUnder(parent, ws[i]) { return Err(TrackedDirectory(ws[i])); }
    }
    for i := 0 to |ws|
      invariant forall j :: 0 <= j < i ==> Matches(parent, work, ws[j])
    {
      if !Matches(parent, work, ws[i]) { return Err(NoMatch(ws[i])); }
    }
    var index := parent;
    for i := 0 to |ws|
      invariant forall q :: Lookup(index, q) == Staged(parent, work, ws[..i], q)
    {
      forall q ensures Lookup(Stage(index, work, ws[i]), q) == Staged(parent, work, ws[..i + 1], q) {
        StageOne(parent, work, ws, i, index, q);
      }
      index := Stage(index, work, ws[i]);
    }
    assert ws[..|ws|] == ws;
    r := Ok(index);
  }

  /** The tree a commit of this write-set should have: the work tree on it, the parent
      off it. */
  ghost predicate Framed(parent: Tree, work: Tree, ws: seq<Path>, tree: Tree) {
    forall q :: Lookup(tree, q) == if q in ws then Lookup(work, q) else Lookup(parent, q)
  }

  /** A file of the parent goes although nobody named it. */
  predicate LosesAFile(parent: Tree, work: Tree, ws: seq<Path>) {
    exists q | q in parent :: q !in ws && Shadowed(work, ws, q)
  }

  /** The frame theorem, with its exact condition: the tree is the parent off the
      write-set and the work tree on it, unless a staged file lies beneath a path the
      parent tracks as a file and the write-set does not name. */
  lemma FrameExactly(parent: Tree, work: Tree, ws: seq<Path>, tree: Tree)
    requires forall q :: Lookup(tree, q) == Staged(parent, work, ws, q)
    ensures Framed(parent, work, ws, tree) <==> !LosesAFile(parent, work, ws)
  {
    if LosesAFile(parent, work, ws) {
      var q :| q in parent && q !in ws && Shadowed(work, ws, q);
      assert Lookup(tree, q) != Lookup(parent, q);
    } else {
      forall q ensures Lookup(tree, q) == if q in ws then Lookup(work, q) else Lookup(parent, q) {
      }
    }
  }

  /** It does happen: the parent tracks "a", the work tree has "a/b" instead, and the
      write-set names "a/b" alone. */
  lemma AFileLost(x: Blob, y: Blob)
    ensures WellFormed(map["a" := x]) && WellFormed(map["a/b" := y])
    ensures Stageable(map["a" := x], map["a/b" := y], "a/b") && Matches(map["a" := x], map["a/b" := y], "a/b")
    ensures LosesAFile(map["a" := x], map["a/b" := y], ["a/b"])
  {
    var parent, work, ws := map["a" := x], map["a/b" := y], ["a/b"];
    assert "a" + "/" == "a/b"[..2];
    assert Beneath("a", "a/b");
    assert ws[0] == "a/b" && "a/b" in work;
    assert Shadowed(work, ws, "a");
    assert "a" != "a/b";
    assert "a" in parent;
    assert "a/b" == "a" + ['/'] + "b";
    SplitConcat("a", "b", '/');
    SplitWhole("a", '/');
    SplitWhole("b", '/');
    CanonicalIsLexical("a/b");
  }

  /** Either way the result is a tree git can write. */
  lemma StagedWellFormed(parent: Tree, work: Tree, ws: seq<Path>, tree: Tree)
    requires WellFormed(parent) && WellFormed(work) && forall q :: Lookup(tree, q) == Staged(parent, work, ws, q)
    requires forall i :: 0 <= i < |ws| ==> Stageable(parent, work, ws[i])
    ensures WellFormed(tree)
  {
    forall p, q | p in tree && q in tree ensures !Beneath(p, q) {
      assert Lookup(tree, p).Some? && Lookup(tree, q).Some?;
      if p in ws && q !in ws {
        var i :| 0 <= i < |ws| && ws[i] == p;
        assert !TrackedUnder(parent, ws[i]);
      } else if p !in ws && q in ws {
        var i :| 0 <= i < |ws| && ws[i] == q;
        assert Beneath(p, q) ==> Shadowed(work, ws, p);
      }
    }
  }

  predicate Distinct(ws: seq<Path>) {
    forall i, j :: 0 <= i < j < |ws| ==> ws[i] != ws[j]
  }

  lemma ChangedExactly(parent: Tree, work: Tree, ws: seq<Path>, tree: Tree)
    requires forall q :: Lookup(tree, q) == Staged(parent, work, ws, q)
    ensures forall p :: p in Admission.Changed(parent, tree) <==>
      if p in ws then Lookup(parent, p) != Lookup(work, p) else p in parent && Shadowed(work, ws, p)
  {
    forall p ensures p in Admission.Changed(parent, tree) <==> Lookup(parent, p) != Lookup(tree, p) {
    }
  }

  lemma {:induction false} DistinctOnce(ws: seq<Path>, p: Path)
    requires Distinct(ws) && p in ws
    ensures multiset(ws)[p] == 1
  {
    var n := |ws| - 1;
    assert ws == ws[..n] + [ws[n]];
    if ws[n] == p {
      assert p !in ws[..n];
    } else {
      DistinctOnce(ws[..n], p);
    }
  }

  lemma TwiceIsTwo(ws: seq<Path>, i: nat, j: nat)
    requires i < j < |ws|
    ensures ws[i] == ws[j] ==> multiset(ws)[ws[i]] >= 2
  {
    assert ws == ws[..j] + ws[j..];
    assert ws[..j][i] == ws[i] && ws[j..][0] == ws[j];
    assert ws[i] in ws[..j] && ws[j] in ws[j..];
  }

  lemma OnceEach(ws: seq<Path>, s: set<Path>)
    ensures multiset(ws) == multiset(s) <==> Distinct(ws) && forall p :: p in ws <==> p in s
  {
    if Distinct(ws) && forall p :: p in ws <==> p in s {
      forall p ensures multiset(ws)[p] == multiset(s)[p] {
        if p in ws { DistinctOnce(ws, p); }
      }
    }
    if multiset(ws) == multiset(s) {
      forall p ensures p in ws <==> p in s {
        assert p in multiset(ws) <==> p in multiset(s);
      }
      forall i, j | 0 <= i < j < |ws| ensures ws[i] != ws[j] {
        TwiceIsTwo(ws, i, j);
      }
    }
  }

  /** Admission on such a commit: the sorted merge passes exactly when nothing unnamed
      was lost, no path is declared twice, and every declared path really changed. */
  lemma AdmissionAcceptsExactly(parent: Tree, work: Tree, ws: seq<Path>, tree: Tree)
    requires forall q :: Lookup(tree, q) == Staged(parent, work, ws, q)
    ensures Admission.Difference(Sort(ws), Listing(Admission.Changed(parent, tree))) == ([], []) <==>
      !LosesAFile(parent, work, ws) && Distinct(ws) && forall p :: p in ws ==> Lookup(parent, p) != Lookup(work, p)
  {
    var changed := Admission.Changed(parent, tree);
    Admission.DeclaredExactly(ws, changed);
    ChangedExactly(parent, work, ws, tree);
    OnceEach(ws, changed);
  }
}
