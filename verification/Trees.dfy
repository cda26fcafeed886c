/** Git trees as path maps, the two questions the gate asks of one, and the path
    transitions that rewrite one. */
module Trees {
  import opened Options
  import opened Paths

  datatype Blob = Blob(sha: string, mode: string)

  type Tree = map<Path, Blob>

  /** One path's move from the content it must hold to the content it gets;
      None is "no file here". */
  datatype Transition = Transition(path: Path, expected: Option<Blob>, result: Option<Blob>)

  datatype ReadError = PathNotBlob(path: Path)

  /** No file stands where a directory is needed: what makes a path map a git tree. */
  predicate WellFormed(t: Tree) {
    forall p | p in t :: forall q | q in t :: !Beneath(p, q)
  }

  predicate HasBeneath(t: Tree, d: Path) {
    exists p | p in t :: Beneath(d, p)
  }

  /** blobAt: the file at p, its absence, or a refusal when p is a directory. */
  function BlobAt(t: Tree, p: Path): Result<Option<Blob>, ReadError> {
    if p in t then Ok(Some(t[p]))
    else if HasBeneath(t, p) then Err(PathNotBlob(p))
    else Ok(None)
  }

  /** treeAt: p is a directory. */
  predicate TreeAt(t: Tree, p: Path) {
    p !in t && HasBeneath(t, p)
  }

  function Lookup(t: Tree, p: Path): Option<Blob> {
    if p in t then Some(t[p]) else None
  }

  /** One index-info line: set the entry, or drop it. */
  function Put(t: Tree, tr: Transition): Tree {
    match tr.result
    case Some(b) => t[tr.path := b]
    case None => t - {tr.path}
  }

  function PutAll(t: Tree, trs: seq<Transition>): Tree {
    if |trs| == 0 then t else Put(PutAll(t, trs[..|trs| - 1]), trs[|trs| - 1])
  }

  function Writes(trs: seq<Transition>): set<Path> {
    set i | 0 <= i < |trs| :: trs[i].path
  }

  /** What p holds after trs, given what it held before. */
  function After(trs: seq<Transition>, p: Path, before: Option<Blob>): Option<Blob> {
    if |trs| == 0 then before
    else if trs[|trs| - 1].path == p then trs[|trs| - 1].result
    else After(trs[..|trs| - 1], p, before)
  }

  /** Repeated paths repeat the whole transition, so their order cannot matter. */
  predicate Consistent(trs: seq<Transition>) {
    forall i, j :: 0 <= i < |trs| && 0 <= j < |trs| && trs[i].path == trs[j].path ==> trs[i] == trs[j]
  }

  lemma {:induction false} PutAllLookup(t: Tree, trs: seq<Transition>, p: Path)
    ensures Lookup(PutAll(t, trs), p) == After(trs, p, Lookup(t, p))
  {
    if |trs| > 0 {
      PutAllLookup(t, trs[..|trs| - 1], p);
    }
  }

  lemma {:induction false} PutAllAppend(t: Tree, a: seq<Transition>, b: seq<Transition>)
    ensures PutAll(t, a + b) == PutAll(PutAll(t, a), b)
  {
    if |b| == 0 {
      assert a + b == a;
    } else {
      assert (a + b)[..|a + b| - 1] == a + b[..|b| - 1];
      PutAllAppend(t, a, b[..|b| - 1]);
    }
  }

  lemma {:induction false} AfterUntouched(trs: seq<Transition>, p: Path, before: Option<Blob>)
    requires p !in Writes(trs)
    ensures After(trs, p, before) == before
  {
    if |trs| > 0 {
      assert trs[|trs| - 1].path in Writes(trs);
      assert Writes(trs[..|trs| - 1]) <= Writes(trs);
      AfterUntouched(trs[..|trs| - 1], p, before);
    }
  }

  lemma {:induction false} AfterTouched(trs: seq<Transition>, k: nat, before: Option<Blob>)
    requires Consistent(trs) && k < |trs|
    ensures After(trs, trs[k].path, before) == trs[k].result
  {
    var n := |trs| - 1;
    if trs[n].path != trs[k].path {
      assert trs[..n][k] == trs[k];
      AfterTouched(trs[..n], k, before);
    }
  }

  lemma SameTree(a: Tree, b: Tree)
    requires forall p :: Lookup(a, p) == Lookup(b, p)
    ensures a == b
  {
    assert forall p :: p in a <==> Lookup(a, p).Some?;
    assert forall p :: p in b <==> Lookup(b, p).Some?;
    assert forall p :: p in a ==> Lookup(a, p).value == a[p];
    assert forall p :: p in b ==> Lookup(b, p).value == b[p];
  }
}
