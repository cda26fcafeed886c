/** Slash-separated paths: Go's path.Clean and path.Dir, ancestor directories,
    and the segment-list reading the string tests stand for. */
module Paths {
  import opened Text

  type Path = string

  /** A segment a repository path may have: never empty, never "." or "..". */
  predicate Ordinary(seg: string) {
    seg != "" && seg != "." && seg != ".."
  }

  /** A clean repo-relative path: one or more ordinary segments. */
  predicate Canonical(p: Path) {
    var segs := Split(p, '/');
    forall i :: 0 <= i < |segs| ==> Ordinary(segs[i])
  }

  /** p names something inside directory d. */
  predicate Beneath(d: Path, p: Path) {
    d + "/" <= p
  }

  /** The string test is exactly "d's segments are a proper prefix of p's". */
  lemma BeneathSegments(d: Path, p: Path)
    ensures Beneath(d, p) <==> Split(d, '/') < Split(p, '/')
  {
    if Beneath(d, p) {
      var rest := p[|d| + 1..];
      assert p == d + ['/'] + rest;
      SplitConcat(d, rest, '/');
    }
    if Split(d, '/') < Split(p, '/') {
      var ds, ps := Split(d, '/'), Split(p, '/');
      var rest := ps[|ds|..];
      assert ps == ds + rest;
      JoinAppend(ds, rest, '/');
      JoinSplit(d, '/');
      JoinSplit(p, '/');
    }
  }

  /** One step of path.Clean over the segments: acc is the output so far. */
  function CleanSegs(segs: seq<string>, acc: seq<string>, rooted: bool): seq<string> {
    if |segs| == 0 then acc
    else if segs[0] == "" || segs[0] == "." then CleanSegs(segs[1..], acc, rooted)
    else if segs[0] == ".." then
      if |acc| > 0 && acc[|acc| - 1] != ".." then CleanSegs(segs[1..], acc[..|acc| - 1], rooted)
      else if rooted then CleanSegs(segs[1..], acc, rooted)
      else CleanSegs(segs[1..], acc + [".."], rooted)
    else CleanSegs(segs[1..], acc + [segs[0]], rooted)
  }

  /** Go's path.Clean. */
  function Clean(p: Path): Path {
    if p == "" then "."
    else
      var rooted := p[0] == '/';
      var body := Join(CleanSegs(Split(p, '/'), [], rooted), '/');
      if rooted then "/" + body else if body == "" then "." else body
  }

  /** The offset just past the last slash, 0 when there is none. */
  function AfterLastSlash(p: Path): (k: nat)
    ensures k <= |p|
    ensures k > 0 ==> p[k - 1] == '/'
    ensures '/' !in p[k..]
  {
    if p == "" then 0
    else if p[|p| - 1] == '/' then |p|
    else
      var before := AfterLastSlash(p[..|p| - 1]);
      assert p[before..] == p[..|p| - 1][before..] + [p[|p| - 1]];
      before
  }

  /** Go's path.Dir. */
  function Dir(p: Path): Path {
    Clean(p[..AfterLastSlash(p)])
  }

  /** The characters a list of segments takes when joined, one separator each. */
  function Weight(parts: seq<string>): nat {
    if |parts| == 0 then 0 else |parts[0]| + 1 + Weight(parts[1..])
  }

  lemma {:induction false} WeightAppend(a: seq<string>, b: seq<string>)
    ensures Weight(a + b) == Weight(a) + Weight(b)
  {
    if |a| == 0 {
      assert a + b == b;
    } else {
      assert (a + b)[1..] == a[1..] + b;
      WeightAppend(a[1..], b);
    }
  }

  lemma {:induction false} WeightJoin(parts: seq<string>)
    requires |parts| >= 1
    ensures |Join(parts, '/')| + 1 == Weight(parts)
  {
    if |parts| > 1 {
      WeightJoin(parts[1..]);
    }
  }

  lemma {:induction false} CleanSegsWeight(segs: seq<string>, acc: seq<string>, rooted: bool)
    ensures Weight(CleanSegs(segs, acc, rooted)) <= Weight(acc) + Weight(segs)
  {
    if |segs| > 0 {
      if segs[0] == ".." && |acc| > 0 && acc[|acc| - 1] != ".." {
        CleanSegsWeight(segs[1..], acc[..|acc| - 1], rooted);
        WeightAppend(acc[..|acc| - 1], [acc[|acc| - 1]]);
        assert acc[..|acc| - 1] + [acc[|acc| - 1]] == acc;
      } else {
        CleanSegsWeight(segs[1..], acc, rooted);
        CleanSegsWeight(segs[1..], acc + [segs[0]], rooted);
        WeightAppend(acc, [segs[0]]);
      }
    }
  }

  lemma {:induction false} CleanSegsTrailingEmpty(segs: seq<string>, acc: seq<string>, rooted: bool)
    ensures CleanSegs(segs + [""], acc, rooted) == CleanSegs(segs, acc, rooted)
  {
    if |segs| > 0 {
      assert (segs + [""])[1..] == segs[1..] + [""];
      if segs[0] == ".." && |acc| > 0 && acc[|acc| - 1] != ".." {
        CleanSegsTrailingEmpty(segs[1..], acc[..|acc| - 1], rooted);
      } else {
        CleanSegsTrailingEmpty(segs[1..], acc, rooted);
        CleanSegsTrailingEmpty(segs[1..], acc + [segs[0]], rooted);
      }
    }
  }

  /** A rooted path's first segment is empty, so cleaning drops at least it. */
  lemma RootedFirstSegment(q: Path, out: seq<string>)
    requires out == CleanSegs(Split(q, '/'), [], true)
    requires q == "" || q[0] == '/'
    ensures Weight(out) <= |q|
  {
    var segs := Split(q, '/');
    assert segs[0] == "";
    CleanSegsWeight(segs[1..], [], true);
    JoinSplit(q, '/');
    WeightJoin(segs);
  }

  /** Dir makes progress: what it returns is shorter, or one of the two fixed ends. */
  lemma DirShrinks(p: Path)
    ensures Dir(p) == "." || Dir(p) == "/" || |Dir(p)| < |p|
  {
    var k := AfterLastSlash(p);
    if k > 0 {
      var d := p[..k];
      assert d == p[..k - 1] + ['/'] + "";
      SplitConcat(p[..k - 1], "", '/');
      var segs := Split(p[..k - 1], '/');
      var rooted := d[0] == '/';
      CleanSegsTrailingEmpty(segs, [], rooted);
      CleanSegsWeight(segs, [], rooted);
      JoinSplit(p[..k - 1], '/');
      WeightJoin(segs);
      var out := CleanSegs(segs, [], rooted);
      if |out| > 0 {
        WeightJoin(out);
        if rooted {
          RootedFirstSegment(p[..k - 1], out);
        }
      }
    }
  }

  /** dir and the ancestors above it, until the root stops the walk. */
  function AncestorsFrom(dir: Path): (out: seq<Path>)
    decreases |dir|
  {
    if dir == "." || dir == "/" then []
    else
      DirShrinks(dir);
      var up := Dir(dir);
      if up == "." || up == "/" then [dir] else [dir] + AncestorsFrom(up)
  }

  /** Every ancestor directory of p, nearest first, the repo root excluded. */
  function AncestorsOf(p: Path): (out: seq<Path>) {
    AncestorsFrom(Dir(p))
  }

  lemma {:induction false} CleanSegsOrdinary(segs: seq<string>, acc: seq<string>, rooted: bool)
    requires forall i :: 0 <= i < |segs| ==> Ordinary(segs[i])
    ensures CleanSegs(segs, acc, rooted) == acc + segs
  {
    if |segs| > 0 {
      CleanSegsOrdinary(segs[1..], acc + [segs[0]], rooted);
      assert acc + [segs[0]] + segs[1..] == acc + segs;
    }
  }

  lemma CanonicalIsClean(p: Path)
    requires Canonical(p)
    ensures Clean(p) == p
  {
    var segs := Split(p, '/');
    assert Ordinary(segs[0]);
    CleanSegsOrdinary(segs, [], p[0] == '/');
    assert [] + segs == segs;
    JoinSplit(p, '/');
  }

  lemma DotNotCanonical()
    ensures !Canonical(".") && !Canonical("/")
  {
    SplitWhole(".", '/');
    assert !Ordinary(Split(".", '/')[0]);
    assert !Ordinary(Split("/", '/')[0]);
  }

  /** Segments that could come from a canonical path. */
  predicate OrdinarySegs(segs: seq<string>) {
    forall i :: 0 <= i < |segs| ==> Ordinary(segs[i]) && '/' !in segs[i]
  }

  lemma CanonicalJoin(segs: seq<string>)
    requires |segs| >= 1 && OrdinarySegs(segs)
    ensures Canonical(Join(segs, '/')) && Split(Join(segs, '/'), '/') == segs
    ensures Join(segs, '/') != "." && Join(segs, '/') != "/"
    ensures Join(segs, '/') != "" && Join(segs, '/')[0] != '/'
  {
    SplitJoin(segs, '/');
    DotNotCanonical();
    assert Ordinary(segs[0]) && segs[0][0] in segs[0];
  }

  lemma {:induction false} LastSlashUnique(front: string, last: string)
    requires '/' !in last
    ensures AfterLastSlash(front + "/" + last) == |front| + 1
  {
    var p := front + "/" + last;
    if last == "" {
      assert p[|p| - 1] == '/';
    } else {
      LastSlashUnique(front, last[..|last| - 1]);
      assert p[..|p| - 1] == front + "/" + last[..|last| - 1];
      assert p[|p| - 1] == last[|last| - 1];
    }
  }

  lemma CleanDirectory(f: Path, front: seq<string>)
    requires f != "" && f[0] != '/' && Split(f, '/') == front && OrdinarySegs(front)
    ensures Clean(f + ['/'] + "") == f
  {
    SplitConcat(f, "", '/');
    CleanSegsTrailingEmpty(front, [], false);
    CleanSegsOrdinary(front, [], false);
    assert [] + front == front;
    JoinSplit(f, '/');
  }

  lemma DirOfTwo(f: Path, last: string, front: seq<string>)
    requires '/' !in last && f != "" && f[0] != '/' && Split(f, '/') == front && OrdinarySegs(front)
    ensures Dir(f + ['/'] + last) == f
  {
    LastSlashUnique(f, last);
    assert (f + ['/'] + last)[..|f| + 1] == f + ['/'] + "";
    CleanDirectory(f, front);
  }

  /** On a canonical path Dir drops exactly the last segment. */
  lemma DirCanonical(segs: seq<string>)
    requires |segs| >= 1 && OrdinarySegs(segs)
    ensures Dir(Join(segs, '/')) == if |segs| == 1 then "." else Join(segs[..|segs| - 1], '/')
  {
    var p := Join(segs, '/');
    var last := segs[|segs| - 1];
    if |segs| == 1 {
      assert AfterLastSlash(p) == 0;
    } else {
      var front := segs[..|segs| - 1];
      assert segs == front + [last];
      JoinAppend(front, [last], '/');
      CanonicalJoin(front);
      DirOfTwo(Join(front, '/'), last, front);
    }
  }

  lemma {:induction false} AncestorsFromPrefixes(segs: seq<string>, d: Path)
    requires |segs| >= 1 && OrdinarySegs(segs)
    ensures d in AncestorsFrom(Join(segs, '/')) <==> Split(d, '/') <= segs
  {
    var p := Join(segs, '/');
    CanonicalJoin(segs);
    DirCanonical(segs);
    JoinSplit(d, '/');
    if |segs| == 1 {
      assert AncestorsFrom(p) == [p];
      assert Split(d, '/') <= segs <==> Split(d, '/') == segs;
    } else {
      var front := segs[..|segs| - 1];
      CanonicalJoin(front);
      AncestorsFromPrefixes(front, d);
      assert AncestorsFrom(p) == [p] + AncestorsFrom(Join(front, '/'));
      assert Split(d, '/') <= segs <==> Split(d, '/') <= front || Split(d, '/') == segs;
    }
  }

  /** ancestorsOf lists exactly the directories a canonical path lies in. */
  lemma AncestorsExact(p: Path, d: Path)
    requires Canonical(p)
    ensures d in AncestorsOf(p) <==> Beneath(d, p)
  {
    var segs := Split(p, '/');
    SplitPartsClean(p, '/');
    JoinSplit(p, '/');
    BeneathSegments(d, p);
    DirCanonical(segs);
    if |segs| > 1 {
      var front := segs[..|segs| - 1];
      AncestorsFromPrefixes(front, d);
      assert Split(d, '/') < segs <==> Split(d, '/') <= front;
    }
  }
}
