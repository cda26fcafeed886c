/** The territory rule: what a hold covers, when it is stale, and whom it refuses. */
module Territory {
  import opened Options
  import opened Text
  import opened Paths

  // --- the string tests and what they mean ----------------------------------

  /** PrefixOverlaps: equal, or one above the other; "." is above everything. */
  predicate PrefixOverlaps(a: Path, b: Path) {
    a == "." || b == "." || a == b || Beneath(a, b) || Beneath(b, a)
  }

  /** HoldAbove: a directory hold above path, not a hold on path itself. */
  predicate HoldAbove(target: Path, path: Path) {
    target != path && (target == "." || Beneath(target, path))
  }

  /** A territory: a canonical path, or the repository root. */
  predicate Territorial(p: Path) {
    p == "." || Canonical(p)
  }

  /** The segments of a territory; the root has none. */
  function Segments(p: Path): seq<string> {
    if p == "." then [] else Split(p, '/')
  }

  /** p is d itself or lies in it. */
  predicate Within(d: Path, p: Path) {
    d == "." || d == p || Beneath(d, p)
  }

  lemma WithinSegments(d: Path, p: Path)
    requires Territorial(d) && Territorial(p)
    ensures Within(d, p) <==> Segments(d) <= Segments(p)
  {
    BeneathSegments(d, p);
    JoinSplit(d, '/');
    JoinSplit(p, '/');
    assert Split(d, '/') == Split(p, '/') ==> d == p;
    assert Split(d, '/') <= Split(p, '/') <==> Split(d, '/') == Split(p, '/') || Split(d, '/') < Split(p, '/');
  }

  lemma BothPrefixes<T>(a: seq<T>, b: seq<T>, c: seq<T>)
    requires a <= c && b <= c
    ensures a <= b || b <= a
  {
    if |a| <= |b| {
      assert a == c[..|a|] && b[..|a|] == c[..|a|];
    } else {
      assert b == c[..|b|] && a[..|b|] == c[..|b|];
    }
  }

  /** The string test reads the segment tree: two territories overlap exactly when
      one's segments prefix the other's. */
  lemma OverlapSegments(a: Path, b: Path)
    requires Territorial(a) && Territorial(b)
    ensures PrefixOverlaps(a, b) <==> Segments(a) <= Segments(b) || Segments(b) <= Segments(a)
  {
    WithinSegments(a, b);
    WithinSegments(b, a);
  }

  /** Which is exactly when some path is in both. */
  lemma OverlapMeansCommonPath(a: Path, b: Path)
    requires Territorial(a) && Territorial(b)
    ensures PrefixOverlaps(a, b) <==> exists p :: Territorial(p) && Within(a, p) && Within(b, p)
  {
    if PrefixOverlaps(a, b) {
      var p := if Within(a, b) then b else a;
      assert Territorial(p) && Within(a, p) && Within(b, p);
    }
    if p :| Territorial(p) && Within(a, p) && Within(b, p) {
      WithinSegments(a, p);
      WithinSegments(b, p);
      BothPrefixes(Segments(a), Segments(b), Segments(p));
      OverlapSegments(a, b);
    }
  }

  lemma SameSegments(a: Path, b: Path)
    requires Territorial(a) && Territorial(b)
    ensures Segments(a) == Segments(b) <==> a == b
  {
    JoinSplit(a, '/');
    JoinSplit(b, '/');
  }

  /** A hold is above a path exactly when the path lies strictly inside it. */
  lemma HoldAboveStrict(target: Path, path: Path)
    requires Territorial(target) && Territorial(path)
    ensures HoldAbove(target, path) <==> Segments(target) < Segments(path)
  {
    WithinSegments(target, path);
    SameSegments(target, path);
    assert Segments(target) <= Segments(path) <==> Segments(target) == Segments(path) || Segments(target) < Segments(path);
  }

  // --- worktrees ------------------------------------------------------------

  /** An unset side matches any worktree. */
  predicate SameWorktree(a: string, b: string) {
    a == "" || b == "" || a == b
  }

  // --- holds and the rule ---------------------------------------------------

  datatype Liveness = Alive | Dead | Unknown

  /** A lock row as a decision reads it; holder is the process it was stamped with. */
  datatype Record = Record(target: Path, owner: string, worktree: string, expires: int, inFlight: bool, holder: nat)

  datatype Hold = Hold(actor: string, worktree: string, target: Path, live: bool)

  /** What a decision is made against. live is the probe, when there is one; lower is
      the filesystem's own case folding, used only when caseFold is set. */
  datatype Context = Context(now: int, live: Option<Record -> Liveness>, caseFold: bool, lower: string -> string) {

    predicate PrefixCovers(a: Path, b: Path) {
      PrefixOverlaps(a, b) || (caseFold && PrefixOverlaps(lower(a), lower(b)))
    }

    predicate IsStale(l: Record) {
      (now >= l.expires && !l.inFlight) || (live.Some? && live.value(l) == Dead)
    }

    function HolderLiveness(l: Record): (Liveness, bool) {
      if live.None? then (Unknown, false) else (live.value(l), true)
    }

    function LockHold(l: Record): Hold {
      Hold(l.owner, l.worktree, l.target, !IsStale(l))
    }

    predicate Covers(worktree: string, target: Path, h: Hold) {
      SameWorktree(worktree, h.worktree) && PrefixCovers(h.target, target)
    }

    /** The one predicate that decides a write. */
    predicate Refuses(actor: string, worktree: string, target: Path, h: Hold) {
      !(actor != "" && h.actor == actor) && h.live && Covers(worktree, target, h)
    }

    /** The first hold that refuses, or -1. */
    function Decide(actor: string, worktree: string, target: Path, holds: seq<Hold>): (i: int)
      ensures -1 <= i < |holds|
      ensures i >= 0 ==> Refuses(actor, worktree, target, holds[i])
      ensures forall j :: 0 <= j < (if i < 0 then |holds| else i) ==> !Refuses(actor, worktree, target, holds[j])
    {
      if holds == [] then -1
      else if Refuses(actor, worktree, target, holds[0]) then 0
      else
        var rest := Decide(actor, worktree, target, holds[1..]);
        if rest < 0 then -1 else rest + 1
    }

    /** Conflicts, with its cheap filter first: the probe is asked only about a row
        that could conflict. */
    predicate Conflicts(incoming: Record, existing: Record) {
      var cheap := Hold(existing.owner, existing.worktree, existing.target, true);
      Refuses(incoming.owner, incoming.worktree, incoming.target, cheap) &&
      Refuses(incoming.owner, incoming.worktree, incoming.target, LockHold(existing))
    }
  }

  /** The conflict rule, all of it: another actor's row, neither lapsed nor known dead,
      in a worktree that may be the same, on territory that overlaps, case folded or
      not. The filter changes nothing. */
  lemma ConflictsExactly(c: Context, incoming: Record, existing: Record)
    ensures c.Conflicts(incoming, existing) <==>
      && (incoming.owner == "" || existing.owner != incoming.owner)
      && (c.now < existing.expires || existing.inFlight)
      && (c.live.None? || c.live.value(existing) != Dead)
      && (incoming.worktree == "" || existing.worktree == "" || incoming.worktree == existing.worktree)
      && (PrefixOverlaps(existing.target, incoming.target)
          || (c.caseFold && PrefixOverlaps(c.lower(existing.target), c.lower(incoming.target))))
  {
  }

  /** A path inside a hold is covered only by what overlaps the hold itself. */
  lemma CoversInside(hold: Path, p: Path, other: Path)
    requires Territorial(hold) && Territorial(p) && Territorial(other)
    requires Within(hold, p) && PrefixOverlaps(other, p)
    ensures PrefixOverlaps(other, hold)
  {
    WithinSegments(hold, p);
    OverlapSegments(other, p);
    OverlapSegments(other, hold);
    if Segments(other) <= Segments(p) {
      BothPrefixes(Segments(hold), Segments(other), Segments(p));
    } else {
      assert Segments(hold) <= Segments(other);
    }
  }

  // --- case folding ---------------------------------------------------------

  /** A fold that keeps territories territories, and what lies in one in it. */
  ghost predicate KeepsTerritories(lower: string -> string) {
    && (forall p :: Territorial(p) ==> Territorial(lower(p)))
    && forall d, p :: Within(d, p) ==> Within(lower(d), lower(p))
  }

  /** A fold of single characters that leaves separators and dots alone. */
  ghost predicate FoldsLetters(g: char -> char) {
    forall c :: (g(c) == '/' <==> c == '/') && (g(c) == '.' <==> c == '.')
  }

  function Folded(s: string, g: char -> char): (t: string)
    ensures |t| == |s| && forall i :: 0 <= i < |s| ==> t[i] == g(s[i])
  {
    seq(|s|, i requires 0 <= i < |s| => g(s[i]))
  }

  lemma FoldedApart(s: string, g: char -> char)
    requires s != ""
    ensures Folded(s, g)[0] == g(s[0]) && Folded(s, g)[1..] == Folded(s[1..], g)
  {
  }

  lemma FoldedTogether(c: char, s: string, g: char -> char)
    ensures Folded([c] + s, g) == [g(c)] + Folded(s, g)
  {
  }

  lemma {:induction false} SplitFolded(s: string, g: char -> char)
    requires FoldsLetters(g)
    ensures |Split(Folded(s, g), '/')| == |Split(s, '/')|
    ensures forall i :: 0 <= i < |Split(s, '/')| ==> Split(Folded(s, g), '/')[i] == Folded(Split(s, '/')[i], g)
  {
    if |s| > 0 {
      SplitFolded(s[1..], g);
      FoldedApart(s, g);
      FoldedTogether(s[0], Split(s[1..], '/')[0], g);
    }
  }

  lemma OrdinaryFolded(seg: string, g: char -> char)
    requires FoldsLetters(g) && Ordinary(seg)
    ensures Ordinary(Folded(seg, g))
  {
    var t := Folded(seg, g);
    if |seg| == 1 {
      assert seg[0] != '.' && t[0] != '.';
    } else if |seg| == 2 {
      assert seg[0] != '.' || seg[1] != '.';
      assert t[0] != '.' || t[1] != '.';
    }
  }

  /** Such a fold keeps territories. */
  lemma LettersKeepTerritories(g: char -> char)
    requires FoldsLetters(g)
    ensures KeepsTerritories(s => Folded(s, g))
  {
    forall p | Territorial(p) ensures Territorial(Folded(p, g)) {
      SplitFolded(p, g);
      var segs, folded := Split(p, '/'), Split(Folded(p, g), '/');
      if p == "." {
        assert Folded(p, g) == ".";
      } else {
        forall i | 0 <= i < |folded| ensures Ordinary(folded[i]) {
          OrdinaryFolded(segs[i], g);
        }
      }
    }
    forall d, p | Within(d, p) ensures Within(Folded(d, g), Folded(p, g)) {
      if d == "." {
        assert Folded(d, g) == ".";
      } else if Beneath(d, p) {
        assert Folded(d, g) + "/" == Folded(p, g)[..|d| + 1];
      }
    }
  }
}
