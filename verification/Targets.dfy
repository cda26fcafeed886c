/** How a token becomes a repository path. */
module Targets {
  import opened Options
  import opened Text
  import opened Paths

  datatype TargetError =
    | EmptyTarget | HasNul | Backslash | RepoEscape | Glob | Unspellable | IsDir | IsRepoRoot

  datatype Provenance = Typed | Git

  predicate ContainsAny(s: string, chars: string) {
    exists i | 0 <= i < |s| :: s[i] in chars
  }

  predicate HasControl(s: string) {
    exists i | 0 <= i < |s| :: s[i] < '\U{20}' || s[i] == '\U{7F}'
  }

  predicate EndsWithSlash(s: string) {
    s != "" && s[|s| - 1] == '/'
  }

  const SHELL_META := "$`\"'"
  const GLOB_META := "*?[{"

  /** The one rule that depends on who produced the token. */
  predicate LooksTyped(s: string) {
    ContainsAny(s, SHELL_META) || HasControl(s) || TrimSpace(s) != s
  }

  function CanonicalizeFrom(s: string, prov: Provenance): Result<Path, TargetError> {
    if s == "" then Err(EmptyTarget)
    else if '\0' in s then Err(HasNul)
    else if '\\' in s then Err(Backslash)
    else if s[0] == '/' then Err(RepoEscape)
    else if ContainsAny(s, GLOB_META) then Err(Glob)
    else if prov == Typed && LooksTyped(s) then Err(Unspellable)
    else if EndsWithSlash(s) then Err(IsDir)
    else
      var cleaned := Clean(s);
      if cleaned == ".." || "../" <= cleaned then Err(RepoEscape)
      else if cleaned == "." then Err(IsRepoRoot)
      else Ok(cleaned)
  }

  function TrimSlashes(s: string): string {
    if EndsWithSlash(s) then TrimSlashes(s[..|s| - 1]) else s
  }

  function CanonicalizePrefix(s: string): Result<Path, TargetError> {
    var trimmed := if s != "" && s != "/" then TrimSlashes(s) else s;
    match CanonicalizeFrom(trimmed, Typed)
    case Err(IsRepoRoot) => Ok(".")
    case r => r
  }

  // --- what path.Clean leaves -----------------------------------------------

  /** The output of one pass: ".." only at the front, ordinary segments after. */
  predicate UpThenDown(segs: seq<string>, ups: nat) {
    && ups <= |segs|
    && (forall i | 0 <= i < |segs| :: if i < ups then segs[i] == ".." else Ordinary(segs[i]) && '/' !in segs[i])
  }

  /** How far above its start a relative path climbs, and how deep it ends. */
  function Climb(segs: seq<string>, depth: nat, ups: nat): (nat, nat) {
    if |segs| == 0 then (depth, ups)
    else if segs[0] == "" || segs[0] == "." then Climb(segs[1..], depth, ups)
    else if segs[0] == ".." then
      if depth > 0 then Climb(segs[1..], depth - 1, ups) else Climb(segs[1..], 0, ups + 1)
    else Climb(segs[1..], depth + 1, ups)
  }

  lemma {:induction false} CleanSegsShape(segs: seq<string>, acc: seq<string>, ups: nat)
    requires forall i :: 0 <= i < |segs| ==> '/' !in segs[i]
    requires UpThenDown(acc, ups)
    ensures var (depth, climbed) := Climb(segs, |acc| - ups, ups);
      UpThenDown(CleanSegs(segs, acc, false), climbed) && |CleanSegs(segs, acc, false)| == depth + climbed
  {
    if |segs| > 0 {
      if segs[0] == "" || segs[0] == "." {
        CleanSegsShape(segs[1..], acc, ups);
      } else if segs[0] == ".." {
        if |acc| > ups {
          CleanSegsShape(segs[1..], acc[..|acc| - 1], ups);
        } else {
          CleanSegsShape(segs[1..], acc + [".."], ups + 1);
        }
      } else {
        CleanSegsShape(segs[1..], acc + [segs[0]], ups);
      }
    }
  }

  function Weight(seg: string): int {
    if seg == "" || seg == "." then 0 else if seg == ".." then -1 else 1
  }

  /** Names less "..": how deep the segments lead. */
  function Balance(segs: seq<string>): int {
    if |segs| == 0 then 0 else Weight(segs[0]) + Balance(segs[1..])
  }

  /** Some beginning of the path holds more ".." than names. */
  predicate Escapes(segs: seq<string>) {
    exists k | 0 <= k <= |segs| :: Balance(segs[..k]) < 0
  }

  lemma {:induction false} ClimbNeverDrops(segs: seq<string>, depth: nat, ups: nat)
    ensures Climb(segs, depth, ups).1 >= ups
  {
    if |segs| > 0 {
      if segs[0] == "" || segs[0] == "." {
        ClimbNeverDrops(segs[1..], depth, ups);
      } else if segs[0] == ".." && depth > 0 {
        ClimbNeverDrops(segs[1..], depth - 1, ups);
      } else if segs[0] == ".." {
        ClimbNeverDrops(segs[1..], 0, ups + 1);
      } else {
        ClimbNeverDrops(segs[1..], depth + 1, ups);
      }
    }
  }

  /** A beginning of the path that climbs above depth. */
  predicate ClimbsPast(segs: seq<string>, depth: int) {
    exists k | 0 <= k <= |segs| :: Balance(segs[..k]) + depth < 0
  }

  lemma ClimbsPastStep(segs: seq<string>, depth: int)
    requires |segs| > 0 && depth >= 0
    ensures ClimbsPast(segs, depth) <==> ClimbsPast(segs[1..], depth + Weight(segs[0]))
  {
    forall k | 1 <= k <= |segs| ensures Balance(segs[..k]) == Weight(segs[0]) + Balance(segs[1..][..k - 1]) {
      assert segs[..k][1..] == segs[1..][..k - 1];
    }
    if ClimbsPast(segs, depth) {
      var k :| 0 <= k <= |segs| && Balance(segs[..k]) + depth < 0;
      assert k > 0;
      assert Balance(segs[1..][..k - 1]) + (depth + Weight(segs[0])) < 0;
    }
    if ClimbsPast(segs[1..], depth + Weight(segs[0])) {
      var k :| 0 <= k <= |segs[1..]| && Balance(segs[1..][..k]) + (depth + Weight(segs[0])) < 0;
      assert Balance(segs[..k + 1]) + depth < 0;
    }
  }

  lemma {:induction false} ClimbExact(segs: seq<string>, depth: nat)
    ensures Climb(segs, depth, 0).1 > 0 <==> ClimbsPast(segs, depth)
  {
    if |segs| > 0 {
      ClimbsPastStep(segs, depth);
      if segs[0] == "" || segs[0] == "." {
        ClimbExact(segs[1..], depth);
      } else if segs[0] == ".." && depth > 0 {
        ClimbExact(segs[1..], depth - 1);
      } else if segs[0] == ".." {
        ClimbNeverDrops(segs[1..], 0, 1);
        assert segs[1..][..0] == [];
      } else {
        ClimbExact(segs[1..], depth + 1);
      }
    }
  }

  lemma JoinedNotEmpty(segs: seq<string>, ups: nat)
    requires segs != [] && UpThenDown(segs, ups)
    ensures Join(segs, '/') != ""
  {
    assert segs[0] != "";
  }

  /** What path.Clean makes of a relative path: climb first, ordinary names after;
      it climbs exactly when the path escapes. */
  lemma CleanRelative(s: Path) returns (segs: seq<string>, ups: nat)
    requires s != "" && s[0] != '/'
    ensures UpThenDown(segs, ups) && (ups > 0 <==> Escapes(Split(s, '/')))
    ensures Clean(s) == if segs == [] then "." else Join(segs, '/')
  {
    var parts := Split(s, '/');
    SplitPartsClean(s, '/');
    CleanSegsShape(parts, [], 0);
    segs := CleanSegs(parts, [], false);
    ups := Climb(parts, 0, 0).1;
    ClimbExact(parts, 0);
    assert Escapes(parts) <==> ClimbsPast(parts, 0);
    if segs != [] { JoinedNotEmpty(segs, ups); }
  }

  /** How a cleaned path that climbs looks. */
  lemma ClimbShows(segs: seq<string>, ups: nat)
    requires segs != [] && UpThenDown(segs, ups)
    ensures ups > 0 <==> Join(segs, '/') == ".." || "../" <= Join(segs, '/')
  {
    var p := Join(segs, '/');
    if ups > 0 {
      assert segs[0] == "..";
      if |segs| > 1 { assert p == ".." + ['/'] + Join(segs[1..], '/'); }
    } else {
      assert Ordinary(segs[0]);
      CanonicalJoin(segs);
      SplitWhole("..", '/');
      assert Split(p, '/')[0] != "..";
      if "../" <= p {
        assert p == ".." + ['/'] + p[3..];
        SplitConcat("..", p[3..], '/');
      }
    }
  }

  /** What no path a person types may hold: what a shell would expand or quote, and
      control characters. */
  predicate Unspeakable(c: char) {
    c == '$' || c == '`' || c == '"' || c == '\'' || c < ' ' || c == '\U{7F}'
  }

  /** What a token must get past before its path is looked at. */
  predicate Spelled(s: string, prov: Provenance) {
    && s != "" && s[0] != '/' && s[|s| - 1] != '/'
    && (forall c | c in s :: c != '\0' && c != '\\' && c != '*' && c != '?' && c != '[' && c != '{')
    && (prov == Typed ==> Trimmed(s) && forall c | c in s :: !Unspeakable(c))
  }

  lemma TypedExactly(s: string)
    ensures LooksTyped(s) <==> !Trimmed(s) || exists c :: c in s && Unspeakable(c)
  {
    TrimSpaceFacts(s);
    assert forall c :: c in SHELL_META <==> c == '$' || c == '`' || c == '"' || c == '\'';
    if c :| c in s && Unspeakable(c) {
      var i :| 0 <= i < |s| && s[i] == c;
      if s[i] in SHELL_META { assert ContainsAny(s, SHELL_META); } else { assert HasControl(s); }
    }
    if ContainsAny(s, SHELL_META) {
      var i :| 0 <= i < |s| && s[i] in SHELL_META;
      assert s[i] in s && Unspeakable(s[i]);
    }
    if HasControl(s) {
      var i :| 0 <= i < |s| && (s[i] < '\U{20}' || s[i] == '\U{7F}');
      assert s[i] in s && Unspeakable(s[i]);
    }
  }

  lemma SpelledExactly(s: string, prov: Provenance)
    ensures Spelled(s, prov) <==>
      && s != "" && '\0' !in s && '\\' !in s && s[0] != '/' && !ContainsAny(s, GLOB_META)
      && (prov == Typed ==> !LooksTyped(s)) && !EndsWithSlash(s)
  {
    TypedExactly(s);
    assert forall c :: c in GLOB_META <==> c == '*' || c == '?' || c == '[' || c == '{';
    assert ContainsAny(s, GLOB_META) <==> exists c :: c in s && c in GLOB_META;
  }

  /** Accepted exactly when it is spelled as a path, never climbs above the root, and
      names something in it; what comes out never leaves the repository. */
  lemma CanonicalizeExactly(s: string, prov: Provenance)
    ensures CanonicalizeFrom(s, prov).Ok? <==>
      Spelled(s, prov) && !Escapes(Split(s, '/')) && Clean(s) != "."
    ensures Spelled(s, prov) ==> (CanonicalizeFrom(s, prov) == Err(RepoEscape) <==> Escapes(Split(s, '/')))
    ensures CanonicalizeFrom(s, prov).Ok? ==>
      CanonicalizeFrom(s, prov).value == Clean(s) && Canonical(Clean(s))
  {
    SpelledExactly(s, prov);
    if Spelled(s, prov) {
      var segs, ups := CleanRelative(s);
      if segs != [] {
        ClimbShows(segs, ups);
        if ups == 0 { CanonicalJoin(segs); }
      }
    }
  }

  /** What a refusal says of the token. */
  predicate Faulty(s: string, prov: Provenance, e: TargetError) {
    match e
    case EmptyTarget => s == ""
    case HasNul => '\0' in s
    case Backslash => '\\' in s
    case RepoEscape => s != "" && (s[0] == '/' || Escapes(Split(s, '/')))
    case Glob => '*' in s || '?' in s || '[' in s || '{' in s
    case Unspellable => prov == Typed && (!Trimmed(s) || exists c | c in s :: Unspeakable(c))
    case IsDir => s != "" && s[|s| - 1] == '/'
    case IsRepoRoot => Spelled(s, prov) && !Escapes(Split(s, '/')) && Clean(s) == "."
  }

  /** Every refusal is true of the token it refuses. */
  lemma RefusedTruly(s: string, prov: Provenance)
    requires CanonicalizeFrom(s, prov).Err?
    ensures Faulty(s, prov, CanonicalizeFrom(s, prov).error)
  {
    SpelledExactly(s, prov);
    TypedExactly(s);
    CanonicalizeExactly(s, prov);
    if ContainsAny(s, GLOB_META) {
      var i :| 0 <= i < |s| && s[i] in GLOB_META;
      assert s[i] in s && (s[i] == '*' || s[i] == '?' || s[i] == '[' || s[i] == '{');
    }
  }

  /** Characters of the cleaned path come from the token. */
  lemma {:induction false} CleanSegsKeeps(segs: seq<string>, acc: seq<string>, rooted: bool)
    ensures forall i :: 0 <= i < |CleanSegs(segs, acc, rooted)| ==>
      CleanSegs(segs, acc, rooted)[i] in acc || CleanSegs(segs, acc, rooted)[i] in segs || CleanSegs(segs, acc, rooted)[i] == ".."
  {
    if |segs| > 0 {
      assert forall x :: x in segs[1..] ==> x in segs;
      if segs[0] == "" || segs[0] == "." {
        CleanSegsKeeps(segs[1..], acc, rooted);
      } else if segs[0] == ".." {
        if |acc| > 0 && acc[|acc| - 1] != ".." {
          CleanSegsKeeps(segs[1..], acc[..|acc| - 1], rooted);
        } else if rooted {
          CleanSegsKeeps(segs[1..], acc, rooted);
        } else {
          CleanSegsKeeps(segs[1..], acc + [".."], rooted);
        }
      } else {
        CleanSegsKeeps(segs[1..], acc + [segs[0]], rooted);
      }
    }
  }

  lemma {:induction false} JoinChars(parts: seq<string>, c: char)
    requires c in Join(parts, '/')
    ensures c == '/' || exists i :: 0 <= i < |parts| && c in parts[i]
  {
    if |parts| > 1 && c !in parts[0] && c != '/' {
      JoinChars(parts[1..], c);
      var i :| 0 <= i < |parts[1..]| && c in parts[1..][i];
      assert c in parts[i + 1];
    }
  }

  lemma {:induction false} PartChars(s: string, i: nat, c: char)
    requires i < |Split(s, '/')| && c in Split(s, '/')[i]
    ensures c in s
  {
    if |s| > 0 {
      var rest := Split(s[1..], '/');
      if s[0] == '/' {
        if i > 0 { PartChars(s[1..], i - 1, c); }
      } else if i > 0 {
        PartChars(s[1..], i, c);
      } else if c != s[0] {
        assert c in rest[0];
        PartChars(s[1..], 0, c);
      }
    }
  }

  lemma CleanChars(s: Path, c: char)
    requires s != "" && s[0] != '/' && c in Clean(s)
    ensures c in s || c == '.' || c == '/'
  {
    var parts := Split(s, '/');
    var segs := CleanSegs(parts, [], false);
    CleanSegsKeeps(parts, [], false);
    if segs != [] && Clean(s) != "." && c != '/' {
      JoinChars(segs, c);
      var i :| 0 <= i < |segs| && c in segs[i];
      if segs[i] in parts {
        var k :| 0 <= k < |parts| && parts[k] == segs[i];
        PartChars(s, k, c);
      }
    }
  }

  lemma LastSegmentEmpty(t: Path)
    requires EndsWithSlash(t)
    ensures Split(t, '/')[|Split(t, '/')| - 1] == ""
  {
    assert t == t[..|t| - 1] + ['/'] + "";
    SplitConcat(t[..|t| - 1], "", '/');
  }

  lemma CanonicalFacts(t: Path)
    requires Canonical(t)
    ensures t != "" && t[0] != '/' && !EndsWithSlash(t) && t != "." && t != ".." && !("../" <= t)
  {
    DotNotCanonical();
    SplitWhole("..", '/');
    var segs := Split(t, '/');
    SplitPartsClean(t, '/');
    JoinSplit(t, '/');
    CanonicalJoin(segs);
    if "../" <= t {
      assert t == ".." + ['/'] + t[3..];
      SplitConcat("..", t[3..], '/');
    }
    if EndsWithSlash(t) { LastSegmentEmpty(t); }
  }

  lemma NoneOf(s: string, t: string, chars: string)
    requires !ContainsAny(s, chars) && '.' !in chars && '/' !in chars
    requires forall c :: c in t ==> c in s || c == '.' || c == '/'
    ensures !ContainsAny(t, chars)
  {
    forall i | 0 <= i < |t| ensures t[i] !in chars {
      assert t[i] in t;
    }
  }

  lemma CleanKeepsSpelling(s: string, t: string)
    requires forall c :: c in t ==> c in s || c == '.' || c == '/'
    ensures !ContainsAny(s, GLOB_META) ==> !ContainsAny(t, GLOB_META)
    ensures !ContainsAny(s, SHELL_META) ==> !ContainsAny(t, SHELL_META)
    ensures !HasControl(s) ==> !HasControl(t)
    ensures '\0' !in s ==> '\0' !in t
    ensures '\\' !in s ==> '\\' !in t
  {
    if !ContainsAny(s, GLOB_META) { NoneOf(s, t, GLOB_META); }
    if !ContainsAny(s, SHELL_META) { NoneOf(s, t, SHELL_META); }
    if !HasControl(s) {
      forall i | 0 <= i < |t| ensures !(t[i] < '\U{20}' || t[i] == '\U{7F}') { assert t[i] in t; }
    }
  }

  /** A git path canonicalises to a fixed point; a typed one does exactly when its
      cleaned form has no white space at its ends, because that rule was applied to
      the raw token. */
  lemma FixedPointExactly(s: string, prov: Provenance)
    requires CanonicalizeFrom(s, prov).Ok?
    ensures var t := CanonicalizeFrom(s, prov).value;
      CanonicalizeFrom(t, prov) == (if prov == Git || Trimmed(t) then Ok(t) else Err(Unspellable))
  {
    CanonicalizeExactly(s, prov);
    var t := CanonicalizeFrom(s, prov).value;
    assert Canonical(t);
    CanonicalFacts(t);
    CanonicalIsClean(t);
    forall c | c in t ensures c in s || c == '.' || c == '/' {
      CleanChars(s, c);
    }
    TrimSpaceFacts(t);
    CleanKeepsSpelling(s, t);
  }

  /** A prefix claim is accepted exactly when its token, off trailing slashes, is spelled
      right and does not climb out of the root; it is then the file target of that name,
      or the root: the one rule on which they differ. */
  lemma PrefixExactly(s: string)
    ensures var t := TrimSlashes(s);
      && (CanonicalizePrefix(s).Ok? <==> Spelled(t, Typed) && !Escapes(Split(t, '/')))
      && (CanonicalizePrefix(s) == Ok(".") <==> Spelled(t, Typed) && !Escapes(Split(t, '/')) && Clean(t) == ".")
      && (CanonicalizePrefix(s).Ok? && CanonicalizePrefix(s).value != "." ==>
            CanonicalizePrefix(s) == CanonicalizeFrom(t, Typed) && Canonical(CanonicalizePrefix(s).value))
  {
    var t := TrimSlashes(s);
    SpelledExactly(t, Typed);
    SpelledExactly(s, Typed);
    CanonicalizeExactly(t, Typed);
    CanonicalizeExactly(s, Typed);
    DotNotCanonical();
    if s == "/" { assert s[..0] == ""; }
  }

  lemma {:induction false} TrimSlashesOff(s: string, n: nat)
    requires !EndsWithSlash(s)
    ensures TrimSlashes(s + seq(n, _ => '/')) == s
  {
    var t := s + seq(n, _ => '/');
    if n == 0 {
      assert t == s;
    } else {
      assert t[..|t| - 1] == s + seq(n - 1, _ => '/');
      TrimSlashesOff(s, n - 1);
    }
  }

  /** Every token a file target accepts is accepted as a prefix, as the same path, with
      any number of slashes after it. */
  lemma FileTargetsArePrefixes(s: string, n: nat)
    requires CanonicalizeFrom(s, Typed).Ok?
    ensures CanonicalizePrefix(s + seq(n, _ => '/')) == CanonicalizeFrom(s, Typed)
  {
    TrimSlashesOff(s, n);
    CanonicalizeExactly(s, Typed);
  }

  const WANDERING := "a/../ b"

  lemma WanderingSplit()
    ensures Split(WANDERING, '/') == ["a", "..", " b"]
  {
    assert WANDERING == "a/.." + ['/'] + " b" && "a/.." == "a" + ['/'] + "..";
    SplitConcat("a/..", " b", '/');
    SplitConcat("a", "..", '/');
    SplitWhole("a", '/');
    SplitWhole("..", '/');
    SplitWhole(" b", '/');
  }

  lemma WanderingClean()
    ensures Clean(WANDERING) == " b"
  {
    WanderingSplit();
    var segs := ["a", "..", " b"];
    assert segs[1..] == ["..", " b"] && segs[1..][1..] == [" b"] && [" b"][1..] == [];
    assert CleanSegs(segs, [], false) == CleanSegs(segs[1..], ["a"], false);
    assert ["a"][..0] == [];
    assert CleanSegs(segs[1..], ["a"], false) == CleanSegs([" b"], [], false);
    assert CleanSegs([" b"], [], false) == CleanSegs([], [" b"], false);
  }

  lemma WanderingSpelled()
    ensures Spelled(WANDERING, Typed)
  {
    TrimSpaceFacts(WANDERING);
  }

  lemma CleanSegsOfWandering()
    ensures Climb(["a", "..", " b"], 0, 0) == (1, 0)
  {
    var segs := ["a", "..", " b"];
    assert segs[1..] == ["..", " b"] && segs[1..][1..] == [" b"] && [" b"][1..] == [];
    assert Climb(segs, 0, 0) == Climb(segs[1..], 1, 0);
    assert Climb(segs[1..], 1, 0) == Climb([" b"], 0, 0);
    assert Climb([" b"], 0, 0) == Climb([], 1, 0);
  }

  lemma WanderingStays()
    ensures !Escapes(Split(WANDERING, '/'))
  {
    WanderingSplit();
    CleanSegsOfWandering();
    ClimbExact(["a", "..", " b"], 0);
    assert Escapes(["a", "..", " b"]) <==> ClimbsPast(["a", "..", " b"], 0);
  }

  /** And such a typed token exists. */
  lemma TypedNotFixed()
    ensures CanonicalizeFrom(WANDERING, Typed) == Ok(" b")
    ensures CanonicalizeFrom(" b", Typed) == Err(Unspellable)
  {
    WanderingClean();
    WanderingSpelled();
    CanonicalizeExactly(WANDERING, Typed);
    WanderingStays();
    FixedPointExactly(WANDERING, Typed);
  }
}
