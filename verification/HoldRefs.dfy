/** Hold references: one grant of a target, as owner@epoch, and sets of them. */
module HoldRefs {
  import opened Options
  import opened Text
  import opened Ordering
  import opened Decimals

  datatype HoldRef = HoldRef(owner: string, epoch: int)

  datatype Malformed = Malformed(text: string)

  function Render(h: HoldRef): string {
    h.owner + "@" + FormatInt(h.epoch)
  }

  /** The offset of the last '@', or -1. */
  function LastAt(s: string): (i: int)
    ensures -1 <= i < |s|
    ensures i >= 0 ==> s[i] == '@'
    ensures forall j :: i < j < |s| ==> s[j] != '@'
  {
    if s == "" then -1
    else if s[|s| - 1] == '@' then |s| - 1
    else LastAt(s[..|s| - 1])
  }

  /** ParseHoldRef. */
  function Parse(s: string): Result<HoldRef, Malformed> {
    var at := LastAt(s);
    if at <= 0 || at == |s| - 1 then Err(Malformed(s))
    else
      match ParseInt(s[at + 1..])
      case None => Err(Malformed(s))
      case Some(epoch) => if epoch < 0 then Err(Malformed(s)) else Ok(HoldRef(s[..at], epoch))
  }

  lemma RenderedAt(h: HoldRef)
    ensures LastAt(Render(h)) == |h.owner|
  {
    FormatClean(h.epoch);
    var s := Render(h);
    assert s[|h.owner|] == '@';
    forall j | |h.owner| < j < |s| ensures s[j] != '@' {
      assert s[j] in FormatInt(h.epoch);
    }
    assert LastAt(s) >= |h.owner| && LastAt(s) <= |h.owner|;
  }

  /** A reference reads back as itself exactly when it names an owner and a generation
      that fits; the owner may hold any number of '@'. */
  lemma RoundTripExactly(h: HoldRef)
    ensures Parse(Render(h)) == Ok(h) <==> h.owner != "" && 0 <= h.epoch <= MAX_INT64
  {
    RenderedAt(h);
    FormatClean(h.epoch);
    ParseFormatInt(h.epoch);
    var s := Render(h);
    assert s[|h.owner| + 1..] == FormatInt(h.epoch);
    assert s[..|h.owner|] == h.owner;
  }

  /** Whatever parses names an owner and a generation that fits. */
  lemma ParsedIsWellFormed(s: string)
    requires Parse(s).Ok?
    ensures Parse(s).value.owner != "" && 0 <= Parse(s).value.epoch <= MAX_INT64
    ensures Parse(Render(Parse(s).value)) == Parse(s)
  {
    RoundTripExactly(Parse(s).value);
  }

  // --- sets of references ---------------------------------------------------

  /** Owner, then epoch. */
  predicate Before(a: HoldRef, b: HoldRef) {
    if a.owner != b.owner then Less(a.owner, b.owner) else a.epoch < b.epoch
  }

  lemma BeforeTotal(a: HoldRef, b: HoldRef)
    ensures a == b || Before(a, b) || Before(b, a)
    ensures !(Before(a, b) && Before(b, a)) && !Before(a, a)
  {
    Trichotomy(a.owner, b.owner);
    Trichotomy(a.owner, a.owner);
  }

  lemma BeforeTransitive(a: HoldRef, b: HoldRef, c: HoldRef)
    requires Before(a, b) && Before(b, c)
    ensures Before(a, c)
  {
    if a.owner != b.owner && b.owner != c.owner {
      Transitive(a.owner, b.owner, c.owner);
    }
    Trichotomy(a.owner, c.owner);
  }

  ghost predicate InOrder(s: seq<HoldRef>) {
    forall i, j :: 0 <= i < j < |s| ==> !Before(s[j], s[i])
  }

  lemma NotBeforeTransitive(a: HoldRef, b: HoldRef, c: HoldRef)
    requires !Before(c, b) && !Before(b, a)
    ensures !Before(c, a)
  {
    BeforeTotal(a, b);
    BeforeTotal(b, c);
    if Before(a, b) && Before(b, c) { BeforeTransitive(a, b, c); }
    BeforeTotal(a, c);
  }

  /** The first n in order but for the element at j, which may belong further left. */
  ghost predicate OrderedBut(s: seq<HoldRef>, j: nat, n: nat) {
    n <= |s| && forall p, q :: 0 <= p < q < n && q != j ==> !Before(s[q], s[p])
  }

  function Swapped(s: seq<HoldRef>, j: nat): seq<HoldRef>
    requires 0 < j < |s|
  {
    s[j := s[j - 1]][j - 1 := s[j]]
  }

  lemma SwapKeeps(s: seq<HoldRef>, j: nat, n: nat)
    requires 0 < j < n <= |s| && OrderedBut(s, j, n) && Before(s[j], s[j - 1])
    ensures OrderedBut(Swapped(s, j), j - 1, n) && multiset(Swapped(s, j)) == multiset(s)
  {
    BeforeTotal(s[j], s[j - 1]);
    var t := Swapped(s, j);
    forall p, q | 0 <= p < q < n && q != j - 1 ensures !Before(t[q], t[p]) {
      assert q > j && p == j - 1 ==> !Before(s[q], s[j]);
      assert q > j && p == j ==> !Before(s[q], s[j - 1]);
    }
  }

  lemma Settled(s: seq<HoldRef>, j: nat, n: nat)
    requires j < n <= |s| && OrderedBut(s, j, n) && (j > 0 ==> !Before(s[j], s[j - 1]))
    ensures InOrder(s[..n])
  {
    forall p | 0 <= p < j ensures !Before(s[j], s[p]) {
      if p < j - 1 { NotBeforeTransitive(s[p], s[j - 1], s[j]); }
    }
  }

  lemma OrderedStart(s: seq<HoldRef>, i: nat)
    requires i < |s| && InOrder(s[..i])
    ensures OrderedBut(s, i, i + 1)
  {
    forall p, q | 0 <= p < q < i ensures !Before(s[q], s[p]) {
      assert s[..i][p] == s[p] && s[..i][q] == s[q];
    }
  }

  /** Move the element at i left to its place. */
  method Sift(refs: array<HoldRef>, i: nat)
    requires i < refs.Length && InOrder(refs[..i])
    modifies refs
    ensures InOrder(refs[..i + 1]) && multiset(refs[..]) == multiset(old(refs[..]))
  {
    var j := i;
    assert refs[..][..i] == refs[..i];
    OrderedStart(refs[..], i);
    while j > 0 && Before(refs[j], refs[j - 1])
      invariant 0 <= j <= i
      invariant OrderedBut(refs[..], j, i + 1)
      invariant multiset(refs[..]) == multiset(old(refs[..]))
    {
      ghost var s := refs[..];
      SwapKeeps(s, j, i + 1);
      refs[j], refs[j - 1] := refs[j - 1], refs[j];
      assert refs[..] == Swapped(s, j);
      j := j - 1;
    }
    Settled(refs[..], j, i + 1);
    assert refs[..][..i + 1] == refs[..i + 1];
  }

  /** SortHoldRefs, in place. */
  method SortHoldRefs(refs: array<HoldRef>)
    modifies refs
    ensures InOrder(refs[..]) && multiset(refs[..]) == multiset(old(refs[..]))
  {
    for i := 0 to refs.Length
      invariant InOrder(refs[..i]) && multiset(refs[..]) == multiset(old(refs[..]))
    {
      Sift(refs, i);
    }
    assert refs[..refs.Length] == refs[..];
  }

  /** HoldRefsEqual. */
  method HoldRefsEqual(a: array<HoldRef>, b: array<HoldRef>) returns (same: bool)
    ensures same <==> a[..] == b[..]
  {
    if a.Length != b.Length { return false; }
    for i := 0 to a.Length
      invariant a[..i] == b[..i]
    {
      if a[i] != b[i] {
        assert a[..][i] != b[..][i];
        return false;
      }
      assert a[..i + 1] == a[..i] + [a[i]] && b[..i + 1] == b[..i] + [b[i]];
    }
    assert a[..a.Length] == a[..] && b[..b.Length] == b[..];
    same := true;
  }

  lemma FirstBelow(a: seq<HoldRef>, x: HoldRef)
    requires InOrder(a) && a != [] && x in a
    ensures !Before(x, a[0])
  {
    BeforeTotal(x, a[0]);
  }

  lemma HeadsAgree(a: seq<HoldRef>, b: seq<HoldRef>)
    requires InOrder(a) && InOrder(b) && a != [] && multiset(a) == multiset(b)
    ensures b != [] && a[0] == b[0]
  {
    assert a[0] in multiset(a);
    assert a[0] in b;
    assert b[0] in multiset(b);
    assert b[0] in a;
    FirstBelow(a, b[0]);
    FirstBelow(b, a[0]);
    BeforeTotal(a[0], b[0]);
  }

  lemma TailsAgree(a: seq<HoldRef>, b: seq<HoldRef>)
    requires a != [] && b != [] && a[0] == b[0] && multiset(a) == multiset(b)
    ensures multiset(a[1..]) == multiset(b[1..])
  {
    assert a == [a[0]] + a[1..] && b == [b[0]] + b[1..];
    assert multiset(a[1..]) == multiset(a) - multiset{a[0]};
    assert multiset(b[1..]) == multiset(b) - multiset{b[0]};
  }

  /** Two ordered lists of the same references are one list: comparing them after
      sorting compares the sets, order and all repetition included. */
  lemma {:induction false} OrderedEqualExactly(a: seq<HoldRef>, b: seq<HoldRef>)
    requires InOrder(a) && InOrder(b)
    ensures a == b <==> multiset(a) == multiset(b)
  {
    if multiset(a) == multiset(b) {
      if a == [] {
        assert |multiset(b)| == 0;
      } else {
        HeadsAgree(a, b);
        TailsAgree(a, b);
        OrderedEqualExactly(a[1..], b[1..]);
        assert a == [a[0]] + a[1..] && b == [b[0]] + b[1..];
      }
    }
  }

  /** A break's compare-and-swap: sort what was read, sort what is held, compare. */
  method SameHolds(read: array<HoldRef>, held: array<HoldRef>) returns (same: bool)
    requires read != held
    modifies read, held
    ensures same <==> multiset(old(read[..])) == multiset(old(held[..]))
  {
    SortHoldRefs(read);
    SortHoldRefs(held);
    same := HoldRefsEqual(read, held);
    OrderedEqualExactly(read[..], held[..]);
  }
}
