/** Selecting from a list without disturbing its order. */
module Filters {

  lemma TakeOfSlice<T>(s: seq<T>, a: nat, b: nat, c: nat)
    requires a <= b <= |s| && c <= b - a
    ensures s[a..b][..c] == s[a..a + c]
  {
  }

  lemma DropOfSlice<T>(s: seq<T>, a: nat, b: nat, c: nat)
    requires a <= b <= |s| && c <= b - a
    ensures s[a..b][c..] == s[a + c..b]
  {
  }

  lemma SlicesJoin<T>(s: seq<T>, a: nat, b: nat, c: nat)
    requires a <= b <= c <= |s|
    ensures s[a..b] + s[b..c] == s[a..c]
  {
  }

  /** The elements that pass, in order. */
  function Filter<T>(s: seq<T>, f: T -> bool): seq<T> {
    if |s| == 0 then []
    else if f(s[|s| - 1]) then Filter(s[..|s| - 1], f) + [s[|s| - 1]]
    else Filter(s[..|s| - 1], f)
  }

  /** at are the places of the elements that pass. */
  ghost predicate Places<T>(s: seq<T>, f: T -> bool, at: seq<nat>) {
    && |at| == |Filter(s, f)|
    && (forall i :: 0 <= i < |at| ==> at[i] < |s| && s[at[i]] == Filter(s, f)[i])
    && (forall i, j :: 0 <= i < j < |at| ==> at[i] < at[j])
    && (forall k :: 0 <= k < |s| ==> (f(s[k]) <==> k in at))
  }

  lemma PlacesTake<T>(s: seq<T>, f: T -> bool, was: seq<nat>)
    requires |s| > 0 && f(s[|s| - 1]) && Places(s[..|s| - 1], f, was)
    ensures Places(s, f, was + [|s| - 1])
  {
    var n := |s| - 1;
    forall k | 0 <= k < |s| ensures f(s[k]) <==> k in was + [n] {
      if k < n { assert s[..n][k] == s[k]; }
    }
  }

  lemma PlacesSkip<T>(s: seq<T>, f: T -> bool, was: seq<nat>)
    requires |s| > 0 && !f(s[|s| - 1]) && Places(s[..|s| - 1], f, was)
    ensures Places(s, f, was)
  {
    var n := |s| - 1;
    forall k | 0 <= k < |s| ensures f(s[k]) <==> k in was {
      if k < n { assert s[..n][k] == s[k]; }
    }
  }

  lemma {:induction false} FilterPlaces<T>(s: seq<T>, f: T -> bool) returns (at: seq<nat>)
    ensures Places(s, f, at)
  {
    if |s| == 0 {
      at := [];
    } else {
      var n := |s| - 1;
      at := FilterPlaces(s[..n], f);
      if f(s[n]) {
        PlacesTake(s, f, at);
        at := at + [n];
      } else {
        PlacesSkip(s, f, at);
      }
    }
  }

  lemma PrefixOfPrefix<T>(s: seq<T>, n: nat, k: nat)
    requires k <= n <= |s|
    ensures s[..n][..k] == s[..k]
  {
  }

  lemma PrefixOfFilter<T>(s: seq<T>, f: T -> bool, i: nat)
    requires |s| > 0 && i <= |Filter(s[..|s| - 1], f)|
    ensures i <= |Filter(s, f)| && Filter(s, f)[..i] == Filter(s[..|s| - 1], f)[..i]
  {
  }

  lemma LastPlace<T>(s: seq<T>, f: T -> bool, at: seq<nat>)
    requires Places(s, f, at) && |s| > 0 && f(s[|s| - 1])
    ensures |at| > 0 && at[|at| - 1] == |s| - 1
  {
    assert |s| - 1 in at;
    var m :| 0 <= m < |at| && at[m] == |s| - 1;
    assert at[m] <= at[|at| - 1];
  }

  lemma FrontPlaces<T>(s: seq<T>, f: T -> bool, at: seq<nat>, fewer: seq<nat>)
    requires Places(s, f, at) && |s| > 0
    requires fewer == if f(s[|s| - 1]) then at[..|at| - 1] else at
    ensures Places(s[..|s| - 1], f, fewer)
    ensures f(s[|s| - 1]) ==> at[|at| - 1] == |s| - 1
  {
    var n := |s| - 1;
    assert f(s[n]) <==> n in at;
    if f(s[n]) {
      LastPlace(s, f, at);
      assert at == fewer + [n];
    }
    forall k | 0 <= k < n ensures f(s[..n][k]) <==> k in fewer {
      assert s[..n][k] == s[k];
    }
  }

  /** What passes before the i-th place is the first i. */
  lemma {:induction false} FilterPrefix<T>(s: seq<T>, f: T -> bool, at: seq<nat>, i: nat)
    requires Places(s, f, at) && i < |at|
    ensures Filter(s[..at[i]], f) == Filter(s, f)[..i]
  {
    var n := |s| - 1;
    var fewer := if f(s[n]) then at[..|at| - 1] else at;
    FrontPlaces(s, f, at, fewer);
    if i == |fewer| {
      assert at[i] == n;
    } else {
      FilterPrefix(s[..n], f, fewer, i);
      PrefixOfPrefix(s, n, at[i]);
      PrefixOfFilter(s, f, i);
    }
  }

  /** What passes and what does not make up the whole. */
  lemma {:induction false} FilterParts<T>(s: seq<T>, f: T -> bool, g: T -> bool)
    requires forall x :: x in s ==> (f(x) <==> !g(x))
    ensures multiset(Filter(s, f)) + multiset(Filter(s, g)) == multiset(s)
    ensures forall x :: x in Filter(s, f) ==> f(x)
  {
    if |s| > 0 {
      var front, last := s[..|s| - 1], s[|s| - 1];
      FilterParts(front, f, g);
      assert s == front + [last];
    }
  }

  lemma {:induction false} FilterAppend<T>(a: seq<T>, b: seq<T>, f: T -> bool)
    ensures Filter(a + b, f) == Filter(a, f) + Filter(b, f)
  {
    if |b| == 0 {
      assert a + b == a;
    } else {
      assert (a + b)[..|a + b| - 1] == a + b[..|b| - 1];
      FilterAppend(a, b[..|b| - 1], f);
    }
  }
}
