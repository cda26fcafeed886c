/** Byte-wise string order and sorted lists of strings. */
module Ordering {

  /** Go's < on strings. */
  predicate Less(a: string, b: string) {
    if |b| == 0 then false
    else if |a| == 0 then true
    else if a[0] != b[0] then a[0] < b[0]
    else Less(a[1..], b[1..])
  }

  lemma {:induction false} Trichotomy(a: string, b: string)
    ensures Less(a, b) || a == b || Less(b, a)
    ensures Less(a, b) ==> a != b && !Less(b, a)
  {
    if |a| > 0 && |b| > 0 && a[0] == b[0] {
      Trichotomy(a[1..], b[1..]);
      assert [a[0]] + a[1..] == a && [b[0]] + b[1..] == b;
    }
  }

  lemma {:induction false} Transitive(a: string, b: string, c: string)
    requires Less(a, b) && Less(b, c)
    ensures Less(a, c)
  {
    if |a| > 0 && a[0] == b[0] && b[0] == c[0] {
      Transitive(a[1..], b[1..], c[1..]);
    }
  }

  /** Non-decreasing; equal neighbours allowed. */
  ghost predicate Sorted(s: seq<string>) {
    forall i, j :: 0 <= i < j < |s| ==> !Less(s[j], s[i])
  }

  /** Strictly increasing, hence without repetition. */
  predicate Increasing(s: seq<string>) {
    forall i, j :: 0 <= i < j < |s| ==> Less(s[i], s[j])
  }

  /** x is in s and below everything else in it. */
  predicate Least(x: string, s: set<string>) {
    x in s && forall y | y in s :: y != x ==> Less(x, y)
  }

  lemma {:induction false} LeastExists(s: set<string>) returns (x: string)
    requires s != {}
    ensures Least(x, s)
  {
    var a :| a in s;
    if s == {a} {
      x := a;
    } else {
      var b := LeastExists(s - {a});
      Trichotomy(a, b);
      x := if Less(a, b) then a else b;
      forall y | y in s && y != x ensures Less(x, y) {
        if y != a && y != b && x == a { Transitive(a, b, y); }
      }
    }
  }

  lemma LeastUnique(s: set<string>)
    ensures forall x, y :: Least(x, s) && Least(y, s) ==> x == y
  {
    forall x, y | Least(x, s) && Least(y, s) ensures x == y {
      Trichotomy(x, y);
    }
  }

  /** The members of a set in increasing order: a map's keys, collected and sorted. */
  function Listing(s: set<string>): (keys: seq<string>)
    ensures forall k :: k in keys <==> k in s
    ensures Increasing(keys)
  {
    if s == {} then []
    else
      assert exists x :: Least(x, s) by { var x := LeastExists(s); }
      LeastUnique(s);
      var x :| Least(x, s);
      var rest := Listing(s - {x});
      assert forall i :: 0 <= i < |rest| ==> rest[i] in rest;
      [x] + rest
  }

  lemma NotLessTransitive(a: string, b: string, c: string)
    requires !Less(b, a) && !Less(c, b)
    ensures !Less(c, a)
  {
    Trichotomy(a, b);
    Trichotomy(b, c);
    if a != b && b != c {
      Transitive(a, b, c);
    }
    Trichotomy(a, c);
  }

  lemma SortedPrepend(x: string, s: seq<string>)
    requires Sorted(s) && (s == [] || !Less(s[0], x))
    ensures Sorted([x] + s)
  {
    forall j | 0 <= j < |s| ensures !Less(s[j], x) {
      if j > 0 {
        NotLessTransitive(x, s[0], s[j]);
      }
    }
  }

  function Insert(x: string, s: seq<string>): (r: seq<string>)
    requires Sorted(s)
    ensures Sorted(r) && multiset(r) == multiset(s) + multiset{x}
    ensures |r| > 0 && (r[0] == x || (|s| > 0 && r[0] == s[0]))
  {
    if s == [] then [x]
    else if Less(s[0], x) then
      var rest := Insert(x, s[1..]);
      assert s == [s[0]] + s[1..];
      Trichotomy(s[0], x);
      assert !Less(rest[0], s[0]);
      SortedPrepend(s[0], rest);
      [s[0]] + rest
    else
      SortedPrepend(x, s);
      [x] + s
  }

  /** slices.Sort. */
  function Sort(s: seq<string>): (r: seq<string>)
    ensures Sorted(r) && multiset(r) == multiset(s)
  {
    if s == [] then []
    else
      assert s == [s[0]] + s[1..];
      Insert(s[0], Sort(s[1..]))
  }

  lemma SortMembers(s: seq<string>)
    ensures forall x :: x in Sort(s) <==> x in s
    ensures |Sort(s)| == |s|
  {
    assert forall x :: x in Sort(s) <==> x in multiset(Sort(s));
    assert forall x :: x in s <==> x in multiset(s);
    assert |multiset(Sort(s))| == |multiset(s)|;
  }
}
