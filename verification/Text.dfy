/** Strings the way the gate reads them: split on one character, joined back,
    trimmed, and compared byte by byte. */
module Text {
  import opened Options

  /** Every maximal run of characters between two separators, in order. A string
      without a separator is one part, so the empty string has one empty part. */
  function Split(s: string, sep: char): (parts: seq<string>)
    ensures |parts| >= 1
  {
    if |s| == 0 then [""]
    else
      var rest := Split(s[1..], sep);
      if s[0] == sep then [""] + rest
      else [[s[0]] + rest[0]] + rest[1..]
  }

  function Join(parts: seq<string>, sep: char): string {
    if |parts| == 0 then ""
    else if |parts| == 1 then parts[0]
    else parts[0] + [sep] + Join(parts[1..], sep)
  }

  lemma JoinHead(c: char, parts: seq<string>, sep: char)
    requires |parts| >= 1
    ensures Join([[c] + parts[0]] + parts[1..], sep) == [c] + Join(parts, sep)
  {
    var more := [[c] + parts[0]] + parts[1..];
    assert more[0] == [c] + parts[0] && more[1..] == parts[1..];
    if |parts| > 1 {
      assert ([c] + parts[0]) + [sep] + Join(parts[1..], sep) == [c] + (parts[0] + [sep] + Join(parts[1..], sep));
    }
  }

  lemma {:induction false} JoinSplit(s: string, sep: char)
    ensures Join(Split(s, sep), sep) == s
  {
    if |s| > 0 {
      JoinSplit(s[1..], sep);
      var rest := Split(s[1..], sep);
      assert s == [s[0]] + s[1..];
      if s[0] == sep {
        assert ([""] + rest)[1..] == rest;
        assert "" + [sep] + s[1..] == s;
      } else {
        JoinHead(s[0], rest, sep);
      }
    }
  }

  lemma {:induction false} SplitPartsClean(s: string, sep: char)
    ensures forall i :: 0 <= i < |Split(s, sep)| ==> sep !in Split(s, sep)[i]
  {
    if |s| > 0 {
      SplitPartsClean(s[1..], sep);
    }
  }

  lemma HeadOff(a: string, b: string, sep: char)
    requires |a| > 0
    ensures (a + [sep] + b)[1..] == a[1..] + [sep] + b && (a + [sep] + b)[0] == a[0]
  {
  }

  lemma SepFirst(ra: seq<string>, rb: seq<string>)
    ensures [""] + (ra + rb) == ([""] + ra) + rb
  {
  }

  lemma CharFirst(c: char, ra: seq<string>, rb: seq<string>)
    requires |ra| >= 1
    ensures [[c] + (ra + rb)[0]] + (ra + rb)[1..] == ([[c] + ra[0]] + ra[1..]) + rb
  {
    assert (ra + rb)[0] == ra[0];
    assert (ra + rb)[1..] == ra[1..] + rb;
  }

  /** A separator between two strings splits them apart whatever they contain. */
  lemma {:induction false} SplitConcat(a: string, b: string, sep: char)
    ensures Split(a + [sep] + b, sep) == Split(a, sep) + Split(b, sep)
  {
    var whole := a + [sep] + b;
    if |a| == 0 {
      assert whole == [sep] + b && whole[1..] == b;
    } else {
      SplitConcat(a[1..], b, sep);
      HeadOff(a, b, sep);
      if a[0] == sep {
        SepFirst(Split(a[1..], sep), Split(b, sep));
      } else {
        CharFirst(a[0], Split(a[1..], sep), Split(b, sep));
      }
    }
  }

  lemma {:induction false} SplitWhole(s: string, sep: char)
    requires sep !in s
    ensures Split(s, sep) == [s]
  {
    if |s| > 0 {
      SplitWhole(s[1..], sep);
      assert [s[0]] + s[1..] == s;
    }
  }

  lemma {:induction false} SplitJoin(parts: seq<string>, sep: char)
    requires |parts| >= 1
    requires forall i :: 0 <= i < |parts| ==> sep !in parts[i]
    ensures Split(Join(parts, sep), sep) == parts
  {
    if |parts| == 1 {
      SplitWhole(parts[0], sep);
    } else {
      SplitJoin(parts[1..], sep);
      SplitConcat(parts[0], Join(parts[1..], sep), sep);
      SplitWhole(parts[0], sep);
      assert [parts[0]] + parts[1..] == parts;
    }
  }

  lemma {:induction false} JoinAppend(a: seq<string>, b: seq<string>, sep: char)
    requires |a| >= 1 && |b| >= 1
    ensures Join(a + b, sep) == Join(a, sep) + [sep] + Join(b, sep)
  {
    if |a| == 1 {
      assert (a + b)[1..] == b;
    } else {
      assert (a + b)[1..] == a[1..] + b;
      JoinAppend(a[1..], b, sep);
      assert a[0] + [sep] + (Join(a[1..], sep) + [sep] + Join(b, sep))
          == (a[0] + [sep] + Join(a[1..], sep)) + [sep] + Join(b, sep);
    }
  }

  /** The characters Go's strings.TrimSpace strips: the white space of Unicode. */
  predicate IsSpace(c: char) {
    || c == '\t' || c == '\n' || c == '\U{0B}' || c == '\U{0C}' || c == '\r' || c == ' '
    || c == '\U{85}' || c == '\U{A0}' || c == '\U{1680}' || '\U{2000}' <= c <= '\U{200A}'
    || c == '\U{2028}' || c == '\U{2029}' || c == '\U{202F}' || c == '\U{205F}' || c == '\U{3000}'
  }

  function TrimLeft(s: string): string {
    if |s| > 0 && IsSpace(s[0]) then TrimLeft(s[1..]) else s
  }

  function TrimRight(s: string): string {
    if |s| > 0 && IsSpace(s[|s| - 1]) then TrimRight(s[..|s| - 1]) else s
  }

  function TrimSpace(s: string): string {
    TrimRight(TrimLeft(s))
  }

  /** No white space at either end. */
  predicate Trimmed(s: string) {
    |s| > 0 ==> !IsSpace(s[0]) && !IsSpace(s[|s| - 1])
  }

  lemma {:induction false} TrimLeftFacts(s: string)
    ensures |TrimLeft(s)| <= |s| && TrimLeft(s) == s[|s| - |TrimLeft(s)|..]
    ensures |TrimLeft(s)| > 0 ==> !IsSpace(TrimLeft(s)[0])
  {
    if |s| > 0 && IsSpace(s[0]) {
      TrimLeftFacts(s[1..]);
    }
  }

  lemma {:induction false} TrimRightFacts(s: string)
    ensures |TrimRight(s)| <= |s| && TrimRight(s) == s[..|TrimRight(s)|]
    ensures |TrimRight(s)| > 0 ==> !IsSpace(TrimRight(s)[|TrimRight(s)| - 1])
  {
    if |s| > 0 && IsSpace(s[|s| - 1]) {
      TrimRightFacts(s[..|s| - 1]);
    }
  }

  /** Trimming always leaves a trimmed string, and leaves exactly those alone. */
  lemma TrimSpaceFacts(s: string)
    ensures Trimmed(TrimSpace(s))
    ensures TrimSpace(s) == s <==> Trimmed(s)
    ensures forall c :: c in TrimSpace(s) ==> c in s
  {
    TrimLeftFacts(s);
    TrimRightFacts(TrimLeft(s));
  }

  /** sep occurs in s at offset k. */
  predicate OccursAt(s: string, sep: string, k: int) {
    0 <= k && k + |sep| <= |s| && s[k..k + |sep|] == sep
  }

  /** The offset of the first occurrence of sep, or |s| when there is none. */
  function IndexOf(s: string, sep: string): (k: nat)
    requires |sep| > 0
    ensures k == |s| || k + |sep| <= |s|
  {
    if |s| < |sep| then |s|
    else if s[..|sep|] == sep then 0
    else IndexOf(s[1..], sep) + 1
  }

  lemma OccursLater(s: string, sep: string, j: nat)
    requires 1 <= j && j + |sep| <= |s|
    ensures OccursAt(s, sep, j) <==> OccursAt(s[1..], sep, j - 1)
  {
    assert s[j..j + |sep|] == s[1..][j - 1..j - 1 + |sep|];
  }

  lemma {:induction false} FirstOccurrence(s: string, sep: string)
    requires |sep| > 0
    ensures IndexOf(s, sep) < |s| ==> OccursAt(s, sep, IndexOf(s, sep))
    ensures forall j :: 0 <= j < IndexOf(s, sep) ==> !OccursAt(s, sep, j)
  {
    if |s| >= |sep| && s[..|sep|] != sep {
      FirstOccurrence(s[1..], sep);
      var k := IndexOf(s[1..], sep);
      if k < |s[1..]| { OccursLater(s, sep, k + 1); }
      forall j | 0 <= j < k + 1 ensures !OccursAt(s, sep, j) {
        if j > 0 && j + |sep| <= |s| { OccursLater(s, sep, j); }
      }
    }
  }

  /** Everything before the first sep and everything after it. */
  function Cut(s: string, sep: string): Option<(string, string)>
    requires |sep| > 0
  {
    var k := IndexOf(s, sep);
    if k < |s| then Some((s[..k], s[k + |sep|..])) else None
  }

  lemma CutWhole(s: string, sep: string)
    requires |sep| > 0 && Cut(s, sep).Some?
    ensures Cut(s, sep).value.0 + sep + Cut(s, sep).value.1 == s
  {
    FirstOccurrence(s, sep);
    var k := IndexOf(s, sep);
    assert s == s[..k] + s[k..k + |sep|] + s[k + |sep|..];
  }

  /** A head that does not hold the separator's first character is cut off whole. */
  lemma CutHead(head: string, sep: string, tail: string)
    requires |sep| > 0 && sep[0] !in head
    ensures Cut(head + sep + tail, sep) == Some((head, tail))
  {
    var s := head + sep + tail;
    FirstOccurrence(s, sep);
    assert s[|head|..|head| + |sep|] == sep;
    assert OccursAt(s, sep, |head|);
    forall j | 0 <= j < |head| ensures !OccursAt(s, sep, j) {
      if j + |sep| <= |s| {
        assert s[j..j + |sep|][0] == head[j];
      }
    }
    assert IndexOf(s, sep) == |head|;
    assert s[..|head|] == head && s[|head| + |sep|..] == tail;
  }

  predicate EndsWith(s: string, tail: string) {
    |tail| <= |s| && s[|s| - |tail|..] == tail
  }
}
