/** Decimal integers as Go's strconv writes and reads them, 64 bits wide. */
module Decimals {
  import opened Options

  const MIN_INT64: int := -0x8000_0000_0000_0000
  const MAX_INT64: int := 0x7FFF_FFFF_FFFF_FFFF

  predicate IsDigit(c: char) { '0' <= c <= '9' }

  function DigitValue(c: char): (d: nat)
    requires IsDigit(c)
    ensures d < 10
  {
    (c - '0') as nat
  }

  function DigitChar(d: nat): (c: char)
    requires d < 10
    ensures IsDigit(c) && DigitValue(c) == d
  {
    '0' + d as char
  }

  function FormatNat(n: nat): (s: string)
    ensures |s| > 0 && forall i :: 0 <= i < |s| ==> IsDigit(s[i])
  {
    if n < 10 then [DigitChar(n)] else FormatNat(n / 10) + [DigitChar(n % 10)]
  }

  /** strconv.FormatInt in base 10. */
  function FormatInt(n: int): string {
    if n < 0 then "-" + FormatNat(-n) else FormatNat(n)
  }

  function ParseNat(s: string): Option<nat> {
    if s == "" then None
    else if !IsDigit(s[|s| - 1]) then None
    else if |s| == 1 then Some(DigitValue(s[0]))
    else
      match ParseNat(s[..|s| - 1])
      case None => None
      case Some(n) => Some(n * 10 + DigitValue(s[|s| - 1]))
  }

  /** strconv.ParseInt(s, 10, 64): one optional sign, digits, and a value that fits. */
  function ParseInt(s: string): Option<int> {
    if s == "" then None
    else
      var signed := s[0] == '+' || s[0] == '-';
      match ParseNat(if signed then s[1..] else s)
      case None => None
      case Some(n) =>
        var v: int := if s[0] == '-' then 0 - n else n;
        if MIN_INT64 <= v <= MAX_INT64 then Some(v) else None
  }

  lemma {:induction false} ParseFormatNat(n: nat)
    ensures ParseNat(FormatNat(n)) == Some(n)
  {
    if n >= 10 {
      ParseFormatNat(n / 10);
      var s := FormatNat(n);
      assert s[..|s| - 1] == FormatNat(n / 10);
    }
  }

  lemma ParseUnsigned(s: string)
    requires s != "" && IsDigit(s[0]) && ParseNat(s).Some?
    ensures ParseInt(s) == if ParseNat(s).value <= MAX_INT64 then Some(ParseNat(s).value) else None
  {
  }

  lemma ParseNegative(s: string)
    requires ParseNat(s).Some?
    ensures ParseInt("-" + s) == if MIN_INT64 <= 0 - ParseNat(s).value then Some(0 - ParseNat(s).value) else None
  {
    assert ("-" + s)[1..] == s;
  }

  /** Reading back what was written gives the number, exactly when it fits. */
  lemma ParseFormatInt(n: int)
    ensures ParseInt(FormatInt(n)) == if MIN_INT64 <= n <= MAX_INT64 then Some(n) else None
  {
    if n < 0 {
      ParseFormatNat(-n);
      ParseNegative(FormatNat(-n));
    } else {
      ParseFormatNat(n);
      ParseUnsigned(FormatNat(n));
    }
  }

  lemma FormatClean(n: int)
    ensures FormatInt(n) != "" && forall c :: c in FormatInt(n) ==> IsDigit(c) || c == '-'
  {
  }
}
