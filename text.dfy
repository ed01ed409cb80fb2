/**
 * The string operations behind the composite record key: Python's
 * `str(int)`, `str.replace(" ", "_")` and `str.upper()` (ASCII letters only),
 * the ordering pandas uses to sort string columns, and a parser that reads a
 * timestamp back out of a key.
 */
module Text {
  import opened Wrappers

  // ---------------------------------------------------------------------
  // Decimal printing and parsing (Python's str(int) and int(str))
  // ---------------------------------------------------------------------

  predicate IsDigit(c: char) { '0' <= c <= '9' }

  predicate AllDigits(s: string) { forall i :: 0 <= i < |s| ==> IsDigit(s[i]) }

  function DigitChar(d: nat): (c: char)
    requires d < 10
    ensures IsDigit(c) && c as int - '0' as int == d
  {
    ('0' as int + d) as char
  }

  /** The decimal digits of `n`, most significant first, without leading zeros. */
  function NatToDecimal(n: nat): (s: string)
    decreases n
  {
    if n < 10 then [DigitChar(n)] else NatToDecimal(n / 10) + [DigitChar(n % 10)]
  }

  /** Python's `str(n)` for an int: an optional minus sign, then the digits. */
  function IntToDecimal(n: int): string
  {
    if n < 0 then "-" + NatToDecimal(-n) else NatToDecimal(n)
  }

  /** The value of a string of decimal digits (the empty string reads as 0). */
  function ParseNat(s: string): nat
    requires AllDigits(s)
    decreases |s|
  {
    if s == [] then 0
    else ParseNat(s[..|s| - 1]) * 10 + (s[|s| - 1] as int - '0' as int)
  }

  /** The form `str(n)` prints: an optional '-', then one or more decimal digits. */
  predicate IsIntLiteral(s: string)
  {
    if |s| > 0 && s[0] == '-' then |s| > 1 && AllDigits(s[1..]) else |s| > 0 && AllDigits(s)
  }

  /** Reads back the form `str(n)` prints; `None` on any other string. */
  function ParseInt(s: string): (r: Option<int>)
    ensures r.Some? <==> IsIntLiteral(s)
  {
    if !IsIntLiteral(s) then None
    else if s[0] == '-' then Some(0 - ParseNat(s[1..]) as int)
    else Some(ParseNat(s))
  }

  lemma {:induction false} NatToDecimalDigits(n: nat)
    ensures |NatToDecimal(n)| > 0 && AllDigits(NatToDecimal(n))
    ensures ParseNat(NatToDecimal(n)) == n
    decreases n
  {
    if n >= 10 {
      NatToDecimalDigits(n / 10);
      var s := NatToDecimal(n);
      assert s[..|s| - 1] == NatToDecimal(n / 10);
    }
  }

  /** Printing then parsing an integer gives it back. */
  lemma IntToDecimalRoundTrip(n: int)
    ensures IsIntLiteral(IntToDecimal(n))
    ensures ParseInt(IntToDecimal(n)) == Some(n)
  {
    if n < 0 {
      NatToDecimalDigits(-n);
      assert IntToDecimal(n)[1..] == NatToDecimal(-n);
    } else {
      NatToDecimalDigits(n);
    }
  }

  /** Distinct integers print to distinct strings. */
  lemma IntToDecimalInjective(a: int, b: int)
    requires IntToDecimal(a) == IntToDecimal(b)
    ensures a == b
  {
    IntToDecimalRoundTrip(a);
    IntToDecimalRoundTrip(b);
  }

  /** A printed integer holds only digits and possibly a leading minus sign. */
  lemma IntToDecimalChars(n: int)
    ensures forall i :: 0 <= i < |IntToDecimal(n)| ==> IsDigit(IntToDecimal(n)[i]) || IntToDecimal(n)[i] == '-'
  {
    if n < 0 {
      NatToDecimalDigits(-n);
      assert forall i :: 1 <= i < |IntToDecimal(n)| ==> IntToDecimal(n)[i] == NatToDecimal(-n)[i - 1];
    } else {
      NatToDecimalDigits(n);
    }
  }

  // ---------------------------------------------------------------------
  // Key normalisation: .replace(" ", "_").upper()
  // ---------------------------------------------------------------------

  /** `str.upper()` restricted to ASCII: a..z become A..Z, every other character is kept. */
  function UpperChar(c: char): char
  {
    if 'a' <= c <= 'z' then (c as int - 32) as char else c
  }

  /** One character of `s.replace(" ", "_").upper()`. */
  function KeyChar(c: char): char
  {
    if c == ' ' then '_' else UpperChar(c)
  }

  /** `s.replace(" ", "_").upper()`, character by character. */
  function NormaliseKey(s: string): (r: string)
    ensures |r| == |s|
  {
    seq(|s|, i requires 0 <= i < |s| => KeyChar(s[i]))
  }

  /** Normalisation works character by character, so it distributes over concatenation. */
  lemma NormaliseKeyConcat(a: string, b: string)
    ensures NormaliseKey(a + b) == NormaliseKey(a) + NormaliseKey(b)
  {
    assert forall i :: 0 <= i < |a + b| ==> NormaliseKey(a + b)[i] == (NormaliseKey(a) + NormaliseKey(b))[i];
  }

  /** After normalisation no space and no lower-case ASCII letter remains. */
  lemma NormaliseKeyCharset(s: string)
    ensures forall i :: 0 <= i < |NormaliseKey(s)| ==> NormaliseKey(s)[i] != ' ' && !('a' <= NormaliseKey(s)[i] <= 'z')
  {
  }

  /** Normalising twice is the same as normalising once. */
  lemma NormaliseKeyIdempotent(s: string)
    ensures NormaliseKey(NormaliseKey(s)) == NormaliseKey(s)
  {
    assert forall i :: 0 <= i < |s| ==> NormaliseKey(NormaliseKey(s))[i] == NormaliseKey(s)[i];
  }

  /** Printed integers are left alone by normalisation. */
  lemma NormaliseKeyDecimal(n: int)
    ensures NormaliseKey(IntToDecimal(n)) == IntToDecimal(n)
  {
    IntToDecimalChars(n);
    var d := IntToDecimal(n);
    assert forall i :: 0 <= i < |d| ==> NormaliseKey(d)[i] == d[i];
  }

  // ---------------------------------------------------------------------
  // The last '_'-separated field of a key
  // ---------------------------------------------------------------------

  /** What follows the last '_' of `s` (all of `s` when it has none). */
  function AfterLastUnderscore(s: string): (r: string)
    ensures |r| <= |s|
    decreases |s|
  {
    if s == [] then []
    else if s[|s| - 1] == '_' then []
    else AfterLastUnderscore(s[..|s| - 1]) + [s[|s| - 1]]
  }

  lemma {:induction false} AfterLastUnderscoreSuffix(p: string, d: string)
    requires forall i :: 0 <= i < |d| ==> d[i] != '_'
    ensures AfterLastUnderscore(p + "_" + d) == d
    decreases |d|
  {
    var s := p + "_" + d;
    if d != [] {
      assert s[..|s| - 1] == p + "_" + d[..|d| - 1];
      AfterLastUnderscoreSuffix(p, d[..|d| - 1]);
      assert d == d[..|d| - 1] + [d[|d| - 1]];
    } else {
      assert s[|s| - 1] == '_';
    }
  }

  // ---------------------------------------------------------------------
  // String order (Python compares str by code point, lexicographically)
  // ---------------------------------------------------------------------

  /** `a < b` on Python strings. */
  predicate StrLess(a: string, b: string)
    decreases |a|
  {
    if |a| == 0 then |b| > 0
    else if |b| == 0 then false
    else if a[0] != b[0] then a[0] < b[0]
    else StrLess(a[1..], b[1..])
  }

  /** `a <= b` on Python strings. */
  predicate StrLessEq(a: string, b: string)
  {
    a == b || StrLess(a, b)
  }

  lemma {:induction false} StrLessIrreflexive(a: string)
    ensures !StrLess(a, a)
    decreases |a|
  {
    if |a| > 0 { StrLessIrreflexive(a[1..]); }
  }

  lemma {:induction false} StrLessAsymmetric(a: string, b: string)
    requires StrLess(a, b)
    ensures !StrLess(b, a)
    decreases |a|
  {
    if |a| > 0 && |b| > 0 && a[0] == b[0] { StrLessAsymmetric(a[1..], b[1..]); }
  }

  lemma {:induction false} StrLessTransitive(a: string, b: string, c: string)
    requires StrLess(a, b) && StrLess(b, c)
    ensures StrLess(a, c)
    decreases |a|
  {
    if |a| > 0 && |b| > 0 && |c| > 0 && a[0] == b[0] && b[0] == c[0] {
      StrLessTransitive(a[1..], b[1..], c[1..]);
    }
  }

  lemma {:induction false} StrLessTotal(a: string, b: string)
    requires a != b
    ensures StrLess(a, b) || StrLess(b, a)
    decreases |a|
  {
    if |a| > 0 && |b| > 0 && a[0] == b[0] {
      assert a == [a[0]] + a[1..] && b == [b[0]] + b[1..];
      StrLessTotal(a[1..], b[1..]);
    }
  }

  lemma StrLessEqTransitive(a: string, b: string, c: string)
    requires StrLessEq(a, b) && StrLessEq(b, c)
    ensures StrLessEq(a, c)
  {
    if a != b && b != c { StrLessTransitive(a, b, c); }
  }

  lemma StrLessEqAntisymmetric(a: string, b: string)
    requires StrLessEq(a, b) && StrLessEq(b, a)
    ensures a == b
  {
    if a != b { StrLessAsymmetric(a, b); }
  }

  lemma StrLessEqTotal(a: string, b: string)
    ensures StrLessEq(a, b) || StrLessEq(b, a)
  {
    if a != b { StrLessTotal(a, b); }
  }
}
