/**
  Decimal rendering of integers as done by Go's `strconv.Itoa`, together with
  the inverse parser that the round-trip lemmas are stated against.
 */
module Decimal {
  import opened Wrappers

  predicate IsDigit(c: char) {
    '0' <= c <= '9'
  }

  predicate AllDigits(s: string) {
    forall i :: 0 <= i < |s| ==> IsDigit(s[i])
  }

  /** The character of a single decimal digit. */
  function DigitChar(d: nat): (c: char)
    requires d < 10
    ensures IsDigit(c)
    ensures c as int - '0' as int == d
  {
    ('0' as int + d) as char
  }

  /** The numeric value of a digit character. */
  function DigitValue(c: char): (d: nat)
    requires IsDigit(c)
    ensures d < 10
    ensures DigitChar(d) == c
  {
    c as int - '0' as int
  }

  /** The value of a run of digits, most significant first; the empty run is 0. */
  function DigitsValue(s: string): nat
    requires AllDigits(s)
  {
    if |s| == 0 then 0
    else DigitsValue(s[..|s| - 1]) * 10 + DigitValue(s[|s| - 1])
  }

  /** Decimal text in the shortest form: at least one digit, no leading zero. */
  predicate Canonical(s: string) {
    0 < |s| && AllDigits(s) && (1 < |s| ==> s[0] != '0')
  }

  /** Shortest decimal text of a natural number (no leading zeros). */
  function NatToString(n: nat): (s: string)
    ensures Canonical(s)
    ensures s == "0" <==> n == 0
    decreases n
  {
    if n < 10 then [DigitChar(n)]
    else NatToString(n / 10) + [DigitChar(n % 10)]
  }

  /** `strconv.Itoa`: a leading '-' for negative numbers, then the digits. */
  function Itoa(n: int): (s: string)
    ensures 0 < |s|
    ensures n < 0 <==> s[0] == '-'
    ensures n >= 0 ==> Canonical(s)
    ensures n < 0 ==> 1 < |s| && Canonical(s[1..]) && s[1..] != "0"
    ensures ' ' !in s
  {
    if n < 0 then "-" + NatToString(-n) else NatToString(n)
  }

  /**
    Inverse of `Itoa`: canonical digits, optionally after a '-' that is not
    followed by "0". Leading zeros and "-0" are rejected, since `Itoa` never
    writes them.
   */
  function ParseInt(s: string): Option<int> {
    if 1 < |s| && s[0] == '-' && Canonical(s[1..]) && s[1..] != "0" then Some(-(DigitsValue(s[1..]) as int))
    else if Canonical(s) then Some(DigitsValue(s))
    else None
  }

  lemma {:induction false} NatToStringValue(n: nat)
    ensures DigitsValue(NatToString(n)) == n
    decreases n
  {
    var s := NatToString(n);
    if n < 10 {
      assert s[..|s| - 1] == [];
    } else {
      NatToStringValue(n / 10);
      assert s[..|s| - 1] == NatToString(n / 10);
      assert s[|s| - 1] == DigitChar(n % 10);
    }
  }

  /** Reading back the text `Itoa` writes gives the number again. */
  lemma ItoaRoundTrip(n: int)
    ensures ParseInt(Itoa(n)) == Some(n)
  {
    if n < 0 {
      NatToStringValue(-n);
      assert Itoa(n)[1..] == NatToString(-n);
    } else {
      NatToStringValue(n);
    }
  }

  /** Canonical digits are the shortest text of their value. */
  lemma {:induction false} CanonicalValue(s: string)
    requires Canonical(s)
    ensures NatToString(DigitsValue(s)) == s
    decreases |s|
  {
    var p := s[..|s| - 1];
    if |s| == 1 {
      assert p == [];
    } else {
      assert p[0] == s[0];
      CanonicalValue(p);
      var n := DigitsValue(s);
      assert n / 10 == DigitsValue(p) && n % 10 == DigitValue(s[|s| - 1]);
      assert s == p + [s[|s| - 1]];
    }
  }

  /** Every text `ParseInt` accepts is the text `Itoa` writes for its value. */
  lemma ParseIntItoa(s: string)
    ensures ParseInt(s).Some? ==> Itoa(ParseInt(s).value) == s
  {
    if 1 < |s| && s[0] == '-' && Canonical(s[1..]) && s[1..] != "0" {
      CanonicalValue(s[1..]);
      assert s == "-" + s[1..];
    } else if Canonical(s) {
      CanonicalValue(s);
    }
  }

  /** Distinct numbers render to distinct texts. */
  lemma ItoaInjective(a: int, b: int)
    requires Itoa(a) == Itoa(b)
    ensures a == b
  {
    ItoaRoundTrip(a);
    ItoaRoundTrip(b);
  }
}
