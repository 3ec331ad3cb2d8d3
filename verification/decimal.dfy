/** Decimal text of whole numbers: what JavaScript's `Number.prototype.toString`
    produces for an integer, and a reader that takes such text back. */
module Decimal {
  import opened Wrappers

  predicate IsDigit(c: char) {
    '0' <= c <= '9'
  }

  predicate AllDigits(s: string) {
    forall i :: 0 <= i < |s| ==> IsDigit(s[i])
  }

  function DigitChar(d: nat): (c: char)
    requires d < 10
    ensures IsDigit(c) && DigitValue(c) == d
  {
    "0123456789"[d]
  }

  function DigitValue(c: char): (d: nat)
    requires IsDigit(c)
    ensures d < 10
  {
    c as int - '0' as int
  }

  /** Decimal text without sign or leading zeros. */
  predicate IsCanonical(s: string) {
    |s| >= 1 && AllDigits(s) && (|s| > 1 ==> s[0] != '0')
  }

  /** The text `n.toString()` gives for a non-negative integer `n`. */
  function NatToString(n: nat): (s: string)
    ensures |s| >= 1 && IsDigit(s[0])
    ensures n < 10 <==> |s| == 1
  {
    if n < 10 then [DigitChar(n)] else NatToString(n / 10) + [DigitChar(n % 10)]
  }

  /** The text of a number is canonical: digits only, and no leading zero. */
  lemma {:induction false} NatToStringCanonical(n: nat)
    ensures IsCanonical(NatToString(n))
  {
    if n >= 10 {
      NatToStringCanonical(n / 10);
      DigitsValueOfNonZeroLead(NatToString(n / 10));
    }
  }

  /** The text `i.toString()` gives for any integer `i`: a minus sign before
      the digits of a negative number. */
  function IntToString(i: int): (s: string)
    ensures |s| >= 1
    ensures i < 0 <==> s[0] == '-'
  {
    if i < 0 then "-" + NatToString(-i) else NatToString(i)
  }

  /** After the sign, the text of an integer reads back as its magnitude. */
  lemma {:induction false} IntToStringReadsBack(i: int)
    ensures i < 0 ==> ParseNat(IntToString(i)[1..]) == Some(-i)
    ensures i >= 0 ==> ParseNat(IntToString(i)) == Some(i)
  {
    if i < 0 {
      NatToStringRoundTrip(-i);
      assert IntToString(i)[1..] == NatToString(-i);
    } else {
      NatToStringRoundTrip(i);
    }
  }

  /** The value of a string of digits, most significant first. */
  function DigitsValue(s: string): nat
    requires AllDigits(s)
  {
    if s == [] then 0 else DigitsValue(s[..|s| - 1]) * 10 + DigitValue(s[|s| - 1])
  }

  /** Reads a non-empty run of decimal digits. */
  function ParseNat(s: string): (r: Option<nat>)
    ensures r.Some? <==> |s| >= 1 && AllDigits(s)
  {
    if |s| >= 1 && AllDigits(s) then Some(DigitsValue(s)) else None
  }

  /** Reading back the text of `n` gives `n`. */
  lemma {:induction false} NatToStringRoundTrip(n: nat)
    ensures ParseNat(NatToString(n)) == Some(n)
    ensures DigitsValue(NatToString(n)) == n
  {
    var s := NatToString(n);
    NatToStringCanonical(n);
    if n >= 10 {
      NatToStringRoundTrip(n / 10);
      assert s[..|s| - 1] == NatToString(n / 10);
    } else {
      assert s[..|s| - 1] == [];
      assert DigitsValue(s) == DigitValue(s[0]);
    }
  }

  /** Canonical digit text is the text of its own value, so the two
      functions are mutually inverse on canonical text. */
  lemma {:induction false} CanonicalRoundTrip(s: string)
    requires IsCanonical(s)
    ensures NatToString(DigitsValue(s)) == s
  {
    if |s| > 1 {
      var p, c := s[..|s| - 1], s[|s| - 1];
      var q, d := DigitsValue(p), DigitValue(c);
      DropLastDigit(s);
      calc {
        NatToString(DigitsValue(s));
        NatToString(q * 10 + d);
        { DigitsValueOfNonZeroLead(p); AppendDigit(q, d); }
        NatToString(q) + [DigitChar(d)];
        { CanonicalRoundTrip(p); DigitCharOfValue(c); }
        p + [c];
      }
    } else {
      DigitCharOfValue(s[0]);
    }
  }

  /** Canonical text of two or more digits is canonical text followed by
      one more digit, and its value is ten times the former's plus that
      digit's. */
  lemma {:induction false} DropLastDigit(s: string)
    requires IsCanonical(s) && |s| > 1
    ensures var p := s[..|s| - 1];
      IsCanonical(p) && s == p + [s[|s| - 1]] &&
      DigitsValue(s) == DigitsValue(p) * 10 + DigitValue(s[|s| - 1])
  {
    var p := s[..|s| - 1];
    assert p[0] == s[0];
    assert forall i :: 0 <= i < |p| ==> p[i] == s[i];
  }

  /** Writing `q * 10 + d`, for `q >= 1` and a digit `d`, is writing `q`
      and then the digit. */
  lemma {:induction false} AppendDigit(q: nat, d: nat)
    requires q >= 1 && d < 10
    ensures NatToString(q * 10 + d) == NatToString(q) + [DigitChar(d)]
  {
    assert q * 10 + d >= 10 && (q * 10 + d) / 10 == q && (q * 10 + d) % 10 == d;
  }

  lemma DigitCharOfValue(c: char)
    requires IsDigit(c)
    ensures DigitChar(DigitValue(c)) == c
  {
  }

  /** Digit text that does not start with `0` stands for at least 1; with two
      or more digits, for at least 10. */
  lemma {:induction false} DigitsValueOfNonZeroLead(s: string)
    requires |s| >= 1 && AllDigits(s) && s[0] != '0'
    ensures DigitsValue(s) >= 1
    ensures |s| >= 2 ==> DigitsValue(s) >= 10
  {
    if |s| > 1 {
      var p := s[..|s| - 1];
      assert p[0] == s[0];
      DigitsValueOfNonZeroLead(p);
    }
  }
}
