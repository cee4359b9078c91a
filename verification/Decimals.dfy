/** Decimal numerals as Python's `str(int)` writes them for a non-negative integer,
    and the reader that accepts exactly those numerals. */
module Decimals {
  import opened Wrappers

  predicate IsDigit(c: char) {
    '0' <= c <= '9'
  }

  predicate AllDigits(s: string) {
    forall i :: 0 <= i < |s| ==> IsDigit(s[i])
  }

  /** A numeral without a superfluous leading zero. */
  predicate IsNumeral(s: string) {
    |s| > 0 && AllDigits(s) && (|s| == 1 || s[0] != '0')
  }

  function DigitChar(d: nat): (c: char)
    requires d < 10
    ensures IsDigit(c) && c as int - '0' as int == d
  {
    '0' + d as char
  }

  function Decimal(n: nat): (s: string)
    ensures IsNumeral(s) && (n > 0 ==> s[0] != '0')
  {
    if n < 10 then [DigitChar(n)] else Decimal(n / 10) + [DigitChar(n % 10)]
  }

  function NumeralValue(s: string): nat
    requires AllDigits(s)
  {
    if s == "" then 0 else 10 * NumeralValue(s[..|s| - 1]) + (s[|s| - 1] as int - '0' as int)
  }

  lemma {:induction false} NumeralValueOfDecimal(n: nat)
    ensures NumeralValue(Decimal(n)) == n
  {
    var s := Decimal(n);
    if n >= 10 {
      NumeralValueOfDecimal(n / 10);
      assert s[..|s| - 1] == Decimal(n / 10);
    }
  }

  lemma {:induction false} DecimalOfNumeralValue(s: string)
    requires IsNumeral(s)
    ensures Decimal(NumeralValue(s)) == s
    ensures s[0] != '0' ==> NumeralValue(s) > 0
  {
    if |s| == 1 {
      assert s[..0] == "";
    } else {
      var front := s[..|s| - 1];
      DecimalOfNumeralValue(front);
      assert NumeralValue(s) / 10 == NumeralValue(front);
      assert s == front + [s[|s| - 1]];
    }
  }

  /** Length of the longest run of digits at the start of a text. */
  function DigitRun(s: string): (k: nat)
    ensures k <= |s| && AllDigits(s[..k])
    ensures k < |s| ==> !IsDigit(s[k])
  {
    if s == "" || !IsDigit(s[0]) then 0
    else
      var k := 1 + DigitRun(s[1..]);
      assert forall i :: 0 < i < k ==> s[i] == s[1..][i - 1];
      k
  }

  lemma DigitRunOf(numeral: string, rest: string)
    requires AllDigits(numeral) && (rest == "" || !IsDigit(rest[0]))
    ensures DigitRun(numeral + rest) == |numeral|
  {
    var s := numeral + rest;
    assert forall i :: 0 <= i < |numeral| ==> s[i] == numeral[i];
    assert rest != "" ==> s[|numeral|] == rest[0];
    assert forall i :: 0 <= i < DigitRun(s) ==> s[..DigitRun(s)][i] == s[i];
  }

  /** Reads a numeral from the front of a text. */
  function ReadDecimal(s: string): Option<(nat, string)> {
    var k := DigitRun(s);
    if IsNumeral(s[..k]) then Some((NumeralValue(s[..k]), s[k..])) else None
  }

  /** Reading undoes writing, provided the text that follows does not go on with a digit. */
  lemma ReadDecimalOfDecimal(n: nat, rest: string)
    requires rest == "" || !IsDigit(rest[0])
    ensures ReadDecimal(Decimal(n) + rest) == Some((n, rest))
  {
    var numeral := Decimal(n);
    DigitRunOf(numeral, rest);
    assert (numeral + rest)[..|numeral|] == numeral;
    assert (numeral + rest)[|numeral|..] == rest;
    NumeralValueOfDecimal(n);
  }

  /** Only text written by `Decimal` is read. */
  lemma DecimalOfReadDecimal(s: string)
    requires ReadDecimal(s).Some?
    ensures s == Decimal(ReadDecimal(s).value.0) + ReadDecimal(s).value.1
  {
    DecimalOfNumeralValue(s[..DigitRun(s)]);
  }
}
