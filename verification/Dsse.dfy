/** The DSSE pre-authentication encoding, the bytes that are signed
    (src/skill_native/attestation_crypto.py, `dsse_pae`; DSSE v1 protocol, "Signature Definition"). */
module Dsse {
  import opened Wrappers
  import opened Decimals
  import opened Hashing

  const SPACE := 32

  function Numeral(n: nat): seq<int> { Codes(Decimal(n)) }

  /** `dsse_pae`: five parts joined by single spaces. */
  function Pae(payloadType: seq<int>, payload: seq<int>): seq<int> {
    Codes("DSSEv1") + [SPACE] + Numeral(|payloadType|) + [SPACE] + payloadType
    + [SPACE] + Numeral(|payload|) + [SPACE] + payload
  }

  function FirstSpace(b: seq<int>): (k: nat)
    ensures k <= |b| && SPACE !in b[..k]
    ensures k < |b| ==> b[k] == SPACE
  {
    if b == [] || b[0] == SPACE then 0
    else
      var k := 1 + FirstSpace(b[1..]);
      assert b[..k] == [b[0]] + b[1..][..k - 1];
      k
  }

  /** The text of bytes that are all ASCII digits; other bytes give a character no numeral has. */
  function DigitText(b: seq<int>): (s: string)
    ensures |s| == |b|
  {
    seq(|b|, i requires 0 <= i < |b| => if 48 <= b[i] <= 57 then b[i] as char else 'x')
  }

  /** A numeral that ends at a space. */
  function ReadNumber(b: seq<int>): Option<(nat, seq<int>)> {
    var k := FirstSpace(b);
    if k < |b| && IsNumeral(DigitText(b[..k])) then Some((NumeralValue(DigitText(b[..k])), b[k + 1..])) else None
  }

  /** A length, a space, and as many bytes. */
  function ReadPart(b: seq<int>): Option<(seq<int>, seq<int>)> {
    match ReadNumber(b)
    case None => None
    case Some((n, rest)) => if n <= |rest| then Some((rest[..n], rest[n..])) else None
  }

  /** The decoder: what was signed is read back from the encoding alone. */
  function DecodePae(b: seq<int>): Option<(seq<int>, seq<int>)> {
    var head := Codes("DSSEv1") + [SPACE];
    if !(head <= b) then None
    else match ReadPart(b[|head|..])
      case None => None
      case Some((payloadType, rest)) =>
        if rest == [] || rest[0] != SPACE then None
        else match ReadPart(rest[1..])
          case None => None
          case Some((payload, end)) => if end == [] then Some((payloadType, payload)) else None
  }

  lemma ReadNumberOfNumeral(n: nat, rest: seq<int>)
    ensures ReadNumber(Numeral(n) + [SPACE] + rest) == Some((n, rest))
  {
    var s, b := Decimal(n), Numeral(n) + [SPACE] + rest;
    var k := FirstSpace(b);
    assert forall i :: 0 <= i < |s| ==> b[i] == s[i] as int && IsDigit(s[i]);
    assert b[|s|] == SPACE;
    assert forall i :: 0 <= i < k ==> b[..k][i] == b[i];
    assert k == |s|;
    assert DigitText(b[..k]) == s;
    NumeralValueOfDecimal(n);
    assert b[k + 1..] == rest;
  }

  lemma NumeralOfReadNumber(b: seq<int>)
    requires ReadNumber(b).Some?
    ensures b == Numeral(ReadNumber(b).value.0) + [SPACE] + ReadNumber(b).value.1
  {
    hide DigitText, IsNumeral, NumeralValue, Decimal, Codes, FirstSpace;
    var k := FirstSpace(b);
    var s := DigitText(b[..k]);
    DecimalOfNumeralValue(s);
    CodesOfDigitText(b[..k]);
    assert b == b[..k] + [b[k]] + b[k + 1..];
  }

  lemma CodesOfDigitText(b: seq<int>)
    requires IsNumeral(DigitText(b))
    ensures Codes(DigitText(b)) == b
  {
    var s := DigitText(b);
    assert forall i :: 0 <= i < |b| ==> IsDigit(s[i]) && s[i] != 'x' && b[i] == s[i] as int;
  }

  function Part(b: seq<int>): seq<int> { Numeral(|b|) + [SPACE] + b }

  lemma ReadPartOfPart(b: seq<int>, rest: seq<int>)
    ensures ReadPart(Part(b) + rest) == Some((b, rest))
  {
    hide ReadNumber, Numeral;
    ReadNumberOfNumeral(|b|, b + rest);
    assert Part(b) + rest == Numeral(|b|) + [SPACE] + (b + rest);
    assert (b + rest)[..|b|] == b && (b + rest)[|b|..] == rest;
  }

  lemma PartOfReadPart(b: seq<int>)
    requires ReadPart(b).Some?
    ensures b == Part(ReadPart(b).value.0) + ReadPart(b).value.1
  {
    hide ReadNumber, Numeral;
    NumeralOfReadNumber(b);
    var (n, rest) := ReadNumber(b).value;
    assert rest == rest[..n] + rest[n..];
    assert b == Numeral(n) + [SPACE] + rest[..n] + rest[n..];
  }

  /** Unique decoding: a byte string decodes to a type and payload exactly when it is their encoding. */
  lemma DecodePaeExact(b: seq<int>, payloadType: seq<int>, payload: seq<int>)
    ensures DecodePae(b) == Some((payloadType, payload)) <==> b == Pae(payloadType, payload)
  {
    hide ReadPart, Numeral, Codes;
    var head := Codes("DSSEv1") + [SPACE];
    if b == Pae(payloadType, payload) {
      var rest := [SPACE] + Part(payload);
      assert b == head + (Part(payloadType) + rest);
      ReadPartOfPart(payloadType, rest);
      ReadPartOfPart(payload, []);
      assert rest[1..] == Part(payload) + [];
      assert b[|head|..] == Part(payloadType) + rest;
    }
    if DecodePae(b) == Some((payloadType, payload)) {
      PartOfReadPart(b[|head|..]);
      var rest := ReadPart(b[|head|..]).value.1;
      PartOfReadPart(rest[1..]);
      assert b == head + b[|head|..];
      assert rest == [SPACE] + rest[1..];
      assert Part(payload) + [] == Part(payload);
      assert b == head + Part(payloadType) + [SPACE] + Part(payload);
    }
  }

  /** Equal encodings are encodings of the same type and the same payload. */
  lemma PaeInjective(t: seq<int>, p: seq<int>, t': seq<int>, p': seq<int>)
    requires Pae(t, p) == Pae(t', p')
    ensures t == t' && p == p'
  {
    DecodePaeExact(Pae(t, p), t, p);
    DecodePaeExact(Pae(t, p), t', p');
  }
}
