/** Digests, the hash function as a parameter, and the lower-case hexadecimal form in
    which digests are written. Nothing is assumed of the hash function here: results that
    need it say for which finite set of inputs it must be free of collisions. */
module Hashing {

  type byte = x: int | 0 <= x < 256

  type Digest = d: seq<byte> | |d| == 32 witness seq(32, _ => 0)

  /** A hash function from byte streams to 32-byte digests. */
  type Hash = seq<int> -> Digest

  /** No two different members of `inputs` have the same digest. */
  ghost predicate CollisionFree(H: Hash, inputs: set<seq<int>>) {
    forall x, y :: x in inputs && y in inputs && H(x) == H(y) ==> x == y
  }

  lemma SameInput(H: Hash, inputs: set<seq<int>>, x: seq<int>, y: seq<int>)
    requires CollisionFree(H, inputs) && x in inputs && y in inputs && H(x) == H(y)
    ensures x == y
  {
  }

  lemma CollisionFreeSubset(H: Hash, part: set<seq<int>>, inputs: set<seq<int>>)
    requires CollisionFree(H, inputs) && part <= inputs
    ensures CollisionFree(H, part)
  {
  }

  /** The bytes of an ASCII text. */
  function Codes(s: string): (b: seq<int>)
    ensures |b| == |s| && forall i :: 0 <= i < |s| ==> b[i] == s[i] as int
  {
    seq(|s|, i requires 0 <= i < |s| => s[i] as int)
  }

  lemma CodesInjective(s: string, t: string)
    requires Codes(s) == Codes(t)
    ensures s == t
  {
    forall i | 0 <= i < |s| ensures s[i] == t[i] {
      assert Codes(s)[i] == Codes(t)[i];
    }
  }

  predicate IsHexChar(c: char) {
    '0' <= c <= '9' || 'a' <= c <= 'f'
  }

  function HexChar(n: nat): (c: char)
    requires n < 16
    ensures IsHexChar(c) && HexValue(c) == n
  {
    if n < 10 then '0' + n as char else 'a' + (n - 10) as char
  }

  function HexValue(c: char): (n: nat)
    requires IsHexChar(c)
    ensures n < 16
  {
    if c <= '9' then c as int - '0' as int else c as int - 'a' as int + 10
  }

  function Hex(bytes: seq<byte>): (s: string)
    ensures |s| == 2 * |bytes| && forall i :: 0 <= i < |s| ==> IsHexChar(s[i])
  {
    if bytes == [] then "" else [HexChar(bytes[0] / 16), HexChar(bytes[0] % 16)] + Hex(bytes[1..])
  }

  function Unhex(s: string): (bytes: seq<byte>)
    requires |s| % 2 == 0 && forall i :: 0 <= i < |s| ==> IsHexChar(s[i])
    ensures |bytes| == |s| / 2
  {
    if s == "" then [] else [16 * HexValue(s[0]) + HexValue(s[1])] + Unhex(s[2..])
  }

  lemma {:induction false} UnhexOfHex(bytes: seq<byte>)
    ensures Unhex(Hex(bytes)) == bytes
  {
    if bytes != [] {
      UnhexOfHex(bytes[1..]);
      assert Hex(bytes)[2..] == Hex(bytes[1..]);
    }
  }

  lemma HexCharOfHexValue(c: char)
    requires IsHexChar(c)
    ensures HexChar(HexValue(c)) == c
  {
  }

  lemma HexOfOne(c: char, d: char)
    requires IsHexChar(c) && IsHexChar(d)
    ensures var b := 16 * HexValue(c) + HexValue(d);
            b < 256 && HexChar(b / 16) == c && HexChar(b % 16) == d
  {
    HexCharOfHexValue(c);
    HexCharOfHexValue(d);
  }

  lemma {:induction false} HexOfUnhex(s: string)
    requires |s| % 2 == 0 && forall i :: 0 <= i < |s| ==> IsHexChar(s[i])
    ensures Hex(Unhex(s)) == s
  {
    if s != "" {
      HexOfUnhex(s[2..]);
      HexOfOne(s[0], s[1]);
      hide HexChar, HexValue;
      assert Unhex(s)[1..] == Unhex(s[2..]);
      assert s == [s[0], s[1]] + s[2..];
    }
  }
}
