/** Bytes, little-endian 32-bit words as the flash structures store them, and text. */
module Bytes {

  type byte = b: int | 0 <= b < 256

  type u32 = n: int | 0 <= n < 0x1_0000_0000

  const U32_MOD := 0x1_0000_0000

  function LeBytes(n: u32): (b: seq<byte>)
    ensures |b| == 4
  {
    [n % 256, n / 256 % 256, n / 65536 % 256, n / 16777216]
  }

  function LeValue(b: seq<byte>): u32
    requires |b| == 4
  {
    (b[0] as int) + 256 * (b[1] as int) + 65536 * (b[2] as int) + 16777216 * (b[3] as int)
  }

  lemma LeRoundTrip(n: u32)
    ensures LeValue(LeBytes(n)) == n
  {
    var q := n / 256;
    assert n / 65536 == q / 256 && n / 16777216 == q / 256 / 256;
  }

  /** The four bytes at a place spell a number, least significant byte first. */
  predicate Spells(b: seq<byte>, at: nat, n: int) {
    at + 4 <= |b| &&
    n == b[at] as int + 256 * (b[at + 1] as int) + 65536 * (b[at + 2] as int) + 16777216 * (b[at + 3] as int)
  }

  lemma WordSpells(b: seq<byte>, at: nat, n: u32)
    requires at + 4 <= |b| && b[at..at + 4] == LeBytes(n)
    ensures Spells(b, at, n)
  {
    LeRoundTrip(n);
    assert b[at..at + 4][0] == b[at] && b[at..at + 4][1] == b[at + 1];
  }

  /** Bitwise AND by binary digits: programming NOR flash only clears bits. */
  function AndBits(a: nat, b: nat): (r: nat)
    ensures r <= a && r <= b
  {
    if a == 0 || b == 0 then 0
    else 2 * AndBits(a / 2, b / 2) + (if a % 2 == 1 && b % 2 == 1 then 1 else 0)
  }

  function Ones(n: nat): nat
  {
    if n == 0 then 0 else 2 * Ones(n - 1) + 1
  }

  function Pow2(n: nat): nat
  {
    if n == 0 then 1 else 2 * Pow2(n - 1)
  }

  lemma {:induction false} AndWithOnes(n: nat, b: nat)
    requires b < Pow2(n)
    ensures AndBits(Ones(n), b) == b
  {
    if n > 0 && b > 0 {
      AndWithOnes(n - 1, b / 2);
    }
  }

  lemma AndErased(b: byte)
    ensures AndBits(0xFF, b) == b
  {
    assert Ones(8) == 0xFF by {
      assert Ones(4) == 15;
      assert Ones(6) == 63;
    }
    assert Pow2(8) == 256 by {
      assert Pow2(4) == 16;
      assert Pow2(6) == 64;
    }
    AndWithOnes(8, b);
  }

  /** The bytes of an ASCII literal. */
  function Text(s: string): (r: seq<byte>)
    ensures |r| == |s|
    ensures forall i :: 0 <= i < |s| ==> r[i] == s[i] as int % 256
  {
    seq(|s|, i requires 0 <= i < |s| => s[i] as int % 256)
  }
}
