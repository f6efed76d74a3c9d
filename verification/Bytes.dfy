/** Bytes, fixed-width integers and their little-endian encodings. */
module Bytes {

  type byte = x: nat | x < 256
  type bytes = seq<byte>

  const TWO_TO_THE_63 := 0x8000_0000_0000_0000
  const TWO_TO_THE_64 := 0x1_0000_0000_0000_0000

  type u64 = x: nat | x < TWO_TO_THE_64
  type i64 = x: int | -TWO_TO_THE_63 <= x < TWO_TO_THE_63

  function Pow256(n: nat): (p: nat)
    ensures p > 0
  {
    if n == 0 then 1 else 256 * Pow256(n - 1)
  }

  /** The n low bytes of v, least significant first. */
  function LE(n: nat, v: nat): (s: bytes)
    ensures |s| == n
  {
    if n == 0 then [] else [v % 256] + LE(n - 1, v / 256)
  }

  function UnLE(s: bytes): (v: nat)
    ensures v < Pow256(|s|)
  {
    if s == [] then 0 else s[0] + 256 * UnLE(s[1..])
  }

  lemma {:induction false} UnLEOfLE(n: nat, v: nat)
    requires v < Pow256(n)
    ensures UnLE(LE(n, v)) == v
  {
    if n > 0 {
      UnLEOfLE(n - 1, v / 256);
      assert LE(n, v)[1..] == LE(n - 1, v / 256);
    }
  }

  lemma {:induction false} LEOfUnLE(s: bytes)
    ensures LE(|s|, UnLE(s)) == s
  {
    if s != [] {
      LEOfUnLE(s[1..]);
      var v := UnLE(s);
      assert v % 256 == s[0] && v / 256 == UnLE(s[1..]);
    }
  }

  lemma Widths()
    ensures Pow256(2) == 0x1_0000
    ensures Pow256(4) == 0x1_0000_0000
    ensures Pow256(8) == TWO_TO_THE_64
  {
    assert Pow256(1) == 256;
    assert Pow256(3) == 256 * Pow256(2);
    assert Pow256(5) == 256 * Pow256(4);
    assert Pow256(6) == 256 * Pow256(5);
    assert Pow256(7) == 256 * Pow256(6);
  }

  /** Two's complement: a signed value as the 64 bits that carry it, and back. */
  function Unsigned(v: i64): u64 {
    if v < 0 then v + TWO_TO_THE_64 else v
  }

  function Signed(v: u64): i64 {
    if v >= TWO_TO_THE_63 then v - TWO_TO_THE_64 else v
  }
}
