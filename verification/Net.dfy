/** The part of net/netip the live list relies on: addresses, prefixes and masking. */
module Net {
  import opened Bytes

  /** NoAddr is netip's zero Addr. */
  datatype AddrRep = NoAddr | V4(b: bytes) | V6(b: bytes) {
    predicate Valid() {
      (V4? && |b| == 4) || (V6? && |b| == 16)
    }

    function BitLen(): nat {
      match this
      case NoAddr => 0
      case V4(_) => 32
      case V6(_) => 128
    }
  }

  type Addr = a: AddrRep | a.NoAddr? || a.Valid() witness NoAddr

  /** bits is -1 for a prefix whose length does not fit its address. */
  datatype PrefixRep = Prefix(addr: Addr, bits: int) {
    predicate Valid() {
      addr.Valid() && 0 <= bits <= addr.BitLen()
    }
  }

  type Prefix = p: PrefixRep | p.bits == -1 || p.Valid() witness Prefix(NoAddr, -1)

  const NO_PREFIX: Prefix := Prefix(NoAddr, -1)

  function PrefixFrom(a: Addr, bits: int): Prefix {
    if a != NoAddr && 0 <= bits <= a.BitLen() then Prefix(a, bits) else Prefix(a, -1)
  }

  function Power2(n: nat): nat {
    if n == 0 then 1 else 2 * Power2(n - 1)
  }

  /** Bit i of x, the least significant first. */
  predicate LowBit(x: nat, i: nat) {
    if i == 0 then x % 2 == 1 else LowBit(x / 2, i - 1)
  }

  /** x with its n low bits cleared. */
  function Clear(x: nat, n: nat): (y: nat)
    ensures y <= x
  {
    if n == 0 then x else 2 * Clear(x / 2, n - 1)
  }

  /** Bit i of a byte, the most significant first. */
  predicate ByteBit(x: byte, i: nat)
    requires i < 8
  {
    LowBit(x, 7 - i)
  }

  /** x with all but its k leading bits cleared. */
  function MaskByte(x: byte, k: nat): byte
    requires k <= 8
  {
    Clear(x, 8 - k)
  }

  function Keep(bits: nat, j: nat): (k: nat)
    ensures k <= 8
  {
    if bits <= 8 * j then 0 else if bits - 8 * j >= 8 then 8 else bits - 8 * j
  }

  function MaskBytes(s: bytes, bits: nat): (t: bytes)
    ensures |t| == |s|
  {
    seq(|s|, j requires 0 <= j < |s| => MaskByte(s[j], Keep(bits, j)))
  }

  function WithBytes(a: Addr, s: bytes): Addr
    requires a.Valid() && |s| == |a.b|
  {
    if a.V4? then V4(s) else V6(s)
  }

  function Masked(p: Prefix): Prefix
    requires p.Valid()
  {
    Prefix(WithBytes(p.addr, MaskBytes(p.addr.b, p.bits)), p.bits)
  }

  /** An IPv4 address written as ::ffff:a.b.c.d is that IPv4 address. */
  function Unmap(a: Addr): (r: Addr)
    requires a.Valid()
    ensures r.Valid()
  {
    if a.V6? && a.b[..10] == [0, 0, 0, 0, 0, 0, 0, 0, 0, 0] && a.b[10] == 255 && a.b[11] == 255
    then V4(a.b[12..]) else a
  }

  /** ::ffff:a.b.c.d for the four bytes of a.b.c.d. */
  function MappedBytes(b: bytes): bytes { [0, 0, 0, 0, 0, 0, 0, 0, 0, 0, 255, 255] + b }

  /** Exactly the mapped addresses become IPv4 ones, with their last four bytes; every other stays. */
  lemma UnmapMeans(a: Addr)
    requires a.Valid()
    ensures forall b: bytes | |b| == 4 && a == V6(MappedBytes(b)) :: Unmap(a) == V4(b)
    ensures (forall b: bytes | |b| == 4 :: a != V6(MappedBytes(b))) ==> Unmap(a) == a
  {
    if a.V6? && a.b[..10] == [0, 0, 0, 0, 0, 0, 0, 0, 0, 0] && a.b[10] == 255 && a.b[11] == 255 {
      assert a.b == a.b[..10] + [a.b[10], a.b[11]] + a.b[12..];
      assert a == V6(MappedBytes(a.b[12..]));
    }
    forall b: bytes | |b| == 4 && a == V6(MappedBytes(b)) ensures Unmap(a) == V4(b) {
      assert MappedBytes(b)[..10] == [0, 0, 0, 0, 0, 0, 0, 0, 0, 0] && MappedBytes(b)[12..] == b;
    }
  }

  predicate Bit(s: bytes, i: nat)
    requires i < 8 * |s|
  {
    ByteBit(s[i / 8], i % 8)
  }

  /** p covers a: same family, and every bit of the prefix agrees with the address. */
  ghost predicate Covers(p: Prefix, a: Addr)
    requires p.Valid() && a.Valid()
  {
    p.addr.V4? == a.V4? && forall i: nat | i < p.bits :: Bit(p.addr.b, i) == Bit(a.b, i)
  }

  // What masking does, bit by bit.

  lemma {:induction false} ClearBits(x: nat, n: nat, i: nat)
    ensures LowBit(Clear(x, n), i) == (n <= i && LowBit(x, i))
  {
    if n > 0 && i > 0 {
      ClearBits(x / 2, n - 1, i - 1);
    }
  }

  /** Two numbers below 2^n with the same n low bits are equal. */
  lemma {:induction false} NatFromBits(n: nat, bound: nat, x: nat, y: nat)
    requires bound == Power2(n) && x < bound && y < bound
    requires forall i: nat | i < n :: LowBit(x, i) == LowBit(y, i)
    ensures x == y
  {
    if n > 0 {
      forall i: nat | i < n - 1 ensures LowBit(x / 2, i) == LowBit(y / 2, i) {
        assert LowBit(x, i + 1) == LowBit(y, i + 1);
      }
      NatFromBits(n - 1, bound / 2, x / 2, y / 2);
      assert LowBit(x, 0) == LowBit(y, 0);
    }
  }

  lemma ByteFromBits(x: byte, y: byte)
    requires forall i: nat | i < 8 :: ByteBit(x, i) == ByteBit(y, i)
    ensures x == y
  {
    assert Power2(3) == 8 && Power2(6) == 64 && Power2(8) == 256;
    forall i: nat | i < 8 ensures LowBit(x, i) == LowBit(y, i) {
      assert ByteBit(x, 7 - i) == ByteBit(y, 7 - i);
    }
    NatFromBits(8, 256, x, y);
  }

  lemma MaskBits(s: bytes, bits: nat, i: nat)
    requires i < 8 * |s|
    ensures Bit(MaskBytes(s, bits), i) == (i < bits && Bit(s, i))
  {
    ClearBits(s[i / 8], 8 - Keep(bits, i / 8), 7 - i % 8);
  }

  lemma BytesFromBits(s: bytes, t: bytes)
    requires |s| == |t|
    requires forall i: nat | i < 8 * |s| :: Bit(s, i) == Bit(t, i)
    ensures s == t
  {
    forall j | 0 <= j < |s| ensures s[j] == t[j] {
      forall i: nat | i < 8 ensures ByteBit(s[j], i) == ByteBit(t[j], i) {
        assert Bit(s, 8 * j + i) == Bit(t, 8 * j + i);
      }
      ByteFromBits(s[j], t[j]);
    }
  }

  /** The mask of an address at p's length is p itself exactly when p is masked and covers it. */
  lemma MaskedIsCover(p: Prefix, a: Addr)
    requires p.Valid() && a.Valid() && p.bits <= a.BitLen()
    ensures Masked(Prefix(a, p.bits)) == p <==> (Masked(p) == p && Covers(p, a))
  {
    if p.addr.V4? != a.V4? { return; }
    var s, t, n := p.addr.b, a.b, p.bits;
    forall i: nat | i < 8 * |s|
      ensures Bit(MaskBytes(s, n), i) == (i < n && Bit(s, i))
      ensures Bit(MaskBytes(t, n), i) == (i < n && Bit(t, i))
    {
      MaskBits(s, n, i);
      MaskBits(t, n, i);
    }
    if Masked(p) == p && Covers(p, a) {
      BytesFromBits(MaskBytes(t, n), MaskBytes(s, n));
    }
    if Masked(Prefix(a, n)) == p {
      assert MaskBytes(t, n) == s;
      BytesFromBits(MaskBytes(s, n), s);
    }
  }
}
