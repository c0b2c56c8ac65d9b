/** Machine words as bounded naturals: exclusive-or, bits, and little-endian bytes. */
module Words {

  const LIMIT32: nat := 0x1_0000_0000
  const LIMIT64: nat := 0x1_0000_0000_0000_0000

  type u8 = x: nat | x < 256
  type u32 = x: nat | x < LIMIT32
  type u64 = x: nat | x < LIMIT64

  function Pow2(k: nat): (r: nat)
    ensures r >= 1
  {
    if k == 0 then 1 else 2 * Pow2(k - 1)
  }

  /** Bitwise exclusive-or, bit by bit from the low end. */
  function XorNat(x: nat, y: nat): nat {
    if x == 0 then y else if y == 0 then x else
      2 * XorNat(x / 2, y / 2) + (x % 2 + y % 2) % 2
  }

  lemma {:induction false} XorNatBound(x: nat, y: nat, k: nat)
    requires x < Pow2(k) && y < Pow2(k)
    ensures XorNat(x, y) < Pow2(k)
  {
    if x != 0 && y != 0 {
      XorNatBound(x / 2, y / 2, k - 1);
    }
  }

  /** The defining step holds also when an operand is zero. */
  lemma {:induction false} XorNatStep(x: nat, y: nat)
    ensures XorNat(x, y) == 2 * XorNat(x / 2, y / 2) + (x % 2 + y % 2) % 2
  {
  }

  lemma {:induction false} XorNatComm(x: nat, y: nat)
    ensures XorNat(x, y) == XorNat(y, x)
  {
    if x != 0 && y != 0 {
      XorNatComm(x / 2, y / 2);
    }
  }

  lemma {:induction false} XorNatSelf(x: nat)
    ensures XorNat(x, x) == 0
  {
    if x != 0 {
      XorNatSelf(x / 2);
    }
  }

  function AddBits(a: nat, b: nat): nat {
    (a + b) % 2
  }

  lemma AddBitsAssoc(a: nat, b: nat, c: nat)
    ensures AddBits(AddBits(a, b), c) == AddBits(a, AddBits(b, c))
  {
  }

  lemma XorNatHalves(x: nat, y: nat)
    ensures XorNat(x, y) / 2 == XorNat(x / 2, y / 2)
    ensures XorNat(x, y) % 2 == AddBits(x % 2, y % 2)
  {
    XorNatStep(x, y);
    hide XorNat;
    Split(XorNat(x / 2, y / 2), AddBits(x % 2, y % 2));
  }

  lemma Split(half: nat, bit: nat)
    requires bit < 2
    ensures (2 * half + bit) / 2 == half && (2 * half + bit) % 2 == bit
  {
  }

  /** Two numbers agree when their halves and parities do. */
  lemma SameHalves(x: nat, y: nat)
    requires x / 2 == y / 2 && x % 2 == y % 2
    ensures x == y
  {
  }

  lemma {:induction false} XorNatAssoc(x: nat, y: nat, z: nat)
    ensures XorNat(XorNat(x, y), z) == XorNat(x, XorNat(y, z))
    decreases x
  {
    if x != 0 {
      XorNatAssoc(x / 2, y / 2, z / 2);
      hide XorNat, AddBits;
      XorNatHalves(x, y);
      XorNatHalves(y, z);
      var xy, yz := XorNat(x, y), XorNat(y, z);
      XorNatHalves(xy, z);
      XorNatHalves(x, yz);
      AddBitsAssoc(x % 2, y % 2, z % 2);
      SameHalves(XorNat(xy, z), XorNat(x, yz));
    }
  }

  /** Exclusive-or is what it says, bit by bit. */
  lemma {:induction false} XorNatBits(x: nat, y: nat, j: nat)
    ensures Bit(XorNat(x, y), j) == (Bit(x, j) + Bit(y, j)) % 2
    decreases j
  {
    hide XorNat;
    XorNatHalves(x, y);
    if j == 0 {
      BitZero(x);
      BitZero(y);
      BitZero(XorNat(x, y));
    } else {
      XorNatBits(x / 2, y / 2, j - 1);
      BitStep(x, j);
      BitStep(y, j);
      BitStep(XorNat(x, y), j);
    }
  }

  lemma BitZero(x: nat)
    ensures Bit(x, 0) == x % 2
  {
  }

  /** Bit `j` of a number is bit `j - 1` of its half. */
  lemma BitStep(x: nat, j: nat)
    requires j > 0
    ensures Bit(x, j) == Bit(x / 2, j - 1)
  {
    DivTwice(x, Pow2(j - 1));
  }

  lemma DivTwice(x: nat, d: nat)
    requires d > 0
    ensures x / (2 * d) == x / 2 / d
  {
    var h, q := x / 2, x / 2 / d;
    var r := h % d;
    assert h == q * d + r && 0 <= r < d;
    assert x == 2 * h + x % 2;
    var s := 2 * r + x % 2;
    assert x == q * (2 * d) + s && 0 <= s < 2 * d;
    QuotientIs(x, 2 * d, q, s);
  }

  lemma QuotientIs(x: nat, d: nat, q: nat, r: nat)
    requires x == q * d + r && r < d
    ensures x / d == q
  {
    var q', r' := x / d, x % d;
    assert x == q' * d + r' && 0 <= r' < d;
    assert (q' - q) * d == r - r';
    if q' > q {
      TimesAtLeast(q' - q, d);
    } else if q' < q {
      TimesAtLeast(q - q', d);
    }
  }

  lemma TimesAtLeast(k: nat, d: nat)
    requires k >= 1
    ensures k * d >= d
  {
    assert k * d == (k - 1) * d + d;
  }

  lemma Pow2Values()
    ensures Pow2(32) == LIMIT32 && Pow2(64) == LIMIT64
  {
    assert Pow2(8) == 256;
    assert Pow2(16) == 0x1_0000;
    assert Pow2(24) == 0x100_0000;
    assert Pow2(32) == LIMIT32;
    assert Pow2(40) == 0x100 * LIMIT32;
    assert Pow2(48) == 0x1_0000 * LIMIT32;
    assert Pow2(56) == 0x100_0000 * LIMIT32;
  }

  function Xor64(x: u64, y: u64): u64 {
    Pow2Values();
    XorNatBound(x, y, 64);
    XorNat(x, y)
  }

  function Xor32(x: u32, y: u32): u32 {
    Pow2Values();
    XorNatBound(x, y, 32);
    XorNat(x, y)
  }

  /** Wrapping 64-bit addition. */
  function Add64(x: u64, y: nat): u64 {
    (x + y) % LIMIT64
  }

  /** Bit `j` of a word. */
  function Bit(x: nat, j: nat): nat {
    (x / Pow2(j)) % 2
  }

  /** The low `k` bytes of a word, least significant first. */
  function ToBytes(x: nat, k: nat): (bs: seq<u8>)
    ensures |bs| == k
  {
    if k == 0 then [] else [x % 256] + ToBytes(x / 256, k - 1)
  }

  function FromBytes(bs: seq<u8>): nat {
    if bs == [] then 0 else bs[0] + 256 * FromBytes(bs[1..])
  }

  /** Words are laid out least significant byte first. */
  lemma {:induction false} ByteAt(x: nat, size: nat, k: nat)
    requires k < size
    ensures ToBytes(x, size)[k] == (x / Pow256(k)) % 256
  {
    if k > 0 {
      ByteAt(x / 256, size - 1, k - 1);
      DivBytes(x, Pow256(k - 1));
    }
  }

  lemma DivBytes(x: nat, d: nat)
    requires d > 0
    ensures x / (256 * d) == x / 256 / d
  {
    var h, q := x / 256, x / 256 / d;
    var r := h % d;
    assert h == q * d + r && 0 <= r < d;
    assert x == 256 * h + x % 256;
    var s := 256 * r + x % 256;
    assert x == q * (256 * d) + s && 0 <= s < 256 * d;
    QuotientIs(x, 256 * d, q, s);
  }

  /** The number that four bytes spell, lowest first. */
  function Spelled(a: nat, b: nat, c: nat, d: nat): nat {
    a + 256 * b + 65536 * c + 16777216 * d
  }

  lemma FourBytes(bs: seq<u8>)
    requires |bs| == 4
    ensures FromBytes(bs) == Spelled(bs[0], bs[1], bs[2], bs[3])
  {
    assert bs[1..][1..] == bs[2..] && bs[2..][1..] == bs[3..] && bs[3..][1..] == [];
    assert FromBytes(bs[3..]) == Spelled(bs[3], 0, 0, 0);
    assert FromBytes(bs[2..]) == Spelled(bs[2], bs[3], 0, 0);
    assert FromBytes(bs[1..]) == Spelled(bs[1], bs[2], bs[3], 0);
  }

  function Pow256(k: nat): (r: nat)
    ensures r >= 1
  {
    if k == 0 then 1 else 256 * Pow256(k - 1)
  }

  lemma {:induction false} BytesRoundTrip(x: nat, k: nat)
    requires x < Pow256(k)
    ensures FromBytes(ToBytes(x, k)) == x
  {
    if k != 0 {
      BytesRoundTrip(x / 256, k - 1);
      assert ToBytes(x, k)[1..] == ToBytes(x / 256, k - 1);
    }
  }
}
