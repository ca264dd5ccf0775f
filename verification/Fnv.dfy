/** FNV-1a over bytes, 64 bits wide (`hwm.rs`): every step loses nothing. */
module Fnv {
  import opened Utf8

  type u64 = x: int | 0 <= x < 0x1_0000_0000_0000_0000

  /** Exclusive or of two numbers of `bits` bits. */
  function Xor(a: nat, b: nat, bits: nat): nat {
    if bits == 0 then 0 else 2 * Xor(a / 2, b / 2, bits - 1) + if a % 2 == b % 2 then 0 else 1
  }

  function Power(bits: nat): nat {
    if bits == 0 then 1 else 2 * Power(bits - 1)
  }

  lemma {:induction false} XorBounded(a: nat, b: nat, bits: nat)
    ensures Xor(a, b, bits) < Power(bits)
  {
    if bits != 0 {
      XorBounded(a / 2, b / 2, bits - 1);
    }
  }

  lemma XorHalves(a: nat, b: nat, bits: nat)
    requires bits > 0
    ensures Xor(a, b, bits) / 2 == Xor(a / 2, b / 2, bits - 1)
    ensures Xor(a, b, bits) % 2 == if a % 2 == b % 2 then 0 else 1
  {
  }

  /** Exclusive or undoes itself. */
  lemma {:induction false} XorUndoes(a: nat, b: nat, bits: nat)
    requires a < Power(bits)
    ensures Xor(Xor(a, b, bits), b, bits) == a
  {
    if bits != 0 {
      var x := Xor(a, b, bits);
      XorHalves(a, b, bits);
      XorHalves(x, b, bits);
      XorUndoes(a / 2, b / 2, bits - 1);
    }
  }

  lemma {:induction false} XorCommutes(a: nat, b: nat, bits: nat)
    ensures Xor(a, b, bits) == Xor(b, a, bits)
  {
    if bits != 0 {
      XorCommutes(a / 2, b / 2, bits - 1);
    }
  }

  /** Bit `k`, counting from the lowest. */
  function Bit(x: nat, k: nat): nat {
    if k == 0 then x % 2 else Bit(x / 2, k - 1)
  }

  /** Each bit of the result is set exactly where the two differ. */
  lemma {:induction false} XorDiffers(a: nat, b: nat, bits: nat, k: nat)
    requires k < bits
    ensures Bit(Xor(a, b, bits), k) == 1 <==> Bit(a, k) != Bit(b, k)
  {
    XorHalves(a, b, bits);
    if k > 0 {
      XorDiffers(a / 2, b / 2, bits - 1, k - 1);
    }
  }

  lemma EightBits()
    ensures Power(8) == 256
  {
  }

  /** `hash ^ byte`: only the low byte is touched. */
  function Mixed(hash: u64, b: byte): u64 {
    XorBounded(hash % 256, b, 8);
    EightBits();
    hash / 256 * 256 + Xor(hash % 256, b, 8)
  }

  /** `(hash ^ byte).wrapping_mul(0x0000_0100_0000_01b3)`. */
  function Step(hash: u64, b: byte): u64 {
    Mixed(hash, b) * 0x100_0000_01b3 % 0x1_0000_0000_0000_0000
  }

  function Fold(hash: u64, bytes: seq<byte>): u64
    decreases |bytes|
  {
    if |bytes| == 0 then hash else Fold(Step(hash, bytes[0]), bytes[1..])
  }

  function Fnv1a(bytes: seq<byte>): u64 {
    Fold(0xcbf2_9ce4_8422_2325, bytes)
  }

  /** 0xce96_5057_aff6_957b is the prime's inverse modulo 2^64. */
  lemma MultipleOfModulus(d: int, m: int)
    requires d * 0x100_0000_01b3 == m * 0x1_0000_0000_0000_0000
    ensures d == (m * 0xce96_5057_aff6_957b - d * 0xce_9650_590f) * 0x1_0000_0000_0000_0000
  {
  }

  lemma SmallMultiple(d: int, t: int)
    requires d == t * 0x1_0000_0000_0000_0000 && -0x1_0000_0000_0000_0000 < d < 0x1_0000_0000_0000_0000
    ensures d == 0
  {
  }

  /** Multiplying by an odd number loses nothing modulo a power of two. */
  lemma TimesPrimeIsInjective(x: u64, y: u64)
    requires x * 0x100_0000_01b3 % 0x1_0000_0000_0000_0000 == y * 0x100_0000_01b3 % 0x1_0000_0000_0000_0000
    ensures x == y
  {
    var m := x * 0x100_0000_01b3 / 0x1_0000_0000_0000_0000 - y * 0x100_0000_01b3 / 0x1_0000_0000_0000_0000;
    MultipleOfModulus(x - y, m);
    SmallMultiple(x - y, m * 0xce96_5057_aff6_957b - (x - y) * 0xce_9650_590f);
  }

  lemma MixedParts(h: u64, b: byte)
    ensures Mixed(h, b) / 256 == h / 256 && Mixed(h, b) % 256 == Xor(h % 256, b, 8)
  {
    XorBounded(h % 256, b, 8);
    EightBits();
  }

  lemma MixedIsInjective(h: u64, b: byte, g: u64, c: byte)
    requires Mixed(h, b) == Mixed(g, c)
    ensures b == c ==> h == g
    ensures h == g ==> b == c
  {
    EightBits();
    MixedParts(h, b);
    MixedParts(g, c);
    if b == c {
      XorUndoes(h % 256, b, 8);
      XorUndoes(g % 256, b, 8);
    }
    if h == g {
      XorCommutes(h % 256, b, 8);
      XorCommutes(h % 256, c, 8);
      XorUndoes(b, h % 256, 8);
      XorUndoes(c, h % 256, 8);
    }
  }

  /** A step tells apart any two hashes, and any two bytes. */
  lemma StepIsInjective(h: u64, b: byte, g: u64, c: byte)
    requires Step(h, b) == Step(g, c)
    ensures b == c ==> h == g
    ensures h == g ==> b == c
  {
    TimesPrimeIsInjective(Mixed(h, b), Mixed(g, c));
    MixedIsInjective(h, b, g, c);
  }

  lemma {:induction false} FoldIsInjective(h: u64, g: u64, bytes: seq<byte>)
    requires Fold(h, bytes) == Fold(g, bytes)
    ensures h == g
    decreases |bytes|
  {
    if |bytes| != 0 {
      FoldIsInjective(Step(h, bytes[0]), Step(g, bytes[0]), bytes[1..]);
      StepIsInjective(h, bytes[0], g, bytes[0]);
    }
  }

  /** Changing one byte changes the hash. */
  lemma {:induction false} OneByteChangesHash(h: u64, bytes: seq<byte>, i: nat, b: byte)
    requires i < |bytes| && b != bytes[i]
    ensures Fold(h, bytes[i := b]) != Fold(h, bytes)
    decreases |bytes|
  {
    var changed := bytes[i := b];
    if i == 0 {
      assert changed[1..] == bytes[1..];
      if Fold(h, changed) == Fold(h, bytes) {
        FoldIsInjective(Step(h, b), Step(h, bytes[0]), bytes[1..]);
        StepIsInjective(h, b, h, bytes[0]);
      }
    } else {
      assert changed[1..] == bytes[1..][i - 1 := b];
      OneByteChangesHash(Step(h, bytes[0]), bytes[1..], i - 1, b);
    }
  }

  /** The hash takes its bytes from first to last, from the published offset basis. */
  lemma {:induction false} HashGoesOn(bytes: seq<byte>, b: byte)
    ensures Fnv1a([]) == 0xcbf2_9ce4_8422_2325
    ensures Fnv1a(bytes + [b]) == Step(Fnv1a(bytes), b)
  {
    FoldGoesOn(0xcbf2_9ce4_8422_2325, bytes, b);
  }

  lemma {:induction false} FoldGoesOn(hash: u64, bytes: seq<byte>, b: byte)
    ensures Fold(hash, bytes + [b]) == Step(Fold(hash, bytes), b)
    decreases |bytes|
  {
    if |bytes| == 0 {
      assert bytes + [b] == [b] && [b][1..] == [];
    } else {
      assert (bytes + [b])[1..] == bytes[1..] + [b];
      FoldGoesOn(Step(hash, bytes[0]), bytes[1..], b);
    }
  }

  /** The step that the published hash of `a`, 0xaf63_dc4c_8601_ec8c, takes. */
  lemma KnownAnswer(hash: u64, b: byte)
    requires hash == 0xcbf2_9ce4_8422_2325 && b == 97
    ensures Step(hash, b) == 0xaf63_dc4c_8601_ec8c
  {
    MixedKnown(hash, b);
    Product(0xcbf2_9ce4_8422_2344);
    StepIs(hash, b, 0xcbf2_9ce4_8422_2344, 0xaf63_dc4c_8601_ec8c);
  }

  lemma MixedKnown(hash: u64, b: byte)
    requires hash == 0xcbf2_9ce4_8422_2325 && b == 97
    ensures Mixed(hash, b) == 0xcbf2_9ce4_8422_2344
  {
    LowByte(hash % 256, b);
    MixedIs(hash, b, 0xcb_f29c_e484_2223, 0x44);
  }

  lemma MixedIs(hash: u64, b: byte, high: nat, low: nat)
    requires hash / 256 == high && Xor(hash % 256, b, 8) == low
    ensures Mixed(hash, b) == high * 256 + low
  {
  }

  lemma StepIs(hash: u64, b: byte, x: u64, r: u64)
    requires Mixed(hash, b) == x && x * 0x100_0000_01b3 % 0x1_0000_0000_0000_0000 == r
    ensures Step(hash, b) == r
  {
  }

  lemma Product(x: u64)
    requires x == 0xcbf2_9ce4_8422_2344
    ensures x * 0x100_0000_01b3 % 0x1_0000_0000_0000_0000 == 0xaf63_dc4c_8601_ec8c
  {
    assert x * 0x100_0000_01b3 == 0xcbf29ce5de * 0x1_0000_0000_0000_0000 + 0xaf63_dc4c_8601_ec8c;
  }

  lemma LowByte(x: nat, b: nat)
    requires x == 0x25 && b == 97
    ensures Xor(x, b, 8) == 0x44
  {
    assert Xor(0, 0, 1) == 0 && Xor(0, 1, 2) == 1 && Xor(1, 3, 3) == 2 && Xor(2, 6, 4) == 4;
    assert Xor(4, 12, 5) == 8 && Xor(9, 24, 6) == 17 && Xor(18, 48, 7) == 34;
  }
}
