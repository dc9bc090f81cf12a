/** The number formats of the shared instruction buffers: little-endian bytes packed in
    32-bit words, integers stored as IEEE 754 doubles, and instruction flag bits. */
module MachineWords {

  newtype byte = b: int | 0 <= b < 256
  type word = w: int | 0 <= w < 0x1_0000_0000
  type Bytes = seq<byte>

  // ---------------------------------------------------------------- doubles

  function Pow2(k: nat): (p: nat)
    ensures p > 0
  {
    if k == 0 then 1 else 2 * Pow2(k - 1)
  }

  lemma {:induction false} Pow2Adds(a: nat, b: nat)
    ensures Pow2(a) * Pow2(b) == Pow2(a + b)
  {
    if a > 0 {
      Pow2Adds(a - 1, b);
      assert Pow2(a) * Pow2(b) == 2 * (Pow2(a - 1) * Pow2(b));
    }
  }

  lemma Pow2Ten(k: nat)
    ensures Pow2(k + 10) == 1024 * Pow2(k)
  {
    assert Pow2(k + 2) == 4 * Pow2(k);
    assert Pow2(k + 4) == 4 * Pow2(k + 2);
    assert Pow2(k + 6) == 4 * Pow2(k + 4);
    assert Pow2(k + 8) == 4 * Pow2(k + 6);
    assert Pow2(k + 10) == 4 * Pow2(k + 8);
  }

  lemma Pow2Values()
    ensures Pow2(52) == 0x10_0000_0000_0000 && Pow2(53) == 0x20_0000_0000_0000
  {
    assert Pow2(2) == 4;
    Pow2Ten(2);
    Pow2Ten(12);
    Pow2Ten(22);
    Pow2Ten(32);
    Pow2Ten(42);
  }

  function Log2(n: nat): (e: nat)
    requires n > 0
    ensures Pow2(e) <= n < 2 * Pow2(e)
  {
    if n == 1 then 0 else Log2(n / 2) + 1
  }

  lemma {:induction false} Pow2Monotone(a: nat, b: nat)
    requires a <= b
    ensures Pow2(a) <= Pow2(b)
  {
    if a < b {
      Pow2Monotone(a, b - 1);
    }
  }

  lemma Log2Bound(n: nat)
    requires 0 < n < 0x20_0000_0000_0000
    ensures Log2(n) <= 52
  {
    Pow2Values();
    if Log2(n) > 52 {
      Pow2Monotone(53, Log2(n));
    }
  }

  /** The 52 bits below the leading one. */
  function Fraction(n: nat): nat
    requires 0 < n < 0x20_0000_0000_0000
  {
    Log2Bound(n);
    (n - Pow2(Log2(n))) * Pow2(52 - Log2(n))
  }

  /** The bits of the double that represents the integer `n` exactly. */
  function DoubleBits(n: nat): nat
    requires n < 0x20_0000_0000_0000
  {
    if n == 0 then 0
    else (1023 + Log2(n)) * 0x10_0000_0000_0000 + Fraction(n)
  }

  function Quotient(a: nat, d: nat): nat
    requires d > 0
  {
    a / d
  }

  function DoubleParts(exponent: nat, fraction: nat): nat {
    if 1023 <= exponent <= 1023 + 52 then Pow2(exponent - 1023) + Quotient(fraction, Pow2(1023 + 52 - exponent)) else 0
  }

  /** The integer a double holds: what the cast `(size_t) d` yields. */
  function DoubleToInt(bits: nat): nat {
    DoubleParts(bits / 0x10_0000_0000_0000, bits % 0x10_0000_0000_0000)
  }

  lemma FractionFits(n: nat, e: nat)
    requires e <= 52 && Pow2(e) <= n < 2 * Pow2(e)
    ensures (n - Pow2(e)) * Pow2(52 - e) < 0x10_0000_0000_0000
  {
    Pow2Values();
    Pow2Adds(e, 52 - e);
    var d, p := n - Pow2(e), Pow2(52 - e);
    assert d < Pow2(e) && p > 0;
    assert d * p < Pow2(e) * p by { MulStrict(d, Pow2(e), p); }
  }

  lemma MulStrict(a: nat, b: nat, c: nat)
    requires a < b && c > 0
    ensures a * c < b * c
  {
    assert b * c - a * c == (b - a) * c;
    assert (b - a) * c >= c by { assert (b - a) * c == c + (b - a - 1) * c; }
  }

  lemma QuotientRemainder(q: nat, r: nat, d: nat)
    requires r < d
    ensures (q * d + r) / d == q && (q * d + r) % d == r
  {
    QuotientUnique(q * d + r, q, r, d);
  }

  lemma QuotientUnique(x: nat, q: nat, r: nat, d: nat)
    requires x == q * d + r && r < d
    ensures x / d == q && x % d == r
  {
    var p := x / d;
    assert x == p * d + x % d;
    if p < q {
      MulAtMost(p + 1, q, d);
      assert false;
    } else if q < p {
      MulAtMost(q + 1, p, d);
      assert false;
    }
  }

  lemma MulAtMost(a: nat, b: nat, c: nat)
    requires a <= b
    ensures a * c <= b * c
  {
    assert b * c - a * c == (b - a) * c;
  }

  /** An address stored as a double comes back exactly. */
  lemma DoubleRoundTrip(n: nat)
    requires n < 0x20_0000_0000_0000
    ensures DoubleToInt(DoubleBits(n)) == n
    ensures DoubleBits(n) < 0x1_0000_0000 * 0x1_0000_0000
  {
    hide Pow2, Log2, DoubleToInt;
    if n > 0 {
      Log2Bound(n);
      var e := Log2(n);
      FractionFits(n, e);
      JoinDouble(e, n - Pow2(e));
    } else {
      ZeroDouble();
    }
  }

  lemma ZeroDouble()
    ensures DoubleToInt(0) == 0
  {
  }

  lemma JoinDouble(e: nat, d: nat)
    requires e <= 52 && d * Pow2(52 - e) < 0x10_0000_0000_0000
    ensures var bits := (1023 + e) * 0x10_0000_0000_0000 + d * Pow2(52 - e);
            DoubleToInt(bits) == Pow2(e) + d && bits < 0x1_0000_0000 * 0x1_0000_0000
  {
    var f := d * Pow2(52 - e);
    QuotientRemainder(d, 0, Pow2(52 - e));
    assert ((1023 + e) * 0x10_0000_0000_0000 + f) / 0x10_0000_0000_0000 == 1023 + e;
  }

  /** The test `*(instruction + 1) > 0x40000000` tells what the slot holds: the high word of an address
      above 2 still stored as a double exceeds the bound, and that of a machine pointer below 2^62
      never does. */
  lemma HighWordTellsDouble(n: nat, pointer: nat)
    requires n < 0x20_0000_0000_0000 && pointer < 0x4000_0000_0000_0000
    ensures DoubleBits(n) / 0x1_0000_0000 > 0x4000_0000 <==> n > 2
    ensures pointer / 0x1_0000_0000 <= 0x4000_0000
  {
    hide Pow2, Log2, Fraction;
    if n > 2 {
      HighExponent(Log2(n), Fraction(n), DoubleBits(n)) by {
        AboveTwo(n);
      }
    } else if n > 0 {
      LowExponent(Log2(n), Fraction(n), DoubleBits(n)) by {
        AtMostTwo(n);
      }
    }
  }

  lemma AtMostTwo(n: nat)
    requires 0 < n <= 2
    ensures Fraction(n) == 0 && Log2(n) <= 1
  {
    assert Pow2(0) == 1 && Pow2(1) == 2;
    assert n == Pow2(Log2(n));
  }

  lemma LowExponent(e: nat, fraction: nat, bits: nat)
    requires bits == (1023 + e) * 0x10_0000_0000_0000 + fraction && e <= 1 && fraction == 0
    ensures bits / 0x1_0000_0000 <= 0x4000_0000
  {
  }

  lemma AboveTwo(n: nat)
    requires 2 < n < 0x20_0000_0000_0000
    ensures Log2(n) >= 2 || (Log2(n) == 1 && Fraction(n) == 0x8_0000_0000_0000)
  {
    if Log2(n) == 1 {
      Pow2Values();
      assert Pow2(1) == 2 && n == 3;
      assert Pow2(52) == 2 * Pow2(51);
    }
  }

  lemma HighExponent(e: nat, fraction: nat, bits: nat)
    requires bits == (1023 + e) * 0x10_0000_0000_0000 + fraction
    requires e >= 2 || (e == 1 && fraction == 0x8_0000_0000_0000)
    ensures bits / 0x1_0000_0000 > 0x4000_0000
  {
  }

  function Lo(bits: nat): word { bits % 0x1_0000_0000 }

  function Hi(bits: nat): word
    requires bits < 0x1_0000_0000 * 0x1_0000_0000
  {
    bits / 0x1_0000_0000
  }

  function Join(lo: word, hi: word): nat { hi * 0x1_0000_0000 + lo }

  lemma JoinSplit(bits: nat)
    requires bits < 0x1_0000_0000 * 0x1_0000_0000
    ensures Join(Lo(bits), Hi(bits)) == bits
  {
  }

  // ------------------------------------------------------------------ bytes

  function At(bs: seq<byte>, i: nat): int {
    if i < |bs| then bs[i] as int else 0
  }

  /** The `j`-th 32-bit word of a byte string laid out in zeroed memory. */
  function PackedWord(bs: seq<byte>, j: nat): word {
    At(bs, 4 * j) + 0x100 * At(bs, 4 * j + 1) + 0x1_0000 * At(bs, 4 * j + 2) + 0x100_0000 * At(bs, 4 * j + 3)
  }

  /** Byte `k` (0 to 3) of a little-endian word. */
  function ByteOf(w: word, k: nat): byte
    requires k < 4
  {
    if k == 0 then (w % 0x100) as byte
    else if k == 1 then (w / 0x100 % 0x100) as byte
    else if k == 2 then (w / 0x1_0000 % 0x100) as byte
    else (w / 0x100_0000) as byte
  }

  lemma PackedByte(bs: seq<byte>, i: nat)
    requires i < |bs|
    ensures ByteOf(PackedWord(bs, i / 4), i % 4) == bs[i]
  {
    var j := i / 4;
    var b0, b1, b2, b3 := At(bs, 4 * j), At(bs, 4 * j + 1), At(bs, 4 * j + 2), At(bs, 4 * j + 3);
    BytesOfWord(b0, b1, b2, b3);
  }

  lemma BytesOfWord(b0: int, b1: int, b2: int, b3: int)
    requires 0 <= b0 < 256 && 0 <= b1 < 256 && 0 <= b2 < 256 && 0 <= b3 < 256
    ensures var w := b0 + 0x100 * b1 + 0x1_0000 * b2 + 0x100_0000 * b3;
            w % 0x100 == b0 && w / 0x100 % 0x100 == b1 && w / 0x1_0000 % 0x100 == b2 && w / 0x100_0000 == b3
  {
    var w := b0 + 0x100 * b1 + 0x1_0000 * b2 + 0x100_0000 * b3;
    QuotientUnique(w, b1 + 0x100 * b2 + 0x1_0000 * b3, b0, 0x100);
    QuotientUnique(b1 + 0x100 * b2 + 0x1_0000 * b3, b2 + 0x100 * b3, b1, 0x100);
    QuotientUnique(w, b2 + 0x100 * b3, b0 + 0x100 * b1, 0x1_0000);
    QuotientUnique(b2 + 0x100 * b3, b3, b2, 0x100);
    QuotientUnique(w, b3, b0 + 0x100 * b1 + 0x1_0000 * b2, 0x100_0000);
  }

  // ------------------------------------------------------------------ flags

  const NO_INSTRUCTION := 0
  const START_BLOCK := 1
  const BLOCK_END := 2
  const POINTER_NEXT := 3
  const START_CONDITION_BLOCK := 4
  const USER_CALLBACK := 8
  const DROP_DB := 12
  const DEL := 13
  const DEL_VALUE := 14
  const PUT := 15

  /** The instruction half of a flag word. */
  datatype Flags = Flags(
    op: nat,                    // low four bits
    ifNoExists: bool,           // 0x10, MDBX_NOOVERWRITE
    noDupData: bool,            // 0x20
    conditionalVersion: bool,   // 0x100
    setVersion: bool,           // 0x200
    deleteDatabase: bool,       // 0x400
    append: bool,               // 0x20000
    compressible: bool)         // 0x100000, also USER_CALLBACK_STRICT_ORDER
  {
    predicate HasKey() { op / 4 % 2 == 1 }
    predicate HasValue() { op / 2 % 2 == 1 }
    predicate Conditional() { op / 8 % 2 == 1 }
  }

  const PLAIN := Flags(0, false, false, false, false, false, false, false)

  function Bit(b: bool, mask: nat): nat { if b then mask else 0 }

  function FlagBits(f: Flags): word
    requires f.op < 16
  {
    f.op + Bit(f.ifNoExists, 0x10) + Bit(f.noDupData, 0x20) + Bit(f.conditionalVersion, 0x100)
    + Bit(f.setVersion, 0x200) + Bit(f.deleteDatabase, 0x400) + Bit(f.append, 0x2_0000)
    + Bit(f.compressible, 0x10_0000)
  }

  function HasBit(w: word, mask: nat): bool
    requires mask > 0
  {
    w / mask % 2 == 1
  }

  function ParseFlags(w: word): (f: Flags)
    ensures f.op < 16
  {
    Flags(w % 16, HasBit(w, 0x10), HasBit(w, 0x20), HasBit(w, 0x100), HasBit(w, 0x200), HasBit(w, 0x400),
          HasBit(w, 0x2_0000), HasBit(w, 0x10_0000))
  }


  lemma BitRead(w: nat, low: nat, bit: nat, high: nat, mask: nat)
    requires low < mask && bit < 2 && w == (2 * high + bit) * mask + low
    ensures w / mask % 2 == bit
  {
    QuotientUnique(w, 2 * high + bit, low, mask);
  }

  function AsBit(b: bool): nat { if b then 1 else 0 }

  /** Status and delimiter bits never disturb the instruction bits. */
  lemma FlagsRoundTrip(f: Flags, status: nat)
    requires f.op < 16 && status < 0x100
    ensures FlagBits(f) < 0x100_0000
    ensures ParseFlags(FlagBits(f) + status * 0x100_0000) == f
  {
    var x, n, c, v := AsBit(f.ifNoExists), AsBit(f.noDupData), AsBit(f.conditionalVersion), AsBit(f.setVersion);
    var d, a, z := AsBit(f.deleteDatabase), AsBit(f.append), AsBit(f.compressible);
    var w := FlagBits(f) + status * 0x100_0000;
    var low, high := f.op + 0x10 * x + 0x20 * n + 0x100 * c, 0x80 * a + 0x400 * z + 0x4000 * status;
    assert w == low + 0x200 * (v + 2 * d + 2 * high);
    FlagsReadLow(w, f.op, x, n, c, v + 2 * d + 2 * high);
    FlagsReadHigh(w, low, v, d, a, z, status);
  }

  lemma FlagsReadLow(w: nat, op: nat, x: nat, n: nat, c: nat, rest: nat)
    requires op < 16 && x < 2 && n < 2 && c < 2 && w == op + 0x10 * x + 0x20 * n + 0x100 * c + 0x200 * rest
    ensures w % 16 == op && w / 0x10 % 2 == x && w / 0x20 % 2 == n && w / 0x100 % 2 == c
  {
    BitRead(w, op, x, n + 8 * c + 16 * rest, 0x10);
    BitRead(w, op + 0x10 * x, n, 4 * c + 8 * rest, 0x20);
    BitRead(w, op + 0x10 * x + 0x20 * n, c, rest, 0x100);
  }

  lemma FlagsReadHigh(w: nat, low: nat, v: nat, d: nat, a: nat, z: nat, status: nat)
    requires low < 0x200 && v < 2 && d < 2 && a < 2 && z < 2
    requires w == low + 0x200 * v + 0x400 * d + 0x2_0000 * a + 0x10_0000 * z + 0x100_0000 * status
    ensures w / 0x200 % 2 == v && w / 0x400 % 2 == d && w / 0x2_0000 % 2 == a && w / 0x10_0000 % 2 == z
  {
    BitRead(w, low, v, d + 0x80 * a + 0x400 * z + 0x4000 * status, 0x200);
    BitRead(w, low + 0x200 * v, d, 0x40 * a + 0x200 * z + 0x2000 * status, 0x400);
    BitRead(w, low + 0x200 * v + 0x400 * d, a, 4 * z + 0x40 * status, 0x2_0000);
    BitRead(w, low + 0x200 * v + 0x400 * d + 0x2_0000 * a, z, 8 * status, 0x10_0000);
  }
}
