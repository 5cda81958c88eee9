/**
 * Integer and bit-level helpers shared by the whole model: bytes, bits,
 * powers of two, little- and big-endian values of byte strings (Python's
 * int.from_bytes / int.to_bytes), population count, bit length, single-bit
 * tests and bitwise OR on unbounded non-negative integers.
 */
module Bits {

  /** One byte of a packet (a Python int in range(256)). */
  type byte = x: int | 0 <= x < 256

  /** One keep flag of a transaction (0 or 1). */
  type bit = x: int | 0 <= x < 2

  function Pow2(n: nat): (r: nat)
    ensures r >= 1
  {
    if n == 0 then 1 else 2 * Pow2(n - 1)
  }

  lemma {:induction false} Pow2Add(a: nat, b: nat)
    ensures Pow2(a + b) == Pow2(a) * Pow2(b)
  {
    if a > 0 {
      Pow2Add(a - 1, b);
    }
  }

  lemma Pow2Monotone(a: nat, b: nat)
    requires a <= b
    ensures Pow2(a) <= Pow2(b)
  {
    Pow2Add(a, b - a);
  }

  // ---------------------------------------------------------------------
  // Division facts used by the byte and bit lemmas below.

  /** Division is unique: a quotient/remainder pair in range is THE pair. */
  lemma DivModUnique(v: int, m: int, q: int, r: int)
    requires m > 0 && 0 <= r < m && v == m * q + r
    ensures v / m == q && v % m == r
  {
    var q0, r0 := v / m, v % m;
    assert m * q0 + r0 == m * q + r;
    assert m * (q - q0) == m * q - m * q0;
    MulSmall(m, q - q0, r0 - r);
  }

  lemma MulSmall(m: int, d: int, e: int)
    requires m > 0 && -m < e < m && m * d == e
    ensures d == 0 && e == 0
  {
  }

  lemma DivDiv(v: nat, a: nat, b: nat)
    requires a > 0 && b > 0
    ensures v / a / b == v / (a * b)
    ensures (v % (a * b)) == v % a + a * ((v / a) % b)
  {
    var q := v / a;
    var r := v % a;
    var q2 := q / b;
    var r2 := q % b;
    Regroup(v, a, b, q, r, q2, r2);
    LowerBound(a, b, r, r2);
    DivModUnique(v, a * b, q2, a * r2 + r);
  }

  lemma Regroup(v: int, a: int, b: int, q: int, r: int, q2: int, r2: int)
    requires v == a * q + r && q == b * q2 + r2
    ensures v == (a * b) * q2 + (a * r2 + r)
  {
    calc {
      v;
      a * (b * q2 + r2) + r;
      (a * b) * q2 + (a * r2 + r);
    }
  }

  lemma LowerBound(a: int, b: int, r: int, r2: int)
    requires 0 <= r < a && 0 <= r2 < b
    ensures 0 <= a * r2 + r < a * b
  {
    assert a * r2 <= a * (b - 1);
  }

  // ---------------------------------------------------------------------
  // Little-endian byte strings: s[0] is the least significant byte.

  /** int.from_bytes(s, 'little') */
  function LeValue(s: seq<byte>): nat
  {
    if s == [] then 0 else s[0] + 256 * LeValue(s[1..])
  }

  /** v.to_bytes(n, 'little'), for v < 2^(8n); higher bytes are dropped otherwise. */
  function ToLe(v: nat, n: nat): (r: seq<byte>)
    ensures |r| == n
  {
    if n == 0 then [] else [v % 256] + ToLe(v / 256, n - 1)
  }

  lemma {:induction false} LeValueBound(s: seq<byte>)
    ensures LeValue(s) < Pow2(8 * |s|)
  {
    if s != [] {
      LeValueBound(s[1..]);
      Pow2Add(8, 8 * (|s| - 1));
      assert Pow2(8) == 256;
    }
  }

  /** Reading back the bytes of a little-endian value gives the bytes. */
  lemma {:induction false} ToLeLeValue(s: seq<byte>)
    ensures ToLe(LeValue(s), |s|) == s
  {
    if s != [] {
      var v := LeValue(s);
      DivModUnique(v, 256, LeValue(s[1..]), s[0]);
      ToLeLeValue(s[1..]);
    }
  }

  /** The value of the first n little-endian bytes of v is v mod 2^(8n). */
  lemma {:induction false} LeValueToLe(v: nat, n: nat)
    ensures LeValue(ToLe(v, n)) == v % Pow2(8 * n)
  {
    if n > 0 {
      LeValueToLe(v / 256, n - 1);
      Pow2Add(8, 8 * (n - 1));
      assert Pow2(8) == 256;
      DivDiv(v, 256, Pow2(8 * (n - 1)));
      assert ToLe(v, n)[1..] == ToLe(v / 256, n - 1);
    }
  }

  /** Byte i of v.to_bytes(n, 'little') is (v >> 8i) & 0xFF. */
  lemma {:induction false} ToLeAt(v: nat, n: nat, i: nat)
    requires i < n
    ensures ToLe(v, n)[i] == (v / Pow2(8 * i)) % 256
  {
    if i > 0 {
      ToLeAt(v / 256, n - 1, i - 1);
      Pow2Add(8, 8 * (i - 1));
      assert Pow2(8) == 256;
      DivDiv(v, 256, Pow2(8 * (i - 1)));
    }
  }

  /** Zero padding on the high end does not change a little-endian value. */
  lemma {:induction false} LeValueZeroPad(s: seq<byte>, k: nat)
    ensures LeValue(s + seq(k, _ => 0)) == LeValue(s)
  {
    if s == [] {
      assert s + seq(k, _ => 0) == seq(k, _ => 0);
      ZerosValue(k);
    } else {
      assert (s + seq(k, _ => 0))[1..] == s[1..] + seq(k, _ => 0);
      LeValueZeroPad(s[1..], k);
    }
  }

  lemma {:induction false} ZerosValue(k: nat)
    ensures LeValue(seq(k, _ => 0)) == 0
  {
    if k > 0 {
      assert seq(k, _ => 0)[1..] == seq(k - 1, _ => 0);
      ZerosValue(k - 1);
    }
  }

  /** Appending a byte adds it at weight 2^(8|s|). */
  lemma {:induction false} LeValueSnoc(s: seq<byte>, b: byte)
    ensures LeValue(s + [b]) == LeValue(s) + b * Pow2(8 * |s|)
  {
    if s != [] {
      var t := s[1..];
      assert (s + [b])[1..] == t + [b];
      LeValueSnoc(t, b);
      var p := Pow2(8 * |t|);
      assert Pow2(8 * |s|) == 256 * p by {
        Pow2Add(8, 8 * |t|);
        assert Pow2(8) == 256;
      }
      assert 256 * (b * p) == b * (256 * p) by {
        MulAssociative(256, b, p);
      }
    }
  }

  /** Two adjacent slices of a prefix make up the prefix. */
  lemma PrefixJoin<T>(s: seq<T>, lo: nat, hi: nat)
    requires lo <= hi <= |s|
    ensures s[..lo] + s[lo..hi] == s[..hi]
  {
  }

  /** A product of naturals is a natural; stated alone so that callers need not search for it. */
  lemma ProductIsNat(x: nat, y: nat)
    ensures 0 <= x * y
  {
  }

  lemma MulAssociative(x: int, y: int, z: int)
    ensures x * (y * z) == y * (x * z)
  {
  }

  // ---------------------------------------------------------------------
  // Bit lists: bits[i] is the bit of weight 2^i.

  /** The value of a list of bits, bit i at weight 2^i. */
  function LeBits(bits: seq<bit>): nat
  {
    if bits == [] then 0 else bits[0] + 2 * LeBits(bits[1..])
  }

  lemma {:induction false} LeBitsSnoc(bits: seq<bit>, b: bit)
    ensures LeBits(bits + [b]) == LeBits(bits) + b * Pow2(|bits|)
  {
    if bits != [] {
      assert (bits + [b])[1..] == bits[1..] + [b];
      LeBitsSnoc(bits[1..], b);
    }
  }

  lemma {:induction false} LeBitsBound(bits: seq<bit>)
    ensures LeBits(bits) < Pow2(|bits|)
  {
    if bits != [] {
      LeBitsBound(bits[1..]);
    }
  }

  /** (LeBits(bits) >> i) & 1 is bits[i], and 0 above the list. */
  lemma {:induction false} LeBitsAt(bits: seq<bit>, i: nat)
    ensures (LeBits(bits) / Pow2(i)) % 2 == if i < |bits| then bits[i] else 0
  {
    if bits == [] {
    } else if i == 0 {
      DivModUnique(LeBits(bits), 2, LeBits(bits[1..]), bits[0]);
    } else {
      LeBitsAt(bits[1..], i - 1);
      DivModUnique(LeBits(bits), 2, LeBits(bits[1..]), bits[0]);
      TestBitHalf(LeBits(bits), i);
    }
  }

  // ---------------------------------------------------------------------
  // Big-endian byte strings: s[0] is the most significant byte.

  /** int.from_bytes(s, 'big') */
  function BeValue(s: seq<byte>): nat
  {
    if s == [] then 0 else BeValue(s[..|s| - 1]) * 256 + s[|s| - 1]
  }

  /** v.to_bytes(n, 'big'), for v < 2^(8n); higher bytes are dropped otherwise. */
  function ToBe(v: nat, n: nat): (r: seq<byte>)
    ensures |r| == n
  {
    if n == 0 then [] else ToBe(v / 256, n - 1) + [v % 256]
  }

  lemma {:induction false} BeValueBound(s: seq<byte>)
    ensures BeValue(s) < Pow2(8 * |s|)
  {
    if s != [] {
      BeValueBound(s[..|s| - 1]);
      Pow2Add(8 * (|s| - 1), 8);
      assert Pow2(8) == 256;
    }
  }

  lemma {:induction false} ToBeBeValue(s: seq<byte>)
    ensures ToBe(BeValue(s), |s|) == s
  {
    if s != [] {
      var init := s[..|s| - 1];
      DivModUnique(BeValue(s), 256, BeValue(init), s[|s| - 1]);
      ToBeBeValue(init);
      assert s == init + [s[|s| - 1]];
    }
  }

  /** A two-byte big-endian field: s[0] is the high byte. */
  lemma BeValuePair(s: seq<byte>)
    requires |s| == 2
    ensures BeValue(s) == s[0] as int * 256 + s[1] as int
  {
    var head := s[..1];
    assert head[..0] == [];
    assert BeValue(head) == s[0] as int;
  }

  /** Reading back v.to_bytes(n, 'big') gives v when it fits in n bytes. */
  lemma BeValueToBeFits(v: nat, n: nat)
    requires v < Pow2(8 * n)
    ensures BeValue(ToBe(v, n)) == v
  {
    BeValueToBe(v, n);
    DivModUnique(v, Pow2(8 * n), 0, v);
  }

  /** The value of v.to_bytes(n, 'big') is v mod 2^(8n). */
  lemma {:induction false} BeValueToBe(v: nat, n: nat)
    ensures BeValue(ToBe(v, n)) == v % Pow2(8 * n)
  {
    if n > 0 {
      var t := ToBe(v, n);
      assert t[..n - 1] == ToBe(v / 256, n - 1);
      BeValueToBe(v / 256, n - 1);
      Pow2Add(8, 8 * (n - 1));
      assert Pow2(8) == 256;
      DivDiv(v, 256, Pow2(8 * (n - 1)));
    }
  }

  // ---------------------------------------------------------------------
  // Bits of unbounded non-negative integers.

  /** (x >> i) & 1 == 1 */
  predicate TestBit(x: nat, i: nat)
  {
    (x / Pow2(i)) % 2 == 1
  }

  /** bin(x).count('1') */
  function PopCount(x: nat): nat
  {
    if x == 0 then 0 else x % 2 + PopCount(x / 2)
  }

  /** x.bit_length() */
  function BitLength(x: nat): nat
  {
    if x == 0 then 0 else 1 + BitLength(x / 2)
  }

  /** a | b */
  function BitOr(a: nat, b: nat): nat
    decreases a + b
  {
    if a == 0 then b
    else if b == 0 then a
    else 2 * BitOr(a / 2, b / 2) + (if a % 2 == 1 || b % 2 == 1 then 1 else 0)
  }

  /** 2^k - 1 is odd and halves to 2^(k-1) - 1. */
  lemma LowMaskHalf(k: nat)
    requires k > 0
    ensures (Pow2(k) - 1) / 2 == Pow2(k - 1) - 1 && (Pow2(k) - 1) % 2 == 1
  {
    DivModUnique(Pow2(k) - 1, 2, Pow2(k - 1) - 1, 1);
  }

  lemma {:induction false} PopCountLowMask(k: nat)
    ensures PopCount(Pow2(k) - 1) == k
  {
    if k > 0 {
      LowMaskHalf(k);
      PopCountLowMask(k - 1);
    }
  }

  lemma {:induction false} BitLengthLowMask(k: nat)
    ensures BitLength(Pow2(k) - 1) == k
  {
    if k > 0 {
      LowMaskHalf(k);
      BitLengthLowMask(k - 1);
    }
  }

  /** An all-ones mask is exactly the mask of its own bit length. */
  lemma LowMaskUnique(x: nat)
    ensures (exists k: nat :: x == Pow2(k) - 1) <==> x == Pow2(BitLength(x)) - 1
  {
    if exists k: nat :: x == Pow2(k) - 1 {
      var k: nat :| x == Pow2(k) - 1;
      BitLengthLowMask(k);
    }
  }

  /** Bit i > 0 of x is bit i - 1 of x >> 1. */
  lemma TestBitHalf(x: nat, i: nat)
    requires i > 0
    ensures TestBit(x, i) <==> TestBit(x / 2, i - 1)
  {
    Pow2Add(1, i - 1);
    DivDiv(x, 2, Pow2(i - 1));
  }

  /** Bit i of 2^k - 1 is set exactly for i < k. */
  lemma {:induction false} LowMaskBit(k: nat, i: nat)
    ensures TestBit(Pow2(k) - 1, i) <==> i < k
  {
    if k == 0 {
      ZeroBit(i);
    } else if i == 0 {
      assert TestBit(Pow2(k) - 1, 0) by {
        LowMaskHalf(k);
      }
    } else {
      assert TestBit(Pow2(k - 1) - 1, i - 1) <==> i - 1 < k - 1 by {
        LowMaskBit(k - 1, i - 1);
      }
      LowMaskBitStep(k, i);
    }
  }

  lemma ZeroBit(i: nat)
    ensures !TestBit(0, i)
  {
  }

  lemma LowMaskBitStep(k: nat, i: nat)
    requires k > 0 && i > 0
    ensures TestBit(Pow2(k) - 1, i) <==> TestBit(Pow2(k - 1) - 1, i - 1)
  {
    TestBitHalf(Pow2(k) - 1, i);
    LowMaskHalf(k);
  }

  /** Bit j of a << m is bit j - m of a, and clear below m. */
  lemma {:induction false} ShiftBit(a: nat, m: nat, j: nat)
    ensures TestBit(a * Pow2(m), j) <==> j >= m && TestBit(a, j - m)
  {
    if m == 0 {
    } else if j == 0 {
      assert a * Pow2(m) == 2 * (a * Pow2(m - 1));
    } else {
      TestBitHalf(a * Pow2(m), j);
      assert a * Pow2(m) == 2 * (a * Pow2(m - 1));
      ShiftBit(a, m - 1, j - 1);
    }
  }

  lemma {:induction false} BitOrComm(a: nat, b: nat)
    ensures BitOr(a, b) == BitOr(b, a)
    decreases a + b
  {
    if a != 0 && b != 0 {
      BitOrComm(a / 2, b / 2);
    }
  }

  /**
   * OR-ing a value into bits that are all clear is addition: when lo < 2^k,
   * (hi << k) | lo == (hi << k) + lo.
   */
  lemma {:induction false} OrDisjoint(hi: nat, lo: nat, k: nat)
    requires lo < Pow2(k)
    ensures BitOr(hi * Pow2(k), lo) == hi * Pow2(k) + lo
  {
    if k == 0 || hi == 0 || lo == 0 {
    } else {
      var h := hi * Pow2(k);
      assert h == 2 * (hi * Pow2(k - 1));
      assert h / 2 == hi * Pow2(k - 1) && h % 2 == 0;
      assert lo / 2 < Pow2(k - 1);
      OrDisjoint(hi, lo / 2, k - 1);
    }
  }

  /** The same fact with the clear bits on the left-hand operand. */
  lemma OrDisjointLow(lo: nat, hi: nat, k: nat)
    requires lo < Pow2(k)
    ensures BitOr(lo, hi * Pow2(k)) == hi * Pow2(k) + lo
  {
    BitOrComm(lo, hi * Pow2(k));
    OrDisjoint(hi, lo, k);
  }

  /** Shifting both operands shifts the OR: (x << k) | (y << k) == (x | y) << k. */
  lemma {:induction false} BitOrShift(x: nat, y: nat, k: nat)
    ensures BitOr(x * Pow2(k), y * Pow2(k)) == BitOr(x, y) * Pow2(k)
  {
    if k > 0 {
      BitOrShift(x, y, k - 1);
      BitOrShiftStep(x, y, Pow2(k - 1), Pow2(k));
    }
  }

  /** The step of BitOrShift: from a scale p to the scale 2p. */
  lemma BitOrShiftStep(x: nat, y: nat, p: nat, q: nat)
    requires q == 2 * p && BitOr(x * p, y * p) == BitOr(x, y) * p
    ensures BitOr(x * q, y * q) == BitOr(x, y) * q
  {
    var o := BitOr(x, y);
    ProductIsNat(x, p);
    ProductIsNat(y, p);
    ProductIsNat(o, p);
    ProductIsNat(x, q);
    ProductIsNat(y, q);
    ProductIsNat(o, q);
    assert x * q == 2 * (x * p) by {
      DoubleScale(x, p);
    }
    assert y * q == 2 * (y * p) by {
      DoubleScale(y, p);
    }
    assert o * q == 2 * (o * p) by {
      DoubleScale(o, p);
    }
    BitOrDoubled(x * p, y * p, o * p, x * q, y * q, o * q);
  }

  /** Doubling both operands of an OR doubles the result. */
  lemma BitOrDoubled(a: nat, b: nat, c: nat, a2: nat, b2: nat, c2: nat)
    requires BitOr(a, b) == c && a2 == 2 * a && b2 == 2 * b && c2 == 2 * c
    ensures BitOr(a2, b2) == c2
  {
    if a != 0 && b != 0 {
      BitOrDouble(a, b);
    }
  }

  lemma DoubleScale(x: nat, p: nat)
    ensures x * (2 * p) == 2 * (x * p)
  {
  }

  lemma BitOrDouble(a: nat, b: nat)
    requires a != 0 && b != 0
    ensures BitOr(2 * a, 2 * b) == 2 * BitOr(a, b)
  {
    assert (2 * a) / 2 == a && (2 * b) / 2 == b && (2 * a) % 2 == 0 && (2 * b) % 2 == 0;
  }
}
