/** A Java double, seen through the operations of the bridge that touch it:
    Double.compare, Double.hashCode, the `d.longValue() == d` test of
    Tuple.toString and the widening of an Integer to a Double.  A double is
    represented by the 64-bit pattern Double.doubleToLongBits gives for it,
    under which every NaN is the one canonical NaN; writeDouble, compareTo
    and hashCode all observe a double through that same image. */
module Doubles {
  import opened Wrappers

  const TWO_31: int := 0x8000_0000
  const TWO_32: int := 0x1_0000_0000
  const TWO_52: int := 0x10_0000_0000_0000
  const TWO_63: int := 0x8000_0000_0000_0000
  const TWO_64: int := 0x1_0000_0000_0000_0000
  const EXPONENT_ALL_ONES: int := 2047
  const CANONICAL_NAN: int := 0x7ff8_0000_0000_0000

  type Bits64 = b: int | 0 <= b < TWO_64

  /** A Java int (the payload of a java.lang.Integer). */
  type Int32 = i: int | -TWO_31 <= i < TWO_31

  predicate Negative(b: Bits64) { b >= TWO_63 }

  /** The 11-bit biased exponent field. */
  function Exponent(b: Bits64): (e: nat)
    ensures e < 2048
  {
    (b / TWO_52) % 2048
  }

  /** The 52-bit fraction field. */
  function Fraction(b: Bits64): (f: nat)
    ensures f < TWO_52
  {
    b % TWO_52
  }

  predicate IsNaN(b: Bits64) { Exponent(b) == EXPONENT_ALL_ONES && Fraction(b) != 0 }

  predicate IsCanonical(b: Bits64) { !IsNaN(b) || b == CANONICAL_NAN }

  /** A double, as its doubleToLongBits image. */
  type Double = b: Bits64 | IsCanonical(b)

  lemma CanonicalNaNIsNaN()
    ensures IsNaN(CANONICAL_NAN)
  {
    assert CANONICAL_NAN == (0 * TWO_63 + EXPONENT_ALL_ONES * TWO_52 + TWO_52 / 2) as Bits64;
    FieldsOf(0, EXPONENT_ALL_ONES, TWO_52 / 2);
  }

  /** Double.longBitsToDouble followed by doubleToLongBits: what readDouble
      hands back for an arbitrary 8-byte pattern. */
  function Canonicalize(b: Bits64): (d: Double)
    ensures IsCanonical(b) ==> d == b
    ensures IsNaN(b) ==> IsNaN(d)
  {
    CanonicalNaNIsNaN();
    if IsNaN(b) then CANONICAL_NAN else b
  }

  /** The position of a double in Double.compare's order: numeric order,
      with -0.0 below 0.0 and NaN above positive infinity.  On the bit
      pattern this is the signed 64-bit value with the 63 magnitude bits
      flipped when the sign bit is set. */
  function OrderKey(d: Double): (k: int)
    ensures Negative(d) <==> k < 0
  {
    if Negative(d) then TWO_63 - 1 - d else d
  }

  /** Double.compare, which Double.compareTo delegates to. */
  function Compare(a: Double, b: Double): (r: int)
    ensures r == -1 || r == 0 || r == 1
    ensures r == 0 <==> a == b
    ensures r < 0 <==> OrderKey(a) < OrderKey(b)
  {
    if OrderKey(a) < OrderKey(b) then -1
    else if OrderKey(a) == OrderKey(b) then 0
    else 1
  }

  /** -0.0 sorts before 0.0, though the two are numerically equal. */
  lemma NegativeZeroFirst()
    ensures Compare(TWO_63 as Double, 0 as Double) == -1
  {
    assert Exponent(TWO_63) == 0;
  }

  /** A positive pattern above the canonical NaN is another NaN. */
  lemma AboveCanonicalNaN(b: Bits64)
    ensures CANONICAL_NAN < b < TWO_63 ==> IsNaN(b) && b != CANONICAL_NAN
  {
    if CANONICAL_NAN < b < TWO_63 {
      var r := b - EXPONENT_ALL_ONES * TWO_52;
      assert TWO_52 / 2 < r < TWO_52;
      assert b / TWO_52 == EXPONENT_ALL_ONES;
      assert Fraction(b) == r;
    }
  }

  /** NaN sorts after every other double, positive infinity included. */
  lemma NaNLast(d: Double)
    requires d != CANONICAL_NAN as Double
    ensures Compare(d, CANONICAL_NAN as Double) == -1
  {
    AboveCanonicalNaN(d);
    assert IsCanonical(d);
    assert OrderKey(CANONICAL_NAN as Double) == CANONICAL_NAN;
    assert OrderKey(d) < CANONICAL_NAN;
  }

  /** Double.compare is a total order: antisymmetric and transitive. */
  lemma CompareIsTotalOrder(a: Double, b: Double, c: Double)
    ensures Compare(a, b) == -Compare(b, a)
    ensures Compare(a, b) <= 0 && Compare(b, c) <= 0 ==> Compare(a, c) <= 0
  {
  }

  /** A Java int of 32 bits, as the two's complement value it denotes. */
  function Signed32(x: int): (r: Int32)
    requires 0 <= x < TWO_32
    ensures r % TWO_32 == x
  {
    if x < TWO_31 then x else x - TWO_32
  }

  /** Double.hashCode: the int of `bits ^ (bits >>> 32)`, the xor of the
      two 32-bit halves, so equal halves cancel. */
  function Hash(d: Double): (r: Int32)
    ensures d % TWO_32 == d / TWO_32 ==> r == 0
  {
    var low := d % TWO_32;
    var high := d / TWO_32;
    var x := (low as bv32) ^ (high as bv32);
    assert low == high ==> x == 0;
    Signed32(x as int)
  }

  function Pow2(n: nat): (r: nat)
    ensures r >= 1
  {
    if n == 0 then 1 else 2 * Pow2(n - 1)
  }

  lemma {:induction false} Pow2Add(a: nat, b: nat)
    ensures Pow2(a + b) == Pow2(a) * Pow2(b)
  {
    if a > 0 {
      Pow2Add(a - 1, b);
    }
  }

  lemma {:induction false} Pow2Monotone(a: nat, b: nat)
    requires a <= b
    ensures Pow2(a) <= Pow2(b)
  {
    if a < b {
      Pow2Monotone(a, b - 1);
    }
  }

  lemma Pow2_16()
    ensures Pow2(4) == 16 && Pow2(16) == 0x1_0000
  {
    assert Pow2(4) == 16;
    Pow2Add(4, 4);
    Pow2Add(8, 8);
  }

  lemma Pow2_32()
    ensures Pow2(32) == TWO_32
  {
    Pow2_16();
    Pow2Add(16, 16);
  }

  lemma Pow2_52()
    ensures Pow2(52) == TWO_52
  {
    Pow2_16();
    Pow2_32();
    Pow2Add(32, 16);
    Pow2Add(48, 4);
  }

  /** The magnitude of a double that holds an integral value: None for the
      infinities, NaN and any value with a fractional part. */
  function IntegralMagnitude(d: Double): Option<nat>
  {
    var e := Exponent(d);
    var f := Fraction(d);
    if e == EXPONENT_ALL_ONES then None
    else
      var m := if e == 0 then f else f + TWO_52;
      if e >= 1075 then Some(m * Pow2(e - 1075))
      else
        ShiftOutZeros(m, if e == 0 then 1074 else 1075 - e)
  }

  /** The long that Tuple.toString prints for `d` when `d.longValue() == d`
      holds, and None when that test fails.  longValue truncates and
      saturates, and the comparison widens the long back to a double, so
      2^63 passes the test and prints as Long.MAX_VALUE. */
  function ExactLong(d: Double): (r: Option<int>)
    ensures r.Some? ==> -TWO_63 <= r.value < TWO_63
  {
    match IntegralMagnitude(d)
    case None => None
    case Some(v) =>
      var sv := if Negative(d) then -(v as int) else v;
      if -TWO_63 <= sv < TWO_63 then Some(sv)
      else if sv == TWO_63 then Some(TWO_63 - 1)
      else None
  }

  /** The bit pattern assembled from a sign, a biased exponent and a
      fraction has exactly those fields. */
  lemma FieldsOf(s: nat, e: nat, f: nat)
    requires s < 2 && e < 2048 && f < TWO_52
    ensures 0 <= s * TWO_63 + e * TWO_52 + f < TWO_64
    ensures Exponent(s * TWO_63 + e * TWO_52 + f) == e
    ensures Fraction(s * TWO_63 + e * TWO_52 + f) == f
    ensures Negative(s * TWO_63 + e * TWO_52 + f) <==> s == 1
  {
    var b := s * TWO_63 + e * TWO_52 + f;
    assert b == (s * 2048 + e) * TWO_52 + f;
    assert b / TWO_52 == s * 2048 + e;
    assert b % TWO_52 == f;
  }

  /** The bit pattern with the given sign bit, biased exponent and
      fraction. */
  function Assemble(s: nat, e: nat, f: nat): (b: Bits64)
    requires s < 2 && e < 2048 && f < TWO_52
    ensures Exponent(b) == e && Fraction(b) == f
    ensures Negative(b) <==> s == 1
  {
    FieldsOf(s, e, f);
    s * TWO_63 + e * TWO_52 + f
  }

  /** floor(log2 m). */
  function Log2(m: nat): (p: nat)
    requires m >= 1
    ensures Pow2(p) <= m < Pow2(p + 1)
  {
    if m == 1 then 0 else Log2(m / 2) + 1
  }

  /** `new Double(i)` for a Java int: the widening conversion, exact for
      every 32-bit value. */
  function FromInt32(i: Int32): (d: Double)
    ensures ExactLong(d) == Some(i as int)
    ensures i == 0 ==> d == 0
  {
    if i == 0 then
      ZeroIsExact(0);
      0
    else
      var m: nat := if i < 0 then -(i as int) else i;
      var s := if i < 0 then 1 else 0;
      var p := Log2(m);
      var f := NormalFraction(m, p);
      var b := Assemble(s, p + 1023, f);
      IntegralOfNormal(s, p + 1023, f, m);
      assert ExactLong(b) == Some(i as int);
      b
  }

  /** Positive zero holds the integer 0. */
  lemma ZeroIsExact(z: Double)
    requires z == 0
    ensures ExactLong(z) == Some(0)
  {
    assert Exponent(z) == 0;
    ShiftOutOfZero(Fraction(z), 1074);
    assert IntegralMagnitude(z) == Some(0);
    assert !Negative(z);
  }

  /** The fraction field of a normal double holding the integer m, whose
      leading bit is bit p. */
  function NormalFraction(m: nat, p: nat): (f: nat)
    requires 1 <= m <= TWO_31 && p == Log2(m)
    ensures p <= 31
    ensures f < TWO_52
    ensures f + TWO_52 == m * Pow2(52 - p)
  {
    LeadingBitBound(m, p);
    FractionBounds(m, p);
    (m - Pow2(p)) * Pow2(52 - p)
  }

  lemma LeadingBitBound(m: nat, p: nat)
    requires 1 <= m <= TWO_31 && p == Log2(m)
    ensures p <= 31
  {
    if p > 31 {
      Pow2Monotone(32, p);
      Pow2_32();
    }
  }

  lemma FractionBounds(m: nat, p: nat)
    requires 1 <= m && p == Log2(m) && p <= 52
    ensures 0 <= (m - Pow2(p)) * Pow2(52 - p) < TWO_52
    ensures (m - Pow2(p)) * Pow2(52 - p) + TWO_52 == m * Pow2(52 - p)
  {
    var unit := Pow2(52 - p);
    var top := Pow2(p);
    Pow2Add(p, 52 - p);
    Pow2_52();
    assert top * unit == TWO_52;
    assert top < Pow2(p + 1) == 2 * top;
    MultiplyStrict(m - top, top, unit);
    Distribute(m - top, top, unit);
    NonNegativeProduct(m - top, unit);
  }

  lemma MultiplyStrict(a: nat, b: nat, k: nat)
    requires a < b && k >= 1
    ensures a * k < b * k
  {
  }

  lemma NonNegativeProduct(a: nat, b: nat)
    ensures a * b >= 0
  {
  }

  lemma Distribute(a: nat, b: nat, k: nat)
    ensures a * k + b * k == (a + b) * k
  {
  }

  /** A normal double whose significand is m shifted left by 1075 - e holds
      the integer m. */
  lemma IntegralOfNormal(s: nat, e: nat, f: nat, m: nat)
    requires s < 2 && 1 <= e < 1075 && f < TWO_52
    requires f + TWO_52 == m * Pow2(1075 - e)
    ensures IsCanonical(Assemble(s, e, f)) && IntegralMagnitude(Assemble(s, e, f)) == Some(m)
  {
    ShiftOutMultiple(m, 1075 - e);
  }

  /** m / 2^n when the n low-order bits of m are zero, else None. */
  function ShiftOutZeros(m: nat, n: nat): (r: Option<nat>)
    ensures r.Some? ==> r.value * Pow2(n) == m
  {
    if n == 0 then Some(m)
    else if m % 2 != 0 then None
    else
      ShiftOutZeros(m / 2, n - 1)
  }

  lemma {:induction false} ShiftOutOfZero(m: nat, n: nat)
    requires m == 0
    ensures ShiftOutZeros(m, n) == Some(0)
  {
    if n > 0 {
      ShiftOutOfZero(m / 2, n - 1);
    }
  }

  lemma {:induction false} ShiftOutMultiple(m: nat, n: nat)
    ensures ShiftOutZeros(m * Pow2(n), n) == Some(m)
  {
    if n > 0 {
      var x := m * Pow2(n - 1);
      assert m * Pow2(n) == 2 * x;
      ShiftOutMultiple(m, n - 1);
    }
  }
}
