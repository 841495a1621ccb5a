/** Tuple.compareTo and Tuple.hashCode.  compareTo is lexicographic over
    the common prefix, then shorter-first.  At an index where the two
    fields differ in type it compares the first field's class name with
    itself, so such a pair counts as equal; CompareFixed is the order that
    compares the two class names as evidently intended. */
module TupleOrder {
  import opened Bytes
  import opened Doubles
  import opened TupleFields

  /** String.compareTo: the difference of the first differing units, or
      else of the lengths. */
  function StringCompare(a: seq<byte>, b: seq<byte>): (r: int)
    ensures r == 0 <==> a == b
    ensures r < 0 <==> StringBefore(a, b)
  {
    if a == [] || b == [] then |a| - |b|
    else if a[0] != b[0] then a[0] - b[0]
    else
      assert a == [a[0]] + a[1..] && b == [b[0]] + b[1..];
      StringCompare(a[1..], b[1..])
  }

  /** a is strictly before b in String.compareTo's order. */
  predicate StringBefore(a: seq<byte>, b: seq<byte>) {
    if a == [] || b == [] then |a| < |b|
    else if a[0] != b[0] then a[0] < b[0]
    else StringBefore(a[1..], b[1..])
  }

  lemma {:induction false} StringOrder(a: seq<byte>, b: seq<byte>, c: seq<byte>)
    ensures StringCompare(a, b) < 0 <==> StringCompare(b, a) > 0
    ensures StringCompare(a, b) <= 0 && StringCompare(b, c) <= 0 ==> StringCompare(a, c) <= 0
  {
    if a != [] && b != [] && c != [] && a[0] == b[0] == c[0] {
      StringOrder(a[1..], b[1..], c[1..]);
    } else if a != [] && b != [] && a[0] == b[0] {
      StringOrder(a[1..], b[1..], []);
    }
  }

  /** Boolean.compareTo: false before true. */
  function BooleanCompare(a: bool, b: bool): int {
    if a == b then 0 else if a then 1 else -1
  }

  /** The comparison of two fields of the same type, as compareTo makes it. */
  function SameTypeCompare(a: Field, b: Field): int
    requires SameType(a, b)
  {
    match a
    case DoubleField(x) => Doubles.Compare(x, b.d)
    case StringField(x) => StringCompare(x, b.s)
    case BooleanField(x) => BooleanCompare(x, b.b)
  }

  /** One step of compareTo's loop as written (Tuple.java line 148 compares
      a's class name with itself, which is always 0). */
  function FieldCompare(a: Field, b: Field): int {
    if SameType(a, b) then SameTypeCompare(a, b) else 0
  }

  /** Tuple.compareTo as written. */
  function Compare(x: seq<Field>, y: seq<Field>): (r: int)
    ensures r == 0 ==> |x| == |y|
  {
    if x == [] || y == [] then (if |x| < |y| then -1 else if |x| == |y| then 0 else 1)
    else
      var c := FieldCompare(x[0], y[0]);
      if c != 0 then c else Compare(x[1..], y[1..])
  }

  /** The first unit in which the class names "class java.lang.Boolean",
      "class java.lang.Double" and "class java.lang.String" differ ('B',
      'D', 'S'), less 'B': String.compareTo of two of these names is the
      difference of their ranks. */
  function ClassRank(f: Field): int {
    match f
    case BooleanField(_) => 0
    case DoubleField(_) => 2
    case StringField(_) => 17
  }

  /** One step of compareTo's loop with the two class names compared. */
  function FieldCompareFixed(a: Field, b: Field): (r: int)
    ensures r == 0 <==> a == b
  {
    if SameType(a, b) then SameTypeCompare(a, b) else ClassRank(a) - ClassRank(b)
  }

  function CompareFixed(x: seq<Field>, y: seq<Field>): (r: int)
    ensures r == 0 ==> |x| == |y|
  {
    if x == [] || y == [] then (if |x| < |y| then -1 else if |x| == |y| then 0 else 1)
    else
      var c := FieldCompareFixed(x[0], y[0]);
      if c != 0 then c else CompareFixed(x[1..], y[1..])
  }

  lemma FieldOrderFixed(a: Field, b: Field, c: Field)
    ensures FieldCompareFixed(a, b) < 0 <==> FieldCompareFixed(b, a) > 0
    ensures FieldCompareFixed(a, b) <= 0 && FieldCompareFixed(b, c) <= 0 ==> FieldCompareFixed(a, c) <= 0
  {
    if a.StringField? && b.StringField? && c.StringField? {
      StringOrder(a.s, b.s, c.s);
    } else if a.StringField? && b.StringField? {
      StringOrder(a.s, b.s, a.s);
    } else if b.StringField? && c.StringField? {
      StringOrder(b.s, c.s, b.s);
    } else if a.StringField? && c.StringField? {
      StringOrder(a.s, c.s, a.s);
    }
  }

  /** The corrected compareTo is 0 exactly on equal tuples. */
  lemma {:induction false} CompareFixedZeroIffEqual(x: seq<Field>, y: seq<Field>)
    ensures CompareFixed(x, y) == 0 <==> x == y
  {
    if x != [] && y != [] {
      CompareFixedZeroIffEqual(x[1..], y[1..]);
      assert x == [x[0]] + x[1..] && y == [y[0]] + y[1..];
    }
  }

  /** The corrected compareTo is antisymmetric and transitive: with
      CompareFixedZeroIffEqual, a total order on all tuples. */
  lemma {:induction false} CompareFixedTotalOrder(x: seq<Field>, y: seq<Field>, z: seq<Field>)
    ensures CompareFixed(x, y) < 0 <==> CompareFixed(y, x) > 0
    ensures CompareFixed(x, y) <= 0 && CompareFixed(y, z) <= 0 ==> CompareFixed(x, z) <= 0
  {
    if x != [] && y != [] && z != [] {
      FieldOrderFixed(x[0], y[0], z[0]);
      FieldOrderFixed(y[0], x[0], z[0]);
      FieldOrderFixed(x[0], z[0], y[0]);
      CompareFixedTotalOrder(x[1..], y[1..], z[1..]);
    } else if x != [] && y != [] {
      FieldOrderFixed(x[0], y[0], x[0]);
      CompareFixedTotalOrder(x[1..], y[1..], []);
    }
  }

  /** Two tuples whose field types agree at every index both have. */
  predicate Aligned(x: seq<Field>, y: seq<Field>) {
    forall i :: 0 <= i < |x| && i < |y| ==> SameType(x[i], y[i])
  }

  /** On aligned tuples compareTo as written agrees with the corrected one. */
  lemma {:induction false} AlignedCompareAgrees(x: seq<Field>, y: seq<Field>)
    requires Aligned(x, y)
    ensures Compare(x, y) == CompareFixed(x, y)
  {
    if x != [] && y != [] {
      assert SameType(x[0], y[0]);
      assert Aligned(x[1..], y[1..]) by {
        forall i | 0 <= i < |x[1..]| && i < |y[1..]| ensures SameType(x[1..][i], y[1..][i]) {
          assert SameType(x[i + 1], y[i + 1]);
        }
      }
      AlignedCompareAgrees(x[1..], y[1..]);
    }
  }

  /** compareTo(t, t) == 0. */
  lemma CompareReflexive(t: seq<Field>)
    ensures Compare(t, t) == 0
  {
    assert Aligned(t, t);
    AlignedCompareAgrees(t, t);
    CompareFixedZeroIffEqual(t, t);
  }

  /** For tuples whose field types line up index by index, compareTo as
      written is a total order: 0 exactly on equal tuples, antisymmetric and
      transitive. */
  lemma AlignedTotalOrder(x: seq<Field>, y: seq<Field>, z: seq<Field>)
    requires Aligned(x, y) && Aligned(y, z) && Aligned(x, z)
    ensures Compare(x, y) == 0 <==> x == y
    ensures Compare(x, y) < 0 <==> Compare(y, x) > 0
    ensures Compare(x, y) <= 0 && Compare(y, z) <= 0 ==> Compare(x, z) <= 0
  {
    AlignedCompareAgrees(x, y);
    AlignedCompareAgrees(y, x);
    AlignedCompareAgrees(y, z);
    AlignedCompareAgrees(x, z);
    CompareFixedZeroIffEqual(x, y);
    CompareFixedTotalOrder(x, y, z);
  }

  /** After an equal common prefix the shorter tuple sorts first. */
  lemma {:induction false} PrefixSortsFirst(x: seq<Field>, more: seq<Field>)
    requires more != []
    ensures Compare(x, x + more) == -1 && Compare(x + more, x) == 1
  {
    if x != [] {
      assert SameType(x[0], x[0]);
      assert FieldCompareFixed(x[0], x[0]) == 0;
      assert (x + more)[1..] == x[1..] + more;
      PrefixSortsFirst(x[1..], more);
    }
  }

  /** a and b are the same 32-bit int: they agree modulo 2^32. */
  predicate Congruent32(a: int, b: int) {
    (a - b) % TWO_32 == 0
  }

  lemma CongruentRewrite(a: int, b: int, c: int)
    requires Congruent32(a, b) && b == c
    ensures Congruent32(a, c)
  {
  }

  /** A 32-bit int's arithmetic: wrap-around to two's complement. */
  function Wrap32(x: int): Int32 {
    Signed32(x % TWO_32)
  }

  /** Wrapping keeps the value modulo 2^32. */
  lemma WrapIsCongruent(x: int)
    ensures Congruent32(Wrap32(x), x)
  {
  }

  function Pow31(n: nat): (r: nat)
    ensures r >= 1
  {
    if n == 0 then 1 else 31 * Pow31(n - 1)
  }

  /** x[0]*31^(n-1) + ... + x[n-1], in unbounded arithmetic. */
  function Polynomial(x: seq<int>): int {
    if x == [] then 0 else x[0] * Pow31(|x| - 1) + Polynomial(x[1..])
  }

  /** Horner's step: one more coefficient multiplies the rest by 31. */
  lemma {:induction false} PolynomialSnoc(x: seq<int>, c: int)
    ensures Polynomial(x + [c]) == 31 * Polynomial(x) + c
  {
    if x != [] {
      var n := |x|;
      assert (x + [c])[1..] == x[1..] + [c];
      PolynomialSnoc(x[1..], c);
      assert x[0] * Pow31(n) == 31 * (x[0] * Pow31(n - 1));
    }
  }

  /** The hashing loops' recurrence h := 31 * h + c from `start`, without
      the 32-bit wrap-around. */
  function Horner(start: int, x: seq<int>): int {
    if x == [] then start else 31 * Horner(start, x[..|x| - 1]) + x[|x| - 1]
  }

  /** The starting value's share of the unwrapped loop, start*31^n. */
  function Leading(start: int, n: nat): int {
    start * Pow31(n)
  }

  /** Unwrapped, the loop computes start*31^n + x[0]*31^(n-1) + ... + x[n-1]. */
  lemma {:induction false} HornerIsPolynomial(start: int, x: seq<int>)
    ensures Horner(start, x) == Leading(start, |x|) + Polynomial(x)
  {
    if x != [] {
      var init := x[..|x| - 1];
      assert init + [x[|x| - 1]] == x;
      HornerIsPolynomial(start, init);
      PolynomialSnoc(init, x[|x| - 1]);
      assert Leading(start, |x|) == 31 * Leading(start, |init|);
    }
  }

  /** Congruence modulo 2^32 survives one Horner step: if h agrees with p
      and r with 31 * h + c, then r agrees with 31 * p + c. */
  lemma HornerCongruent(h: int, p: int, c: int, r: int)
    requires Congruent32(h, p) && Congruent32(r, 31 * h + c)
    ensures Congruent32(r, 31 * p + c)
  {
    var q := (h - p) / TWO_32;
    var q' := (r - (31 * h + c)) / TWO_32;
    assert h - p == TWO_32 * q;
    assert r - (31 * h + c) == TWO_32 * q';
    assert r - (31 * p + c) == TWO_32 * (q' + 31 * q);
  }

  /** The loop of String.hashCode and ArrayList.hashCode: h := 31 * h + x[i]
      from `start`, in 32-bit int arithmetic. */
  function HashLoop(start: Int32, x: seq<int>): Int32 {
    if x == [] then start else Wrap32(31 * HashLoop(start, x[..|x| - 1]) + x[|x| - 1])
  }

  /** Wrapping at every step agrees modulo 2^32 with running the loop
      without wrap-around. */
  lemma {:induction false} HashLoopAgreesWithHorner(start: Int32, x: seq<int>)
    ensures Congruent32(HashLoop(start, x), Horner(start, x))
  {
    if x != [] {
      var init := x[..|x| - 1];
      HashLoopAgreesWithHorner(start, init);
      WrapIsCongruent(31 * HashLoop(start, init) + x[|x| - 1]);
      HornerCongruent(HashLoop(start, init), Horner(start, init), x[|x| - 1], HashLoop(start, x));
    }
  }

  /** The hash loop gives start*31^n + x[0]*31^(n-1) + ... + x[n-1] modulo
      2^32. */
  lemma LoopIsPolynomial(start: Int32, x: seq<int>)
    ensures Congruent32(HashLoop(start, x), Leading(start, |x|) + Polynomial(x))
  {
    HashLoopAgreesWithHorner(start, x);
    HornerIsPolynomial(start, x);
    CongruentRewrite(HashLoop(start, x), Horner(start, x), Leading(start, |x|) + Polynomial(x));
  }

  /** String.hashCode: the loop over the units from 0. */
  function StringHash(s: seq<byte>): Int32 {
    HashLoop(0, s)
  }

  /** String.hashCode is s[0]*31^(n-1) + ... + s[n-1] in int arithmetic. */
  lemma StringHashIsPolynomial(s: seq<byte>)
    ensures Congruent32(StringHash(s), Polynomial(s))
  {
    LoopIsPolynomial(0, s);
    CongruentRewrite(HashLoop(0, s), Leading(0, |s|) + Polynomial(s), Polynomial(s));
  }

  /** Double.hashCode, String.hashCode and Boolean.hashCode (1231, 1237). */
  function FieldHash(f: Field): Int32 {
    match f
    case DoubleField(d) => Doubles.Hash(d)
    case StringField(s) => StringHash(s)
    case BooleanField(b) => if b then 1231 else 1237
  }

  /** The hash codes of the fields, in order. */
  function FieldHashes(fs: seq<Field>): (r: seq<int>)
    ensures |r| == |fs|
  {
    if fs == [] then [] else FieldHashes(fs[..|fs| - 1]) + [FieldHash(fs[|fs| - 1])]
  }

  /** Tuple.hashCode, which is ArrayList.hashCode: the loop over the
      fields' hash codes from 1. */
  function Hash(fs: seq<Field>): Int32 {
    HashLoop(1, FieldHashes(fs))
  }

  /** Tuple.hashCode is 31^n + hash(e0)*31^(n-1) + ... + hash(e(n-1)) in
      int arithmetic, where n = |FieldHashes(fs)| = |fs|. */
  lemma HashIsPolynomial(fs: seq<Field>)
    ensures Congruent32(Hash(fs), Pow31(|FieldHashes(fs)|) + Polynomial(FieldHashes(fs)))
  {
    LoopFromOne(FieldHashes(fs));
  }

  /** The loop from 1, as ArrayList.hashCode runs it. */
  lemma LoopFromOne(x: seq<int>)
    ensures Congruent32(HashLoop(1, x), Pow31(|x|) + Polynomial(x))
  {
    LoopIsPolynomial(1, x);
    CongruentRewrite(HashLoop(1, x), Leading(1, |x|) + Polynomial(x), Pow31(|x|) + Polynomial(x));
  }

  /** For aligned tuples, compareTo == 0 implies equal hash codes, so the
      grouping order and the hash partitioning agree. */
  lemma AlignedEqualKeysHashAlike(x: seq<Field>, y: seq<Field>)
    requires Aligned(x, y) && Compare(x, y) == 0
    ensures Hash(x) == Hash(y)
  {
    AlignedTotalOrder(x, y, y);
  }

  /** With the class names compared, tuples that compareTo calls equal
      always have the same hashCode. */
  lemma CompareFixedAgreesWithHash(x: seq<Field>, y: seq<Field>)
    requires CompareFixed(x, y) == 0
    ensures Hash(x) == Hash(y)
  {
    CompareFixedZeroIffEqual(x, y);
  }

  /** The discrepancy of Tuple.java line 148: ["b"] ~ [0.0] ~ ["a"] all
      compare 0 to their neighbour while ["b"] > ["a"], so "compares equal"
      is not transitive; and ["a"] and [true] compare equal although their
      hash codes differ. */
  lemma CrossTypeCompareIsNotAnOrder()
    ensures Compare([StringField([98])], [DoubleField(0)]) == 0
    ensures Compare([DoubleField(0)], [StringField([97])]) == 0
    ensures Compare([StringField([98])], [StringField([97])]) == 1
    ensures Compare([StringField([97])], [BooleanField(true)]) == 0
    ensures Hash([StringField([97])]) != Hash([BooleanField(true)])
  {
    assert [StringField([98])][1..] == [];
    assert StringCompare([98], [97]) == 1;
    HashesOfAAndTrue();
  }

  /** hashCode of ["a"] is 31 + 97 and of [true] is 31 + 1231. */
  lemma HashesOfAAndTrue()
    ensures Hash([StringField([97])]) == 128
    ensures Hash([BooleanField(true)]) == 1262
  {
    HashOfOne(StringField([97]), 97);
    HashOfOne(BooleanField(true), 1231);
  }

  /** A one-field tuple hashes to 31 + the field's hash, when that stays
      below 2^31 - 31. */
  lemma HashOfOne(f: Field, h: int)
    requires FieldHash(f) == h && 0 <= h < TWO_31 - 31
    ensures Hash([f]) == 31 + h
  {
    assert [f][..0] == [];
    assert FieldHashes([f]) == [h];
    LoopOfOne(h);
  }

  lemma LoopOfOne(h: int)
    requires 0 <= h < TWO_31 - 31
    ensures HashLoop(1, [h]) == 31 + h
  {
    assert [h][..0] == [];
    assert (31 + h) % TWO_32 == 31 + h;
  }

  /** The corrected order separates what the written one confuses. */
  lemma CorrectedOrderSeparatesTypes()
    ensures CompareFixed([StringField([98])], [DoubleField(0)]) == 15
    ensures CompareFixed([DoubleField(0)], [StringField([97])]) == -15
    ensures CompareFixed([StringField([97])], [BooleanField(true)]) == 17
  {
  }
}
