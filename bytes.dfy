/** Bytes, fixed-width big-endian integers (java.io.DataOutput's writeShort
    and writeLong layout) and the decimal text that Long.toString produces. */
module Bytes {

  type byte = x: int | 0 <= x < 256

  /** 256^w, the number of values a w-byte unsigned field can hold. */
  function Pow256(w: nat): (r: nat)
    ensures r >= 1
    ensures w >= 1 ==> r >= 256
  {
    if w == 0 then 1 else 256 * Pow256(w - 1)
  }

  /** The w low-order bytes of n, most significant first. */
  function BigEndian(n: nat, w: nat): (r: seq<byte>)
    requires n < Pow256(w)
    ensures |r| == w
    ensures FromBigEndian(r) == n
  {
    if w == 0 then []
    else
      DivideBound(n, Pow256(w - 1));
      var init := BigEndian(n / 256, w - 1);
      assert (init + [n % 256])[..w - 1] == init;
      init + [n % 256]
  }

  lemma DivideByteOff(q: nat, b: byte)
    ensures (q * 256 + b) / 256 == q && (q * 256 + b) % 256 == b
  {
  }

  lemma DivideBound(n: nat, k: nat)
    requires n < 256 * k
    ensures n / 256 < k
  {
  }

  /** The unsigned value of a big-endian byte string. */
  function FromBigEndian(s: seq<byte>): (n: nat)
    ensures n < Pow256(|s|)
  {
    if s == [] then 0
    else FromBigEndian(s[..|s| - 1]) * 256 + s[|s| - 1]
  }

  /** Reading back a big-endian field gives the same bytes: the byte string
      is determined by its value and width. */
  lemma {:induction false} BigEndianOfValue(s: seq<byte>)
    ensures BigEndian(FromBigEndian(s), |s|) == s
  {
    if s != [] {
      var init := s[..|s| - 1];
      BigEndianOfValue(init);
      DivideByteOff(FromBigEndian(init), s[|s| - 1]);
      assert s == init + [s[|s| - 1]];
    }
  }

  /** Text as bytes, for the 7-bit characters of literals such as "true". */
  function Ascii(s: string): (r: seq<byte>)
    requires forall i :: 0 <= i < |s| ==> s[i] as int < 128
    ensures |r| == |s|
    ensures forall i :: 0 <= i < |s| ==> r[i] == s[i] as int
  {
    if s == [] then [] else [s[0] as int] + Ascii(s[1..])
  }

  const MINUS: byte := 45
  const ZERO_DIGIT: byte := 48

  predicate IsDigit(b: byte) { ZERO_DIGIT <= b < ZERO_DIGIT + 10 }

  /** The decimal digits of n with no leading zero. */
  function Digits(n: nat): (r: seq<byte>)
    ensures |r| >= 1
    ensures forall i :: 0 <= i < |r| ==> IsDigit(r[i])
    ensures n > 0 ==> r[0] != ZERO_DIGIT
    decreases n
  {
    if n < 10 then [ZERO_DIGIT + n]
    else Digits(n / 10) + [ZERO_DIGIT + n % 10]
  }

  /** Long.toString: a minus sign for negative values, then the digits. */
  function DecimalText(n: int): (r: seq<byte>)
    ensures |r| >= 1
    ensures (r[0] == MINUS) <==> n < 0
  {
    if n < 0 then [MINUS] + Digits(-n) else Digits(n)
  }

  /** The value of a string of decimal digits. */
  function DigitsValue(s: seq<byte>): nat
    requires forall i :: 0 <= i < |s| ==> IsDigit(s[i])
  {
    if s == [] then 0
    else
      assert IsDigit(s[|s| - 1]);
      DigitsValue(s[..|s| - 1]) * 10 + (s[|s| - 1] as int - ZERO_DIGIT as int)
  }

  /** The reading of decimal text that inverts DecimalText. */
  function ParseDecimal(s: seq<byte>): int
    requires |s| >= 1
    requires forall i :: (if s[0] == MINUS then 1 else 0) <= i < |s| ==> IsDigit(s[i])
  {
    if s[0] == MINUS then -(DigitsValue(s[1..]) as int) else DigitsValue(s)
  }

  lemma {:induction false} DigitsRoundTrip(n: nat)
    ensures DigitsValue(Digits(n)) == n
    decreases n
  {
    if n >= 10 {
      DigitsRoundTrip(n / 10);
      var d := Digits(n);
      assert d[..|d| - 1] == Digits(n / 10);
    }
  }

  /** Decimal text round trip: the text Long.toString gives reads back as
      the same number. */
  lemma DecimalRoundTrip(n: int)
    ensures forall i :: (if DecimalText(n)[0] == MINUS then 1 else 0) <= i < |DecimalText(n)| ==> IsDigit(DecimalText(n)[i])
    ensures ParseDecimal(DecimalText(n)) == n
  {
    if n < 0 {
      DigitsRoundTrip(-n);
      assert DecimalText(n)[1..] == Digits(-n);
    } else {
      DigitsRoundTrip(n);
    }
  }
}
