/** The binary form of a Tuple (Tuple.write and Tuple.readFields): each
    field is a tag byte and a payload written through java.io.DataOutput,
    and a 0 byte ends the tuple.  The tag numbers are the element type bytes
    of BSON (0x01 double, 0x02 string, 0x08 boolean, 0x00 end); the payloads
    are DataOutput's, not BSON's: writeDouble is the 8 bytes of the bit
    pattern most significant first, writeUTF a 2-byte big-endian length and
    then the bytes, writeBoolean one byte. */
module TupleCodec {
  import opened Bytes
  import opened Doubles
  import opened TupleFields
  import opened Wrappers

  const END: byte := 0
  const DOUBLE: byte := 1
  const STRING: byte := 2
  const BOOLEAN: byte := 8

  predicate IsTag(b: byte) { b == END || b == DOUBLE || b == STRING || b == BOOLEAN }

  function TagOf(f: Field): byte {
    match f
    case DoubleField(_) => DOUBLE
    case StringField(_) => STRING
    case BooleanField(_) => BOOLEAN
  }

  /** The tag byte and the payload of one field. */
  function FieldBytes(f: Field): (r: seq<byte>)
    requires Writable(f)
    ensures |r| >= 2 && r[0] == TagOf(f)
  {
    match f
    case DoubleField(d) => [DOUBLE] + BigEndian(d, 8)
    case StringField(s) => [STRING] + BigEndian(|s|, 2) + s
    case BooleanField(b) => [BOOLEAN, if b then 1 else 0]
  }

  /** What write puts on the stream, and whether it finished.  writeUTF
      refuses a string over 65535 bytes after its tag byte has been
      written, and the exception ends the write there. */
  datatype Encoded = Encoded(bytes: seq<byte>, ok: bool)

  function Encode(fs: seq<Field>): (r: Encoded)
    ensures r.ok <==> AllWritable(fs)
  {
    if fs == [] then Encoded([END], true)
    else if !Writable(fs[0]) then Encoded([STRING], false)
    else
      var rest := Encode(fs[1..]);
      Encoded(FieldBytes(fs[0]) + rest.bytes, rest.ok)
  }

  /** The fields' encodings one after another. */
  function Concat(fs: seq<Field>): seq<byte>
    requires AllWritable(fs)
  {
    if fs == [] then [] else FieldBytes(fs[0]) + Concat(fs[1..])
  }

  /** write emits every field in order, tag then payload, and then exactly
      one END byte; the empty tuple is the single byte 0. */
  lemma {:induction false} EncodeLayout(fs: seq<Field>)
    requires AllWritable(fs)
    ensures Encode(fs).bytes == Concat(fs) + [END]
  {
    if fs != [] {
      EncodeLayout(fs[1..]);
      AppendAssoc(FieldBytes(fs[0]), Concat(fs[1..]), [END]);
    }
  }

  lemma AppendAssoc(a: seq<byte>, b: seq<byte>, c: seq<byte>)
    ensures a + (b + c) == (a + b) + c
  {
  }

  /** The encodings of two tuples written side by side are the encoding of
      the joined tuple: each field's bytes depend on that field alone. */
  lemma {:induction false} ConcatAppend(xs: seq<Field>, ys: seq<Field>)
    requires AllWritable(xs) && AllWritable(ys)
    ensures AllWritable(xs + ys)
    ensures Concat(xs + ys) == Concat(xs) + Concat(ys)
  {
    var all := xs + ys;
    assert forall i :: 0 <= i < |all| ==> all[i] == if i < |xs| then xs[i] else ys[i - |xs|];
    if xs == [] {
      assert all == ys;
    } else {
      assert all[0] == xs[0] && all[1..] == xs[1..] + ys;
      ConcatAppend(xs[1..], ys);
      AppendAssoc(FieldBytes(xs[0]), Concat(xs[1..]), Concat(ys));
    }
  }

  /** What readFields leaves in the tuple: the fields it read, how many
      bytes it took from the stream, and whether it reached the END byte
      (otherwise the stream ran out and it threw EOFException). */
  datatype Decoded = Decoded(fields: seq<Field>, consumed: nat, complete: bool)

  /** `n` bytes holding field `f`, followed by what `d` read. */
  function Prepend(f: Field, n: nat, d: Decoded): Decoded {
    Decoded([f] + d.fields, n + d.consumed, d.complete)
  }

  /** `n` bytes that add no field, followed by what `d` read. */
  function Skip(n: nat, d: Decoded): Decoded {
    Decoded(d.fields, n + d.consumed, d.complete)
  }

  /** `n` bytes holding `field` (or no field), followed by what `d` read. */
  function Extend(field: Option<Field>, n: nat, d: Decoded): Decoded {
    match field
    case Some(f) => Prepend(f, n, d)
    case None => Skip(n, d)
  }

  /** What one pass of readFields' loop finds at the head of the stream:
      the END byte, a stream that runs out (EOFException), or an element
      of `size` bytes that holds a field, or none for an unknown tag. */
  datatype Element = EndOfTuple | Truncated | Item(field: Option<Field>, size: nat)

  /** One element.  An unknown tag byte is passed over without reading a
      payload; a double is read back through Double.longBitsToDouble,
      which is where a NaN pattern becomes the canonical NaN; any boolean
      byte other than 0 reads as true. */
  function NextElement(bs: seq<byte>): (e: Element)
    ensures e.Item? ==> 1 <= e.size <= |bs|
    ensures e == EndOfTuple ==> |bs| >= 1 && bs[0] == END
  {
    if |bs| == 0 then Truncated
    else if bs[0] == END then EndOfTuple
    else if bs[0] == DOUBLE then
      if |bs| < 9 then Truncated
      else Item(Some(DoubleField(Canonicalize(FromBigEndian(bs[1..9])))), 9)
    else if bs[0] == STRING then
      if |bs| < 3 then Truncated
      else
        var len := FromBigEndian(bs[1..3]);
        if |bs| < 3 + len then Truncated
        else Item(Some(StringField(bs[3..3 + len])), 3 + len)
    else if bs[0] == BOOLEAN then
      if |bs| < 2 then Truncated
      else Item(Some(BooleanField(bs[1] != 0)), 2)
    else Item(None, 1)
  }

  /** readFields over the bytes remaining in the stream. */
  function Decode(bs: seq<byte>): (r: Decoded)
    ensures r.consumed <= |bs|
    ensures !r.complete ==> r.consumed == |bs|
    ensures r.complete ==> r.consumed >= 1 && bs[r.consumed - 1] == END
    decreases |bs|
  {
    match NextElement(bs)
    case EndOfTuple => Decoded([], 1, true)
    case Truncated => Decoded([], |bs|, false)
    case Item(f, n) => Extend(f, n, Decode(bs[n..]))
  }

  /** Bytes appended to the stream do not change an element already
      wholly present. */
  lemma NextElementExtends(bs: seq<byte>, more: seq<byte>)
    requires NextElement(bs) != Truncated
    ensures NextElement(bs + more) == NextElement(bs)
  {
    var all := bs + more;
    assert all[0] == bs[0];
    if bs[0] == DOUBLE {
      assert all[1..9] == bs[1..9];
    } else if bs[0] == STRING {
      assert all[1..3] == bs[1..3];
      var len := FromBigEndian(bs[1..3]);
      assert all[3..3 + len] == bs[3..3 + len];
    } else if bs[0] == BOOLEAN {
      assert all[1] == bs[1];
    }
  }

  /** Round trip: reading back what write produced gives the same fields,
      takes exactly the written bytes and leaves whatever follows them in
      the stream (the value tuple after the key tuple, say). */
  lemma {:induction false} RoundTrip(fs: seq<Field>, rest: seq<byte>)
    requires AllWritable(fs)
    ensures Decode(Encode(fs).bytes + rest) == Decoded(fs, |Encode(fs).bytes|, true)
  {
    if fs != [] {
      var tail := Encode(fs[1..]).bytes + rest;
      RoundTrip(fs[1..], rest);
      AppendAssoc(FieldBytes(fs[0]), Encode(fs[1..]).bytes, rest);
      DecodeField(fs[0], tail);
      assert [fs[0]] + fs[1..] == fs;
    } else {
      assert (Encode(fs).bytes + rest)[0] == END;
    }
  }

  /** One written field reads back as itself, taking exactly its bytes. */
  lemma DecodeField(f: Field, tail: seq<byte>)
    requires Writable(f)
    ensures Decode(FieldBytes(f) + tail) == Prepend(f, |FieldBytes(f)|, Decode(tail))
  {
    var bs := FieldBytes(f) + tail;
    match f
    case DoubleField(d) =>
      assert bs[1..9] == BigEndian(d, 8);
      assert bs[9..] == tail;
    case StringField(s) =>
      assert bs[1..3] == BigEndian(|s|, 2);
      assert bs[3..3 + |s|] == s;
      assert bs[3 + |s|..] == tail;
    case BooleanField(b) =>
      assert bs[2..] == tail;
  }

  /** readFields stops at the first END byte: bytes after it are never
      looked at. */
  lemma {:induction false} SelfDelimiting(bs: seq<byte>, more: seq<byte>)
    requires Decode(bs).complete
    ensures Decode(bs + more) == Decode(bs)
    decreases |bs|
  {
    NextElementExtends(bs, more);
    match NextElement(bs)
    case EndOfTuple =>
    case Item(f, n) =>
      assert (bs + more)[n..] == bs[n..] + more;
      SelfDelimiting(bs[n..], more);
  }

  /** An unrecognised tag byte is skipped without reading a payload and
      without an error: any run of such bytes changes nothing but the byte
      count. */
  lemma {:induction false} UnknownTagsSkipped(junk: seq<byte>, bs: seq<byte>)
    requires forall i :: 0 <= i < |junk| ==> !IsTag(junk[i])
    ensures Decode(junk + bs) == Skip(|junk|, Decode(bs))
  {
    if junk != [] {
      UnknownTagsSkipped(junk[1..], bs);
      assert (junk + bs)[1..] == junk[1..] + bs;
    } else {
      assert junk + bs == bs;
    }
  }
}
