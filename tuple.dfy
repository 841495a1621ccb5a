/** Tuple, the Hadoop key and value class: an ordered list of Double,
    String and Boolean fields that the methods below update in place. */
module Tuples {
  import opened Wrappers
  import opened Bytes
  import opened Doubles
  import opened JsValues
  import opened TupleFields
  import opened TupleCodec
  import TupleOrder
  import opened TupleText

  /** The fields add(Object) appends for a script value: one field for a
      String, Double or Boolean, a Double for an Integer, and nothing for
      any other value (null, undefined, arrays, objects, functions). */
  function Supported(v: JsValue): (r: seq<Field>)
    ensures |r| <= 1
  {
    match v
    case Str(s) => [StringField(s)]
    case Num(d) => [DoubleField(d)]
    case Int(i) => [DoubleField(FromInt32(i))]
    case Bool(b) => [BooleanField(b)]
    case _ => []
  }

  /** add(Object) keeps exactly the scalar values and drops the rest. */
  lemma SupportedCases(v: JsValue)
    ensures |Supported(v)| == 1 <==> (v.Str? || v.Num? || v.Int? || v.Bool?)
    ensures v.Int? ==> Supported(v) == [DoubleField(FromInt32(v.i))] && ExactLong(Supported(v)[0].d) == Some(v.i as int)
    ensures v.Array? ==> Supported(v) == []
  {
  }

  /** The script value a field becomes when handed to a function. */
  function FieldValue(f: Field): (v: JsValue)
    ensures Supported(v) == [f]
  {
    match f
    case DoubleField(d) => Num(d)
    case StringField(s) => Str(s)
    case BooleanField(b) => Bool(b)
  }

  function FieldValues(fs: seq<Field>): (r: seq<JsValue>)
    ensures |r| == |fs|
    ensures forall i :: 0 <= i < |fs| ==> r[i] == FieldValue(fs[i])
  {
    if fs == [] then [] else [FieldValue(fs[0])] + FieldValues(fs[1..])
  }

  /** toParams: null for no field, the bare element for one, and a script
      array of all the fields for more. */
  function Params(fs: seq<Field>): (v: JsValue)
    ensures fs == [] <==> v == Null
    ensures |fs| == 1 ==> v == FieldValue(fs[0])
    ensures |fs| > 1 ==> v.Array? && |v.elems| == |fs| && forall i :: 0 <= i < |fs| ==> Supported(v.elems[i]) == [fs[i]]
  {
    if fs == [] then Null
    else if |fs| == 1 then FieldValue(fs[0])
    else Array(FieldValues(fs))
  }

  /** The fields add(Object) appends for each value in turn. */
  function SupportedAll(vs: seq<JsValue>): seq<Field> {
    if vs == [] then [] else SupportedAll(vs[..|vs| - 1]) + Supported(vs[|vs| - 1])
  }

  /** Adding back the values of a tuple's fields rebuilds the tuple. */
  lemma {:induction false} SupportedFieldValues(fs: seq<Field>)
    ensures SupportedAll(FieldValues(fs)) == fs
  {
    if fs != [] {
      var init := fs[..|fs| - 1];
      var vs := FieldValues(fs);
      assert vs[..|vs| - 1] == FieldValues(init);
      SupportedFieldValues(init);
      assert init + [fs[|fs| - 1]] == fs;
    }
  }

  /** The fields `fs` already read from the first `n` bytes, followed by
      what reading the remaining bytes gives. */
  function Continue(fs: seq<Field>, n: nat, d: Decoded): Decoded {
    Decoded(fs + d.fields, n + d.consumed, d.complete)
  }

  /** One element read: the tuple grows by its field, if it holds one, and
      the stream moves past it. */
  lemma ReadStep(input: seq<byte>, fields: seq<Field>, rest: seq<byte>)
    requires |rest| <= |input| && NextElement(rest).Item?
    requires Decode(input) == Continue(fields, |input| - |rest|, Decode(rest))
    ensures var e := NextElement(rest);
      Decode(input) == Continue(if e.field.Some? then fields + [e.field.value] else fields, |input| - |rest[e.size..]|, Decode(rest[e.size..]))
  {
    var e := NextElement(rest);
    var d := Decode(rest[e.size..]);
    if e.field.Some? {
      assert fields + ([e.field.value] + d.fields) == fields + [e.field.value] + d.fields;
    }
  }

  /** write from field i on: the field's bytes and then the rest, or the
      lone tag byte of a string writeUTF refuses. */
  lemma EncodeFrom(fs: seq<Field>, i: nat)
    requires i < |fs|
    ensures Encode(fs[i..]) == if Writable(fs[i]) then Encoded(FieldBytes(fs[i]) + Encode(fs[i + 1..]).bytes, Encode(fs[i + 1..]).ok) else Encoded([STRING], false)
  {
    assert fs[i..][0] == fs[i] && fs[i..][1..] == fs[i + 1..];
  }

  /** One pass of write's loop: the tag byte, then the payload; for a
      string writeUTF refuses, only the tag byte was written.  This is the
      statement form of TupleCodec.FieldBytes, which it is proved to
      compute, so that Write's loop can be proved against Encode. */
  method WriteField(f: Field) returns (bytes: seq<byte>, ok: bool)
    ensures ok <==> Writable(f)
    ensures ok ==> bytes == FieldBytes(f)
    ensures !ok ==> bytes == [STRING]
  {
    match f
    case DoubleField(d) =>
      bytes, ok := [DOUBLE] + BigEndian(d, 8), true;
    case BooleanField(b) =>
      bytes, ok := [BOOLEAN, if b then 1 else 0], true;
    case StringField(s) =>
      bytes := [STRING];
      if |s| > MAX_UTF_LENGTH {
        return bytes, false;
      }
      bytes, ok := bytes + BigEndian(|s|, 2) + s, true;
  }

  /** One pass of readFields' loop: the tag byte, then the payload its
      tag calls for.  This is the statement form of TupleCodec.NextElement,
      which it is proved to compute, so that ReadFields' loop can be
      proved against Decode. */
  method ReadElement(rest: seq<byte>) returns (e: Element)
    ensures e == NextElement(rest)
  {
    if |rest| == 0 {
      return Truncated;
    }
    var key := rest[0];
    if key == END {
      return EndOfTuple;
    }
    if key == DOUBLE {
      if |rest| < 9 {
        return Truncated;
      }
      return Item(Some(DoubleField(Canonicalize(FromBigEndian(rest[1..9])))), 9);
    }
    if key == STRING {
      if |rest| < 3 {
        return Truncated;
      }
      var len := FromBigEndian(rest[1..3]);
      if |rest| < 3 + len {
        return Truncated;
      }
      return Item(Some(StringField(rest[3..3 + len])), 3 + len);
    }
    if key == BOOLEAN {
      if |rest| < 2 {
        return Truncated;
      }
      return Item(Some(BooleanField(rest[1] != 0)), 2);
    }
    return Item(None, 1);
  }

  class Tuple {
    var fields: seq<Field>

    constructor ()
      ensures fields == []
    {
      fields := [];
    }

    method Clear()
      modifies this
      ensures fields == []
    {
      fields := [];
    }

    method AddDouble(d: Double)
      modifies this
      ensures fields == old(fields) + [DoubleField(d)]
    {
      fields := fields + [DoubleField(d)];
    }

    method AddString(s: seq<byte>)
      modifies this
      ensures fields == old(fields) + [StringField(s)]
    {
      fields := fields + [StringField(s)];
    }

    method AddBoolean(b: bool)
      modifies this
      ensures fields == old(fields) + [BooleanField(b)]
    {
      fields := fields + [BooleanField(b)];
    }

    /** add(Object): the supported-type filter. */
    method Add(v: JsValue)
      modifies this
      ensures fields == old(fields) + Supported(v)
    {
      match v
      case Str(s) => AddString(s);
      case Num(d) => AddDouble(d);
      case Int(i) => AddDouble(FromInt32(i));
      case Bool(b) => AddBoolean(b);
      case _ =>
    }

    /** write: the bytes put on the stream, and whether every field was
        written (false when writeUTF refused a string and threw). */
    method Write() returns (out: seq<byte>, ok: bool)
      ensures Encode(fields) == Encoded(out, ok)
    {
      out := [];
      var i := 0;
      while i < |fields|
        invariant 0 <= i <= |fields|
        invariant Encode(fields) == Encoded(out + Encode(fields[i..]).bytes, Encode(fields[i..]).ok)
      {
        EncodeFrom(fields, i);
        var bytes, written := WriteField(fields[i]);
        if !written {
          return out + bytes, false;
        }
        AppendAssoc(out, bytes, Encode(fields[i + 1..]).bytes);
        out := out + bytes;
        i := i + 1;
      }
      assert fields[i..] == [];
      out := out + [END];
      ok := true;
    }

    /** readFields over the bytes left in the stream: clears the tuple,
        then adds the fields up to the END byte.  `complete` is false when
        the stream ran out first (EOFException); the fields read before
        that stay in the tuple. */
    method ReadFields(input: seq<byte>) returns (consumed: nat, complete: bool)
      modifies this
      ensures Decode(input) == Decoded(fields, consumed, complete)
    {
      fields := [];
      var rest := input;
      while true
        invariant |rest| <= |input|
        invariant Decode(input) == Continue(fields, |input| - |rest|, Decode(rest))
        decreases |rest|
      {
        var e := ReadElement(rest);
        match e {
          case EndOfTuple =>
            return |input| - |rest| + 1, true;
          case Truncated =>
            return |input|, false;
          case Item(f, n) =>
            ReadStep(input, fields, rest);
            if f.Some? {
              fields := fields + [f.value];
            }
            rest := rest[n..];
        }
      }
    }

    /** toString. */
    method ToString(doubleText: Double -> seq<byte>) returns (text: seq<byte>)
      ensures text == Render(fields, doubleText)
    {
      text := [];
      var i := 0;
      while i < |fields|
        invariant 0 <= i <= |fields|
        invariant text == Render(fields[..i], doubleText)
      {
        assert fields[..i + 1] == fields[..i] + [fields[i]];
        RenderSnoc(fields[..i], fields[i], doubleText);
        if i > 0 {
          text := text + [COMMA];
        }
        text := text + FieldText(fields[i], doubleText);
        i := i + 1;
      }
      assert fields[..i] == fields;
    }

    /** compareTo, with the two fields' class names compared at a
        cross-type index (TupleOrder.Compare is the order as written). */
    method CompareTo(that: Tuple) returns (r: int)
      ensures r == TupleOrder.CompareFixed(fields, that.fields)
    {
      var x := |fields|;
      var y := |that.fields|;
      var i := 0;
      while i < x && i < y
        invariant 0 <= i <= x && i <= y
        invariant TupleOrder.CompareFixed(fields, that.fields) == TupleOrder.CompareFixed(fields[i..], that.fields[i..])
      {
        var c := TupleOrder.FieldCompareFixed(fields[i], that.fields[i]);
        assert fields[i..][1..] == fields[i + 1..] && that.fields[i..][1..] == that.fields[i + 1..];
        if c != 0 {
          return c;
        }
        i := i + 1;
      }
      r := if x < y then -1 else if x == y then 0 else 1;
    }
  }
}
