/** The fields a Tuple holds: each element of its ArrayList is a Double, a
    String or a Boolean. */
module TupleFields {
  import opened Bytes
  import opened Doubles

  datatype Field = DoubleField(d: Double) | StringField(s: seq<byte>) | BooleanField(b: bool)

  /** The most bytes DataOutput.writeUTF accepts for one string. */
  const MAX_UTF_LENGTH: nat := 65535

  predicate SameType(a: Field, b: Field) {
    || (a.DoubleField? && b.DoubleField?)
    || (a.StringField? && b.StringField?)
    || (a.BooleanField? && b.BooleanField?)
  }

  /** writeUTF can write the field: a string is at most 65535 bytes long. */
  predicate Writable(f: Field) {
    f.StringField? ==> |f.s| <= MAX_UTF_LENGTH
  }

  predicate AllWritable(fs: seq<Field>) {
    forall i :: 0 <= i < |fs| ==> Writable(fs[i])
  }
}
