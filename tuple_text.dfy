/** Tuple.toString: the fields joined by commas.  A double that equals its
    own longValue() prints as that long; any other double prints as Java's
    Double.toString text, which is a parameter here. */
module TupleText {
  import opened Wrappers
  import opened Bytes
  import opened Doubles
  import opened TupleFields

  const COMMA: byte := 44

  /** The text of one field. */
  function FieldText(f: Field, doubleText: Double -> seq<byte>): (r: seq<byte>)
    ensures f.StringField? ==> r == f.s
    ensures f.BooleanField? ==> |r| == (if f.b then 4 else 5)
    ensures f.DoubleField? && ExactLong(f.d).Some? ==>
      |r| >= 1 && (forall i :: (if r[0] == MINUS then 1 else 0) <= i < |r| ==> IsDigit(r[i]))
      && ParseDecimal(r) == ExactLong(f.d).value
  {
    match f
    case DoubleField(d) =>
      (match ExactLong(d)
       case Some(n) => DecimalRoundTrip(n); DecimalText(n)
       case None => doubleText(d))
    case StringField(s) => s
    case BooleanField(b) => if b then Ascii("true") else Ascii("false")
  }

  /** The text of every field, in order. */
  function Texts(fs: seq<Field>, doubleText: Double -> seq<byte>): (r: seq<seq<byte>>)
    ensures |r| == |fs|
    ensures forall i :: 0 <= i < |fs| ==> r[i] == FieldText(fs[i], doubleText)
  {
    if fs == [] then [] else [FieldText(fs[0], doubleText)] + Texts(fs[1..], doubleText)
  }

  /** Pieces joined with one comma between neighbours. */
  function Join(ts: seq<seq<byte>>): seq<byte> {
    if ts == [] then []
    else if |ts| == 1 then ts[0]
    else ts[0] + [COMMA] + Join(ts[1..])
  }

  /** The comma-separated text of a tuple. */
  function Render(fs: seq<Field>, doubleText: Double -> seq<byte>): (r: seq<byte>)
    ensures fs == [] ==> r == []
    ensures |fs| == 1 ==> r == FieldText(fs[0], doubleText)
  {
    Join(Texts(fs, doubleText))
  }

  /** Joining two non-empty lists of pieces puts one comma between them. */
  lemma {:induction false} JoinAppend(xs: seq<seq<byte>>, ys: seq<seq<byte>>)
    requires xs != [] && ys != []
    ensures Join(xs + ys) == Join(xs) + [COMMA] + Join(ys)
  {
    var all := xs + ys;
    assert all[0] == xs[0];
    if |xs| == 1 {
      assert all[1..] == ys;
    } else {
      assert all[1..] == xs[1..] + ys;
      JoinAppend(xs[1..], ys);
    }
  }

  /** The rendering of two non-empty tuples side by side is their
      renderings with one comma between. */
  lemma RenderAppend(xs: seq<Field>, ys: seq<Field>, doubleText: Double -> seq<byte>)
    requires xs != [] && ys != []
    ensures Render(xs + ys, doubleText) == Render(xs, doubleText) + [COMMA] + Render(ys, doubleText)
  {
    assert Texts(xs + ys, doubleText) == Texts(xs, doubleText) + Texts(ys, doubleText);
    JoinAppend(Texts(xs, doubleText), Texts(ys, doubleText));
  }

  /** One more field: a comma, unless it is the first, then its text. */
  lemma RenderSnoc(fs: seq<Field>, f: Field, doubleText: Double -> seq<byte>)
    ensures Render(fs + [f], doubleText) == if fs == [] then FieldText(f, doubleText) else Render(fs, doubleText) + [COMMA] + FieldText(f, doubleText)
  {
    if fs == [] {
      assert fs + [f] == [f];
    } else {
      RenderAppend(fs, [f], doubleText);
    }
  }

  predicate NoComma(t: seq<byte>) {
    forall k :: 0 <= k < |t| ==> t[k] != COMMA
  }

  /** The pieces of a byte string between its commas. */
  function SplitAtCommas(s: seq<byte>): (r: seq<seq<byte>>)
    ensures |r| >= 1
  {
    if s == [] then [[]]
    else if s[0] == COMMA then [[]] + SplitAtCommas(s[1..])
    else
      var p := SplitAtCommas(s[1..]);
      [[s[0]] + p[0]] + p[1..]
  }

  lemma {:induction false} SplitPlainPrefix(t: seq<byte>, rest: seq<byte>)
    requires NoComma(t)
    ensures var p := SplitAtCommas(rest);
      SplitAtCommas(t + rest) == [t + p[0]] + p[1..]
  {
    var p := SplitAtCommas(rest);
    if t == [] {
      assert t + rest == rest;
      assert t + p[0] == p[0];
      assert [p[0]] + p[1..] == p;
    } else {
      assert (t + rest)[0] == t[0];
      assert (t + rest)[1..] == t[1..] + rest;
      SplitPlainPrefix(t[1..], rest);
      assert [t[0]] + (t[1..] + p[0]) == t + p[0];
    }
  }

  /** Reading the text back: when no piece holds a comma, cutting the
      joined text at its commas gives the pieces again. */
  lemma {:induction false} SplitJoin(ts: seq<seq<byte>>)
    requires ts != []
    requires forall i :: 0 <= i < |ts| ==> NoComma(ts[i])
    ensures SplitAtCommas(Join(ts)) == ts
  {
    if |ts| == 1 {
      SplitPlainPrefix(ts[0], []);
      assert ts[0] + [] == ts[0];
      assert [ts[0]] == ts;
    } else {
      var tail := Join(ts[1..]);
      SplitJoin(ts[1..]);
      assert ts[0] + [COMMA] + tail == ts[0] + ([COMMA] + tail);
      assert ([COMMA] + tail)[1..] == tail;
      SplitPlainPrefix(ts[0], [COMMA] + tail);
      assert ts[0] + [] == ts[0];
      assert [ts[0]] + ts[1..] == ts;
    }
  }

  /** When no field's text holds a comma, cutting a tuple's text at its
      commas gives each field's text, in order. */
  lemma RenderSplitsBack(fs: seq<Field>, doubleText: Double -> seq<byte>)
    requires fs != []
    requires forall i :: 0 <= i < |fs| ==> NoComma(FieldText(fs[i], doubleText))
    ensures SplitAtCommas(Render(fs, doubleText)) == Texts(fs, doubleText)
  {
    SplitJoin(Texts(fs, doubleText));
  }

  /** Booleans print as true and false; a double holding an integer, such
      as one made from a java.lang.Integer, prints with no decimal point. */
  lemma FieldTextCases(i: Int32, doubleText: Double -> seq<byte>)
    ensures FieldText(BooleanField(true), doubleText) == Ascii("true")
    ensures FieldText(BooleanField(false), doubleText) == Ascii("false")
    ensures FieldText(DoubleField(FromInt32(i)), doubleText) == DecimalText(i)
  {
  }

  /** ["alpha", 3.0, true] prints as alpha,3,true, for any double `three`
      holding 3.0 (FieldTextCases: the one made from the Integer 3). */
  lemma RenderExample(three: Double, doubleText: Double -> seq<byte>)
    requires ExactLong(three) == Some(3)
    ensures Render([StringField([97, 108, 112, 104, 97]), DoubleField(three), BooleanField(true)], doubleText)
         == [97, 108, 112, 104, 97, COMMA, 51, COMMA, 116, 114, 117, 101]
  {
    var t := Ascii("true");
    assert t == [116, 114, 117, 101] by {
      assert |t| == 4 && t[0] == 116 && t[1] == 114 && t[2] == 117 && t[3] == 101;
    }
    assert DecimalText(3) == [51];
    var fs := [StringField([97, 108, 112, 104, 97]), DoubleField(three), BooleanField(true)];
    assert Texts(fs, doubleText) == [[97, 108, 112, 104, 97], [51], t];
    JoinThree([97, 108, 112, 104, 97], [51], t);
  }

  lemma JoinThree(a: seq<byte>, b: seq<byte>, c: seq<byte>)
    ensures Join([a, b, c]) == a + [COMMA] + b + [COMMA] + c
  {
    assert [a, b, c][1..] == [b, c];
    assert [b, c][1..] == [c];
    assert Join([b, c]) == b + [COMMA] + c;
    assert Join([a, b, c]) == a + [COMMA] + (b + [COMMA] + c);
  }
}
