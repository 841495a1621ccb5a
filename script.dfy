/** Script, the bridge between the user's JavaScript functions and Hadoop:
    calling a function, turning its result into key and value tuples,
    emitting records, and the text of the serialized job artifact. */
module Script {
  import opened Wrappers
  import opened Bytes
  import opened Doubles
  import opened JsValues
  import opened TupleFields
  import opened Tuples

  /** The errors that leave a bridge operation: a call through a null
      function (NullPointerException), a Rhino error other than a script
      exception, a result that is neither null, a generator nor an array
      (IOException), an empty result array (IndexOutOfBoundsException from
      element 0), and a hook property that is not a function
      (ClassCastException). */
  datatype Failure = NullFunction | ScriptError | BadResult | EmptyArray | ClassCast

  /** Something that can be called: a script function, or the `next`
      method of a generator positioned at its `index`-th pull. */
  datatype Callable = UserFunction(id: FunctionId) | GeneratorNext(pulls: seq<Outcome>, index: nat)

  /** What one call produces.  A generator past its last pull throws
      StopIteration, which is a JavaScriptException. */
  function Invoke(engine: Engine, c: Callable, receiver: Receiver, args: seq<JsValue>): Outcome {
    match c
    case UserFunction(id) => engine(id, receiver, args)
    case GeneratorNext(pulls, i) => if i < |pulls| then pulls[i] else Thrown
  }

  /** callFunction: a missing receiver means the global scope, undefined
      becomes null and a script exception becomes a null result; any
      other engine error, and a call through a null function, escape. */
  function CallFunction(engine: Engine, f: Option<Callable>, thisObj: Option<Receiver>, args: seq<JsValue>): (r: Result<JsValue, Failure>)
    ensures f.None? ==> r == Err(NullFunction)
    ensures r.Ok? ==> r.value != Undefined
    ensures f.Some? ==> (r.Err? <==> Invoke(engine, f.value, if thisObj.Some? then thisObj.value else GlobalScope, args).Failed?)
  {
    match f
    case None => Err(NullFunction)
    case Some(c) =>
      match Invoke(engine, c, if thisObj.Some? then thisObj.value else GlobalScope, args)
      case Returned(v) => Ok(if v == Undefined then Null else v)
      case Thrown => Ok(Null)
      case Failed => Err(ScriptError)
  }

  /** The three normalisations of callFunction, one per clause. */
  lemma CallFunctionNormalises(engine: Engine, c: Callable, args: seq<JsValue>)
    ensures CallFunction(engine, Some(c), None, args) == CallFunction(engine, Some(c), Some(GlobalScope), args)
    ensures Invoke(engine, c, GlobalScope, args) == Returned(Undefined) ==> CallFunction(engine, Some(c), None, args) == Ok(Null)
    ensures Invoke(engine, c, GlobalScope, args) == Thrown ==> CallFunction(engine, Some(c), None, args) == Ok(Null)
    ensures forall v :: Invoke(engine, c, GlobalScope, args) == Returned(v) && v != Undefined ==> CallFunction(engine, Some(c), None, args) == Ok(v)
  {
  }

  /** The index of the first property with the given name, or the number
      of properties when none has it. */
  function FirstNamed(props: seq<Property>, name: seq<byte>): (k: nat)
    ensures k <= |props|
    ensures forall j :: 0 <= j < k ==> props[j].name != name
    ensures k < |props| ==> props[k].name == name
  {
    if props == [] || props[0].name == name then 0
    else
      var k := FirstNamed(props[1..], name);
      assert forall j :: 1 <= j < k + 1 ==> props[j] == props[1..][j - 1];
      k + 1
  }

  /** The value of an object's property, or null when it has none. */
  function GetProperty(props: seq<Property>, name: seq<byte>): (r: JsValue)
    ensures var k := FirstNamed(props, name); r == if k < |props| then props[k].value else Null
  {
    if props == [] then Null
    else if props[0].name == name then props[0].value
    else
      GetProperty(props[1..], name)
  }

  /** With distinct names, each property reads back as its own value, so
      `get` and the `name:text,` entries of serialize agree. */
  lemma DistinctNamesReadBack(props: seq<Property>, i: nat)
    requires DistinctNames(props) && i < |props|
    ensures GetProperty(props, props[i].name) == props[i].value
  {
    var k := FirstNamed(props, props[i].name);
    assert k <= i;
    assert props[k].name == props[i].name;
  }

  /** The fields one element of a result array contributes: a nested array
      is spliced in element by element, anything else is added as is. */
  function Spliced(v: JsValue): seq<Field> {
    if v.Array? then SupportedAll(v.elems) else Supported(v)
  }

  function SplicedAll(vs: seq<JsValue>): seq<Field> {
    if vs == [] then [] else SplicedAll(vs[..|vs| - 1]) + Spliced(vs[|vs| - 1])
  }

  /** The key tuple of a result array: its element 0, spliced. */
  function KeyFields(elems: seq<JsValue>): seq<Field>
    requires elems != []
  {
    Spliced(elems[0])
  }

  /** The value tuple of a result array: elements 1 onwards, each spliced. */
  function ValueFields(elems: seq<JsValue>): seq<Field>
    requires elems != []
  {
    SplicedAll(elems[1..])
  }

  /** Splicing is one level deep: `[k, v1, v2]` of scalars gives key `[k]`
      and value `[v1, v2]`, a nested array contributes its scalars, and an
      array inside a nested array contributes nothing. */
  lemma SplicingOneLevel(k: JsValue, v1: JsValue, v2: JsValue, inner: seq<JsValue>)
    requires !k.Array? && !v1.Array? && !v2.Array?
    ensures KeyFields([k, v1, v2]) == Supported(k)
    ensures ValueFields([k, v1, v2]) == Supported(v1) + Supported(v2)
    ensures KeyFields([Array([k, v1])]) == Supported(k) + Supported(v1)
    ensures Spliced(Array([Array(inner)])) == []
  {
    assert [k, v1, v2][1..] == [v1, v2];
    assert [v1, v2][..1] == [v1];
    assert [v1][..0] == [];
    assert [k, v1][..1] == [k];
    assert [k][..0] == [];
    assert [Array(inner)][..0] == [];
    assert SupportedAll([Array(inner)]) == [];
    assert SplicedAll([v1]) == Spliced(v1);
    assert SplicedAll([v1, v2]) == SplicedAll([v1]) + Spliced(v2);
    assert SupportedAll([k]) == Supported(k);
    assert SupportedAll([k, v1]) == SupportedAll([k]) + Supported(v1);
  }

  /** A tuple handed to a function by toParams and returned in a result
      array comes back as the same tuple. */
  lemma {:induction false} SplicedParams(fs: seq<Field>)
    ensures Spliced(Params(fs)) == fs
  {
    if |fs| > 1 {
      SupportedFieldValues(fs);
    }
  }

  /** What callMapReduce returns and leaves in the key and value tuples. */
  datatype StepResult = StepResult(ret: Result<JsValue, Failure>, key: seq<Field>, value: seq<Field>)

  function MapReduceStep(call: Result<JsValue, Failure>, key: seq<Field>, value: seq<Field>): (s: StepResult)
    ensures s.ret.Ok? ==> s.ret == call && (s.ret.value == Null || s.ret.value.Generator? || s.ret.value.Array?)
    ensures s.ret.Ok? && !s.ret.value.Array? ==> s.key == key && s.value == value
    ensures call.Ok? && !call.value.Array? && call.value != Null && !call.value.Generator? ==> s.ret == Err(BadResult)
    ensures call == Ok(Array([])) ==> s.ret == Err(EmptyArray) && s.key == [] && s.value == value
  {
    match call
    case Err(e) => StepResult(Err(e), key, value)
    case Ok(v) =>
      if v == Null || v.Generator? then StepResult(call, key, value)
      else if !v.Array? then StepResult(Err(BadResult), key, value)
      else if v.elems == [] then StepResult(Err(EmptyArray), [], value)
      else StepResult(call, KeyFields(v.elems), ValueFields(v.elems))
  }

  /** The identity map function, `return [key, value]`, hands back the
      tuples it was given. */
  lemma IdentityStep(key: seq<Field>, value: seq<Field>, k0: seq<Field>, v0: seq<Field>)
    ensures var r := Array([Params(key), Params(value)]);
      MapReduceStep(Ok(r), k0, v0) == StepResult(Ok(r), key, value)
  {
    var elems := [Params(key), Params(value)];
    SplicedParams(key);
    SplicedParams(value);
    assert elems[1..] == [Params(value)];
    assert [Params(value)][..0] == [];
    assert KeyFields(elems) == key;
    assert ValueFields(elems) == SplicedAll([]) + Spliced(Params(value));
  }

  /** One element of a result array added to a tuple: a nested array
      element by element, anything else as itself. */
  method AddSpliced(t: Tuple, e: JsValue)
    modifies t
    ensures t.fields == old(t.fields) + Spliced(e)
  {
    if !e.Array? {
      t.Add(e);
    } else {
      var i := 0;
      while i < |e.elems|
        invariant 0 <= i <= |e.elems|
        invariant t.fields == old(t.fields) + SupportedAll(e.elems[..i])
      {
        assert e.elems[..i + 1][..i] == e.elems[..i];
        t.Add(e.elems[i]);
        i := i + 1;
      }
      assert e.elems[..i] == e.elems;
    }
  }

  /** The refill of callMapReduce for a non-empty result array: the key
      from element 0, then the value from the rest. */
  method FillFromArray(elems: seq<JsValue>, key: Tuple, value: Tuple)
    requires elems != [] && key != value
    modifies key, value
    ensures key.fields == old(key.fields) + KeyFields(elems)
    ensures value.fields == ValueFields(elems)
  {
    AddSpliced(key, elems[0]);
    value.Clear();
    var n := 1;
    while n < |elems|
      invariant 1 <= n <= |elems|
      invariant value.fields == SplicedAll(elems[1..n])
      invariant key.fields == old(key.fields) + KeyFields(elems)
    {
      assert elems[1..n + 1][..n - 1] == elems[1..n];
      AddSpliced(value, elems[n]);
      n := n + 1;
    }
    assert elems[1..n] == elems[1..];
  }

  /** callMapReduce: calls the function and, for an array result, refills
      the caller's key and value tuples from it. */
  method CallMapReduce(engine: Engine, f: Option<Callable>, thisObj: Option<Receiver>, args: seq<JsValue>, key: Tuple, value: Tuple)
    returns (r: Result<JsValue, Failure>)
    requires key != value
    modifies key, value
    ensures var s := MapReduceStep(CallFunction(engine, f, thisObj, args), old(key.fields), old(value.fields));
      r == s.ret && key.fields == s.key && value.fields == s.value
  {
    var ret := CallFunction(engine, f, thisObj, args);
    if ret.Err? {
      return ret;
    }
    var v := ret.value;
    if v == Null || v.Generator? {
      return ret;
    }
    if !v.Array? {
      return Err(BadResult);
    }
    key.Clear();
    if v.elems == [] {
      return Err(EmptyArray);
    }
    FillFromArray(v.elems, key, value);
    return ret;
  }

  /** One record handed to the Hadoop context: snapshots of the key and
      value tuples at the time of the write. */
  datatype Record = Record(key: seq<Field>, value: seq<Field>)

  /** The Hadoop context's output: the records written, in order. */
  class Sink {
    var records: seq<Record>

    constructor ()
      ensures records == []
    {
      records := [];
    }

    method Write(key: Tuple, value: Tuple)
      modifies this
      ensures records == old(records) + [Record(key.fields, value.fields)]
    {
      records := records + [Record(key.fields, value.fields)];
    }
  }

  /** What dispatchMapReduce does: the records it writes, the key and
      value tuples it leaves, and the error that ends it, if any. */
  datatype Run = Run(records: seq<Record>, key: seq<Field>, value: seq<Field>, failure: Option<Failure>)

  /** A generator's `next` called with the generator as receiver and no
      arguments. */
  function Pull(engine: Engine, pulls: seq<Outcome>, i: nat): Result<JsValue, Failure> {
    CallFunction(engine, Some(GeneratorNext(pulls, i)), Some(GeneratorObject), [])
  }

  /** Draining a generator from its `i`-th pull: each pull goes through
      callMapReduce, and every non-null result writes one record, until a
      pull gives null or an error. */
  function Drain(engine: Engine, pulls: seq<Outcome>, i: nat, key: seq<Field>, value: seq<Field>): Run
    requires i <= |pulls|
    decreases |pulls| - i
  {
    var s := MapReduceStep(Pull(engine, pulls, i), key, value);
    if s.ret.Err? then Run([], s.key, s.value, Some(s.ret.error))
    else if s.ret.value == Null then Run([], s.key, s.value, None)
    else
      assert i < |pulls|;
      var rest := Drain(engine, pulls, i + 1, s.key, s.value);
      Run([Record(s.key, s.value)] + rest.records, rest.key, rest.value, rest.failure)
  }

  function Dispatch(engine: Engine, f: Option<Callable>, thisObj: Option<Receiver>, args: seq<JsValue>, key: seq<Field>, value: seq<Field>): Run {
    var s := MapReduceStep(CallFunction(engine, f, thisObj, args), key, value);
    match s.ret
    case Err(e) => Run([], s.key, s.value, Some(e))
    case Ok(v) =>
      if v.Generator? then Drain(engine, v.pulls, 0, s.key, s.value)
      else if v == Null then Run([], s.key, s.value, None)
      else Run([Record(s.key, s.value)], s.key, s.value, None)
  }

  /** `run` preceded by the records already written. */
  function After(written: seq<Record>, run: Run): Run {
    Run(written + run.records, run.key, run.value, run.failure)
  }

  /** dispatchMapReduce: writes the records of one function call to the
      sink. */
  method DispatchMapReduce(engine: Engine, f: Option<Callable>, thisObj: Option<Receiver>, args: seq<JsValue>, key: Tuple, value: Tuple, sink: Sink)
    returns (failure: Option<Failure>)
    requires key != value
    modifies key, value, sink
    ensures var run := Dispatch(engine, f, thisObj, args, old(key.fields), old(value.fields));
      sink.records == old(sink.records) + run.records && key.fields == run.key && value.fields == run.value && failure == run.failure
  {
    var ret := CallMapReduce(engine, f, thisObj, args, key, value);
    if ret.Err? {
      return Some(ret.error);
    }
    if ret.value.Generator? {
      failure := DrainGenerator(engine, ret.value.pulls, key, value, sink);
      return;
    } else if ret.value != Null {
      sink.Write(key, value);
    }
    return None;
  }

  /** One pull that yields a record: its record, then the rest of the
      draining from the state that pull left. */
  lemma DrainStep(engine: Engine, pulls: seq<Outcome>, i: nat, key: seq<Field>, value: seq<Field>)
    requires i <= |pulls|
    requires var s := MapReduceStep(Pull(engine, pulls, i), key, value); s.ret.Ok? && s.ret.value != Null
    ensures i < |pulls|
    ensures var s := MapReduceStep(Pull(engine, pulls, i), key, value);
      Drain(engine, pulls, i, key, value) == After([Record(s.key, s.value)], Drain(engine, pulls, i + 1, s.key, s.value))
  {
  }

  lemma AfterAfter(written: seq<Record>, more: seq<Record>, run: Run)
    ensures After(written, After(more, run)) == After(written + more, run)
  {
    assert written + (more + run.records) == (written + more) + run.records;
  }

  /** The generator loop of dispatchMapReduce: pulls `next` until a pull
      gives null, writing a record after every other pull. */
  method DrainGenerator(engine: Engine, pulls: seq<Outcome>, key: Tuple, value: Tuple, sink: Sink) returns (failure: Option<Failure>)
    requires key != value
    modifies key, value, sink
    ensures var run := Drain(engine, pulls, 0, old(key.fields), old(value.fields));
      sink.records == old(sink.records) + run.records && key.fields == run.key && value.fields == run.value && failure == run.failure
  {
    ghost var start := Drain(engine, pulls, 0, key.fields, value.fields);
    ghost var written: seq<Record> := [];
    assert start == After(written, start);
    var i := 0;
    while true
      invariant i <= |pulls|
      invariant sink.records == old(sink.records) + written
      invariant start == After(written, Drain(engine, pulls, i, key.fields, value.fields))
      decreases |pulls| - i
    {
      ghost var k, v := key.fields, value.fields;
      var p := CallMapReduce(engine, Some(GeneratorNext(pulls, i)), Some(GeneratorObject), [], key, value);
      if p.Err? {
        return Some(p.error);
      }
      if p.value == Null {
        return None;
      }
      DrainStep(engine, pulls, i, k, v);
      AfterAfter(written, [Record(key.fields, value.fields)], Drain(engine, pulls, i + 1, key.fields, value.fields));
      sink.Write(key, value);
      written := written + [Record(key.fields, value.fields)];
      i := i + 1;
    }
  }

  /** A null result writes no record and leaves the tuples alone. */
  lemma NullEmitsNothing(engine: Engine, f: Option<Callable>, thisObj: Option<Receiver>, args: seq<JsValue>, key: seq<Field>, value: seq<Field>)
    requires CallFunction(engine, f, thisObj, args) == Ok(Null)
    ensures Dispatch(engine, f, thisObj, args, key, value) == Run([], key, value, None)
  {
  }

  /** An array result writes exactly one record, holding its key and value. */
  lemma ArrayEmitsOne(engine: Engine, f: Option<Callable>, thisObj: Option<Receiver>, args: seq<JsValue>, key: seq<Field>, value: seq<Field>, elems: seq<JsValue>)
    requires CallFunction(engine, f, thisObj, args) == Ok(Array(elems)) && elems != []
    ensures Dispatch(engine, f, thisObj, args, key, value).records == [Record(KeyFields(elems), ValueFields(elems))]
  {
  }

  /** A pull that yields a non-empty array. */
  predicate YieldsRecord(o: Outcome) {
    o.Returned? && o.v.Array? && o.v.elems != []
  }

  /** A pull that ends the draining without error: a yielded null or
      undefined, or a script exception such as StopIteration. */
  predicate YieldsNull(o: Outcome) {
    o == Returned(Null) || o == Returned(Undefined) || o == Thrown
  }

  /** The records a run of record-yielding pulls writes, in pull order. */
  function RecordsOf(pulls: seq<Outcome>): (r: seq<Record>)
    requires forall j :: 0 <= j < |pulls| ==> YieldsRecord(pulls[j])
    ensures |r| == |pulls|
  {
    if pulls == [] then []
    else
      assert YieldsRecord(pulls[0]);
      [Record(KeyFields(pulls[0].v.elems), ValueFields(pulls[0].v.elems))] + RecordsOf(pulls[1..])
  }

  /** A generator whose pulls from `i` onwards all yield arrays writes one
      record per pull, in pull order, and then stops without error when
      its next() throws StopIteration. */
  lemma {:induction false} DrainWritesEveryPull(engine: Engine, pulls: seq<Outcome>, i: nat, key: seq<Field>, value: seq<Field>)
    requires i <= |pulls|
    requires forall j :: i <= j < |pulls| ==> YieldsRecord(pulls[j])
    ensures Drain(engine, pulls, i, key, value).records == RecordsOf(pulls[i..])
    ensures Drain(engine, pulls, i, key, value).failure == None
    decreases |pulls| - i
  {
    if i < |pulls| {
      var e := pulls[i].v.elems;
      DrainWritesEveryPull(engine, pulls, i + 1, KeyFields(e), ValueFields(e));
      assert pulls[i..][1..] == pulls[i + 1..];
    }
  }

  /** Draining stops at the first pull that yields null: the pulls before
      it each write their record and nothing after it is pulled. */
  lemma {:induction false} DrainStopsAtNull(engine: Engine, pulls: seq<Outcome>, i: nat, stop: nat, key: seq<Field>, value: seq<Field>)
    requires i <= stop < |pulls|
    requires forall j :: i <= j < stop ==> YieldsRecord(pulls[j])
    requires YieldsNull(pulls[stop])
    ensures Drain(engine, pulls, i, key, value).records == RecordsOf(pulls[i..stop])
    ensures Drain(engine, pulls, i, key, value).failure == None
    decreases stop - i
  {
    if i < stop {
      var e := pulls[i].v.elems;
      DrainStopsAtNull(engine, pulls, i + 1, stop, KeyFields(e), ValueFields(e));
      assert pulls[i..stop][1..] == pulls[i + 1..stop];
    } else {
      assert pulls[i..stop] == [];
    }
  }

  /** A function returning a generator writes the records of its pulls. */
  lemma GeneratorEmitsPerPull(engine: Engine, f: Option<Callable>, thisObj: Option<Receiver>, args: seq<JsValue>, key: seq<Field>, value: seq<Field>, pulls: seq<Outcome>)
    requires CallFunction(engine, f, thisObj, args) == Ok(Generator(pulls))
    requires forall j :: 0 <= j < |pulls| ==> YieldsRecord(pulls[j])
    ensures Dispatch(engine, f, thisObj, args, key, value).records == RecordsOf(pulls)
    ensures Dispatch(engine, f, thisObj, args, key, value).failure == None
  {
    DrainWritesEveryPull(engine, pulls, 0, key, value);
    assert pulls[0..] == pulls;
  }

  // ---- the artifact text ----

  const LPAREN: byte := 40
  const RPAREN: byte := 41
  const COLON: byte := 58
  const COMMA: byte := 44
  const LBRACKET: byte := 91
  const RBRACKET: byte := 93
  const LBRACE: byte := 123
  const RBRACE: byte := 125

  /** `name:text,` for each property in id order. */
  function Entries(props: seq<Property>, jsText: JsValue -> seq<byte>): seq<byte> {
    if props == [] then []
    else
      var p := props[|props| - 1];
      Entries(props[..|props| - 1], jsText) + p.name + [COLON] + jsText(p.value) + [COMMA]
  }

  /** The text serialize stores, for Rhino's Context.toString as
      `jsText`: an object is spelt out property by property, an array is
      bracketed, and the whole is parenthesised so that evaluating it
      yields the value. */
  function ArtifactText(o: JsValue, jsText: JsValue -> seq<byte>): (t: seq<byte>)
    ensures |t| >= 2 && t[0] == LPAREN && t[|t| - 1] == RPAREN
    ensures o.Object? ==> t == [LPAREN, LBRACE] + Entries(o.props, jsText) + [RBRACE, RPAREN]
    ensures o.Array? ==> t == [LPAREN, LBRACKET] + jsText(o) + [RBRACKET, RPAREN]
    ensures !o.Object? && !o.Array? ==> t == [LPAREN] + jsText(o) + [RPAREN]
  {
    var body :=
      if o.Object? then [LBRACE] + Entries(o.props, jsText) + [RBRACE]
      else if o.Array? then [LBRACKET] + jsText(o) + [RBRACKET]
      else jsText(o);
    [LPAREN] + body + [RPAREN]
  }

  /** An object artifact ends its last entry with a comma before the
      closing brace, and one with no properties is `({})`. */
  lemma ObjectArtifactShape(name: seq<byte>, v: JsValue, jsText: JsValue -> seq<byte>)
    ensures ArtifactText(Object([]), jsText) == [LPAREN, LBRACE, RBRACE, RPAREN]
    ensures ArtifactText(Object([Property(name, v)]), jsText) == [LPAREN, LBRACE] + name + [COLON] + jsText(v) + [COMMA, RBRACE, RPAREN]
  {
    assert [Property(name, v)][..0] == [];
  }

  /** serialize's text construction; `ok` is false when writeUTF would
      refuse the text for being over 65535 bytes. */
  method Serialize(o: JsValue, jsText: JsValue -> seq<byte>) returns (text: seq<byte>, ok: bool)
    ensures text == ArtifactText(o, jsText)
    ensures ok <==> |text| <= MAX_UTF_LENGTH
  {
    var buf: seq<byte>;
    if !o.Object? {
      buf := jsText(o);
      if o.Array? {
        buf := [LBRACKET] + buf + [RBRACKET];
      }
    } else {
      buf := [LBRACE];
      var i := 0;
      while i < |o.props|
        invariant 0 <= i <= |o.props|
        invariant buf == [LBRACE] + Entries(o.props[..i], jsText)
      {
        var p := o.props[i];
        assert o.props[..i + 1][..i] == o.props[..i];
        buf := buf + p.name + [COLON] + jsText(p.value) + [COMMA];
        i := i + 1;
      }
      assert o.props[..i] == o.props;
      buf := buf + [RBRACE];
    }
    text := [LPAREN] + buf + [RPAREN];
    ok := |text| <= MAX_UTF_LENGTH;
  }

  // ---- the artifact lookup ----

  /** A local copy of a distributed-cache file: its file name and the
      string readUTF gives back from it. */
  datatype CacheFile = CacheFile(name: seq<byte>, contents: seq<byte>)

  /** The contents of the first file with the given name. */
  function FindIn(files: seq<CacheFile>, name: seq<byte>): (r: Option<seq<byte>>)
    ensures r.None? <==> forall i :: 0 <= i < |files| ==> files[i].name != name
    ensures r.Some? ==> exists i :: 0 <= i < |files| && files[i].name == name && files[i].contents == r.value &&
                                   (forall j :: 0 <= j < i ==> files[j].name != name)
  {
    if files == [] then None
    else if files[0].name == name then Some(files[0].contents)
    else
      var r := FindIn(files[1..], name);
      assert forall i :: 1 <= i < |files| ==> files[i] == files[1..][i - 1];
      if r.Some? then
        ghost var k :| 0 <= k < |files[1..]| && files[1..][k].name == name && files[1..][k].contents == r.value &&
                       (forall j :: 0 <= j < k ==> files[1..][j].name != name);
        assert files[k + 1] == files[1..][k];
        r
      else r
  }

  /** The artifact file deserialize evaluates: none when the cache list is
      null or nothing in it has the name. */
  function FindArtifact(cache: Option<seq<CacheFile>>, name: seq<byte>): Option<seq<byte>> {
    match cache
    case None => None
    case Some(files) => FindIn(files, name)
  }

  /** deserialize: evaluates the first cache file with the requested name
      through `eval`, the engine's evaluation of a script text, or gives
      null. */
  method Deserialize(cache: Option<seq<CacheFile>>, name: seq<byte>, eval: seq<byte> -> JsValue) returns (o: JsValue)
    ensures o == match FindArtifact(cache, name) case Some(t) => eval(t) case None => Null
  {
    if cache.Some? && |cache.value| > 0 {
      var files := cache.value;
      var i := 0;
      while i < |files|
        invariant 0 <= i <= |files|
        invariant FindIn(files, name) == FindIn(files[i..], name)
      {
        assert files[i..][1..] == files[i + 1..];
        if files[i].name == name {
          return eval(files[i].contents);
        }
        i := i + 1;
      }
    }
    return Null;
  }

  /** A job artifact stored under its name is what a Task later
      evaluates, whatever files with other names are cached around it. */
  lemma StoredArtifactIsFound(before: seq<CacheFile>, after: seq<CacheFile>, name: seq<byte>, text: seq<byte>)
    requires forall i :: 0 <= i < |before| ==> before[i].name != name
    ensures FindArtifact(Some(before + [CacheFile(name, text)] + after), name) == Some(text)
  {
    var files := before + [CacheFile(name, text)] + after;
    assert files[|before|] == CacheFile(name, text);
    assert forall j :: 0 <= j < |before| ==> files[j] == before[j];
  }
}
