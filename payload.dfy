/** Payload: the per-task lifecycle of a mapper, reducer or combiner.
    setup binds the job's hook functions from the deserialized artifact,
    each record is dispatched to the stage's function through the shared
    key and value tuples, and cleanup runs the cleanup hook.  The static
    fields of the Java class are the fields of one Task object. */
module Payload {
  import opened Wrappers
  import opened Bytes
  import opened Doubles
  import opened JsValues
  import opened TupleFields
  import opened Tuples
  import opened Script

  /** The artifact file names of the three stages. */
  const MAP_FILE: seq<byte> := [109, 97, 112, 46, 106, 115]                              // "map.js"
  const REDUCE_FILE: seq<byte> := [114, 101, 100, 117, 99, 101, 46, 106, 115]             // "reduce.js"
  const COMBINE_FILE: seq<byte> := [99, 111, 109, 98, 105, 110, 101, 46, 106, 115]        // "combine.js"

  /** The property names setup looks up in an object artifact. */
  const MAP_NAME: seq<byte> := [109, 97, 112]                        // "map"
  const REDUCE_NAME: seq<byte> := [114, 101, 100, 117, 99, 101]       // "reduce"
  const SETUP_NAME: seq<byte> := [115, 101, 116, 117, 112]            // "setup"
  const CLEANUP_NAME: seq<byte> := [99, 108, 101, 97, 110, 117, 112]  // "cleanup"

  /** The five function fields. */
  datatype Hooks = Hooks(
    fmapred: Option<FunctionId>,
    fmap: Option<FunctionId>,
    freduce: Option<FunctionId>,
    fsetup: Option<FunctionId>,
    fcleanup: Option<FunctionId>)

  /** The cast `(Function) v`: null stays null, a function is itself, and
      anything else is a ClassCastException. */
  function AsFunction(v: JsValue): (r: Result<Option<FunctionId>, Failure>)
    ensures r.Ok? <==> (v == Null || v.Function?)
    ensures r == Ok(None) <==> v == Null
  {
    match v
    case Null => Ok(None)
    case Function(id) => Ok(Some(id))
    case _ => Err(ClassCast)
  }

  /** The hooks after setup's assignments, and the error that stopped them. */
  datatype Bound = Bound(hooks: Hooks, failure: Option<Failure>)

  /** setup's assignments from the artifact `o`: an object binds map,
      reduce, setup and cleanup in that order, stopping at the first
      property that is not a function or null; a function becomes fmapred;
      anything else assigns nothing.  Fields not assigned keep their
      values. */
  function Bind(h: Hooks, o: JsValue): (b: Bound)
    ensures !o.Object? ==> b.failure == None
    ensures !o.Object? ==> b.hooks.fmap == h.fmap && b.hooks.freduce == h.freduce && b.hooks.fsetup == h.fsetup && b.hooks.fcleanup == h.fcleanup
    ensures o.Object? ==> b.hooks.fmapred == h.fmapred
  {
    match o
    case Function(id) => Bound(h.(fmapred := Some(id)), None)
    case Object(props) =>
      (match AsFunction(GetProperty(props, MAP_NAME))
       case Err(e) => Bound(h, Some(e))
       case Ok(m) =>
         var h1 := h.(fmap := m);
         match AsFunction(GetProperty(props, REDUCE_NAME))
         case Err(e) => Bound(h1, Some(e))
         case Ok(r) =>
           var h2 := h1.(freduce := r);
           match AsFunction(GetProperty(props, SETUP_NAME))
           case Err(e) => Bound(h2, Some(e))
           case Ok(s) =>
             var h3 := h2.(fsetup := s);
             match AsFunction(GetProperty(props, CLEANUP_NAME))
             case Err(e) => Bound(h3, Some(e))
             case Ok(c) => Bound(h3.(fcleanup := c), None))
    case _ => Bound(h, None)
  }

  /** An object artifact whose map, reduce, setup and cleanup properties
      are functions or absent binds each hook to its property, null when
      absent; its other properties are not looked at. */
  lemma BindObject(h: Hooks, props: seq<Property>)
    requires FunctionOrNull(GetProperty(props, MAP_NAME)) && FunctionOrNull(GetProperty(props, REDUCE_NAME))
    requires FunctionOrNull(GetProperty(props, SETUP_NAME)) && FunctionOrNull(GetProperty(props, CLEANUP_NAME))
    ensures var b := Bind(h, Object(props));
      b.failure == None &&
      Ok(b.hooks.fmap) == AsFunction(GetProperty(props, MAP_NAME)) &&
      Ok(b.hooks.freduce) == AsFunction(GetProperty(props, REDUCE_NAME)) &&
      Ok(b.hooks.fsetup) == AsFunction(GetProperty(props, SETUP_NAME)) &&
      Ok(b.hooks.fcleanup) == AsFunction(GetProperty(props, CLEANUP_NAME))
  {
  }

  /** What the `(Function)` cast accepts. */
  predicate FunctionOrNull(v: JsValue) {
    v.Function? || v == Null
  }

  /** A map stage falls back to fmapred when no map hook is bound. */
  function MapFallback(h: Hooks): (r: Hooks)
    ensures r.fmap == if h.fmap.Some? then h.fmap else h.fmapred
    ensures r == h.(fmap := r.fmap)
  {
    if h.fmap.None? then h.(fmap := h.fmapred) else h
  }

  /** A reduce or combine stage falls back to fmapred when no reduce hook
      is bound. */
  function ReduceFallback(h: Hooks): (r: Hooks)
    ensures r.freduce == if h.freduce.Some? then h.freduce else h.fmapred
    ensures r == h.(freduce := r.freduce)
  {
    if h.freduce.None? then h.(freduce := h.fmapred) else h
  }

  /** A single-function artifact serves every stage that has no hook of its
      own bound from before. */
  lemma FunctionArtifactServesEveryStage(h: Hooks, id: FunctionId)
    requires h.fmap.None? && h.freduce.None?
    ensures MapFallback(Bind(h, Function(id)).hooks).fmap == Some(id)
    ensures ReduceFallback(Bind(h, Function(id)).hooks).freduce == Some(id)
  {
  }

  /** TextMap.map's arguments: the key's toString() and the line.  The key
      is whatever the input format hands the mapper: a LongWritable byte
      offset under TextInputFormat and NLineInputFormat, the text before
      the first tab under KeyValueTextInputFormat. */
  function TextMapArgs(keyText: seq<byte>, line: seq<byte>): (args: seq<JsValue>)
    ensures |args| == 2 && args[0] == Str(keyText) && args[1] == Str(line)
  {
    [Str(keyText), Str(line)]
  }

  /** Under an offset-keyed input format the script's first argument is the
      offset's decimal text, which reads back as the offset. */
  lemma OffsetKeyReadsBack(offset: int, line: seq<byte>)
    ensures var key := TextMapArgs(DecimalText(offset), line)[0].s;
      |key| >= 1 && (forall i :: (if key[0] == MINUS then 1 else 0) <= i < |key| ==> IsDigit(key[i]))
      && ParseDecimal(key) == offset
  {
    DecimalRoundTrip(offset);
  }

  /** TupleMap.map's arguments: the two tuples through toParams. */
  function TupleMapArgs(key: seq<Field>, value: seq<Field>): (args: seq<JsValue>)
    ensures |args| == 2
    ensures Spliced(args[0]) == key && Spliced(args[1]) == value
  {
    SplicedParams(key);
    SplicedParams(value);
    [Params(key), Params(value)]
  }

  /** The values an EggIterator hands out: each tuple through toParams. */
  function ParamsAll(values: seq<seq<Field>>): (r: seq<JsValue>)
    ensures |r| == |values|
    ensures forall i :: 0 <= i < |values| ==> r[i] == Params(values[i])
  {
    if values == [] then [] else [Params(values[0])] + ParamsAll(values[1..])
  }

  /** Reduce.reduce's and Combine.reduce's arguments: the key through
      toParams and an iterator over the values. */
  function ReduceArgs(key: seq<Field>, values: seq<seq<Field>>): (args: seq<JsValue>)
    ensures |args| == 2 && args[1].Iterator? && |args[1].items| == |values|
    ensures Spliced(args[0]) == key
    ensures forall i :: 0 <= i < |values| ==> Spliced(args[1].items[i]) == values[i]
  {
    SplicedParams(key);
    forall i | 0 <= i < |values| ensures Spliced(Params(values[i])) == values[i] {
      SplicedParams(values[i]);
    }
    [Params(key), Iterator(ParamsAll(values))]
  }

  /** A TupleMap stage running the identity map function writes each input
      record back unchanged. */
  lemma IdentityMapCopiesRecord(engine: Engine, id: FunctionId, key: seq<Field>, value: seq<Field>, k0: seq<Field>, v0: seq<Field>)
    requires engine(id, EggContext, TupleMapArgs(key, value)) == Returned(Array(TupleMapArgs(key, value)))
    ensures Dispatch(engine, Some(UserFunction(id)), Some(EggContext), TupleMapArgs(key, value), k0, v0) == Run([Record(key, value)], key, value, None)
  {
    IdentityStep(key, value, k0, v0);
  }

  datatype Phase = Idle | Running | Aborted | Closed

  /** The artifact setup evaluates: the cache file `name`, or null when
      there is none. */
  function Artifact(cache: Option<seq<CacheFile>>, eval: seq<byte> -> JsValue, name: seq<byte>): JsValue {
    match FindArtifact(cache, name) case Some(t) => eval(t) case None => Null
  }

  /** The hooks setup calls after binding `o` into `b`: the setup hook, when
      an object bound one without error. */
  function SetupCalls(o: JsValue, b: Bound): seq<FunctionId> {
    if b.failure.None? && o.Object? && b.hooks.fsetup.Some? then [b.hooks.fsetup.value] else []
  }

  /** The error setup ends with: a failed cast, else the setup hook's own. */
  function SetupFailure(engine: Engine, o: JsValue, b: Bound): Option<Failure> {
    if b.failure.Some? then b.failure
    else if o.Object? && b.hooks.fsetup.Some? && Invoke(engine, UserFunction(b.hooks.fsetup.value), EggContext, []).Failed? then Some(ScriptError)
    else None
  }

  class Task {
    var phase: Phase
    /** Whether the Script's engine context is entered and not yet exited. */
    var engineOpen: bool
    var fmapred: Option<FunctionId>
    var fmap: Option<FunctionId>
    var freduce: Option<FunctionId>
    var fsetup: Option<FunctionId>
    var fcleanup: Option<FunctionId>
    /** The setup and cleanup hooks called, in order. */
    var hookCalls: seq<FunctionId>
    /** The shared scratch tuples every stage dispatches into. */
    const keyout: Tuple
    const valueout: Tuple

    ghost predicate Valid()
      reads this
    {
      keyout != valueout
    }

    function HookFields(): Hooks
      reads this
    {
      Hooks(fmapred, fmap, freduce, fsetup, fcleanup)
    }

    constructor ()
      ensures Valid() && fresh(keyout) && fresh(valueout)
      ensures keyout.fields == [] && valueout.fields == []
      ensures phase == Idle && !engineOpen && hookCalls == []
      ensures HookFields() == Hooks(None, None, None, None, None)
    {
      phase := Idle;
      engineOpen := false;
      fmapred, fmap, freduce, fsetup, fcleanup := None, None, None, None, None;
      hookCalls := [];
      keyout := new Tuple();
      valueout := new Tuple();
    }

    /** Payload.setup: a fresh engine, the artifact `name` looked up in the
        cache and evaluated, the hooks bound, and the setup hook called
        once with the EggContext object as `this` when it is bound. */
    method Setup(engine: Engine, cache: Option<seq<CacheFile>>, eval: seq<byte> -> JsValue, name: seq<byte>)
      returns (failure: Option<Failure>)
      requires Valid()
      modifies this
      ensures Valid()
      ensures var o := Artifact(cache, eval, name);
        var b := Bind(old(HookFields()), o);
        HookFields() == b.hooks &&
        hookCalls == old(hookCalls) + SetupCalls(o, b) &&
        failure == SetupFailure(engine, o, b)
      ensures engineOpen && phase == (if failure.None? then Running else Aborted)
    {
      engineOpen := true;
      phase := Running;
      var o := Deserialize(cache, name, eval);
      failure := Install(engine, o);
    }

    /** What setup does with the deserialized artifact `o`. */
    method Install(engine: Engine, o: JsValue) returns (failure: Option<Failure>)
      requires Valid() && engineOpen && phase == Running
      modifies this
      ensures Valid()
      ensures var b := Bind(old(HookFields()), o);
        HookFields() == b.hooks &&
        hookCalls == old(hookCalls) + SetupCalls(o, b) &&
        failure == SetupFailure(engine, o, b)
      ensures engineOpen && phase == (if failure.None? then Running else Aborted)
    {
      if o.Object? {
        failure := InstallObject(engine, o.props);
      } else if o.Function? {
        fmapred := Some(o.id);
        failure := None;
      } else {
        failure := None;
      }
    }

    /** An object artifact: the four casts, then the setup hook. */
    method InstallObject(engine: Engine, props: seq<Property>) returns (failure: Option<Failure>)
      requires Valid() && engineOpen && phase == Running
      modifies this
      ensures Valid()
      ensures var b := Bind(old(HookFields()), Object(props));
        HookFields() == b.hooks &&
        hookCalls == old(hookCalls) + (if b.failure.None? && b.hooks.fsetup.Some? then [b.hooks.fsetup.value] else []) &&
        failure == (if b.failure.Some? then b.failure
                    else if b.hooks.fsetup.Some? && Invoke(engine, UserFunction(b.hooks.fsetup.value), EggContext, []).Failed? then Some(ScriptError)
                    else None)
      ensures engineOpen && phase == (if failure.None? then Running else Aborted)
    {
      failure := BindHooks(props);
      if failure.Some? { phase := Aborted; return; }
      if fsetup.Some? {
        hookCalls := hookCalls + [fsetup.value];
        var ret := CallFunction(engine, Some(UserFunction(fsetup.value)), Some(EggContext), []);
        if ret.Err? { phase := Aborted; return Some(ret.error); }
      }
      return None;
    }

    /** The four casts of setup for an object artifact. */
    method BindHooks(props: seq<Property>) returns (failure: Option<Failure>)
      modifies this
      ensures HookFields() == Bind(old(HookFields()), Object(props)).hooks
      ensures failure == Bind(old(HookFields()), Object(props)).failure
      ensures hookCalls == old(hookCalls) && phase == old(phase) && engineOpen == old(engineOpen)
    {
      var m := AsFunction(GetProperty(props, MAP_NAME));
      if m.Err? { return Some(m.error); }
      fmap := m.value;
      var r := AsFunction(GetProperty(props, REDUCE_NAME));
      if r.Err? { return Some(r.error); }
      freduce := r.value;
      var s := AsFunction(GetProperty(props, SETUP_NAME));
      if s.Err? { return Some(s.error); }
      fsetup := s.value;
      var c := AsFunction(GetProperty(props, CLEANUP_NAME));
      if c.Err? { return Some(c.error); }
      fcleanup := c.value;
      return None;
    }

    /** Payload.cleanup: the cleanup hook, when bound, and then the engine
        exits.  An engine error from the hook escapes before the exit. */
    method Cleanup(engine: Engine) returns (failure: Option<Failure>)
      requires phase == Running
      modifies this
      ensures hookCalls == old(hookCalls) + (if fcleanup.Some? then [fcleanup.value] else [])
      ensures failure == (if fcleanup.Some? && Invoke(engine, UserFunction(fcleanup.value), EggContext, []).Failed? then Some(ScriptError) else None)
      ensures engineOpen == (old(engineOpen) && failure.Some?)
      ensures phase == (if failure.None? then Closed else Aborted)
      ensures HookFields() == old(HookFields())
    {
      if fcleanup.Some? {
        hookCalls := hookCalls + [fcleanup.value];
        var ret := CallFunction(engine, Some(UserFunction(fcleanup.value)), Some(EggContext), []);
        if ret.Err? { phase := Aborted; return Some(ret.error); }
      }
      engineOpen := false;
      phase := Closed;
      return None;
    }

    /** TextMap.setup. */
    method TextMapSetup(engine: Engine, cache: Option<seq<CacheFile>>, eval: seq<byte> -> JsValue) returns (failure: Option<Failure>)
      requires Valid()
      modifies this
      ensures Valid()
      ensures var o := Artifact(cache, eval, MAP_FILE);
        var b := Bind(old(HookFields()), o);
        hookCalls == old(hookCalls) + SetupCalls(o, b) &&
        failure == SetupFailure(engine, o, b) &&
        HookFields() == (if failure.None? then MapFallback(b.hooks) else b.hooks)
      ensures engineOpen && phase == (if failure.None? then Running else Aborted)
    {
      failure := Setup(engine, cache, eval, MAP_FILE);
      if failure.None? && fmap.None? {
        fmap := fmapred;
      }
    }

    /** TupleMap.setup: the same as TextMap's. */
    method TupleMapSetup(engine: Engine, cache: Option<seq<CacheFile>>, eval: seq<byte> -> JsValue) returns (failure: Option<Failure>)
      requires Valid()
      modifies this
      ensures Valid()
      ensures var o := Artifact(cache, eval, MAP_FILE);
        var b := Bind(old(HookFields()), o);
        hookCalls == old(hookCalls) + SetupCalls(o, b) &&
        failure == SetupFailure(engine, o, b) &&
        HookFields() == (if failure.None? then MapFallback(b.hooks) else b.hooks)
      ensures engineOpen && phase == (if failure.None? then Running else Aborted)
    {
      failure := Setup(engine, cache, eval, MAP_FILE);
      if failure.None? && fmap.None? {
        fmap := fmapred;
      }
    }

    /** Reduce.setup. */
    method ReduceSetup(engine: Engine, cache: Option<seq<CacheFile>>, eval: seq<byte> -> JsValue) returns (failure: Option<Failure>)
      requires Valid()
      modifies this
      ensures Valid()
      ensures var o := Artifact(cache, eval, REDUCE_FILE);
        var b := Bind(old(HookFields()), o);
        hookCalls == old(hookCalls) + SetupCalls(o, b) &&
        failure == SetupFailure(engine, o, b) &&
        HookFields() == (if failure.None? then ReduceFallback(b.hooks) else b.hooks)
      ensures engineOpen && phase == (if failure.None? then Running else Aborted)
    {
      failure := Setup(engine, cache, eval, REDUCE_FILE);
      if failure.None? && freduce.None? {
        freduce := fmapred;
      }
    }

    /** Combine.setup: the combine artifact, with the reduce fallback. */
    method CombineSetup(engine: Engine, cache: Option<seq<CacheFile>>, eval: seq<byte> -> JsValue) returns (failure: Option<Failure>)
      requires Valid()
      modifies this
      ensures Valid()
      ensures var o := Artifact(cache, eval, COMBINE_FILE);
        var b := Bind(old(HookFields()), o);
        hookCalls == old(hookCalls) + SetupCalls(o, b) &&
        failure == SetupFailure(engine, o, b) &&
        HookFields() == (if failure.None? then ReduceFallback(b.hooks) else b.hooks)
      ensures engineOpen && phase == (if failure.None? then Running else Aborted)
    {
      failure := Setup(engine, cache, eval, COMBINE_FILE);
      if failure.None? && freduce.None? {
        freduce := fmapred;
      }
    }

    /** TextMap.map: one input line under the key whose text is `keyText`. */
    method TextMapMap(engine: Engine, keyText: seq<byte>, line: seq<byte>, sink: Sink) returns (failure: Option<Failure>)
      requires Valid() && phase == Running
      modifies keyout, valueout, sink
      ensures var run := Dispatch(engine, Stage(fmap), Some(EggContext), TextMapArgs(keyText, line), old(keyout.fields), old(valueout.fields));
        sink.records == old(sink.records) + run.records && keyout.fields == run.key && valueout.fields == run.value && failure == run.failure
    {
      failure := DispatchMapReduce(engine, Stage(fmap), Some(EggContext), TextMapArgs(keyText, line), keyout, valueout, sink);
    }

    /** TupleMap.map: one input record of a sequence file. */
    method TupleMapMap(engine: Engine, key: Tuple, value: Tuple, sink: Sink) returns (failure: Option<Failure>)
      requires Valid() && phase == Running
      modifies keyout, valueout, sink
      ensures var run := Dispatch(engine, Stage(fmap), Some(EggContext), TupleMapArgs(old(key.fields), old(value.fields)), old(keyout.fields), old(valueout.fields));
        sink.records == old(sink.records) + run.records && keyout.fields == run.key && valueout.fields == run.value && failure == run.failure
    {
      failure := DispatchMapReduce(engine, Stage(fmap), Some(EggContext), TupleMapArgs(key.fields, value.fields), keyout, valueout, sink);
    }

    /** Reduce.reduce: one key and the values grouped under it. */
    method ReduceReduce(engine: Engine, key: Tuple, values: seq<seq<Field>>, sink: Sink) returns (failure: Option<Failure>)
      requires Valid() && phase == Running
      modifies keyout, valueout, sink
      ensures var run := Dispatch(engine, Stage(freduce), Some(EggContext), ReduceArgs(old(key.fields), values), old(keyout.fields), old(valueout.fields));
        sink.records == old(sink.records) + run.records && keyout.fields == run.key && valueout.fields == run.value && failure == run.failure
    {
      failure := DispatchMapReduce(engine, Stage(freduce), Some(EggContext), ReduceArgs(key.fields, values), keyout, valueout, sink);
    }

    /** Combine.reduce: the same call as Reduce.reduce. */
    method CombineReduce(engine: Engine, key: Tuple, values: seq<seq<Field>>, sink: Sink) returns (failure: Option<Failure>)
      requires Valid() && phase == Running
      modifies keyout, valueout, sink
      ensures var run := Dispatch(engine, Stage(freduce), Some(EggContext), ReduceArgs(old(key.fields), values), old(keyout.fields), old(valueout.fields));
        sink.records == old(sink.records) + run.records && keyout.fields == run.key && valueout.fields == run.value && failure == run.failure
    {
      failure := DispatchMapReduce(engine, Stage(freduce), Some(EggContext), ReduceArgs(key.fields, values), keyout, valueout, sink);
    }
  }

  /** The function a stage calls; a null field is a call through null. */
  function Stage(f: Option<FunctionId>): (c: Option<Callable>)
    ensures c.None? <==> f.None?
    ensures f.Some? ==> c == Some(UserFunction(f.value))
  {
    match f
    case None => None
    case Some(id) => Some(UserFunction(id))
  }

  /** A stage whose function was never bound fails on its first record
      without writing anything. */
  lemma UnboundStageFails(engine: Engine, args: seq<JsValue>, key: seq<Field>, value: seq<Field>)
    ensures Dispatch(engine, Stage(None), Some(EggContext), args, key, value) == Run([], key, value, Some(NullFunction))
  {
  }
}
