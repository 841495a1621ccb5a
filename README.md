# Eggshell bridge model

Eggshell runs Hadoop map-reduce jobs whose map, reduce and combine
functions are written in JavaScript and run by the Rhino engine. This
project models the part of Eggshell that passes values between the two
worlds, and proves properties of that model:

- **`Tuple`** is the Hadoop key and value class: an ordered list of
  Double, String and Boolean fields. The model covers its binary codec
  (`write` and `readFields`), `compareTo`, `hashCode`, `toString`, the
  `add` overloads with their filter on supported types, and `toParams`.
- **`Script`** is the bridge to the engine. The model covers:
  - `callFunction`, which normalises a call's result;
  - `getProperty`;
  - `callMapReduce`, which classifies a result and refills the shared key
    and value tuples from it, splicing nested arrays one level deep;
  - `dispatchMapReduce`, which writes no record for null, one for an
    array, and one per pull for a generator;
  - the text that `serialize` stores;
  - the artifact lookup in `deserialize`.
- **`Payload`** runs the lifecycle of one task. The model covers:
  - `setup`, which binds the map, reduce, setup and cleanup hooks from an
    object artifact, or binds a single `fmapred` function;
  - the fallback rule of each stage;
  - the arguments each stage builds for every record;
  - `cleanup`.

## Modelling decisions

- **Doubles.** A double is the 64-bit pattern that
  `Double.doubleToLongBits` gives for it (module `Doubles`). The codec,
  `compareTo` and `hashCode` all see a double through this pattern, so it
  needs no floating-point arithmetic. Under this pattern every NaN is the
  one canonical NaN. Exact bits are also needed for two things:
  - the `d.longValue() == d` test in `toString`;
  - `new Double(Integer)` in `add(Object)`.

  The text of a non-integral double, Java's `Double.toString`, is a
  function parameter (`doubleText`).
- **Strings.** A string is a sequence of bytes. `writeUTF` refuses a
  string over 65535 bytes, and that refusal is the error path of `write`.
- **The engine.** The user's JavaScript is a function parameter, `Engine`.
  It maps a function id, a receiver and arguments to an `Outcome`, which
  is one of:
  - a value;
  - `Thrown`, a `JavaScriptException`, which `callFunction` swallows;
  - `Failed`, any other Rhino error, which escapes.
- **Generators.** A generator is the finite sequence of what its pulls
  produce. A pull past the end throws `StopIteration`, which is a
  `JavaScriptException`.
- **Evaluation.** Evaluating the artifact text (`evalString` through
  `evalCache`) is a function parameter `eval`. Rhino's `Context.toString`
  is a function parameter `jsText`.
- **Payload's static fields.** The static fields of `Payload` are the
  fields of one `Task` object. `keyout` and `valueout` are two distinct
  `Tuple` objects that every stage writes through. A `phase` field, an
  `engineOpen` flag and a log of the setup and cleanup hooks called record
  the lifecycle.
- **The sink.** `context.write` appends a snapshot of the key and value
  tuples to `Sink.records`.

Where the code differs from its own comments or from what a caller would
expect, the model follows the code:

- An unrecognised tag byte in `readFields` is skipped without reading a
  payload. It does not raise an error (Tuple.java:99-103).
- `add(Object)` silently drops any value that is not a String, Double,
  Integer or Boolean (Tuple.java:205-208).
- `callFunction` catches only `JavaScriptException`. Any other Rhino error,
  such as a `TypeError`, escapes to Hadoop (Script.java:163-168).
- A result array with no elements is not an empty record. `array.get(0)`
  throws `IndexOutOfBoundsException` after `key.clear()` has already run,
  so the model gives `EmptyArray` and leaves the key empty
  (Script.java:266-267).

## Model

| member | source | states |
|---|---|---|
| `Bytes.BigEndian` | Tuple.java:74-81 | the w-byte big-endian field of n has length w and reads back as n |
| `Bytes.BigEndianOfValue` | Tuple.java:100-101 | a big-endian byte string is determined by its value and width (decoding then re-encoding gives the bytes back) |
| `Bytes.DecimalText` | Tuple.java:118 | the decimal text of a long is non-empty and starts with '-' exactly when the value is negative |
| `Bytes.DecimalRoundTrip` | Tuple.java:118 | the decimal text of a long reads back as the same number |
| `Doubles.Canonicalize` | Tuple.java:100 | readDouble's longBitsToDouble keeps every canonical pattern and maps any NaN pattern to a NaN |
| `Doubles.Compare` | Tuple.java:141-142 | Double.compare is -1, 0 or 1, is 0 exactly on equal doubles, and is negative exactly when a comes first in the order of `OrderKey`: numeric order, with -0.0 before 0.0 and NaN last |
| `Doubles.NegativeZeroFirst` | Tuple.java:141-142 | Double.compare puts -0.0 before 0.0 |
| `Doubles.NaNLast` | Tuple.java:141-142 | Double.compare puts NaN after every other double, positive infinity included |
| `Doubles.CompareIsTotalOrder` | Tuple.java:141-142 | Double.compare is antisymmetric and transitive |
| `Doubles.ExactLong` | Tuple.java:118 | the long printed for a double that passes the `longValue() == d` test lies in the range of a long |
| `Doubles.FromInt32` | Tuple.java:207 | the double made from an Integer passes the longValue test with exactly that integer, and 0 becomes +0.0, not -0.0 |
| `TupleCodec.FieldBytes` | Tuple.java:73-81 | each field's bytes begin with its tag (1 double, 2 string, 8 boolean) and hold a payload |
| `TupleCodec.Encode` | Tuple.java:68-88 | write finishes exactly when every string fits writeUTF |
| `TupleCodec.EncodeLayout` | Tuple.java:68-88 | write emits every field's tag and payload in order and then one 0 byte; the empty tuple is the single byte 0 |
| `TupleCodec.ConcatAppend` | Tuple.java:71-86 | the bytes of joined field lists are the two lists' bytes side by side |
| `TupleCodec.NextElement` | Tuple.java:99-103 | one loop pass consumes at least one byte and at most what is left; the end marker is the 0 byte |
| `TupleCodec.Decode` | Tuple.java:94-104 | readFields consumes at most the stream; if it runs out of input it consumes everything, otherwise its last byte is the 0 byte |
| `TupleCodec.NextElementExtends` | Tuple.java:99-103 | bytes after a complete element do not change how it is read |
| `TupleCodec.RoundTrip` | Tuple.java:68-104 | readFields of write(t), followed by any bytes, gives t's fields, takes exactly the written bytes and reaches the end marker |
| `TupleCodec.DecodeField` | Tuple.java:73-102 | one written field reads back as itself, taking exactly its bytes |
| `TupleCodec.SelfDelimiting` | Tuple.java:99 | readFields stops at the first 0 tag: bytes after it are never read |
| `TupleCodec.UnknownTagsSkipped` | Tuple.java:99-103 | any run of unknown tag bytes is skipped with no payload and no error, changing only the byte count |
| `TupleOrder.Compare` | Tuple.java:131-152 | compareTo as written is 0 only on tuples of equal length |
| `TupleOrder.CompareFixed` | Tuple.java:131-152 | the corrected compareTo is 0 only on tuples of equal length (see CompareFixedZeroIffEqual for the full statement) |
| `TupleOrder.StringCompare` | Tuple.java:143-144 | String.compareTo is 0 exactly on equal strings and negative exactly when the first string sorts first |
| `TupleOrder.StringOrder` | Tuple.java:143-144 | String.compareTo is antisymmetric and transitive |
| `TupleOrder.FieldCompareFixed` | Tuple.java:147-148 | the corrected field comparison is 0 exactly on equal fields |
| `TupleOrder.FieldOrderFixed` | Tuple.java:141-148 | the corrected field comparison is antisymmetric and transitive |
| `TupleOrder.CompareFixedZeroIffEqual` | Tuple.java:131-152 | the corrected compareTo is 0 exactly on equal tuples |
| `TupleOrder.CompareFixedTotalOrder` | Tuple.java:131-152 | the corrected compareTo is antisymmetric and transitive on all tuples |
| `TupleOrder.AlignedCompareAgrees` | Tuple.java:136-150 | when the field types line up index by index, compareTo as written equals the corrected one |
| `TupleOrder.CompareReflexive` | Tuple.java:131-152 | compareTo(t, t) == 0 |
| `TupleOrder.AlignedTotalOrder` | Tuple.java:131-152 | on tuples whose field types line up, compareTo is 0 exactly on equal tuples, antisymmetric and transitive |
| `TupleOrder.PrefixSortsFirst` | Tuple.java:151 | after an equal common prefix the shorter tuple is smaller (-1) and the longer larger (1) |
| `Doubles.Hash` | Tuple.java:158-161 | Double.hashCode xors the two 32-bit halves of the bit pattern, so equal halves give 0 |
| `TupleOrder.HashLoopAgreesWithHorner` | Tuple.java:158-161 | the 31 * h + x loop of String.hashCode and ArrayList.hashCode, run in 32-bit int arithmetic, agrees modulo 2^32 with the same loop run without wrap-around |
| `TupleOrder.LoopIsPolynomial` | Tuple.java:158-161 | the 32-bit loop from `start` gives start*31^n + x[0]*31^(n-1) + ... + x[n-1] modulo 2^32 |
| `TupleOrder.HornerIsPolynomial` | Tuple.java:158-161 | without wrap-around, that loop from `start` gives start*31^n + x[0]*31^(n-1) + ... + x[n-1] |
| `TupleOrder.StringHashIsPolynomial` | Tuple.java:158-161 | String.hashCode equals s[0]*31^(n-1) + ... + s[n-1] modulo 2^32 |
| `TupleOrder.HashIsPolynomial` | Tuple.java:158-161 | a tuple's hashCode, the ArrayList's, equals 31^n + hash(f0)*31^(n-1) + ... + hash(f(n-1)) modulo 2^32, with n the length of the field hash list, which `FieldHashes` ensures is the number of fields |
| `TupleOrder.HashOfOne` | Tuple.java:158-161 | a one-field tuple hashes to 31 + the field's hash code while that sum stays below 2^31 |
| `TupleOrder.AlignedEqualKeysHashAlike` | Tuple.java:131-161 | aligned tuples that compareTo calls equal have the same hashCode |
| `TupleOrder.CrossTypeCompareIsNotAnOrder` | Tuple.java:147-148 | as written, ["b"] and [0.0] compare 0, [0.0] and ["a"] compare 0, but ["b"] > ["a"]; ["a"] and [true] compare 0 yet hash differently |
| `TupleOrder.CorrectedOrderSeparatesTypes` | Tuple.java:147-148 | the corrected order gives the same pairs String.compareTo of their class names (Boolean < Double < String) |
| `TupleOrder.CompareFixedAgreesWithHash` | Tuple.java:131-161 | with the class names compared, tuples that compareTo calls equal have the same hashCode |
| `TupleText.FieldText` | Tuple.java:116-121 | a string prints as itself, a boolean as a four- or five-letter word, and a double that passes the longValue test as decimal text that reads back as that long |
| `TupleText.Render` | Tuple.java:110-125 | the empty tuple prints as the empty text and a one-field tuple as that field's text alone |
| `TupleText.Texts` | Tuple.java:113-123 | one text per field, in order, each the field's own text |
| `TupleText.JoinAppend` | Tuple.java:115 | joining two non-empty lists of pieces puts exactly one comma between them |
| `TupleText.RenderAppend` | Tuple.java:110-125 | the text of two non-empty tuples side by side is their texts with one comma between |
| `TupleText.RenderSnoc` | Tuple.java:113-123 | one more field adds a comma, unless it is the first, and then its text |
| `TupleText.SplitJoin` | Tuple.java:115 | cutting joined pieces at their commas gives back the pieces when none holds a comma (so there is no leading or trailing comma) |
| `TupleText.RenderSplitsBack` | Tuple.java:110-125 | cutting a tuple's text at its commas gives each field's text in order when none holds a comma |
| `TupleText.FieldTextCases` | Tuple.java:116-121 | booleans print as true and false; a double made from an Integer prints as that integer's decimal text |
| `TupleText.RenderExample` | Tuple.java:110-125 | ["alpha", 3.0, true] prints as `alpha,3,true` |
| `Tuples.Supported` | Tuple.java:199-209 | add(Object) appends at most one field |
| `Tuples.SupportedCases` | Tuple.java:199-209 | add(Object) appends one field exactly for a String, Double, Integer or Boolean; an Integer becomes the Double of the same value; an array adds nothing |
| `Tuples.FieldValue` | Tuple.java:218-221 | the value a field is handed to a script as is added back by add(Object) as that same field |
| `Tuples.FieldValues` | Tuple.java:218 | the array of a tuple's fields holds each field's value, in order |
| `Tuples.Params` | Tuple.java:216-226 | toParams gives null exactly for no field, the bare element for one, and for more an array of length n whose i-th element adds back as field i |
| `Tuples.SupportedFieldValues` | Tuple.java:199-226 | adding back the values of a tuple's fields rebuilds the tuple |
| `Tuples.ReadStep` | Tuple.java:99-103 | one element read extends the fields read so far by its field, if any, and moves the stream past it |
| `Tuples.EncodeFrom` | Tuple.java:71-86 | write from field i emits that field's bytes and then the rest, or only the string tag if writeUTF refuses the string |
| `Tuples.WriteField` | Tuple.java:73-85 | one write pass succeeds exactly when the field is writable, giving its bytes; otherwise only the string tag byte was written |
| `Tuples.ReadElement` | Tuple.java:99-102 | one readFields pass reads the element the codec defines |
| `Tuples.Tuple.constructor` | Tuple.java:57-60 | a new tuple has no fields |
| `Tuples.Tuple.Clear` | Tuple.java:167-170 | clear empties the tuple |
| `Tuples.Tuple.AddDouble` | Tuple.java:175-178 | appends one Double field |
| `Tuples.Tuple.AddString` | Tuple.java:183-186 | appends one String field |
| `Tuples.Tuple.AddBoolean` | Tuple.java:191-194 | appends one Boolean field |
| `Tuples.Tuple.Add` | Tuple.java:199-209 | the tuple grows by exactly the fields the supported-type filter keeps |
| `Tuples.Tuple.Write` | Tuple.java:68-88 | the bytes written and the success flag are the codec's encoding of the fields |
| `Tuples.Tuple.ReadFields` | Tuple.java:94-104 | the tuple's new fields, bytes consumed and whether the end marker was reached are the codec's decoding of the input, whatever the tuple held before |
| `Tuples.Tuple.ToString` | Tuple.java:110-125 | the text is the comma-joined field texts |
| `Tuples.Tuple.CompareTo` | Tuple.java:131-152 | the early-return loop computes compareTo with line 148 corrected to compare the two fields' class names |
| `Script.CallFunction` | Script.java:157-170 | a null function is a NullPointerException; a result is never undefined; an error escapes exactly when the engine fails with something other than a script exception |
| `Script.CallFunctionNormalises` | Script.java:157-170 | a null receiver means the global scope; undefined and a script exception both become null; any other value is returned as is |
| `Script.FirstNamed` | Script.java:137 | the index of the first property with the name, or the number of properties when none has it |
| `Script.GetProperty` | Script.java:134-139 | a missing property reads as null; otherwise the value of the first property with that name |
| `Script.DistinctNamesReadBack` | Script.java:134-139 | in an object with distinct property names, each property reads back as its own value |
| `Script.SplicingOneLevel` | Script.java:266-282 | [k, v1, v2] gives key [k] and value [v1, v2]; a nested key array gives its elements; arrays nested two deep are dropped |
| `Script.SplicedParams` | Script.java:266-272 | a tuple passed through toParams and returned in a result array comes back as the same tuple |
| `Script.MapReduceStep` | Script.java:250-284 | null and generator results pass through with the tuples untouched; any other non-array result is an IOException; an empty array is an error that clears the key and keeps the value |
| `Script.IdentityStep` | Script.java:257-283 | a function returning [toParams(k), toParams(v)] refills the tuples with k and v |
| `Script.AddSpliced` | Script.java:268-271 | one result element adds its fields, a nested array element by element |
| `Script.FillFromArray` | Script.java:266-282 | the key gets element 0 spliced and the value is cleared and then gets elements 1 onward, each spliced |
| `Script.CallMapReduce` | Script.java:250-284 | the result and the new key and value tuples are those of the classification |
| `Script.Sink.Write` | Script.java:307-309 | context.write appends one record holding the current key and value fields |
| `Script.DispatchMapReduce` | Script.java:294-311 | the records appended, the tuples left behind and the escaping error are those of the dispatch |
| `Script.DrainStep` | Script.java:306-307 | a pull that yields a result writes its record and the draining continues from the next pull |
| `Script.DrainGenerator` | Script.java:303-307 | the generator loop writes the records of the draining, in pull order |
| `Script.NullEmitsNothing` | Script.java:302-310 | a null result writes no record and leaves the tuples alone |
| `Script.ArrayEmitsOne` | Script.java:308-310 | a non-empty array result writes exactly one record, holding its key and value |
| `Script.DrainWritesEveryPull` | Script.java:303-307 | pulls that all yield arrays write one record each, holding what that pull filled, in pull order, and StopIteration ends the loop without error |
| `Script.DrainStopsAtNull` | Script.java:303-307 | the draining stops at the first pull that yields null: each earlier pull writes its record and nothing later is pulled |
| `Script.GeneratorEmitsPerPull` | Script.java:302-307 | a function returning a generator writes one record per pull |
| `Script.ArtifactText` | Script.java:327-343 | the stored text is parenthesised: an object becomes `{` + `name:text,` per property + `}`, an array is bracketed, anything else is its text |
| `Script.ObjectArtifactShape` | Script.java:333-341 | an empty object is `({})`; one property ends in a comma before the brace |
| `Script.Serialize` | Script.java:327-344 | the built text is the artifact text, and writeUTF accepts it exactly when it is at most 65535 bytes |
| `Script.FindIn` | Script.java:356-362 | none exactly when no file has the name; otherwise the contents of the first file that has it |
| `Script.Deserialize` | Script.java:353-365 | evaluates the first cached file with the name, and gives null for a null cache list or no match |
| `Script.StoredArtifactIsFound` | Script.java:356-362 | an artifact cached under its name is the one found, whatever files with other names follow it |
| `Payload.AsFunction` | Payload.java:74-77 | the cast succeeds exactly on null or a function, and gives null exactly for null |
| `Payload.Bind` | Payload.java:71-81 | a non-object assigns no hook other than fmapred and raises nothing; an object leaves fmapred alone |
| `Payload.BindObject` | Payload.java:72-77 | an object whose map, reduce, setup and cleanup properties are functions or absent binds each hook to its property of that name, null when absent, whatever its other properties hold |
| `Payload.MapFallback` | Payload.java:100 | a map stage uses fmap if bound and falls back to fmapred otherwise; no other hook changes |
| `Payload.ReduceFallback` | Payload.java:150 | a reduce or combine stage uses freduce if bound and falls back to fmapred otherwise; no other hook changes |
| `Payload.FunctionArtifactServesEveryStage` | Payload.java:79-100 | a single-function artifact becomes the map and the reduce function after the fallbacks |
| `Payload.TextMapArgs` | Payload.java:109-112 | two string arguments, in order: the key's text, whatever the input format's key is, and the line |
| `Payload.OffsetKeyReadsBack` | Payload.java:112 | under an offset-keyed input format the key argument is decimal text that reads back as the byte offset |
| `Payload.TupleMapArgs` | Payload.java:137 | two arguments that splice back into the key and value tuples |
| `Payload.ParamsAll` | EggIterator.java:85-89 | the iterator hands out each value tuple through toParams, in order |
| `Payload.ReduceArgs` | Payload.java:162-164 | the key through toParams and an iterator whose every item splices back into its value tuple |
| `Payload.IdentityMapCopiesRecord` | Payload.java:137-138 | a TupleMap stage running `return [key, value]` writes the input record back unchanged |
| `Payload.Task.constructor` | Payload.java:41-55 | a new Task starts idle, with two distinct empty scratch tuples and no hooks bound |
| `Payload.Task.Setup` | Payload.java:59-82 | the hooks are those bound from the artifact found under the name; the setup hook is called once, with the EggContext receiver, exactly when an object binds it; the error is the cast's or the hook's |
| `Payload.Task.Install` | Payload.java:71-81 | an object artifact goes through the casts and the setup hook; a function artifact becomes the combined map/reduce function; anything else binds nothing and is not an error |
| `Payload.Task.InstallObject` | Payload.java:72-78 | the hooks are the casts' result; on a failed cast nothing is called and the task is aborted; otherwise a bound setup hook is called once with the EggContext receiver and its error aborts the task |
| `Payload.Task.BindHooks` | Payload.java:72-77 | the four casts in order, stopping at the first that fails |
| `Payload.Task.Cleanup` | Payload.java:86-90 | the cleanup hook is called once if bound, then the engine exits; an engine error from the hook escapes before the exit |
| `Payload.Task.TextMapSetup` | Payload.java:96-101 | setup with map.js: the hook log, the error and the phase are those of setup; the map fallback is applied only when setup succeeded, and a failed setup leaves the hooks as setup bound them |
| `Payload.Task.TupleMapSetup` | Payload.java:121-126 | setup with map.js: the hook log, the error and the phase are those of setup; the map fallback is applied only when setup succeeded, and a failed setup leaves the hooks as setup bound them |
| `Payload.Task.ReduceSetup` | Payload.java:146-151 | setup with reduce.js: the hook log, the error and the phase are those of setup; the reduce fallback is applied only when setup succeeded, and a failed setup leaves the hooks as setup bound them |
| `Payload.Task.CombineSetup` | Payload.java:173-178 | setup with combine.js: the hook log, the error and the phase are those of setup; the reduce fallback is applied only when setup succeeded, and a failed setup leaves the hooks as setup bound them |
| `Payload.Task.TextMapMap` | Payload.java:109-114 | for any key text and line, the records, tuples and error are those of dispatching fmap with the two text arguments into the shared scratch tuples |
| `Payload.Task.TupleMapMap` | Payload.java:134-139 | dispatches fmap with the two tuples' toParams into the shared scratch tuples |
| `Payload.Task.ReduceReduce` | Payload.java:159-166 | dispatches freduce with the key and the value iterator into the shared scratch tuples |
| `Payload.Task.CombineReduce` | Payload.java:186-193 | the same dispatch as Reduce.reduce |
| `Payload.Stage` | Payload.java:113 | an unbound function field is a call through null |
| `Payload.UnboundStageFails` | Script.java:157-164 | a stage whose function was never bound fails on its first record without writing anything |

## Left out

- A property list (`JsValues.Property`) may repeat a name, which a NativeObject cannot. `JsValues.DistinctNames` states the invariant, and `Script.DistinctNamesReadBack` proves that under it every property reads back as its own value. The operations do not require it: `GetProperty` reads the first entry with a name, and `Entries` prints every entry.
- Modified UTF-8: strings are byte sequences, and writeUTF's encoding of characters into bytes is not modelled. Only the 65535-byte limit is kept.
- `TupleOrder.StringCompare` compares bytes, where String.compareTo compares UTF-16 code units. The two orders agree on ASCII text only.
- `TupleOrder.StringHash` is over bytes, not UTF-16 code units.
- `Doubles.Hash`: its contract states only that equal halves cancel; that the hash of a pattern with a zero high half is its low half is not stated, since bit-vector to integer conversion is beyond the solver's budget here. The body is the xor of the two halves.
- `NativeJavaObject.unwrap` in add(Object) is not modelled. Script values reach the tuple already unwrapped.
- Tuples.Tuple.Write: the branch that writes `ret.toString()` for a field of any other class is left out. Every path into a tuple adds only Double, String or Boolean, so that branch cannot be reached.
- `Double.toString` text for non-integral doubles is a parameter (`doubleText`), because it is floating-point formatting.
- `Context.toString` (the `jsText` parameter) and the evaluation of artifact text (the `eval` parameter) belong to the Rhino engine.
- Closed-over state of user functions, and Rhino generator internals. A generator is the finite list of what its pulls produce, so an infinite generator is not modelled.
- The global-scope `getProperty(String)` overload (Script.java:120-126) is not used by the core and is not modelled.
- The HDFS file creation, the writeUTF to the file and the DistributedCache registration in serialize are I/O and are left out. So is evalCache's standalone fallback to the `.eggshell` directory, and the IOException a missing or unreadable cache file would raise.
- Payload.Task.Setup: the engine start-up (new Script, the EggGlobal and EggContext objects) is represented only by the `engineOpen` flag.
- Script.Sink.Write: the serialization of the record by Hadoop is not modelled. context.write is the append of a snapshot.
- Egg.java, Eggshell.java, EggContext.java and EggGlobal.java (job configuration, the command line, counters and console I/O) are not part of this model. EggIterator.java is modelled only as the `Iterator` value that hands out each value tuple through toParams.
- Hadoop's task driver, which calls setup, then map or reduce for each record, then cleanup, is not modelled. The `phase` field records where a task is in that order, and the record methods require a running task.
- A generator pull that itself returns a generator leaves the key and value tuples as they were, so the loop writes the previous record again. The model has this behaviour, since it follows from the code, but no lemma states it.
- Uses of the empty-array case depend on Rhino's `NativeArray.get(int)`. Its List behaviour throws IndexOutOfBoundsException, which is the case modelled.

## Findings

| source | as written | input that shows it | evidently intended | confidence | as-written member | corrected member |
|---|---|---|---|---|---|---|
| Tuple.java:147-149 | for fields of different classes, compareTo compares `a.getClass().toString()` with itself, so the step is always 0 | ["b"] vs [0.0] is 0, [0.0] vs ["a"] is 0, but ["b"] vs ["a"] is 1; ["a"] vs [true] is 0 although their hash codes differ (128 and 1262) | compare `a`'s class name with `b`'s, ordering Boolean < Double < String, which makes compareTo a total order consistent with equality | not executed | `TupleOrder.CrossTypeCompareIsNotAnOrder` | `TupleOrder.CompareFixedTotalOrder` |

The corrected order is `TupleOrder.CompareFixed`. For a cross-type pair
it returns the difference of the first differing characters of the two
class names ('B', 'D' and 'S'), which is what `String.compareTo` of the
names gives. `Tuples.Tuple.CompareTo` computes the corrected order. The
order as written stays as `TupleOrder.Compare`, and its lemmas
(`CompareReflexive`, `AlignedTotalOrder`, `PrefixSortsFirst`) describe
the shipped code.
