/** The JavaScript values (Rhino objects) that cross the bridge, and the
    outcome of calling a script function. */
module JsValues {
  import opened Bytes
  import opened Doubles

  /** Identifies one script function object. */
  type FunctionId = nat

  /** One own enumerable property of a plain object, in property-id order. */
  datatype Property = Property(name: seq<byte>, value: JsValue)

  /** A NativeObject holds each property name at most once; every object
      the bridge builds or reads satisfies this. */
  predicate DistinctNames(props: seq<Property>) {
    forall i, j :: 0 <= i < j < |props| ==> props[i].name != props[j].name
  }

  datatype JsValue =
    | Null                              // Java null
    | Undefined                         // Rhino's Undefined.instance
    | Num(d: Double)                    // java.lang.Double
    | Int(i: Int32)                     // java.lang.Integer
    | Str(s: seq<byte>)                 // java.lang.String
    | Bool(b: bool)                     // java.lang.Boolean
    | Array(elems: seq<JsValue>)        // NativeArray
    | Object(props: seq<Property>)      // NativeObject
    | Function(id: FunctionId)          // a script Function
    | Generator(pulls: seq<Outcome>)    // NativeGenerator: what successive next() calls produce
    | Iterator(items: seq<JsValue>)     // EggIterator: what successive next() calls return
    | Other                             // any other host object

  /** What calling a script function does.  Thrown is a JavaScriptException
      (a script `throw`, and also the StopIteration an exhausted generator
      raises); Failed is any other Rhino error, such as a TypeError, which
      no layer of the bridge catches. */
  datatype Outcome = Returned(v: JsValue) | Thrown | Failed

  /** The `this` object a function runs against. */
  datatype Receiver = GlobalScope | EggContext | GeneratorObject

  /** The user's script: what each call of a script function produces. */
  type Engine = (FunctionId, Receiver, seq<JsValue>) -> Outcome
}
