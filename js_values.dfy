/** JavaScript values as the QuickJS binding hands them to Rust, and the
    conversions from them that the wrapper relies on. */
module JsValues {

  /** An `f32` kept as its IEEE-754 bit pattern: it is only passed through. */
  type F32 = bv32

  datatype JsValue =
    | Undefined
    | Null
    | Bool(b: bool)
    /** a number that is a non-negative integer */
    | Num(n: nat)
    /** the number made from an `f32` */
    | Float(bits: F32)
    | Str(s: string)
    | Arr(items: seq<JsValue>)
    | Obj(props: map<string, JsValue>)
    /** any other value the engine tags as an object (a function, a
        constructor, a promise, ...); none of its properties is modelled */
    | OpaqueObject
    /** a value that is not an object (a symbol, a big integer) */
    | Other

  /** Failures reported by the engine (`rquickjs::Error`), kept opaque. */
  datatype EngineError =
    /** a value did not convert to the requested Rust type */
    | FromJs
    /** `rquickjs::Error::Unknown` */
    | Unknown
    /** any other engine failure (an exception, out of memory, ...) */
    | Foreign(code: nat)

  /** `Value::as_object` succeeds: every value the engine tags as an
      object, which includes arrays and functions */
  predicate IsObject(v: JsValue) {
    v.Obj? || v.Arr? || v.OpaqueObject?
  }

  /** `obj.get::<_, Value>(key)`: a missing property reads as `undefined`.
      Of an array's properties only `length` is modelled, and of the other
      objects none. */
  function Get(v: JsValue, key: string): JsValue
    requires IsObject(v)
  {
    match v
    case Obj(props) => if key in props then props[key] else Undefined
    case Arr(items) => if key == "length" then Num(|items|) else Undefined
    case OpaqueObject => Undefined
  }

  predicate IsNullish(v: JsValue) {
    v.Null? || v.Undefined?
  }

  /** The JS array a `Vec<String>` converts to. */
  function StrArray(xs: seq<string>): (r: JsValue)
    ensures r.Arr? && |r.items| == |xs|
    ensures forall i :: 0 <= i < |xs| ==> r.items[i] == Str(xs[i])
  {
    Arr(seq(|xs|, i requires 0 <= i < |xs| => Str(xs[i])))
  }
}
