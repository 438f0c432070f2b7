/** JavaScript values as the coordination core sees them: primitives compared
    by value, objects and functions compared by identity. */
module Values {

  /** A JavaScript value. `Obj` and `Fn` carry the object's identity, so `==`
      on `Value` is JavaScript's strict equality `===` (NaN is not modelled).
      `Arr` is an argument list stored inside a record. */
  datatype Value =
    | Undefined
    | Null
    | Bool(b: bool)
    | Num(n: int)
    | Str(s: string)
    | Obj(oid: nat)
    | Fn(fid: nat)
    | Arr(items: seq<Value>)

  /** A plain object: its own enumerable properties. */
  type Record = map<string, Value>

  /** An array element or a matched item: `undefined` or an object. */
  datatype Entry = Missing | Present(fields: Record)

  datatype Option<T> = None | Some(value: T)

  /** What the core throws. */
  datatype Error =
    | DuplicatedName     // river.branch, "Duplicated name"
    | ParameterIsNull    // Arguments.assertNonNullFn, "Parameter is null"
    | NotAFunction       // the host's TypeError on calling a non-function

  /** A call that returns normally with a value or throws. */
  datatype Outcome<T> = Return(value: T) | Throw(error: Error)

  /** One invocation of an external callback: its identity and arguments. */
  datatype Call = Call(fn: nat, args: seq<Value>)

  /** Property read `r[k]`: an absent property reads as `undefined`. */
  function Get(r: Record, k: string): Value
  {
    if k in r then r[k] else Undefined
  }

  /** JavaScript truthiness, as used by `!!fun`. */
  predicate Truthy(v: Value)
  {
    match v
    case Undefined => false
    case Null => false
    case Bool(b) => b
    case Num(n) => n != 0
    case Str(s) => s != ""
    case _ => true
  }

  /** Shallow `$.extend(base, src)`: every property of `src` whose value is not
      `undefined` overwrites the one in `base`. */
  function Extend(base: Record, src: Record): (r: Record)
    ensures r.Keys == base.Keys + (set k | k in src && src[k] != Undefined)
    ensures forall k :: k in src && src[k] != Undefined ==> r[k] == src[k]
    ensures forall k :: k in base && (k !in src || src[k] == Undefined) ==> r[k] == base[k]
  {
    base + map k | k in src && src[k] != Undefined :: src[k]
  }

  /** `Arguments.isNonNullFn`: neither `undefined` nor `null`, and a function;
      exactly the function values pass. */
  predicate IsNonNullFn(v: Value): (r: bool)
    ensures r <==> v.Fn?
  {
    v != Undefined && v != Null && v.Fn?
  }
}
