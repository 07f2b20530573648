/** The slice of JavaScript's value universe that the service inspects:
    `typeof`, truthiness and own-property lookup, and the errors it throws. */
module JsValue {

  /** A JavaScript value. Numbers are integers (NaN, -0 and fractions are not
      distinguished); functions carry an identity only; objects, arrays
      included, are their own enumerable properties. */
  datatype Value =
    | Undefined
    | Null
    | Bool(b: bool)
    | Num(n: int)
    | Str(s: string)
    | Func(id: nat)
    | Obj(props: map<string, Value>)

  /** The result of JavaScript's `typeof` operator. Note `typeof null === 'object'`. */
  function TypeOf(v: Value): (t: string)
    ensures t == "object" <==> v.Null? || v.Obj?
    ensures t == "string" <==> v.Str?
    ensures t == "function" <==> v.Func?
  {
    match v
    case Undefined => "undefined"
    case Null => "object"
    case Bool(_) => "boolean"
    case Num(_) => "number"
    case Str(_) => "string"
    case Func(_) => "function"
    case Obj(_) => "object"
  }

  /** JavaScript truthiness: `undefined`, `null`, `false`, `0` and `''` are falsy. */
  predicate Truthy(v: Value) {
    match v
    case Undefined => false
    case Null => false
    case Bool(b) => b
    case Num(n) => n != 0
    case Str(s) => s != ""
    case Func(_) => true
    case Obj(_) => true
  }

  /** Values on which the `in` operator may be used without a TypeError. */
  predicate IsObjectLike(v: Value) {
    v.Obj? || v.Func?
  }

  /** `name in v` for an object-like `v`; functions have no modelled own properties. */
  predicate Has(v: Value, name: string)
    requires IsObjectLike(v)
  {
    v.Obj? && name in v.props
  }

  /** `v[name]` for an object-like `v`; a missing property reads as `undefined`. */
  function Property(v: Value, name: string): (r: Value)
    requires IsObjectLike(v)
    ensures !Has(v, name) ==> r == Undefined
  {
    if Has(v, name) then v.props[name] else Undefined
  }

  /** Why a TypeError was thrown. The first two are raised by the JavaScript
      engine itself; the others are the service's own `throw` statements. */
  datatype Reason =
    | InOperatorOnPrimitive      // `'x' in v` with `v` a primitive or null
    | PropertyOfNull             // `null[name]`
    | InvalidLocation            // location: no string `search`
    | OptsNotObject              // configure: `typeof opts !== 'object'`
    | KeyNotString               // configure: `typeof opts.key !== 'string'`
    | LocationNotObject          // configure: `typeof opts.location !== 'object'`
    | StorageNotObject           // configure: `typeof opts.storage !== 'object'`
    | MissingFunction(name: string)  // configure: storage lacks `getItem` / `setItem`

  /** What the service throws: a TypeError for a rejected argument, and a
      ReferenceError for an identifier that is not declared. */
  datatype Error = TypeError(reason: Reason) | ReferenceError(identifier: string)
}
