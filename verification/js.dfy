/**
 * The fragment of JavaScript value semantics the relay relies on: the values
 * JSON.parse can produce, truthiness, `typeof x === 'object'`, property
 * access, the nullish-coalescing operator `??` and strict equality `===`.
 */
module Js {
  import opened Options

  /**
   * A JavaScript value. `Undefined` never comes out of JSON.parse; it is what
   * reading an absent property yields. Numbers are kept as reals: JSON text
   * cannot denote NaN, so the only falsy number is zero (and minus zero,
   * which is the same real).
   */
  datatype Value =
    | Undefined
    | Null
    | Bool(b: bool)
    | Num(n: real)
    | Str(s: string)
    | Arr(items: seq<Value>)
    | Obj(props: map<string, Value>)

  /** ToBoolean: the falsy values are undefined, null, false, 0 and "". */
  predicate Truthy(v: Value) {
    match v
    case Undefined => false
    case Null => false
    case Bool(b) => b
    case Num(n) => n != 0.0
    case Str(s) => s != ""
    case Arr(_) => true
    case Obj(_) => true
  }

  /** `typeof v === 'object'`, which holds for null, arrays and objects. */
  predicate IsObjectType(v: Value) {
    v.Null? || v.Arr? || v.Obj?
  }

  /** `undefined` or `null`: the values `??` and `?.` treat as missing. */
  predicate IsNullish(v: Value) {
    v.Undefined? || v.Null?
  }

  /** A value without identity: everything but arrays and objects. */
  predicate IsPrimitive(v: Value) {
    !(v.Arr? || v.Obj?)
  }

  /**
   * `v[key]` for the property names the relay reads (`type`, `tableId`,
   * `clientId`, `payload`): an own property of a parsed object, and
   * undefined otherwise. No inherited property and no array property has
   * one of those names.
   */
  function Get(v: Value, key: string): (r: Value)
    ensures !r.Undefined? ==> v.Obj? && key in v.props
    ensures v.Obj? && key in v.props ==> r == v.props[key]
  {
    if v.Obj? && key in v.props then v.props[key] else Undefined
  }

  /** `a ?? b` */
  function Coalesce(a: Value, b: Value): Value {
    if IsNullish(a) then b else a
  }

  /**
   * `a === b`. Arrays and objects compare by identity, which a value model
   * does not carry; the relay only ever compares against a stored table id,
   * which is a string or null, and against a primitive `===` is structural.
   */
  predicate StrictEquals(a: Value, b: Value) {
    IsPrimitive(a) && a == b
  }

  /** The JavaScript value of a nullable string field. */
  function FromNullable(o: Option<string>): (v: Value)
    ensures IsPrimitive(v)
    ensures v.Null? <==> o.None?
    ensures o.Some? ==> v == Str(o.value)
  {
    match o
    case None => Null
    case Some(s) => Str(s)
  }

  /** `typeof v === 'string' ? v : null` */
  function StringOrNull(v: Value): (o: Option<string>)
    ensures o.Some? <==> v.Str?
    ensures o.Some? ==> v == Str(o.value)
  {
    if v.Str? then Some(v.s) else None
  }

  /**
   * Only a non-empty string can be a truthy value strictly equal to a
   * nullable string: numbers, booleans, arrays and objects never match.
   */
  lemma MatchesNullableOnlyAsString(o: Option<string>, t: Value)
    requires Truthy(t)
    ensures StrictEquals(FromNullable(o), t) <==> o.Some? && t == Str(o.value)
  {
  }
}
