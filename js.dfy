/**
 The slice of JavaScript semantics that the .bim importer relies on: the tree that
 `JSON.parse` returns, the value `undefined` that a missing property reads as, the
 TypeError that a property read of `null` or `undefined` throws, ToBoolean (which
 decides `x || null`) and the own properties that `Object.assign` copies.
 */
module Js {

  /** A JavaScript number, kept as its IEEE 754 binary64 bit pattern. Numbers pass
      through the model untouched; only ToBoolean looks at them. */
  datatype Number = Number(bits: bv64)

  /** A value as `JSON.parse` returns it. Key order inside objects is not modelled. */
  datatype Json =
    | JNull
    | JBool(b: bool)
    | JNumber(n: Number)
    | JString(s: string)
    | JArray(items: seq<Json>)
    | JObject(props: map<string, Json>)

  /** The result of a property read: `undefined`, or a value decoded from JSON. */
  datatype JsValue = Undefined | Defined(json: Json)

  /** Which of the two values without properties a failing read was applied to. */
  datatype Nullish = NullBase | UndefinedBase

  /** The TypeErrors the importer can raise. */
  datatype TypeError =
    | CannotReadProperty(key: string, base: Nullish)  // `base.key` with base null or undefined
    | NotAFunction(key: string)                        // `base.key(...)` where base.key is no function

  datatype Option<T> = None | Some(value: T)

  /** Normal completion with a value, or a thrown TypeError. */
  datatype Result<T> = Ok(value: T) | Err(error: TypeError) {
    predicate IsFailure() {
      Err?
    }

    function PropagateFailure<U>(): Result<U>
      requires Err?
    {
      Err(error)
    }

    function Extract(): T
      requires Ok?
    {
      value
    }
  }

  predicate IsNullish(v: JsValue) {
    v.Undefined? || v.json.JNull?
  }

  function NullishKind(v: JsValue): Nullish
    requires IsNullish(v)
  {
    if v.Undefined? then UndefinedBase else NullBase
  }

  predicate IsArray(v: JsValue) {
    v.Defined? && v.json.JArray?
  }

  /** The member `key` of a decoded JSON object; `undefined` for a missing key and for
      every value that is not an object. */
  function Member(v: JsValue, key: string): JsValue {
    if v.Defined? && v.json.JObject? && key in v.json.props then Defined(v.json.props[key])
    else Undefined
  }

  /** The property read `base.key`. It is exact for the keys the importer reads
      (schema_version, info, meshes, elements, mesh_id, coordinates, indices, guid,
      vector, rotation, type, color, face_colors, x, y, z, qx, qy, qz, qw, r, g, b, a):
      none of them is a property that Object.prototype, Array.prototype,
      String.prototype, Number.prototype or Boolean.prototype defines, so on a
      decoded JSON value each reads an own property of an object or yields
      `undefined`. */
  function Get(base: JsValue, key: string): Result<JsValue>
  {
    if IsNullish(base) then Err(CannotReadProperty(key, NullishKind(base)))
    else Ok(Member(base, key))
  }

  /** Looking up `base.map` in order to call it: only an array has a callable `map`
      (a decoded JSON value never holds a function), a nullish base throws on the read
      and any other base throws because what it yields cannot be called. */
  function MapReceiver(base: JsValue): Result<seq<Json>> {
    if IsArray(base) then Ok(base.json.items)
    else if IsNullish(base) then Err(CannotReadProperty("map", NullishKind(base)))
    else Err(NotAFunction("map"))
  }

  /** +0, -0 and NaN: the numbers ToBoolean maps to false. */
  predicate IsZeroOrNaN(n: Number) {
    || (n.bits & 0x7FFF_FFFF_FFFF_FFFF) == 0
    || ((n.bits & 0x7FF0_0000_0000_0000) == 0x7FF0_0000_0000_0000
        && (n.bits & 0x000F_FFFF_FFFF_FFFF) != 0)
  }

  /** ToBoolean, section 7.1.2 of ECMA-262, on the values a property read can yield. */
  predicate Truthy(v: JsValue) {
    match v
    case Undefined => false
    case Defined(JNull) => false
    case Defined(JBool(b)) => b
    case Defined(JNumber(n)) => !IsZeroOrNaN(n)
    case Defined(JString(s)) => s != ""
    case Defined(JArray(_)) => true
    case Defined(JObject(_)) => true
  }

  /** The expression `v || null`. */
  function OrNull(v: JsValue): (r: Json)
    ensures Truthy(v) ==> Defined(r) == v
    ensures !Truthy(v) ==> r == JNull
    ensures r == JNull || Truthy(Defined(r))
  {
    if Truthy(v) then v.json else JNull
  }

  /** The canonical decimal spelling of an array index, as used for property keys. */
  function Decimal(n: nat): (s: string)
    ensures |s| >= 1
    ensures forall i :: 0 <= i < |s| ==> '0' <= s[i] <= '9'
    ensures n >= 10 ==> |s| >= 2
  {
    if n < 10 then [DigitChar(n)] else Decimal(n / 10) + [DigitChar(n % 10)]
  }

  function DigitChar(d: nat): (c: char)
    requires d < 10
    ensures '0' <= c <= '9'
    ensures c as int - '0' as int == d
  {
    (48 + d) as char
  }

  /** Distinct indices have distinct keys. */
  lemma {:induction false} DecimalInjective(m: nat, n: nat)
    ensures Decimal(m) == Decimal(n) ==> m == n
  {
    if Decimal(m) == Decimal(n) {
      if m >= 10 && n >= 10 {
        var sm, sn := Decimal(m), Decimal(n);
        assert sm[|sm| - 1] == sn[|sn| - 1];
        assert Decimal(m / 10) == sm[..|sm| - 1] == sn[..|sn| - 1] == Decimal(n / 10);
        DecimalInjective(m / 10, n / 10);
      }
    }
  }

  /** The own enumerable properties of an array-like value: index keys "0", "1", ... */
  function IndexedProperties(items: seq<Json>): map<string, Json>
    decreases |items|
  {
    if items == [] then map[]
    else IndexedProperties(items[..|items| - 1])[Decimal(|items| - 1) := items[|items| - 1]]
  }

  lemma {:induction false} IndexedPropertiesAt(items: seq<Json>, i: nat)
    requires i < |items|
    ensures Decimal(i) in IndexedProperties(items)
    ensures IndexedProperties(items)[Decimal(i)] == items[i]
  {
    var n := |items| - 1;
    if i < n {
      IndexedPropertiesAt(items[..n], i);
      DecimalInjective(i, n);
    }
  }

  lemma {:induction false} IndexedPropertiesKeys(items: seq<Json>, k: string)
    requires k in IndexedProperties(items)
    ensures exists i :: 0 <= i < |items| && k == Decimal(i)
  {
    var n := |items| - 1;
    if k != Decimal(n) {
      IndexedPropertiesKeys(items[..n], k);
    }
  }

  /** The one-character strings that a string's index properties hold. Dafny characters
      are Unicode scalar values where JavaScript indexes UTF-16 code units. */
  function Characters(s: string): seq<Json> {
    seq(|s|, i requires 0 <= i < |s| => JString([s[i]]))
  }

  /** The properties that `Object.assign(target, source)` (section 20.1.2.1 of ECMA-262)
      creates on a fresh ordinary object: the own enumerable string-keyed properties of
      `source`. Null and undefined are skipped; booleans and numbers have none; a string
      and an array contribute their indices. A "__proto__" key is assigned through the
      inherited `__proto__` setter, which sets the prototype (for an object or null value)
      and creates no property. */
  function AssignedProperties(source: JsValue): map<string, Json> {
    match source
    case Undefined => map[]
    case Defined(JNull) => map[]
    case Defined(JBool(_)) => map[]
    case Defined(JNumber(_)) => map[]
    case Defined(JString(s)) => IndexedProperties(Characters(s))
    case Defined(JArray(items)) => IndexedProperties(items)
    case Defined(JObject(props)) => props - {"__proto__"}
  }

  /** Index keys are digit strings, so no source gives the copy a "__proto__" key. */
  lemma AssignedPropertiesHaveNoProto(source: JsValue)
    ensures "__proto__" !in AssignedProperties(source)
  {
    match source
    case Defined(JString(s)) => IndexKeysAreNotProto(Characters(s));
    case Defined(JArray(items)) => IndexKeysAreNotProto(items);
    case _ =>
  }

  lemma IndexKeysAreNotProto(items: seq<Json>)
    ensures "__proto__" !in IndexedProperties(items)
  {
    assert "__proto__"[0] == '_';
    if "__proto__" in IndexedProperties(items) {
      IndexedPropertiesKeys(items, "__proto__");
    }
  }
}
