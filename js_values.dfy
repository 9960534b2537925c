/** The values that cross the React Native bridge (`ReadableMap`, `WritableArray`, ...). */
module JsValues {
  import opened Nullable

  /** A JavaScript value as the bridge sees it. Numbers are JavaScript doubles; NaN and the infinities are not modelled. */
  datatype JsValue =
    | JNull
    | JBool(b: bool)
    | JNumber(n: real)
    | JString(s: string)
    | JMap(entries: map<string, JsValue>)
    | JArray(elements: seq<JsValue>)

  /** `com.facebook.react.bridge.ReadableType`: the dynamic type tag that `ReadableMap.getType` reports. */
  datatype ReadableType = Null | Boolean | Number | String | Map | Array

  function TypeOf(v: JsValue): (t: ReadableType)
    ensures t == Null <==> v.JNull?
    ensures t == Boolean <==> v.JBool?
    ensures t == Number <==> v.JNumber?
    ensures t == String <==> v.JString?
    ensures t == Map <==> v.JMap?
    ensures t == Array <==> v.JArray?
  {
    match v
    case JNull => Null
    case JBool(_) => Boolean
    case JNumber(_) => Number
    case JString(_) => String
    case JMap(_) => Map
    case JArray(_) => Array
  }

  /** A `ReadableMap`: keys to bridge values. */
  type ReadableMap = map<string, JsValue>

  /** `options.hasKey(key) && options.getType(key) == t`: `getType` is asked only about a key that is
      present, and a key passes only when its value has the type's variant, so the matching typed getter
      (`getInt`, `getBoolean`, `getString`) can read it. */
  predicate HasKeyOfType(options: ReadableMap, key: string, t: ReadableType): (r: bool)
    ensures key !in options ==> !r
    ensures r && t == Number ==> options[key].JNumber?
    ensures r && t == Boolean ==> options[key].JBool?
    ensures r && t == String ==> options[key].JString?
    ensures key in options && TypeOf(options[key]) == t ==> r
  {
    key in options && TypeOf(options[key]) == t
  }

  /** Java's 32-bit `int`. */
  newtype int32 = x: int | -0x8000_0000 <= x < 0x8000_0000

  /** Java's 64-bit `long`. */
  newtype int64 = x: int | -0x8000_0000_0000_0000 <= x < 0x8000_0000_0000_0000

  /** The integer part of `x`, rounding toward zero (Java's narrowing of a double). */
  function Truncate(x: real): (r: int)
    ensures 0.0 <= x ==> r as real <= x < r as real + 1.0
    ensures x < 0.0 ==> r as real - 1.0 < x <= r as real
  {
    if 0.0 <= x then x.Floor else -((-x).Floor)
  }

  /** `ReadableMap.getInt`: the number narrowed by Java's `(int)` cast of a double, which rounds toward
      zero and saturates at the bounds of `int`. */
  function JavaIntCast(x: real): (r: int32)
    ensures -0x8000_0000 < Truncate(x) < 0x7fff_ffff ==> r as int == Truncate(x)
    ensures Truncate(x) <= -0x8000_0000 ==> r == -0x8000_0000
    ensures 0x7fff_ffff <= Truncate(x) ==> r == 0x7fff_ffff
  {
    var t := Truncate(x);
    if t < -0x8000_0000 then -0x8000_0000
    else if 0x7fff_ffff < t then 0x7fff_ffff
    else t as int32
  }

  /** `WritableArray`, reduced to the pushes the bridge uses to build event payloads. */
  class WritableArray {
    var elements: seq<JsValue>

    /** `Arguments.createArray()` */
    constructor ()
      ensures elements == []
    {
      elements := [];
    }

    /** `pushNull()` */
    method PushNull()
      modifies this
      ensures elements == old(elements) + [JNull]
    {
      elements := elements + [JNull];
    }

    /** `pushMap(map)`: the map's entries as they are when pushed. */
    method PushMap(entries: map<string, JsValue>)
      modifies this
      ensures elements == old(elements) + [JMap(entries)]
    {
      elements := elements + [JMap(entries)];
    }

    /** `pushString(s)`: a Java null string is pushed as `null`. */
    method PushString(s: Option<string>)
      modifies this
      ensures elements == old(elements) + [if s.None? then JNull else JString(s.value)]
    {
      elements := elements + [if s.None? then JNull else JString(s.value)];
    }
  }

  /** `WritableMap`, reduced to `putString`. */
  class WritableMap {
    var entries: map<string, JsValue>

    /** `Arguments.createMap()` */
    constructor ()
      ensures entries == map[]
    {
      entries := map[];
    }

    /** `putString(key, value)`: a Java null string is stored as `null`. */
    method PutString(key: string, value: Option<string>)
      modifies this
      ensures entries == old(entries)[key := if value.None? then JNull else JString(value.value)]
    {
      entries := entries[key := if value.None? then JNull else JString(value.value)];
    }
  }
}
