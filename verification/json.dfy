/** The scalar JSON values the core reads out of structs and settings, and
    the nlohmann `get<T>()` conversions it applies to them.

    A JSON object whose key order matters (a row handed to a serializer or to
    the embedding concatenation) is an `Object`: its entries in iteration
    order. An object read only by key (model and prompt details, settings) is
    a `map<string, Json>`, whose size is its number of keys.
 */
module Json {
  import opened Results

  datatype Json =
    | JNull
    | JBool(b: bool)
    | JInt(i: int)
    | JFloat(f: real)
    | JString(s: string)

  /** A JSON object's entries, in the order `items()` visits them. */
  type Object = seq<(string, Json)>

  function Keys(o: Object): (ks: seq<string>)
    ensures |ks| == |o|
    ensures forall i :: 0 <= i < |o| ==> ks[i] == o[i].0
  {
    if o == [] then [] else [o[0].0] + Keys(o[1..])
  }

  /** nlohmann's `type_name()`: every kind of number is "number". */
  function TypeName(j: Json): string {
    match j
    case JNull => "null"
    case JBool(_) => "boolean"
    case JInt(_) => "number"
    case JFloat(_) => "number"
    case JString(_) => "string"
  }

  /** The exceptions a failed `get<T>()` throws name the expected kind and
      the kind found. */
  function StringTypeError(j: Json): string {
    "[json.exception.type_error.302] type must be string, but is " + TypeName(j)
  }

  function NumberTypeError(j: Json): string {
    "[json.exception.type_error.302] type must be number, but is " + TypeName(j)
  }

  /** `get<std::string>()`: only a JSON string converts. */
  function GetString(j: Json): (r: Result<string>)
    ensures r.Ok? <==> j.JString?
    ensures r.Ok? ==> r.value == j.s
    ensures r.Err? ==> r.error == StringTypeError(j)
  {
    match j
    case JString(s) => Ok(s)
    case _ => Err(StringTypeError(j))
  }

  /** Truncation toward zero, as a C++ floating-to-integer cast does. */
  function Truncate(f: real): (n: int)
    ensures f >= 0.0 ==> n as real <= f < n as real + 1.0
    ensures f < 0.0 ==> n as real - 1.0 < f <= n as real
  {
    if f >= 0.0 then f.Floor else -((-f).Floor)
  }

  /** A C++ `static_cast<int>` from a wider integer: two's-complement
      wrap-around into the 32-bit signed range. */
  function WrapInt32(n: int): (w: int)
    ensures -0x8000_0000 <= w < 0x8000_0000
    ensures (w - n) % 0x1_0000_0000 == 0
    ensures -0x8000_0000 <= n < 0x8000_0000 ==> w == n
  {
    var m := n % 0x1_0000_0000;
    if m >= 0x8000_0000 then m - 0x1_0000_0000 else m
  }

  /** `get<int>()`: booleans, integers and floats convert; anything else is
      a type error. */
  function GetInt(j: Json): (r: Result<int>)
    ensures r.Ok? <==> (j.JBool? || j.JInt? || j.JFloat?)
    ensures r.Ok? ==> -0x8000_0000 <= r.value < 0x8000_0000
    ensures r.Err? ==> r.error == NumberTypeError(j)
    ensures j.JInt? && -0x8000_0000 <= j.i < 0x8000_0000 ==> r == Ok(j.i)
  {
    match j
    case JBool(b) => Ok(if b then 1 else 0)
    case JInt(i) => Ok(WrapInt32(i))
    case JFloat(f) => Ok(WrapInt32(Truncate(f)))
    case _ => Err(NumberTypeError(j))
  }

  /** `get<float>()`: booleans, integers and floats convert; the rounding to
      single precision is not modelled. */
  function GetFloat(j: Json): (r: Result<real>)
    ensures r.Ok? <==> (j.JBool? || j.JInt? || j.JFloat?)
    ensures j.JFloat? ==> r == Ok(j.f)
    ensures r.Err? ==> r.error == NumberTypeError(j)
  {
    match j
    case JBool(b) => Ok(if b then 1.0 else 0.0)
    case JInt(i) => Ok(i as real)
    case JFloat(f) => Ok(f)
    case _ => Err(NumberTypeError(j))
  }
}
