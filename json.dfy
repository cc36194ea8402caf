/** Decoded JSON values as `json.loads` produces them, with Python's truthiness, `dict.get`
    and the coercions the result models' typed fields apply. */
module Json {
  import opened Common

  datatype Json =
    | JNull
    | JBool(b: bool)
    | JInt(i: int)
    | JFloat(f: real)
    | JStr(s: string)
    | JArr(items: seq<Json>)
    | JObj(fields: map<string, Json>)

  /** `bool(v)` for a decoded value. */
  predicate Truthy(j: Json) {
    match j
    case JNull => false
    case JBool(b) => b
    case JInt(i) => i != 0
    case JFloat(f) => f != 0.0
    case JStr(s) => s != ""
    case JArr(items) => |items| > 0
    case JObj(fields) => |fields| > 0
  }

  /** `d.get(key, default)`. */
  function Get(fields: map<string, Json>, key: string, default: Json): (v: Json)
    ensures key in fields ==> v == fields[key]
    ensures key !in fields ==> v == default
  {
    if key in fields then fields[key] else default
  }

  /** A value stored into a `str` field: only a JSON string is accepted. */
  function AsString(j: Json): (r: Result<string>)
    ensures r.Success? <==> j.JStr?
    ensures r.Success? ==> r.value == j.s
    ensures r.Failure? ==> r.error == RuntimeError
  {
    if j.JStr? then Success(j.s) else Failure(RuntimeError)
  }

  /** A value stored into an `int` field: only a JSON integer is accepted. */
  function AsInt(j: Json): (r: Result<int>)
    ensures r.Success? <==> j.JInt?
    ensures r.Success? ==> r.value == j.i
    ensures r.Failure? ==> r.error == RuntimeError
  {
    if j.JInt? then Success(j.i) else Failure(RuntimeError)
  }

  /** A value stored into a `float` field: a JSON integer or a JSON number with a fraction. */
  function AsReal(j: Json): (r: Result<real>)
    ensures r.Success? <==> j.JInt? || j.JFloat?
    ensures j.JInt? ==> r == Success(j.i as real)
    ensures j.JFloat? ==> r == Success(j.f)
    ensures r.Failure? ==> r.error == RuntimeError
  {
    match j
    case JInt(i) => Success(i as real)
    case JFloat(f) => Success(f)
    case _ => Failure(RuntimeError)
  }
}
