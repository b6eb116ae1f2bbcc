/** JavaScript values as the services see them: JSON data read back from
    storage or parsed from a request body, plus the exceptions the services
    raise and the truthiness and property-access rules they rely on. */
module Js {

  datatype Option<+T> = None | Some(value: T)

  /** A JSON value. JSON has no `undefined`: a missing property is `None`
      where an `Option<Json>` is expected. Numbers are exact reals, so the
      rounding of IEEE doubles is not part of the model. */
  datatype Json =
    | JNull
    | JBool(b: bool)
    | JNum(n: real)
    | JStr(s: string)
    | JArr(elems: seq<Json>)
    | JObj(fields: map<string, Json>)

  /** A plain JS object: every record the services store (items, players). */
  type Obj = map<string, Json>

  /** The exceptions that can escape a service call. `StorageFull` and
      `SaveFailed` are the two errors of the storage layer; `TypeError` is
      what the engine throws when code reads a property of `null`, calls a
      method that does not exist, or uses a non-array as a list;
      `RangeError` is what `toISOString` throws for an invalid date. The
      engine's own message text is not modelled. */
  datatype Exception = StorageFull | SaveFailed | TypeError | RangeError {
    function Message(): string {
      match this
      case StorageFull => "Storage is full. Please delete some items to create new ones."
      case SaveFailed => "Failed to save data"
      case TypeError => "TypeError"
      case RangeError => "Invalid time value"
    }
  }

  /** The outcome of a call that may throw. */
  datatype Result<+T> = Ok(value: T) | Err(exc: Exception) {
    predicate IsFailure() { Err? }
    function PropagateFailure<U>(): Result<U>
      requires Err?
    {
      Err(exc)
    }
    function Extract(): T
      requires Ok?
    {
      value
    }
  }

  /** JS truthiness of a JSON value. */
  predicate Truthy(j: Json) {
    match j
    case JNull => false
    case JBool(b) => b
    case JNum(n) => n != 0.0
    case JStr(s) => s != ""
    case JArr(_) => true
    case JObj(_) => true
  }

  /** Truthiness of a value that may be `undefined`. */
  predicate TruthyOpt(o: Option<Json>) {
    o.Some? && Truthy(o.value)
  }

  /** `typeof v === "string"` etc. for a possibly-undefined value. */
  predicate IsStringOpt(o: Option<Json>) { o.Some? && o.value.JStr? }
  predicate IsNumberOpt(o: Option<Json>) { o.Some? && o.value.JNum? }
  predicate IsBoolOpt(o: Option<Json>) { o.Some? && o.value.JBool? }

  /** `Number.isInteger` on a finite number. */
  predicate IsIntegral(r: real) { r.Floor as real == r }

  /** Reading `v[key]`: `null` throws, objects look the key up, every other
      value has none of the properties the services read. */
  function Prop(j: Json, key: string): (r: Result<Option<Json>>)
    ensures r.Err? <==> j.JNull?
    ensures r.Ok? && r.value.Some? ==> j.JObj? && key in j.fields && r.value.value == j.fields[key]
  {
    match j
    case JNull => Err(TypeError)
    case JObj(m) => Ok(if key in m then Some(m[key]) else None)
    case _ => Ok(None)
  }

  /** Reading a property of a request body that may be `undefined`. */
  function BodyProp(body: Option<Json>, key: string): (r: Result<Option<Json>>)
    ensures r.Err? <==> (body.None? || body.value.JNull?)
  {
    match body
    case None => Err(TypeError)
    case Some(j) => Prop(j, key)
  }

  /** Field of an object, `None` when absent. */
  function Field(o: Obj, key: string): Option<Json> {
    if key in o then Some(o[key]) else None
  }

  /** `a === b` for JSON data. Arrays and objects compare by identity, and a
      value freshly parsed from storage is never identical to a request
      value, so they are never strictly equal here. */
  predicate StrictEquals(a: Json, b: Json) {
    a == b && !a.JArr? && !a.JObj?
  }

  /** `record.id === id`: the record must be an object with that id. */
  predicate HasId(record: Json, id: Json) {
    record.JObj? && "id" in record.fields && StrictEquals(record.fields["id"], id)
  }

  /** The value of `x || fallback` for a possibly-undefined `x`. */
  function OrElse(o: Option<Json>, fallback: Json): (r: Json)
    ensures TruthyOpt(o) ==> r == o.value
    ensures !TruthyOpt(o) ==> r == fallback
  {
    if TruthyOpt(o) then o.value else fallback
  }
}
