/** Decoded JSON values as the backend handles them, the Python exceptions
    its code can raise on them, and the dictionary operations it applies:
    `d[key]`, `d.get(key, default)` and `str(x)`. */
module Json {
  import opened PyStrings

  /** What `json.load` / `response.json()` produce: objects have string keys.
      A JSON number with a fraction or an exponent becomes a Python float,
      carried here by its `repr`, which is also what `str()` gives for it. */
  datatype Json =
    | Null
    | Bool(b: bool)
    | Int(i: int)
    | Float(repr: string)
    | Str(s: string)
    | Arr(items: seq<Json>)
    | Obj(fields: map<string, Json>)

  /** The exceptions the modelled code can raise. `DecodeError` is
      `json.JSONDecodeError`; `FileNotFound` is `open` on a missing path;
      `RequestError` is an exception `requests.get` raises (no connection, a
      timeout); `Unmodelled` marks `str()` of a list or dict, which the model
      does not spell out. */
  datatype Error =
    | KeyError(key: string)
    | TypeError
    | AttributeError
    | IndexError
    | ValueError
    | DecodeError
    | FileNotFound
    | RequestError
    | Unmodelled

  datatype Result<+T> = Ok(value: T) | Err(error: Error)

  /** `j[key]` with a string key: a dict without the key raises KeyError, any
      other kind of value (list, str, int, None) raises TypeError. */
  function Subscript(j: Json, key: string): (r: Result<Json>)
    ensures r.Ok? <==> j.Obj? && key in j.fields
    ensures r.Ok? ==> r.value == j.fields[key]
    ensures j.Obj? && key !in j.fields ==> r == Err(KeyError(key))
    ensures !j.Obj? ==> r == Err(TypeError)
  {
    match j
    case Obj(m) => if key in m then Ok(m[key]) else Err(KeyError(key))
    case _ => Err(TypeError)
  }

  /** `d.get(key, default)`: only a dict has `.get` (AttributeError
      otherwise); a list or dict key is unhashable (TypeError); a key that is
      not a string never equals a JSON object's string keys. */
  function Get(d: Json, key: Json, default: Json): (r: Result<Json>)
    ensures !d.Obj? ==> r == Err(AttributeError)
    ensures d.Obj? && (key.Arr? || key.Obj?) ==> r == Err(TypeError)
    ensures r.Ok? <==> d.Obj? && !key.Arr? && !key.Obj?
    ensures r.Ok? && key.Str? && key.s in d.fields ==> r.value == d.fields[key.s]
    ensures r.Ok? && !(key.Str? && key.s in d.fields) ==> r.value == default
  {
    match d
    case Obj(m) =>
      (match key
       case Str(s) => Ok(if s in m then m[s] else default)
       case Arr(_) => Err(TypeError)
       case Obj(_) => Err(TypeError)
       case _ => Ok(default))
    case _ => Err(AttributeError)
  }

  /** `str(x)` of a decoded JSON value: a string is itself, and the text of
      a non-negative int reads back as that int. */
  function ToStr(j: Json): (r: Result<string>)
    ensures r.Ok? <==> !j.Arr? && !j.Obj?
    ensures j.Str? ==> r == Ok(j.s)
    ensures j.Int? && j.i >= 0 ==> ParseInt(r.value) == Some(j.i)
    ensures j.Bool? ==> r == Ok(if j.b then "True" else "False")
  {
    match j
    case Null => Ok("None")
    case Bool(b) => Ok(if b then "True" else "False")
    case Float(f) => Ok(f)
    case Int(n) =>
      if n >= 0 then ParseNatString(n); Ok(IntToString(n)) else Ok(IntToString(n))
    case Str(s) => Ok(s)
    case _ => Err(Unmodelled)
  }
}
