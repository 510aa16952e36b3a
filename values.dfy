/** Python-level values, exceptions and outcomes shared by the whole model. */
module Values {

  /** `None` or a value; a parser's result is an `Option<string>`. */
  datatype Option<+T> = None | Some(value: T)

  /** The exceptions the core raises or lets through, as tags. */
  datatype Error =
    | ExecutedOutsideContext      // no Flask application context is active
    | ValueError                  // dict() was fed a segment that split into more than two parts
    | TypeError                   // getattr/setattr with an attribute name that is not a str
    | KeyError(key: string)       // app.config[key] on a missing key
    | OtherException(name: string) // anything a user-supplied parser or fetcher raises

  /** A call that either returns a value or raises. */
  datatype Result<+T> = Ok(value: T) | Err(error: Error)

  /** The Python values found in `app.config` and in attributes of `flask.g`. */
  datatype PyValue = PyNone | PyBool(b: bool) | PyInt(i: int) | PyStr(s: string)

  /** Python's `bool(v)`. */
  predicate Truthy(v: PyValue)
  {
    match v
    case PyNone => false
    case PyBool(b) => b
    case PyInt(i) => i != 0
    case PyStr(s) => s != ""
  }

  /** Python's `bool(x)` for `x` that is `None` or a `str`. */
  predicate TruthyStr(o: Option<string>)
  {
    o.Some? && o.value != ""
  }

  /** The Python object an optional string stands for. */
  function ToPy(o: Option<string>): (v: PyValue)
    ensures v == PyNone <==> o.None?
    ensures Truthy(v) <==> TruthyStr(o)
    ensures o.Some? ==> v == PyStr(o.value)
  {
    match o
    case None => PyNone
    case Some(s) => PyStr(s)
  }
}
