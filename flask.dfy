/**
 * Explicit records for the ambient Flask state the core reads: the request
 * headers, `current_app.config`, the attributes of `flask.g`, and the two
 * context flags `has_request_context()` and `has_app_context()`.
 */
module Flask {
  import opened Values

  /** `request.headers`, with header names already in their canonical spelling. */
  type Headers = map<string, string>

  /** `app.config`. */
  type Config = map<string, PyValue>

  /** The attributes set on `flask.g`. */
  type GAttrs = map<string, PyValue>

  /** What a fetcher can observe of the process at the moment it is called. */
  datatype Ambient = Ambient(
    hasRequestContext: bool,
    hasAppContext: bool,
    config: Config,   // current_app.config; meaningful only when hasAppContext
    g: GAttrs)        // flask.g; meaningful only when hasAppContext

  /** `request.headers.get(name, default)`. */
  function HeaderGet(h: Headers, name: string, default: string): (v: string)
    ensures name in h ==> v == h[name]
    ensures name !in h ==> v == default
  {
    if name in h then h[name] else default
  }

  /** `getattr(g, name, None)`. */
  function GetAttr(g: GAttrs, name: string): (v: PyValue)
    ensures name in g ==> v == g[name]
    ensures name !in g ==> v == PyNone
  {
    if name in g then g[name] else PyNone
  }
}
