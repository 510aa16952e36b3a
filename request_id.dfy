/**
 * The Flask extension: the context lookup `flask_ctx_get_request_id`, the
 * `RequestID` extension object with `init_app` and the per-request persist
 * hook, and the process-wide `current_request_id` registry.
 */
module RequestIdExtension {
  import opened Values
  import opened Flask
  import opened Parser
  import opened CtxFetcher

  const GENERATE_IF_NOT_FOUND := "LOG_REQUEST_ID_GENERATE_IF_NOT_FOUND"
  const LOG_ALL_REQUESTS := "LOG_REQUEST_ID_LOG_ALL_REQUESTS"
  const G_OBJECT_ATTRIBUTE := "LOG_REQUEST_ID_G_OBJECT_ATTRIBUTE"
  const DEFAULT_G_OBJECT_ATTRIBUTE := "log_request_id"

  // ---------------------------------------------------------------------------
  // Context lookup
  // ---------------------------------------------------------------------------

  /** `config.get(key, default)`. */
  function ConfigGet(c: Config, key: string, default: PyValue): PyValue
  {
    if key in c then c[key] else default
  }

  /**
   * `flask_ctx_get_request_id()`: raises ExecutedOutsideContext unless an
   * application context is active; otherwise reads the configured attribute
   * of `g`, `None` when it is unset.
   */
  function FlaskCtxGetRequestId(env: Ambient): (r: Result<PyValue>)
    ensures r == Err(ExecutedOutsideContext) <==> !env.hasAppContext
    ensures env.hasAppContext && G_OBJECT_ATTRIBUTE !in env.config ==>
              r == Ok(GetAttr(env.g, DEFAULT_G_OBJECT_ATTRIBUTE))
    ensures env.hasAppContext && G_OBJECT_ATTRIBUTE in env.config && env.config[G_OBJECT_ATTRIBUTE].PyStr? ==>
              r == Ok(GetAttr(env.g, env.config[G_OBJECT_ATTRIBUTE].s))
    ensures env.hasAppContext && G_OBJECT_ATTRIBUTE in env.config && !env.config[G_OBJECT_ATTRIBUTE].PyStr? ==>
              r == Err(TypeError)
  {
    if !(env.hasRequestContext || env.hasAppContext) then
      Err(ExecutedOutsideContext)
    else if !env.hasAppContext then
      Err(ExecutedOutsideContext)
    else
      match ConfigGet(env.config, G_OBJECT_ATTRIBUTE, PyStr(DEFAULT_G_OBJECT_ATTRIBUTE))
      case PyStr(name) => Ok(GetAttr(env.g, name))
      case _ => Err(TypeError)
  }

  /** What the persist hook wrote under the configured name is exactly what the lookup returns. */
  lemma PersistedIsFetched(env: Ambient, before: GAttrs, v: PyValue)
    requires env.hasAppContext
    requires G_OBJECT_ATTRIBUTE in env.config && env.config[G_OBJECT_ATTRIBUTE].PyStr?
    requires env.g == before[env.config[G_OBJECT_ATTRIBUTE].s := v]
    ensures FlaskCtxGetRequestId(env) == Ok(v)
  {
  }

  // ---------------------------------------------------------------------------
  // Configuration defaults
  // ---------------------------------------------------------------------------

  /** `config.setdefault(key, v)`, as a value. */
  function SetDefault(c: Config, key: string, v: PyValue): Config
  {
    if key in c then c else c[key := v]
  }

  /** The configuration after the three `setdefault` calls of `init_app`. */
  function WithDefaults(c: Config): (r: Config)
    ensures r.Keys == c.Keys + {GENERATE_IF_NOT_FOUND, LOG_ALL_REQUESTS, G_OBJECT_ATTRIBUTE}
    ensures forall k :: k in c ==> r[k] == c[k]
    ensures GENERATE_IF_NOT_FOUND !in c ==> r[GENERATE_IF_NOT_FOUND] == PyBool(true)
    ensures LOG_ALL_REQUESTS !in c ==> r[LOG_ALL_REQUESTS] == PyBool(false)
    ensures G_OBJECT_ATTRIBUTE !in c ==> r[G_OBJECT_ATTRIBUTE] == PyStr(DEFAULT_G_OBJECT_ATTRIBUTE)
  {
    var c1 := SetDefault(c, GENERATE_IF_NOT_FOUND, PyBool(true));
    var c2 := SetDefault(c1, LOG_ALL_REQUESTS, PyBool(false));
    SetDefault(c2, G_OBJECT_ATTRIBUTE, PyStr(DEFAULT_G_OBJECT_ATTRIBUTE))
  }

  /** Applying the defaults a second time changes nothing. */
  lemma WithDefaultsIdempotent(c: Config)
    ensures WithDefaults(WithDefaults(c)) == WithDefaults(c)
  {
  }

  // ---------------------------------------------------------------------------
  // Mutable state: the application, flask.g and the ID generator
  // ---------------------------------------------------------------------------

  /** A Flask application; only its configuration matters here. */
  class App {
    var config: Config

    constructor (config: Config)
      ensures this.config == config
    {
      this.config := config;
    }
  }

  /** `flask.g` of the active application context. */
  class AppGlobals {
    var attrs: GAttrs

    constructor ()
      ensures attrs == map[]
    {
      attrs := map[];
    }
  }

  /**
   * A request-ID generator, a zero-argument callable: the `n`-th call returns
   * or raises `draw(n)`, an outcome the model leaves opaque; `drawn` counts
   * the calls made so far. A user-supplied generator may return any value,
   * `None` and `""` included, or raise.
   */
  class IdSource {
    const draw: nat -> Result<PyValue>
    var drawn: nat

    constructor (draw: nat -> Result<PyValue>)
      ensures this.draw == draw && drawn == 0
    {
      this.draw := draw;
      drawn := 0;
    }

    method Next() returns (id: Result<PyValue>)
      modifies this
      ensures id == draw(old(drawn)) && drawn == old(drawn) + 1
    {
      id := draw(drawn);
      drawn := drawn + 1;
    }
  }

  /** `setattr(g, name, v)`: a str name is written, any other name raises TypeError and writes nothing. */
  ghost predicate SetAttrOutcome(name: PyValue, before: GAttrs, after: GAttrs, v: PyValue, outcome: Result<()>)
  {
    if name.PyStr? then outcome == Ok(()) && after == before[name.s := v]
    else outcome == Err(TypeError) && after == before
  }

  // ---------------------------------------------------------------------------
  // The extension object
  // ---------------------------------------------------------------------------

  class RequestId {
    var app: App?
    const parser: HeaderParser
    const generator: IdSource

    /**
     * `RequestID(app, request_id_parser, request_id_generator)`: a missing
     * parser defaults to `auto_parser`, a missing generator to `uuid4`
     * (passed in, since randomness is outside the model); with an app it
     * runs `init_app`.
     */
    constructor (app: App?, requestIdParser: Option<HeaderParser>, requestIdGenerator: Option<IdSource>, uuid4: IdSource)
      modifies app
      ensures this.app == app
      ensures parser == (if requestIdParser.Some? then requestIdParser.value else DefaultAutoParser)
      ensures generator == (if requestIdGenerator.Some? then requestIdGenerator.value else uuid4)
      ensures app != null ==> app.config == WithDefaults(old(app.config))
    {
      this.app := app;
      if requestIdParser.Some? {
        parser := requestIdParser.value;
      } else {
        parser := DefaultAutoParser;
      }
      generator := if requestIdGenerator.Some? then requestIdGenerator.value else uuid4;
      new;
      if app != null {
        var registersAccessLog := InitApp(app);
      }
    }

    /**
     * `init_app(app)`: fills in the three defaults for missing keys only, and
     * reports whether the access-log hook gets registered.
     */
    method InitApp(app: App) returns (registersAccessLog: bool)
      modifies app
      ensures app.config == WithDefaults(old(app.config))
      ensures registersAccessLog == Truthy(app.config[LOG_ALL_REQUESTS])
    {
      app.config := SetDefault(app.config, GENERATE_IF_NOT_FOUND, PyBool(true));
      app.config := SetDefault(app.config, LOG_ALL_REQUESTS, PyBool(false));
      app.config := SetDefault(app.config, G_OBJECT_ATTRIBUTE, PyStr(DEFAULT_G_OBJECT_ATTRIBUTE));
      registersAccessLog := Truthy(app.config[LOG_ALL_REQUESTS]);
    }

    /**
     * `_persist_request_id`, the before-request hook `init_app` registers for
     * `app`: parse; if the result is falsy and generation is on, generate;
     * store under the configured attribute of `g`. It writes that one
     * attribute and nothing else, and calls the generator at most once and
     * only when the parse is falsy. Each `app.config[...]` read raises
     * KeyError on a missing key, and a parser or generator exception
     * propagates without touching `g`.
     */
    method PersistRequestId(app: App, g: AppGlobals, headers: Headers) returns (outcome: Result<()>)
      modifies g, generator
      ensures G_OBJECT_ATTRIBUTE !in app.config ==>
                outcome == Err(KeyError(G_OBJECT_ATTRIBUTE)) &&
                g.attrs == old(g.attrs) && generator.drawn == old(generator.drawn)
      ensures G_OBJECT_ATTRIBUTE in app.config && parser(headers).Err? ==>
                outcome == Err(parser(headers).error) &&
                g.attrs == old(g.attrs) && generator.drawn == old(generator.drawn)
      // a truthy parse is stored as it is and the generator is not called
      ensures G_OBJECT_ATTRIBUTE in app.config && parser(headers).Ok? && TruthyStr(parser(headers).value) ==>
                generator.drawn == old(generator.drawn) &&
                SetAttrOutcome(app.config[G_OBJECT_ATTRIBUTE], old(g.attrs), g.attrs, ToPy(parser(headers).value), outcome)
      ensures G_OBJECT_ATTRIBUTE in app.config && Falsy(parser(headers)) && GENERATE_IF_NOT_FOUND !in app.config ==>
                outcome == Err(KeyError(GENERATE_IF_NOT_FOUND)) &&
                g.attrs == old(g.attrs) && generator.drawn == old(generator.drawn)
      // a falsy parse with generation on calls the generator once and stores what it returns
      ensures G_OBJECT_ATTRIBUTE in app.config && Falsy(parser(headers)) && GENERATE_IF_NOT_FOUND in app.config &&
              Truthy(app.config[GENERATE_IF_NOT_FOUND]) ==>
                generator.drawn == old(generator.drawn) + 1 &&
                (generator.draw(old(generator.drawn)).Ok? ==>
                   SetAttrOutcome(app.config[G_OBJECT_ATTRIBUTE], old(g.attrs), g.attrs,
                                  generator.draw(old(generator.drawn)).value, outcome))
      // ... and a generator exception propagates, leaving g untouched
      ensures G_OBJECT_ATTRIBUTE in app.config && Falsy(parser(headers)) && GENERATE_IF_NOT_FOUND in app.config &&
              Truthy(app.config[GENERATE_IF_NOT_FOUND]) && generator.draw(old(generator.drawn)).Err? ==>
                outcome == Err(generator.draw(old(generator.drawn)).error) && g.attrs == old(g.attrs)
      // a falsy parse with generation off stores the falsy parse (None or "")
      ensures G_OBJECT_ATTRIBUTE in app.config && Falsy(parser(headers)) && GENERATE_IF_NOT_FOUND in app.config &&
              !Truthy(app.config[GENERATE_IF_NOT_FOUND]) ==>
                generator.drawn == old(generator.drawn) &&
                SetAttrOutcome(app.config[G_OBJECT_ATTRIBUTE], old(g.attrs), g.attrs, ToPy(parser(headers).value), outcome)
    {
      if G_OBJECT_ATTRIBUTE !in app.config {
        return Err(KeyError(G_OBJECT_ATTRIBUTE));
      }
      var gObjectAttr := app.config[G_OBJECT_ATTRIBUTE];
      var parsed := parser(headers);
      if parsed.Err? {
        return Err(parsed.error);
      }
      var requestId := ToPy(parsed.value);
      if !Truthy(requestId) {
        if GENERATE_IF_NOT_FOUND !in app.config {
          return Err(KeyError(GENERATE_IF_NOT_FOUND));
        }
        if Truthy(app.config[GENERATE_IF_NOT_FOUND]) {
          var generated := generator.Next();
          if generated.Err? {
            return Err(generated.error);
          }
          requestId := generated.value;
        }
      }
      if !gObjectAttr.PyStr? {
        return Err(TypeError);
      }
      g.attrs := g.attrs[gObjectAttr.s := requestId];
      outcome := Ok(());
    }
  }

  // ---------------------------------------------------------------------------
  // The process-wide registry
  // ---------------------------------------------------------------------------

  /** Module initialisation: `current_request_id` with the Flask-context fetcher as its only fetcher. */
  method InitCurrentRequestId() returns (current: MultiContextRequestIdFetcher)
    ensures fresh(current)
    ensures current.fetchers == [FlaskCtxGetRequestId]
  {
    current := new MultiContextRequestIdFetcher();
    current.RegisterFetcher(FlaskCtxGetRequestId);
  }

  /**
   * The default registry never raises: outside an application context it
   * gives `None`; inside, the stored ID when it is truthy, else `None`.
   */
  lemma CurrentRequestIdLookup(env: Ambient)
    ensures !env.hasAppContext ==> FirstSuccess([FlaskCtxGetRequestId], env) == PyNone
    ensures env.hasAppContext && FlaskCtxGetRequestId(env).Ok? && Truthy(FlaskCtxGetRequestId(env).value) ==>
              FirstSuccess([FlaskCtxGetRequestId], env) == FlaskCtxGetRequestId(env).value
  {
    var fs: seq<Fetcher> := [FlaskCtxGetRequestId];
    assert fs[1..] == [];
  }

  /**
   * End to end: once the persist hook has stored `v` under the configured
   * name, `current_request_id.get_request_id()` returns `v` if it is truthy
   * and `None` otherwise.
   */
  lemma CurrentRequestIdAfterPersist(env: Ambient, before: GAttrs, v: PyValue)
    requires env.hasAppContext
    requires G_OBJECT_ATTRIBUTE in env.config && env.config[G_OBJECT_ATTRIBUTE].PyStr?
    requires env.g == before[env.config[G_OBJECT_ATTRIBUTE].s := v]
    ensures FirstSuccess([FlaskCtxGetRequestId], env) == (if Truthy(v) then v else PyNone)
  {
    PersistedIsFetched(env, before, v);
    var fs: seq<Fetcher> := [FlaskCtxGetRequestId];
    assert fs[1..] == [];
  }

  /**
   * One request end to end: the before-request hook runs, then code in the
   * same application context asks the module-level registry for the ID.
   * When the hook succeeded, the registry returns what the hook stored if it
   * is truthy, else `None`; a truthy parse comes back unchanged. When the
   * hook raised, the request is aborted and nothing is retrieved (`None`).
   */
  method PersistThenRetrieve(ext: RequestId, app: App, g: AppGlobals, headers: Headers, hasRequestContext: bool)
    returns (outcome: Result<()>, fetched: PyValue)
    modifies g, ext.generator
    ensures outcome.Ok? ==> G_OBJECT_ATTRIBUTE in app.config && app.config[G_OBJECT_ATTRIBUTE].PyStr?
    ensures outcome.Ok? ==>
              var name := app.config[G_OBJECT_ATTRIBUTE].s;
              name in g.attrs && fetched == (if Truthy(g.attrs[name]) then g.attrs[name] else PyNone)
    ensures outcome.Ok? && ext.parser(headers).Ok? && TruthyStr(ext.parser(headers).value) ==>
              fetched == PyStr(ext.parser(headers).value.value)
    ensures outcome.Err? ==> fetched == PyNone
  {
    outcome := ext.PersistRequestId(app, g, headers);
    if outcome.Err? {
      // the hook raised: the request is aborted before any handler runs
      return outcome, PyNone;
    }
    var current := InitCurrentRequestId();
    var env := Ambient(hasRequestContext, true, app.config, g.attrs);
    fetched := current.GetRequestId(env);
    var name := app.config[G_OBJECT_ATTRIBUTE].s;
    CurrentRequestIdAfterPersist(env, old(g.attrs), g.attrs[name]);
  }
}
