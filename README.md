# flask-log-request-id — request-ID resolution and propagation in Dafny

This project models the core of `flask_log_request_id`, a Flask extension that gives every inbound request an identifier. The identifier can be read anywhere while the request is processed. The extension works in three steps:

- It **resolves** the identifier from upstream headers. It tries `X-Request-ID`, then `X-Correlation-ID`, then the Amazon load-balancer header `X-Amzn-Trace-Id`, and takes the first truthy result.
- If nothing is found and `LOG_REQUEST_ID_GENERATE_IF_NOT_FOUND` is on, it **generates** one.
- It **stores** the identifier in one attribute of `flask.g`. A process-wide `MultiContextRequestIdFetcher` later **retrieves** it. That fetcher tries its registered fetchers in order and swallows their exceptions.

Flask's ambient globals become explicit values. `request.headers` is a `Flask.Headers` map passed to every parser. The `Flask.Ambient` record holds what the context lookup reads: the two flags `has_request_context()` and `has_app_context()`, the config of `current_app` and a map of `g`'s attributes. The persist hook, which changes state, instead takes an `App` object (its config) and an `AppGlobals` object (`flask.g`) next to the headers. Exceptions become the tags of `Values.Error` inside a `Result`. Python truthiness is written out: `Values.Truthy` for any value, `Values.TruthyStr` for `None`-or-`str`.

Files:
- `values.dfy`: `Option`, `Result`, the exception tags, Python values and truthiness.
- `flask.dfy`: the explicit ambient records.
- `text.dfy`: `str.strip()`, `str.split(sep)` and `sep.join`. Split and join are proved to be inverses.
- `parser.dfy`: `parser.py`, in module `Parser`, plus concrete cases in module `ParserExamples`. This part is pure.
- `ctx_fetcher.dfy`: `MultiContextRequestIdFetcher` as a class whose `fetchers` sequence is appended to in place. The class is defined twice in the source, at `ctx_fetcher.py:8-23` and `request_id.py:67-82`. The two copies differ only in how they report a swallowed exception, so this one class models both.
- `request_id.dfy`: `request_id.py`. The context lookup is a pure function. `init_app` and the persist hook are methods that change an `App`'s `config` and an `AppGlobals` (`flask.g`) object. The identifier generator is an `IdSource` object whose calls return or raise an opaque sequence of outcomes and which counts its calls, so "the generator is not called" reads as "its counter is unchanged".

Three behaviours of the code are easy to miss, and the model keeps each of them:
- **Malformed trace headers.** A segment of `X-Amzn-Trace-Id` with two or more `=` makes `dict(...)` raise `ValueError`, and `auto_parser` does not catch it (`AmazonElbTraceId`, `AmazonTwoEqualsRaises`).
- **Context lookup.** The lookup raises `ExecutedOutsideContext` whenever no application context is active, also when a request context is (`FlaskCtxGetRequestId`).
- **What counts as a result.** `auto_parser` takes the first *truthy* parser result, so an Amazon `Self=` or `Root=` with an empty value is skipped like `None` (`AutoParser`).

## Model

| member | source | states |
|---|---|---|
| `Text.Strip` | flask_log_request_id/parser.py:16 | `strip()` gives empty exactly when the value is all whitespace; otherwise the result begins and ends with non-whitespace |
| `Text.StripIsSlice` | flask_log_request_id/parser.py:16 | the stripped value is a contiguous slice of the header value, with only whitespace cut off on either side |
| `Text.StripIdempotent` | flask_log_request_id/parser.py:16 | stripping an already stripped value changes nothing |
| `Text.Split` | flask_log_request_id/parser.py:8 | `split(sep)` yields one more piece than there are separators, and no piece contains the separator |
| `Text.JoinSplit` | flask_log_request_id/parser.py:8 | joining the pieces of a split with the separator gives back the original string |
| `Text.SplitJoin` | flask_log_request_id/parser.py:8 | splitting the join of separator-free pieces gives back exactly those pieces |
| `Parser.GenericHttpHeaderParserFor` | flask_log_request_id/parser.py:11-17 | `None` exactly when the header is missing or only whitespace; otherwise the stripped value, non-empty, with no leading or trailing whitespace |
| `Parser.GenericIsTrimmedSlice` | flask_log_request_id/parser.py:15-16 | a non-`None` generic result is the header value minus whitespace-only margins |
| `Parser.XRequestId` | flask_log_request_id/parser.py:19-23 | behaves as the generic parser bound to `X-Request-ID`: `None` iff missing or blank, else the stripped value |
| `Parser.XCorrelationId` | flask_log_request_id/parser.py:25-29 | behaves as the generic parser bound to `X-Correlation-ID`: `None` iff missing or blank, else the stripped value |
| `Parser.ParseSegment` | flask_log_request_id/parser.py:8 | a segment raises ValueError iff it has two or more `=`; with no `=` it is a bare key mapped to `None`; with one `=` it is `key=value`, rebuilt exactly from key and value |
| `Parser.ParseSegments` | flask_log_request_id/parser.py:8 | the generator fed to `dict()` raises iff some segment raises; otherwise it yields one pair per segment, in order |
| `Parser.ToDict` | flask_log_request_id/parser.py:8 | `dict(pairs)` is empty exactly when there are no pairs, and never has more entries than pairs |
| `Parser.ToDictLastWins` | flask_log_request_id/parser.py:8 | with duplicate keys, `dict()` keeps the value of the last pair with that key |
| `Parser.ToDictOrigin` | flask_log_request_id/parser.py:8 | every entry of the dictionary comes from a pair of the input with that key and value |
| `Parser.ToDictMissing` | flask_log_request_id/parser.py:8 | a key that no segment carries is absent from the dictionary |
| `Parser.AmazonElbTraceId` | flask_log_request_id/parser.py:3-9 | the Amazon parser raises ValueError exactly when some `;`-segment of the header has two or more `=` |
| `Parser.AmazonValueFromSegment` | flask_log_request_id/parser.py:7-9 | a value the Amazon parser returns is copied verbatim from a `Self=` or `Root=` segment of the header |
| `Parser.AmazonSelfThenRoot` | flask_log_request_id/parser.py:9 | the last `Self` segment's value is returned when truthy; otherwise the `Root` entry is returned, which may be `None` or `""` |
| `Parser.AmazonRootOnly` | flask_log_request_id/parser.py:9 | with no `Self` segment, the last `Root` segment's value is returned, and with no `Root` either the result is `None` |
| `Parser.AutoParser` | flask_log_request_id/parser.py:31-39 | the result is `None` iff every parser returns a falsy value without raising; a non-`None` result is never `""` |
| `Parser.AutoParserFirstMatch` | flask_log_request_id/parser.py:35-38 | the result is the outcome of the first parser that is not falsy, whether a truthy value or a propagated exception |
| `Parser.AutoParserAppend` | flask_log_request_id/parser.py:35-39 | short-circuit: parsers after a decisive one do not affect the result, errors included; after an all-falsy prefix the remaining parsers decide |
| `Parser.DefaultAutoParser` | flask_log_request_id/parser.py:31 | `auto_parser()` with its default parser tuple never yields `""`: a found ID is non-empty |
| `Parser.DefaultAutoParserOrder` | flask_log_request_id/parser.py:31 | the default order is X-Request-ID, then X-Correlation-ID, then the Amazon header, whose exception propagates |
| `Parser.DefaultAutoParserNone` | flask_log_request_id/parser.py:31-39 | the default resolver gives `None` iff neither header holds a non-blank value and the Amazon parser is falsy without raising |
| `ParserExamples.AmazonMissingOrEmpty` | flask_log_request_id/parser.py:7-9 | a missing or empty trace header gives `None` |
| `ParserExamples.AmazonBareRoot` | flask_log_request_id/parser.py:8-9 | a bare `Root` with no `=` gives `None` |
| `ParserExamples.AmazonSelfFirst` | flask_log_request_id/parser.py:9 | `Self=abc;Root=def` gives `abc` |
| `ParserExamples.AmazonEmptySelfFallsBackToRoot` | flask_log_request_id/parser.py:9 | `Self=;Root=def` gives `def` |
| `ParserExamples.AmazonLastDuplicateWins` | flask_log_request_id/parser.py:8 | `Root=a;Root=b` gives `b` |
| `ParserExamples.AmazonUntrimmedKey` | flask_log_request_id/parser.py:8 | segments are not trimmed: ` Root=x` does not match `Root`, so the result is `None` |
| `ParserExamples.AmazonTwoEqualsRaises` | flask_log_request_id/parser.py:8 | `Root=a=b` raises ValueError instead of giving `None` |
| `ParserExamples.ResolverPrefersCorrelationId` | flask_log_request_id/parser.py:31-39 | without X-Request-ID, a non-blank X-Correlation-ID wins whatever the trace header holds |
| `CtxFetcher.FirstSuccess` | flask_log_request_id/ctx_fetcher.py:15-23 | the lookup gives `None` iff no fetcher returns a truthy value without raising; otherwise the result is truthy and was returned by a registered fetcher |
| `CtxFetcher.FirstSuccessAt` | flask_log_request_id/ctx_fetcher.py:16-20 | the result is the value of the first fetcher, in registration order, that returns a truthy value without raising |
| `CtxFetcher.FirstSuccessAppend` | flask_log_request_id/ctx_fetcher.py:16-20 | fetchers after the first success do not matter; registering more fetchers never changes an answer already found |
| `CtxFetcher.RaisingFetcherIsSkipped` | flask_log_request_id/ctx_fetcher.py:17-22 | `[raises, returns "ok"]` gives `"ok"`; the exception does not escape |
| `CtxFetcher.MultiContextRequestIdFetcher.constructor` | flask_log_request_id/ctx_fetcher.py:9-10 | a new registry is empty |
| `CtxFetcher.MultiContextRequestIdFetcher.RegisterFetcher` | flask_log_request_id/ctx_fetcher.py:12-13 | appends at the end; earlier fetchers keep their order; length grows by one |
| `CtxFetcher.MultiContextRequestIdFetcher.GetRequestId` | flask_log_request_id/ctx_fetcher.py:15-23 | returns the first-success value: `None` iff no fetcher returns a truthy value without raising, otherwise a value some fetcher returned; changes nothing |
| `RequestIdExtension.FlaskCtxGetRequestId` | flask_log_request_id/request_id.py:17-34 | raises ExecutedOutsideContext iff there is no app context, even with a request context; otherwise returns `g`'s attribute named by the config (default `log_request_id`) or `None`; a non-str name raises TypeError |
| `RequestIdExtension.PersistedIsFetched` | flask_log_request_id/request_id.py:33-34 | round trip: the value written under the configured attribute is exactly what the lookup returns under the same config |
| `RequestIdExtension.WithDefaults` | flask_log_request_id/request_id.py:45-47 | adds exactly the three keys when missing, with `True`, `False` and `'log_request_id'`; existing values and other keys are unchanged |
| `RequestIdExtension.WithDefaultsIdempotent` | flask_log_request_id/request_id.py:45-47 | applying the defaults twice is the same as once |
| `RequestIdExtension.IdSource.Next` | flask_log_request_id/request_id.py:40 | each generator call returns or raises the next outcome of its sequence and counts one call |
| `RequestIdExtension.RequestId.constructor` | flask_log_request_id/request_id.py:37-42 | keeps the app; defaults the parser to `auto_parser` and the generator to uuid4; runs `init_app` when an app is given |
| `RequestIdExtension.RequestId.InitApp` | flask_log_request_id/request_id.py:44-58 | the config becomes its defaults-filled version; the access-log hook is registered iff `LOG_REQUEST_ID_LOG_ALL_REQUESTS` is truthy |
| `RequestIdExtension.RequestId.PersistRequestId` | flask_log_request_id/request_id.py:49-55 | a truthy parse is stored as is, without calling the generator; a falsy parse with generation on calls the generator once and stores whatever it returns, or propagates its exception leaving `g` untouched; with generation off it stores the falsy parse; only the configured `g` attribute changes; missing config keys raise KeyError and parser exceptions propagate, leaving `g` untouched |
| `RequestIdExtension.InitCurrentRequestId` | flask_log_request_id/request_id.py:84-85 | the module-level registry holds exactly one fetcher, the Flask-context lookup |
| `RequestIdExtension.CurrentRequestIdLookup` | flask_log_request_id/request_id.py:74-82 | with the default registry and no app context, retrieval gives `None` instead of raising; in context it gives the stored ID when truthy |
| `RequestIdExtension.CurrentRequestIdAfterPersist` | flask_log_request_id/request_id.py:51-55 | after the hook stores `v`, the default registry returns `v` when it is truthy, else `None` |
| `RequestIdExtension.PersistThenRetrieve` | flask_log_request_id/request_id.py:49-85 | running the hook and then `current_request_id.get_request_id()` in the same app context returns the stored value when truthy, else `None`; a truthy parsed ID comes back unchanged |

## Left out

- Logging and printing are I/O and are not modelled. This covers the `logger.error` calls (`request_id.py:23,30,81`), the `print` in `ctx_fetcher.py:22` and the access-log line of `_log_http_event` (`request_id.py:60-64`).
- `RequestId.InitApp`: the `@app.before_request` and `app.after_request` registrations are framework glue. The hook body is the method `PersistRequestId`, which takes the app it was registered for as a parameter. For the after-request hook, `InitApp` only reports whether it would be registered.
- `IdSource.Next`: `str(uuid.uuid4())` is randomness, so the generator's outcomes are the opaque function `draw`. The UUID format is not stated, and a default generator that never raises is not distinguished from a user-supplied one.
- Werkzeug's case-insensitive header lookup belongs to a foreign library. Header names are assumed to be in their canonical spelling already.
- `FlaskCtxGetRequestId`: `getattr(g, name, None)` also finds `g`'s own methods and special attributes (`get`, `pop`, `__class__`, …). The model knows only the attributes that were set.
- Config values and `g` attributes are limited to `None`, `bool`, `int` and `str`. Parsers are assumed to return `None` or a `str`. Fetchers may return any of the four.
- Exception messages are dropped; only the exception's kind is kept.
- `MultiContextRequestIdFetcher.GetRequestId`: the source catches `Exception` only, so a `BaseException` such as `KeyboardInterrupt` would still escape. The model has no such exceptions: every fetcher error is caught.
- Thread safety of the process-wide registry is concurrency, so it is out of scope.
