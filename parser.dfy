/**
 * The request-ID header parsers and the first-match resolver `auto_parser`.
 * A parser reads the request headers and returns `None` or a `str`; only the
 * Amazon trace parser can raise.
 */
module Parser {
  import opened Values
  import opened Flask
  import opened Text

  const X_REQUEST_ID := "X-Request-ID"
  const X_CORRELATION_ID := "X-Correlation-ID"
  const X_AMZN_TRACE_ID := "X-Amzn-Trace-Id"

  /** A zero-argument parser of the current request, with the request made explicit. */
  type HeaderParser = Headers -> Result<Option<string>>

  // ---------------------------------------------------------------------------
  // Generic header parser
  // ---------------------------------------------------------------------------

  /**
   * The parser `generic_http_header_parser_for(name)` builds, applied to the
   * headers: the stripped header value, or `None` when that is empty.
   */
  function GenericHttpHeaderParserFor(name: string, h: Headers): (r: Option<string>)
    ensures r.None? <==> (name !in h || AllSpace(h[name]))
    ensures r.Some? ==> name in h && r.value == Strip(h[name])
    ensures r.Some? ==> r.value != "" && !IsSpace(r.value[0]) && !IsSpace(r.value[|r.value| - 1])
  {
    var v := Strip(HeaderGet(h, name, ""));
    if v == "" then None else Some(v)
  }

  /** A non-`None` generic result is the header value with only surrounding whitespace removed. */
  lemma GenericIsTrimmedSlice(name: string, h: Headers) returns (i: nat, j: nat)
    requires GenericHttpHeaderParserFor(name, h).Some?
    ensures name in h && i < j <= |h[name]|
    ensures GenericHttpHeaderParserFor(name, h).value == h[name][i..j]
    ensures AllSpace(h[name][..i]) && AllSpace(h[name][j..])
  {
    i, j := StripIsSlice(h[name]);
  }

  /** `x_request_id()`. */
  function XRequestId(h: Headers): (r: Option<string>)
    ensures r == GenericHttpHeaderParserFor(X_REQUEST_ID, h)
    ensures r.None? <==> (X_REQUEST_ID !in h || AllSpace(h[X_REQUEST_ID]))
    ensures r.Some? ==> X_REQUEST_ID in h && r.value == Strip(h[X_REQUEST_ID]) && r.value != ""
  {
    GenericHttpHeaderParserFor(X_REQUEST_ID, h)
  }

  /** `x_correlation_id()`. */
  function XCorrelationId(h: Headers): (r: Option<string>)
    ensures r == GenericHttpHeaderParserFor(X_CORRELATION_ID, h)
    ensures r.None? <==> (X_CORRELATION_ID !in h || AllSpace(h[X_CORRELATION_ID]))
    ensures r.Some? ==> X_CORRELATION_ID in h && r.value == Strip(h[X_CORRELATION_ID]) && r.value != ""
  {
    GenericHttpHeaderParserFor(X_CORRELATION_ID, h)
  }

  // ---------------------------------------------------------------------------
  // Amazon load-balancer trace parser
  // ---------------------------------------------------------------------------

  /** One `;`-separated field of the trace header: its key, and its value or `None` for a bare key. */
  type TraceParam = (string, Option<string>)

  /**
   * One element of the generator given to `dict(...)`: `x.split('=')` when the
   * segment holds `=`, else `(x, None)`. dict() refuses an element that does
   * not have exactly two parts, which is a segment with two or more `=`.
   */
  function ParseSegment(x: string): (r: Result<TraceParam>)
    ensures r.Err? <==> Count('=', x) >= 2
    ensures r.Err? ==> r.error == ValueError
    ensures '=' !in x ==> r == Ok((x, None))
    ensures r.Ok? && r.value.1.Some? ==>
              x == r.value.0 + "=" + r.value.1.value && '=' !in r.value.0 && '=' !in r.value.1.value
  {
    if '=' in x then
      var parts := Split(x, '=');
      if |parts| == 2 then
        JoinSplit(x, '=');
        Ok((parts[0], Some(parts[1])))
      else
        Err(ValueError)
    else
      Ok((x, None))
  }

  /** The elements dict() consumes, in order; the first bad segment raises. */
  function ParseSegments(segs: seq<string>): (r: Result<seq<TraceParam>>)
    ensures r.Err? <==> exists i :: 0 <= i < |segs| && ParseSegment(segs[i]).Err?
    ensures r.Err? ==> r.error == ValueError
    ensures r.Ok? ==> |r.value| == |segs| && forall i :: 0 <= i < |segs| ==> ParseSegment(segs[i]) == Ok(r.value[i])
  {
    if segs == [] then Ok([])
    else
      match ParseSegment(segs[0])
      case Err(e) => Err(e)
      case Ok(p) =>
        match ParseSegments(segs[1..])
        case Err(e) => Err(e)
        case Ok(ps) => Ok([p] + ps)
  }

  /** `dict(pairs)`: left-to-right insertion, so a later duplicate key overwrites an earlier one. */
  function ToDict(pairs: seq<TraceParam>): (d: map<string, Option<string>>)
    ensures |d| <= |pairs|
    ensures d == map[] <==> pairs == []
  {
    if pairs == [] then map[]
    else ToDict(pairs[..|pairs| - 1])[pairs[|pairs| - 1].0 := pairs[|pairs| - 1].1]
  }

  /** With duplicate keys, the dictionary holds the value of the last pair with that key. */
  lemma {:induction false} ToDictLastWins(pairs: seq<TraceParam>, i: nat)
    requires i < |pairs|
    requires forall j :: i < j < |pairs| ==> pairs[j].0 != pairs[i].0
    ensures pairs[i].0 in ToDict(pairs) && ToDict(pairs)[pairs[i].0] == pairs[i].1
  {
    if i < |pairs| - 1 {
      ToDictLastWins(pairs[..|pairs| - 1], i);
    }
  }

  /** A key the dictionary holds comes from some pair, with that pair's value. */
  lemma {:induction false} ToDictOrigin(pairs: seq<TraceParam>, k: string) returns (i: nat)
    requires k in ToDict(pairs)
    ensures i < |pairs| && pairs[i] == (k, ToDict(pairs)[k])
  {
    var n := |pairs| - 1;
    if pairs[n].0 == k {
      i := n;
    } else {
      i := ToDictOrigin(pairs[..n], k);
    }
  }

  /** A key no pair carries is absent from the dictionary. */
  lemma {:induction false} ToDictMissing(pairs: seq<TraceParam>, k: string)
    requires forall j :: 0 <= j < |pairs| ==> pairs[j].0 != k
    ensures k !in ToDict(pairs)
  {
    if pairs != [] {
      ToDictMissing(pairs[..|pairs| - 1], k);
    }
  }

  /** `d.get(k)`: `None` for a missing key and for a bare key alike. */
  function DictGet(d: map<string, Option<string>>, k: string): Option<string>
  {
    if k in d then d[k] else None
  }

  /** The `;`-separated segments of the trace header; a missing header is the empty string. */
  function TraceSegments(h: Headers): seq<string>
  {
    Split(HeaderGet(h, X_AMZN_TRACE_ID, ""), ';')
  }

  /** `amazon_elb_trace_id()`: `Self` if truthy, else `Root`; raises when a segment has two `=`. */
  function AmazonElbTraceId(h: Headers): (r: Result<Option<string>>)
    ensures r.Err? <==> exists i :: 0 <= i < |TraceSegments(h)| && Count('=', TraceSegments(h)[i]) >= 2
    ensures r.Err? ==> r.error == ValueError
  {
    match ParseSegments(TraceSegments(h))
    case Err(e) => Err(e)
    case Ok(pairs) =>
      var params := ToDict(pairs);
      var selfId := DictGet(params, "Self");
      if TruthyStr(selfId) then Ok(selfId) else Ok(DictGet(params, "Root"))
  }

  /** The Amazon parser's answer read off the parsed pairs. */
  lemma AmazonFromPairs(h: Headers, pairs: seq<TraceParam>)
    requires ParseSegments(TraceSegments(h)) == Ok(pairs)
    ensures var d := ToDict(pairs);
            AmazonElbTraceId(h) == Ok(if TruthyStr(DictGet(d, "Self")) then DictGet(d, "Self") else DictGet(d, "Root"))
  {
  }

  /** A value the Amazon parser returns is copied verbatim from a `Self=` or `Root=` segment. */
  lemma AmazonValueFromSegment(h: Headers) returns (i: nat, k: string)
    requires AmazonElbTraceId(h).Ok? && AmazonElbTraceId(h).value.Some?
    ensures k == "Self" || k == "Root"
    ensures i < |TraceSegments(h)| && TraceSegments(h)[i] == k + "=" + AmazonElbTraceId(h).value.value
  {
    var segs := TraceSegments(h);
    var v := AmazonElbTraceId(h).value.value;
    assert ParseSegments(segs).Ok?;
    var pairs := ParseSegments(segs).value;
    AmazonFromPairs(h, pairs);
    var d := ToDict(pairs);
    k := if TruthyStr(DictGet(d, "Self")) then "Self" else "Root";
    assert DictGet(d, k) == Some(v);
    i := ToDictOrigin(pairs, k);
    assert ParseSegment(segs[i]) == Ok((k, Some(v)));
  }

  /** The Amazon parser, described by the segments' own order: the last `Self` wins if it is non-empty, else the last `Root`. */
  lemma AmazonSelfThenRoot(h: Headers, pairs: seq<TraceParam>, s: nat)
    requires ParseSegments(TraceSegments(h)) == Ok(pairs)
    requires s < |pairs| && pairs[s].0 == "Self"
    requires forall j :: s < j < |pairs| ==> pairs[j].0 != "Self"
    ensures TruthyStr(pairs[s].1) ==> AmazonElbTraceId(h) == Ok(pairs[s].1)
    ensures !TruthyStr(pairs[s].1) ==> AmazonElbTraceId(h) == Ok(DictGet(ToDict(pairs), "Root"))
  {
    ToDictLastWins(pairs, s);
  }

  /** With no `Self` segment at all, the last `Root` segment decides, and no `Root` gives `None`. */
  lemma AmazonRootOnly(h: Headers, pairs: seq<TraceParam>)
    requires ParseSegments(TraceSegments(h)) == Ok(pairs)
    requires forall j :: 0 <= j < |pairs| ==> pairs[j].0 != "Self"
    ensures (forall j :: 0 <= j < |pairs| ==> pairs[j].0 != "Root") ==> AmazonElbTraceId(h) == Ok(None)
    ensures forall r :: 0 <= r < |pairs| && pairs[r].0 == "Root" && (forall j :: r < j < |pairs| ==> pairs[j].0 != "Root") ==>
              AmazonElbTraceId(h) == Ok(pairs[r].1)
  {
    ToDictMissing(pairs, "Self");
    if forall j :: 0 <= j < |pairs| ==> pairs[j].0 != "Root" {
      ToDictMissing(pairs, "Root");
    }
    forall r | 0 <= r < |pairs| && pairs[r].0 == "Root" && (forall j :: r < j < |pairs| ==> pairs[j].0 != "Root")
      ensures AmazonElbTraceId(h) == Ok(pairs[r].1)
    {
      ToDictLastWins(pairs, r);
    }
  }

  // ---------------------------------------------------------------------------
  // First-match resolver
  // ---------------------------------------------------------------------------

  /** A parser outcome `auto_parser` moves past: it returned `None` or `""`. */
  predicate Falsy(o: Result<Option<string>>)
  {
    o.Ok? && !TruthyStr(o.value)
  }

  /**
   * `auto_parser(parsers)`: the first truthy result in order; an exception of
   * a parser propagates; `None` when every parser gives a falsy result.
   */
  function AutoParser(parsers: seq<HeaderParser>, h: Headers): (r: Result<Option<string>>)
    ensures r.Ok? && r.value.Some? ==> r.value.value != ""
    ensures r == Ok(None) <==> forall i :: 0 <= i < |parsers| ==> Falsy(parsers[i](h))
    decreases |parsers|
  {
    if parsers == [] then Ok(None)
    else
      var o := parsers[0](h);
      if o.Err? then o
      else if TruthyStr(o.value) then o
      else AutoParser(parsers[1..], h)
  }

  /** The result of `auto_parser` is the outcome of the first parser that is not falsy. */
  lemma {:induction false} AutoParserFirstMatch(parsers: seq<HeaderParser>, h: Headers, i: nat)
    requires i < |parsers| && !Falsy(parsers[i](h))
    requires forall j :: 0 <= j < i ==> Falsy(parsers[j](h))
    ensures AutoParser(parsers, h) == parsers[i](h)
  {
    if i > 0 {
      AutoParserFirstMatch(parsers[1..], h, i - 1);
    }
  }

  /**
   * Short-circuit: parsers after a decisive one are never consulted (their
   * results, errors included, do not matter); after an all-falsy prefix the
   * rest decides.
   */
  lemma {:induction false} AutoParserAppend(ps: seq<HeaderParser>, qs: seq<HeaderParser>, h: Headers)
    ensures AutoParser(ps, h) != Ok(None) ==> AutoParser(ps + qs, h) == AutoParser(ps, h)
    ensures AutoParser(ps, h) == Ok(None) ==> AutoParser(ps + qs, h) == AutoParser(qs, h)
  {
    if ps != [] {
      assert (ps + qs)[1..] == ps[1..] + qs;
      AutoParserAppend(ps[1..], qs, h);
    } else {
      assert ps + qs == qs;
    }
  }

  /** `x_request_id` as a resolver entry; it never raises. */
  function XRequestIdParser(h: Headers): Result<Option<string>>
  {
    Ok(XRequestId(h))
  }

  /** `x_correlation_id` as a resolver entry; it never raises. */
  function XCorrelationIdParser(h: Headers): Result<Option<string>>
  {
    Ok(XCorrelationId(h))
  }

  /** The default parser order: X-Request-ID, X-Correlation-ID, then the Amazon trace header. */
  function DefaultParsers(): seq<HeaderParser>
  {
    [XRequestIdParser, XCorrelationIdParser, AmazonElbTraceId]
  }

  /** `auto_parser()` with its default argument. */
  function DefaultAutoParser(h: Headers): (r: Result<Option<string>>)
    ensures r.Ok? && r.value.Some? ==> r.value.value != ""
  {
    AutoParser(DefaultParsers(), h)
  }

  /** `auto_parser` over three parsers, spelled out. */
  lemma AutoParserThree(p0: HeaderParser, p1: HeaderParser, p2: HeaderParser, h: Headers)
    ensures AutoParser([p0, p1, p2], h) ==
              if !Falsy(p0(h)) then p0(h)
              else if !Falsy(p1(h)) then p1(h)
              else if !Falsy(p2(h)) then p2(h)
              else Ok(None)
  {
    var ps := [p0, p1, p2];
    if !Falsy(p0(h)) {
      AutoParserFirstMatch(ps, h, 0);
    } else if !Falsy(p1(h)) {
      AutoParserFirstMatch(ps, h, 1);
    } else if !Falsy(p2(h)) {
      AutoParserFirstMatch(ps, h, 2);
    }
  }

  /** What the default resolver does, header by header. */
  lemma DefaultAutoParserOrder(h: Headers)
    ensures XRequestId(h).Some? ==> DefaultAutoParser(h) == Ok(XRequestId(h))
    ensures XRequestId(h).None? && XCorrelationId(h).Some? ==> DefaultAutoParser(h) == Ok(XCorrelationId(h))
    ensures XRequestId(h).None? && XCorrelationId(h).None? ==>
              DefaultAutoParser(h) == (if Falsy(AmazonElbTraceId(h)) then Ok(None) else AmazonElbTraceId(h))
  {
    AutoParserThree(XRequestIdParser, XCorrelationIdParser, AmazonElbTraceId, h);
  }

  /** The default resolver finds nothing exactly when neither header is set to a non-blank value and the Amazon parser is falsy. */
  lemma DefaultAutoParserNone(h: Headers)
    ensures DefaultAutoParser(h) == Ok(None) <==>
              XRequestId(h).None? && XCorrelationId(h).None? && Falsy(AmazonElbTraceId(h))
  {
    DefaultAutoParserOrder(h);
    var r, a := DefaultAutoParser(h), AmazonElbTraceId(h);
    if XRequestId(h).Some? {
      assert r == Ok(XRequestId(h));
    } else if XCorrelationId(h).Some? {
      assert r == Ok(XCorrelationId(h));
    } else if !Falsy(a) {
      assert r == a;
    }
  }
}

module ParserExamples {
  import opened Values
  import opened Flask
  import opened Text
  import opened Parser

  /** A separator-free `k=v` segment parses to `(k, v)`. */
  lemma ParseKeyValue(k: string, v: string)
    requires '=' !in k && '=' !in v
    ensures ParseSegment(k + "=" + v) == Ok((k, Some(v)))
  {
    SplitAtSep(k, '=', v);
    SplitNoSep(v, '=');
    assert (k + "=" + v)[|k|] == '=';
  }

  /** Two separator-free pieces joined by one separator split back into the two. */
  lemma SplitTwo(a: string, b: string, sep: char)
    requires sep !in a && sep !in b
    ensures Split(a + [sep] + b, sep) == [a, b]
  {
    SplitAtSep(a, sep, b);
    SplitNoSep(b, sep);
  }

  lemma ParseSegmentsOne(x: string)
    ensures ParseSegments([x]) == (match ParseSegment(x) case Err(e) => Err(e) case Ok(p) => Ok([p]))
  {
    assert [x][1..] == [];
    assert ParseSegments([]) == Ok([]);
    match ParseSegment(x)
    case Err(e) =>
    case Ok(p) => assert [p] + [] == [p];
  }

  lemma ParseSegmentsTwo(x: string, y: string)
    requires ParseSegment(x).Ok? && ParseSegment(y).Ok?
    ensures ParseSegments([x, y]) == Ok([ParseSegment(x).value, ParseSegment(y).value])
  {
    assert [x, y][1..] == [y];
    ParseSegmentsOne(y);
    assert [ParseSegment(x).value] + [ParseSegment(y).value] == [ParseSegment(x).value, ParseSegment(y).value];
  }

  lemma ToDictOne(p: TraceParam)
    ensures ToDict([p]) == map[p.0 := p.1]
  {
    assert [p][..0] == [];
  }

  lemma ToDictTwo(p: TraceParam, q: TraceParam)
    ensures ToDict([p, q]) == map[p.0 := p.1][q.0 := q.1]
  {
    assert [p, q][..1] == [p];
    ToDictOne(p);
  }

  /** The trace header `k1=v1;k2=v2` parses to the two pairs in order. */
  lemma TwoFields(h: Headers, k1: string, v1: string, k2: string, v2: string)
    requires '=' !in k1 && '=' !in v1 && '=' !in k2 && '=' !in v2
    requires ';' !in k1 + "=" + v1 && ';' !in k2 + "=" + v2
    requires X_AMZN_TRACE_ID in h && h[X_AMZN_TRACE_ID] == k1 + "=" + v1 + ";" + k2 + "=" + v2
    ensures ParseSegments(TraceSegments(h)) == Ok([(k1, Some(v1)), (k2, Some(v2))])
    ensures ToDict([(k1, Some(v1)), (k2, Some(v2))]) == map[k1 := Some(v1)][k2 := Some(v2)]
  {
    var a, b := k1 + "=" + v1, k2 + "=" + v2;
    assert h[X_AMZN_TRACE_ID] == a + [';'] + b;
    SplitTwo(a, b, ';');
    ParseKeyValue(k1, v1);
    ParseKeyValue(k2, v2);
    ParseSegmentsTwo(a, b);
    ToDictTwo((k1, Some(v1)), (k2, Some(v2)));
  }

  /** A missing or empty trace header gives `None`, never an exception. */
  lemma AmazonMissingOrEmpty(h: Headers)
    requires X_AMZN_TRACE_ID !in h || h[X_AMZN_TRACE_ID] == ""
    ensures AmazonElbTraceId(h) == Ok(None)
  {
    assert TraceSegments(h) == [""];
    ParseSegmentsOne("");
    ToDictOne(("", None));
  }

  /** A bare `Root` key maps to `None`, so the result is `None`. */
  lemma AmazonBareRoot(h: Headers)
    requires X_AMZN_TRACE_ID in h && h[X_AMZN_TRACE_ID] == "Root"
    ensures AmazonElbTraceId(h) == Ok(None)
  {
    SplitNoSep("Root", ';');
    ParseSegmentsOne("Root");
    ToDictOne(("Root", None));
  }

  /** A separator-free value: no `;` and no `=`. */
  predicate Plain(v: string)
  {
    ';' !in v && '=' !in v
  }

  /** `Self=abc;Root=def` gives `abc`: a non-empty `Self` is taken before `Root`. */
  lemma AmazonSelfFirst(h: Headers, selfId: string, rootId: string)
    requires Plain(selfId) && Plain(rootId) && selfId != ""
    requires X_AMZN_TRACE_ID in h && h[X_AMZN_TRACE_ID] == "Self=" + selfId + ";Root=" + rootId
    ensures AmazonElbTraceId(h) == Ok(Some(selfId))
  {
    assert "Self=" + selfId + ";Root=" + rootId == "Self" + "=" + selfId + ";" + "Root" + "=" + rootId;
    TwoFields(h, "Self", selfId, "Root", rootId);
  }

  /** `Self=;Root=def` gives `def`: an empty `Self` falls back to `Root`. */
  lemma AmazonEmptySelfFallsBackToRoot(h: Headers, rootId: string)
    requires Plain(rootId)
    requires X_AMZN_TRACE_ID in h && h[X_AMZN_TRACE_ID] == "Self=;Root=" + rootId
    ensures AmazonElbTraceId(h) == Ok(Some(rootId))
  {
    assert "Self=;Root=" + rootId == "Self" + "=" + "" + ";" + "Root" + "=" + rootId;
    TwoFields(h, "Self", "", "Root", rootId);
  }

  /** `Root=a;Root=b` gives `b`: the last duplicate wins. */
  lemma AmazonLastDuplicateWins(h: Headers, first: string, last: string)
    requires Plain(first) && Plain(last)
    requires X_AMZN_TRACE_ID in h && h[X_AMZN_TRACE_ID] == "Root=" + first + ";Root=" + last
    ensures AmazonElbTraceId(h) == Ok(Some(last))
  {
    assert "Root=" + first + ";Root=" + last == "Root" + "=" + first + ";" + "Root" + "=" + last;
    TwoFields(h, "Root", first, "Root", last);
  }

  /** Segments are not trimmed: ` Root=x` carries the key ` Root`, so nothing is found. */
  lemma AmazonUntrimmedKey(h: Headers, rootId: string)
    requires Plain(rootId)
    requires X_AMZN_TRACE_ID in h && h[X_AMZN_TRACE_ID] == " Root=" + rootId
    ensures AmazonElbTraceId(h) == Ok(None)
  {
    assert " Root=" + rootId == " Root" + "=" + rootId;
    SplitNoSep(" Root=" + rootId, ';');
    ParseKeyValue(" Root", rootId);
    ParseSegmentsOne(" Root=" + rootId);
    ToDictOne((" Root", Some(rootId)));
  }

  /** A segment with two `=` makes dict() raise ValueError. */
  lemma AmazonTwoEqualsRaises(h: Headers, a: string, b: string)
    requires Plain(a) && Plain(b)
    requires X_AMZN_TRACE_ID in h && h[X_AMZN_TRACE_ID] == "Root=" + a + "=" + b
    ensures AmazonElbTraceId(h) == Err(ValueError)
  {
    var x := "Root=" + a + "=" + b;
    SplitNoSep(x, ';');
    assert TraceSegments(h) == [x];
    assert x == "Root" + ['='] + (a + ['='] + b);
    SplitAtSep("Root", '=', a + ['='] + b);
    SplitAtSep(a, '=', b);
    SplitNoSep(b, '=');
    assert |Split(x, '=')| == 3;
    assert ParseSegment(TraceSegments(h)[0]).Err?;
  }

  /** With no X-Request-ID, a non-blank X-Correlation-ID wins over whatever the trace header holds. */
  lemma ResolverPrefersCorrelationId(h: Headers)
    requires X_REQUEST_ID !in h
    requires X_CORRELATION_ID in h && !AllSpace(h[X_CORRELATION_ID])
    ensures DefaultAutoParser(h) == Ok(Some(Strip(h[X_CORRELATION_ID])))
  {
    DefaultAutoParserOrder(h);
  }
}
