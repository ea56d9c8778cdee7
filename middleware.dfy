/**
 * The request handlers returned by `openAPIParser` and the legacy
 * `createOpenAPIParser`: each coerces a request's parameters in place and
 * then calls `next`, handing any thrown coercion error to `next(error)`.
 */
module Middleware {
  import opened JsValues
  import opened OpenApi
  import opened Coercion
  import opened PathMatching
  import opened ParameterParser

  /** How a handler ends: `next()` or `next(error)`. */
  datatype NextCall = Continue | Forward(error: CoercionError)

  /** The parser format `createParser` picks for a document file. */
  datatype SpecFormat = Yaml | Json

  /** `.yaml` and `.yml` files are read as YAML, everything else as JSON; the test is case-sensitive. */
  function FormatOf(specPath: string): (f: SpecFormat)
    ensures f == Yaml <==> EndsWith(specPath, ".yaml") || EndsWith(specPath, ".yml")
    ensures f == Yaml ==> |specPath| >= 4 && specPath[|specPath| - 4..] in {".yml", "yaml"}
  {
    if EndsWith(specPath, ".yaml") then
      assert specPath[|specPath| - 4..] == specPath[|specPath| - 5..][1..];
      Yaml
    else if EndsWith(specPath, ".yml") then Yaml
    else Json
  }

  /** Upper-case extensions fall back to JSON. */
  lemma FormatExamples()
    ensures FormatOf("api.yaml") == Yaml && FormatOf("api.yml") == Yaml
    ensures FormatOf("api.json") == Json && FormatOf("api.YAML") == Json
  {
    assert "api.yaml"[8 - 5..] == ".yaml";
    assert "api.yml"[7 - 4..] == ".yml";
    assert "api.json"[8 - 4..] != ".yml";
    assert "api.YAML"[8 - 4..] != ".yml";
  }

  /** `req.route?.path || req.path` */
  function RouteOf(routePath: Option<string>, path: string): (route: string)
    ensures routePath.Some? && routePath.value != [] ==> route == routePath.value
    ensures routePath.None? || routePath.value == [] ==> route == path
  {
    if routePath.Some? && routePath.value != [] then routePath.value else path
  }

  /** The parts of an Express request a handler reads and writes. */
  class Request {
    var params: Dict<JsVal>
    var query: Dict<JsVal>
    var parsedParams: Option<Dict<JsVal>>
    var parsedQuery: Option<Dict<JsVal>>
    /** `req.route?.path`: None when no route matched. */
    const routePath: Option<string>
    const path: string
    const httpMethod: string

    constructor(params: Dict<JsVal>, query: Dict<JsVal>, routePath: Option<string>, path: string, httpMethod: string)
      ensures this.params == params && this.query == query
      ensures this.parsedParams == None && this.parsedQuery == None
      ensures this.routePath == routePath && this.path == path && this.httpMethod == httpMethod
    {
      this.params := params;
      this.query := query;
      this.parsedParams := None;
      this.parsedQuery := None;
      this.routePath := routePath;
      this.path := path;
      this.httpMethod := httpMethod;
    }
  }

  /** The parameters after a handler has run, and how it ended. */
  datatype Exchange = Exchange(params: Dict<JsVal>, query: Dict<JsVal>, next: NextCall)

  /**
   * What the `openAPIParser` handler does to a request: non-empty `params`
   * are replaced first, then non-empty `query`; the first throw stops it
   * and goes to `next(error)`.
   */
  function Handle(spec: Document, opts: Options, validDate: string -> bool, route: string, httpMethod: string,
                  params: Dict<JsVal>, query: Dict<JsVal>): (e: Exchange)
  {
    var pr := if |params.keys| > 0 then PathParams(spec, opts, validDate, route, params) else Ok(params);
    if pr.Err? then Exchange(params, query, Forward(pr.error))
    else
      var qr := if |query.keys| > 0 then QueryParams(spec, opts, validDate, route, httpMethod, query) else Ok(query);
      if qr.Err? then Exchange(pr.value, query, Forward(qr.error))
      else Exchange(pr.value, qr.value, Continue)
  }

  /**
   * The handler's guarantees: empty parameter sets are left alone, a
   * completed run keeps every key, and a query error leaves `params`
   * already replaced while `query` stays raw.
   */
  lemma HandleContract(spec: Document, opts: Options, validDate: string -> bool, route: string, httpMethod: string,
                       params: Dict<JsVal>, query: Dict<JsVal>)
    ensures var e := Handle(spec, opts, validDate, route, httpMethod, params, query);
      (|params.keys| == 0 ==> e.params == params) && (|query.keys| == 0 ==> e.query == query)
    ensures var e := Handle(spec, opts, validDate, route, httpMethod, params, query);
      e.next == Continue ==> e.params.keys == params.keys && forall k :: k in e.query.at <==> k in query.at
    ensures var e := Handle(spec, opts, validDate, route, httpMethod, params, query);
      e.next.Forward? ==> e.query == query
    ensures var e := Handle(spec, opts, validDate, route, httpMethod, params, query);
      var pr := PathParams(spec, opts, validDate, route, params);
      var qr := QueryParams(spec, opts, validDate, route, httpMethod, query);
      |params.keys| > 0 && pr.Ok? && |query.keys| > 0 && qr.Err? ==>
        e.params == pr.value && e.next == Forward(qr.error)
  {
    PathParamsContract(spec, opts, validDate, route, params);
    QueryParamsContract(spec, opts, validDate, route, httpMethod, query);
  }

  /** `openAPIParser(specPath, options)` once the document is loaded: the handler. */
  method OpenAPIParserHandler(parser: OpenAPIParser, req: Request) returns (next: NextCall)
    modifies req
    ensures var e := Handle(parser.spec, parser.options, parser.validDate, RouteOf(req.routePath, req.path),
                            req.httpMethod, old(req.params), old(req.query));
      req.params == e.params && req.query == e.query && next == e.next
    ensures req.parsedParams == old(req.parsedParams) && req.parsedQuery == old(req.parsedQuery)
  {
    var route := RouteOf(req.routePath, req.path);
    if |req.params.keys| > 0 {
      var parsed := parser.ParsePathParams(route, req.params);
      if parsed.Err? {
        return Forward(parsed.error);
      }
      req.params := parsed.value;
    }
    if |req.query.keys| > 0 {
      var parsed := parser.ParseQueryParams(route, req.httpMethod, req.query);
      if parsed.Err? {
        return Forward(parsed.error);
      }
      req.query := parsed.value;
    }
    return Continue;
  }

  /** The results the legacy handler stores, and how it ended. */
  datatype LegacyExchange = LegacyExchange(parsedParams: Option<Dict<JsVal>>, parsedQuery: Option<Dict<JsVal>>, next: NextCall)

  /** What the legacy `createOpenAPIParser` handler does: the same coercions, written to `parsedParams` / `parsedQuery`. */
  function LegacyHandle(spec: Document, opts: Options, validDate: string -> bool, route: string, httpMethod: string,
                        params: Dict<JsVal>, query: Dict<JsVal>,
                        parsedParams: Option<Dict<JsVal>>, parsedQuery: Option<Dict<JsVal>>): (e: LegacyExchange)
  {
    var pr := if |params.keys| > 0 then PathParams(spec, opts, validDate, route, params) else Ok(params);
    if pr.Err? then LegacyExchange(parsedParams, parsedQuery, Forward(pr.error))
    else
      var pp := if |params.keys| > 0 then Some(pr.value) else parsedParams;
      var qr := if |query.keys| > 0 then QueryParams(spec, opts, validDate, route, httpMethod, query) else Ok(query);
      if qr.Err? then LegacyExchange(pp, parsedQuery, Forward(qr.error))
      else LegacyExchange(pp, if |query.keys| > 0 then Some(qr.value) else parsedQuery, Continue)
  }

  /** The two handlers agree: the legacy one stores exactly what the current one writes over `params` / `query`. */
  lemma LegacyAgrees(spec: Document, opts: Options, validDate: string -> bool, route: string, httpMethod: string,
                     params: Dict<JsVal>, query: Dict<JsVal>,
                     parsedParams: Option<Dict<JsVal>>, parsedQuery: Option<Dict<JsVal>>)
    ensures var e := Handle(spec, opts, validDate, route, httpMethod, params, query);
      var l := LegacyHandle(spec, opts, validDate, route, httpMethod, params, query, parsedParams, parsedQuery);
      var pr := PathParams(spec, opts, validDate, route, params);
      l.next == e.next &&
      (|params.keys| > 0 && pr.Ok? ==> l.parsedParams == Some(e.params)) &&
      (|params.keys| == 0 || pr.Err? ==> l.parsedParams == parsedParams) &&
      (|query.keys| > 0 && e.next == Continue ==> l.parsedQuery == Some(e.query)) &&
      (|query.keys| == 0 || e.next.Forward? ==> l.parsedQuery == parsedQuery)
  {
  }

  /** `createOpenAPIParser(spec, options)`: the legacy handler; `params` and `query` are never written. */
  method CreateOpenAPIParserHandler(parser: OpenAPIParser, req: Request) returns (next: NextCall)
    modifies req
    ensures var e := LegacyHandle(parser.spec, parser.options, parser.validDate, RouteOf(req.routePath, req.path),
                                  req.httpMethod, old(req.params), old(req.query),
                                  old(req.parsedParams), old(req.parsedQuery));
      req.parsedParams == e.parsedParams && req.parsedQuery == e.parsedQuery && next == e.next
    ensures req.params == old(req.params) && req.query == old(req.query)
  {
    if |req.params.keys| > 0 {
      var parsed := parser.ParsePathParams(RouteOf(req.routePath, req.path), req.params);
      if parsed.Err? {
        return Forward(parsed.error);
      }
      req.parsedParams := Some(parsed.value);
    }
    if |req.query.keys| > 0 {
      var parsed := parser.ParseQueryParams(RouteOf(req.routePath, req.path), req.httpMethod, req.query);
      if parsed.Err? {
        return Forward(parsed.error);
      }
      req.parsedQuery := Some(parsed.value);
    }
    return Continue;
  }
}
