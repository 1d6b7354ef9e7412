/**
 * The Slim middleware that answers requests for its documentation path with
 * a Swagger 1.2 description of the application's named routes.
 */
module Swagger {
  import opened Wrappers
  import opened PhpArrays
  import opened PathPattern

  /**
   * A named route as the generator reads it: its name, its pattern, its HTTP
   * methods and its optional `swagger` metadata array.
   */
  datatype Route = Route(name: string, pattern: string, methods: seq<string>, swagger: Option<seq<Entry>>)

  /** The metadata array, when present, is a PHP array. */
  predicate WellFormed(route: Route) {
    route.swagger.Some? ==> DistinctKeys(route.swagger.value)
  }

  /** What the route's author wrote under key `s`, if anything. */
  function Supplied(route: Route, s: string): Option<Value> {
    if route.swagger.Some? then Lookup(route.swagger.value, StrKey(s)) else None
  }

  /**
   * An operation parameter: a path argument (four keys, `required` a boolean)
   * or a body or form field (six keys, `required` the string "true").
   */
  datatype Param =
    | PathParam(arg: PathArg)
    | FieldParam(name: Value, description: Value, paramType: string)
  {
    function ParamType(): string {
      if PathParam? then arg.ParamType() else paramType
    }

    function Required(): Value {
      if PathParam? then Bool(arg.required) else Str("true")
    }

    /** `allowMultiple`, which only body and form fields carry. */
    function AllowMultiple(): Option<bool> {
      if PathParam? then None else Some(false)
    }

    /** `dataType`, which only body and form fields carry. */
    function DataType(): Option<string> {
      if PathParam? then None else Some("String")
    }
  }

  const BodyParam: Param := FieldParam(Str("body"), Str("body"), "body")

  function FormParam(v: Value): Param {
    FieldParam(v, v, "form")
  }

  datatype Operation = Operation(
    httpMethod: string,
    summary: Value,
    responseClass: Value,
    errorResponses: Value,
    nickname: string,
    parameters: seq<Param>)

  /** One element of the document's `apis` list. */
  datatype ApiEntry = ApiEntry(path: string, description: string, operations: seq<Operation>)

  /**
   * The generated document: the options array with its `apis` slot set, and
   * the route entries that fill that slot, in route order.
   */
  datatype Document = Document(fields: seq<Entry>, apis: seq<ApiEntry>)

  /** The middleware either answers with the document or hands the request on. */
  datatype Response = Served(document: Document) | PassToNext

  /** The metadata every route starts from. */
  function SwaggerDefaults(): (d: seq<Entry>)
    ensures DistinctKeys(d)
    ensures forall i :: 0 <= i < |d| ==> d[i].key.StrKey?
  {
    [ Entry(StrKey("summary"), Str("")),
      Entry(StrKey("notes"), Str("")),
      Entry(StrKey("type"), Str("")),
      Entry(StrKey("nickname"), Str("")),
      Entry(StrKey("queryparameters"), Arr([])),
      Entry(StrKey("parameters"), Arr([])),
      Entry(StrKey("useBody"), Bool(false)),
      Entry(StrKey("responseMessages"), Arr([])) ]
  }

  /** The route's metadata merged over the defaults. */
  function GetSwaggerInfo(route: Route): seq<Entry> {
    ArrayMerge(SwaggerDefaults(), if route.swagger.Some? then route.swagger.value else [])
  }

  /** A route without metadata gets exactly the defaults. */
  lemma SwaggerInfoWithout(route: Route)
    requires route.swagger.None?
    ensures GetSwaggerInfo(route) == SwaggerDefaults()
  {
    MergeNothing(SwaggerDefaults());
  }

  /**
   * The author's keys win over the defaults, keys outside the defaults are
   * kept, and values under integer keys are kept in order.
   */
  lemma SwaggerInfoMerge(route: Route)
    requires WellFormed(route)
    ensures DistinctKeys(GetSwaggerInfo(route))
    ensures forall s ::
      Lookup(GetSwaggerInfo(route), StrKey(s)) == Prefer(Supplied(route, s), Lookup(SwaggerDefaults(), StrKey(s)))
    ensures route.swagger.Some? ==> IntValues(GetSwaggerInfo(route)) == IntValues(route.swagger.value)
  {
    var supplied := if route.swagger.Some? then route.swagger.value else [];
    ArrayMergeSpec(SwaggerDefaults(), supplied);
    IntValuesStrKeys(SwaggerDefaults());
  }

  /** The default metadata under the keys the operation reads. */
  lemma DefaultsPresent()
    ensures Lookup(SwaggerDefaults(), StrKey("summary")) == Some(Str(""))
    ensures Lookup(SwaggerDefaults(), StrKey("parameters")) == Some(Arr([]))
    ensures Lookup(SwaggerDefaults(), StrKey("useBody")) == Some(Bool(false))
  {
  }

  /** Neither `responseClass` nor `errorResponses` has a default. */
  lemma DefaultsMissing()
    ensures Lookup(SwaggerDefaults(), StrKey("responseClass")) == None
    ensures Lookup(SwaggerDefaults(), StrKey("errorResponses")) == None
  {
    var d := SwaggerDefaults();
    forall i | 0 <= i < |d|
      ensures d[i].key != StrKey("responseClass") && d[i].key != StrKey("errorResponses")
    {
      assert |d[i].key.s| !in {13, 14};
    }
    LookupSpec(d, StrKey("responseClass"));
    LookupSpec(d, StrKey("errorResponses"));
  }

  /** The merged metadata under one key. */
  lemma InfoAt(route: Route, s: string)
    requires WellFormed(route)
    ensures Lookup(GetSwaggerInfo(route), StrKey(s)) == Prefer(Supplied(route, s), Lookup(SwaggerDefaults(), StrKey(s)))
  {
    SwaggerInfoMerge(route);
  }

  /** `$swagger['useBody'] === true`. */
  predicate UsesBody(info: seq<Entry>) {
    Lookup(info, StrKey("useBody")) == Some(Bool(true))
  }

  /** What `foreach ($swagger['parameters'] as ...)` visits: nothing unless it is an array. */
  function FormNames(info: seq<Entry>): seq<Value> {
    match Lookup(info, StrKey("parameters"))
    case Some(Arr(es)) => Values(es)
    case _ => []
  }

  function PathParams(args: seq<PathArg>): (ps: seq<Param>)
    ensures |ps| == |args|
    ensures forall k :: 0 <= k < |args| ==> ps[k] == PathParam(args[k])
  {
    seq(|args|, k requires 0 <= k < |args| => PathParam(args[k]))
  }

  /** One form field per declared name, in order. */
  function FormParams(names: seq<Value>): (ps: seq<Param>)
    ensures |ps| == |names|
    ensures forall k :: 0 <= k < |names| ==> ps[k] == FormParam(names[k])
  {
    if names == [] then [] else FormParams(names[..|names| - 1]) + [FormParam(names[|names| - 1])]
  }

  /** The parameters after the path arguments: a body field, or the form fields. */
  function ExtraParams(info: seq<Entry>): seq<Param> {
    if UsesBody(info) then [BodyParam] else FormParams(FormNames(info))
  }

  function Summary(route: Route, info: seq<Entry>): Value {
    if EmptyAt(info, StrKey("summary")) then Str(route.name) else Lookup(info, StrKey("summary")).value
  }

  function ResponseClass(info: seq<Entry>): Value {
    if EmptyAt(info, StrKey("responseClass")) then Str("void") else Lookup(info, StrKey("responseClass")).value
  }

  /** A non-empty `errorResponses` is read from a property the class does not have, giving null. */
  function ErrorResponses(info: seq<Entry>): Value {
    if EmptyAt(info, StrKey("errorResponses")) then Str("") else Null
  }

  function OperationFor(route: Route, info: seq<Entry>, httpMethod: string): Operation {
    Operation(httpMethod, Summary(route, info), ResponseClass(info), ErrorResponses(info), route.name,
      PathParams(Translate(route.pattern).arguments) + ExtraParams(info))
  }

  /** Only the route's first HTTP method becomes an operation. */
  function RouteOperations(route: Route): seq<Operation> {
    if route.methods == [] then [] else [OperationFor(route, GetSwaggerInfo(route), route.methods[0])]
  }

  function RouteEntry(route: Route): ApiEntry {
    ApiEntry(Translate(route.pattern).template, route.name + " action", RouteOperations(route))
  }

  function ApiList(routes: seq<Route>): seq<ApiEntry> {
    seq(|routes|, i requires 0 <= i < |routes| => RouteEntry(routes[i]))
  }

  /** The options array with its `apis` slot reset, followed by one entry per route. */
  function BuildDocument(options: seq<Entry>, routes: seq<Route>): Document {
    Document(Put(options, StrKey("apis"), Arr([])), ApiList(routes))
  }

  /** The defaults `setup` merges the constructor's options over. */
  function OptionDefaults(basePath: string, docPath: string): (d: seq<Entry>)
    ensures DistinctKeys(d)
    ensures forall i :: 0 <= i < |d| ==> d[i].key.StrKey?
  {
    [ Entry(StrKey("apiVersion"), Str("1.0")),
      Entry(StrKey("swaggerVersion"), Str("1.2")),
      Entry(StrKey("basePath"), Str(basePath)),
      Entry(StrKey("resourcePath"), Str("/api")),
      Entry(StrKey("docPath"), Str(docPath)) ]
  }

  /**
   * Path arguments come first, in pattern order and one per marker; then
   * either exactly one body field or one form field per declared name, never both.
   */
  lemma ParameterLayout(route: Route, info: seq<Entry>, httpMethod: string)
    ensures var ps := OperationFor(route, info, httpMethod).parameters;
      var args := MarkerArgs(route.pattern);
      && |ps| == |args| + (if UsesBody(info) then 1 else |FormNames(info)|)
      && (forall k :: 0 <= k < |args| ==>
            ps[k].ParamType() == "path" && ps[k].arg.name == args[k].name
            && ps[k].Required() == Bool(args[k].required))
      && (forall k :: |args| <= k < |ps| ==> ps[k].FieldParam? && ps[k].Required() == Str("true"))
      && (UsesBody(info) ==> ps[|args|] == BodyParam)
      && (!UsesBody(info) ==> forall k :: 0 <= k < |FormNames(info)| ==>
            ps[|args| + k] == FormParam(FormNames(info)[k]))
  {
    ArgumentsFollowMarkers(route.pattern);
  }

  /**
   * A route gets an operation exactly when it has a method, and then only
   * one, for its first method, nicknamed after the route.
   */
  lemma OperationShape(route: Route)
    ensures var ops := RouteOperations(route);
      && |ops| <= 1
      && (ops == [] <==> route.methods == [])
      && (ops != [] ==> ops[0].httpMethod == route.methods[0] && ops[0].nickname == route.name)
  {
  }

  /** The summary is the author's when non-empty, otherwise the route name. */
  lemma SummaryFallback(route: Route)
    requires WellFormed(route)
    ensures var v := Supplied(route, "summary");
      Summary(route, GetSwaggerInfo(route)) == if v.None? || IsEmpty(v.value) then Str(route.name) else v.value
  {
    InfoAt(route, "summary");
    DefaultsPresent();
  }

  /** The response class is the author's when non-empty, otherwise "void". */
  lemma ResponseClassFallback(route: Route)
    requires WellFormed(route)
    ensures var v := Supplied(route, "responseClass");
      ResponseClass(GetSwaggerInfo(route)) == if v.None? || IsEmpty(v.value) then Str("void") else v.value
  {
    InfoAt(route, "responseClass");
    DefaultsMissing();
  }

  /** The error responses are "" unless the author supplied non-empty ones, which come out null. */
  lemma ErrorResponsesFallback(route: Route)
    requires WellFormed(route)
    ensures var v := Supplied(route, "errorResponses");
      ErrorResponses(GetSwaggerInfo(route)) == if v.None? || IsEmpty(v.value) then Str("") else Null
  {
    InfoAt(route, "errorResponses");
    DefaultsMissing();
  }

  /** A route without metadata documents only its path arguments, with the fallback texts. */
  lemma PlainRoute(route: Route)
    requires route.swagger.None? && route.methods != []
    ensures var op := RouteOperations(route)[0];
      && op.summary == Str(route.name)
      && op.responseClass == Str("void")
      && op.errorResponses == Str("")
      && op.parameters == PathParams(MarkerArgs(route.pattern))
  {
    SwaggerInfoWithout(route);
    ArgumentsFollowMarkers(route.pattern);
    DefaultsPresent();
    DefaultsMissing();
  }

  /**
   * The document keeps every option (with `apis` reset, in place if the
   * options had it) and has one entry per route, in order, whose path is the
   * route's translated template, free of markers.
   */
  lemma DocumentSpec(options: seq<Entry>, routes: seq<Route>)
    ensures var doc := BuildDocument(options, routes);
      && Lookup(doc.fields, StrKey("apis")) == Some(Arr([]))
      && (forall k :: k != StrKey("apis") ==> Lookup(doc.fields, k) == Lookup(options, k))
      && (forall i :: 0 <= i < |options| ==> doc.fields[i].key == options[i].key)
      && |doc.apis| == |routes|
      && forall i :: 0 <= i < |routes| ==>
           && doc.apis[i].path == Translate(routes[i].pattern).template
           && NoMarkers(doc.apis[i].path)
           && doc.apis[i].description == routes[i].name + " action"
           && |doc.apis[i].operations| == (if routes[i].methods == [] then 0 else 1)
  {
    forall i | 0 <= i < |routes| ensures NoMarkers(Translate(routes[i].pattern).template) {
      TemplateHasNoMarkers(routes[i].pattern);
    }
  }

  /**
   * `setup`: the constructor's options win over the defaults, the defaults'
   * five keys come first in their order, and every other option is kept.
   */
  lemma SetupOptions(basePath: string, docPath: string, options: seq<Entry>)
    requires DistinctKeys(options)
    ensures var d := OptionDefaults(basePath, docPath);
      var m := ArrayMerge(d, options);
      && DistinctKeys(m)
      && |d| == 5 <= |m|
      && d[0] == Entry(StrKey("apiVersion"), Str("1.0"))
      && d[1] == Entry(StrKey("swaggerVersion"), Str("1.2"))
      && d[2] == Entry(StrKey("basePath"), Str(basePath))
      && d[3] == Entry(StrKey("resourcePath"), Str("/api"))
      && d[4] == Entry(StrKey("docPath"), Str(docPath))
      && (forall i :: 0 <= i < 5 ==>
            m[i].key == d[i].key && Lookup(m, d[i].key) == Prefer(Lookup(options, d[i].key), Some(d[i].value)))
      && (forall s :: Lookup(d, StrKey(s)).None? ==> Lookup(m, StrKey(s)) == Lookup(options, StrKey(s)))
      && IntValues(m) == IntValues(options)
  {
    var d := OptionDefaults(basePath, docPath);
    ArrayMergeSpec(d, options);
    IntValuesStrKeys(d);
    forall i | 0 <= i < 5 ensures Lookup(d, d[i].key) == Some(d[i].value) {
      LookupAt(d, i);
    }
  }

  /** Builds one route's `apis` entry the way `call` does, pushing parameters one at a time. */
  method BuildRouteEntry(route: Route) returns (entry: ApiEntry)
    ensures entry == RouteEntry(route)
  {
    var info := GetSwaggerInfo(route);
    var path, args := GetPathArguments(route.pattern);
    var operations: seq<Operation> := [];
    for j := 0 to |route.methods|
      invariant j == 0 && operations == []
    {
      var parameters := PathParams(args);
      if UsesBody(info) {
        parameters := parameters + [BodyParam];
      } else {
        var names := FormNames(info);
        for k := 0 to |names|
          invariant parameters == PathParams(args) + FormParams(names[..k])
        {
          assert names[..k + 1][..k] == names[..k];
          parameters := parameters + [FormParam(names[k])];
        }
        assert names[..|names|] == names;
      }
      operations := operations + [Operation(route.methods[j], Summary(route, info), ResponseClass(info),
        ErrorResponses(info), route.name, parameters)];
      break;
    }
    entry := ApiEntry(path, route.name + " action", operations);
  }

  /** The middleware: its documentation path and its API options. */
  class SwaggerDoc {
    var docPath: string
    var options: seq<Entry>

    /** The options are a PHP array. */
    predicate Valid()
      reads this
    {
      DistinctKeys(options)
    }

    constructor(docPath: string, options: seq<Entry>)
      requires DistinctKeys(options)
      ensures this.docPath == docPath && this.options == options
      ensures Valid()
    {
      this.docPath := docPath;
      this.options := options;
    }

    /** The constructor called without arguments. */
    constructor Default()
      ensures docPath == "/swagger.json" && options == []
      ensures Valid()
    {
      docPath := "/swagger.json";
      options := [];
    }

    /** Merges the options over the defaults, with `basePath` taken from the request environment. */
    method Setup(basePath: string)
      requires Valid()
      modifies this
      ensures docPath == old(docPath)
      ensures options == ArrayMerge(OptionDefaults(basePath, docPath), old(options))
      ensures Valid()
    {
      SetupOptions(basePath, docPath, options);
      options := ArrayMerge(OptionDefaults(basePath, docPath), options);
    }

    /**
     * Handles one request: the document when the path is the documentation
     * path, otherwise the request goes on to the next middleware.
     */
    method Call(requestPath: string, routes: seq<Route>) returns (response: Response)
      ensures requestPath == docPath ==> response == Served(BuildDocument(options, routes))
      ensures requestPath != docPath ==> response == PassToNext
    {
      if requestPath == docPath {
        var fields := Put(options, StrKey("apis"), Arr([]));
        var apis: seq<ApiEntry> := [];
        for i := 0 to |routes|
          invariant apis == ApiList(routes)[..i]
        {
          var entry := BuildRouteEntry(routes[i]);
          assert ApiList(routes)[..i + 1] == ApiList(routes)[..i] + [entry];
          apis := apis + [entry];
        }
        response := Served(Document(fields, apis));
      } else {
        response := PassToNext;
      }
    }
  }
}
