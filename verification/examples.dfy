/** The route shapes of the demonstration application, worked through the model. */
module Examples {
  import opened Wrappers
  import opened PhpArrays
  import opened PathPattern
  import opened Swagger
  import opened Seqs

  /** `/map/:a/(:b)` read as the scan reads it: a literal run, a marker, a literal, an optional marker. */
  lemma MapPatternText(a: string, b: string)
    ensures "/map/:" + a + "/(:" + b + ")" == "/map/" + (":" + a + ("/" + ("(:" + b + ")")))
  {
    var opt := "(:" + b + ")";
    assert "/(:" == "/" + "(:";
    assert "/map/:" == "/map/" + ":";
    AppendAssoc("/map/:" + a, "/(:", b);
    AppendAssoc("/map/:" + a, "/(:" + b, ")");
    AppendAssoc("/", "(:", b);
    AppendAssoc("/", "(:" + b, ")");
    AppendAssoc("/map/:", a, "/" + opt);
    AppendAssoc("/map/", ":", a + ("/" + opt));
    AppendAssoc(":", a, "/" + opt);
  }

  /** `/map/{a}/{b}` as the scan writes it. */
  lemma MapTemplateText(a: string, b: string)
    ensures "/map/{" + a + "}/{" + b + "}" == "/map/" + (Placeholder(a) + ("/" + Placeholder(b)))
  {
    var pa, pb := Placeholder(a), Placeholder(b);
    assert "/map/{" == "/map/" + "{";
    assert "}/{" == "}" + "/" + "{";
    AppendAssoc("/map/{" + a, "}/{", b);
    AppendAssoc("/map/{" + a, "}/{" + b, "}");
    AppendAssoc("/map/" + "{", a, "}");
    AppendAssoc("/map/", "{", a);
    AppendAssoc("/map/", "{" + a, "}");
    AppendAssoc("/map/" + pa, "/", "{");
    AppendAssoc("/map/" + pa + "/" + "{", b, "}");
    AppendAssoc("/map/" + pa + "/", "{", b);
    AppendAssoc("/map/" + pa + "/", "{" + b, "}");
    AppendAssoc("/map/" + pa, "/", pb);
    AppendAssoc("/map/", pa, "/" + pb);
  }

  /** The literal runs of the two patterns hold no `:` and no `(`. */
  lemma PlainTexts()
    ensures Plain("/") && Plain("/map/") && Plain("/get/")
  {
  }

  /** The end of the `map` pattern, `/(:b)`: a literal and an optional argument. */
  lemma MapTail(b: string)
    requires GoodName(b)
    ensures Translate("/" + ("(:" + b + ")")) == Translation("/" + Placeholder(b), [PathArg(b, false)])
  {
    var opt := "(:" + b + ")";
    assert Translate(opt) == Translation(Placeholder(b), [PathArg(b, false)]) by {
      var empty: string := [];
      assert Translate(empty) == Translation([], []);
      OptionalMarkerStep(b, empty);
      assert opt + empty == opt && Placeholder(b) + [] == Placeholder(b);
    }
    PlainTexts();
    LiteralsStep("/", opt);
  }

  /**
   * The `map` route's shape, `/map/:a/(:b)`: the first argument is required,
   * the parenthesised one is not, and both become placeholders.
   */
  lemma MapPattern(a: string, b: string)
    requires GoodName(a) && GoodName(b)
    ensures Translate("/map/:" + a + "/(:" + b + ")")
      == Translation("/map/{" + a + "}/{" + b + "}", [PathArg(a, true), PathArg(b, false)])
  {
    var tail := "/" + ("(:" + b + ")");
    MapTail(b);
    RequiredMarkerStep(a, tail);
    PlainTexts();
    LiteralsStep("/map/", ":" + a + tail);
    MapPatternText(a, b);
    MapTemplateText(a, b);
  }

  /** `/get/:a/:b` read as the scan reads it. */
  lemma GetPatternText(a: string, b: string)
    ensures "/get/:" + a + "/:" + b == "/get/" + (":" + a + ("/" + (":" + b + "")))
  {
    assert ":" + b + "" == ":" + b;
    assert "/:" == "/" + ":";
    assert "/get/:" == "/get/" + ":";
    AppendAssoc("/get/:" + a, "/", ":" + b);
    AppendAssoc("/get/:", a, "/" + (":" + b));
    AppendAssoc("/get/", ":", a + ("/" + (":" + b)));
    AppendAssoc(":", a, "/" + (":" + b));
    AppendAssoc("/get/:" + a, "/:", b);
    AppendAssoc("/get/:" + a, "/", ":");
    AppendAssoc("/get/:" + a + "/", ":", b);
  }

  /** `/get/{a}/{b}` as the scan writes it. */
  lemma GetTemplateText(a: string, b: string)
    ensures "/get/{" + a + "}/{" + b + "}" == "/get/" + (Placeholder(a) + ("/" + Placeholder(b)))
  {
    var pa, pb := Placeholder(a), Placeholder(b);
    assert "/get/{" == "/get/" + "{";
    assert "}/{" == "}" + "/" + "{";
    AppendAssoc("/get/{" + a, "}/{", b);
    AppendAssoc("/get/{" + a, "}/{" + b, "}");
    AppendAssoc("/get/" + "{", a, "}");
    AppendAssoc("/get/", "{", a);
    AppendAssoc("/get/", "{" + a, "}");
    AppendAssoc("/get/" + pa, "/", "{");
    AppendAssoc("/get/" + pa + "/" + "{", b, "}");
    AppendAssoc("/get/" + pa + "/", "{", b);
    AppendAssoc("/get/" + pa + "/", "{" + b, "}");
    AppendAssoc("/get/" + pa, "/", pb);
    AppendAssoc("/get/", pa, "/" + pb);
  }

  /** The end of the `get` pattern, `/:b`: a literal and a required argument. */
  lemma GetTail(b: string)
    requires GoodName(b)
    ensures Translate("/" + (":" + b + "")) == Translation("/" + Placeholder(b), [PathArg(b, true)])
  {
    var req := ":" + b + "";
    assert Translate(req) == Translation(Placeholder(b), [PathArg(b, true)]) by {
      var empty: string := [];
      assert Translate(empty) == Translation([], []);
      RequiredMarkerStep(b, empty);
      assert Placeholder(b) + [] == Placeholder(b);
    }
    PlainTexts();
    LiteralsStep("/", req);
  }

  /** The `get` route's shape, `/get/:a/:b`: two required arguments, in order. */
  lemma GetPattern(a: string, b: string)
    requires GoodName(a) && GoodName(b)
    ensures Translate("/get/:" + a + "/:" + b)
      == Translation("/get/{" + a + "}/{" + b + "}", [PathArg(a, true), PathArg(b, true)])
  {
    var tail := "/" + (":" + b + "");
    GetTail(b);
    RequiredMarkerStep(a, tail);
    PlainTexts();
    LiteralsStep("/get/", ":" + a + tail);
    GetPatternText(a, b);
    GetTemplateText(a, b);
  }

  /**
   * The `get` route's metadata, with its summary and its list of parameter
   * names left open; its own `nickname` is ignored by the generator.
   */
  function GetMetadata(summary: string, names: seq<Value>): seq<Entry> {
    [ Entry(StrKey("summary"), Str(summary)),
      Entry(StrKey("notes"), Str("Another note about how this works")),
      Entry(StrKey("type"), Str("theType")),
      Entry(StrKey("nickname"), Str("theNickname")),
      Entry(StrKey("parameters"), Arr(List(names))),
      Entry(StrKey("responseMessages"), Arr(List([Str("404"), Str("304")]))) ]
  }

  lemma GetMetadataLookups(summary: string, names: seq<Value>)
    ensures var md := GetMetadata(summary, names);
      && DistinctKeys(md)
      && Lookup(md, StrKey("summary")) == Some(Str(summary))
      && Lookup(md, StrKey("parameters")) == Some(Arr(List(names)))
      && Lookup(md, StrKey("useBody")) == None
      && Lookup(md, StrKey("responseClass")) == None
      && Lookup(md, StrKey("errorResponses")) == None
  {
    var md := GetMetadata(summary, names);
    assert DistinctKeys(md);
    LookupAt(md, 0);
    LookupAt(md, 4);
    LookupSpec(md, StrKey("useBody"));
    LookupSpec(md, StrKey("responseClass"));
    LookupSpec(md, StrKey("errorResponses"));
  }

  /**
   * The `get` route's operation: the author's summary, "void" for the missing
   * response class, and the route name as nickname, whatever the metadata's
   * own `nickname` says.
   */
  lemma GetRouteTexts(route: Route, summary: string, names: seq<Value>)
    requires route.name == "get" && route.methods != [] && route.methods[0] == "GET"
    requires summary != "" && summary != "0"
    requires route.swagger == Some(GetMetadata(summary, names))
    ensures var op := RouteOperations(route)[0];
      && op.httpMethod == "GET" && op.nickname == "get"
      && op.summary == Str(summary)
      && op.responseClass == Str("void")
      && op.errorResponses == Str("")
  {
    GetMetadataLookups(summary, names);
    OperationShape(route);
    SummaryFallback(route);
    ResponseClassFallback(route);
    ErrorResponsesFallback(route);
  }

  /**
   * The `get` route's parameters: its path arguments, then one form field
   * per declared parameter name, in order.
   */
  lemma GetRouteParameters(route: Route, summary: string, names: seq<Value>)
    requires route.methods != []
    requires route.swagger == Some(GetMetadata(summary, names))
    ensures RouteOperations(route)[0].parameters == PathParams(MarkerArgs(route.pattern)) + FormParams(names)
  {
    GetMetadataLookups(summary, names);
    var info := GetSwaggerInfo(route);
    InfoAt(route, "useBody");
    InfoAt(route, "parameters");
    DefaultsPresent();
    assert !UsesBody(info) && FormNames(info) == names;
    ArgumentsFollowMarkers(route.pattern);
  }

  /**
   * A `/get/:a/:b` route whose first method is GET, without metadata: its entry has the
   * translated path and one operation documenting both required arguments,
   * with the route name as summary and "void" as response class.
   */
  lemma PlainGetRoute(route: Route, a: string, b: string)
    requires GoodName(a) && GoodName(b)
    requires route.pattern == "/get/:" + a + "/:" + b
    requires route.methods != [] && route.methods[0] == "GET" && route.swagger.None?
    ensures RouteEntry(route) == ApiEntry("/get/{" + a + "}/{" + b + "}", route.name + " action",
      [Operation("GET", Str(route.name), Str("void"), Str(""), route.name,
        [PathParam(PathArg(a, true)), PathParam(PathArg(b, true))])])
  {
    GetPattern(a, b);
    ArgumentsFollowMarkers(route.pattern);
    PlainRoute(route);
    OperationShape(route);
    assert PathParams([PathArg(a, true), PathArg(b, true)]) == [PathParam(PathArg(a, true)), PathParam(PathArg(b, true))];
  }

  /**
   * The `map` route, `/map/:a/(:b)` via GET and OPTIONS without metadata:
   * only the GET operation is documented, with a required and an optional
   * path argument.
   */
  lemma MapRoute(route: Route, a: string, b: string)
    requires GoodName(a) && GoodName(b)
    requires route.pattern == "/map/:" + a + "/(:" + b + ")"
    requires route.methods == ["GET", "OPTIONS"] && route.swagger.None?
    ensures RouteEntry(route) == ApiEntry("/map/{" + a + "}/{" + b + "}", route.name + " action",
      [Operation("GET", Str(route.name), Str("void"), Str(""), route.name,
        [PathParam(PathArg(a, true)), PathParam(PathArg(b, false))])])
  {
    MapPattern(a, b);
    ArgumentsFollowMarkers(route.pattern);
    PlainRoute(route);
    OperationShape(route);
    assert PathParams([PathArg(a, true), PathArg(b, false)]) == [PathParam(PathArg(a, true)), PathParam(PathArg(b, false))];
  }
}
