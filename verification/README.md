# Slim Swagger middleware, modelled in Dafny

`Jloosli\SwaggerDoc` is a Slim middleware. When a request arrives for its
documentation path (`/swagger.json` by default), it answers with a Swagger 1.2
description of the application's named routes; any other request goes on to
the next middleware. This project models that generator and proves what it
produces.

The model has five modules:

- **`PathPattern`** models `getPathArguments`. It rewrites a Slim route pattern
  such as `/map/:firstArg/(:optionalSecond)` into the Swagger path
  `/map/{firstArg}/{optionalSecond}` and lists its path arguments. The regular
  expression `(\(?):([\w_-]+)(\+?)\)?` is modelled in two ways:
  - as a tokenizer (`Tokenize`) that cuts the pattern into literal characters
    and matches;
  - as a left-to-right scanning method (`GetPathArguments`) proved equal to
    the tokenizer.

  The argument list is checked against an independent description,
  `MarkerArgs`: one record per `:` that is followed by a name character.
- **`PhpArrays`** models PHP's ordered arrays: lookup, assignment and
  `array_merge`. String keys of the right-hand array overwrite in place, and
  integer keys are renumbered from zero. Distinct keys are the representation
  invariant of a PHP array.
- **`Swagger`** covers the rest:
  - `getSwaggerInfo`, which merges a route's `swagger` metadata over fixed
    defaults;
  - the option defaults of `setup`;
  - building each route's operation and its `apis` entry;
  - the class `SwaggerDoc`, with its constructor, `Setup` and `Call`.
- **`Examples`** works through the demonstration application's `get` and `map`
  routes.
- **`Wrappers`** (`Option`) and **`Seqs`** (one sequence fact) are shared
  helpers.

The generated document is `Document(fields, apis)`:
- `fields` is the options array right after `$apiData['apis'] = []`. The
  `apis` slot is replaced in place if the options already had one, and
  appended at the end otherwise.
- `apis` holds the route entries pushed into that slot, in route order.

In these places the model follows the code as written rather than what
Swagger 1.2 would suggest:
- **Path parameters carry four keys.** They have `name`, `required` (a
  boolean), `type` = `string` and `paramType` = `path`. They have no
  `allowMultiple` and no `dataType`.
- **Body and form parameters carry `required` as a string.** The value is the
  string `"true"`.
- **A non-empty `errorResponses` comes out null.** The code reads it from
  `$this->swagger`, a property the class does not declare. PHP reads that as
  `null`, with warnings, so the operation gets `null` if the warnings are not
  fatal (see "Left out"). Otherwise it gets `""`.
- **The trigger uses the constructor's path.** The document is served when
  the request path equals the `docPath` given to the constructor. A `docPath`
  entry in the options changes only the document, not the trigger.
- **No query parameters are ever emitted.** The query-parameter block reads
  variables that are never assigned.
- **`responseClass` has no default.** It is `"void"` unless the metadata
  supplies a non-empty one.

## Model

| member | source | states |
|---|---|---|
| PathPattern.NameRun | SlimSwagger/SwaggerDoc.php:109 | the `[\w_-]+` group: the longest prefix of name characters, and the character after it is not one |
| PathPattern.TokenAfterColon | SlimSwagger/SwaggerDoc.php:109 | the match after a `:`: the name is a maximal run of name characters, a following `+` is taken, then a following `)`, and the match is written exactly there |
| PathPattern.TokenAt | SlimSwagger/SwaggerDoc.php:109 | a match at the start of the text is at least two characters (`:` and a name character) and lies within the text |
| PathPattern.TokenAtSpec | SlimSwagger/SwaggerDoc.php:109 | a match starts here exactly when the text starts with `:`+name character or `(`+`:`+name character; `optional` is exactly "the `(` was matched"; the name cannot be extended |
| PathPattern.TokenShape | SlimSwagger/SwaggerDoc.php:109 | inside a match there is no further `:` after its marker, and the match does not end with `(` |
| PathPattern.RenderTokenize | SlimSwagger/SwaggerDoc.php:110-118 | the scan loses nothing: matches and untouched characters, written back, give the pattern again |
| PathPattern.ArgumentsFollowMarkers | SlimSwagger/SwaggerDoc.php:110-117 | the arguments are exactly one record per marker of the pattern, in left-to-right order, duplicates kept, `required` false exactly when `(` stands before the `:` |
| PathPattern.NoMarkersUnchanged | SlimSwagger/SwaggerDoc.php:109-119 | a pattern with no `:` followed by a name character comes back unchanged with no arguments |
| PathPattern.TemplateHasNoMarkers | SlimSwagger/SwaggerDoc.php:110-118 | no `:` followed by a name character is left in the Swagger path |
| PathPattern.TranslateIdempotent | SlimSwagger/SwaggerDoc.php:106-120 | translating the Swagger path again returns it unchanged with no arguments |
| PathPattern.LiteralsStep | SlimSwagger/SwaggerDoc.php:110-118 | text with neither `:` nor `(` is copied to the path as it is and yields no argument |
| PathPattern.RequiredMarkerStep | SlimSwagger/SwaggerDoc.php:110-117 | `:name`, not followed by a name character, `+` or `)`, becomes `{name}` and one required argument |
| PathPattern.OptionalMarkerStep | SlimSwagger/SwaggerDoc.php:110-117 | `(:name)` becomes `{name}` and one optional argument, with `(` and `)` consumed |
| PathPattern.ScanName | SlimSwagger/SwaggerDoc.php:109 | the scanner's loop stops at the end of the longest run of name characters |
| PathPattern.GetPathArguments | SlimSwagger/SwaggerDoc.php:106-120 | the scanning loop returns the tokenizer's translation, its arguments are one per marker (`MarkerArgs`), and its path holds no marker |
| PhpArrays.LookupSpec | SlimSwagger/SwaggerDoc.php:185 | reading `$a[$k]` finds nothing exactly when no slot has key `$k`, and otherwise finds a slot with that key |
| PhpArrays.LookupAt | SlimSwagger/SwaggerDoc.php:185 | in an array with distinct keys, reading a slot's key gives that slot's value |
| PhpArrays.Put | SlimSwagger/SwaggerDoc.php:150 | after `$a[$k] = $v`, `$k` reads `$v`, other keys read as before, existing keys keep their places, and a new key goes last |
| PhpArrays.List | public/index.php:36 | `array(v0, v1, ...)` holds the values in order, slot `i` under the integer key `i` |
| PhpArrays.ArrayMergeSpec | SlimSwagger/SwaggerDoc.php:77-83 | `array_merge`: keys stay distinct; a string key reads the right array's value if it has one, else the left's; integer-keyed values are the left's then the right's, and the `j`-th of them is stored under the key `j`; a string-keyed left array's keys come first in order |
| PhpArrays.MergeNothing | SlimSwagger/SwaggerDoc.php:124-125 | merging an empty array into a string-keyed array returns that array |
| PhpArrays.IntValuesStrKeys | SlimSwagger/SwaggerDoc.php:125-134 | a string-keyed array holds no integer-keyed values |
| Swagger.SwaggerDefaults | SlimSwagger/SwaggerDoc.php:125-134 | the default metadata is a string-keyed array with distinct keys |
| Swagger.SwaggerInfoWithout | SlimSwagger/SwaggerDoc.php:124-134 | a route without `swagger` metadata gets exactly the defaults |
| Swagger.SwaggerInfoMerge | SlimSwagger/SwaggerDoc.php:124-134 | the author's keys override the defaults, other keys of either side are kept, and integer-keyed values are the author's |
| Swagger.DefaultsPresent | SlimSwagger/SwaggerDoc.php:126-132 | the defaults give `summary` = "", `parameters` = empty array, `useBody` = false |
| Swagger.DefaultsMissing | SlimSwagger/SwaggerDoc.php:125-134 | the defaults have no `responseClass` and no `errorResponses` |
| Swagger.InfoAt | SlimSwagger/SwaggerDoc.php:124-134 | the merged metadata under one key: the author's value if given, else the default |
| Swagger.FormParams | SlimSwagger/SwaggerDoc.php:195-204 | one form field per declared name, in order, with name = description = that entry |
| Swagger.ParameterLayout | SlimSwagger/SwaggerDoc.php:185-205 | path arguments come first, one per marker, `required` a boolean; then exactly one `body` field if `useBody === true`, otherwise one `form` field per declared name; fields carry `required` = "true"; the count adds up |
| Swagger.OperationShape | SlimSwagger/SwaggerDoc.php:162-221 | at most one operation; none exactly when the route has no method; otherwise it is for the first method and its nickname is the route name |
| Swagger.SummaryFallback | SlimSwagger/SwaggerDoc.php:210 | the summary is the author's when non-empty in PHP's `empty()` sense, otherwise the route name |
| Swagger.ResponseClassFallback | SlimSwagger/SwaggerDoc.php:211 | the response class is the author's when non-empty, otherwise "void" |
| Swagger.ErrorResponsesFallback | SlimSwagger/SwaggerDoc.php:212 | `errorResponses` is "" unless the author supplied a non-empty value, in which case it is null |
| Swagger.PlainRoute | SlimSwagger/SwaggerDoc.php:185-215 | a route without metadata documents only its path arguments, with the route name as summary, "void" and "" |
| Swagger.OptionDefaults | SlimSwagger/SwaggerDoc.php:77-83 | the option defaults are five string keys, all distinct |
| Swagger.SetupOptions | SlimSwagger/SwaggerDoc.php:77-83 | after `setup` the five defaults (`apiVersion` 1.0, `swaggerVersion` 1.2, `basePath`, `resourcePath` /api, `docPath`) come first in order, each overridden by a user option of the same key, and every other option is kept |
| Swagger.DocumentSpec | SlimSwagger/SwaggerDoc.php:147-153 | the document keeps every option except `apis`, which it resets in place; it has one entry per route in order; each entry's path is the route's translated pattern, free of markers; its description is name + " action"; it has one operation exactly when the route has a method |
| Swagger.BuildRouteEntry | SlimSwagger/SwaggerDoc.php:154-227 | the loop over methods, which breaks after the first, and the parameter pushes build exactly the route's specified entry |
| Swagger.SwaggerDoc.constructor | SlimSwagger/SwaggerDoc.php:68-72 | stores the documentation path and the options |
| Swagger.SwaggerDoc.Default | SlimSwagger/SwaggerDoc.php:68 | without arguments the path is `/swagger.json` and the options are empty |
| Swagger.SwaggerDoc.Setup | SlimSwagger/SwaggerDoc.php:74-85 | the options become the defaults merged with the old options; the path is unchanged; the options stay a PHP array |
| Swagger.SwaggerDoc.Call | SlimSwagger/SwaggerDoc.php:137-241 | when the request path equals the stored `docPath`, the answer is the document built over all routes; otherwise the request is passed on |
| Examples.MapPattern | public/index.php:56 | `/map/:a/(:b)` becomes `/map/{a}/{b}` with `a` required and `b` optional |
| Examples.GetPattern | public/index.php:28 | `/get/:a/:b` becomes `/get/{a}/{b}` with both arguments required |
| Examples.GetMetadataLookups | public/index.php:31-38 | the `get` route's metadata reads its summary and parameter list and has no `useBody`, `responseClass` or `errorResponses` |
| Examples.GetRouteTexts | public/index.php:28-38 | the `get` route's operation uses the author's summary, "void" and "", and is nicknamed `get` although the metadata says otherwise |
| Examples.GetRouteParameters | public/index.php:28-38 | the `get` route's parameters are its path arguments followed by one form field per declared name |
| Examples.PlainGetRoute | public/index.php:28 | a `/get/:a/:b` route whose first method is GET, without metadata, gets exactly the expected entry |
| Examples.MapRoute | public/index.php:56-62 | the `map` route via GET and OPTIONS gets one GET operation, with `a` required and `b` optional |

## Left out

- JSON encoding is not modelled, nor are the `Content-Type` header and the write of the response body (SwaggerDoc.php:234-235). The document is a datatype, and the entries in its `apis` slot are held as typed records, not PHP arrays.
- The Slim plumbing is not modelled: `$this->app`, the request object, `$this->next->call()` and the live router. Named routes are a sequence of `Route` values in the router's iteration order, and handing the request on is the `PassToNext` answer.
- Setup: the default `basePath` comes from the request scheme, `$_SERVER['HTTP_HOST']` and `SCRIPT_NAME`, so it is a parameter of `Setup`.
- Whether Slim calls `setup` before `call` is outside this file, so `Call` works on whatever options the object holds.
- The query-parameter block (SwaggerDoc.php:169-182) is dead code: its variables are never assigned, so it never adds anything.
- `routeDoc` (SwaggerDoc.php:92-104), `$defaultRouteObject` (:51-61) and the `$swaggerInfo` property (:49) are not modelled. The generator never reads them.
- PHP values are limited to null, booleans, integers, strings and arrays. Floats and objects are not modelled.
- PHP turns a decimal-integer string key such as `'404'` into an integer key. The model assumes this has already happened and does not enforce it.
- Distinct keys are required only of the top-level arrays the generator reads (`WellFormed`, `SwaggerDoc.Valid`), not of arrays nested inside them.
- A `swagger` property that is set but is not an array is not modelled. `array_merge` rejects it.
- Route names are taken as given. That named routes have distinct names is not used.
- `\w` is taken as ASCII letters, digits and `_`, as PCRE matches it without Unicode mode. Patterns are sequences of characters, not bytes.
- Examples: the `map` and `get` patterns are proved for any argument names, which covers the application's own names.
- PHP notices and warnings are treated as non-fatal, which holds unless an error handler turns them into exceptions. This matters in two places. Reading the undeclared `$this->swagger` at SwaggerDoc.php:212 warns, and the model gives `null` (`ErrorResponses`). A `foreach` over a `parameters` value that is not an array, at SwaggerDoc.php:195, warns and visits nothing, and the model gives no form parameters (`FormNames`). Whether the installed error handler aborts the request there is outside this file.
- PhpArrays.ArrayMergeSpec: states lookups, integer renumbering and where a string-keyed left array's keys go, but not the order in which new keys of the right array are appended. `ArrayMerge` itself defines that order.
- Swagger.DocumentSpec: states the number of operations per entry. Their contents are stated by `OperationShape`, the fallback lemmas and `ParameterLayout`.
