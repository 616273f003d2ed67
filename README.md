# sc-voice server core in Dafny

This project models the non-I/O core of the sc-voice server, which serves Pali suttas and their translations to the voice web client. It covers:

- **Sutta search patterns** (`src/sutta-store.cjs`):
  - recognising a list of sutta uids;
  - sanitizing a free-text pattern;
  - normalizing its spaces for `grep`;
  - widening it so that ASCII letters also match their Pali diacritic forms.
- **The small selection rules of the sutta store**: which translation a sutta lookup picks, the quote index, the short author, the title join, the search language and the grep result limit.
- **`ResourceMethod`** (`src/resource-method.cjs`): the descriptor of one REST endpoint, and its `use` step.
- **`RestApi` and `RestBundle`** (`src/rest-api.cjs`, `src/rest-bundle.js`):
  - the constructor defaults;
  - the task bag (`taskBegin` / `taskEnd` / `getState`);
  - request processing and failure responses;
  - binding one resource to a route;
  - `bindExpress`, which sorts the handlers with a comparator that throws on duplicates and then binds each handler.
- **`Section`** (`src/section.cjs`): a sutta section with its title rule.
- **Links** (`src/links.mjs`): the voice and EBT reference links.
- **The `sc-voice` start script** (`scripts/sc-voice.mjs`): how the port and the server options are read from the command line.

## Modelling choices

- **Strings.**
  - Strings that the source inspects code unit by code unit are `Js.Text`, a sequence of UTF-16 code units. Other strings are Dafny `string`.
  - `\s` is the explicit ECMAScript whitespace set.
  - `toLowerCase` / `toUpperCase` change ASCII letters only.
- **Thrown errors.** A throw is a `Failure` carrying the error's message, or the value the message is built from. A JavaScript argument that may be absent or of the wrong type is a `Js.Arg`.
- **Text order.** `localeCompare` is modelled by `RestCore.CompareStrings`, the order of Unicode code points (the elements of a Dafny `string`). The verifier proves it a strict total order. It differs from locale collation in two ways that matter:
  - *Which handler lists are rejected.* `localeCompare` returns 0 for canonically equivalent strings, such as "café" with a precomposed "é" and "café" with a combining accent. The source therefore rejects two such handler names as duplicates, whereas the model accepts them.
  - *Route order.* The sorted order fixes the handler and route sequences that both `bindExpress` methods produce, and Express dispatches to the first matching route. Code-point order puts "Zeta" before "alpha" and "app/stats/9" before "app/stats/:stat"; locale collation orders both pairs the other way.
- **Sorting.** `Array.prototype.sort` is an insertion sort over handler keys `(method, name)`. Its comparator fails on equal keys, so the sort fails exactly when two handlers share a key. A sorted result is strictly ordered and a permutation of the input.
- **Route binding.** The per-handler loop of `bindExpress` is `RestCore.BindEach`, stated generically over the binding function.
  - It stops at the first failing handler.
  - It succeeds exactly when every handler binds.
- **Classes.** `RestApi` and `RestBundle` are classes. Their mutable task bag, handler list and bound routes are fields that the methods reassign. `RestBundle.bindExpress` sorts the caller's array in place, as the source does.
- **Regular expressions.** A regular expression's validity, which `sanitizePattern` learns by calling `new RegExp`, is passed in as a predicate.
- **Where the code and its tests disagree, the model follows the code.**
  - `src/links.mjs:24-30` builds `https://sc-voice.net/#/sutta/...` links, whereas the old tests expect another host.
  - The `ResourceMethod` constructor upper-cases the method (`src/resource-method.cjs:16`).
  - `taskEnd` after `taskBegin` restores the task bag *as a multiset* in every case. It restores it *as a sequence* exactly when the task was absent, **or when every entry from the ended task's first occurrence onward is that same task**. Absence alone is not the condition: ending `n` on the bag `[n]` gives `[n]` back. `RestCore.BeginEndSequence` proves the exact condition.
  - `bindResource` throws `new Error("Unsupported HTTP method:", method)`. The second argument of `Error` is an options bag, so the message is only the prefix.

## Model

| member | source | states |
|---|---|---|
| SuttaPatterns.UidPartMatchesShape | src/sutta-store.cjs:150 | the uid test on one part accepts exactly: letters, an optional space, digits, then only the allowed tail characters |
| SuttaPatterns.IsUidPatternMeaning | src/sutta-store.cjs:144-152 | a pattern is a uid list iff every trimmed, lower-cased, comma-separated part has the uid shape |
| SuttaPatterns.AllUidPartsMeaning | src/sutta-store.cjs:149-151 | the `&&`-reduce over the parts is true iff its seed is true and every part matches |
| SuttaPatterns.UidPartsComma | src/sutta-store.cjs:145-148 | the parts of `a,b` are the parts of `a` followed by the parts of `b` |
| SuttaPatterns.AllUidPartsAppend | src/sutta-store.cjs:149-151 | the reduce over concatenated part lists is the conjunction of the reduces |
| SuttaPatterns.IsUidPatternComma | src/sutta-store.cjs:144-152 | `a,b` is a uid list iff `a` and `b` each are |
| SuttaPatterns.SanitizePattern | src/sutta-store.cjs:154-174 | a missing pattern fails with "required"; a pattern over the limit fails with the excess length; otherwise the result is the per-unit sanitization, or an invalid-regex failure exactly when that is not a valid expression; a clean result is no longer than the input |
| SuttaPatterns.SanitizeStepsEach | src/sutta-store.cjs:164-169 | the three chained replacements equal one per-code-unit map |
| SuttaPatterns.SanitizeEachClean | src/sutta-store.cjs:164-169 | a sanitized pattern has no quotes, no control characters and no whitespace other than space |
| SuttaPatterns.SanitizeEachCleanFixed | src/sutta-store.cjs:164-169 | sanitization is idempotent: a clean text is its own sanitization |
| SuttaPatterns.NormalizeIsPerUnit | src/sutta-store.cjs:176-181 | replacing each maximal whitespace run by " +" equals the per-unit definition: a unit starting a run becomes " +", one continuing a run is dropped, every other unit is kept |
| SuttaPatterns.NormalizeNoWhitespace | src/sutta-store.cjs:176-181 | a pattern without whitespace normalizes to itself |
| SuttaPatterns.NormalizeRun | src/sutta-store.cjs:178 | a whitespace run between two non-whitespace neighbours becomes exactly " +", and the two sides normalize independently |
| SuttaPatterns.NormalizePatternSpaces | src/sutta-store.cjs:176-181 | every whitespace unit left in a normalized pattern is a space followed by `+` |
| SuttaPatterns.ReplaceChainIsMap | src/sutta-store.cjs:185-193 | the eight chained case-insensitive replacements equal one per-unit map: each target letter, in either case, becomes its group, every other unit is kept |
| SuttaPatterns.GroupUnits | src/sutta-store.cjs:185-193 | no unit of a target letter's group, in either case, is another target letter, so later replacements never rewrite an inserted group |
| SuttaPatterns.PaliPatternMeaning | src/sutta-store.cjs:183-195 | a pattern that is not a word of ASCII letters is returned unchanged; an ASCII word becomes the per-unit map, each of a, i, u, m, d, n, l, t becoming its diacritic group |
| SuttaSelection.RequestedLang | src/sutta-store.cjs:320-322 | for a trilingual document the document language, else the request's, else "en"; otherwise the request's, else the document's, else "en"; never empty |
| SuttaSelection.FirstWithLang | src/sutta-store.cjs:323 | the index found is the first translation in that language, and none earlier matches |
| SuttaSelection.ChooseTranslation | src/sutta-store.cjs:320-328 | the first translation in the requested language wins; with none in it, the first translation and its language, or "pli"; with no translations, "pli" and author "ms"; the author is the translation's, or "ms" |
| SuttaSelection.QuoteIndex | src/sutta-store.cjs:358-359 | the quote is the first matched segment after the first two, else segment 0, and none without segments |
| SuttaSelection.AuthorShort | src/sutta-store.cjs:365-367 | an empty author uid gives none; otherwise the uid with its first letter upper-cased and the rest kept |
| SuttaSelection.AuthorShortOfChoice | src/sutta-store.cjs:365-367 | the author chosen for any document always yields a short author |
| SuttaSelection.Title | src/sutta-store.cjs:378 | the title drops the first title: empty for at most one, the second alone for two |
| SuttaSelection.TitleAppend | src/sutta-store.cjs:378 | one more title extends the title by " • " and that title |
| SuttaSelection.LoadBilaraFind | src/sutta-store.cjs:260-263 | the language is the translation language, else the language, else the sutta id's second `/` part, else "en"; the find pattern is id/language, with /translator only when one is given |
| SuttaSelection.SearchLang | src/sutta-store.cjs:423 | the search language is `language`, else `lang`, else "en" |
| SuttaSelection.MaxDoc | src/sutta-store.cjs:424 | the document limit is the request's own when given, else the store's |
| SuttaSelection.MaxGrepResults | src/sutta-store.cjs:432 | the grep limit is at least 500 and at least three times the document limit, and is one of the two |
| ResourceMethods.ParseVerb | src/resource-method.cjs:40-60 | a verb is recognised only when the upper-cased method is that verb's name |
| ResourceMethods.ParseVerbName | src/resource-method.cjs:40-60 | every verb's name parses back to that verb |
| ResourceMethods.New | src/resource-method.cjs:3-20 | the name is checked first, then the handler; a non-string method throws the `toUpperCase` type error; otherwise the method is upper-cased (default "get") and the mime defaults to JSON |
| ResourceMethods.NewDefaultMethod | src/resource-method.cjs:4-16 | an absent method is stored as "GET" |
| ResourceMethods.Use | src/resource-method.cjs:37-66 | GET, POST, PUT and DELETE bind as themselves and HEAD as a GET route, on "/"+name; any other method fails with a message naming the method and the resource |
| ResourceMethods.UseAcceptsAnyCase | src/resource-method.cjs:37-66 | for a method in any letter case, the constructed resource is accepted by `use` if and only if the method's upper case names a supported verb |
| RestCore.ResolveName | src/rest-api.cjs:19-22 | an absent name defaults to "test"; a non-string name throws "bundle name is required" |
| RestCore.Uribase | src/rest-api.cjs:31 | the base URI is the option when truthy, else "/" + name |
| RestCore.CompareStringsZero | src/rest-api.cjs:262-264 | the text comparison is zero exactly on equal strings |
| RestCore.CompareStringsAntisymmetric | src/rest-api.cjs:262-264 | swapping the operands negates the comparison's sign |
| RestCore.CompareStringsTransitive | src/rest-api.cjs:262-264 | the "less" relation of the comparison is transitive |
| RestCore.KeyLessTotal | src/rest-api.cjs:261-275 | two handler keys are equal or one is strictly less |
| RestCore.Comparator | src/rest-api.cjs:261-275 | the comparator fails exactly on equal (method, name) keys, naming that key; otherwise its sign orders the keys |
| RestCore.InsertCorrect | src/rest-api.cjs:261-275 | inserting into a strictly sorted list succeeds iff the key is new, giving a strictly sorted permutation; otherwise it fails with a key present in both |
| RestCore.SortCorrect | src/rest-api.cjs:261-275 | the sort succeeds iff the keys are unique; on success the result is strictly sorted and a permutation; on failure the key reported occurs twice |
| RestCore.BindRoute | src/rest-api.cjs:224-251 | a resource binds iff its upper-cased method (default "get") is a supported verb, on path "/"+name with the mime or JSON; otherwise it fails with exactly "Unsupported HTTP method:" |
| RestCore.BindRouteAgreesWithUse | src/rest-bundle.js:238-265 | for a resource holding a verb's name and a mime type, `bindResource` registers the route `ResourceMethod.use` would, except that HEAD stays HEAD where `use` registers GET |
| RestCore.BindEachStops | src/rest-api.cjs:276-283 | binding stops at the first failing handler, keeping the routes bound before it |
| RestCore.BindEachAll | src/rest-api.cjs:276-283 | binding reports no error iff every handler binds, and then yields exactly their routes in order |
| RestCore.FailStatus | src/rest-api.cjs:75 | the failure status is the handler's own unless it is 200 or unset, then 500; it is never 200 |
| RestCore.OnRequestFail | src/rest-api.cjs:74-80 | a failure responds with that status, the mime or JSON, and the prepared data or an error body with the message |
| RestCore.OnRequestSuccess | src/rest-api.cjs:62-72 | a success sends the value with the preset status and mime, or 500 with an error body when it cannot be sent |
| RestCore.ProcessRequest | src/rest-api.cjs:203-222 | a returned value is sent with status 200 unless the handler set one, or answers 500 with an error body when it cannot be sent; a thrown error answers with the status the handler set unless that is 200 or falsy, then 500, and sends the prepared data or else an error body with the message; the mime is the one the handler set, else the route's (JSON when a thrown error leaves it empty) |
| RestCore.UniqueCons | src/rest-api.cjs:261-275 | the keys of `[h] + t` are distinct iff those of `t` are and the key of `h` does not occur in `t` |
| RestCore.UniqueBinds | src/rest-api.cjs:261-283 | resources with distinct keys that each bind sort without error and bind throughout |
| RestCore.AddedDuplicate | src/rest-bundle.js:272-286 | appending a resource whose key is already among distinct keys makes the sort throw, reporting that key |
| RestCore.StandardHandlers | src/rest-bundle.js:63-71 | the default resources are GET identity, GET state, GET app/stats/:stat, POST identity and POST echo, all JSON |
| RestCore.StandardHandlersUnique | src/rest-bundle.js:63-71 | the default resources have pairwise distinct keys |
| RestCore.StandardHandlersBind | src/rest-bundle.js:267-299 | the default resources sort without error and every one of them binds |
| RestCore.DuplicateStateRejected | src/rest-bundle.js:272-286 | adding another GET state resource to the defaults makes the sort fail on key GET state |
| RestCore.BundleResourceMethod | src/rest-bundle.js:46-61 | a missing handler fails with "handler is required" naming method and name; otherwise this is the `ResourceMethod` constructor |
| RestCore.IndexOf | src/rest-api.cjs:126 | `indexOf` gives the first position holding the task, and -1 exactly when it is absent |
| RestCore.TaskEndBag | src/rest-api.cjs:120-131 | ending a task fails on an empty bag or a task not in it, with the source's two messages; otherwise it removes the first occurrence |
| RestCore.TaskEndRemovesOne | src/rest-api.cjs:126-130 | a successful end removes exactly one copy of the task from the multiset |
| RestCore.BeginEndMultiset | src/rest-api.cjs:116-131 | beginning and then ending a task restores the bag as a multiset |
| RestCore.BeginEndSequence | src/rest-api.cjs:116-131 | beginning then ending restores the bag as a sequence iff the task is absent or the bag from its first occurrence on is only that task |
| RestApis.RestApi.constructor | src/rest-api.cjs:18-45 | a new API has its name, base URI and handlers, an empty task bag and no routes |
| RestApis.RestApi.Create | src/rest-api.cjs:18-45 | construction fails on a non-string name; otherwise name, base URI and handlers follow their defaults |
| RestApis.RestApi.TaskBegin | src/rest-api.cjs:116-118 | the task is appended to the bag |
| RestApis.RestApi.TaskEnd | src/rest-api.cjs:120-131 | the bag becomes the task-end result, and stays unchanged on error |
| RestApis.RestApi.GetState | src/rest-api.cjs:149-153 | the state holds the current task bag |
| RestApis.RestApi.BindResource | src/rest-api.cjs:224-251 | a route is added exactly when the resource binds |
| RestApis.RestApi.BindExpress | src/rest-api.cjs:253-287 | the extra handlers are appended; a duplicate key fails with "duplicate REST resource handler: method name" and binds nothing; otherwise the handlers are the sorted list and the routes are the binding of each handler in turn |
| RestApis.RestApi.PushHandlers | src/rest-api.cjs:256 | the extra handlers are appended to the handler list in order |
| RestApis.RestApi.BindHandlers | src/rest-api.cjs:276-283 | the routes grow by the binding of each handler in turn; the result is the first binding error, if any |
| RestApis.TaskBagScenario | test/rest-api.cjs:228-254 | begin then end of "testTask" gives the states `["testTask"]` and `[]` |
| RestApis.Doubled | src/rest-api.cjs:261-275 | a list containing a unique list twice cannot be sorted |
| RestApis.BindTwiceRejected | src/rest-api.cjs:253-287 | binding the same handlers a second time fails with the duplicate message naming the key of one of those handlers |
| RestApis.BindStandardTwice | src/rest-api.cjs:47-60 | an API built from the test handlers fails on its second `bindExpress`, with the duplicate message naming one of the standard keys |
| RestBundles.RestBundle.constructor | src/rest-bundle.js:18-44 | a new bundle has its name and base URI, an empty task bag and no routes |
| RestBundles.RestBundle.Create | src/rest-bundle.js:18-44 | construction fails on a non-string name; otherwise name and base URI follow their defaults |
| RestBundles.RestBundle.TaskBegin | src/rest-bundle.js:128-131 | the task is appended to the bag |
| RestBundles.RestBundle.TaskEnd | src/rest-bundle.js:133-145 | the bag becomes the task-end result, and stays unchanged on error |
| RestBundles.RestBundle.GetState | src/rest-bundle.js:163-167 | the state holds the current task bag |
| RestBundles.RestBundle.BindResource | src/rest-bundle.js:238-265 | a route is added exactly when the resource binds |
| RestBundles.RestBundle.BindExpress | src/rest-bundle.js:267-299 | the caller's array is sorted in place; duplicates fail with "REST resources must have unique handlers: method name" and leave it unchanged; otherwise the routes are the binding of each handler in turn |
| RestBundles.RestBundle.BindExpressDefault | src/rest-bundle.js:63-71 | without an argument the bundle binds a fresh array of its default resources followed by a subclass's extra ones: it fails with the unique-handlers message and the array unsorted on a duplicate, and otherwise sorts the array and binds it in order |
| RestBundles.BindStandard | src/rest-bundle.js:267-299 | binding the default resources succeeds |
| RestBundles.BindDuplicateState | test/rest-bundle.js:57-71 | a second GET state resource fails with "REST resources must have unique handlers: GET state" |
| Sections.TitleOfText | src/section.cjs:23-25 | the title of a text is the text itself, or "(untitled)" when there is none |
| Sections.FirstText | src/section.cjs:18-19 | the first segment's text in the property language, if present |
| Sections.NewSection | src/section.cjs:8-21 | fails with "expected Array of segments" exactly when segments is not an array; prefix, values and property ("en") take their defaults; the title is the given one, else the first segment's text in the property, else "(untitled)" |
| Sections.RoundTrip | src/section.cjs:8-21 | constructing a section from a section's own fields gives it back |
| Sections.TitledByFirstSegment | test/section.cjs:47-56 | with no title given, the first segment's first line becomes the title |
| Sections.Expand | src/section.cjs:31-33 | `expand` always throws "expand() is no longer supported" |
| Sections.ExpandAll | src/section.cjs:27-29 | `expandAll` always throws "expandAll() is no longer supported" |
| Links.VoiceLang | src/links.mjs:9-14 | the voice language is "en" iff none, empty, pli or en is asked for; it is never "pli" |
| Links.VoiceLink | src/links.mjs:7-16 | the voice link starts with the voice base and "/?search=", the sutta uid follows at a fixed position, and the rest is "&lang=" and the voice language |
| Links.VoiceLinkDecodes | src/links.mjs:7-16 | for uids without "&", equal voice links have the same uid and the same voice language |
| Links.VoiceLinkPaliIsEnglish | src/links.mjs:9-14 | a Pali link equals the English one |
| Links.EbtSuttaRefLink | src/links.mjs:18-33 | German references link to dhammaregen.net and all others to sc-voice.net, followed by the reference's string form |
| Links.EbtLinkDecodes | src/links.mjs:24-30 | a link starts with the dhammaregen base iff the language is "de", and the reference is recovered by dropping the base |
| ScVoiceScript.Number | scripts/sc-voice.mjs:17 | a string of digits becomes its value and the empty string 0; other text stays unparsed |
| ScVoiceScript.PortOf | scripts/sc-voice.mjs:13-18 | of a port argument, "-3000" gives 3000 and "--port:N" gives the number N |
| ScVoiceScript.LastPortArg | scripts/sc-voice.mjs:12-20 | the last argument that names a port, if any |
| ScVoiceScript.PortFoldAppend | scripts/sc-voice.mjs:12-20 | folding over more arguments continues from the earlier result |
| ScVoiceScript.PortIsLast | scripts/sc-voice.mjs:12-20 | the port is that of the last port argument, and none without one |
| ScVoiceScript.Options | scripts/sc-voice.mjs:21-28 | `--staging` selects the staging API, `--ssl` https, auto-sync is 3600 s, and a port is set exactly when some argument names one, taken from such an argument |
| ScVoiceScript.ScriptOptions | scripts/sc-voice.mjs:10-28 | when the process was not started as this script (a test runner), no argument is read and the production API, http, 3600 s and no port are used; otherwise the options are those of its own arguments |
| ScVoiceScript.PortExamples | scripts/sc-voice.mjs:12-20 | `--port:8080` then `-3000` gives 3000, and `-3000` then `--port:80` gives 80 |

## Left out

- Express itself is not part of this model:
  - mounting routers (`app.use`), `bodyParser`, static `node_modules` routes, `disable("x-powered-by")`;
  - registering `app.locals.restApis`.
  A bound route is the value `Route(verb, path, mime, handler)`.
- Custom `onRequestSuccess` / `onRequestFail` options: only the built-in ones are modelled.
- Logging is not modelled:
  - `logger` calls;
  - `pushState` (a log line only).
- `req` / `res` are not modelled beyond the status, mime type and data that the handler leaves in `res.locals`, and the value it returns or throws.
- Promises and asynchrony: a handler's promise is folded into `Returned` / `Threw` by its settled outcome.
- `taskPromise`, `postEcho`, `getIdentity` (`df` and `os` calls), `getAppStats` (V8 heap statistics) and `postIdentity`: these are I/O or runtime introspection. They appear only as named handler ids.
- `appDir`, `scvDir`, `node_modules` paths: these come from file-system resolution.
- `ResourceMethod.processRequest`: it is only a pass-through to its caller's handler.
- `src/scv-server.mjs`, `src/main.js` and AWS credential handling: these are server start-up and I/O.
- The sutta store's search pipeline (Seeker, BilaraData, file loading, sound synthesis, playlists, auto-sync): this is I/O and foreign code. The store is modelled only by the pure rules listed under Model.
- Floating point: the grep limit is modelled on integers, since `maxDoc` is an integer in every use.
- SuttaPatterns.SanitizePattern: whether a text is a valid regular expression is a parameter, because `RegExp` is not modelled. The invalid-regex message is the engine's and is not modelled.
- Js.Lower: only ASCII letters change case. Non-ASCII case mapping is not modelled.
- Js.Upper: only ASCII letters change case. Non-ASCII case mapping is not modelled.
- RestCore.CompareStrings: `localeCompare` is approximated by code-point order, since locale collation tables are not modelled. So canonically equivalent but distinct names are not rejected as duplicates, and the order of sorted handlers and bound routes can differ from the source's (see Text order above).
- RestCore.SortCorrect: which duplicate key a failing sort reports depends on the engine's comparison order, so the model states only that the reported key occurs twice.
- ResourceMethods.New: the TypeError's text is the engine's. The model uses "method.toUpperCase is not a function" for every non-string method, while for `null` the engine reports that it cannot read properties of null. A `String` object or another value with a `toUpperCase` method, which the source accepts, is modelled as `NonString` and rejected.
- RestBundles.RestBundle.BindExpressDefault: the handlers array is built afresh on every call, as RestBundle's getter does. A subclass that defines `handlers` as one stored array (as the uniqueness test does) would keep that array sorted between calls; this is not modelled.
- RestCore.ResolveName: the rejected value's JavaScript string form at the end of "bundle name is required: " is not modelled.
- RestApis.RestApi.BindExpress: the source sorts the option's `handlers` array shared with the caller. The model keeps the class's own copy, so aliasing with `opts.handlers` is not modelled.
- ScVoiceScript.Number: only digit strings and "" are parsed. Surrounding whitespace, signs, decimals, exponents and hex, and the `NaN` result, are kept as the unparsed text.
- SuttaSelection.MaxDoc: `search`'s `Number(maxDoc)` conversion and its "maxResults must be a number" error are not modelled; the limit is an integer.
- `Section.type` (`this.constructor.name`) is modelled as `kind == "Section"`. The names a subclass of `Section` would give are not modelled.
- The `--log-debug` flag is not modelled, because it only sets the logger's level.
