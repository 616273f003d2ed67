/** What `RestApi` (src/rest-api.cjs) and `RestBundle` (src/rest-bundle.js)
    have in common, stated on values: the constructor's name and uribase
    rules, the uniqueness-enforcing sort of the resource handlers, the
    binding of one resource to a route, the request outcome rules and the
    pending-task bag. The two classes that keep this state are modelled in
    their own modules. */
module RestCore {
  import opened Wrappers
  import opened Js
  import opened ResourceMethods

  // ---------------------------------------------------------------- naming

  /** `let { name = "test" } = opts`: a missing name defaults to "test", a
      name that is not a string throws. */
  function ResolveName(name: Arg): (r: Result<string, string>)
    ensures name.Missing? ==> r == Success("test")
    ensures name.Str? ==> r == Success(name.value)
    ensures r.Failure? <==> name.NonString?
    ensures r.Failure? ==> r.error == "bundle name is required: "
  {
    match name
    case Missing => Success("test")
    case Str(s) => Success(s)
    case NonString => Failure("bundle name is required: ")
  }

  /** `opts.uribase || "/" + name`. */
  function Uribase(name: string, uribase: Option<string>): (r: string)
    ensures Truthy(uribase) ==> r == uribase.value
    ensures !Truthy(uribase) ==> r == "/" + name
    ensures |r| > 0
  {
    Or(uribase, "/" + name)
  }

  // ------------------------------------------------- string order (localeCompare)

  /** The sign `localeCompare` returns, taken as lexicographic order of code points. */
  function CompareStrings(a: string, b: string): (r: int)
    ensures -1 <= r <= 1
  {
    if a == [] then (if b == [] then 0 else -1)
    else if b == [] then 1
    else if a[0] < b[0] then -1
    else if b[0] < a[0] then 1
    else CompareStrings(a[1..], b[1..])
  }

  lemma {:induction false} CompareStringsZero(a: string, b: string)
    ensures CompareStrings(a, b) == 0 <==> a == b
  {
    if a != [] && b != [] && a[0] == b[0] {
      CompareStringsZero(a[1..], b[1..]);
      assert a == [a[0]] + a[1..];
      assert b == [b[0]] + b[1..];
    }
  }

  lemma {:induction false} CompareStringsAntisymmetric(a: string, b: string)
    ensures CompareStrings(b, a) == -CompareStrings(a, b)
  {
    if a != [] && b != [] && a[0] == b[0] {
      CompareStringsAntisymmetric(a[1..], b[1..]);
    }
  }

  lemma {:induction false} CompareStringsTransitive(a: string, b: string, c: string)
    requires CompareStrings(a, b) < 0 && CompareStrings(b, c) < 0
    ensures CompareStrings(a, c) < 0
  {
    if a != [] && b != [] && c != [] && a[0] == b[0] && b[0] == c[0] {
      CompareStringsTransitive(a[1..], b[1..], c[1..]);
    }
  }

  // ------------------------------------------------------- the handler sort

  /** What a resource is sorted and made unique by. */
  datatype HandlerKey = HandlerKey(httpMethod: string, name: string)

  function KeyOf(rm: ResourceMethod): HandlerKey {
    HandlerKey(rm.httpMethod, rm.name)
  }

  /** Order by method, then by name. */
  function CompareKeys(x: HandlerKey, y: HandlerKey): int {
    var c := CompareStrings(x.httpMethod, y.httpMethod);
    if c != 0 then c else CompareStrings(x.name, y.name)
  }

  predicate KeyLess(x: HandlerKey, y: HandlerKey) {
    CompareKeys(x, y) < 0
  }

  lemma CompareKeysZero(x: HandlerKey, y: HandlerKey)
    ensures CompareKeys(x, y) == 0 <==> x == y
  {
    CompareStringsZero(x.httpMethod, y.httpMethod);
    CompareStringsZero(x.name, y.name);
  }

  /** `KeyLess` is a strict total order. */
  lemma KeyLessTotal(x: HandlerKey, y: HandlerKey)
    ensures !KeyLess(x, x)
    ensures x != y ==> (KeyLess(x, y) <==> !KeyLess(y, x))
  {
    CompareKeysZero(x, x);
    CompareKeysZero(x, y);
    CompareStringsAntisymmetric(x.httpMethod, y.httpMethod);
    CompareStringsAntisymmetric(x.name, y.name);
  }

  lemma KeyLessTransitive(x: HandlerKey, y: HandlerKey, z: HandlerKey)
    requires KeyLess(x, y) && KeyLess(y, z)
    ensures KeyLess(x, z)
  {
    var m1, m2 := CompareStrings(x.httpMethod, y.httpMethod), CompareStrings(y.httpMethod, z.httpMethod);
    CompareStringsZero(x.httpMethod, y.httpMethod);
    CompareStringsZero(y.httpMethod, z.httpMethod);
    if m1 < 0 && m2 < 0 {
      CompareStringsTransitive(x.httpMethod, y.httpMethod, z.httpMethod);
    } else if m1 == 0 && m2 == 0 {
      CompareStringsTransitive(x.name, y.name, z.name);
    }
  }

  /** The comparison the sort is given: method order, then name order, and
      a throw naming the first argument's method and name when both are
      equal. */
  function Comparator(a: ResourceMethod, b: ResourceMethod): (r: Result<int, HandlerKey>)
    ensures r.Failure? <==> KeyOf(a) == KeyOf(b)
    ensures r.Failure? ==> r.error == KeyOf(a)
    ensures r.Success? ==> (r.value < 0 <==> KeyLess(KeyOf(a), KeyOf(b)))
    ensures r.Success? ==> (r.value > 0 <==> KeyLess(KeyOf(b), KeyOf(a)))
  {
    CompareKeysZero(KeyOf(a), KeyOf(b));
    KeyLessTotal(KeyOf(a), KeyOf(b));
    var cmp := CompareStrings(a.httpMethod, b.httpMethod);
    if cmp != 0 then Success(cmp)
    else
      var cmp2 := CompareStrings(a.name, b.name);
      if cmp2 != 0 then Success(cmp2) else Failure(KeyOf(a))
  }

  predicate StrictlySorted(s: seq<ResourceMethod>) {
    forall i, j :: 0 <= i < j < |s| ==> KeyLess(KeyOf(s[i]), KeyOf(s[j]))
  }

  predicate HasKey(s: seq<ResourceMethod>, k: HandlerKey) {
    exists i :: 0 <= i < |s| && KeyOf(s[i]) == k
  }

  /** No two resources share a method and a name. */
  predicate Unique(s: seq<ResourceMethod>) {
    forall i, j :: 0 <= i < j < |s| ==> KeyOf(s[i]) != KeyOf(s[j])
  }

  /** `k` is the key of two different positions of `s`. */
  predicate Duplicated(s: seq<ResourceMethod>, k: HandlerKey) {
    exists i, j :: 0 <= i < j < |s| && KeyOf(s[i]) == k && KeyOf(s[j]) == k
  }

  /** Insertion of one resource into a sorted list, stopping at the first
      throwing comparison. */
  function Insert(x: ResourceMethod, s: seq<ResourceMethod>): Result<seq<ResourceMethod>, HandlerKey> {
    if s == [] then Success([x])
    else match Comparator(x, s[0])
      case Failure(k) => Failure(k)
      case Success(c) =>
        if c < 0 then Success([x] + s)
        else match Insert(x, s[1..])
          case Failure(k) => Failure(k)
          case Success(t) => Success([s[0]] + t)
  }

  /** `handlers.sort(comparator)`: the sorted list, or the key that made the
      comparator throw. */
  function Sort(s: seq<ResourceMethod>): Result<seq<ResourceMethod>, HandlerKey> {
    if s == [] then Success([])
    else match Sort(s[1..])
      case Failure(k) => Failure(k)
      case Success(t) => Insert(s[0], t)
  }

  lemma HasKeyPermutation(s: seq<ResourceMethod>, t: seq<ResourceMethod>, k: HandlerKey)
    requires multiset(s) == multiset(t)
    ensures HasKey(s, k) <==> HasKey(t, k)
  {
    if HasKey(s, k) {
      var i :| 0 <= i < |s| && KeyOf(s[i]) == k;
      assert s[i] in multiset(t);
      var j :| 0 <= j < |t| && t[j] == s[i];
    }
    if HasKey(t, k) {
      var j :| 0 <= j < |t| && KeyOf(t[j]) == k;
      assert t[j] in multiset(s);
      var i :| 0 <= i < |s| && s[i] == t[j];
    }
  }

  lemma SortedTail(s: seq<ResourceMethod>)
    requires StrictlySorted(s) && s != []
    ensures StrictlySorted(s[1..])
  {
    var rest := s[1..];
    forall i, j | 0 <= i < j < |rest|
      ensures KeyLess(KeyOf(rest[i]), KeyOf(rest[j]))
    {
      assert rest[i] == s[i + 1] && rest[j] == s[j + 1];
    }
  }

  /** A resource below every element of a sorted list heads a sorted list. */
  lemma SortedCons(h: ResourceMethod, t: seq<ResourceMethod>)
    requires StrictlySorted(t)
    requires forall j :: 0 <= j < |t| ==> KeyLess(KeyOf(h), KeyOf(t[j]))
    ensures StrictlySorted([h] + t)
  {
    var u := [h] + t;
    forall i, j | 0 <= i < j < |u|
      ensures KeyLess(KeyOf(u[i]), KeyOf(u[j]))
    {
      assert u[j] == t[j - 1];
      if i > 0 {
        assert u[i] == t[i - 1];
      }
    }
  }

  lemma HasKeyCons(h: ResourceMethod, t: seq<ResourceMethod>, k: HandlerKey)
    ensures HasKey([h] + t, k) <==> KeyOf(h) == k || HasKey(t, k)
  {
    var u := [h] + t;
    if HasKey(u, k) && KeyOf(h) != k {
      var i :| 0 <= i < |u| && KeyOf(u[i]) == k;
      assert u[i] == t[i - 1];
    }
    if HasKey(t, k) {
      var i :| 0 <= i < |t| && KeyOf(t[i]) == k;
      assert u[i + 1] == t[i];
    }
    if KeyOf(h) == k {
      assert u[0] == h;
    }
  }

  /** Inserting below the head of a sorted list. */
  lemma InsertFront(x: ResourceMethod, s: seq<ResourceMethod>)
    requires StrictlySorted(s) && s != [] && KeyLess(KeyOf(x), KeyOf(s[0]))
    ensures StrictlySorted([x] + s)
    ensures !HasKey(s, KeyOf(x))
  {
    forall j | 0 <= j < |s|
      ensures KeyLess(KeyOf(x), KeyOf(s[j]))
    {
      if j > 0 {
        KeyLessTransitive(KeyOf(x), KeyOf(s[0]), KeyOf(s[j]));
      }
    }
    SortedCons(x, s);
    if HasKey(s, KeyOf(x)) {
      var j :| 0 <= j < |s| && KeyOf(s[j]) == KeyOf(x);
      KeyLessTotal(KeyOf(x), KeyOf(s[j]));
    }
  }

  /** Inserting above the head: the head stays below everything inserted. */
  lemma InsertBehind(x: ResourceMethod, s: seq<ResourceMethod>, t: seq<ResourceMethod>)
    requires StrictlySorted(s) && s != [] && KeyLess(KeyOf(s[0]), KeyOf(x))
    requires StrictlySorted(t) && multiset(t) == multiset(s[1..]) + multiset{x}
    ensures StrictlySorted([s[0]] + t)
    ensures multiset([s[0]] + t) == multiset(s) + multiset{x}
  {
    var rest := s[1..];
    assert s == [s[0]] + rest;
    forall j | 0 <= j < |t|
      ensures KeyLess(KeyOf(s[0]), KeyOf(t[j]))
    {
      assert t[j] in multiset(t);
      if t[j] != x {
        assert t[j] in multiset(rest);
        var k :| 0 <= k < |rest| && rest[k] == t[j];
        assert s[k + 1] == t[j];
      }
    }
    SortedCons(s[0], t);
  }

  lemma {:induction false} InsertCorrect(x: ResourceMethod, s: seq<ResourceMethod>)
    requires StrictlySorted(s)
    ensures Insert(x, s).Failure? <==> HasKey(s, KeyOf(x))
    ensures Insert(x, s).Failure? ==> Insert(x, s).error == KeyOf(x)
    ensures Insert(x, s).Success? ==>
      StrictlySorted(Insert(x, s).value) && multiset(Insert(x, s).value) == multiset(s) + multiset{x}
  {
    if s == [] {
      return;
    }
    var rest := s[1..];
    assert s == [s[0]] + rest;
    HasKeyCons(s[0], rest, KeyOf(x));
    var c := Comparator(x, s[0]);
    if c.Failure? {
      return;
    }
    if c.value < 0 {
      InsertFront(x, s);
      return;
    }
    SortedTail(s);
    InsertCorrect(x, rest);
    KeyLessTotal(KeyOf(s[0]), KeyOf(x));
    var r := Insert(x, rest);
    if r.Success? {
      InsertBehind(x, s, r.value);
    }
  }

  /** The keys of `[h] + t` are unique iff those of `t` are and the key of
      `h` is new. */
  lemma UniqueCons(h: ResourceMethod, t: seq<ResourceMethod>)
    ensures Unique([h] + t) <==> Unique(t) && !HasKey(t, KeyOf(h))
  {
    var u := [h] + t;
    if Unique(u) {
      forall i, j | 0 <= i < j < |t|
        ensures KeyOf(t[i]) != KeyOf(t[j])
      {
        assert t[i] == u[i + 1] && t[j] == u[j + 1];
      }
      forall j | 0 <= j < |t|
        ensures KeyOf(t[j]) != KeyOf(h)
      {
        assert u[0] == h && u[j + 1] == t[j];
      }
    }
    if Unique(t) && !HasKey(t, KeyOf(h)) {
      forall i, j | 0 <= i < j < |u|
        ensures KeyOf(u[i]) != KeyOf(u[j])
      {
        assert u[j] == t[j - 1];
        if i > 0 {
          assert u[i] == t[i - 1];
        } else {
          assert u[i] == h;
        }
      }
    }
  }

  lemma DuplicatedTail(h: ResourceMethod, t: seq<ResourceMethod>, k: HandlerKey)
    requires Duplicated(t, k)
    ensures Duplicated([h] + t, k)
  {
    var u := [h] + t;
    var i, j :| 0 <= i < j < |t| && KeyOf(t[i]) == k && KeyOf(t[j]) == k;
    assert u[i + 1] == t[i] && u[j + 1] == t[j];
  }

  lemma DuplicatedHead(h: ResourceMethod, t: seq<ResourceMethod>)
    requires HasKey(t, KeyOf(h))
    ensures Duplicated([h] + t, KeyOf(h))
  {
    var u := [h] + t;
    var j :| 0 <= j < |t| && KeyOf(t[j]) == KeyOf(h);
    assert u[0] == h && u[j + 1] == t[j];
  }

  /** The sort succeeds exactly when the keys are unique; it then yields a
      strictly ascending permutation, and otherwise reports a key that
      occurs twice. */
  lemma {:induction false} SortCorrect(s: seq<ResourceMethod>)
    ensures Sort(s).Success? <==> Unique(s)
    ensures Sort(s).Success? ==> StrictlySorted(Sort(s).value) && multiset(Sort(s).value) == multiset(s)
    ensures Sort(s).Failure? ==> Duplicated(s, Sort(s).error)
  {
    if s == [] {
      return;
    }
    var rest := s[1..];
    assert s == [s[0]] + rest;
    SortCorrect(rest);
    UniqueCons(s[0], rest);
    var sr := Sort(rest);
    if sr.Failure? {
      DuplicatedTail(s[0], rest, sr.error);
      return;
    }
    var t := sr.value;
    InsertCorrect(s[0], t);
    HasKeyPermutation(rest, t, KeyOf(s[0]));
    if Insert(s[0], t).Failure? {
      DuplicatedHead(s[0], rest);
    } else {
      assert multiset(s) == multiset{s[0]} + multiset(rest);
    }
  }

  // --------------------------------------------------------- binding routes

  /** `bindResource(router, resource)`: the route registered for one
      resource. An empty method means "get", an empty mime means
      "application/json", HEAD stays HEAD; any other method throws an error
      whose message is only the literal prefix (the method goes to `Error`'s
      second argument, which carries no message). */
  function BindRoute(rm: ResourceMethod): (r: Result<Route, string>)
    ensures r.Failure? <==> ParseVerb(BoundMethod(rm)).None?
    ensures r.Failure? ==> r.error == "Unsupported HTTP method:"
    ensures r.Success? ==>
      && VerbName(r.value.verb) == BoundMethod(rm)
      && r.value.path == "/" + rm.name
      && r.value.mime == (if rm.mime == "" then DefaultMime else rm.mime)
      && r.value.handler == rm.handler
  {
    var mime := if rm.mime == "" then DefaultMime else rm.mime;
    match ParseVerb(BoundMethod(rm))
    case Some(v) => Success(Route(v, "/" + rm.name, mime, rm.handler))
    case None => Failure("Unsupported HTTP method:")
  }

  /** `(resource.method || "get").toUpperCase()`. */
  function BoundMethod(rm: ResourceMethod): string {
    Upper(if rm.httpMethod == "" then "get" else rm.httpMethod)
  }

  /** For a verb other than HEAD with a mime type, the bundle binds the same
      route `ResourceMethod.use` would; for HEAD the bundle registers a HEAD
      route where `use` registers a GET route. */
  lemma BindRouteAgreesWithUse(rm: ResourceMethod, v: Verb)
    requires rm.httpMethod == VerbName(v) && rm.mime != ""
    ensures v != HEAD ==> BindRoute(rm) == Use(rm)
    ensures v == HEAD ==>
      (BindRoute(rm).Success? && Use(rm).Success?
       && BindRoute(rm).value.verb == HEAD && Use(rm).value.verb == GET)
  {
    UpperIdempotent(VerbName(v));
    ParseVerbName(v);
  }

  /** What binding a list in order leaves behind: the results of the
      elements bound, and the error of the first one that threw, after which
      nothing more is bound (`handlers.forEach(h => bindResource(h))`). */
  datatype Binding<U> = Binding(routes: seq<U>, error: Option<string>)

  function BindEach<T, U>(hs: seq<T>, bind: T -> Result<U, string>): (r: Binding<U>)
    ensures |r.routes| <= |hs|
  {
    if hs == [] then Binding([], None)
    else
      var p := BindEach(hs[..|hs| - 1], bind);
      if p.error.Some? then p
      else match bind(hs[|hs| - 1])
        case Success(rt) => Binding(p.routes + [rt], None)
        case Failure(e) => Binding(p.routes, Some(e))
  }

  /** Once binding has failed, later elements change nothing. */
  lemma {:induction false} BindEachStops<T, U>(hs: seq<T>, bind: T -> Result<U, string>, i: nat)
    requires i <= |hs| && BindEach(hs[..i], bind).error.Some?
    ensures BindEach(hs, bind) == BindEach(hs[..i], bind)
    decreases |hs| - i
  {
    if i < |hs| {
      assert hs[..i + 1][..i] == hs[..i];
      BindEachStops(hs, bind, i + 1);
    } else {
      assert hs[..i] == hs;
    }
  }

  /** Binding succeeds exactly when every element can be bound, and then
      yields one result per element, in order. */
  lemma {:induction false} BindEachAll<T, U>(hs: seq<T>, bind: T -> Result<U, string>)
    ensures BindEach(hs, bind).error.None? <==> forall i :: 0 <= i < |hs| ==> bind(hs[i]).Success?
    ensures BindEach(hs, bind).error.None? ==>
      BindEach(hs, bind).routes == seq(|hs|, i requires 0 <= i < |hs| => bind(hs[i]).value)
  {
    if hs == [] {
      return;
    }
    var last := |hs| - 1;
    var init := hs[..last];
    BindEachAll(init, bind);
    assert forall i :: 0 <= i < |init| ==> init[i] == hs[i];
    var p := BindEach(init, bind);
    if p.error.Some? {
      var i :| 0 <= i < |init| && bind(init[i]).Failure?;
      assert bind(hs[i]).Failure?;
    }
  }

  // -------------------------------------------------------- request outcome

  /** What a handler left behind: its value, or the error it threw (or its
      promise rejected with), and what it put in `res.locals.status`,
      `res.locals.mime` and `res.locals.data` (`None` when it did not touch
      them). */
  datatype Reply = Json(text: string) | Unserialisable(reason: string)
  datatype HandlerRun =
    | Returned(reply: Reply, status: Option<int>, mime: Option<string>)
    | Threw(message: string, status: Option<int>, mime: Option<string>, data: Option<string>)

  datatype Locals = Locals(status: Option<int>, mime: Option<string>, data: Option<string>)
  datatype Body = Payload(text: string) | ErrorBody(message: string)
  datatype Response = Response(status: int, mime: string, body: Body)

  /** `(res.locals.status !== 200 && res.locals.status) || 500`. */
  function FailStatus(status: Option<int>): (r: int)
    ensures status.Some? && status.value != 200 && status.value != 0 ==> r == status.value
    ensures status.None? || status.value == 200 || status.value == 0 ==> r == 500
    ensures r != 200 && r != 0
  {
    if status.Some? && status.value != 200 && status.value != 0 then status.value else 500
  }

  /** `onRequestFail`: the status above, the mime type or JSON, and the
      prepared data or an error body carrying the message. */
  function OnRequestFail(locals: Locals, message: string): (r: Response)
    ensures r.status == FailStatus(locals.status)
    ensures r.mime == Or(locals.mime, DefaultMime) && r.mime != ""
    ensures Truthy(locals.data) ==> r.body == Payload(locals.data.value)
    ensures !Truthy(locals.data) ==> r.body == ErrorBody(message)
  {
    Response(FailStatus(locals.status), Or(locals.mime, DefaultMime),
             if Truthy(locals.data) then Payload(locals.data.value) else ErrorBody(message))
  }

  /** `onRequestSuccess`: the preset status and mime type, or 500 with an
      error body when the value cannot be sent. */
  function OnRequestSuccess(status: int, mime: string, reply: Reply): (r: Response)
    ensures reply.Json? ==> r == Response(status, mime, Payload(reply.text))
    ensures reply.Unserialisable? ==> r == Response(500, mime, ErrorBody(reply.reason))
  {
    match reply
    case Json(text) => Response(status, mime, Payload(text))
    case Unserialisable(reason) => Response(500, mime, ErrorBody(reason))
  }

  /** `processRequest`: status 200 and the route's mime type are preset in
      `res.locals`, then the handler's outcome decides the response. */
  function ProcessRequest(run: HandlerRun, mime: string): (r: Response)
    requires mime != ""
    ensures run.mime.None? ==> r.mime == mime
    ensures run.Returned? ==> r.mime == run.mime.GetOr(mime)
    ensures run.Threw? ==> r.mime == Or(Some(run.mime.GetOr(mime)), DefaultMime) && r.mime != ""
    ensures run.Returned? && run.reply.Json? ==>
      r.status == run.status.GetOr(200) && r.body == Payload(run.reply.text)
    ensures run.Returned? && run.reply.Unserialisable? ==>
      r.status == 500 && r.body == ErrorBody(run.reply.reason)
    ensures run.Threw? ==> r.status == FailStatus(Some(run.status.GetOr(200))) && r.status != 200
    ensures run.Threw? && run.status.Some? && run.status.value != 200 && run.status.value != 0 ==>
      r.status == run.status.value
    ensures run.Threw? && (run.status.None? || run.status.value == 200 || run.status.value == 0) ==>
      r.status == 500
    ensures run.Threw? && Truthy(run.data) ==> r.body == Payload(run.data.value)
    ensures run.Threw? && !Truthy(run.data) ==> r.body == ErrorBody(run.message)
  {
    match run
    case Returned(reply, status, setMime) =>
      OnRequestSuccess(status.GetOr(200), setMime.GetOr(mime), reply)
    case Threw(message, status, setMime, data) =>
      OnRequestFail(Locals(Some(status.GetOr(200)), Some(setMime.GetOr(mime)), data), message)
  }

  // ------------------------------------------------------ default resources

  function StandardHandler(httpMethod: string, name: string, handler: string): (r: ResourceMethod)
    ensures r == ResourceMethod(Upper(httpMethod), name, handler, DefaultMime)
  {
    New(Str(httpMethod), Str(name), Function(handler), None).value
  }

  /** The five resources every bundle serves (RestBundle's `handlers`,
      RestApi's `testHandlers`). */
  function StandardHandlers(): (r: seq<ResourceMethod>)
    ensures |r| == 5
    ensures KeyOf(r[0]) == HandlerKey("GET", "identity") && KeyOf(r[1]) == HandlerKey("GET", "state")
    ensures KeyOf(r[2]) == HandlerKey("GET", "app/stats/:stat")
    ensures KeyOf(r[3]) == HandlerKey("POST", "identity") && KeyOf(r[4]) == HandlerKey("POST", "echo")
    ensures forall i :: 0 <= i < 5 ==> r[i].mime == DefaultMime
  {
    UpperVerbs();
    [ StandardHandler("get", "identity", "getIdentity"),
      StandardHandler("get", "state", "getState"),
      StandardHandler("get", "app/stats/:stat", "getAppStats"),
      StandardHandler("post", "identity", "postIdentity"),
      StandardHandler("post", "echo", "postEcho") ]
  }

  lemma UpperVerbs()
    ensures Upper("get") == "GET" && Upper("post") == "POST"
  {
    var g, p := Upper("get"), Upper("post");
    assert g[0] == 'G' && g[1] == 'E' && g[2] == 'T';
    assert p[0] == 'P' && p[1] == 'O' && p[2] == 'S' && p[3] == 'T';
  }

  lemma StandardHandlersUnique()
    ensures Unique(StandardHandlers())
    ensures forall i :: 0 <= i < 5 ==> BindRoute(StandardHandlers()[i]).Success?
  {
    UpperVerbs();
  }

  /** Resources with distinct keys that each bind sort without error, and
      binding the sorted list succeeds throughout. */
  lemma UniqueBinds(s: seq<ResourceMethod>, bind: ResourceMethod -> Result<Route, string>)
    requires Unique(s)
    requires forall i :: 0 <= i < |s| ==> bind(s[i]).Success?
    ensures Sort(s).Success?
    ensures BindEach(Sort(s).value, bind).error.None?
  {
    SortCorrect(s);
    var t := Sort(s).value;
    forall i | 0 <= i < |t|
      ensures bind(t[i]).Success?
    {
      assert t[i] in multiset(s);
      var j :| 0 <= j < |s| && s[j] == t[i];
    }
    BindEachAll(t, bind);
  }

  /** Appending a resource whose key is already present to a list of
      distinct keys makes the sort throw, and the key reported is that one. */
  lemma AddedDuplicate(s: seq<ResourceMethod>, x: ResourceMethod)
    requires Unique(s) && HasKey(s, KeyOf(x))
    ensures Sort(s + [x]).Failure?
    ensures Sort(s + [x]).error == KeyOf(x)
  {
    var u := s + [x];
    var m :| 0 <= m < |s| && KeyOf(s[m]) == KeyOf(x);
    assert u[m] == s[m] && u[|s|] == x;
    SortCorrect(u);
    var k := Sort(u).error;
    var i, j :| 0 <= i < j < |u| && KeyOf(u[i]) == k && KeyOf(u[j]) == k;
    assert forall n :: 0 <= n < |s| ==> u[n] == s[n];
    assert j == |s|;
  }

  /** The standard resources have distinct keys, so they sort, and every one
      of them can be bound. */
  lemma StandardHandlersBind()
    ensures Sort(StandardHandlers()).Success?
    ensures BindEach(Sort(StandardHandlers()).value, BindRoute).error.None?
  {
    StandardHandlersUnique();
    UniqueBinds(StandardHandlers(), BindRoute);
  }

  /** Adding a second GET state resource makes the sort throw, and the key
      it reports is that one. */
  lemma DuplicateStateRejected(handler: string)
    ensures Sort(StandardHandlers() + [StandardHandler("get", "state", handler)]).Failure?
    ensures Sort(StandardHandlers() + [StandardHandler("get", "state", handler)]).error
      == HandlerKey("GET", "state")
  {
    var sh := StandardHandlers();
    var x := StandardHandler("get", "state", handler);
    assert KeyOf(x) == HandlerKey("GET", "state") by {
      UpperVerbs();
    }
    StandardHandlersUnique();
    assert KeyOf(sh[1]) == KeyOf(x);
    AddedDuplicate(sh, x);
  }

  /** RestBundle's `resourceMethod`: a null handler throws, naming the
      method and the name; otherwise the handler is wrapped in a new
      ResourceMethod. */
  function BundleResourceMethod(httpMethod: string, name: string, handler: Option<string>, mime: Option<string>)
    : (r: Result<ResourceMethod, string>)
    ensures handler.None? ==>
      r == Failure("resourceMethod(" + httpMethod + ", " + name + ", ?handler?, ...) handler is required")
    ensures handler.Some? ==>
      (r.Success? && r.value.handler == handler.value && r.value.name == name
       && r.value.httpMethod == Upper(httpMethod) && r.value.mime == mime.GetOr(DefaultMime))
  {
    match handler
    case None => Failure("resourceMethod(" + httpMethod + ", " + name + ", ?handler?, ...) handler is required")
    case Some(h) => New(Str(httpMethod), Str(name), Function(h), mime)
  }

  // ---------------------------------------------------------- pending tasks

  /** `bag.indexOf(n)`. */
  function IndexOf(bag: seq<string>, n: string): (r: int)
    ensures -1 <= r < |bag|
    ensures r >= 0 ==> bag[r] == n && forall k :: 0 <= k < r ==> bag[k] != n
    ensures r < 0 <==> n !in bag
  {
    if bag == [] then -1
    else if bag[0] == n then 0
    else var i := IndexOf(bag[1..], n); if i < 0 then -1 else i + 1
  }

  /** `taskEnd(n)` on the bag: throws when the bag is empty or `n` is not in
      it, and otherwise removes the first occurrence of `n`. */
  function TaskEndBag(bag: seq<string>, n: string): (r: Result<seq<string>, string>)
    ensures bag == [] ==> r == Failure("taskEnd() expected:" + n + " actual:(no pending tasks)")
    ensures bag != [] && n !in bag ==> r == Failure("taskEnd() could not locate pending task:" + n)
    ensures r.Success? <==> n in bag
    ensures r.Success? ==> var i := IndexOf(bag, n); r.value == bag[..i] + bag[i + 1..]
  {
    if |bag| < 1 then Failure("taskEnd() expected:" + n + " actual:(no pending tasks)")
    else
      var i := IndexOf(bag, n);
      if i < 0 then Failure("taskEnd() could not locate pending task:" + n)
      else Success(bag[..i] + bag[i + 1..])
  }

  /** Ending a pending task removes exactly one occurrence of it and keeps
      the order of the others. */
  lemma TaskEndRemovesOne(bag: seq<string>, n: string)
    requires n in bag
    ensures |TaskEndBag(bag, n).value| == |bag| - 1
    ensures multiset(TaskEndBag(bag, n).value) == multiset(bag) - multiset{n}
  {
    var i := IndexOf(bag, n);
    assert bag == bag[..i] + [bag[i]] + bag[i + 1..];
  }

  /** A task begun and then ended leaves the same multiset of pending
      tasks. */
  lemma BeginEndMultiset(bag: seq<string>, n: string)
    ensures TaskEndBag(bag + [n], n).Success?
    ensures multiset(TaskEndBag(bag + [n], n).value) == multiset(bag)
  {
    var b := bag + [n];
    assert b[|bag|] == n;
    TaskEndRemovesOne(b, n);
    assert multiset(b) - multiset{n} == multiset(bag);
  }

  /** It leaves the same sequence exactly when `n` was not pending, or every
      entry from the first pending `n` onward is `n`. */
  lemma BeginEndSequence(bag: seq<string>, n: string)
    ensures TaskEndBag(bag + [n], n).Success?
    ensures TaskEndBag(bag + [n], n).value == bag <==>
      (n !in bag || forall k :: IndexOf(bag, n) <= k < |bag| ==> bag[k] == n)
  {
    BeginEndMultiset(bag, n);
    if n !in bag {
      EndAfterBeginAbsent(bag, n);
    } else {
      EndAfterBeginPresent(bag, n);
      RemoveAppendSame(bag, IndexOf(bag, n), n);
    }
  }

  lemma EndAfterBeginAbsent(bag: seq<string>, n: string)
    requires n !in bag
    ensures TaskEndBag(bag + [n], n) == Success(bag)
  {
    var b := bag + [n];
    assert forall k :: 0 <= k < |bag| ==> b[k] == bag[k];
    assert b[|bag|] == n;
    var i := IndexOf(b, n);
    assert i == |bag|;
    var r := TaskEndBag(b, n);
    assert r.value == b[..i] + b[i + 1..];
    assert b[..i] == bag && b[i + 1..] == [];
    assert r.value == bag;
  }

  /** An appended suffix does not move the first occurrence of a present entry. */
  lemma IndexOfAppend(bag: seq<string>, extra: seq<string>, n: string)
    requires n in bag
    ensures IndexOf(bag + extra, n) == IndexOf(bag, n)
  {
    var b := bag + extra;
    var j := IndexOf(bag, n);
    assert b[j] == n;
    assert forall k :: 0 <= k < |bag| ==> b[k] == bag[k];
    var i := IndexOf(b, n);
    assert !(i < j);
    assert !(j < i);
  }

  lemma EndAfterBeginPresent(bag: seq<string>, n: string)
    requires n in bag
    ensures var j := IndexOf(bag, n);
      TaskEndBag(bag + [n], n) == Success(bag[..j] + bag[j + 1..] + [n])
  {
    var b := bag + [n];
    var j := IndexOf(bag, n);
    IndexOfAppend(bag, [n], n);
    assert n in b;
    SlicesOfAppend(bag, n, j);
  }

  lemma SlicesOfAppend<T>(a: seq<T>, x: T, j: nat)
    requires j < |a|
    ensures (a + [x])[..j] + (a + [x])[j + 1..] == a[..j] + a[j + 1..] + [x]
  {
    assert (a + [x])[..j] == a[..j];
    assert (a + [x])[j + 1..] == a[j + 1..] + [x];
  }

  /** Dropping the entry at `j` (an `n`) and appending `n` gives back the
      same sequence exactly when everything from `j` on is `n`. */
  lemma RemoveAppendSame(bag: seq<string>, j: nat, n: string)
    requires j < |bag| && bag[j] == n
    ensures bag[..j] + bag[j + 1..] + [n] == bag <==> forall k :: j <= k < |bag| ==> bag[k] == n
  {
    var r := bag[..j] + bag[j + 1..] + [n];
    if forall k :: j <= k < |bag| ==> bag[k] == n {
      forall k | 0 <= k < |bag| ensures r[k] == bag[k] {
        if j <= k < |bag| - 1 {
          assert r[k] == bag[k + 1];
        }
      }
    } else if r == bag {
      ShiftedConstant(bag, j, n, r);
    }
  }

  /** If dropping position `i` and appending `n` gives back `bag`, every
      entry from `i` on equals `n`. */
  lemma ShiftedConstant(bag: seq<string>, i: nat, n: string, r: seq<string>)
    requires i < |bag| && r == bag[..i] + bag[i + 1..] + [n] && r == bag
    ensures forall k :: i <= k < |bag| ==> bag[k] == n
  {
    var last := |bag| - 1;
    assert bag[last] == n;
    var k := last;
    while k > i
      invariant i <= k <= last
      invariant forall m :: k <= m < |bag| ==> bag[m] == n
    {
      assert r[k - 1] == bag[k];
      k := k - 1;
    }
  }

  /** The bag as seen by `getState()`. */
  datatype State = State(tasks: seq<string>)
}
