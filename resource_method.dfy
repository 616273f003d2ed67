/** `ResourceMethod` (src/resource-method.cjs): one REST resource, that is
    an HTTP method, a path name below the bundle, a handler and a mime type.
    Nothing updates it after construction, so it is a value. */
module ResourceMethods {
  import opened Wrappers
  import opened Js

  datatype Verb = GET | POST | PUT | DELETE | HEAD

  function VerbName(v: Verb): string {
    match v
    case GET => "GET"
    case POST => "POST"
    case PUT => "PUT"
    case DELETE => "DELETE"
    case HEAD => "HEAD"
  }

  /** The verb an upper-cased method name stands for, if any. */
  function ParseVerb(httpMethod: string): (r: Option<Verb>)
    ensures r.Some? ==> VerbName(r.value) == httpMethod
  {
    if httpMethod == "GET" then Some(GET)
    else if httpMethod == "POST" then Some(POST)
    else if httpMethod == "PUT" then Some(PUT)
    else if httpMethod == "DELETE" then Some(DELETE)
    else if httpMethod == "HEAD" then Some(HEAD)
    else None
  }

  /** Every verb's name parses back to the verb. */
  lemma ParseVerbName(v: Verb)
    ensures ParseVerb(VerbName(v)) == Some(v)
  {
  }

  /** The handler argument: a function (named by what it does) or any other value. */
  datatype HandlerArg = NotAFunction | Function(id: string)

  datatype ResourceMethod = ResourceMethod(httpMethod: string, name: string, handler: string, mime: string)

  const DefaultMime: string := "application/json"

  /** A route as registered on an Express app or router. */
  datatype Route = Route(verb: Verb, path: string, mime: string, handler: string)

  /** `new ResourceMethod(method = "get", name, handler, mime = "application/json")`.
      `Missing` stands for an `undefined` argument, which takes the default;
      `mime` is `None` when it is `undefined`. */
  function New(httpMethod: Arg, name: Arg, handler: HandlerArg, mime: Option<string>): (r: Result<ResourceMethod, string>)
    ensures !name.Str? ==> r == Failure("ResourceMethod() expected: name")
    ensures name.Str? && handler.NotAFunction? ==> r == Failure("ResourceMethod() expected: handler")
    ensures name.Str? && handler.Function? && httpMethod.NonString? ==>
      r == Failure("method.toUpperCase is not a function")
    ensures r.Success? <==> name.Str? && handler.Function? && !httpMethod.NonString?
    ensures r.Success? ==>
      && r.value.name == name.value
      && r.value.handler == handler.id
      && r.value.mime == mime.GetOr(DefaultMime)
      && r.value.httpMethod == Upper(if httpMethod.Str? then httpMethod.value else "get")
  {
    if !name.Str? then Failure("ResourceMethod() expected: name")
    else if handler.NotAFunction? then Failure("ResourceMethod() expected: handler")
    else match httpMethod
      case NonString => Failure("method.toUpperCase is not a function")
      case Missing => Success(ResourceMethod(Upper("get"), name.value, handler.id, mime.GetOr(DefaultMime)))
      case Str(m) => Success(ResourceMethod(Upper(m), name.value, handler.id, mime.GetOr(DefaultMime)))
  }

  /** The default method is stored as "GET". */
  lemma NewDefaultMethod(name: string, handler: string)
    ensures New(Missing, Str(name), Function(handler), None)
      == Success(ResourceMethod("GET", name, handler, DefaultMime))
  {
    var u := Upper("get");
    assert u[0] == 'G' && u[1] == 'E' && u[2] == 'T';
    assert u == "GET";
  }

  /** `resourceMethod.use(app)`: GET, PUT, POST and DELETE are bound to the
      route of the same verb, HEAD is bound as a GET route, and anything
      else throws. */
  function Use(rm: ResourceMethod): (r: Result<Route, string>)
    ensures r.Failure? <==> ParseVerb(rm.httpMethod).None?
    ensures r.Failure? ==>
      (r.error == "ResourceMethod.use() unsupported HTTP method:" + rm.httpMethod + " [" + rm.name + "]")
    ensures r.Success? ==>
      && r.value.verb == (if rm.httpMethod == "HEAD" then GET else ParseVerb(rm.httpMethod).value)
      && r.value.path == "/" + rm.name
      && r.value.mime == rm.mime
      && r.value.handler == rm.handler
  {
    var path := "/" + rm.name;
    if rm.httpMethod == "GET" then Success(Route(GET, path, rm.mime, rm.handler))
    else if rm.httpMethod == "PUT" then Success(Route(PUT, path, rm.mime, rm.handler))
    else if rm.httpMethod == "POST" then Success(Route(POST, path, rm.mime, rm.handler))
    else if rm.httpMethod == "DELETE" then Success(Route(DELETE, path, rm.mime, rm.handler))
    else if rm.httpMethod == "HEAD" then Success(Route(GET, path, rm.mime, rm.handler))
    else Failure("ResourceMethod.use() unsupported HTTP method:" + rm.httpMethod + " [" + rm.name + "]")
  }

  /** A method name in any letter case is accepted by `use` once
      constructed, exactly when its upper case names a verb. */
  lemma UseAcceptsAnyCase(m: string, name: string, handler: string)
    ensures New(Str(m), Str(name), Function(handler), None).Success?
    ensures Use(New(Str(m), Str(name), Function(handler), None).value).Success?
      <==> exists v :: Upper(m) == VerbName(v)
  {
    var rm := New(Str(m), Str(name), Function(handler), None).value;
    if Use(rm).Success? {
      var v := ParseVerb(rm.httpMethod).value;
      assert Upper(m) == VerbName(v);
    } else {
      forall v ensures Upper(m) != VerbName(v) {
        ParseVerbName(v);
      }
    }
  }
}
