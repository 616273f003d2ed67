/** `RestApi` (src/rest-api.cjs): a named REST bundle whose handler list,
    pending-task bag and router are updated in place. */
module RestApis {
  import opened Wrappers
  import opened Js
  import opened ResourceMethods
  import opened RestCore

  /** The constructor options the model keeps: `name`, `uribase` and
      `handlers` (`None` for an absent or falsy option). */
  datatype RestApiOptions = RestApiOptions(name: Arg, uribase: Option<string>, handlers: Option<seq<ResourceMethod>>)

  function DuplicateMessage(k: HandlerKey): string {
    "duplicate REST resource handler: " + k.httpMethod + " " + k.name
  }

  class RestApi {
    const name: string
    const uribase: string
    /** The handler array, which `bindExpress` extends and sorts. */
    var handlers: seq<ResourceMethod>
    /** Unordered pending tasks, with duplicates. */
    var taskBag: seq<string>
    /** The routes registered on this bundle's router, in order. */
    var routes: seq<Route>

    constructor (name: string, uribase: string, handlers: seq<ResourceMethod>)
      ensures this.name == name && this.uribase == uribase && this.handlers == handlers
      ensures taskBag == [] && routes == []
    {
      this.name := name;
      this.uribase := uribase;
      this.handlers := handlers;
      taskBag := [];
      routes := [];
    }

    /** `new RestApi(opts)`: throws when the name is not a string. */
    static method Create(opts: RestApiOptions) returns (r: Result<RestApi, string>)
      ensures ResolveName(opts.name).Failure? ==> r == Failure(ResolveName(opts.name).error)
      ensures ResolveName(opts.name).Success? ==>
        && r.Success? && fresh(r.value)
        && r.value.name == ResolveName(opts.name).value
        && r.value.uribase == Uribase(r.value.name, opts.uribase)
        && r.value.handlers == opts.handlers.GetOr([])
        && r.value.taskBag == [] && r.value.routes == []
    {
      var n := ResolveName(opts.name);
      if n.Failure? {
        return Failure(n.error);
      }
      var api := new RestApi(n.value, Uribase(n.value, opts.uribase), opts.handlers.GetOr([]));
      return Success(api);
    }

    method TaskBegin(n: string)
      modifies this`taskBag
      ensures taskBag == old(taskBag) + [n]
    {
      taskBag := taskBag + [n];
    }

    /** `taskEnd(n)`: removes the first pending `n`, or throws and leaves
      the bag as it was. */
    method TaskEnd(n: string) returns (r: Outcome<string>)
      modifies this`taskBag
      ensures TaskEndBag(old(taskBag), n).Success? ==>
        r == Pass && taskBag == TaskEndBag(old(taskBag), n).value
      ensures TaskEndBag(old(taskBag), n).Failure? ==>
        r == Fail(TaskEndBag(old(taskBag), n).error) && taskBag == old(taskBag)
    {
      if |taskBag| < 1 {
        return Fail("taskEnd() expected:" + n + " actual:(no pending tasks)");
      }
      var i := IndexOf(taskBag, n);
      if i < 0 {
        return Fail("taskEnd() could not locate pending task:" + n);
      }
      taskBag := taskBag[..i] + taskBag[i + 1..];
      return Pass;
    }

    /** `getState()`: the pending tasks. */
    function GetState(): (r: State)
      reads this
      ensures r.tasks == taskBag
    {
      State(taskBag)
    }

    /** `bindResource(router, resource)`: registers one route on the router,
      or throws for an unsupported method. */
    method BindResource(resource: ResourceMethod) returns (r: Outcome<string>)
      modifies this`routes
      ensures BindRoute(resource).Success? ==>
        r == Pass && routes == old(routes) + [BindRoute(resource).value]
      ensures BindRoute(resource).Failure? ==>
        r == Fail(BindRoute(resource).error) && routes == old(routes)
    {
      var b := BindRoute(resource);
      if b.Failure? {
        return Fail(b.error);
      }
      routes := routes + [b.value];
      return Pass;
    }

    /** `bindExpress(app, restHandlers)`: appends the given handlers, sorts
      the list by method and name (throwing on a duplicate, with the list
      extended but not reordered), then binds every handler in order. */
    method BindExpress(restHandlers: Option<seq<ResourceMethod>>) returns (r: Outcome<string>)
      modifies this`handlers, this`routes
      ensures var all := old(handlers) + restHandlers.GetOr([]);
        Sort(all).Failure? ==>
          r == Fail(DuplicateMessage(Sort(all).error)) && handlers == all && routes == old(routes)
      ensures var all := old(handlers) + restHandlers.GetOr([]);
        Sort(all).Success? ==>
          var b := BindEach(Sort(all).value, BindRoute);
          && handlers == Sort(all).value
          && routes == old(routes) + b.routes
          && (b.error.None? ==> r == Pass)
          && (b.error.Some? ==> r == Fail(b.error.value))
    {
      PushHandlers(restHandlers.GetOr([]));
      var sorted := Sort(handlers);
      if sorted.Failure? {
        return Fail(DuplicateMessage(sorted.error));
      }
      handlers := sorted.value;
      r := BindHandlers();
    }

    /** `restHandlers.forEach(h => handlers.push(h))`. */
    method PushHandlers(extra: seq<ResourceMethod>)
      modifies this`handlers
      ensures handlers == old(handlers) + extra
    {
      for j := 0 to |extra|
        invariant handlers == old(handlers) + extra[..j]
      {
        handlers := handlers + [extra[j]];
        assert extra[..j + 1] == extra[..j] + [extra[j]];
      }
      assert extra[..|extra|] == extra;
    }

    /** `handlers.forEach(resource => this.bindResource(router, resource))`:
      binds in order and stops at the first resource that throws. */
    method BindHandlers() returns (r: Outcome<string>)
      modifies this`routes
      ensures var b := BindEach(handlers, BindRoute);
        && routes == old(routes) + b.routes
        && (b.error.None? ==> r == Pass)
        && (b.error.Some? ==> r == Fail(b.error.value))
    {
      var i := 0;
      while i < |handlers|
        invariant 0 <= i <= |handlers|
        invariant BindEach(handlers[..i], BindRoute).error.None?
        invariant routes == old(routes) + BindEach(handlers[..i], BindRoute).routes
      {
        assert handlers[..i + 1][..i] == handlers[..i];
        var o := BindResource(handlers[i]);
        if o.Fail? {
          BindEachStops(handlers, BindRoute, i + 1);
          return o;
        }
        i := i + 1;
      }
      assert handlers[..i] == handlers;
      return Pass;
    }
  }

  /** A bundle with a pending task reports it, and no longer after the task
      ends. */
  method TaskBagScenario(api: RestApi) returns (during: State, after: State)
    requires api.taskBag == []
    modifies api
    ensures during == State(["testTask"]) && after == State([])
  {
    api.TaskBegin("testTask");
    during := api.GetState();
    var o := api.TaskEnd("testTask");
    after := api.GetState();
  }

  /** Binding the same resources twice makes the second binding throw,
      since every resource is then present twice. */
  method BindTwiceRejected(api: RestApi, hs: seq<ResourceMethod>) returns (first: Outcome<string>, second: Outcome<string>)
    requires api.handlers == [] && hs != []
    requires Sort(hs).Success? && BindEach(Sort(hs).value, BindRoute).error.None?
    modifies api
    ensures first == Pass
    ensures exists h :: h in hs && second == Fail(DuplicateMessage(KeyOf(h)))
  {
    assert [] + hs == hs;
    first := api.BindExpress(Some(hs));
    SortCorrect(hs);
    var t := api.handlers;
    Doubled(t, hs);
    second := api.BindExpress(Some(hs));
    SortCorrect(t + hs);
    var i, j :| 0 <= i < j < |t + hs| && KeyOf((t + hs)[i]) == Sort(t + hs).error && KeyOf((t + hs)[j]) == Sort(t + hs).error;
    var h := (t + hs)[i];
    assert h in multiset(t + hs);
    assert multiset(t + hs) == multiset(t) + multiset(hs);
    assert h in multiset(hs);
  }

  /** For instance with the five standard resources. */
  method BindStandardTwice(api: RestApi) returns (first: Outcome<string>, second: Outcome<string>)
    requires api.handlers == []
    modifies api
    ensures first == Pass
    ensures exists h :: h in StandardHandlers() && second == Fail(DuplicateMessage(KeyOf(h)))
  {
    StandardHandlersBind();
    first, second := BindTwiceRejected(api, StandardHandlers());
  }

  /** A non-empty list appended to a permutation of itself cannot be sorted. */
  lemma Doubled(t: seq<ResourceMethod>, s: seq<ResourceMethod>)
    requires s != [] && multiset(t) == multiset(s)
    ensures Sort(t + s).Failure?
  {
    var all := t + s;
    assert s[0] in multiset(t);
    var j :| 0 <= j < |t| && t[j] == s[0];
    assert all[j] == all[|t|];
    SortCorrect(all);
  }
}
