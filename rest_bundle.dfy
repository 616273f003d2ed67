/** `RestBundle` (src/rest-bundle.js): the older REST bundle. Unlike
    `RestApi` it keeps no handler list of its own: `bindExpress` sorts the
    array it is given in place and binds it on a fresh Express app. */
module RestBundles {
  import opened Wrappers
  import opened Js
  import opened ResourceMethods
  import opened RestCore

  datatype RestBundleOptions = RestBundleOptions(name: Arg, uribase: Option<string>)

  function UniqueMessage(k: HandlerKey): string {
    "REST resources must have unique handlers: " + k.httpMethod + " " + k.name
  }

  class RestBundle {
    const name: string
    const uribase: string
    /** Unordered pending tasks, with duplicates. */
    var taskBag: seq<string>
    /** The routes of the app `bindExpress` last created, in order. */
    var appRoutes: seq<Route>

    constructor (name: string, uribase: string)
      ensures this.name == name && this.uribase == uribase
      ensures taskBag == [] && appRoutes == []
    {
      this.name := name;
      this.uribase := uribase;
      taskBag := [];
      appRoutes := [];
    }

    /** `new RestBundle(options)`: throws when the name is not a string. */
    static method Create(opts: RestBundleOptions) returns (r: Result<RestBundle, string>)
      ensures ResolveName(opts.name).Failure? ==> r == Failure(ResolveName(opts.name).error)
      ensures ResolveName(opts.name).Success? ==>
        && r.Success? && fresh(r.value)
        && r.value.name == ResolveName(opts.name).value
        && r.value.uribase == Uribase(r.value.name, opts.uribase)
        && r.value.taskBag == [] && r.value.appRoutes == []
    {
      var n := ResolveName(opts.name);
      if n.Failure? {
        return Failure(n.error);
      }
      var bundle := new RestBundle(n.value, Uribase(n.value, opts.uribase));
      return Success(bundle);
    }

    method TaskBegin(n: string)
      modifies this`taskBag
      ensures taskBag == old(taskBag) + [n]
    {
      taskBag := taskBag + [n];
    }

    /** `taskEnd(n)`: removes the first pending `n`, or throws and leaves
      the bag as it was. */
    method TaskEnd(n: string) returns (r: Outcome<string>)
      modifies this`taskBag
      ensures TaskEndBag(old(taskBag), n).Success? ==>
        r == Pass && taskBag == TaskEndBag(old(taskBag), n).value
      ensures TaskEndBag(old(taskBag), n).Failure? ==>
        r == Fail(TaskEndBag(old(taskBag), n).error) && taskBag == old(taskBag)
    {
      if |taskBag| < 1 {
        return Fail("taskEnd() expected:" + n + " actual:(no pending tasks)");
      }
      var i := IndexOf(taskBag, n);
      if i < 0 {
        return Fail("taskEnd() could not locate pending task:" + n);
      }
      taskBag := taskBag[..i] + taskBag[i + 1..];
      return Pass;
    }

    /** `getState()`: the pending tasks. */
    function GetState(): (r: State)
      reads this
      ensures r.tasks == taskBag
    {
      State(taskBag)
    }

    /** `bindResource(app, resource)`: registers one route on the app, or
      throws for an unsupported method. */
    method BindResource(resource: ResourceMethod) returns (r: Outcome<string>)
      modifies this`appRoutes
      ensures BindRoute(resource).Success? ==>
        r == Pass && appRoutes == old(appRoutes) + [BindRoute(resource).value]
      ensures BindRoute(resource).Failure? ==>
        r == Fail(BindRoute(resource).error) && appRoutes == old(appRoutes)
    {
      var b := BindRoute(resource);
      if b.Failure? {
        return Fail(b.error);
      }
      appRoutes := appRoutes + [b.value];
      return Pass;
    }

    /** `bindExpress(rootApp, restHandlers)`: creates a fresh app, sorts the
      caller's array in place (throwing on a duplicate, which leaves the
      array as it was), then binds every resource in order. */
    method BindExpress(restHandlers: array<ResourceMethod>) returns (r: Outcome<string>)
      modifies this`appRoutes, restHandlers
      ensures Sort(old(restHandlers[..])).Failure? ==>
        && r == Fail(UniqueMessage(Sort(old(restHandlers[..])).error))
        && restHandlers[..] == old(restHandlers[..])
        && appRoutes == []
      ensures Sort(old(restHandlers[..])).Success? ==>
        var b := BindEach(Sort(old(restHandlers[..])).value, BindRoute);
        && restHandlers[..] == Sort(old(restHandlers[..])).value
        && appRoutes == b.routes
        && (b.error.None? ==> r == Pass)
        && (b.error.Some? ==> r == Fail(b.error.value))
    {
      appRoutes := [];
      var sorted := Sort(restHandlers[..]);
      if sorted.Failure? {
        return Fail(UniqueMessage(sorted.error));
      }
      var t := sorted.value;
      SortCorrect(restHandlers[..]);
      assert |t| == |multiset(t)| == restHandlers.Length;
      forall i | 0 <= i < restHandlers.Length {
        restHandlers[i] := t[i];
      }
      assert restHandlers[..] == t;
      var i := 0;
      while i < restHandlers.Length
        invariant 0 <= i <= restHandlers.Length && restHandlers[..] == t
        invariant BindEach(t[..i], BindRoute).error.None?
        invariant appRoutes == BindEach(t[..i], BindRoute).routes
      {
        assert t[..i + 1][..i] == t[..i];
        var o := BindResource(restHandlers[i]);
        if o.Fail? {
          BindEachStops(t, BindRoute, i + 1);
          return o;
        }
        i := i + 1;
      }
      assert t[..i] == t;
      return Pass;
    }

    /** `bindExpress(rootApp)`: binds the bundle's own `handlers`, that is
      the five standard resources followed by those a subclass adds
      (`extra`, empty for RestBundle itself). RestBundle's getter builds a
      fresh array on every read; a subclass that stores one array instead
      keeps it sorted between calls, which this method does not model. */
    method BindExpressDefault(extra: seq<ResourceMethod>) returns (r: Outcome<string>, handlers: array<ResourceMethod>)
      modifies this`appRoutes
      ensures fresh(handlers)
      ensures Sort(StandardHandlers() + extra).Failure? ==>
        && r == Fail(UniqueMessage(Sort(StandardHandlers() + extra).error))
        && handlers[..] == StandardHandlers() + extra
        && appRoutes == []
      ensures Sort(StandardHandlers() + extra).Success? ==>
        var b := BindEach(Sort(StandardHandlers() + extra).value, BindRoute);
        && handlers[..] == Sort(StandardHandlers() + extra).value
        && appRoutes == b.routes
        && (b.error.None? ==> r == Pass)
        && (b.error.Some? ==> r == Fail(b.error.value))
    {
      var s := StandardHandlers() + extra;
      handlers := new ResourceMethod[|s|](i requires 0 <= i < |s| => s[i]);
      assert handlers[..] == s;
      r := BindExpress(handlers);
    }
  }

  /** RestBundle itself binds its five resources without error. */
  method BindStandard(bundle: RestBundle) returns (r: Outcome<string>)
    modifies bundle
    ensures r == Pass
  {
    StandardHandlersBind();
    assert StandardHandlers() + [] == StandardHandlers();
    var handlers;
    r, handlers := bundle.BindExpressDefault([]);
  }

  /** A subclass adding a second GET state resource is rejected, and the
      message names that resource. */
  method BindDuplicateState(bundle: RestBundle) returns (r: Outcome<string>)
    modifies bundle
    ensures r == Fail("REST resources must have unique handlers: GET state")
  {
    DuplicateStateRejected("getState");
    var handlers;
    r, handlers := bundle.BindExpressDefault([StandardHandler("get", "state", "getState")]);
    assert UniqueMessage(HandlerKey("GET", "state")) == "REST resources must have unique handlers: GET state";
  }

  /** Each standard resource is what the bundle's `resourceMethod` builds. */
  lemma StandardHandlersViaResourceMethod(httpMethod: string, name: string, handler: string)
    ensures BundleResourceMethod(httpMethod, name, Some(handler), None)
      == Success(StandardHandler(httpMethod, name, handler))
  {
  }
}
