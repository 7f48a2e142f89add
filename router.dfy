/**
 * The router object: the cache of registered routes by method, the rules
 * rebuilt from it for the rule router, and the routes file the cache is
 * written to after every rebuild and read back from when the router is
 * made again.  The file is modelled as its content: `None` when there is
 * no file, the cache it holds otherwise.
 */
module Routing {
  import opened PathTemplate
  import opened Matchers
  import opened RouteTable

  class Router {
    /** `_cache`: method to routes to compiled pattern, in insertion order. */
    var cache: Cache
    /** `rules`: one method rule per cache entry. */
    var rules: seq<MethodRule>
    /** What the routes file holds: the cache as last written, `None`
        while nothing was written. */
    ghost var persisted: Option<Cache>

    /** The rules are the cache's, every stored pattern is its template
        compiled, and the file holds the cache unless nothing was ever
        written (then the cache is empty). */
    ghost predicate Valid()
      reads this
    {
      && CacheOk(cache)
      && rules == Rules(cache)
      && (persisted == Some(cache) || (persisted == None && cache == []))
    }

    /**
     * `Router.__init__`: an empty table when there is no routes file;
     * otherwise the cache the file holds, with its rules rebuilt (and the
     * file written again).  A file holds a cache an earlier router wrote,
     * which satisfies `CacheOk`: a restarted router routes exactly as the
     * router that wrote the file.
     */
    constructor (file: Option<Cache>)
      requires file.Some? ==> CacheOk(file.value)
      ensures Valid()
      ensures file.None? ==> cache == [] && rules == [] && persisted == None
      ensures file.Some? ==> cache == file.value && rules == Rules(file.value) && persisted == file
    {
      rules := [];
      cache := [];
      persisted := None;
      new;
      if file.Some? {
        cache := file.value;
        Rebuild();
      }
    }

    /**
     * `Router.register`: a malformed template changes nothing; otherwise
     * the route is set under the method with its compiled pattern, the
     * rules are rebuilt and the file is written.  Every request routed
     * before is routed the same way after, unless another method entry
     * differs from this one only in letter case.
     */
    method Register(host: string, httpMethod: string, path: string, endpoint: string)
      requires Valid()
      modifies this
      ensures Valid()
      ensures Compile(path).Err? ==> cache == old(cache) && rules == old(rules) && persisted == old(persisted)
      ensures Compile(path).Ok? ==>
                && cache == SetRoute(old(cache), httpMethod, Route(host, path, endpoint), Compile(path).value)
                && rules == Rules(cache)
                && persisted == Some(cache)
      ensures CaseUnique(old(cache), httpMethod) ==>
                forall primaryDomainLen: nat, req: Request :: Resolve(old(rules), primaryDomainLen, req).Some? ==>
                  Resolve(rules, primaryDomainLen, req) == Resolve(old(rules), primaryDomainLen, req)
    {
      var matchRegex := BuildMatchRegex(path);
      if matchRegex.Err? {
        return;
      }
      var before := cache;
      var route := Route(host, path, endpoint);
      SetRouteOk(cache, httpMethod, route, matchRegex.value);
      cache := SetRoute(cache, httpMethod, route, matchRegex.value);
      Rebuild();
      if CaseUnique(before, httpMethod) {
        forall primaryDomainLen: nat, req: Request | Resolve(Rules(before), primaryDomainLen, req).Some?
          ensures Resolve(rules, primaryDomainLen, req) == Resolve(Rules(before), primaryDomainLen, req)
        {
          RegisterKeepsResolution(before, httpMethod, route, matchRegex.value, primaryDomainLen, req);
        }
      }
    }

    /** `Router.unregister`: the route is dropped from the method's routes
        (a method without an entry gets none), the rules are rebuilt and the
        file is written. */
    method Unregister(host: string, httpMethod: string, path: string, endpoint: string)
      requires Valid()
      modifies this
      ensures Valid()
      ensures cache == RemoveRoute(old(cache), httpMethod, Route(host, path, endpoint))
      ensures rules == Rules(cache) && persisted == Some(cache)
    {
      RemoveRouteOk(cache, httpMethod, Route(host, path, endpoint));
      cache := RemoveRoute(cache, httpMethod, Route(host, path, endpoint));
      Rebuild();
    }

    /** `Router._rebuild`: one method rule per cache entry, in the cache's
        order, each holding one host-and-path rule per route in the
        method's order; then the cache is written to the file. */
    method Rebuild()
      requires CacheOk(cache)
      modifies this
      ensures Valid()
      ensures cache == old(cache) && rules == Rules(cache) && persisted == Some(cache)
    {
      var methodRules: seq<MethodRule> := [];
      var i := 0;
      while i < |cache|
        invariant 0 <= i <= |cache|
        invariant |methodRules| == i
        invariant forall k :: 0 <= k < i ==> methodRules[k] == MethodRuleOf(cache[k])
      {
        var (httpMethod, routes) := cache[i];
        methodRules := methodRules + [MethodRule(NewMethodMatcher(httpMethod), HostRules(routes))];
        i := i + 1;
      }
      rules := methodRules;
      persisted := Some(cache);
    }
  }
}
