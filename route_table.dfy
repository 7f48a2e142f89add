/**
 * Ordered dictionaries as the router uses them: a sequence of key/value
 * pairs in insertion order.  Updating a key that is present keeps its
 * position, a new key goes to the end, and removing a key keeps the order
 * of the others.
 */
module OrderedMap {
  import opened PathTemplate

  /** The keys, in insertion order. */
  function Keys<K, V>(xs: seq<(K, V)>): (ks: seq<K>)
    ensures |ks| == |xs|
    ensures forall i :: 0 <= i < |xs| ==> ks[i] == xs[i].0
  {
    if xs == [] then [] else [xs[0].0] + Keys(xs[1..])
  }

  /** No key occurs twice. */
  predicate DistinctKeys<K(==), V>(xs: seq<(K, V)>)
  {
    forall i, j :: 0 <= i < j < |xs| ==> xs[i].0 != xs[j].0
  }

  /** The value of `k` (`dict.get`). */
  function Get<K(==), V>(xs: seq<(K, V)>, k: K): (r: Option<V>)
    ensures r.Some? <==> k in Keys(xs)
  {
    if xs == [] then None
    else if xs[0].0 == k then Some(xs[0].1)
    else Get(xs[1..], k)
  }

  /** `d[k] = v`: the value replaced where the key stands, or the pair
      added at the end. */
  function Put<K(==), V>(xs: seq<(K, V)>, k: K, v: V): seq<(K, V)>
  {
    if xs == [] then [(k, v)]
    else if xs[0].0 == k then [(k, v)] + xs[1..]
    else [xs[0]] + Put(xs[1..], k, v)
  }

  /** `d.pop(k, None)`: the pair of `k` taken out, if there is one. */
  function Remove<K(==), V>(xs: seq<(K, V)>, k: K): seq<(K, V)>
  {
    if xs == [] then []
    else if xs[0].0 == k then xs[1..]
    else [xs[0]] + Remove(xs[1..], k)
  }

  /** After a put, `k` has the new value and every other key its old one. */
  lemma {:induction false} GetPut<K, V>(xs: seq<(K, V)>, k: K, v: V, k2: K)
    ensures Get(Put(xs, k, v), k2) == if k2 == k then Some(v) else Get(xs, k2)
  {
    if xs != [] && xs[0].0 != k {
      GetPut(xs[1..], k, v, k2);
      assert Put(xs, k, v)[1..] == Put(xs[1..], k, v);
    }
  }

  /** A put keeps the order of the keys; a new key goes last. */
  lemma {:induction false} KeysPut<K, V>(xs: seq<(K, V)>, k: K, v: V)
    ensures Keys(Put(xs, k, v)) == if k in Keys(xs) then Keys(xs) else Keys(xs) + [k]
  {
    if xs != [] && xs[0].0 != k {
      KeysPut(xs[1..], k, v);
      assert Keys(xs) == [xs[0].0] + Keys(xs[1..]);
    }
  }

  /** A put of a new key adds one pair at the end. */
  lemma {:induction false} PutNew<K, V>(xs: seq<(K, V)>, k: K, v: V)
    requires k !in Keys(xs)
    ensures Put(xs, k, v) == xs + [(k, v)]
  {
    if xs != [] {
      assert Keys(xs) == [xs[0].0] + Keys(xs[1..]);
      PutNew(xs[1..], k, v);
      assert xs == [xs[0]] + xs[1..];
    }
  }

  /** A put of the key at position `i` replaces that pair and no other. */
  lemma {:induction false} PutAt<K, V>(xs: seq<(K, V)>, k: K, v: V, i: nat)
    requires DistinctKeys(xs) && i < |xs| && xs[i].0 == k
    ensures Put(xs, k, v) == xs[i := (k, v)]
  {
    if i > 0 {
      assert xs[0].0 != k;
      PutAt(xs[1..], k, v, i - 1);
      assert xs[i := (k, v)] == [xs[0]] + xs[1..][i - 1 := (k, v)];
    }
  }

  /** A second put of the same key overrides the first. */
  lemma {:induction false} PutOverwrite<K, V>(xs: seq<(K, V)>, k: K, v: V, w: V)
    ensures Put(Put(xs, k, v), k, w) == Put(xs, k, w)
  {
    if xs != [] && xs[0].0 != k {
      PutOverwrite(xs[1..], k, v, w);
      assert Put(xs, k, v)[0] == xs[0] && Put(xs, k, v)[1..] == Put(xs[1..], k, v);
    }
  }

  /** The value found for the key at position `i`. */
  lemma {:induction false} GetAt<K, V>(xs: seq<(K, V)>, i: nat)
    requires DistinctKeys(xs) && i < |xs|
    ensures Get(xs, xs[i].0) == Some(xs[i].1)
  {
    if i > 0 {
      assert xs[0].0 != xs[i].0;
      GetAt(xs[1..], i - 1);
    }
  }

  /** Putting back the value a key already has changes nothing. */
  lemma PutSame<K, V>(xs: seq<(K, V)>, i: nat)
    requires DistinctKeys(xs) && i < |xs|
    ensures Put(xs, xs[i].0, xs[i].1) == xs
  {
    PutAt(xs, xs[i].0, xs[i].1, i);
  }

  /** Every pair after a put is the new pair or an old one. */
  lemma {:induction false} PutMembers<K, V>(xs: seq<(K, V)>, k: K, v: V)
    ensures forall p :: p in Put(xs, k, v) ==> p == (k, v) || p in xs
  {
    if xs != [] && xs[0].0 != k {
      PutMembers(xs[1..], k, v);
      assert Put(xs, k, v) == [xs[0]] + Put(xs[1..], k, v);
    }
  }

  /** A put keeps the keys distinct. */
  lemma PutDistinct<K, V>(xs: seq<(K, V)>, k: K, v: V)
    requires DistinctKeys(xs)
    ensures DistinctKeys(Put(xs, k, v))
  {
    if k in Keys(xs) {
      var i :| 0 <= i < |xs| && Keys(xs)[i] == k;
      PutAt(xs, k, v, i);
    } else {
      PutNew(xs, k, v);
      assert forall i :: 0 <= i < |xs| ==> xs[i].0 != k by {
        forall i | 0 <= i < |xs| ensures xs[i].0 != k {
          assert Keys(xs)[i] == xs[i].0;
        }
      }
    }
  }

  /** After a removal `k` is absent and every other key keeps its value. */
  lemma {:induction false} GetRemove<K, V>(xs: seq<(K, V)>, k: K, k2: K)
    requires DistinctKeys(xs)
    ensures Get(Remove(xs, k), k2) == if k2 == k then None else Get(xs, k2)
  {
    if xs != [] {
      GetRemove(xs[1..], k, k2);
      if xs[0].0 == k {
        assert Keys(xs[1..]) == Keys(xs)[1..];
        assert k !in Keys(xs[1..]);
      } else {
        assert Remove(xs, k)[0] == xs[0] && Remove(xs, k)[1..] == Remove(xs[1..], k);
      }
    }
  }

  /** Removing an absent key changes nothing. */
  lemma {:induction false} RemoveAbsent<K, V>(xs: seq<(K, V)>, k: K)
    requires k !in Keys(xs)
    ensures Remove(xs, k) == xs
  {
    if xs != [] {
      assert Keys(xs) == [xs[0].0] + Keys(xs[1..]);
      RemoveAbsent(xs[1..], k);
    }
  }

  /** A removal keeps the others in their order: it is the sequence with
      the pair of `k` cut out. */
  lemma {:induction false} RemoveShape<K, V>(xs: seq<(K, V)>, k: K, i: nat)
    requires i < |xs| && xs[i].0 == k && DistinctKeys(xs)
    ensures Remove(xs, k) == xs[..i] + xs[i + 1..]
  {
    if i > 0 {
      RemoveShape(xs[1..], k, i - 1);
      assert xs[..i] == [xs[0]] + xs[1..][..i - 1];
      assert xs[i + 1..] == xs[1..][i..];
    }
  }

  /** Removing a key just put as new gives back the map. */
  lemma {:induction false} RemovePut<K, V>(xs: seq<(K, V)>, k: K, v: V)
    requires k !in Keys(xs)
    ensures Remove(Put(xs, k, v), k) == xs
  {
    if xs != [] {
      assert Keys(xs) == [xs[0].0] + Keys(xs[1..]);
      RemovePut(xs[1..], k, v);
      assert Put(xs, k, v)[0] == xs[0] && Put(xs, k, v)[1..] == Put(xs[1..], k, v);
    }
  }

  /** A removal keeps the keys distinct. */
  lemma {:induction false} RemoveDistinct<K, V>(xs: seq<(K, V)>, k: K)
    requires DistinctKeys(xs)
    ensures DistinctKeys(Remove(xs, k))
    ensures forall p :: p in Remove(xs, k) ==> p in xs
  {
    if xs != [] {
      RemoveDistinct(xs[1..], k);
      if xs[0].0 != k {
        var r := Remove(xs, k);
        assert r == [xs[0]] + Remove(xs[1..], k);
        forall p | p in Remove(xs[1..], k) ensures p.0 != xs[0].0 {
          assert p in xs[1..];
        }
      }
    }
  }
}

/**
 * The router's table of routes (`_cache`): for each method, as it was
 * registered, the routes registered under it with their compiled
 * templates, both in insertion order; the rules rebuilt from it; and the
 * first-match resolution of a request over those rules.
 */
module RouteTable {
  import opened PathTemplate
  import opened PathMatch
  import opened Matchers
  import opened OrderedMap

  /** The key of a registration. */
  datatype Route = Route(host: string, path: string, endpoint: string)

  /** The routes of one method with their compiled templates. */
  type Routes = seq<(Route, seq<Tok>)>

  /** `_cache`: method to routes. */
  type Cache = seq<(string, Routes)>

  /** What resolution looks at in a request. */
  datatype Request = Request(httpMethod: string, host: string, path: string)

  /** A host-and-path rule and the endpoint it routes to. */
  datatype HostRule = HostRule(matcher: HostPathMatcher, endpoint: string)

  /** A method rule and the host-and-path rules it delegates to. */
  datatype MethodRule = MethodRule(matcher: MethodMatcher, rules: seq<HostRule>)

  /** The routes under a method, none when the method has no entry. */
  function RoutesOf(c: Cache, m: string): Routes
  {
    match Get(c, m)
    case Some(rs) => rs
    case None => []
  }

  /** The compiled template stored for a route under a method. */
  function Lookup(c: Cache, m: string, r: Route): Option<seq<Tok>>
  {
    match Get(c, m)
    case Some(rs) => Get(rs, r)
    case None => None
  }

  /** `_cache.setdefault(method, dict()).update({route: pattern})`. */
  function SetRoute(c: Cache, m: string, r: Route, toks: seq<Tok>): (c': Cache)
    ensures Lookup(c', m, r) == Some(toks)
    ensures Keys(c') == if m in Keys(c) then Keys(c) else Keys(c) + [m]
  {
    var rs := Put(RoutesOf(c, m), r, toks);
    GetPut(c, m, rs, m);
    GetPut(RoutesOf(c, m), r, toks, r);
    KeysPut(c, m, rs);
    Put(c, m, rs)
  }

  /** `_cache.get(method, dict()).pop(route, None)`: a method without an
      entry gets none. */
  function RemoveRoute(c: Cache, m: string, r: Route): (c': Cache)
    ensures Keys(c') == Keys(c)
    ensures DistinctKeys(RoutesOf(c, m)) ==> Lookup(c', m, r).None?
  {
    if m in Keys(c) then
      var rs := Remove(RoutesOf(c, m), r);
      GetPut(c, m, rs, m);
      KeysPut(c, m, rs);
      if DistinctKeys(RoutesOf(c, m)) then GetRemove(RoutesOf(c, m), r, r); Put(c, m, rs) else Put(c, m, rs)
    else c
  }

  /** The table's invariant: methods and, under each, routes are distinct
      keys, and every stored pattern is what its route's template compiles
      to, so the table can be rebuilt from the templates alone. */
  predicate CacheOk(c: Cache)
  {
    DistinctKeys(c) && forall i :: 0 <= i < |c| ==> RoutesOk(c[i].1)
  }

  /** The routes of one method are distinct and each pattern is its
      template compiled. */
  predicate RoutesOk(rs: Routes)
  {
    DistinctKeys(rs) && forall e :: e in rs ==> Compile(e.0.path) == Ok(e.1)
  }

  /** The rule `_rebuild` makes of one route. */
  function HostRuleOf(e: (Route, seq<Tok>)): HostRule
  {
    HostRule(HostPathMatcher(e.0.host, e.1), e.0.endpoint)
  }

  /** The rules `_rebuild` makes of one method's routes, in their order. */
  function HostRules(rs: Routes): seq<HostRule>
  {
    seq(|rs|, j requires 0 <= j < |rs| => HostRuleOf(rs[j]))
  }

  /** The rule `_rebuild` makes of one method entry. */
  function MethodRuleOf(e: (string, Routes)): MethodRule
  {
    MethodRule(NewMethodMatcher(e.0), HostRules(e.1))
  }

  /** The rules `_rebuild` makes of the whole table, in its order. */
  function Rules(c: Cache): (ms: seq<MethodRule>)
    ensures |ms| == |c|
    ensures forall i :: 0 <= i < |c| ==> ms[i].matcher.httpMethod == Upper(c[i].0) && |ms[i].rules| == |c[i].1|
  {
    seq(|c|, i requires 0 <= i < |c| => MethodRuleOf(c[i]))
  }

  /** First match over the host-and-path rules of one method. */
  function ResolveHost(hs: seq<HostRule>, primaryDomainLen: nat, req: Request): Option<(string, Bindings)>
  {
    if hs == [] then None
    else match HostPathMatch(hs[0].matcher, primaryDomainLen, req.host, req.path)
      case Some(b) => Some((hs[0].endpoint, b))
      case None => ResolveHost(hs[1..], primaryDomainLen, req)
  }

  /** Rule `j` matches the request and no rule before it does. */
  predicate FirstHost(hs: seq<HostRule>, primaryDomainLen: nat, req: Request, j: nat)
  {
    && j < |hs|
    && HostPathMatch(hs[j].matcher, primaryDomainLen, req.host, req.path).Some?
    && forall j' :: 0 <= j' < j ==> HostPathMatch(hs[j'].matcher, primaryDomainLen, req.host, req.path).None?
  }

  /** Method rule `i` routes the request somewhere. */
  predicate MethodHit(ms: seq<MethodRule>, primaryDomainLen: nat, req: Request, i: nat)
    requires i < |ms|
  {
    MethodMatch(ms[i].matcher, req.httpMethod).Some? && ResolveHost(ms[i].rules, primaryDomainLen, req).Some?
  }

  /**
   * Resolution over the rules, as the rule router the table is handed to
   * performs it: the method rules in order; for the first whose method
   * matches and one of whose host-and-path rules matches, the first such
   * rule's endpoint and captures.
   */
  function Resolve(ms: seq<MethodRule>, primaryDomainLen: nat, req: Request): (r: Option<(string, Bindings)>)
    ensures r.None? <==> forall i :: 0 <= i < |ms| ==> !MethodHit(ms, primaryDomainLen, req, i)
  {
    if ms == [] then None
    else if MethodHit(ms, primaryDomainLen, req, 0) then ResolveHost(ms[0].rules, primaryDomainLen, req)
    else
      HitShift(ms, primaryDomainLen, req);
      Resolve(ms[1..], primaryDomainLen, req)
  }

  /** The rules after the first are hit as they are in the tail. */
  lemma HitShift(ms: seq<MethodRule>, primaryDomainLen: nat, req: Request)
    requires ms != []
    ensures forall i :: 1 <= i < |ms| ==> MethodHit(ms, primaryDomainLen, req, i) == MethodHit(ms[1..], primaryDomainLen, req, i - 1)
    ensures forall k :: 0 <= k < |ms| - 1 ==> MethodHit(ms[1..], primaryDomainLen, req, k) == MethodHit(ms, primaryDomainLen, req, k + 1)
  {
    forall i | 1 <= i < |ms| ensures MethodHit(ms, primaryDomainLen, req, i) == MethodHit(ms[1..], primaryDomainLen, req, i - 1) {
      assert ms[i] == ms[1..][i - 1];
    }
  }

  /** Host resolution is first match: no result when no rule matches, and
      otherwise the endpoint and captures of the first rule that does. */
  lemma {:induction false} ResolveHostFirst(hs: seq<HostRule>, primaryDomainLen: nat, req: Request)
    ensures ResolveHost(hs, primaryDomainLen, req).None? <==>
              forall j :: 0 <= j < |hs| ==> HostPathMatch(hs[j].matcher, primaryDomainLen, req.host, req.path).None?
    ensures ResolveHost(hs, primaryDomainLen, req).Some? ==>
              exists j :: 0 <= j < |hs| && FirstHost(hs, primaryDomainLen, req, j) &&
                ResolveHost(hs, primaryDomainLen, req).value ==
                  (hs[j].endpoint, HostPathMatch(hs[j].matcher, primaryDomainLen, req.host, req.path).value)
    decreases |hs|
  {
    if hs != [] {
      if HostPathMatch(hs[0].matcher, primaryDomainLen, req.host, req.path).Some? {
        assert FirstHost(hs, primaryDomainLen, req, 0);
      } else {
        ResolveHostFirst(hs[1..], primaryDomainLen, req);
        assert forall j :: 1 <= j < |hs| ==> hs[j] == hs[1..][j - 1];
        if ResolveHost(hs, primaryDomainLen, req).Some? {
          var j :| 0 <= j < |hs[1..]| && FirstHost(hs[1..], primaryDomainLen, req, j) &&
                   ResolveHost(hs[1..], primaryDomainLen, req).value ==
                     (hs[1..][j].endpoint, HostPathMatch(hs[1..][j].matcher, primaryDomainLen, req.host, req.path).value);
          assert FirstHost(hs, primaryDomainLen, req, j + 1);
        }
      }
    }
  }

  /** Resolution is first match over the method rules: no result when no
      rule routes the request, and otherwise what the first rule that does
      resolves it to. */
  lemma {:induction false} ResolveFirstHit(ms: seq<MethodRule>, primaryDomainLen: nat, req: Request)
    ensures Resolve(ms, primaryDomainLen, req).Some? ==>
              exists i :: 0 <= i < |ms| && MethodHit(ms, primaryDomainLen, req, i) &&
                (forall i' :: 0 <= i' < i ==> !MethodHit(ms, primaryDomainLen, req, i')) &&
                Resolve(ms, primaryDomainLen, req) == ResolveHost(ms[i].rules, primaryDomainLen, req)
    decreases |ms|
  {
    if ms != [] && !MethodHit(ms, primaryDomainLen, req, 0) {
      ResolveFirstHit(ms[1..], primaryDomainLen, req);
      assert forall i :: 1 <= i < |ms| ==> ms[i] == ms[1..][i - 1];
      assert forall i :: 1 <= i < |ms| ==> MethodHit(ms, primaryDomainLen, req, i) == MethodHit(ms[1..], primaryDomainLen, req, i - 1);
      if Resolve(ms, primaryDomainLen, req).Some? {
        var i :| 0 <= i < |ms[1..]| && MethodHit(ms[1..], primaryDomainLen, req, i) &&
                 (forall i' :: 0 <= i' < i ==> !MethodHit(ms[1..], primaryDomainLen, req, i')) &&
                 Resolve(ms[1..], primaryDomainLen, req) == ResolveHost(ms[1..][i].rules, primaryDomainLen, req);
        assert MethodHit(ms, primaryDomainLen, req, i + 1);
      }
    }
  }

  /** The routes of a method that has an entry. */
  lemma RoutesAt(c: Cache, i: nat)
    requires CacheOk(c) && i < |c|
    ensures RoutesOf(c, c[i].0) == c[i].1 && RoutesOk(c[i].1)
  {
    GetAt(c, i);
  }

  /** Registering sets exactly the given route under the given method:
      every other route under every method keeps its pattern. */
  lemma LookupSetRoute(c: Cache, m: string, r: Route, toks: seq<Tok>, m2: string, r2: Route)
    ensures Lookup(SetRoute(c, m, r, toks), m2, r2) ==
              if m2 == m && r2 == r then Some(toks) else Lookup(c, m2, r2)
  {
    var rs := Put(RoutesOf(c, m), r, toks);
    GetPut(c, m, rs, m2);
    if m2 == m {
      GetPut(RoutesOf(c, m), r, toks, r2);
    }
  }

  /** The route order under the method is kept; a new route goes last and
      a route registered again keeps its place. */
  lemma SetRouteOrder(c: Cache, m: string, r: Route, toks: seq<Tok>)
    ensures Keys(RoutesOf(SetRoute(c, m, r, toks), m)) ==
              if r in Keys(RoutesOf(c, m)) then Keys(RoutesOf(c, m)) else Keys(RoutesOf(c, m)) + [r]
  {
    GetPut(c, m, Put(RoutesOf(c, m), r, toks), m);
    KeysPut(RoutesOf(c, m), r, toks);
  }

  /** Registering the same route twice is registering it once. */
  lemma SetRouteTwice(c: Cache, m: string, r: Route, toks: seq<Tok>)
    ensures SetRoute(SetRoute(c, m, r, toks), m, r, toks) == SetRoute(c, m, r, toks)
  {
    var rs := Put(RoutesOf(c, m), r, toks);
    GetPut(c, m, rs, m);
    PutOverwrite(RoutesOf(c, m), r, toks, toks);
    PutOverwrite(c, m, rs, rs);
  }

  /** A route added to well-formed routes with its compiled template keeps
      them well formed. */
  lemma PutRoutesOk(rs: Routes, r: Route, toks: seq<Tok>)
    requires RoutesOk(rs) && Compile(r.path) == Ok(toks)
    ensures RoutesOk(Put(rs, r, toks))
  {
    PutDistinct(rs, r, toks);
    PutMembers(rs, r, toks);
  }

  /** Registering a template with the pattern it compiles to keeps the
      table's invariant. */
  lemma SetRouteOk(c: Cache, m: string, r: Route, toks: seq<Tok>)
    requires CacheOk(c) && Compile(r.path) == Ok(toks)
    ensures CacheOk(SetRoute(c, m, r, toks))
  {
    RoutesOfOk(c, m);
    PutRoutesOk(RoutesOf(c, m), r, toks);
    PutCacheOk(c, m, Put(RoutesOf(c, m), r, toks));
  }

  /** The routes of any method in a table that keeps its invariant keep it. */
  lemma RoutesOfOk(c: Cache, m: string)
    requires CacheOk(c)
    ensures RoutesOk(RoutesOf(c, m))
  {
    if m in Keys(c) {
      var i :| 0 <= i < |c| && Keys(c)[i] == m;
      RoutesAt(c, i);
    } else {
      assert RoutesOk([]);
    }
  }

  /** Storing well-formed routes under a method keeps the invariant. */
  lemma PutCacheOk(c: Cache, m: string, rs: Routes)
    requires CacheOk(c) && RoutesOk(rs)
    ensures CacheOk(Put(c, m, rs))
  {
    if m in Keys(c) {
      var i :| 0 <= i < |c| && Keys(c)[i] == m;
      PutAt(c, m, rs, i);
    } else {
      PutNew(c, m, rs);
      forall i | 0 <= i < |c| ensures c[i].0 != m {
        assert Keys(c)[i] == c[i].0;
      }
    }
    PutDistinct(c, m, rs);
  }

  /** Unregistering keeps the table's invariant. */
  lemma RemoveRouteOk(c: Cache, m: string, r: Route)
    requires CacheOk(c)
    ensures CacheOk(RemoveRoute(c, m, r))
  {
    if m in Keys(c) {
      var i :| 0 <= i < |c| && Keys(c)[i] == m;
      RoutesAt(c, i);
      RemoveDistinct(c[i].1, r);
      PutAt(c, m, Remove(c[i].1, r), i);
      PutDistinct(c, m, Remove(c[i].1, r));
    }
  }

  /** Unregistering removes exactly the given route under the given method. */
  lemma LookupRemoveRoute(c: Cache, m: string, r: Route, m2: string, r2: Route)
    requires CacheOk(c)
    ensures Lookup(RemoveRoute(c, m, r), m2, r2) ==
              if m2 == m && r2 == r then None else Lookup(c, m2, r2)
  {
    if m in Keys(c) {
      var i :| 0 <= i < |c| && Keys(c)[i] == m;
      RoutesAt(c, i);
      GetPut(c, m, Remove(c[i].1, r), m2);
      if m2 == m {
        GetRemove(c[i].1, r, r2);
      }
    }
  }

  /** Unregistering a route that is not in the table, under a method that
      has an entry or not, changes nothing and creates no entry. */
  lemma RemoveRouteAbsent(c: Cache, m: string, r: Route)
    requires CacheOk(c) && Lookup(c, m, r).None?
    ensures RemoveRoute(c, m, r) == c
  {
    if m in Keys(c) {
      var i :| 0 <= i < |c| && Keys(c)[i] == m;
      RoutesAt(c, i);
      RemoveAbsent(c[i].1, r);
      PutSame(c, i);
    }
  }

  /** Unregistering a route just registered as new gives the table back,
      except that a method entry the registration created stays, empty. */
  lemma RemoveSetRoute(c: Cache, m: string, r: Route, toks: seq<Tok>)
    requires CacheOk(c) && Lookup(c, m, r).None?
    ensures RemoveRoute(SetRoute(c, m, r, toks), m, r) ==
              if m in Keys(c) then c else c + [(m, [])]
  {
    var rs := Put(RoutesOf(c, m), r, toks);
    GetPut(c, m, rs, m);
    KeysPut(c, m, rs);
    assert m in Keys(SetRoute(c, m, r, toks));
    RemovePut(RoutesOf(c, m), r, toks);
    PutOverwrite(c, m, rs, RoutesOf(c, m));
    if m in Keys(c) {
      var i :| 0 <= i < |c| && Keys(c)[i] == m;
      RoutesAt(c, i);
      PutSame(c, i);
    } else {
      PutNew(c, m, []);
    }
  }

  /** The rules of a table with one more method entry at the end. */
  lemma RulesAppend(c: Cache, e: (string, Routes))
    ensures Rules(c + [e]) == Rules(c) + [MethodRuleOf(e)]
  {
  }

  /** The rules of one method with one more route at the end. */
  lemma HostRulesAppend(rs: Routes, e: (Route, seq<Tok>))
    ensures HostRules(rs + [e]) == HostRules(rs) + [HostRuleOf(e)]
  {
  }

  /** A host-and-path rule added after the one that wins does not change
      the winner. */
  lemma {:induction false} ResolveHostKeeps(hs: seq<HostRule>, h: HostRule, primaryDomainLen: nat, req: Request)
    requires ResolveHost(hs, primaryDomainLen, req).Some?
    ensures ResolveHost(hs + [h], primaryDomainLen, req) == ResolveHost(hs, primaryDomainLen, req)
    decreases |hs|
  {
    var hs' := hs + [h];
    assert hs'[0] == hs[0];
    if HostPathMatch(hs[0].matcher, primaryDomainLen, req.host, req.path).None? {
      assert hs'[1..] == hs[1..] + [h];
      ResolveHostKeeps(hs[1..], h, primaryDomainLen, req);
    }
  }

  /** Resolution returns the host match of the first method rule that
      routes the request. */
  lemma {:induction false} ResolveFirst(ms: seq<MethodRule>, primaryDomainLen: nat, req: Request, i: nat)
    requires i < |ms| && MethodHit(ms, primaryDomainLen, req, i)
    requires forall i' :: 0 <= i' < i ==> !MethodHit(ms, primaryDomainLen, req, i')
    ensures Resolve(ms, primaryDomainLen, req) == ResolveHost(ms[i].rules, primaryDomainLen, req)
  {
    if i > 0 {
      assert !MethodHit(ms, primaryDomainLen, req, 0);
      assert forall k :: 0 <= k < |ms| - 1 ==> ms[1..][k] == ms[k + 1];
      assert forall k :: 0 <= k < |ms| - 1 ==> MethodHit(ms[1..], primaryDomainLen, req, k) == MethodHit(ms, primaryDomainLen, req, k + 1);
      ResolveFirst(ms[1..], primaryDomainLen, req, i - 1);
    }
  }

  /** A method rule added after all others does not change the resolution
      of a request that resolves. */
  lemma {:induction false} ResolveAppend(ms: seq<MethodRule>, x: MethodRule, primaryDomainLen: nat, req: Request)
    requires Resolve(ms, primaryDomainLen, req).Some?
    ensures Resolve(ms + [x], primaryDomainLen, req) == Resolve(ms, primaryDomainLen, req)
    decreases |ms|
  {
    var ms' := ms + [x];
    assert ms'[0] == ms[0];
    if !MethodHit(ms, primaryDomainLen, req, 0) {
      assert ms'[1..] == ms[1..] + [x];
      ResolveAppend(ms[1..], x, primaryDomainLen, req);
    }
  }

  /** The method of rule `i`, when it matches, is matched by no other rule. */
  predicate MatchesAlone(ms: seq<MethodRule>, i: nat, requestMethod: string)
    requires i < |ms|
  {
    MethodMatch(ms[i].matcher, requestMethod).Some? ==>
      forall k :: 0 <= k < |ms| && k != i ==> MethodMatch(ms[k].matcher, requestMethod).None?
  }

  /**
   * Replacing a method rule by one with the same method whose host rules
   * resolve the request as the old ones did whenever those did leaves the
   * resolution of a request that resolves unchanged, provided no other rule
   * has the replaced rule's method.
   */
  lemma {:induction false} ResolveUpdate(ms: seq<MethodRule>, i: nat, x: MethodRule, primaryDomainLen: nat, req: Request)
    requires i < |ms| && Resolve(ms, primaryDomainLen, req).Some?
    requires x.matcher == ms[i].matcher && MatchesAlone(ms, i, req.httpMethod)
    requires ResolveHost(ms[i].rules, primaryDomainLen, req).Some? ==>
               ResolveHost(x.rules, primaryDomainLen, req) == ResolveHost(ms[i].rules, primaryDomainLen, req)
    ensures Resolve(ms[i := x], primaryDomainLen, req) == Resolve(ms, primaryDomainLen, req)
    decreases |ms|
  {
    var ms' := ms[i := x];
    if i == 0 {
      assert ms'[1..] == ms[1..];
      ResolveFirstHit(ms[1..], primaryDomainLen, req);
      assert forall k :: 0 <= k < |ms| - 1 ==> ms[1..][k] == ms[k + 1];
    } else {
      assert ms'[0] == ms[0];
      if !MethodHit(ms, primaryDomainLen, req, 0) {
        assert ms'[1..] == ms[1..][i - 1 := x];
        assert Resolve(ms, primaryDomainLen, req) == Resolve(ms[1..], primaryDomainLen, req);
        assert ms[1..][i - 1] == ms[i];
        assert forall k :: 0 <= k < |ms| - 1 ==> ms[1..][k] == ms[k + 1];
        assert MatchesAlone(ms[1..], i - 1, req.httpMethod);
        ResolveUpdate(ms[1..], i - 1, x, primaryDomainLen, req);
      }
    }
  }


  /** No other method entry differs from `m` only in letter case. */
  predicate CaseUnique(c: Cache, m: string)
  {
    forall i :: 0 <= i < |c| && Upper(c[i].0) == Upper(m) ==> c[i].0 == m
  }

  /** Under `CaseUnique`, the rule of the entry of `m` matches the request
      method alone. */
  lemma EntryMatchesAlone(c: Cache, m: string, i: nat, requestMethod: string)
    requires DistinctKeys(c) && CaseUnique(c, m) && i < |c| && c[i].0 == m
    ensures MatchesAlone(Rules(c), i, requestMethod)
  {
  }

  /** Registering a route again with its compiled template changes nothing:
      the table already holds that pattern for it. */
  lemma SetRouteSame(c: Cache, m: string, r: Route, toks: seq<Tok>)
    requires CacheOk(c) && Compile(r.path) == Ok(toks) && Lookup(c, m, r).Some?
    ensures SetRoute(c, m, r, toks) == c
  {
    var i :| 0 <= i < |c| && Keys(c)[i] == m;
    RoutesAt(c, i);
    var rs := c[i].1;
    var j :| 0 <= j < |rs| && Keys(rs)[j] == r;
    assert rs[j] in rs;
    PutSame(rs, j);
    PutSame(c, i);
  }

  /** A new route under a method that has an entry changes only that
      entry's rule, which gets one more host rule at the end. */
  lemma RulesSetRouteAt(c: Cache, m: string, r: Route, toks: seq<Tok>, i: nat)
    requires CacheOk(c) && Lookup(c, m, r).None? && i < |c| && Keys(c)[i] == m
    ensures Rules(SetRoute(c, m, r, toks)) == Rules(c)[i := MethodRuleOf((m, c[i].1 + [(r, toks)]))]
  {
    RoutesAt(c, i);
    var rs := c[i].1;
    GetAt(c, i);
    PutNew(rs, r, toks);
    PutAt(c, m, rs + [(r, toks)], i);
  }

  /**
   * Order stability: registering a route leaves the resolution of every
   * request that already resolved unchanged, however many routes are
   * registered, because a new route goes after all routes of its method,
   * a new method after all methods, and a route registered again changes
   * nothing.  The condition on letter case is needed: a route registered
   * under `get` sits in another entry than one under `GET`, and an earlier
   * entry can then take requests from a later one.
   */
  lemma RegisterKeepsResolution(c: Cache, m: string, r: Route, toks: seq<Tok>, primaryDomainLen: nat, req: Request)
    requires CacheOk(c) && Compile(r.path) == Ok(toks) && CaseUnique(c, m)
    requires Resolve(Rules(c), primaryDomainLen, req).Some?
    ensures Resolve(Rules(SetRoute(c, m, r, toks)), primaryDomainLen, req) == Resolve(Rules(c), primaryDomainLen, req)
  {
    if Lookup(c, m, r).Some? {
      SetRouteSame(c, m, r, toks);
    } else if m in Keys(c) {
      var i :| 0 <= i < |c| && Keys(c)[i] == m;
      RulesSetRouteAt(c, m, r, toks, i);
      var x := MethodRuleOf((m, c[i].1 + [(r, toks)]));
      HostRulesAppend(c[i].1, (r, toks));
      EntryMatchesAlone(c, m, i, req.httpMethod);
      if ResolveHost(HostRules(c[i].1), primaryDomainLen, req).Some? {
        ResolveHostKeeps(HostRules(c[i].1), HostRuleOf((r, toks)), primaryDomainLen, req);
      }
      ResolveUpdate(Rules(c), i, x, primaryDomainLen, req);
    } else {
      PutNew(c, m, [(r, toks)]);
      RulesAppend(c, (m, [(r, toks)]));
      ResolveAppend(Rules(c), MethodRuleOf((m, [(r, toks)])), primaryDomainLen, req);
    }
  }

  /** The bound names, one per binding, in order. */
  lemma {:induction false} NamesAt(b: Bindings)
    ensures |Names(b)| == |b|
    ensures forall k :: 0 <= k < |b| ==> Names(b)[k] == b[k].0
  {
    if b != [] {
      NamesAt(b[1..]);
    }
  }

  /** `CustomRouter.find_handler` on the first matching rule: the rule's
      endpoint and its captures with every value decoded. */
  function FindHandler<W>(ms: seq<MethodRule>, primaryDomainLen: nat, req: Request, decode: string -> W): (r: Option<(string, seq<(string, Option<W>)>)>)
    ensures r.None? <==> forall i :: 0 <= i < |ms| ==> !MethodHit(ms, primaryDomainLen, req, i)
  {
    match Resolve(ms, primaryDomainLen, req)
    case None => None
    case Some((endpoint, b)) => Some((endpoint, DecodeValues(b, decode)))
  }

  /**
   * End to end: a request the table's rules dispatch reaches the endpoint of
   * a registered route whose method upper-cases to the request's method,
   * whose host is the request's tenant and whose template compiles to a
   * pattern accepting the path; the endpoint receives exactly the
   * template's capture names, in template order.
   */
  lemma HandlerParams<W>(c: Cache, primaryDomainLen: nat, req: Request, decode: string -> W)
    requires CacheOk(c) && FindHandler(Rules(c), primaryDomainLen, req, decode).Some?
    ensures exists i, j :: 0 <= i < |c| && 0 <= j < |c[i].1| &&
              var (route, toks) := c[i].1[j];
              var (endpoint, params) := FindHandler(Rules(c), primaryDomainLen, req, decode).value;
              && req.httpMethod == Upper(c[i].0)
              && TenantOf(req.host, primaryDomainLen) == route.host
              && Compile(route.path) == Ok(toks) && Accepts(toks, req.path)
              && endpoint == route.endpoint
              && |params| == |Captures(toks)|
              && forall k :: 0 <= k < |params| ==> params[k].0 == Captures(toks)[k]
  {
    var i, j := ResolvedRoute(c, primaryDomainLen, req);
    var (route, toks) := c[i].1[j];
    var m := HostPathMatcher(route.host, toks);
    HostPathMatchSound(m, primaryDomainLen, req.host, req.path);
    HostPathMatchAccepts(m, primaryDomainLen, req.host, req.path);
    var b := HostPathMatch(m, primaryDomainLen, req.host, req.path).value;
    NamesAt(b);
    RoutesAt(c, i);
    assert c[i].1[j] in c[i].1;
    var (endpoint, params) := FindHandler(Rules(c), primaryDomainLen, req, decode).value;
    assert endpoint == route.endpoint && params == DecodeValues(b, decode);
  }

  /** A request that resolves goes to route `j` of method entry `i`, whose
      method rule matches the request's method and whose host rule matches
      the request. */
  lemma ResolvedRoute(c: Cache, primaryDomainLen: nat, req: Request) returns (i: nat, j: nat)
    requires Resolve(Rules(c), primaryDomainLen, req).Some?
    ensures i < |c| && j < |c[i].1|
    ensures req.httpMethod == Upper(c[i].0)
    ensures HostPathMatch(HostPathMatcher(c[i].1[j].0.host, c[i].1[j].1), primaryDomainLen, req.host, req.path).Some?
    ensures Resolve(Rules(c), primaryDomainLen, req) ==
              Some((c[i].1[j].0.endpoint,
                    HostPathMatch(HostPathMatcher(c[i].1[j].0.host, c[i].1[j].1), primaryDomainLen, req.host, req.path).value))
  {
    var ms := Rules(c);
    ResolveFirstHit(ms, primaryDomainLen, req);
    i :| 0 <= i < |ms| && MethodHit(ms, primaryDomainLen, req, i) &&
         Resolve(ms, primaryDomainLen, req) == ResolveHost(ms[i].rules, primaryDomainLen, req);
    MethodMatchUpper(c[i].0, req.httpMethod);
    var hs := ms[i].rules;
    ResolveHostFirst(hs, primaryDomainLen, req);
    j :| 0 <= j < |hs| && FirstHost(hs, primaryDomainLen, req, j) &&
         ResolveHost(hs, primaryDomainLen, req).value ==
           (hs[j].endpoint, HostPathMatch(hs[j].matcher, primaryDomainLen, req.host, req.path).value);
    assert hs[j] == HostRuleOf(c[i].1[j]);
  }
}
