# Tenant HTTP router: path templates and routing table

This project models the request router of a multi-tenant HTTP gateway, in
Dafny. Tenants register routes: a host, an HTTP method, a path template
such as `/user/:id` or `/files/*`, and an endpoint. The gateway resolves
each request to an endpoint and hands it the values captured from the path.

The model has two parts.

- **Path templates** (`template.dfy`, `template_props.dfy`,
  `template_laws.dfy`, `path_match.dfy`). `build_match_regex` scans a
  template and emits a regular expression. The model emits the token
  sequence that expression is made of: a literal character, a variable
  (`/:name`) or the wildcard. It rejects malformed templates with a reason.
  What a compiled template matches is defined twice over the tokens:
  - `Spells`, a relation that says how a path may be cut along the template;
  - `Search`, the greedy depth-first search a backtracking regex engine
    performs, which also fixes the captured values.

  The two are proved to accept the same paths. The scanner is a `while` loop
  proved equal to a recursive definition. After the loop, Python's
  regular-expression compiler refuses a group name that starts with a digit
  (`/:1`, `/:2fa`); the model rejects such a template as `BadGroupName`.
- **Routing table** (`matchers.dfy`, `route_table.dfy`, `router.dfy`).
  - The method matcher and the tenant host-and-path matcher.
  - The decoding of captured values.
  - The `Router` object, whose cache maps each method to its routes in
    insertion order. `register` and `unregister` update the cache in place.
    `_rebuild` loops over the cache to rebuild the rules and writes the
    cache to the routes file.
  - Request resolution over the rebuilt rules: the first method rule whose
    method matches and one of whose host rules matches wins.

`routing_rows.dfy` states rows of the unit-test tables on the model. It also
states a few templates beyond those tables:
- names that start with a digit;
- a request under another tenant's host;
- a template on which the match does not give back the values a path was
  made from.

Matching does not invert substitution. `PathMatch.SearchComplete` proves
that the search succeeds whenever some cut of the path exists. It does not
prove that the search returns that cut. A variable or wildcard takes the
longest value after which the rest still matches, so the values can move
between captures. With `/:a-*`, putting `x` for `a` and `y-z` for the
wildcard gives `/x-y-z`. The match of `/x-y-z` binds `a` to `x-y` and the
wildcard to `z` (`PathMatch.GreedyNotInverse`).

Python dictionaries are modelled as association lists (`OrderedMap`):
- an update keeps a key's position;
- a new key goes last;
- `pop` removes a key.

`Config.PRIMARY_DOMAIN_LEN` is the parameter `primaryDomainLen`. A host no
longer than the platform suffix gives the empty tenant, by Python slicing.
It therefore matches routes registered with the empty host, not nothing
(`Matchers.ShortHost`).

## Model

| member | source | states |
|---|---|---|
| PathTemplate.TokenAt | app/Router.py:16-20 | the token expression at a position is a maximal `*` run (tried first) or `/:` plus a maximal name run, and never a literal |
| PathTemplate.TokenAtSpan | app/Router.py:16-20 | a wildcard token spans only `*` and cannot be extended; a variable token is `/:` and name characters, and no name character follows it; with no token, the character is not `*` |
| PathTemplate.StarRunMaximal | app/Router.py:18 | the star run is all `*` and maximal |
| PathTemplate.NameRunMaximal | app/Router.py:19 | the name run is all `[a-zA-Z0-9_]` and maximal |
| PathTemplate.ReservedIffLower | app/Router.py:75-76 | a name is reserved exactly when its lower-cased form is `wildcard` |
| PathTemplate.BuildMatchRegex | app/Router.py:33-84 | the scanning loop, with its parts list, used-name set and wildcard flag, followed by the group-name check of `re.compile`, returns exactly the compiled form: the error for a template with no leading `/`, and a well-formed token sequence on success |
| PathTemplate.Compile | app/Router.py:51-84 | a template with no leading `/` is rejected for it; every compiled template is well formed: it starts with `/` or a variable, has no literal space, `:` or `*`, has non-empty, unreserved, distinct names none of which starts with a digit, at most one wildcard and none right after a variable |
| PathTemplate.FirstBadName | app/Router.py:84 | no name is reported exactly when every name is a group name; a reported name is one of the names and not a group name |
| TemplateLaws.CompileRender | app/Router.py:54-84 | completeness: every well-formed token sequence is the compilation of its own text followed by `/` |
| TemplateLaws.CompileRenderBare | app/Router.py:54-84 | a well-formed token sequence not ending in a literal `/` is also the compilation of its own text without a trailing `/` |
| TemplateProps.CompileCaptures | app/Router.py:45-84 | on success the captured names are all distinct, and `wildcard` is among them exactly when the template has a wildcard |
| TemplateProps.CompileChars | app/Router.py:51-59 | a template that compiles has no space, and each `:` in it directly follows a `/` and precedes a name character |
| TemplateProps.TrailingSlash | app/Router.py:60-61 | a template and the same template with a `/` appended compile to the same tokens |
| TemplateProps.CompileSpelling | app/Router.py:54-84 | soundness of the compiler: the tokens of a compiled template spell the template back, once each run of `*` is collapsed to one, up to the dropped final `/` |
| TemplateProps.CompileWildcard | app/Router.py:66-72 | a compiled template has a wildcard token, and binds `wildcard`, exactly when the template contains `*` |
| PathMatch.Search | app/Router.py:39-43 | a match binds exactly the template's capture names, in template order |
| PathMatch.SearchSound | app/Router.py:39-43 | what the greedy search returns is a valid cut of the path along the template |
| PathMatch.SearchComplete | app/Router.py:84 | whenever some cut of the path exists, the search finds a match |
| PathMatch.SearchAccepts | app/Router.py:84 | the search succeeds exactly when the anchored pattern accepts the path, including the optional trailing `/` |
| PathMatch.SpellsNames | app/Router.py:39-43 | every cut binds exactly the template's capture names, in template order |
| PathMatch.MatchBindings | app/Router.py:39-43 | a match binds every capture name once, in order: variables to non-empty values without `/`, the wildcard to a non-empty value or `None` |
| PathMatch.GreedyVar | app/Router.py:40 | a leading variable captures at least as much as in any other cut of the path |
| PathMatch.GreedyWild | app/Router.py:43 | a leading wildcard captures at least as much as in any other cut of the path |
| PathMatch.TryVarLongest | app/Router.py:40 | a variable gives back characters only when no longer value lets the rest match |
| PathMatch.TryWildLongest | app/Router.py:43 | the wildcard gives back characters only when no longer value lets the rest match |
| PathMatch.VarBackStep | app/Router.py:40 | a variable keeps the longest value after which the rest of the template matches |
| PathMatch.GreedyNotInverse | app/Router.py:39-43 | matching is not the inverse of substitution: for `/:a-*`, the path `/x-y-z` is a cut with `a`=`x` and wildcard `y-z`, while the search binds `a`=`x-y` and wildcard `z` |
| Matchers.NewMethodMatcher | app/Router.py:101-102 | the stored method is the given method with each letter upper-cased |
| Matchers.MethodMatch | app/Router.py:104-108 | a matching method yields no parameters |
| Matchers.MethodMatchUpper | app/Router.py:101-108 | a method matcher accepts exactly the upper-cased method; `get` and `GET` build the same matcher; a request method with a lower-case letter never matches |
| Matchers.DropLast | app/Router.py:119 | Python `host[:-k]`: a prefix of the host that is `k` characters shorter, or empty when the host is not longer than `k` |
| Matchers.TenantOfHost | app/Router.py:118-119 | a tenant followed by a suffix of the platform's length gives back that tenant, and a host no longer than the suffix gives the empty tenant |
| Matchers.HostPathMatch | app/Router.py:117-122 | no match for a request of another tenant, whatever its path |
| Matchers.HostPathMatchAccepts | app/Router.py:117-122 | a match exactly when the host is the tenant's and the template accepts the path |
| Matchers.HostPathMatchSound | app/Router.py:117-122 | a match is a cut of the path binding every capture name of the template once, in order |
| Matchers.HostIsolation | app/Router.py:117-122 | a request for one tenant never matches another tenant's route |
| Matchers.ShortHost | app/Router.py:119 | a host too short for the suffix matches only routes registered with the empty host |
| Matchers.DecodeValues | app/Router.py:23-30 | every key is kept in order, `None` stays `None`, and every other value is decoded |
| OrderedMap.GetPut | app/Router.py:149-150 | after an update, the key reads the new value and every other key reads what it did |
| OrderedMap.KeysPut | app/Router.py:149-150 | an update keeps the key order; a new key goes last |
| OrderedMap.GetRemove | app/Router.py:154-155 | after `pop`, the key is absent and every other key reads what it did |
| OrderedMap.RemoveAbsent | app/Router.py:154-155 | popping an absent key changes nothing |
| RouteTable.SetRoute | app/Router.py:149-150 | after registering, the route under the method as passed holds the new pattern; the method order is kept and a new method goes last |
| RouteTable.RemoveRoute | app/Router.py:154-155 | unregistering creates no method entry and removes none; with distinct routes, the route is gone from its method |
| RouteTable.Rules | app/Router.py:160-169 | one method rule per cache entry, in cache order, matching the upper-cased method, with one host rule per route of that entry |
| RouteTable.Resolve | app/Router.py:160-172 | a request resolves to nothing exactly when no method rule both matches its method and has a host rule matching it |
| RouteTable.LookupSetRoute | app/Router.py:149-150 | registering sets exactly the given route under the method as passed; every other route under every method is untouched |
| RouteTable.SetRouteOrder | app/Router.py:149-150 | the route order under the method is kept; a new route goes last, and a route registered again keeps its place |
| RouteTable.SetRouteTwice | app/Router.py:149-150 | registering the same route twice is registering it once |
| RouteTable.SetRouteSame | app/Router.py:149-150 | registering a stored route again with its compiled template changes nothing |
| RouteTable.SetRouteOk | app/Router.py:141-150 | registering a template with its compiled pattern keeps the table invariant: distinct methods, distinct routes, each pattern its template compiled |
| RouteTable.RemoveRouteOk | app/Router.py:153-155 | unregistering keeps the table invariant |
| RouteTable.LookupRemoveRoute | app/Router.py:153-155 | unregistering removes exactly the given route under the given method and nothing else |
| RouteTable.RemoveRouteAbsent | app/Router.py:153-155 | unregistering an absent route, or one under a method with no entry, changes nothing and creates no entry |
| RouteTable.RemoveSetRoute | app/Router.py:141-155 | unregistering a route just registered as new gives the table back, except that a method entry the registration created stays, empty |
| RouteTable.ResolveHostFirst | app/Router.py:162-167 | host resolution is first match: no result when no host rule matches, otherwise the endpoint and captures of the first rule that does |
| RouteTable.ResolveFirstHit | app/Router.py:160-172 | request resolution is first match over the method rules: a result is that of the first rule that routes the request |
| RouteTable.ResolveFirst | app/Router.py:160-172 | the first method rule that routes a request decides its resolution |
| RouteTable.ResolveHostKeeps | app/Router.py:162-167 | a host rule added after the winning one does not change the winner |
| RouteTable.ResolveAppend | app/Router.py:160-172 | a method rule added after all others does not change any resolution that existed |
| RouteTable.ResolveUpdate | app/Router.py:160-172 | replacing the only rule of a method by one whose host rules resolve alike, wherever the old ones resolved, changes no existing resolution |
| RouteTable.RegisterKeepsResolution | app/Router.py:141-172 | registering a route never changes where an already routed request goes, unless another method entry differs from this one only in letter case |
| RouteTable.FindHandler | app/Router.py:91-95 | no handler exactly when no method rule routes the request |
| RouteTable.HandlerParams | app/Router.py:91-122 | a request that reaches an endpoint reaches the endpoint of a registered route that: has a method upper-casing to the request's method; has the request's tenant as host; has a template that compiles to a pattern accepting the path. The endpoint receives exactly the template's capture names, in order |
| Routing.Router.constructor | app/Router.py:129-139 | with no routes file, an empty table; otherwise the file's cache with its rules rebuilt, so a restarted router routes as the router that wrote the file |
| Routing.Router.Register | app/Router.py:141-151 | a malformed template leaves the cache, rules and file unchanged. A valid one sets the route under the method as passed, rebuilds the rules and writes the cache. With no other method entry differing only in case, every request routed before is routed the same way after |
| Routing.Router.Unregister | app/Router.py:153-156 | the route is removed from its method's routes, with no entry created for an unknown method; the rules are rebuilt and the cache written |
| Routing.Router.Rebuild | app/Router.py:158-177 | the loop builds one method rule per cache entry in cache order, each with one host rule per route in route order; the file then holds the cache |
| RoutingRows.RejectedWithoutSlash | tests/unit/routing.py:66-78 | `""`, `*/*`, `path_wild_no_forward_slash` and `:path_var_with_no_forward_slash` are rejected for lacking a leading `/`, and so are `****/` and `*/:b/50/` |
| RoutingRows.RejectedReserved | tests/unit/routing.py:71 | `/:wildcard` is rejected as a reserved name |
| RoutingRows.RejectedDuplicate | tests/unit/routing.py:70 | `/:a/:b/:a` is rejected for using `a` twice |
| RoutingRows.RejectedWildAfterVar | tests/unit/routing.py:69 | `/:from*/` is rejected for a wildcard right after a variable |
| RoutingRows.RejectedSecondWild | tests/unit/routing.py:67 | `/:from/*/:id/*/:var` is rejected for a second wildcard |
| RoutingRows.RejectedDigitName | app/Router.py:84 | `/:1` passes the scan as the variable `1`, and compiling the expression rejects it as a bad group name |
| RoutingRows.RejectedDigitTwice | app/Router.py:77-78 | `/:1/:1` is rejected for using `1` twice: the scan fails before the group names are looked at |
| RoutingRows.CompiledSourcePageC | tests/unit/routing.py:25 | `/source/page/:c/` compiles to the literals of `/source/page` and the variable `c`, with the final `/` dropped |
| RoutingRows.RowSourcePageC | tests/unit/routing.py:25 | `/source/page/:c/` on `/source/page/50` binds `c`=`50` |
| RoutingRows.RowWildC | tests/unit/routing.py:41-42 | `/*/:c` on `/source/page/50` binds `wildcard`=`source/page` and `c`=`50` |
| RoutingRows.RowGreedyValues | app/Router.py:39-43 | `/:a-*` compiles, and on `/x-y-z` binds `a`=`x-y` and `wildcard`=`z` |
| RoutingRows.RowFromWildId | tests/unit/routing.py:39-40 | `/:from/*/:id` on `/source/page/50` binds `from`=`source`, `wildcard`=`page`, `id`=`50` |
| RoutingRows.RowWildOnRoot | tests/unit/routing.py:31 | `/*` on `/` binds the wildcard to `None` |
| RoutingRows.RowFromWildOnRandom | tests/unit/routing.py:37-38 | `/:from/*` on `/random/` binds `from`=`random` and the wildcard to `None` |
| RoutingRows.RowOtherTenant | app/Router.py:119-120 | host isolation on a concrete request: a request for `/source/page/50` under the host of tenant `bar` does not match the route of tenant `foo.asyncyapp.com` |

## Left out

- The rule-routing framework the table is handed to (`RuleRouter`,
  `PathMatches`, `Rule`) is not part of this model. Its first-match
  dispatch is stated as `RouteTable.Resolve` and is assumed, not derived.
- `Resolve` takes the bindings that the template match produces. URL
  unescaping of captured values and positional `path_args` are not modelled.
- `RouteTable.FindHandler` takes the decoding of captured bytes (UTF-8 in
  the source) as a parameter. Decoding errors are not modelled.
- Literal characters stand for themselves. Regex metacharacters among them
  (`.`, `?`, `+`, `(`) would change the compiled pattern or make `re.compile`
  raise `re.error`, which `register` does not catch. The model does neither.
- `PathMatch.Search` omits one quirk of Python's `$`: it also matches before
  a final newline. A path ending in `"\n"` is treated as not matching.
- `Matchers.Upper` and `PathTemplate.Lower` change case for ASCII letters
  only. `str.upper` also maps other letters, which can change the length
  (`ß` becomes `SS`).
- The routes file and its pickle encoding are represented by content only.
  The constructor takes the loaded content (`None` when the file is absent),
  and the ghost field `persisted` stands for what `_rebuild` writes.
  File-system errors and corrupt files are not modelled.
- `Routing.Router.constructor` requires the file to hold a valid table.
  That is what an earlier router writes. The source neither checks it nor
  recompiles templates at load.
- `RouteTable.RegisterKeepsResolution` requires that no other method entry
  differs from the registered method only in letter case. The cache key is
  the method as passed. Without this condition an earlier entry (`get`) can
  take requests from a later one (`GET`).
- Routing.Router.Register: a variable name that starts with a digit makes
  `re.compile` raise `re.error`. `register` catches only `ValueError`, so
  the exception leaves `register` instead of being logged. The model
  returns `BadGroupName` with the cache, rules and file unchanged, as the
  exception leaves them.
- Logging is not modelled.
- Concurrency is not modelled; the router runs on a single event loop.
- `app/main.py` (command-line options, application wiring, error
  reporting) is not part of this model.
- `setup.py` (packaging) is not part of this model.
- `Config` is not part of this model. `PRIMARY_DOMAIN_LEN` is the
  parameter `primaryDomainLen`.

## Where the code and the unit tests disagree

The test table of matching templates lists `****/` and `*/:b/50/` with
expected matches (tests/unit/routing.py:33, 43). The code rejects every
template whose first character is not `/` (app/Router.py:51-52). The model
follows the code, and `RoutingRows.RejectedWithoutSlash` states both
rejections.
