/**
 * The request matchers the router composes: the method matcher, which
 * keeps the registered method in upper case and compares it with the
 * request's method, and the host-and-path matcher, which cuts the shared
 * platform suffix off the request host, compares the rest with the
 * tenant's host and then matches the path against the compiled template.
 * Also the decoding of captured values handed to the endpoint.
 */
module Matchers {
  import opened PathTemplate
  import opened PathMatch

  /** ASCII upper-casing, which is what `str.upper` does on ASCII text. */
  function UpperChar(c: char): char
  {
    if 'a' <= c <= 'z' then (c as int - 'a' as int + 'A' as int) as char else c
  }

  /** `str.upper` on ASCII text. */
  function Upper(s: string): (r: string)
    ensures |r| == |s|
    ensures forall i :: 0 <= i < |s| ==> r[i] == UpperChar(s[i])
  {
    if s == [] then [] else [UpperChar(s[0])] + Upper(s[1..])
  }

  /** An upper-cased method has no lower-case letter, and upper-casing it
      again changes nothing. */
  lemma UpperIsUpper(s: string)
    ensures forall i :: 0 <= i < |Upper(s)| ==> !('a' <= Upper(s)[i] <= 'z')
    ensures Upper(Upper(s)) == Upper(s)
  {
  }

  /** `MethodMatches`: the method given at construction, upper-cased. */
  datatype MethodMatcher = MethodMatcher(httpMethod: string)

  /** `MethodMatches.__init__`. */
  function NewMethodMatcher(httpMethod: string): (m: MethodMatcher)
    ensures |m.httpMethod| == |httpMethod|
    ensures forall i :: 0 <= i < |httpMethod| ==> m.httpMethod[i] == UpperChar(httpMethod[i])
  {
    MethodMatcher(Upper(httpMethod))
  }

  /** `MethodMatches.match`: no parameters when the request's method is
      exactly the stored one, no match otherwise. */
  function MethodMatch(m: MethodMatcher, requestMethod: string): (r: Option<Bindings>)
    ensures r.Some? ==> r.value == []
  {
    if requestMethod == m.httpMethod then Some([]) else None
  }

  /** A method matcher accepts exactly the upper-cased form of the method
      it was built from: registering `get` and `GET` matches the same
      requests, and a request method with a lower-case letter never
      matches. */
  lemma MethodMatchUpper(httpMethod: string, requestMethod: string)
    ensures MethodMatch(NewMethodMatcher(httpMethod), requestMethod).Some? <==> requestMethod == Upper(httpMethod)
    ensures NewMethodMatcher(Upper(httpMethod)) == NewMethodMatcher(httpMethod)
    ensures (exists i :: 0 <= i < |requestMethod| && 'a' <= requestMethod[i] <= 'z') ==>
              MethodMatch(NewMethodMatcher(httpMethod), requestMethod).None?
  {
    UpperIsUpper(httpMethod);
  }

  /** Python's `host[:-k]` for `k >= 1`: the host without its last `k`
      characters, or the empty string when it is not longer than `k`. */
  function DropLast(host: string, k: nat): (r: string)
    requires k >= 1
    ensures |r| == if |host| >= k then |host| - k else 0
    ensures r <= host
  {
    if |host| >= k then host[..|host| - k] else ""
  }

  /** The tenant part of a request host: the host without the platform's
      primary domain (`primaryDomainLen` characters) and the dot before it. */
  function TenantOf(host: string, primaryDomainLen: nat): string
  {
    DropLast(host, primaryDomainLen + 1)
  }

  /** A host made of a tenant and a suffix of the platform's length has
      that tenant, and a host no longer than the suffix has the empty
      tenant. */
  lemma TenantOfHost(tenant: string, suffix: string, primaryDomainLen: nat)
    ensures |suffix| == primaryDomainLen + 1 ==> TenantOf(tenant + suffix, primaryDomainLen) == tenant
    ensures |tenant + suffix| <= primaryDomainLen + 1 ==> TenantOf(tenant + suffix, primaryDomainLen) == ""
  {
    if |suffix| == primaryDomainLen + 1 {
      assert (tenant + suffix)[..|tenant|] == tenant;
    }
  }

  /** `HostAndPathMatches`: the tenant's host and the compiled template. */
  datatype HostPathMatcher = HostPathMatcher(host: string, pattern: seq<Tok>)

  /** `HostAndPathMatches.match`: no match for another tenant whatever the
      path; for the tenant, the match of the path against the template. */
  function HostPathMatch(m: HostPathMatcher, primaryDomainLen: nat, host: string, path: string): (r: Option<Bindings>)
    ensures r.Some? ==> TenantOf(host, primaryDomainLen) == m.host
  {
    if TenantOf(host, primaryDomainLen) == m.host then Search(m.pattern, path) else None
  }

  /** The matcher matches exactly when the host is the tenant's and the
      template accepts the path. */
  lemma HostPathMatchAccepts(m: HostPathMatcher, primaryDomainLen: nat, host: string, path: string)
    ensures HostPathMatch(m, primaryDomainLen, host, path).Some? <==>
              TenantOf(host, primaryDomainLen) == m.host && Accepts(m.pattern, path)
  {
    SearchAccepts(m.pattern, path);
  }

  /** What a match hands on: a cut of the path along the template, binding
      every capture name of the template once, in template order. */
  lemma HostPathMatchSound(m: HostPathMatcher, primaryDomainLen: nat, host: string, path: string)
    requires HostPathMatch(m, primaryDomainLen, host, path).Some?
    ensures TenantOf(host, primaryDomainLen) == m.host
    ensures Spells(m.pattern, HostPathMatch(m, primaryDomainLen, host, path).value, path)
    ensures Names(HostPathMatch(m, primaryDomainLen, host, path).value) == Captures(m.pattern)
  {
    MatchBindings(m.pattern, path);
  }

  /** Host isolation: a request for one tenant's host under the platform
      domain never matches a route of another tenant, whatever the paths. */
  lemma HostIsolation(tenant: string, other: string, suffix: string, pattern: seq<Tok>, primaryDomainLen: nat, path: string)
    requires |suffix| == primaryDomainLen + 1 && tenant != other
    ensures HostPathMatch(HostPathMatcher(other, pattern), primaryDomainLen, tenant + suffix, path).None?
  {
    TenantOfHost(tenant, suffix, primaryDomainLen);
  }

  /** A host too short to carry the platform suffix is the empty tenant:
      it matches a route registered with the empty host and no other. */
  lemma ShortHost(host: string, m: HostPathMatcher, primaryDomainLen: nat, path: string)
    requires |host| <= primaryDomainLen + 1
    ensures HostPathMatch(m, primaryDomainLen, host, path).Some? <==> m.host == "" && Accepts(m.pattern, path)
  {
    HostPathMatchAccepts(m, primaryDomainLen, host, path);
  }

  /** `dict_decode_values`: every key kept, in order; `None` stays `None`
      and every other value is decoded. */
  function DecodeValues<V, W>(d: seq<(string, Option<V>)>, decode: V -> W): (r: seq<(string, Option<W>)>)
    ensures |r| == |d|
    ensures forall i :: 0 <= i < |d| ==> r[i].0 == d[i].0
    ensures forall i :: 0 <= i < |d| ==> (r[i].1.None? <==> d[i].1.None?)
    ensures forall i :: 0 <= i < |d| && d[i].1.Some? ==> r[i].1 == Some(decode(d[i].1.value))
  {
    if d == [] then []
    else
      [(d[0].0, if d[0].1.None? then None else Some(decode(d[0].1.value)))] + DecodeValues(d[1..], decode)
  }
}
