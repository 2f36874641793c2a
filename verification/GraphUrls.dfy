/** The advertised Graph URLs, and how the host router leads them back to the registered routes. */
module GraphUrls {
  import opened Text
  import opened Scopes
  import opened Users

  /** The three advertised origins, as configured. */
  datatype Origins = Origins(login: string, portal: string, graph: string)

  // --- hostnames ----------------------------------------------------------------------------

  /** The part of `s` before its first `c`, or all of it. */
  function UpTo(s: string, c: char): (r: string)
    ensures c !in r && r <= s
    ensures |r| < |s| ==> s[|r|] == c
  {
    if s == "" || s[0] == c then "" else [s[0]] + UpTo(s[1..], c)
  }

  /** Hostname of a `Host` header: port cut, IPv6 brackets removed; a missing header is the empty one. */
  function HostnameOf(header: string): string {
    var h := LowerCase(Trim(header));
    if h != "" && h[0] == '[' then UpTo(h[1..], ']') else UpTo(h, ':')
  }

  /** What follows the first `://`; nothing when there is none. */
  function AfterScheme(url: string): string {
    if |url| < 3 then ""
    else if url[0] == ':' && url[1] == '/' && url[2] == '/' then url[3..]
    else AfterScheme(url[1..])
  }

  /** The part that names host and port: it ends before the first slash, question mark or hash. */
  function AuthorityPart(afterScheme: string): (authority: string)
    ensures authority <= afterScheme
  {
    UpTo(UpTo(UpTo(afterScheme, '/'), '?'), '#')
  }

  function Authority(url: string): string { AuthorityPart(AfterScheme(url)) }

  /** What follows the authority. */
  function Suffix(url: string): string { AfterScheme(url)[|Authority(url)|..] }

  predicate AuthorityChar(c: char) { !IsSpace(c) && c !in ['/', '?', '#', '@', '\\'] }

  predicate HasBrackets(authority: string) { authority != "" && authority[0] == '[' }

  predicate Bracketed(origin: string) { HasBrackets(Authority(origin)) }

  /** The text between the brackets of an IPv6 host. */
  function Inner(authority: string): string
    requires HasBrackets(authority)
  {
    UpTo(LowerCase(authority)[1..], ']')
  }

  /** `host[:port]`, the host a name or a bracketed IPv6 address. */
  predicate IsAuthority(authority: string) {
    && authority != ""
    && authority[0] != ':'
    && (forall c <- authority :: AuthorityChar(c))
    && (HasBrackets(authority) ==> ':' in Inner(authority) && '[' !in Inner(authority))
  }

  predicate SuffixChar(c: char) { !IsSpace(c) && c !in ['?', '#', '\\', '.', '%'] }

  /** An origin as the configuration accepts it: scheme and authority, and perhaps a plain path. */
  predicate WellFormed(origin: string) {
    IsAuthority(Authority(origin)) && forall c <- Suffix(origin) :: SuffixChar(c)
  }

  function HostOf(authority: string): string {
    if HasBrackets(authority) then "[" + Inner(authority) + "]" else UpTo(LowerCase(authority), ':')
  }

  /** `new URL(origin).hostname`, which keeps the brackets of an IPv6 address; empty when it does not parse. */
  function OriginHostname(origin: string): string {
    if IsAuthority(Authority(origin)) then HostOf(Authority(origin)) else ""
  }

  // --- the published URLs -------------------------------------------------------------------

  function PublicPrefix(o: Origins): string { if o.graph == o.login then "/graph" else "" }

  /** `graphPublicUrl`: the advertised URL of a registered path. */
  function PublicUrl(o: Origins, registered: string): string {
    if PublicPrefix(o) == "" then
      var path := if StartsWith(registered, "/graph") then registered[6..] else registered;
      o.graph + (if path == "" then "/" else path)
    else
      o.graph + registered
  }

  /** What a client sends on the request line for an absolute URL: path and query, no fragment. */
  function RequestTarget(url: string): string { TargetOf(Suffix(url)) }

  function TargetOf(suffix: string): string {
    var target := UpTo(suffix, '#');
    if target != "" && target[0] == '/' then target else "/" + target
  }

  // --- the host router ----------------------------------------------------------------------

  datatype Role = Login | Portal | Graph | Compat

  predicate Collapsed(o: Origins) {
    OriginHostname(o.login) == OriginHostname(o.portal) == OriginHostname(o.graph)
  }

  function RoleOf(o: Origins, header: string): Role {
    var host := HostnameOf(header);
    if Collapsed(o) then Compat
    else if host == OriginHostname(o.login) then Login
    else if host == OriginHostname(o.graph) then Graph
    else if host == OriginHostname(o.portal) then Portal
    else Compat
  }

  function PathOnly(url: string): string { UpTo(url, '?') }

  predicate IsGraphPath(path: string) { path == "/graph" || StartsWith(path, "/graph/") }

  predicate IsGraphRootPath(path: string) {
    path == "/v1.0" || StartsWith(path, "/v1.0/") || path == "/oidc" || StartsWith(path, "/oidc/")
  }

  /** The pre-routing rewrite. */
  function RewriteUrl(o: Origins, url: string, header: string): string {
    if RoleOf(o, header) != Graph then url
    else if IsGraphPath(PathOnly(url)) then url
    else if IsGraphRootPath(PathOnly(url)) then "/graph" + url
    else url
  }

  /** `split('/')` with the empty parts dropped. */
  function Segments(path: string): seq<string>
    decreases |path|
  {
    if path == "" then []
    else if path[0] == '/' then Segments(path[1..])
    else [UpTo(path, '/')] + Segments(path[|UpTo(path, '/')|..])
  }

  predicate IsLoginPath(path: string) {
    var segments := Segments(path);
    |segments| >= 2 && segments[1] in ["v2.0", "discovery", "oauth2", "openid"]
  }

  predicate IsPortalApiPath(path: string) { path == "/health" || path == "/admin" || StartsWith(path, "/admin/") }

  predicate IsDiscoveryPath(path: string) {
    var tail := "/v2.0/.well-known/openid-configuration";
    && |path| >= |tail| + 2 && path[0] == '/' && path[|path| - |tail|..] == tail
    && '/' !in path[1..|path| - |tail|]
  }

  /** The guard that confines each host to its slice, for a URL already rewritten. */
  predicate Allowed(o: Origins, header: string, isGet: bool, url: string) {
    var path := PathOnly(url);
    match RoleOf(o, header)
    case Compat => true
    case Login => IsLoginPath(path)
    case Graph => IsGraphPath(path)
    case Portal => IsPortalApiPath(path) || IsDiscoveryPath(path) || (isGet && !IsLoginPath(path) && !IsGraphPath(path))
  }

  // --- what each host serves ------------------------------------------------------------------

  lemma NextSegment(part: string, rest: string)
    requires part != "" && '/' !in part && (rest == "" || rest[0] == '/')
    ensures Segments("/" + part + rest) == [part] + Segments(rest)
  {
    var path := part + rest;
    assert "/" + part + rest == "/" + path && ("/" + path)[1..] == path;
    UpToSplits(part, '/', rest);
    assert path[0] == part[0] && path[0] in part;
    assert path[|part|..] == rest;
  }

  /** A tenanted route belongs to the login host exactly by its second segment. */
  lemma TenantRouteIsLogin(tenant: string, segment: string, rest: string)
    requires tenant != "" && '/' !in tenant && segment != "" && '/' !in segment && (rest == "" || rest[0] == '/')
    ensures IsLoginPath("/" + tenant + ("/" + segment + rest)) <==>
              segment in {"oauth2", "discovery", "v2.0", "openid"}
  {
    NextSegment(segment, rest);
    NextSegment(tenant, "/" + segment + rest);
  }

  /** The path of a tenant's discovery document. */
  function DiscoveryPath(tenant: string): string { "/" + tenant + "/v2.0/.well-known/openid-configuration" }

  lemma DiscoveryExactly(path: string)
    ensures IsDiscoveryPath(path) <==>
              exists tenant: string :: tenant != "" && '/' !in tenant && path == DiscoveryPath(tenant)
  {
    var tail := "/v2.0/.well-known/openid-configuration";
    if IsDiscoveryPath(path) {
      var tenant := path[1..|path| - |tail|];
      assert path == "/" + tenant + tail;
      assert path == DiscoveryPath(tenant);
    }
    forall tenant: string | tenant != "" && '/' !in tenant && path == DiscoveryPath(tenant)
      ensures IsDiscoveryPath(path)
    {
      assert path == "/" + tenant + tail;
      assert path[1..|path| - |tail|] == tenant && path[|path| - |tail|..] == tail;
    }
  }

  /**
   * What the guard lets through on each host: the tenanted routes on the login host, the Graph surface on the Graph
   * host; on the portal host its own API, the discovery documents, and to a GET whatever the other two do not have.
   */
  lemma EachHostServesItsSlice(o: Origins, header: string, isGet: bool, url: string)
    ensures var path := PathOnly(url);
            var graph := path == "/graph" || "/graph/" <= path;
            match RoleOf(o, header)
            case Compat => Allowed(o, header, isGet, url)
            case Login => Allowed(o, header, isGet, url) <==> IsLoginPath(path)
            case Graph => Allowed(o, header, isGet, url) <==> graph
            case Portal => Allowed(o, header, isGet, url) <==>
              || path == "/health" || path == "/admin" || "/admin/" <= path
              || (exists tenant: string :: tenant != "" && '/' !in tenant && path == DiscoveryPath(tenant))
              || (isGet && !IsLoginPath(path) && !graph)
  {
    DiscoveryExactly(PathOnly(url));
  }

  // --- the round trip -----------------------------------------------------------------------

  /** Any header a client sends to the origin: its host, in any case, with or without a port. */
  predicate Addresses(header: string, origin: string) { HostnameOf(header) == HostnameOf(Authority(origin)) }

  /** A registered Graph route is `/graph` and one of these. */
  predicate GraphRoute(path: string) { IsGraphRootPath(path) && '?' !in path && '#' !in path }

  predicate QueryPart(query: string) { (query == "" || query[0] == '?') && '#' !in query }

  /** What a header's hostname loses of the host: only the brackets. */
  lemma HeaderHost(authority: string)
    requires IsAuthority(authority)
    ensures HostnameOf(authority) == if HasBrackets(authority) then Inner(authority) else HostOf(authority)
  {
    assert authority[0] in authority && authority[|authority| - 1] in authority;
    assert Trim(authority) == authority;
    assert LowerCase(authority)[0] == '[' <==> authority[0] == '[';
  }

  /** The router takes one origin's host for another's exactly when the hostnames agree and hold no brackets. */
  lemma HostIsRecognised(header: string, origin: string, other: string)
    requires WellFormed(origin) && WellFormed(other) && Addresses(header, origin)
    ensures HostnameOf(header) == OriginHostname(other)
            <==> !Bracketed(origin) && OriginHostname(origin) == OriginHostname(other)
  {
    HeaderHost(Authority(origin));
    if Bracketed(origin) && Bracketed(other) {
      assert HostOf(Authority(other))[0] == '[';
    }
  }

  lemma {:induction false} UpToSplits(s: string, c: char, rest: string)
    requires c !in s
    requires rest == "" || rest[0] == c
    ensures UpTo(s + rest, c) == s
  {
    if s == "" {
      assert s + rest == rest;
    } else {
      assert (s + rest)[1..] == s[1..] + rest;
      UpToSplits(s[1..], c, rest);
    }
  }

  /** `UpTo` only looks as far as the character. */
  lemma {:induction false} UpToLocal(s: string, c: char, rest: string)
    ensures UpTo(s + rest, c) == if c in s then UpTo(s, c) else s + UpTo(rest, c)
  {
    if s == "" {
      assert s + rest == rest;
    } else {
      assert (s + rest)[1..] == s[1..] + rest;
      UpToLocal(s[1..], c, rest);
    }
  }

  predicate UrlMark(c: char) { c == '/' || c == '?' || c == '#' }

  /** The authority part ends at the first mark. */
  lemma AuthorityStops(rest: string)
    ensures var a := AuthorityPart(rest);
            && (forall i | 0 <= i < |a| :: !UrlMark(a[i]))
            && (|a| < |rest| ==> UrlMark(rest[|a|]))
  {
    var toSlash := UpTo(rest, '/');
    var toQuery := UpTo(toSlash, '?');
    var a := UpTo(toQuery, '#');
    forall i | 0 <= i < |a| ensures !UrlMark(a[i]) {
      assert a[i] in a && a[i] == toQuery[i] && toQuery[i] in toQuery && toSlash[i] in toSlash;
    }
  }

  lemma AuthorityPartOf(a: string, tail: string)
    requires forall i | 0 <= i < |a| :: !UrlMark(a[i])
    requires tail == "" || tail[0] == '/'
    ensures AuthorityPart(a + tail) == a
  {
    assert forall c <- a :: !UrlMark(c);
    UpToSplits(a, '/', tail);
    UpToSplits(a, '?', "");
    UpToSplits(a, '#', "");
    assert a + "" == a;
  }

  /** Of a well-formed origin the suffix is empty or a path. */
  lemma SuffixIsPath(origin: string)
    requires WellFormed(origin)
    ensures AfterScheme(origin) == Authority(origin) + Suffix(origin)
    ensures Suffix(origin) == "" || Suffix(origin)[0] == '/'
    ensures '#' !in Suffix(origin)
  {
    AuthorityStops(AfterScheme(origin));
    if Suffix(origin) != "" {
      assert Suffix(origin)[0] in Suffix(origin);
    }
  }

  lemma {:induction false} AfterSchemeOf(origin: string, target: string)
    requires AfterScheme(origin) != ""
    ensures AfterScheme(origin + target) == AfterScheme(origin) + target
  {
    if origin[0] == ':' && origin[1] == '/' && origin[2] == '/' {
      assert (origin + target)[3..] == origin[3..] + target;
    } else {
      assert (origin + target)[1..] == origin[1..] + target;
      AfterSchemeOf(origin[1..], target);
    }
  }

  lemma TargetOfPath(suffix: string, target: string)
    requires suffix == "" || suffix[0] == '/'
    requires '#' !in suffix && target != "" && target[0] == '/'
    ensures TargetOf(suffix + target) == suffix + UpTo(target, '#')
  {
    UpToLocal(suffix, '#', target);
    assert UpTo(target, '#')[0] == '/';
  }

  lemma SuffixGrows(origin: string, target: string)
    requires WellFormed(origin) && target != "" && target[0] == '/'
    ensures Suffix(origin + target) == Suffix(origin) + target
  {
    var a, suffix := Authority(origin), Suffix(origin);
    AfterSchemeOf(origin, target);
    SuffixIsPath(origin);
    assert AfterScheme(origin + target) == a + (suffix + target);
    AuthorityStops(AfterScheme(origin));
    AuthorityPartOf(a, suffix + target);
  }

  /** What follows the authority is what the client asks for, without a fragment. */
  lemma TargetOfPublished(origin: string, target: string)
    requires WellFormed(origin) && target != "" && target[0] == '/'
    ensures RequestTarget(origin + target) == Suffix(origin) + UpTo(target, '#')
  {
    SuffixIsPath(origin);
    SuffixGrows(origin, target);
    TargetOfPath(Suffix(origin), target);
  }

  lemma SegmentIsFirst(segment: string, rest: string)
    requires segment != "" && '/' !in segment
    requires rest == "" || rest[0] == '/'
    ensures Segments("/" + segment + rest) == [segment] + Segments(rest)
  {
    var s := segment + rest;
    assert ("/" + segment + rest)[1..] == s;
    UpToSplits(segment, '/', rest);
    assert s[|segment|..] == rest;
    assert s[0] == segment[0];
  }

  lemma RouteSegment(path: string) returns (segment: string)
    requires GraphRoute(path)
    ensures segment in ["v1.0", "oidc"] && '/' !in segment && |segment| == 4
    ensures path == "/" + segment + path[5..] && (path[5..] == "" || path[5..][0] == '/')
  {
    segment := if path == "/v1.0" || StartsWith(path, "/v1.0/") then "v1.0" else "oidc";
    assert path == "/" + segment + path[5..];
  }

  lemma NoTenantSegment(segment: string)
    requires segment in ["v1.0", "oidc"]
    ensures segment !in ["v2.0", "discovery", "oauth2", "openid"]
  {
    assert "v1.0"[1] == '1' && "v2.0"[1] == '2';
  }

  /** A Graph route never falls in the login slice. */
  lemma GraphRouteIsNoLoginPath(path: string)
    requires GraphRoute(path)
    ensures !IsLoginPath("/graph" + path)
  {
    var segment := RouteSegment(path);
    NoTenantSegment(segment);
    var graph := "graph";
    assert "/graph" + path == "/" + graph + path;
    SegmentIsFirst(graph, path);
    SegmentIsFirst(segment, path[5..]);
  }

  /** A registered Graph route is in the Graph slice, its root form is not. */
  lemma GraphRouteIsGraphPath(path: string)
    requires GraphRoute(path)
    ensures path[0] == '/' && IsGraphPath("/graph" + path) && !IsGraphPath(path)
  {
    assert ("/graph" + path)[..7] == "/graph/";
    assert path[1] != 'g';
    assert "/graph"[1] == 'g' && "/graph/"[1] == 'g';
  }

  /** A root Graph path is rewritten to its registered form exactly on the Graph host. */
  lemma RootIsRewritten(o: Origins, path: string, query: string, header: string)
    requires GraphRoute(path) && QueryPart(query)
    ensures RewriteUrl(o, path + query, header) == "/graph" + path + query <==> RoleOf(o, header) == Graph
  {
    GraphRouteIsGraphPath(path);
    UpToSplits(path, '?', query);
    assert "/graph" + (path + query) == "/graph" + path + query;
    assert |path + query| != |"/graph" + path + query|;
  }

  /** A registered Graph URL is never rewritten. */
  lemma RegisteredIsKept(o: Origins, path: string, query: string, header: string)
    requires GraphRoute(path) && QueryPart(query)
    ensures PathOnly("/graph" + path + query) == "/graph" + path
    ensures RewriteUrl(o, "/graph" + path + query, header) == "/graph" + path + query
  {
    GraphRouteIsGraphPath(path);
    assert '?' !in "/graph" && '?' !in "/graph" + path;
    UpToSplits("/graph" + path, '?', query);
  }

  lemma NothingToCut(target: string)
    requires '#' !in target
    ensures UpTo(target, '#') == target
  {
    UpToSplits(target, '#', "");
    assert target + "" == target;
  }

  /** What a published Graph URL has after its origin. */
  function RouteOf(o: Origins, path: string): string { if o.graph == o.login then "/graph" + path else path }

  /** The request line of a published Graph URL. */
  lemma PublishedTarget(o: Origins, path: string, query: string)
    requires WellFormed(o.graph)
    requires GraphRoute(path) && QueryPart(query)
    ensures RequestTarget(PublicUrl(o, "/graph" + path) + query) == Suffix(o.graph) + (RouteOf(o, path) + query)
  {
    PublishedTargetCut(o, path, query);
    var graph := "/graph";
    assert '#' !in graph;
    NothingToCut(RouteOf(o, path) + query);
  }

  lemma PublishedAs(o: Origins, path: string)
    requires GraphRoute(path)
    ensures PublicUrl(o, "/graph" + path) == o.graph + RouteOf(o, path)
  {
    GraphRouteIsGraphPath(path);
    var registered := "/graph" + path;
    assert registered[..6] == "/graph" && registered[6..] == path;
  }

  /** The same for whatever is written after the route: a client cuts it at the first hash. */
  lemma PublishedTargetCut(o: Origins, path: string, written: string)
    requires WellFormed(o.graph) && GraphRoute(path)
    ensures RequestTarget(PublicUrl(o, "/graph" + path) + written)
            == Suffix(o.graph) + UpTo(RouteOf(o, path) + written, '#')
  {
    PublishedAs(o, path);
    var route := RouteOf(o, path);
    assert o.graph + route + written == o.graph + (route + written);
    TargetOfPublished(o.graph, route + written);
  }

  /** The role the router gives a request for the Graph origin. */
  lemma RoleOnGraphHost(o: Origins, header: string)
    requires WellFormed(o.login) && WellFormed(o.portal) && WellFormed(o.graph) && Addresses(header, o.graph)
    ensures RoleOf(o, header)
            == if Collapsed(o) || Bracketed(o.graph) then Compat
               else if OriginHostname(o.graph) == OriginHostname(o.login) then Login else Graph
  {
    HostIsRecognised(header, o.graph, o.login);
    HostIsRecognised(header, o.graph, o.graph);
    HostIsRecognised(header, o.graph, o.portal);
  }

  /** The role of a request for the login origin, for the portal origin, and for any host but the three. */
  lemma RoleOnOtherHosts(o: Origins, header: string)
    requires WellFormed(o.login) && WellFormed(o.portal) && WellFormed(o.graph)
    ensures Addresses(header, o.login) ==>
              RoleOf(o, header) == if Collapsed(o) || Bracketed(o.login) then Compat else Login
    ensures Addresses(header, o.portal) ==>
              RoleOf(o, header)
              == if Collapsed(o) || Bracketed(o.portal) then Compat
                 else if OriginHostname(o.portal) == OriginHostname(o.login) then Login
                 else if OriginHostname(o.portal) == OriginHostname(o.graph) then Graph else Portal
    ensures HostnameOf(header) !in {OriginHostname(o.login), OriginHostname(o.portal), OriginHostname(o.graph)} ==>
              RoleOf(o, header) == Compat
  {
    forall origin | origin in {o.login, o.portal} && Addresses(header, origin)
      ensures forall other | other in {o.login, o.portal, o.graph} ::
                HostnameOf(header) == OriginHostname(other)
                <==> !Bracketed(origin) && OriginHostname(origin) == OriginHostname(other)
    {
      forall other | other in {o.login, o.portal, o.graph}
        ensures HostnameOf(header) == OriginHostname(other)
                <==> !Bracketed(origin) && OriginHostname(origin) == OriginHostname(other)
      {
        HostIsRecognised(header, origin, other);
      }
    }
  }

  lemma CommonSuffix(a: string, b: string, rest: string)
    requires a + rest == b + rest
    ensures a == b
  {
    assert a == (a + rest)[..|a|] && b == (b + rest)[..|b|];
  }

  /** With a path in the Graph origin the registered URL never comes back, unless that path is `/graph` itself. */
  lemma SuffixBreaksTheUrl(o: Origins, path: string, query: string, header: string)
    requires GraphRoute(path) && QueryPart(query) && Suffix(o.graph) != ""
    ensures var registered := "/graph" + path + query;
            && RewriteUrl(o, Suffix(o.graph) + registered, header) != registered
            && (RewriteUrl(o, Suffix(o.graph) + (path + query), header) == registered <==> Suffix(o.graph) == "/graph")
  {
    var suffix, rest := Suffix(o.graph), path + query;
    var registered := "/graph" + path + query;
    assert registered == "/graph" + rest;
    assert |suffix + registered| > |registered|;
    assert |suffix + rest| > |rest|;
    if suffix == "/graph" {
      RegisteredIsKept(o, path, query, header);
    } else {
      if suffix + rest == "/graph" + rest {
        CommonSuffix(suffix, "/graph", rest);
      }
    }
  }

  /**
   * The published URL of a Graph route, requested on the Graph host, is rewritten to the registered route,
   * query included, exactly when the Graph origin has no path and is the login origin too, or differs from it in
   * an unbracketed hostname; or when the two origins differ and the Graph origin's path is `/graph`.
   */
  lemma PublishedUrlRoundTrip(o: Origins, path: string, query: string, header: string)
    requires WellFormed(o.login) && WellFormed(o.portal) && WellFormed(o.graph)
    requires GraphRoute(path) && QueryPart(query) && Addresses(header, o.graph)
    ensures RewriteUrl(o, RequestTarget(PublicUrl(o, "/graph" + path) + query), header) == "/graph" + path + query
            <==> if o.graph == o.login then Suffix(o.graph) == ""
                 else || Suffix(o.graph) == "/graph"
                      || (Suffix(o.graph) == "" && !Bracketed(o.graph)
                          && OriginHostname(o.graph) != OriginHostname(o.login))
  {
    PublishedTarget(o, path, query);
    if Suffix(o.graph) == "" {
      var rest := if o.graph == o.login then "/graph" + path + query else path + query;
      assert Suffix(o.graph) + rest == rest;
      RoleOnGraphHost(o, header);
      RootIsRewritten(o, path, query, header);
      RegisteredIsKept(o, path, query, header);
    } else {
      SuffixBreaksTheUrl(o, path, query, header);
    }
  }

  /** The request reaches the registered route: rewritten to it and let through by the guard. */
  predicate Served(o: Origins, path: string, query: string, header: string, isGet: bool) {
    && RewriteUrl(o, RequestTarget(PublicUrl(o, "/graph" + path) + query), header) == "/graph" + path + query
    && Allowed(o, header, isGet, "/graph" + path + query)
  }

  /**
   * With Graph and login on one origin, it has no path, and the portal shares the hostname too or the host is
   * bracketed. With two origins, either the Graph origin has no path and an unbracketed hostname other than
   * login's, or its path is `/graph` and the guard does not take its host for login's.
   */
  predicate ServesGraph(o: Origins) {
    var apart := OriginHostname(o.graph) != OriginHostname(o.login);
    if o.graph == o.login then Suffix(o.graph) == "" && (Collapsed(o) || Bracketed(o.graph))
    else if Suffix(o.graph) == "/graph" then apart || Collapsed(o) || Bracketed(o.graph)
    else Suffix(o.graph) == "" && apart && !Bracketed(o.graph)
  }

  /** A published Graph URL is served exactly under this condition on the configured origins alone. */
  lemma PublishedUrlIsServed(o: Origins, path: string, query: string, header: string, isGet: bool)
    requires WellFormed(o.login) && WellFormed(o.portal) && WellFormed(o.graph)
    requires GraphRoute(path) && QueryPart(query) && Addresses(header, o.graph)
    ensures Served(o, path, query, header, isGet) <==> ServesGraph(o)
  {
    PublishedUrlRoundTrip(o, path, query, header);
    GraphRouteIsNoLoginPath(path);
    GraphRouteIsGraphPath(path);
    RoleOnGraphHost(o, header);
    RegisteredIsKept(o, path, query, header);
  }

  /** What following a published URL leads to, on a deployment that serves it. */
  lemma PublishedIsFollowed(o: Origins, path: string, query: string, header: string)
    requires WellFormed(o.login) && WellFormed(o.portal) && WellFormed(o.graph) && ServesGraph(o)
    requires GraphRoute(path) && QueryPart(query) && Addresses(header, o.graph)
    ensures var next := RewriteUrl(o, RequestTarget(PublicUrl(o, "/graph" + path) + query), header);
            && next == "/graph" + path + query && PathOnly(next) == "/graph" + path && Allowed(o, header, true, next)
  {
    PublishedUrlIsServed(o, path, query, header, true);
    RegisteredIsKept(o, path, query, header);
  }

  /** The two usual deployments serve every route: distinct hostnames without brackets, or one origin for all three. */
  lemma UsualDeploymentsServe(o: Origins, path: string, query: string, header: string, isGet: bool)
    requires WellFormed(o.login) && WellFormed(o.portal) && WellFormed(o.graph)
    requires GraphRoute(path) && QueryPart(query) && Addresses(header, o.graph)
    requires Suffix(o.graph) == ""
    requires || o.login == o.portal == o.graph
             || (!Bracketed(o.graph) && OriginHostname(o.graph) != OriginHostname(o.login))
    ensures Served(o, path, query, header, isGet)
  {
    PublishedUrlIsServed(o, path, query, header, isGet);
  }

  /** With one origin for all three, neither map changes anything. */
  lemma OneOriginIsIdentity(o: Origins, registered: string, url: string, header: string)
    requires o.login == o.portal == o.graph
    ensures PublicUrl(o, registered) == o.graph + registered
    ensures RewriteUrl(o, url, header) == url
  {}

  /** An origin of that authority and path. */
  function Url(authority: string, suffix: string): string { "a://" + (authority + suffix) }

  lemma AfterSchemeOfUrl(rest: string)
    ensures AfterScheme("a://" + rest) == rest
  {
    var url := "a://" + rest;
    assert url[0] != ':' && url[1] == ':' && url[2] == '/' && url[3] == '/';
    assert url[1..][3..] == rest;
    assert AfterScheme(url) == AfterScheme(url[1..]);
  }

  lemma OriginOf(authority: string, suffix: string)
    requires IsAuthority(authority) && suffix in ["", "/"]
    ensures WellFormed(Url(authority, suffix))
    ensures Authority(Url(authority, suffix)) == authority && Suffix(Url(authority, suffix)) == suffix
  {
    AfterSchemeOfUrl(authority + suffix);
    forall k | 0 <= k < |authority| ensures !UrlMark(authority[k]) {
      assert authority[k] in authority;
    }
    AuthorityPartOf(authority, suffix);
    assert (authority + suffix)[|authority|..] == suffix;
  }

  lemma PlainAuthority(host: char)
    requires 'a' <= host <= 'z'
    ensures IsAuthority([host]) && HostOf([host]) == [host]
  {
    assert LowerCase([host]) == [host];
    assert UpTo([host], ':') == [host];
  }

  lemma BracketedAuthority(inner: string)
    requires ':' in inner && (forall c <- inner :: AuthorityChar(c) && c != '[' && c != ']' && Fold(c) == c)
    ensures IsAuthority("[" + inner + "]") && HostOf("[" + inner + "]") == "[" + inner + "]"
  {
    var authority := "[" + inner + "]";
    forall k | 0 <= k < |authority| ensures Fold(authority[k]) == authority[k] && AuthorityChar(authority[k]) {
      assert 1 <= k < |authority| - 1 ==> authority[k] == inner[k - 1] && inner[k - 1] in inner;
    }
    assert LowerCase(authority) == authority;
    assert authority[1..] == inner + "]";
    UpToSplits(inner, ']', "]");
  }

  /** No Graph route is served at its published URL. */
  ghost predicate ServesNothing(o: Origins) {
    forall path, query, header, isGet | GraphRoute(path) && QueryPart(query) && Addresses(header, o.graph) ::
      !Served(o, path, query, header, isGet)
  }

  lemma UnmetConditionServesNothing(o: Origins)
    requires WellFormed(o.login) && WellFormed(o.portal) && WellFormed(o.graph) && !ServesGraph(o)
    ensures ServesNothing(o)
  {
    forall path, query, header, isGet | GraphRoute(path) && QueryPart(query) && Addresses(header, o.graph)
      ensures !Served(o, path, query, header, isGet)
    {
      PublishedUrlIsServed(o, path, query, header, isGet);
    }
  }

  lemma UnservedOrigins(login: string, portal: string, graph: string, suffix: string)
    requires IsAuthority(login) && IsAuthority(portal) && IsAuthority(graph) && suffix in ["", "/"]
    requires || suffix == "/"
             || if login == graph then HostOf(portal) != HostOf(graph) && !HasBrackets(graph)
                else HostOf(graph) == HostOf(login) || HasBrackets(graph)
    ensures ServesNothing(Origins(Url(login, ""), Url(portal, ""), Url(graph, suffix)))
  {
    var o := Origins(Url(login, ""), Url(portal, ""), Url(graph, suffix));
    OriginOf(login, "");
    OriginOf(portal, "");
    OriginOf(graph, suffix);
    assert |"/"| != |"/graph"|;
    UnmetConditionServesNothing(o);
  }

  /** Three distinct hostnames are not enough: the router never recognises a bracketed Graph host. */
  lemma BracketedGraphHostIsNotServed()
    ensures && HostOf("b") != HostOf("c")
            && HostOf("[" + "::1" + "]") !in {HostOf("b"), HostOf("c")}
            && ServesNothing(Origins(Url("b", ""), Url("c", ""), Url("[" + "::1" + "]", "")))
  {
    var inner := "::1";
    PlainAuthority('b');
    PlainAuthority('c');
    assert inner[0] == ':' && forall c <- inner :: c == ':' || c == '1';
    BracketedAuthority(inner);
    UnservedOrigins("b", "c", "[" + inner + "]", "");
  }

  /** Nor is a portal of its own beside one origin for login and Graph: the guard takes the Graph host for login. */
  lemma SharedLoginHostIsNotServed()
    ensures ServesNothing(Origins(Url("b", ""), Url("c", ""), Url("b", "")))
  {
    PlainAuthority('b');
    PlainAuthority('c');
    UnservedOrigins("b", "c", "b", "");
  }

  /** Nor a trailing slash on the Graph origin, which the configuration accepts: it publishes `//v1.0/...`. */
  lemma TrailingSlashIsNotServed()
    ensures ServesNothing(Origins(Url("b", ""), Url("c", ""), Url("d", "/")))
  {
    PlainAuthority('b');
    PlainAuthority('c');
    PlainAuthority('d');
    UnservedOrigins("b", "c", "d", "/");
  }
}
