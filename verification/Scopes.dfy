/** Scope lists: splitting, the resource they name, and the audience a token gets (RFC 6749, section 3.3). */
module Scopes {
  import opened Text

  const OFFLINE_ACCESS := "offline_access"
  const OIDC_SCOPES: set<string> := {"openid", "profile", "email", "offline_access"}
  const MS_GRAPH := "https://graph.microsoft.com"

  // --- splitScopes ------------------------------------------------------------------------

  /** The characters JavaScript's `\s` matches. */
  predicate IsSpace(c: char) {
    || c in [' ', '\t', '\n', '\r', '\U{000B}', '\U{000C}', '\U{00A0}', '\U{1680}']
    || '\U{2000}' <= c <= '\U{200A}'
    || c in ['\U{2028}', '\U{2029}', '\U{202F}', '\U{205F}', '\U{3000}', '\U{FEFF}']
  }

  predicate Spaceless(s: string) { forall c <- s :: !IsSpace(c) }

  predicate IsScope(s: string) { s != "" && Spaceless(s) }

  /** Length of the leading run of non-space characters. */
  function WordLength(s: string): (n: nat)
    ensures n <= |s|
    ensures Spaceless(s[..n])
    ensures n < |s| ==> IsSpace(s[n])
  {
    if s == "" || IsSpace(s[0]) then 0 else 1 + WordLength(s[1..])
  }

  /** `scope.split(/\s+/).filter((s) => s.length > 0)`. */
  function SplitScopes(scope: string): (scopes: seq<string>)
    ensures forall s <- scopes :: IsScope(s)
    decreases |scope|
  {
    if scope == "" then []
    else if IsSpace(scope[0]) then SplitScopes(scope[1..])
    else
      var n := WordLength(scope);
      [scope[..n]] + SplitScopes(scope[n..])
  }

  lemma {:induction false} WordLengthOf(word: string, rest: string)
    requires Spaceless(word)
    requires rest != "" ==> IsSpace(rest[0])
    ensures WordLength(word + rest) == |word|
  {
    if word == "" {
      assert word + rest == rest;
    } else {
      assert (word + rest)[1..] == word[1..] + rest;
      WordLengthOf(word[1..], rest);
    }
  }

  lemma {:induction false} SplitScopesJoin(scopes: seq<string>)
    requires forall s <- scopes :: IsScope(s)
    ensures SplitScopes(Join(scopes)) == scopes
  {
    if scopes != [] {
      var head, tail := scopes[0], scopes[1..];
      assert IsScope(head);
      SplitScopesJoin(tail);
      if tail == [] {
        WordLengthOf(head, "");
        assert head + "" == head && head[..|head|] == head && head[|head|..] == "";
      } else {
        var rest := " " + Join(tail);
        assert Join(scopes) == head + rest;
        WordLengthOf(head, rest);
        assert (head + rest)[..|head|] == head && (head + rest)[|head|..] == rest;
        assert rest[1..] == Join(tail);
        assert SplitScopes(rest) == SplitScopes(rest[1..]);
      }
    }
  }

  /** The device flow stores `join(' ')` and splits again at the poll: lossless exactly for real scope lists. */
  lemma SplitScopesRoundTrip(scopes: seq<string>)
    ensures SplitScopes(Join(scopes)) == scopes <==> forall s <- scopes :: IsScope(s)
  {
    if forall s <- scopes :: IsScope(s) {
      SplitScopesJoin(scopes);
    }
  }

  // --- the resource and the name of a scope -------------------------------------------------

  /** Offset of the slash between resource prefix and scope name, when the scope has both. */
  function NameSlash(scope: string): (slash: Option<nat>)
    ensures slash.Some? ==> slash.value < |scope| && scope[slash.value] == '/'
  {
    var scheme := IndexOf(scope, "://", 0);
    var slash := LastIndexOf(scope, '/');
    if scheme != -1 && slash > scheme + 2 then Some(slash) else None
  }

  predicate Qualified(scope: string) { IndexOf(scope, "://", 0) != -1 }

  /** The resource of one qualified scope: its prefix, or the whole scope when it has no path. */
  function ResourceOf(scope: string): string {
    match NameSlash(scope)
    case Some(slash) => scope[..slash]
    case None => scope
  }

  /** `stripScopePrefix`: the bare scope name. */
  function StripScopePrefix(scope: string): string {
    match NameSlash(scope)
    case Some(slash) => scope[slash + 1..]
    case None => scope
  }

  /** `scopeNames`: prefixes stripped, empty names dropped. */
  function ScopeNames(scopes: seq<string>): seq<string> {
    if scopes == [] then []
    else
      var name := StripScopePrefix(scopes[0]);
      (if name != "" then [name] else []) + ScopeNames(scopes[1..])
  }

  /** The scope names are the non-empty stripped scopes. */
  lemma {:induction false} NamesMean(scopes: seq<string>, name: string)
    ensures name in ScopeNames(scopes) <==> name != "" && exists s <- scopes :: StripScopePrefix(s) == name
  {
    if scopes != [] {
      NamesMean(scopes[1..], name);
      assert scopes == [scopes[0]] + scopes[1..];
    }
  }

  /** `resolveResource`: the resource of the first qualified scope that is not an OIDC scope. */
  function ResolveResource(scopes: seq<string>): (resource: Option<string>) {
    if scopes == [] then None
    else if scopes[0] in OIDC_SCOPES || !Qualified(scopes[0]) then ResolveResource(scopes[1..])
    else Some(ResourceOf(scopes[0]))
  }

  /**
   * Splitting a qualified scope loses nothing: prefix, slash and name give the scope back, the name holds
   * no further slash, and the resource is still qualified, so it is never empty.
   */
  lemma ScopeParsingIsLossless(scope: string)
    requires NameSlash(scope).Some?
    ensures ResourceOf(scope) + "/" + StripScopePrefix(scope) == scope
    ensures '/' !in StripScopePrefix(scope)
    ensures Qualified(ResourceOf(scope))
  {
    var scheme := IndexOf(scope, "://", 0);
    var prefix := ResourceOf(scope);
    assert At(prefix, "://", scheme);
  }

  /** A scope that names no resource: an OIDC scope, or one without a scheme. */
  predicate NamesNoResource(scope: string) { scope in OIDC_SCOPES || !Qualified(scope) }

  /** The resource of a scope list is that of its first scope that names one, and there is none when none does. */
  lemma {:induction false} ResourceIsTheFirstNamed(before: seq<string>, scope: string, after: seq<string>)
    requires forall s <- before :: NamesNoResource(s)
    requires !NamesNoResource(scope)
    ensures ResolveResource(before) == None
    ensures ResolveResource(before + ([scope] + after)) == Some(ResourceOf(scope))
  {
    var all := before + ([scope] + after);
    if before == [] {
      assert all == [scope] + after;
    } else {
      assert all[1..] == before[1..] + ([scope] + after) && all[0] == before[0];
      assert NamesNoResource(before[0]);
      ResourceIsTheFirstNamed(before[1..], scope, after);
    }
  }

  /** A resource, a slash and a name make a scope whose resource and name they are. */
  lemma ScopeOf(resource: string, name: string)
    requires Qualified(resource) && '/' !in name
    ensures Qualified(resource + "/" + name)
    ensures ResourceOf(resource + "/" + name) == resource && StripScopePrefix(resource + "/" + name) == name
  {
    var scope := resource + "/" + name;
    var at := IndexOf(resource, "://", 0);
    assert At(scope, "://", at);
    assert scope[|resource|] == '/' && forall i | |resource| < i < |scope| :: scope[i] == name[i - |resource| - 1];
    assert LastIndexOf(scope, '/') == |resource|;
    assert forall i | 0 <= i < at :: At(scope, "://", i) ==> At(resource, "://", i) || i + 3 > |resource|;
    assert IndexOf(scope, "://", 0) <= at;
    assert scope[..|resource|] == resource && scope[|resource| + 1..] == name;
  }

  // --- which scopes are accepted, and the audience ------------------------------------------

  datatype AppScope = AppScope(value: string, isEnabled: bool)

  datatype App = App(appId: string, appIdUri: Option<string>, scopes: seq<AppScope>)

  /** The registered apps, keyed by app id as the table is. */
  datatype Apps = Apps(rows: map<string, App>) {
    ghost predicate Valid() { forall id <- rows :: rows[id].appId == id }

    /** `getByAppIdUri`: some app registered under the URI; SQLite returns the first row it meets. */
    predicate IsByUri(uri: string, app: App) {
      app.appId in rows && rows[app.appId] == app && app.appIdUri == Some(uri)
    }
  }

  /** The lookup by app-id URI, as one fixed choice among the rows that carry the URI. */
  ghost predicate IsUriLookup(apps: Apps, byUri: string -> Option<App>) {
    forall uri ::
      match byUri(uri)
      case Some(app) => apps.IsByUri(uri, app)
      case None => forall id <- apps.rows :: apps.rows[id].appIdUri != Some(uri)
  }

  /** The test `scopesAreValid` makes of one scope. */
  predicate ScopeIsValid(scope: string, graphId: string, byUri: string -> Option<App>) {
    scope in OIDC_SCOPES || !Qualified(scope) ||
    var prefix := ResourceOf(scope);
    var bare := StripScopePrefix(scope);
    prefix == graphId || prefix == MS_GRAPH ||
    match byUri(prefix)
    case None => false
    case Some(app) => bare == ".default" || exists s <- app.scopes :: s.value == bare && s.isEnabled
  }

  predicate ScopesAreValid(scopes: seq<string>, graphId: string, byUri: string -> Option<App>) {
    forall s <- scopes :: ScopeIsValid(s, graphId, byUri)
  }

  /** `resolveAudience`: the `aud` of an access token for a resource. */
  function ResolveAudience(resource: Option<string>, graphId: string, apps: Apps, byUri: string -> Option<App>)
    : string
  {
    if resource == None || resource == Some("") then graphId
    else
      var r := resource.value;
      if r == graphId || StartsWith(r, graphId + "/") then graphId
      else if byUri(r).Some? then byUri(r).value.appId
      else if r in apps.rows then apps.rows[r].appId
      else r
  }

  /** An audience some service answers to: Graph, or a registered app. */
  predicate Grounded(audience: string, graphId: string, apps: Apps) {
    audience == graphId || audience in apps.rows
  }

  /**
   * A scope of a registered resource is accepted exactly when it names an enabled scope of that app, or is
   * `.default`; one of an unregistered resource other than Graph never is.
   */
  lemma ResourceScopeIsValidExactly(resource: string, name: string, graphId: string, byUri: string -> Option<App>)
    requires Qualified(resource) && '/' !in name && resource !in {graphId, MS_GRAPH}
    requires resource + "/" + name !in OIDC_SCOPES
    ensures ScopeIsValid(resource + "/" + name, graphId, byUri) <==>
              && byUri(resource).Some?
              && (name == ".default" ||
                  exists i | 0 <= i < |byUri(resource).value.scopes| ::
                    byUri(resource).value.scopes[i] == AppScope(value := name, isEnabled := true))
  {
    ScopeOf(resource, name);
    if byUri(resource).Some? {
      var scopes := byUri(resource).value.scopes;
      forall s | s in scopes && s.value == name && s.isEnabled ensures s == AppScope(name, true) {
      }
    }
  }

  /** Graph's own scopes, those of OIDC and those without a scheme are accepted whatever is registered. */
  lemma LenientScopesAreValid(scope: string, name: string, graphId: string, byUri: string -> Option<App>)
    requires '/' !in name
    ensures scope in {"openid", "profile", "email", "offline_access"} || !Qualified(scope) ==>
              ScopeIsValid(scope, graphId, byUri)
    ensures ScopeIsValid(MS_GRAPH + "/" + name, graphId, byUri)
    ensures Qualified(graphId) ==> ScopeIsValid(graphId + "/" + name, graphId, byUri)
  {
    var url := MS_GRAPH;
    assert url[5] == ':' && url[6] == '/' && url[7] == '/';
    assert At(url, "://", 5);
    ScopeOf(url, name);
    if Qualified(graphId) {
      ScopeOf(graphId, name);
    }
  }

  /**
   * The audience is the service the resource names: Graph for no resource, Graph's id and what lies under it; else
   * the app registered under the URI; else the app of that id; and only then the literal text.
   */
  lemma AudienceIsTheNamedService(
      resource: Option<string>, graphId: string, apps: Apps, byUri: string -> Option<App>)
    requires apps.Valid() && IsUriLookup(apps, byUri)
    ensures var audience := ResolveAudience(resource, graphId, apps, byUri);
            if resource.None? || |resource.value| == 0 || resource.value == graphId || graphId + "/" <= resource.value
            then audience == graphId
            else if exists id <- apps.rows :: apps.rows[id].appIdUri == resource
            then audience in apps.rows && apps.rows[audience].appIdUri == resource
            else audience == resource.value
  {
    if resource.Some? {
      var r := resource.value;
      assert byUri(r).Some? ==> apps.IsByUri(r, byUri(r).value);
    }
  }

  /** `resolveResource` returns the resource of a scope of the list that passed the validity test. */
  lemma {:induction false} ResolvedResourceIsValid(
      scopes: seq<string>, graphId: string, byUri: string -> Option<App>)
    requires ScopesAreValid(scopes, graphId, byUri)
    requires ResolveResource(scopes).Some?
    ensures var r := ResolveResource(scopes).value;
            r != "" && (r == graphId || r == MS_GRAPH || byUri(r).Some?)
  {
    var s := scopes[0];
    assert ScopeIsValid(s, graphId, byUri);
    if s in OIDC_SCOPES || !Qualified(s) {
      ResolvedResourceIsValid(scopes[1..], graphId, byUri);
    } else if NameSlash(s).Some? {
      ScopeParsingIsLossless(s);
      assert ResourceOf(s) != "";
    }
  }

  /**
   * The audience of an accepted scope list is grounded exactly unless the list names the literal Microsoft
   * Graph URL while another Graph id is configured and no app is registered under that URL.
   */
  lemma AcceptedAudienceIsGrounded(
      scopes: seq<string>, graphId: string, apps: Apps, byUri: string -> Option<App>)
    requires apps.Valid() && IsUriLookup(apps, byUri)
    requires ScopesAreValid(scopes, graphId, byUri)
    ensures Grounded(ResolveAudience(ResolveResource(scopes), graphId, apps, byUri), graphId, apps)
            <==> !(&& ResolveResource(scopes) == Some(MS_GRAPH)
                   && MS_GRAPH != graphId
                   && !StartsWith(MS_GRAPH, graphId + "/")
                   && byUri(MS_GRAPH) == None
                   && MS_GRAPH !in apps.rows)
  {
    var resource := ResolveResource(scopes);
    if resource.Some? {
      ResolvedResourceIsValid(scopes, graphId, byUri);
      var r := resource.value;
      assert byUri(r).Some? ==> apps.IsByUri(r, byUri(r).value);
    }
  }

  /** With the default Graph id no accepted list ever falls back to the literal resource. */
  lemma DefaultAudienceIsGrounded(scopes: seq<string>, apps: Apps, byUri: string -> Option<App>)
    requires apps.Valid() && IsUriLookup(apps, byUri)
    requires ScopesAreValid(scopes, MS_GRAPH, byUri)
    ensures Grounded(ResolveAudience(ResolveResource(scopes), MS_GRAPH, apps, byUri), MS_GRAPH, apps)
  {
    AcceptedAudienceIsGrounded(scopes, MS_GRAPH, apps, byUri);
  }

  /** A Microsoft Graph scope under another Graph id, with no app registered: accepted, and its audience is the URL. */
  lemma OtherGraphIdFallsBack(byUri: string -> Option<App>)
    requires IsUriLookup(Apps(map[]), byUri)
    ensures var scopes := [MS_GRAPH + "/x"];
            && ScopesAreValid(scopes, "g", byUri)
            && ResolveAudience(ResolveResource(scopes), "g", Apps(map[]), byUri) == MS_GRAPH
  {
    var url := MS_GRAPH;
    var scope := url + "/x";
    assert url[5] == ':' && url[6] == '/' && url[7] == '/';
    assert At(scope, "://", 5);
    var n := |url|;
    assert scope[n] == '/' && scope[n + 1] == 'x' && |scope| == n + 2;
    assert LastIndexOf(scope, '/') == n;
    assert IndexOf(scope, "://", 0) <= 5;
    assert scope[..n] == url;
    assert scope !in OIDC_SCOPES by {
      assert forall s <- OIDC_SCOPES :: |s| < n;
    }
    assert url[0] == 'h';
    assert byUri(url) == None;
  }
}
