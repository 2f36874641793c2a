/** The claims of issued tokens: the base sets, the optional and group claims an app configures, and their merge. */
module TokenConfig {
  import opened Text
  import opened Hashing
  import opened Scopes
  import opened GraphUrls
  import opened GraphPaging

  /** A claim name: each one the code spells out, and any other string. */
  datatype Name =
    | Iss | Sub | Aud | Exp | Iat | Nbf | Tid | Oid | DisplayName | PreferredUsername | Ver | Email | Nonce
    | Azp | Appid | Scp | Roles
    | Upn | GivenName | FamilyName | AuthTime | Ipaddr | Groups | ClaimNames | ClaimSources
    | Other(text: string)

  datatype Value =
    | Text(text: string)
    | Number(n: int)
    | Digest(hash: Hash)
    | List(items: seq<string>)
    | GroupsAt(source: string)
    | SourceAt(source: string, endpoint: string)

  type Claims = map<Name, Value>

  datatype User = User(id: string, displayName: string, userPrincipalName: string,
                       mail: Option<string>, givenName: Option<string>, surname: Option<string>)

  datatype Kind = IdToken | AccessToken

  datatype Group = Group(id: string, displayName: string, description: Option<string>)

  /** Token configuration of an app: the optional claims of each kind, group claims on or off, its overage limit. */
  datatype App = App(
    appId: string, idClaims: seq<Name>, accessClaims: seq<Name>, groupClaims: bool, overageLimit: Option<nat>)
  {
    function Entries(kind: Kind): seq<Name> { if kind == IdToken then idClaims else accessClaims }
  }

  datatype Context = Context(user: User, now: int, authTime: Option<int>, ipAddress: Option<string>)

  const LOCAL_IP_ADDRESS := "127.0.0.1"
  const TOKEN_VERSION := "2.0"
  const SOURCE := "src1"
  const MEMBER_OF := "/v1.0/" + "me/memberOf"

  // --- optional claims ----------------------------------------------------------------------

  predicate Supported(kind: Kind, name: Name) {
    || name in {Email, Upn, GivenName, FamilyName, PreferredUsername, Ipaddr, Groups}
    || (kind == IdToken && name == AuthTime)
  }

  function OptText(s: Option<string>): Option<Value> { if s.Some? then Some(Text(s.value)) else None }

  /** `resolveClaimValue`: the directory's value of an optional claim, or nothing to emit. */
  function ClaimValue(name: Name, c: Context): Option<Value> {
    match name
    case Email => OptText(c.user.mail)
    case Upn => Some(Text(c.user.userPrincipalName))
    case GivenName => OptText(c.user.givenName)
    case FamilyName => OptText(c.user.surname)
    case PreferredUsername => Some(Text(c.user.userPrincipalName))
    case AuthTime => Some(Number(if c.authTime.Some? then c.authTime.value else c.now))
    case Ipaddr => Some(Text(if c.ipAddress.Some? then c.ipAddress.value else LOCAL_IP_ADDRESS))
    case _ => None
  }

  predicate Emits(kind: Kind, name: Name, c: Context) {
    name != Groups && Supported(kind, name) && ClaimValue(name, c).Some?
  }

  /** The optional claims of a configured list. */
  function OptionalClaims(kind: Kind, entries: seq<Name>, c: Context): Claims {
    map name | name in entries && Emits(kind, name, c) :: ClaimValue(name, c).value
  }

  /** The configured names that are not supported, in order. */
  function Unsupported(kind: Kind, entries: seq<Name>): seq<Name> {
    if entries == [] then []
    else
      var last := entries[|entries| - 1];
      Unsupported(kind, entries[..|entries| - 1])
      + if last != Groups && !Supported(kind, last) then [last] else []
  }

  lemma OneMoreEntry(kind: Kind, entries: seq<Name>, name: Name, c: Context)
    ensures OptionalClaims(kind, entries + [name], c)
            == if Emits(kind, name, c) then OptionalClaims(kind, entries, c)[name := ClaimValue(name, c).value]
               else OptionalClaims(kind, entries, c)
    ensures Unsupported(kind, entries + [name])
            == Unsupported(kind, entries) + if name != Groups && !Supported(kind, name) then [name] else []
  {
    assert (entries + [name])[..|entries|] == entries;
  }

  method ResolveOptionalClaims(kind: Kind, entries: seq<Name>, c: Context)
    returns (claims: Claims, unsupported: seq<Name>)
    ensures claims == OptionalClaims(kind, entries, c)
    ensures unsupported == Unsupported(kind, entries)
  {
    claims, unsupported := map[], [];
    for i := 0 to |entries|
      invariant claims == OptionalClaims(kind, entries[..i], c)
      invariant unsupported == Unsupported(kind, entries[..i])
    {
      var name := entries[i];
      assert entries[..i + 1] == entries[..i] + [name];
      OneMoreEntry(kind, entries[..i], name, c);
      if name == Groups {
        continue;
      }
      if !Supported(kind, name) {
        unsupported := unsupported + [name];
        continue;
      }
      var value := ClaimValue(name, c);
      if value.Some? {
        claims := claims[name := value.value];
      }
    }
    assert entries[..|entries|] == entries;
  }

  // --- group claims -------------------------------------------------------------------------

  predicate GroupClaimsEnabled(app: App, kind: Kind) { app.groupClaims || Groups in app.Entries(kind) }

  function Ids(groups: seq<Group>): (ids: seq<string>)
    ensures |ids| == |groups| && forall i | 0 <= i < |ids| :: ids[i] == groups[i].id
  {
    if groups == [] then [] else [groups[0].id] + Ids(groups[1..])
  }

  function OverageLimit(app: App, default_: nat): nat {
    if app.overageLimit.Some? then app.overageLimit.value else default_
  }

  function OverageEndpoint(o: Origins): string { PublicUrl(o, "/graph" + MEMBER_OF) }

  /** `resolveGroupClaims`; `groups` is what `listGroupsForUser` returns. */
  function GroupClaims(app: App, kind: Kind, groups: seq<Group>, o: Origins, limit: nat): Claims {
    if !GroupClaimsEnabled(app, kind) then map[]
    else if |groups| > OverageLimit(app, limit) then
      map[ClaimNames := GroupsAt(SOURCE), ClaimSources := SourceAt(SOURCE, OverageEndpoint(o))]
    else map[Groups := List(Ids(groups))]
  }

  /** `resolveAppTokenClaims`: what an app's configuration adds to a token. */
  function AppTokenClaims(app: App, kind: Kind, c: Context, groups: seq<Group>, o: Origins, limit: nat): Claims {
    OptionalClaims(kind, app.Entries(kind), c) + GroupClaims(app, kind, groups, o, limit)
  }

  // --- the base claims, and the tokens ------------------------------------------------------

  /** What a token is issued with. */
  datatype Issue = Issue(tenantId: string, issuer: string, scopes: seq<string>, nonce: Option<string>,
                         now: int, lifetime: nat)

  function PairwiseSub(userId: string, appId: string, tenantId: string): Value {
    Digest(Sha256(userId + "|" + appId + "|" + tenantId))
  }

  /** What every token says of itself. */
  function Envelope(audience: string, i: Issue): Claims {
    map[Iss := Text(i.issuer), Aud := Text(audience), Exp := Number(i.now + i.lifetime), Iat := Number(i.now),
        Nbf := Number(i.now), Tid := Text(i.tenantId), Ver := Text(TOKEN_VERSION)]
  }

  /** What every ID token says of its user. */
  function IdCore(user: User, appId: string, i: Issue): Claims {
    Envelope(appId, i)
    + map[Sub := PairwiseSub(user.id, appId, i.tenantId), Oid := Text(user.id),
          DisplayName := Text(user.displayName), PreferredUsername := Text(user.userPrincipalName)]
  }

  /** `buildIdTokenClaims`. */
  function IdTokenClaims(user: User, appId: string, i: Issue): Claims {
    IdCore(user, appId, i)
    + (if user.mail.Some? && "email" in ScopeNames(i.scopes) then map[Email := Text(user.mail.value)] else map[])
    + (if i.nonce.Some? then map[Nonce := Text(i.nonce.value)] else map[])
  }

  /** The scope names of an access token: all but the grant-only one. */
  function ScpNames(names: seq<string>): seq<string> {
    if names == [] then []
    else (if names[0] == OFFLINE_ACCESS then [] else [names[0]]) + ScpNames(names[1..])
  }

  /** `buildDelegatedAccessClaims`. */
  function DelegatedClaims(user: User, appId: string, audience: string, i: Issue): Claims {
    Envelope(audience, i)
    + map[Sub := PairwiseSub(user.id, appId, i.tenantId), Oid := Text(user.id), Azp := Text(appId),
          Appid := Text(appId), Scp := Text(Join(ScpNames(ScopeNames(i.scopes))))]
  }

  /** `buildAppOnlyAccessClaims`. */
  function AppOnlyClaims(appId: string, audience: string, roles: seq<string>, i: Issue): Claims {
    Envelope(audience, i)
    + map[Sub := Text(appId), Azp := Text(appId), Appid := Text(appId), Roles := List(roles)]
  }

  /** The directory as a token response reads it. */
  datatype Directory = Directory(
    apps: map<string, App>, groupsOf: string -> seq<Group>, origins: Origins, overageLimit: nat)

  datatype Subject = Delegated(context: Context) | AppOnly(roles: seq<string>)

  /** The access token of a response: claims of the client's grant, extras of the audience's app. */
  function AccessPayload(client: App, subject: Subject, audience: string, i: Issue, d: Directory): Claims {
    match subject
    case AppOnly(roles) => AppOnlyClaims(client.appId, audience, roles, i)
    case Delegated(c) =>
      DelegatedClaims(c.user, client.appId, audience, i)
      + if audience in d.apps
        then AppTokenClaims(d.apps[audience], AccessToken, c, d.groupsOf(c.user.id), d.origins, d.overageLimit)
        else map[]
  }

  /** The ID token of a response: extras of the client app itself. */
  function IdPayload(client: App, c: Context, i: Issue, d: Directory): Claims {
    IdTokenClaims(c.user, client.appId, i)
    + AppTokenClaims(client, IdToken, c, d.groupsOf(c.user.id), d.origins, d.overageLimit)
  }

  // --- what the merge keeps -----------------------------------------------------------------

  ghost predicate Keeps(payload: Claims, base: Claims) {
    forall name <- base :: name in payload && payload[name] == base[name]
  }

  /** The names a configuration can add. */
  predicate Configurable(name: Name) {
    name.Email? || name.Upn? || name.GivenName? || name.FamilyName? || name.PreferredUsername? || name.AuthTime?
    || name.Ipaddr? || name.Groups? || name.ClaimNames? || name.ClaimSources?
  }

  lemma ExtrasAreConfigurable(app: App, kind: Kind, c: Context, groups: seq<Group>, o: Origins, limit: nat, name: Name)
    requires name in AppTokenClaims(app, kind, c, groups, o, limit)
    ensures Configurable(name)
    ensures name.Email? || name.PreferredUsername? ==>
              Some(AppTokenClaims(app, kind, c, groups, o, limit)[name]) == ClaimValue(name, c)
  {
    if name in GroupClaims(app, kind, groups, o, limit) {
      assert name.Groups? || name.ClaimNames? || name.ClaimSources?;
    }
  }

  /** The only configurable claims of an ID token are the two it draws from the directory itself. */
  lemma IdClaimsFromTheDirectory(c: Context, appId: string, i: Issue, name: Name)
    requires name in IdTokenClaims(c.user, appId, i) && Configurable(name)
    ensures name.Email? || name.PreferredUsername?
    ensures ClaimValue(name, c) == Some(IdTokenClaims(c.user, appId, i)[name])
  {
    OnlyExtras(c.user, appId, i, name);
    GivenExtras(c.user, appId, i);
    if !name.Email? {
      CoreIsFixed(c.user, appId, i, name);
      CoreIdentifies(c.user, appId, i);
    }
  }

  lemma OnlyExtras(user: User, appId: string, i: Issue, name: Name)
    requires name in IdTokenClaims(user, appId, i)
    ensures name in IdCore(user, appId, i) || name.Email? || name.Nonce?
  {}

  lemma CoreIsFixed(user: User, appId: string, i: Issue, name: Name)
    requires name in IdCore(user, appId, i) && Configurable(name)
    ensures name.PreferredUsername?
  {
    if name in Envelope(appId, i) {
      EnvelopeIsFixed(appId, i, name);
      assert false;
    }
  }

  lemma DelegatedClaimsAreFixed(user: User, appId: string, audience: string, i: Issue, name: Name)
    requires name in DelegatedClaims(user, appId, audience, i)
    ensures !Configurable(name)
  {
    if name in Envelope(audience, i) {
      EnvelopeIsFixed(audience, i, name);
    }
  }

  lemma EnvelopeIsFixed(audience: string, i: Issue, name: Name)
    requires name in Envelope(audience, i)
    ensures !Configurable(name)
  {}

  /** Whatever an app configures, every base claim of an ID token keeps its value. */
  lemma IdTokenKeepsItsClaims(client: App, c: Context, i: Issue, d: Directory)
    ensures Keeps(IdPayload(client, c, i, d), IdTokenClaims(c.user, client.appId, i))
  {
    var base := IdTokenClaims(c.user, client.appId, i);
    var groups := d.groupsOf(c.user.id);
    var extra := AppTokenClaims(client, IdToken, c, groups, d.origins, d.overageLimit);
    forall name | name in base && name in extra ensures extra[name] == base[name] {
      ExtrasAreConfigurable(client, IdToken, c, groups, d.origins, d.overageLimit, name);
      IdClaimsFromTheDirectory(c, client.appId, i, name);
    }
  }

  /** The base claims of an access token. */
  function AccessBase(client: App, subject: Subject, audience: string, i: Issue): Claims {
    match subject
    case Delegated(c) => DelegatedClaims(c.user, client.appId, audience, i)
    case AppOnly(roles) => AppOnlyClaims(client.appId, audience, roles, i)
  }

  /** Whatever the audience's app configures, every base claim of an access token keeps its value. */
  lemma AccessTokenKeepsItsClaims(client: App, subject: Subject, audience: string, i: Issue, d: Directory)
    ensures Keeps(AccessPayload(client, subject, audience, i, d), AccessBase(client, subject, audience, i))
  {
    if subject.Delegated? && audience in d.apps {
      var c := subject.context;
      var app, groups := d.apps[audience], d.groupsOf(c.user.id);
      var base := DelegatedClaims(c.user, client.appId, audience, i);
      var extra := AppTokenClaims(app, AccessToken, c, groups, d.origins, d.overageLimit);
      forall name | name in base && name in extra ensures false {
        ExtrasAreConfigurable(app, AccessToken, c, groups, d.origins, d.overageLimit, name);
        DelegatedClaimsAreFixed(c.user, client.appId, audience, i, name);
      }
    }
  }

  /** Two pairwise subjects are equal exactly for the same user, app and tenant; ids hold no bar. */
  lemma PairwiseSubSeparates(user: string, app: string, tenant: string, user': string, app': string, tenant': string)
    requires '|' !in user && '|' !in user' && '|' !in app && '|' !in app'
    ensures PairwiseSub(user, app, tenant) == PairwiseSub(user', app', tenant')
            <==> user == user' && app == app' && tenant == tenant'
  {
    var a, b := user + "|" + app + "|" + tenant, user' + "|" + app' + "|" + tenant';
    if a == b {
      assert a == user + ("|" + (app + ("|" + tenant))) && b == user' + ("|" + (app' + ("|" + tenant')));
      BarSplits(user, app + ("|" + tenant), user', app' + ("|" + tenant'));
      BarSplits(app, tenant, app', tenant');
    }
  }

  lemma BarSplits(a: string, b: string, a': string, b': string)
    requires '|' !in a && '|' !in a' && a + ("|" + b) == a' + ("|" + b')
    ensures a == a' && b == b'
  {
    UpToSplits(a, '|', "|" + b);
    UpToSplits(a', '|', "|" + b');
    assert b == (a + ("|" + b))[|a| + 1..] && b' == (a' + ("|" + b'))[|a'| + 1..];
  }

  /** An ID token speaks of its user to its client: every claim that identifies either is theirs. */
  lemma IdTokenIdentifies(client: App, c: Context, i: Issue, d: Directory)
    ensures var p := IdPayload(client, c, i, d);
            && Identifies(p, client.appId, i) && SpeaksOf(p, c.user, client.appId, i)
            && (if i.nonce.Some? then Nonce in p && p[Nonce] == Text(i.nonce.value) else Nonce !in p)
            && (Email in p <==> c.user.mail.Some? && ((exists s <- i.scopes :: StripScopePrefix(s) == "email")
                                                      || Email in client.idClaims))
            && (Email in p ==> p[Email] == Text(c.user.mail.value))
  {
    var p, base := IdPayload(client, c, i, d), IdTokenClaims(c.user, client.appId, i);
    IdTokenKeepsItsClaims(client, c, i, d);
    CoreIdentifies(c.user, client.appId, i);
    GivenExtras(c.user, client.appId, i);
    KeptIdentity(base, IdCore(c.user, client.appId, i), c.user, client.appId, i);
    KeptIdentity(p, base, c.user, client.appId, i);
    NamesMean(i.scopes, "email");
    OptionalExtras(client, c, i, d);
  }

  lemma OptionalExtras(client: App, c: Context, i: Issue, d: Directory)
    ensures var p, base := IdPayload(client, c, i, d), IdTokenClaims(c.user, client.appId, i);
            && (Nonce in p <==> Nonce in base)
            && (Email in p <==> Email in base || (Email in client.idClaims && c.user.mail.Some?))
            && (Email in p && Email !in base ==> p[Email] == Text(c.user.mail.value))
  {
    ExtraAt(client, IdToken, c, d.groupsOf(c.user.id), d.origins, d.overageLimit, Email);
    ExtraAt(client, IdToken, c, d.groupsOf(c.user.id), d.origins, d.overageLimit, Nonce);
  }

  lemma KeptIdentity(p: Claims, base: Claims, user: User, appId: string, i: Issue)
    requires Keeps(p, base) && Identifies(base, appId, i) && SpeaksOf(base, user, appId, i)
    ensures Identifies(p, appId, i) && SpeaksOf(p, user, appId, i)
  {}

  /** Issuer, audience, tenant and times of a token. */
  predicate Identifies(p: Claims, audience: string, i: Issue) {
    && Iss in p && p[Iss] == Text(i.issuer) && Aud in p && p[Aud] == Text(audience)
    && Tid in p && p[Tid] == Text(i.tenantId) && Ver in p && p[Ver] == Text("2.0")
    && Iat in p && p[Iat] == Number(i.now) && Nbf in p && p[Nbf] == Number(i.now)
    && Exp in p && p[Exp] == Number(i.now + i.lifetime)
  }

  /** Subject, object id and names of a user. */
  predicate SpeaksOf(p: Claims, user: User, appId: string, i: Issue) {
    && Sub in p && p[Sub] == PairwiseSub(user.id, appId, i.tenantId) && Oid in p && p[Oid] == Text(user.id)
    && DisplayName in p && p[DisplayName] == Text(user.displayName)
    && PreferredUsername in p && p[PreferredUsername] == Text(user.userPrincipalName)
  }

  lemma CoreIdentifies(user: User, appId: string, i: Issue)
    ensures Identifies(IdCore(user, appId, i), appId, i) && SpeaksOf(IdCore(user, appId, i), user, appId, i)
    ensures Email !in IdCore(user, appId, i) && Nonce !in IdCore(user, appId, i)
  {
    EnvelopeIdentifies(appId, i);
  }

  lemma GivenExtras(user: User, appId: string, i: Issue)
    ensures var p := IdTokenClaims(user, appId, i);
            && Keeps(p, IdCore(user, appId, i))
            && (if i.nonce.Some? then Nonce in p && p[Nonce] == Text(i.nonce.value) else Nonce !in p)
            && (Email in p <==> user.mail.Some? && "email" in ScopeNames(i.scopes))
            && (Email in p ==> p[Email] == Text(user.mail.value))
  {
    CoreIdentifies(user, appId, i);
  }

  /** An access token names its subject and its client: the user and the app of a delegated grant, or the app alone. */
  lemma AccessTokenIdentifies(client: App, subject: Subject, audience: string, i: Issue, d: Directory)
    ensures var p := AccessPayload(client, subject, audience, i, d);
            && Azp in p && p[Azp] == Text(client.appId) && Appid in p && p[Appid] == Text(client.appId)
            && Identifies(p, audience, i) && Sub in p
            && match subject
               case Delegated(c) =>
                 && p[Sub] == PairwiseSub(c.user.id, client.appId, i.tenantId)
                 && Oid in p && p[Oid] == Text(c.user.id)
               case AppOnly(_) => p[Sub] == Text(client.appId) && Oid !in p
  {
    AccessTokenKeepsItsClaims(client, subject, audience, i, d);
    match subject
    case Delegated(c) => DelegatedIdentifies(c.user, client.appId, audience, i);
    case AppOnly(roles) => AppOnlyIdentifies(client.appId, audience, roles, i);
  }

  lemma DelegatedIdentifies(user: User, appId: string, audience: string, i: Issue)
    ensures var p := DelegatedClaims(user, appId, audience, i);
            && Identifies(p, audience, i)
            && Azp in p && p[Azp] == Text(appId) && Appid in p && p[Appid] == Text(appId)
            && Sub in p && p[Sub] == PairwiseSub(user.id, appId, i.tenantId) && Oid in p && p[Oid] == Text(user.id)
  {
    EnvelopeIdentifies(audience, i);
  }

  lemma AppOnlyIdentifies(appId: string, audience: string, roles: seq<string>, i: Issue)
    ensures var p := AppOnlyClaims(appId, audience, roles, i);
            && Identifies(p, audience, i)
            && Azp in p && p[Azp] == Text(appId) && Appid in p && p[Appid] == Text(appId)
            && Sub in p && p[Sub] == Text(appId) && Oid !in p
  {
    EnvelopeIdentifies(audience, i);
  }

  lemma EnvelopeIdentifies(audience: string, i: Issue)
    ensures var p := Envelope(audience, i);
            && Identifies(p, audience, i)
            && Sub !in p && Oid !in p && Azp !in p && Appid !in p
            && DisplayName !in p && PreferredUsername !in p && Email !in p && Nonce !in p
  {}

  /** A configured name has the user's own value of just that attribute, and is left out exactly without one. */
  lemma ConfiguredClaimsAreTheUsers(app: App, kind: Kind, c: Context, groups: seq<Group>, o: Origins, limit: nat)
    ensures var extra := AppTokenClaims(app, kind, c, groups, o, limit);
            var listed := if kind == IdToken then app.idClaims else app.accessClaims;
            && Shows(extra, listed, Email, c.user.mail)
            && Shows(extra, listed, GivenName, c.user.givenName)
            && Shows(extra, listed, FamilyName, c.user.surname)
            && Shows(extra, listed, Upn, Some(c.user.userPrincipalName))
            && Shows(extra, listed, PreferredUsername, Some(c.user.userPrincipalName))
            && Shows(extra, listed, Ipaddr, if c.ipAddress.Some? then c.ipAddress else Some("127.0.0.1"))
            && (AuthTime in extra <==> AuthTime in listed && kind == IdToken)
            && (AuthTime in extra ==> extra[AuthTime] == Number(if c.authTime.Some? then c.authTime.value else c.now))
  {
    ShowsAt(app, kind, c, groups, o, limit, Email, c.user.mail);
    ShowsAt(app, kind, c, groups, o, limit, GivenName, c.user.givenName);
    ShowsAt(app, kind, c, groups, o, limit, FamilyName, c.user.surname);
    ShowsAt(app, kind, c, groups, o, limit, Upn, Some(c.user.userPrincipalName));
    ShowsAt(app, kind, c, groups, o, limit, PreferredUsername, Some(c.user.userPrincipalName));
    ShowsAt(app, kind, c, groups, o, limit, Ipaddr, if c.ipAddress.Some? then c.ipAddress else Some("127.0.0.1"));
    ExtraAt(app, kind, c, groups, o, limit, AuthTime);
  }

  /**
   * The optional claims of an access token are those the audience's own app configures, whatever the client does:
   * none when the audience is no registered app, and none without a user.
   */
  lemma AudienceConfiguresAccessTokens(client: App, subject: Subject, audience: string, i: Issue, d: Directory,
                                       name: Name)
    requires name in {Email, GivenName, FamilyName, Upn, PreferredUsername, Ipaddr, Groups, ClaimNames}
    ensures name in AccessPayload(client, subject, audience, i, d) <==>
              && subject.Delegated? && audience in d.apps
              && name in AppTokenClaims(d.apps[audience], AccessToken, subject.context,
                                        d.groupsOf(subject.context.user.id), d.origins, d.overageLimit)
    ensures name in AccessPayload(client, subject, audience, i, d) ==>
              AccessPayload(client, subject, audience, i, d)[name]
              == AppTokenClaims(d.apps[audience], AccessToken, subject.context,
                                d.groupsOf(subject.context.user.id), d.origins, d.overageLimit)[name]
  {
    match subject
    case AppOnly(roles) => EnvelopeIsConfigured(audience, i, name);
    case Delegated(c) =>
      if name in DelegatedClaims(c.user, client.appId, audience, i) {
        DelegatedClaimsAreFixed(c.user, client.appId, audience, i, name);
        assert false;
      }
  }

  lemma EnvelopeIsConfigured(audience: string, i: Issue, name: Name)
    requires Configurable(name)
    ensures name !in Envelope(audience, i)
  {}

  lemma ShowsAt(app: App, kind: Kind, c: Context, groups: seq<Group>, o: Origins, limit: nat, name: Name,
                value: Option<string>)
    requires name in {Email, GivenName, FamilyName, Upn, PreferredUsername, Ipaddr}
    requires ClaimValue(name, c) == OptText(value)
    ensures Shows(AppTokenClaims(app, kind, c, groups, o, limit), app.Entries(kind), name, value)
  {
    ExtraAt(app, kind, c, groups, o, limit, name);
  }

  lemma ExtraAt(app: App, kind: Kind, c: Context, groups: seq<Group>, o: Origins, limit: nat, name: Name)
    requires !name.Groups? && !name.ClaimNames? && !name.ClaimSources?
    ensures var extra := AppTokenClaims(app, kind, c, groups, o, limit);
            && (name in extra <==> name in app.Entries(kind) && Emits(kind, name, c))
            && (name in extra ==> Some(extra[name]) == ClaimValue(name, c))
  {
    assert name !in GroupClaims(app, kind, groups, o, limit);
  }

  predicate Shows(claims: Claims, listed: seq<Name>, name: Name, value: Option<string>) {
    && (name in claims <==> name in listed && value.Some?)
    && (name in claims ==> claims[name] == Text(value.value))
  }

  /** The scope names of an access token are those granted but `offline_access`. */
  lemma {:induction false} ScpNamesMean(names: seq<string>, name: string)
    ensures name in ScpNames(names) <==> name in names && name != "offline_access"
  {
    if names != [] {
      ScpNamesMean(names[1..], name);
      assert names == [names[0]] + names[1..];
    }
  }

  /** `name` is in the unsupported list exactly when it was configured and is neither groups nor supported. */
  lemma {:induction false} UnsupportedMeans(kind: Kind, entries: seq<Name>, name: Name)
    ensures name in Unsupported(kind, entries) <==>
              && name in entries
              && name !in {Email, Upn, GivenName, FamilyName, PreferredUsername, Ipaddr, Groups}
              && !(kind == IdToken && name == AuthTime)
  {
    if entries != [] {
      var front, last := entries[..|entries| - 1], entries[|entries| - 1];
      assert entries == front + [last];
      UnsupportedMeans(kind, front, name);
    }
  }

  /**
   * Each configured name goes exactly one way: it turns group claims on, or it is supported and emitted exactly
   * when the directory has a value, or it is reported and never emitted with a configured value. Nothing else
   * is added but the group claims.
   */
  lemma EveryNameIsAccountedFor(
    app: App, kind: Kind, c: Context, groups: seq<Group>, o: Origins, limit: nat, name: Name)
    ensures var extra := AppTokenClaims(app, kind, c, groups, o, limit);
            var group := GroupClaims(app, kind, groups, o, limit);
            var entries := app.Entries(kind);
            && (name in extra && name !in group <==>
                  name in entries && name != Groups && Supported(kind, name) && ClaimValue(name, c).Some?)
            && (name in extra && name !in group ==> Some(extra[name]) == ClaimValue(name, c))
            && (name in entries ==>
                  (name == Groups || Supported(kind, name)) != (name in Unsupported(kind, entries)))
            && (name == Groups && name in entries ==> group != map[])
            && (name in Unsupported(kind, entries) && name in extra ==>
                  name in {ClaimNames, ClaimSources} && name in group)
  {
    UnsupportedMeans(kind, app.Entries(kind), name);
    var group := GroupClaims(app, kind, groups, o, limit);
    if GroupClaimsEnabled(app, kind) {
      assert Groups in group || ClaimNames in group;
    }
  }

  /** With group claims on, a token carries all the group ids or the overage pointer, never both and never neither. */
  lemma GroupsOrOverage(app: App, kind: Kind, c: Context, groups: seq<Group>, o: Origins, limit: nat)
    ensures var extra := AppTokenClaims(app, kind, c, groups, o, limit);
            var on := app.groupClaims || Groups in (if kind == IdToken then app.idClaims else app.accessClaims);
            var most := if app.overageLimit.Some? then app.overageLimit.value else limit;
            var over := |groups| > most;
            && (Groups in extra <==> on && !over)
            && (ClaimNames in extra <==> on && over)
            && (ClaimSources in extra <==> on && over)
            && (Groups in extra ==> extra[Groups] == List(Ids(groups)) && |Ids(groups)| <= most)
            && (on && over ==>
                  && extra[ClaimNames] == GroupsAt(SOURCE)
                  && extra[ClaimSources] == SourceAt(SOURCE, OverageEndpoint(o)))
  {}

  lemma MemberOfIsARoute()
    ensures GraphRoute(MEMBER_OF)
  {
    var tail := "me/memberOf";
    assert '?' !in tail && '#' !in tail;
    assert MEMBER_OF[..6] == "/v1.0/";
  }

  /**
   * On overage nothing is lost: a client that goes to the advertised endpoint and follows its next links
   * collects exactly the groups whose ids the array would have carried.
   */
  lemma OverageLosesNothing(app: App, kind: Kind, c: Context, groups: seq<Group>, o: Origins, limit: nat,
                            header: string, num: Numeral)
    requires Deployed(o, header) && ReadsOffsets(num, |groups|)
    requires ClaimSources in AppTokenClaims(app, kind, c, groups, o, limit)
    ensures AppTokenClaims(app, kind, c, groups, o, limit)[ClaimSources] == SourceAt("src1", OverageEndpoint(o))
    ensures var first := Follow(o, header, OverageEndpoint(o));
            Allowed(o, header, true, first) && Collection(o, header, MEMBER_OF, groups, num).Yields(first, groups)
  {
    MemberOfIsARoute();
    assert AppTokenClaims(app, kind, c, groups, o, limit)[ClaimSources] == SourceAt(SOURCE, OverageEndpoint(o));
    PublishedCrawl(o, header, MEMBER_OF, groups, num);
  }
}
