/** The authorization request: validation, its PKCE rules, and the snapshot carried across sign-in. */
module Authorize {
  import opened Text
  import opened Scopes
  import opened AuthCodes

  /** The registered app, as far as `/authorize` reads it. */
  datatype Client = Client(appId: string, isConfidential: bool, redirectUris: set<string>)

  /** The query or body parameters; None is an absent (or non-string) one. */
  datatype Params = Params(
    clientId: Option<string>,
    redirectUri: Option<string>,
    responseMode: Option<string>,
    responseType: Option<string>,
    scope: Option<string>,
    state: Option<string>,
    nonce: Option<string>,
    codeChallenge: Option<string>,
    codeChallengeMethod: Option<string>,
    prompt: Option<string>,
    loginHint: Option<string>)

  datatype Validated = Validated(
    app: Client,
    redirectUri: string,
    responseMode: string,
    scope: string,
    scopes: seq<string>,
    resource: Option<string>,
    state: Option<string>,
    nonce: Option<string>,
    codeChallenge: Option<string>,
    codeChallengeMethod: Option<string>,
    prompt: Option<string>,
    loginHint: Option<string>)

  datatype Outcome =
    | ErrorPage(title: string)
    | RedirectError(redirectUri: string, responseMode: string, error: string, state: Option<string>)
    | Ok(validated: Validated)

  /** JavaScript truthiness of an optional string. */
  predicate Given(p: Option<string>) { p.Some? && p.value != "" }

  function Or(p: Option<string>, default_: string): string { if p.Some? then p.value else default_ }

  /** `validateAuthorize`. The scope test is a parameter: it reads other tables. */
  function Validate(p: Params, apps: map<string, Client>, scopesAreValid: seq<string> -> bool): Outcome {
    if !Given(p.clientId) then ErrorPage("Invalid request")
    else if p.clientId.value !in apps then ErrorPage("Unknown application")
    else if !Given(p.redirectUri) then ErrorPage("Invalid request")
    else
      var app := apps[p.clientId.value];
      var uri := p.redirectUri.value;
      if uri !in app.redirectUris then ErrorPage("Invalid redirect URI")
      else
        var mode := Or(p.responseMode, "query");
        if mode !in ["query", "fragment", "form_post"] then RedirectError(uri, "query", "invalid_request", p.state)
        else if p.responseType != Some("code") then RedirectError(uri, mode, "unsupported_response_type", p.state)
        else if !Given(p.scope) || SplitScopes(p.scope.value) == [] then
          RedirectError(uri, mode, "invalid_request", p.state)
        else if !scopesAreValid(SplitScopes(p.scope.value)) then RedirectError(uri, mode, "invalid_scope", p.state)
        else if !app.isConfidential && !Given(p.codeChallenge) then
          RedirectError(uri, mode, "invalid_request", p.state)
        else if Given(p.codeChallenge) && Or(p.codeChallengeMethod, "plain") !in ["S256", "plain"] then
          RedirectError(uri, mode, "invalid_request", p.state)
        else
          var scopes := SplitScopes(p.scope.value);
          Ok(Validated(app, uri, mode, p.scope.value, scopes, ResolveResource(scopes), p.state, p.nonce,
                       p.codeChallenge, p.codeChallengeMethod, p.prompt, p.loginHint))
  }

  /** The client is registered and the redirect URI is registered for it: errors may be sent there. */
  predicate Trusted(p: Params, apps: map<string, Client>) {
    && Given(p.clientId) && p.clientId.value in apps
    && Given(p.redirectUri) && p.redirectUri.value in apps[p.clientId.value].redirectUris
  }

  /**
   * A request is accepted exactly when client and redirect URI are registered, the response mode is absent or one
   * of three, the response type is code, there are scopes and all are valid, a public client gives a challenge,
   * and a challenge that is given comes with a known method or none.
   */
  lemma AcceptedExactly(p: Params, apps: map<string, Client>, scopesAreValid: seq<string> -> bool)
    ensures var challenged := p.codeChallenge.Some? && |p.codeChallenge.value| > 0;
            Validate(p, apps, scopesAreValid).Ok? <==>
              && Trusted(p, apps)
              && (p.responseMode.Some? ==> p.responseMode.value in {"query", "fragment", "form_post"})
              && p.responseType == Some("code")
              && p.scope.Some? && SplitScopes(p.scope.value) != [] && scopesAreValid(SplitScopes(p.scope.value))
              && (challenged || apps[p.clientId.value].isConfidential)
              && (challenged && p.codeChallengeMethod.Some? ==> p.codeChallengeMethod.value in {"S256", "plain"})
  {
    assert SplitScopes("") == [];
  }

  /** What is accepted is what was asked for: no parameter is changed, dropped or put in another's place. */
  lemma AcceptedAsAsked(p: Params, apps: map<string, Client>, scopesAreValid: seq<string> -> bool)
    requires Validate(p, apps, scopesAreValid).Ok?
    ensures var v := Validate(p, apps, scopesAreValid).validated;
            && p.clientId.Some? && p.clientId.value in apps && v.app == apps[p.clientId.value]
            && Some(v.redirectUri) == p.redirectUri && Some(v.scope) == p.scope
            && v.responseMode == (if p.responseMode == None then "query" else p.responseMode.value)
            && v.scopes == SplitScopes(v.scope) && v.resource == ResolveResource(v.scopes)
            && v.state == p.state && v.nonce == p.nonce
            && v.codeChallenge == p.codeChallenge && v.codeChallengeMethod == p.codeChallengeMethod
            && v.prompt == p.prompt && v.loginHint == p.loginHint
  {}

  /**
   * A refusal names the first rule that fails. Without a registered client and redirect URI it is a page; any
   * other goes back to the redirect URI with the request's state, in the mode asked for unless that is the fault.
   */
  lemma RefusalMeaning(p: Params, apps: map<string, Client>, scopesAreValid: seq<string> -> bool)
    ensures var o := Validate(p, apps, scopesAreValid);
            var modeKnown := p.responseMode.Some? ==> p.responseMode.value in {"query", "fragment", "form_post"};
            var isCode := modeKnown && p.responseType == Some("code");
            var scopes := if p.scope.Some? then SplitScopes(p.scope.value) else [];
            && (o.ErrorPage? <==> !Trusted(p, apps))
            && (o.ErrorPage? && o.title == "Unknown application" <==>
                  Given(p.clientId) && p.clientId.value !in apps)
            && (o.ErrorPage? && o.title == "Invalid redirect URI" <==>
                  && Given(p.clientId) && p.clientId.value in apps && Given(p.redirectUri)
                  && p.redirectUri.value !in apps[p.clientId.value].redirectUris)
            && (o.RedirectError? ==>
                  && Some(o.redirectUri) == p.redirectUri && o.state == p.state
                  && o.responseMode == (if modeKnown then Or(p.responseMode, "query") else "query")
                  && (o.error == "unsupported_response_type" <==> modeKnown && !isCode)
                  && (o.error == "invalid_scope" <==> isCode && scopes != [] && !scopesAreValid(scopes))
                  && o.error in {"invalid_request", "unsupported_response_type", "invalid_scope"})
  {
    assert SplitScopes("") == [];
  }

  /** No outcome ever redirects anywhere but to a URI registered for the named client. */
  lemma NeverAnOpenRedirect(p: Params, apps: map<string, Client>, scopesAreValid: seq<string> -> bool)
    ensures var o := Validate(p, apps, scopesAreValid);
            var target := match o case ErrorPage(_) => None case RedirectError(uri, _, _, _) => Some(uri)
                                  case Ok(v) => Some(v.redirectUri);
            target.Some? ==>
              && p.clientId.Some? && p.clientId.value in apps
              && target == p.redirectUri && target.value in apps[p.clientId.value].redirectUris
  {
  }

  // --- PKCE across issuance and redemption --------------------------------------------------------

  /** The row `issueAuthCode` stores for a validated request. */
  function CodeRow(v: Validated, userId: string, expiresAt: int, now: int): AuthCode {
    RowOf(NewCode("", GrantOf(v, userId), expiresAt), now)
  }

  /** What the handlers ask `issueAuthCode` for once the user has signed in. */
  function GrantOf(v: Validated, userId: string): IssueParams {
    IssueParams(v.app.appId, userId, v.redirectUri, v.scopes, v.resource, v.codeChallenge, v.codeChallengeMethod,
                v.nonce)
  }

  /** The code of an accepted request is issued for that very request and the signed-in user. */
  lemma CodeIsForTheRequest(p: Params, apps: map<string, Client>, scopesAreValid: seq<string> -> bool,
                            userId: string, expiresAt: int, now: int)
    requires Validate(p, apps, scopesAreValid).Ok?
    requires forall id <- apps :: apps[id].appId == id
    ensures p.clientId.Some? && p.redirectUri.Some? && p.scope.Some?
    ensures var row := CodeRow(Validate(p, apps, scopesAreValid).validated, userId, expiresAt, now);
            var scopes := SplitScopes(p.scope.value);
            row == AuthCode(
              appId := p.clientId.value, userId := userId, redirectUri := p.redirectUri.value,
              scopes := Join(scopes), resource := ResolveResource(scopes), codeChallenge := p.codeChallenge,
              codeChallengeMethod := p.codeChallengeMethod, nonce := p.nonce, expiresAt := expiresAt,
              consumed := false, createdAt := now)
  {}

  /** Some verifier passes the PKCE check of the row. */
  ghost predicate CanBeProved(row: AuthCode, s256: string -> string) {
    exists verifier: Option<string> :: ProvesPossession(row, verifier, s256)
  }

  /** The challenge is the digest of some non-empty verifier. */
  ghost predicate IsDigest(challenge: string, s256: string -> string) {
    exists verifier :: verifier != "" && s256(verifier) == challenge
  }

  /** Every non-empty challenge that `/authorize` accepts carries a method the verifier can decide. */
  lemma AcceptedMethodIsDecidable(p: Params, apps: map<string, Client>, scopesAreValid: seq<string> -> bool)
    requires Validate(p, apps, scopesAreValid).Ok?
    requires Given(p.codeChallenge)
    ensures Decidable(Validate(p, apps, scopesAreValid).validated.codeChallengeMethod)
  {
    var m := Or(p.codeChallengeMethod, "plain");
    assert LowerCase("S256") == "s256" && LowerCase("plain") == "plain";
  }

  /** Of the accepted challenges exactly the empty one can carry a method unknown to the verifier. */
  lemma DecidableExactly(p: Params, apps: map<string, Client>, scopesAreValid: seq<string> -> bool)
    requires Validate(p, apps, scopesAreValid).Ok? && p.codeChallenge.Some?
    ensures Decidable(Validate(p, apps, scopesAreValid).validated.codeChallengeMethod)
            <==> p.codeChallenge.value != "" || LowerCase(Or(p.codeChallengeMethod, "plain")) in ["s256", "plain"]
  {
    assert LowerCase("plain") == "plain";
    if Given(p.codeChallenge) {
      AcceptedMethodIsDecidable(p, apps, scopesAreValid);
    }
  }

  /**
   * The code of an accepted request can be redeemed by some verifier exactly when its challenge is absent,
   * or is non-empty and, under S256, is a digest at all. An empty challenge escapes the method check and is
   * stored, so its code is beyond redemption.
   */
  lemma AcceptedChallengeCanBeProved(p: Params, apps: map<string, Client>, scopesAreValid: seq<string> -> bool,
                                     userId: string, expiresAt: int, now: int, s256: string -> string)
    requires Validate(p, apps, scopesAreValid).Ok?
    requires forall verifier :: s256(verifier) != ""
    ensures var v := Validate(p, apps, scopesAreValid).validated;
            CanBeProved(CodeRow(v, userId, expiresAt, now), s256) <==>
              || p.codeChallenge.None?
              || (p.codeChallenge.value != "" &&
                    (p.codeChallengeMethod == Some("S256") ==> IsDigest(p.codeChallenge.value, s256)))
  {
    var v := Validate(p, apps, scopesAreValid).validated;
    var row := CodeRow(v, userId, expiresAt, now);
    assert LowerCase("S256") == "s256" && LowerCase("plain") == "plain";
    if p.codeChallenge.None? {
      assert ProvesPossession(row, None, s256);
    } else if p.codeChallenge.value != "" && p.codeChallengeMethod != Some("S256") {
      assert ProvesPossession(row, p.codeChallenge, s256);
    } else if p.codeChallenge.value != "" && IsDigest(p.codeChallenge.value, s256) {
      var w :| w != "" && s256(w) == p.codeChallenge.value;
      assert ProvesPossession(row, Some(w), s256);
    }
  }

  /** An authorization request with an empty challenge and a method no verifier knows. */
  const EMPTY_CHALLENGE := Params(Some("app"), Some("uri"), None, Some("code"), Some("x"), None, None,
                                  Some(""), Some("m"), None, None)

  /** A confidential client's request with an empty challenge is accepted, and its code cannot be redeemed. */
  lemma EmptyChallengeIsAccepted(s256: string -> string)
    requires forall verifier :: s256(verifier) != ""
    ensures var o := Validate(EMPTY_CHALLENGE, map["app" := Client("app", true, {"uri"})], _ => true);
            && o.Ok? && !Decidable(o.validated.codeChallengeMethod)
            && !CanBeProved(CodeRow(o.validated, "user", 60, 0), s256)
  {
    var apps := map["app" := Client("app", true, {"uri"})];
    assert !Decidable(Some("m")) by {
      assert |LowerCase("m")| == 1;
    }
    assert SplitScopes("x") != [];
    AcceptedChallengeCanBeProved(EMPTY_CHALLENGE, apps, _ => true, "user", 60, 0, s256);
  }

  // --- the signed snapshot ------------------------------------------------------------------------

  datatype AuthorizeState = AuthorizeState(
    clientId: string,
    redirectUri: string,
    scope: string,
    responseMode: string,
    state: Option<string>,
    nonce: Option<string>,
    codeChallenge: Option<string>,
    codeChallengeMethod: Option<string>,
    resource: Option<string>,
    scopes: seq<string>)

  function ValidatedToState(v: Validated): AuthorizeState {
    AuthorizeState(v.app.appId, v.redirectUri, v.scope, v.responseMode, v.state, v.nonce, v.codeChallenge,
                   v.codeChallengeMethod, v.resource, v.scopes)
  }

  function StateToValidated(s: AuthorizeState, app: Client): Validated {
    Validated(app, s.redirectUri, s.responseMode, s.scope, s.scopes, s.resource, s.state, s.nonce,
              s.codeChallenge, s.codeChallengeMethod, None, None)
  }

  /**
   * Signing in interactively changes nothing about the grant: the code issued from the resumed request is
   * the code the original request would have been issued. Only `prompt` and `login_hint` are dropped.
   */
  lemma SnapshotKeepsTheGrant(v: Validated, userId: string, expiresAt: int, now: int)
    ensures StateToValidated(ValidatedToState(v), v.app) == v.(prompt := None, loginHint := None)
    ensures CodeRow(StateToValidated(ValidatedToState(v), v.app), userId, expiresAt, now)
         == CodeRow(v, userId, expiresAt, now)
  {
  }
}
