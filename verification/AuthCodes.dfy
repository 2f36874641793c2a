/** Authorization codes: the table, issuance, and redemption with its PKCE check (RFC 7636, section 4.6). */
module AuthCodes {
  import opened Text

  datatype AuthCode = AuthCode(
    appId: string,
    userId: string,
    redirectUri: string,
    scopes: string,
    resource: Option<string>,
    codeChallenge: Option<string>,
    codeChallengeMethod: Option<string>,
    nonce: Option<string>,
    expiresAt: int,
    consumed: bool,
    createdAt: int)

  /** The table, keyed by the code itself. */
  type Table = map<string, AuthCode>

  predicate Redeemable(t: Table, code: string) { code in t && !t[code].consumed }

  datatype NewAuthCode = NewAuthCode(
    code: string,
    appId: string,
    userId: string,
    redirectUri: string,
    scopes: string,
    resource: Option<string>,
    codeChallenge: Option<string>,
    codeChallengeMethod: Option<string>,
    nonce: Option<string>,
    expiresAt: int)

  /** What `issueAuthCode` is asked for: the grant of one authorization. */
  datatype IssueParams = IssueParams(
    appId: string,
    userId: string,
    redirectUri: string,
    scopes: seq<string>,
    resource: Option<string>,
    codeChallenge: Option<string>,
    codeChallengeMethod: Option<string>,
    nonce: Option<string>)

  /** The row `issueAuthCode` asks the table to store: the grant, its scopes joined. */
  function NewCode(code: string, p: IssueParams, expiresAt: int): NewAuthCode {
    NewAuthCode(code, p.appId, p.userId, p.redirectUri, Join(p.scopes), p.resource, p.codeChallenge,
                p.codeChallengeMethod, p.nonce, expiresAt)
  }

  /** The row is that of a fresh code for the grant: nothing changed, left out or put elsewhere. */
  predicate IssuedFor(row: AuthCode, p: IssueParams, expiresAt: int, createdAt: int) {
    && row.appId == p.appId && row.userId == p.userId && row.redirectUri == p.redirectUri
    && row.scopes == Join(p.scopes) && row.resource == p.resource
    && row.codeChallenge == p.codeChallenge && row.codeChallengeMethod == p.codeChallengeMethod
    && row.nonce == p.nonce && row.expiresAt == expiresAt && row.createdAt == createdAt && !row.consumed
  }

  /** The stored row of a new code, unconsumed. */
  function RowOf(input: NewAuthCode, now: int): AuthCode {
    AuthCode(input.appId, input.userId, input.redirectUri, input.scopes, input.resource, input.codeChallenge,
             input.codeChallengeMethod, input.nonce, input.expiresAt, false, now)
  }

  /** `UPDATE ... SET consumed = 1 WHERE code = ? AND consumed = 0`. */
  function Consume(t: Table, code: string): Table {
    if Redeemable(t, code) then t[code := t[code].(consumed := true)] else t
  }

  function DeleteExpired(t: Table, cutoff: int): Table {
    map code | code in t && t[code].expiresAt > cutoff :: t[code]
  }

  class AuthCodesRepository {
    var rows: Table

    constructor ()
      ensures rows == map[]
    {
      rows := map[];
    }

    /** Stores the code, unconsumed, under its own name; a taken code raises and changes nothing. */
    method InsertRow(input: NewAuthCode, now: int) returns (row: Option<AuthCode>)
      modifies this
      ensures row.Some? <==> input.code !in old(rows)
      ensures row.Some? ==>
                && Redeemable(rows, input.code) && row.value == rows[input.code]
                && row.value == AuthCode(
                     appId := input.appId, userId := input.userId, redirectUri := input.redirectUri,
                     scopes := input.scopes, resource := input.resource, codeChallenge := input.codeChallenge,
                     codeChallengeMethod := input.codeChallengeMethod, nonce := input.nonce,
                     expiresAt := input.expiresAt, consumed := false, createdAt := now)
      ensures forall code | code != input.code || row.None? :: code in rows <==> code in old(rows)
      ensures forall code <- old(rows) :: code in rows && rows[code] == old(rows)[code]
    {
      if input.code in rows {
        return None;
      }
      rows := rows[input.code := RowOf(input, now)];
      row := Some(rows[input.code]);
    }

    method GetByCode(code: string) returns (row: Option<AuthCode>)
      ensures row == if code in rows then Some(rows[code]) else None
    {
      if code in rows {
        row := Some(rows[code]);
      } else {
        row := None;
      }
    }

    /** Single use: the row comes back exactly for the call that consumed it. */
    method ConsumeCode(code: string) returns (row: Option<AuthCode>)
      modifies this
      ensures rows == Consume(old(rows), code)
      ensures row == if Redeemable(old(rows), code) then Some(rows[code]) else None
    {
      if code in rows && !rows[code].consumed {
        rows := rows[code := rows[code].(consumed := true)];
        row := Some(rows[code]);
      } else {
        row := None;
      }
    }

    /** Removes exactly the rows whose expiry is not after the cutoff, and counts them. */
    method DeleteExpiredRows(cutoff: int) returns (deleted: nat)
      modifies this
      ensures forall code :: code in rows <==> code in old(rows) && old(rows)[code].expiresAt > cutoff
      ensures forall code <- rows :: rows[code] == old(rows)[code]
      ensures rows == DeleteExpired(old(rows), cutoff)
      ensures deleted == |old(rows)| - |rows|
    {
      var expired := set code | code in rows && rows[code].expiresAt <= cutoff;
      deleted := |expired|;
      rows := rows - expired;
      assert old(rows).Keys == rows.Keys + expired;
      assert |old(rows).Keys| == |rows.Keys| + |expired|;
    }
  }

  // --- PKCE -----------------------------------------------------------------------------------

  /** A stored method the verifier can decide; an absent one means `plain`. */
  predicate Decidable(method_: Option<string>) {
    method_.None? || LowerCase(method_.value) in ["s256", "plain"]
  }

  /** `verifyPkce`; `s256` is the base64url SHA-256 digest of a verifier. */
  predicate VerifyPkce(challenge: string, method_: Option<string>, verifier: string, s256: string -> string) {
    var m := LowerCase(if method_.Some? then method_.value else "plain");
    if m == "s256" then s256(verifier) == challenge
    else if m == "plain" then verifier == challenge
    else false
  }

  // --- redemption -----------------------------------------------------------------------------

  datatype Request = Request(code: string, appId: string, redirectUri: string, codeVerifier: Option<string>)

  datatype Refusal =
    UnknownCode | AlreadyUsed | Expired | AppMismatch | RedirectMismatch | VerifierRequired | PkceFailed

  datatype Outcome =
    | Redeemed(userId: string, scopes: seq<string>, resource: Option<string>, nonce: Option<string>)
    | Rejected(reason: Refusal)

  /** The PKCE test as a whole: no challenge asks nothing, a challenge asks for a non-empty matching verifier. */
  predicate ProvesPossession(row: AuthCode, verifier: Option<string>, s256: string -> string) {
    row.codeChallenge.Some? ==>
      && verifier.Some? && verifier.value != ""
      && VerifyPkce(row.codeChallenge.value, row.codeChallengeMethod, verifier.value, s256)
  }

  /** The checks between reading an unconsumed row and consuming it; None means they all pass. */
  function Check(row: AuthCode, request: Request, now: int, s256: string -> string): (refusal: Option<Refusal>)
    ensures refusal.None? <==>
            && now < row.expiresAt && row.appId == request.appId && row.redirectUri == request.redirectUri
            && ProvesPossession(row, request.codeVerifier, s256)
  {
    if row.expiresAt <= now then Some(Expired)
    else if row.appId != request.appId then Some(AppMismatch)
    else if row.redirectUri != request.redirectUri then Some(RedirectMismatch)
    else if row.codeChallenge.None? then None
    else if request.codeVerifier.None? || request.codeVerifier.value == "" then Some(VerifierRequired)
    else if !VerifyPkce(row.codeChallenge.value, row.codeChallengeMethod, request.codeVerifier.value, s256) then
      Some(PkceFailed)
    else None
  }

  function Answer(row: AuthCode): Outcome {
    Redeemed(row.userId, ReadScopes(row.scopes), row.resource, row.nonce)
  }

  /**
   * Which verifiers the PKCE test accepts: under S256, in any case, those whose digest is the challenge; under
   * plain or no method the challenge itself and nothing else; under any other method none.
   */
  lemma PkceMeans(challenge: string, method_: Option<string>, verifier: string, s256: string -> string)
    ensures VerifyPkce(challenge, method_, verifier, s256) <==>
              || (method_.Some? && LowerCase(method_.value) == LowerCase("S256") && s256(verifier) == challenge)
              || ((method_.None? || LowerCase(method_.value) == LowerCase("plain")) && verifier == challenge)
  {
    assert LowerCase("S256") == "s256" && LowerCase("plain") == "plain";
  }

  /** One uninterrupted redemption, as a function of the table. */
  function Redeem(t: Table, request: Request, now: int, s256: string -> string): (Outcome, Table) {
    if request.code !in t then (Rejected(UnknownCode), t)
    else if t[request.code].consumed then (Rejected(AlreadyUsed), t)
    else
      match Check(t[request.code], request, now, s256)
      case Some(reason) => (Rejected(reason), t)
      case None => (Answer(t[request.code]), Consume(t, request.code))
  }

  /**
   * Redemption without interference: it succeeds exactly on a stored, unconsumed, unexpired code of the same app
   * and redirect URI whose possession is proved, answers the stored grant, and consumes that row and no other.
   * Every refusal says which of these failed first and leaves the table as it was.
   */
  lemma RedeemMeaning(t: Table, request: Request, now: int, s256: string -> string)
    ensures var (outcome, t') := Redeem(t, request, now, s256);
            var c := request.code;
            var stored := c in t && !t[c].consumed;
            var unexpired := stored && now < t[c].expiresAt;
            var own := unexpired && t[c].appId == request.appId;
            var here := own && t[c].redirectUri == request.redirectUri;
            var asked := here && t[c].codeChallenge.Some?;
            var answered := request.codeVerifier.Some? && request.codeVerifier.value != "";
            var proved := asked && answered && VerifyPkce(t[c].codeChallenge.value, t[c].codeChallengeMethod,
                                                          request.codeVerifier.value, s256);
            && (outcome == Rejected(UnknownCode) <==> c !in t)
            && (outcome == Rejected(AlreadyUsed) <==> c in t && t[c].consumed)
            && (outcome == Rejected(Expired) <==> stored && !unexpired)
            && (outcome == Rejected(AppMismatch) <==> unexpired && !own)
            && (outcome == Rejected(RedirectMismatch) <==> own && !here)
            && (outcome == Rejected(VerifierRequired) <==> asked && !answered)
            && (outcome == Rejected(PkceFailed) <==> asked && answered && !proved)
            && (outcome.Redeemed? <==> here && (asked ==> proved))
            && (outcome.Redeemed? ==>
                  && outcome.userId == t[c].userId && outcome.scopes == ReadScopes(t[c].scopes)
                  && outcome.resource == t[c].resource && outcome.nonce == t[c].nonce
                  && t' == t[c := t[c].(consumed := true)])
            && (outcome.Rejected? ==> t' == t)
  {}

  class AuthCodeService {
    const store: AuthCodesRepository
    const lifetimeSeconds: int

    constructor (store: AuthCodesRepository, lifetimeSeconds: int)
      ensures this.store == store && this.lifetimeSeconds == lifetimeSeconds
    {
      this.store := store;
      this.lifetimeSeconds := lifetimeSeconds;
    }

    /** Issues a code for a grant: redeemable, its scopes joined, its expiry one lifetime ahead. */
    method IssueAuthCode(code: string, params: IssueParams, stampedAt: int, insertedAt: int) returns (ok: bool)
      modifies store
      ensures ok <==> code !in old(store.rows)
      ensures ok ==> code in store.rows
                     && IssuedFor(store.rows[code], params, stampedAt + lifetimeSeconds, insertedAt)
      ensures !ok ==> store.rows == old(store.rows)
      ensures forall k <- old(store.rows) :: k in store.rows && store.rows[k] == old(store.rows)[k]
    {
      var row := store.InsertRow(NewCode(code, params, stampedAt + lifetimeSeconds), insertedAt);
      ok := row.Some?;
    }

    /** Uninterrupted redemption: success consumes the row, every refusal leaves the table as it was. */
    method RedeemAuthCode(request: Request, now: int, s256: string -> string) returns (outcome: Outcome)
      modifies store
      ensures (outcome, store.rows) == Redeem(old(store.rows), request, now, s256)
    {
      var found := store.GetByCode(request.code);
      if found.None? {
        return Rejected(UnknownCode);
      }
      var row := found.value;
      if row.consumed {
        return Rejected(AlreadyUsed);
      }
      if row.expiresAt <= now {
        return Rejected(Expired);
      }
      if row.appId != request.appId {
        return Rejected(AppMismatch);
      }
      if row.redirectUri != request.redirectUri {
        return Rejected(RedirectMismatch);
      }
      if row.codeChallenge.Some? {
        if request.codeVerifier.None? || request.codeVerifier.value == "" {
          return Rejected(VerifierRequired);
        }
        if !VerifyPkce(row.codeChallenge.value, row.codeChallengeMethod, request.codeVerifier.value, s256) {
          return Rejected(PkceFailed);
        }
      }
      var consumed := store.ConsumeCode(request.code);
      if consumed.None? {
        return Rejected(AlreadyUsed);
      }
      outcome := Redeemed(row.userId, ReadScopes(row.scopes), row.resource, row.nonce);
    }
  }
}
