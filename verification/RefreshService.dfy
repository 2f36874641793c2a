/** Issuing and redeeming refresh tokens: rotation on every use, replay detection, scope-down (RFC 6749, section 6). */
module RefreshService {
  import opened Text
  import opened Hashing
  import opened RefreshTokens

  datatype Request = Request(token: string, appId: string, requestedScopes: Option<seq<string>>)

  datatype Refusal = UnknownToken | Reused | Expired | AppMismatch | ScopeNotInGrant | AlreadyUsed

  /** `Raised` is a primary-key conflict on the generated token, which the source does not catch. */
  datatype Outcome =
    | Redeemed(userId: string, scopes: seq<string>, resource: Option<string>, newRefreshToken: string)
    | Rejected(reason: Refusal)
    | Raised

  datatype Verdict = Refuse(reason: Refusal) | Allow(scopes: seq<string>)

  /** The checks between reading a live row and rotating it. */
  function Check(row: RefreshToken, request: Request, now: int): Verdict {
    var original := ReadScopes(row.scopes);
    if row.expiresAt <= now then Refuse(Expired)
    else if row.appId != request.appId then Refuse(AppMismatch)
    else if request.requestedScopes.None? || request.requestedScopes.value == [] then Allow(original)
    else if exists s <- request.requestedScopes.value :: s !in original then Refuse(ScopeNotInGrant)
    else Allow(request.requestedScopes.value)
  }

  /** The replacement row: everything but scopes and expiry is carried over. */
  function Replacement(row: RefreshToken, token: string, scopes: seq<string>, expiresAt: int): NewRefreshToken {
    NewRefreshToken(token, row.appId, row.userId, Join(scopes), row.resource, expiresAt, None)
  }

  /** What a chain inherits from one token to the next. */
  ghost predicate Inherits(parent: RefreshToken, child: RefreshToken) {
    && child.appId == parent.appId
    && child.userId == parent.userId
    && child.resource == parent.resource
    && (forall s <- ReadScopes(child.scopes) :: s in ReadScopes(parent.scopes))
    && parent.expiresAt <= child.expiresAt
  }

  /** A replacement only ever narrows its parent's scopes, whatever strings the caller asked for. */
  lemma ReplacementInherits(row: RefreshToken, request: Request, now: int, token: string, expiresAt: int,
                            parent: Hash, createdAt: int)
    requires Check(row, request, now).Allow?
    requires row.expiresAt <= expiresAt
    ensures var child := Replacement(row, token, Check(row, request, now).scopes, expiresAt);
            Inherits(row, RowOf(child.(rotatedFrom := Some(parent)), createdAt))
  {
    StoredScopesShrink(Check(row, request, now).scopes);
  }

  /** One uninterrupted redemption, as a function of the table and the three clock readings it makes. */
  datatype Readings = Readings(checkedAt: int, stampedAt: int, insertedAt: int)

  ghost function Redeem(t: Table, request: Request, newToken: string, lifetime: int, clock: Readings)
    : (Outcome, Table)
  {
    var h := Sha256(request.token);
    if h !in t then (Rejected(UnknownToken), t)
    else if t[h].revoked then (Rejected(Reused), FamilyRevoked(t, h))
    else
      match Check(t[h], request, clock.checkedAt)
      case Refuse(reason) => (Rejected(reason), t)
      case Allow(scopes) =>
        match Rotate(t, h, Replacement(t[h], newToken, scopes, clock.stampedAt + lifetime), clock.insertedAt)
        case Refused => (Rejected(AlreadyUsed), t)
        case Raised => (Outcome.Raised, t)
        case Rotated(t') => (Redeemed(t[h].userId, scopes, t[h].resource, newToken), t')
  }

  /** The scopes a redemption is for: those requested when any are, and otherwise all that were granted. */
  function GrantedScopes(request: Request, row: RefreshToken): seq<string> {
    match request.requestedScopes
    case Some(scopes) => if |scopes| > 0 then scopes else ReadScopes(row.scopes)
    case None => ReadScopes(row.scopes)
  }

  /**
   * Redemption without interference: it succeeds exactly on a live, unexpired row of the same client with no
   * scope beyond the grant and a fresh replacement; then the old row is spent, exactly one row is added and
   * it is live, and nothing else moves. A refusal changes the table only when it is a replay.
   */
  lemma RedeemMeaning(t: Table, request: Request, newToken: string, lifetime: int, clock: Readings)
    ensures var h := Sha256(request.token);
            var n := Sha256(newToken);
            var (outcome, t') := Redeem(t, request, newToken, lifetime, clock);
            && (outcome.Redeemed? <==>
                && Live(t, h) && t[h].expiresAt > clock.checkedAt && t[h].appId == request.appId && n !in t
                && (request.requestedScopes.Some? ==>
                      forall s <- request.requestedScopes.value :: s in ReadScopes(t[h].scopes)))
            && (outcome.Redeemed? ==>
                && t'.Keys == t.Keys + {n} && Live(t', n) && t'[n].rotatedFrom == Some(h)
                && t'[h] == t[h].(revoked := true)
                && (forall k | k in t && k != h :: t'[k] == t[k])
                && outcome.userId == t[h].userId && outcome.newRefreshToken == newToken
                && outcome.resource == t[h].resource
                && outcome.scopes == GrantedScopes(request, t[h])
                && t'[n] == RefreshToken(
                     appId := t[h].appId, userId := t[h].userId, scopes := Join(outcome.scopes),
                     resource := t[h].resource, expiresAt := clock.stampedAt + lifetime, rotatedFrom := Some(h),
                     revoked := false, createdAt := clock.insertedAt))
            && (!outcome.Redeemed? && outcome != Rejected(Reused) ==> t' == t)
  {
    var h := Sha256(request.token);
    if Live(t, h) {
      RotateMeans(t, h, Replacement(t[h], newToken, GrantedScopes(request, t[h]), clock.stampedAt + lifetime),
                  clock.insertedAt);
    }
  }

  /**
   * Which refusal a redemption without interference gets: the first check that fails, replay before expiry. A
   * replay, and nothing else that is refused, revokes: the whole family of the presented token.
   */
  lemma RefusalMeaning(t: Table, request: Request, newToken: string, lifetime: int, clock: Readings)
    ensures var h := Sha256(request.token);
            var (outcome, t') := Redeem(t, request, newToken, lifetime, clock);
            var unexpired := Live(t, h) && t[h].expiresAt > clock.checkedAt;
            var own := unexpired && t[h].appId == request.appId;
            var beyond := own && request.requestedScopes.Some?
                          && exists s <- request.requestedScopes.value :: s !in ReadScopes(t[h].scopes);
            && (outcome == Rejected(UnknownToken) <==> h !in t)
            && (outcome == Rejected(Reused) <==> h in t && !Live(t, h))
            && (outcome == Rejected(Expired) <==> Live(t, h) && !unexpired)
            && (outcome == Rejected(AppMismatch) <==> unexpired && !own)
            && (outcome == Rejected(ScopeNotInGrant) <==> beyond)
            && outcome != Rejected(AlreadyUsed)
            && (outcome.Raised? <==> own && !beyond && Sha256(newToken) in t)
            && (outcome == Rejected(Reused) ==> t' == FamilyRevoked(t, h))
  {}

  class RefreshTokenService {
    const store: RefreshTokensRepository
    const lifetimeSeconds: int

    constructor (store: RefreshTokensRepository, lifetimeSeconds: int)
      ensures this.store == store && this.lifetimeSeconds == lifetimeSeconds
    {
      this.store := store;
      this.lifetimeSeconds := lifetimeSeconds;
    }

    /** Issues a root of a new rotation chain: the only production caller passes no parent. */
    method IssueRefreshToken(token: string, appId: string, userId: string, scopes: seq<string>,
                             resource: Option<string>, stampedAt: int, insertedAt: int) returns (ok: bool)
      modifies store
      ensures ok <==> Sha256(token) !in old(store.rows)
      ensures store.rows ==
              if !ok then old(store.rows)
              else old(store.rows)[Sha256(token) := RefreshToken(
                     appId := appId, userId := userId, scopes := Join(scopes), resource := resource,
                     expiresAt := stampedAt + lifetimeSeconds, rotatedFrom := None, revoked := false,
                     createdAt := insertedAt)]
    {
      var inserted := store.InsertRow(
        NewRefreshToken(token, appId, userId, Join(scopes), resource, stampedAt + lifetimeSeconds, None),
        insertedAt);
      ok := inserted.Some?;
    }

    method RedeemRefreshToken(request: Request, newToken: string, clock: Readings) returns (outcome: Outcome)
      modifies store
      ensures (outcome, store.rows) == Redeem(old(store.rows), request, newToken, lifetimeSeconds, clock)
    {
      var oldHash := Sha256(request.token);
      var found := store.GetByHash(oldHash);
      if found.None? {
        return Rejected(UnknownToken);
      }
      var row := found.value;
      if row.revoked {
        var _ := store.RevokeFamily(oldHash);
        return Rejected(Reused);
      }
      if row.expiresAt <= clock.checkedAt {
        return Rejected(Expired);
      }
      if row.appId != request.appId {
        return Rejected(AppMismatch);
      }
      var original := ReadScopes(row.scopes);
      var scopes := original;
      if request.requestedScopes.Some? && request.requestedScopes.value != [] {
        if exists s <- request.requestedScopes.value :: s !in original {
          return Rejected(ScopeNotInGrant);
        }
        scopes := request.requestedScopes.value;
      }
      var rotated := store.RotateRow(
        oldHash, Replacement(row, newToken, scopes, clock.stampedAt + lifetimeSeconds), clock.insertedAt);
      match rotated
      case Refused => outcome := Rejected(AlreadyUsed);
      case Raised => outcome := Outcome.Raised;
      case Rotated(_) => outcome := Redeemed(row.userId, scopes, row.resource, newToken);
    }
  }
}
