/** The signing-key table, the service that caches imported keys, and the validator of access tokens. */
module SigningKeys {
  import opened Text
  import opened Scopes
  import opened TokenConfig

  // --- keys and tokens; signatures are ideal ---------------------------------------------------

  datatype PrivateKey = PrivateKey(seed: string)

  /** The public half: one for each private key. */
  datatype PublicKey = PublicKey(half: PrivateKey)

  /** A compact JWS: protected header, payload, and the key that signed exactly these. */
  datatype Jws = Jws(alg: string, kid: string, payload: Claims, signer: PrivateKey)

  predicate Verifies(token: Jws, key: PublicKey) { token.signer == key.half }

  const SIGNING_ALG := "RS256"
  const CLOCK_SKEW := 60

  // --- the table ------------------------------------------------------------------------------

  datatype Row = Row(kid: string, tenantId: string, publicJwk: PublicKey, privatePkcs8: PrivateKey,
                     isActive: bool, createdAt: int, notAfter: Option<int>)

  type Table = map<string, Row>

  /** A key to insert, its halves a pair as `generateSigningKey` makes them. */
  datatype NewKey = NewKey(kid: string, tenantId: string, privatePkcs8: PrivateKey,
                           isActive: Option<bool>, notAfter: Option<int>)

  function StoredRow(key: NewKey, active: bool, now: int): Row {
    Row(key.kid, key.tenantId, PublicKey(key.privatePkcs8), key.privatePkcs8, active, now, key.notAfter)
  }

  function ClearActive(rows: Table, tenantId: string): Table {
    map kid | kid in rows :: if rows[kid].tenantId == tenantId then rows[kid].(isActive := false) else rows[kid]
  }

  /** The insert transaction; a kid already present violates the primary key and rolls everything back. */
  function Insert(rows: Table, key: NewKey, now: int): Option<Table> {
    var active := key.isActive.None? || key.isActive.value;
    if key.kid in rows then None
    else Some((if active then ClearActive(rows, key.tenantId) else rows)[key.kid := StoredRow(key, active, now)])
  }

  predicate Names(rows: Table, kid: string, tenantId: string) { kid in rows && rows[kid].tenantId == tenantId }

  /** The activation transaction: clear the tenant, then mark the key if it is the tenant's. */
  function SetActive(rows: Table, kid: string, tenantId: string): Table {
    var cleared := ClearActive(rows, tenantId);
    if Names(rows, kid, tenantId) then cleared[kid := cleared[kid].(isActive := true)] else cleared
  }

  predicate IsActive(rows: Table, kid: string, tenantId: string) { Names(rows, kid, tenantId) && rows[kid].isActive }

  ghost predicate HasActive(rows: Table, tenantId: string) { exists kid :: IsActive(rows, kid, tenantId) }

  /** No tenant has two active keys, and every row sits under its kid with a matching pair. */
  ghost predicate Consistent(rows: Table) {
    && (forall k, l, t | IsActive(rows, k, t) && IsActive(rows, l, t) :: k == l)
    && forall kid <- rows :: rows[kid].kid == kid && rows[kid].publicJwk == PublicKey(rows[kid].privatePkcs8)
  }

  /** Every key is still there with its pair, tenant and lifetime; only the active flags may differ. */
  ghost predicate KeepsKeys(before: Table, after: Table) {
    forall kid <- before :: kid in after && after[kid] == before[kid].(isActive := after[kid].isActive)
  }

  /** Insertion keeps at most one active key a tenant; a key inserted active is then the tenant's active key. */
  lemma InsertKeepsOneActive(rows: Table, key: NewKey, now: int)
    requires Consistent(rows) && Insert(rows, key, now).Some?
    ensures var after := Insert(rows, key, now).value;
            && Consistent(after) && KeepsKeys(rows, after)
            && (key.isActive != Some(false) ==> IsActive(after, key.kid, key.tenantId))
            && (forall t, kid | t != key.tenantId || key.isActive == Some(false) ::
                  IsActive(after, kid, t) <==> IsActive(rows, kid, t))
  {
    var active := key.isActive != Some(false);
    var after := Insert(rows, key, now).value;
    assert active ==> forall kid | kid != key.kid :: !IsActive(after, kid, key.tenantId);
    forall k, l, t | IsActive(after, k, t) && IsActive(after, l, t) ensures k == l {
      if t != key.tenantId || !active {
        assert IsActive(rows, k, t) && IsActive(rows, l, t);
      }
    }
  }

  /** Activation keeps at most one active key a tenant, and leaves one exactly when it names a key of the tenant. */
  lemma SetActiveLeavesOneExactlyForAKnownKey(rows: Table, kid: string, tenantId: string)
    requires Consistent(rows)
    ensures var after := SetActive(rows, kid, tenantId);
            && Consistent(after) && KeepsKeys(rows, after)
            && (HasActive(after, tenantId) <==> Names(rows, kid, tenantId))
            && (forall k :: IsActive(after, k, tenantId) ==> k == kid)
            && (forall t, k | t != tenantId :: IsActive(after, k, t) <==> IsActive(rows, k, t))
  {
    var after := SetActive(rows, kid, tenantId);
    forall k, l, t | IsActive(after, k, t) && IsActive(after, l, t) ensures k == l {
      if t != tenantId {
        assert IsActive(rows, k, t) && IsActive(rows, l, t);
      }
    }
    if Names(rows, kid, tenantId) {
      assert IsActive(after, kid, tenantId);
    }
  }

  class SigningKeysRepository {
    var rows: Table

    constructor ()
      ensures rows == map[]
    {
      rows := map[];
    }

    /** The tenant's active key; of several it would be the newest, but there are never several. */
    method GetActive(tenantId: string) returns (row: Option<Row>)
      requires Consistent(rows)
      ensures row.None? <==> !HasActive(rows, tenantId)
      ensures row.Some? ==> IsActive(rows, row.value.kid, tenantId) && rows[row.value.kid] == row.value
    {
      if kid :| kid in rows && IsActive(rows, kid, tenantId) {
        row := Some(rows[kid]);
      } else {
        assert forall kid :: IsActive(rows, kid, tenantId) ==> kid in rows;
        row := None;
      }
    }

    method GetByKid(kid: string) returns (row: Option<Row>)
      ensures row == if kid in rows then Some(rows[kid]) else None
    {
      row := if kid in rows then Some(rows[kid]) else None;
    }

    /** The stored row, or nothing when the kid was taken and the transaction rolled back. */
    method InsertKey(key: NewKey, now: int) returns (row: Option<Row>)
      requires Consistent(rows)
      modifies this
      ensures Consistent(rows) && KeepsKeys(old(rows), rows)
      ensures row.Some? <==> key.kid !in old(rows)
      ensures row.Some? ==> Insert(old(rows), key, now) == Some(rows) && key.kid in rows && row == Some(rows[key.kid])
      ensures row.Some? ==>
                row.value == Row(
                  kid := key.kid, tenantId := key.tenantId, publicJwk := PublicKey(key.privatePkcs8),
                  privatePkcs8 := key.privatePkcs8, isActive := key.isActive != Some(false), createdAt := now,
                  notAfter := key.notAfter)
      ensures row.None? ==> rows == old(rows)
    {
      var active := if key.isActive.Some? then key.isActive.value else true;
      if key.kid in rows {
        return None;
      }
      InsertKeepsOneActive(rows, key, now);
      if active {
        rows := ClearActive(rows, key.tenantId);
      }
      rows := rows[key.kid := StoredRow(key, active, now)];
      row := Some(rows[key.kid]);
    }

    method Activate(kid: string, tenantId: string) returns (changed: bool)
      requires Consistent(rows)
      modifies this
      ensures rows == SetActive(old(rows), kid, tenantId)
      ensures Consistent(rows) && KeepsKeys(old(rows), rows)
      ensures changed <==> HasActive(rows, tenantId)
    {
      SetActiveLeavesOneExactlyForAKnownKey(rows, kid, tenantId);
      rows := ClearActive(rows, tenantId);
      changed := kid in rows && rows[kid].tenantId == tenantId;
      if changed {
        rows := rows[kid := rows[kid].(isActive := true)];
      }
    }
  }

  // --- validation -----------------------------------------------------------------------------

  /** What a caller presents: no compact JWS at all, or a parsed one. */
  datatype Bearer = Garbage | Compact(token: Jws)

  datatype Failure =
    | Malformed | InvalidAlgorithm | UnknownKey | InvalidSignature | InvalidIssuer | Expired | NotYetValid
    | InvalidAudience | InsufficientScope | InsufficientRole

  datatype Verdict = Valid(claims: Claims) | Invalid(error: Failure)

  datatype Options = Options(audiences: Option<set<string>>, requiredScopes: set<string>, requiredRoles: set<string>)

  datatype Expectation = Expectation(issuer: string, graphResourceId: string)

  function NonEmpty(parts: seq<string>): set<string> { set p | p in parts && p != "" }

  function GrantedScopes(claims: Claims): set<string> {
    if Scp in claims && claims[Scp].Text? then NonEmpty(Split(claims[Scp].text)) else {}
  }

  function GrantedRoles(claims: Claims): set<string> {
    if Roles in claims && claims[Roles].List? then (set r | r in claims[Roles].items) else {}
  }

  function Accepted(opts: Options, e: Expectation): set<string> {
    if opts.audiences.Some? then opts.audiences.value else {e.graphResourceId}
  }

  /** The checks on the claims of a token whose signature holds, in order. */
  function CheckClaims(claims: Claims, opts: Options, e: Expectation, now: int): Verdict {
    if !(Iss in claims && claims[Iss] == Value.Text(e.issuer)) then Invalid(InvalidIssuer)
    else if Exp in claims && claims[Exp].Number? && now > claims[Exp].n + CLOCK_SKEW then Invalid(Expired)
    else if Nbf in claims && claims[Nbf].Number? && now < claims[Nbf].n - CLOCK_SKEW then Invalid(NotYetValid)
    else if !(Aud in claims && claims[Aud].Text? && claims[Aud].text in Accepted(opts, e)) then Invalid(InvalidAudience)
    else if !(opts.requiredScopes <= GrantedScopes(claims)) then Invalid(InsufficientScope)
    else if !(opts.requiredRoles <= GrantedRoles(claims)) then Invalid(InsufficientRole)
    else Valid(claims)
  }

  /** `validateAccessToken`, with the table's key for each kid. */
  function Validate(rows: Table, bearer: Bearer, opts: Options, e: Expectation, now: int): Verdict {
    match bearer
    case Garbage => Invalid(Malformed)
    case Compact(token) =>
      if token.alg != SIGNING_ALG then Invalid(InvalidAlgorithm)
      else if token.kid == "" || token.kid !in rows then Invalid(UnknownKey)
      else if !Verifies(token, rows[token.kid].publicJwk) then Invalid(InvalidSignature)
      else CheckClaims(token.payload, opts, e, now)
  }

  /** Which claims pass, and which of issuer, times (with a minute's skew), audience, scopes and roles fails first. */
  lemma ClaimsVerdict(p: Claims, opts: Options, e: Expectation, now: int)
    ensures var v := CheckClaims(p, opts, e, now);
            var issued := Iss in p && p[Iss] == Value.Text(e.issuer);
            var unexpired := issued && (Exp in p && p[Exp].Number? ==> now <= p[Exp].n + 60);
            var started := unexpired && (Nbf in p && p[Nbf].Number? ==> p[Nbf].n - 60 <= now);
            var addressed := started && Aud in p && p[Aud].Text?
                             && if opts.audiences.Some? then p[Aud].text in opts.audiences.value
                                else p[Aud].text == e.graphResourceId;
            var scoped := addressed && forall s <- opts.requiredScopes :: s in GrantedScopes(p);
            && (v == Invalid(InvalidIssuer) <==> !issued)
            && (v == Invalid(Expired) <==> issued && !unexpired)
            && (v == Invalid(NotYetValid) <==> unexpired && !started)
            && (v == Invalid(InvalidAudience) <==> started && !addressed)
            && (v == Invalid(InsufficientScope) <==> addressed && !scoped)
            && (v == Invalid(InsufficientRole) <==>
                  scoped && exists r <- opts.requiredRoles :: r !in GrantedRoles(p))
            && (v.Valid? <==> scoped && forall r <- opts.requiredRoles :: r in GrantedRoles(p))
            && (v.Valid? ==> v.claims == p)
  {}

  /** Before any claim is read: the algorithm, the key by its kid, and the signature under that key. */
  lemma SignatureVerdict(rows: Table, token: Jws, opts: Options, e: Expectation, now: int)
    ensures var v := Validate(rows, Compact(token), opts, e, now);
            var known := token.alg == "RS256" && token.kid != "" && token.kid in rows;
            && (v == Invalid(InvalidAlgorithm) <==> token.alg != "RS256")
            && (v == Invalid(UnknownKey) <==> token.alg == "RS256" && !known)
            && (v == Invalid(InvalidSignature) <==> known && token.signer != rows[token.kid].publicJwk.half)
            && (known && token.signer == rows[token.kid].publicJwk.half ==>
                  v == CheckClaims(token.payload, opts, e, now))
    ensures Validate(rows, Garbage, opts, e, now) == Invalid(Malformed)
  {}

  // --- the service ----------------------------------------------------------------------------

  datatype JwksKey = JwksKey(kid: string, key: PublicKey)

  predicate Publishes(row: Row, tenantId: string, now: int) {
    row.tenantId == tenantId && (row.isActive || row.notAfter.None? || row.notAfter.value > now)
  }

  /** `listJwks`, as a set. */
  function Jwks(rows: Table, tenantId: string, now: int): set<JwksKey> {
    set kid | kid in rows && Publishes(rows[kid], tenantId, now) :: JwksKey(kid, rows[kid].publicJwk)
  }

  /** Every cached key is the one the table has for its kid. */
  ghost predicate CachesAgree(rows: Table, private_: map<string, PrivateKey>, public_: map<string, PublicKey>) {
    && (forall kid <- private_ :: kid in rows && private_[kid] == rows[kid].privatePkcs8)
    && (forall kid <- public_ :: kid in rows && public_[kid] == rows[kid].publicJwk)
  }

  class SigningService {
    const store: SigningKeysRepository
    var privateCache: map<string, PrivateKey>
    var publicCache: map<string, PublicKey>

    constructor (store: SigningKeysRepository)
      requires Consistent(store.rows)
      ensures this.store == store && Coherent()
    {
      this.store := store;
      privateCache, publicCache := map[], map[];
    }

    ghost predicate Coherent()
      reads this, store
    {
      Consistent(store.rows) && CachesAgree(store.rows, privateCache, publicCache)
    }

    /** An existing active key is reused unchanged; otherwise the fresh pair becomes the active key. */
    method EnsureActiveKey(tenantId: string, freshKid: string, pair: PrivateKey, now: int) returns (row: Row)
      requires Coherent() && freshKid !in store.rows
      modifies store
      ensures Coherent() && KeepsKeys(old(store.rows), store.rows)
      ensures IsActive(store.rows, row.kid, tenantId) && store.rows[row.kid] == row
      ensures HasActive(old(store.rows), tenantId) ==> store.rows == old(store.rows)
      ensures !HasActive(old(store.rows), tenantId) ==> row.kid == freshKid && row.privatePkcs8 == pair
    {
      var existing := store.GetActive(tenantId);
      if existing.Some? {
        return existing.value;
      }
      InsertKeepsOneActive(store.rows, NewKey(freshKid, tenantId, pair, Some(true), None), now);
      var inserted := store.InsertKey(NewKey(freshKid, tenantId, pair, Some(true), None), now);
      row := inserted.value;
    }

    /** The active key of the tenant, through the cache; none when the tenant has no active key. */
    method GetActiveSigner(tenantId: string) returns (signer: Option<(string, PrivateKey)>)
      requires Coherent()
      modifies this
      ensures Coherent()
      ensures signer.None? <==> !HasActive(store.rows, tenantId)
      ensures signer.Some? ==> IsActive(store.rows, signer.value.0, tenantId)
                               && signer.value.1 == store.rows[signer.value.0].privatePkcs8
    {
      var active := store.GetActive(tenantId);
      if active.None? {
        return None;
      }
      var kid := active.value.kid;
      if kid !in privateCache {
        privateCache := privateCache[kid := active.value.privatePkcs8];
      }
      signer := Some((kid, privateCache[kid]));
    }

    /** The public key of any stored kid, through the cache. */
    method GetVerificationKey(kid: string) returns (key: Option<PublicKey>)
      requires Coherent()
      modifies this
      ensures Coherent()
      ensures key == if kid in store.rows then Some(store.rows[kid].publicJwk) else None
    {
      if kid in publicCache {
        return Some(publicCache[kid]);
      }
      var row := store.GetByKid(kid);
      if row.None? {
        return None;
      }
      publicCache := publicCache[kid := row.value.publicJwk];
      key := Some(row.value.publicJwk);
    }

    /** Signing with the active key of the tenant. */
    method Sign(tenantId: string, payload: Claims) returns (token: Option<Jws>)
      requires Coherent()
      modifies this
      ensures Coherent()
      ensures token.None? <==> !HasActive(store.rows, tenantId)
      ensures token.Some? ==>
                && token.value.payload == payload && token.value.alg == SIGNING_ALG
                && IsActive(store.rows, token.value.kid, tenantId)
                && Verifies(token.value, store.rows[token.value.kid].publicJwk)
    {
      var signer := GetActiveSigner(tenantId);
      if signer.None? {
        return None;
      }
      token := Some(Jws(SIGNING_ALG, signer.value.0, payload, signer.value.1));
    }

    /** The cached validator decides exactly as the table does. */
    method ValidateAccessToken(bearer: Bearer, opts: Options, e: Expectation, now: int) returns (verdict: Verdict)
      requires Coherent()
      modifies this
      ensures Coherent()
      ensures verdict == Validate(store.rows, bearer, opts, e, now)
    {
      if bearer.Garbage? {
        return Invalid(Malformed);
      }
      var token := bearer.token;
      if token.alg != SIGNING_ALG {
        return Invalid(InvalidAlgorithm);
      }
      if token.kid == "" {
        return Invalid(UnknownKey);
      }
      var key := GetVerificationKey(token.kid);
      if key.None? {
        return Invalid(UnknownKey);
      }
      if !Verifies(token, key.value) {
        return Invalid(InvalidSignature);
      }
      verdict := CheckClaims(token.payload, opts, e, now);
    }
  }

  /** A tenant's JWKS holds its own keys and no others: the active one always, a retired one exactly until its end. */
  lemma ActiveKeyIsPublished(rows: Table, kid: string, key: PublicKey, tenantId: string, now: int)
    ensures JwksKey(kid, key) in Jwks(rows, tenantId, now)
            <==> && kid in rows && rows[kid].tenantId == tenantId && rows[kid].publicJwk == key
                 && (rows[kid].isActive || rows[kid].notAfter.None? || now < rows[kid].notAfter.value)
  {
    if kid in rows && Publishes(rows[kid], tenantId, now) {
      assert JwksKey(kid, rows[kid].publicJwk) in Jwks(rows, tenantId, now);
    }
  }

  // --- which payloads pass --------------------------------------------------------------------

  /** The scope names a token is built with: those of a delegated grant, none of an app-only one. */
  function PayloadScopes(subject: Subject, i: Issue): seq<string> {
    if subject.Delegated? then ScpNames(ScopeNames(i.scopes)) else []
  }

  function PayloadRoles(subject: Subject): seq<string> { if subject.AppOnly? then subject.roles else [] }

  lemma {:induction false} NamesAreParts(scopes: seq<string>)
    requires forall s <- scopes :: ' ' !in s
    ensures forall n <- ScpNames(ScopeNames(scopes)) :: ' ' !in n && n != ""
  {
    if scopes != [] {
      NamesAreParts(scopes[1..]);
      var name := StripScopePrefix(scopes[0]);
      assert forall c <- name :: c in scopes[0];
      if name != "" {
        assert ScopeNames(scopes)[1..] == ScopeNames(scopes[1..]);
      } else {
        assert ScopeNames(scopes) == ScopeNames(scopes[1..]);
      }
    }
  }

  /** The validator splits `scp` back into the scope names it was built from. */
  lemma ScpReadsBack(names: seq<string>)
    requires forall n <- names :: ' ' !in n && n != ""
    ensures NonEmpty(Split(Join(names))) == set n | n in names
  {
    if names != [] {
      SplitJoin(names);
    } else {
      assert Split("") == [""];
    }
  }

  /** The claims of a payload that the validator reads, scopes and roles included. */
  ghost predicate Carries(p: Claims, subject: Subject, audience: string, i: Issue) {
    && Iss in p && p[Iss] == Value.Text(i.issuer)
    && Aud in p && p[Aud] == Value.Text(audience)
    && Exp in p && p[Exp] == Number(i.now + i.lifetime)
    && Nbf in p && p[Nbf] == Number(i.now)
    && (if subject.Delegated? then Scp in p && p[Scp] == Value.Text(Join(PayloadScopes(subject, i))) else Scp !in p)
    && (if subject.AppOnly? then Roles in p && p[Roles] == List(PayloadRoles(subject)) else Roles !in p)
  }

  lemma EnvelopeCarries(audience: string, i: Issue)
    ensures var p := Envelope(audience, i);
            && Iss in p && p[Iss] == Value.Text(i.issuer) && Aud in p && p[Aud] == Value.Text(audience)
            && Exp in p && p[Exp] == Number(i.now + i.lifetime) && Nbf in p && p[Nbf] == Number(i.now)
            && Scp !in p && Roles !in p
  {}

  lemma BaseCarries(client: TokenConfig.App, subject: Subject, audience: string, i: Issue)
    ensures Carries(AccessBase(client, subject, audience, i), subject, audience, i)
  {
    EnvelopeCarries(audience, i);
  }

  lemma ExtrasAddNoRoles(client: TokenConfig.App, subject: Subject, audience: string, i: Issue, d: Directory)
    requires subject.Delegated?
    ensures Roles !in AccessPayload(client, subject, audience, i, d)
  {
    var c := subject.context;
    if audience in d.apps {
      var app, groups := d.apps[audience], d.groupsOf(c.user.id);
      if Roles in AppTokenClaims(app, AccessToken, c, groups, d.origins, d.overageLimit) {
        ExtrasAreConfigurable(app, AccessToken, c, groups, d.origins, d.overageLimit, Roles);
        assert false;
      }
    }
  }

  /** None of the claims the validator reads can be configured away. */
  lemma PayloadCarries(client: TokenConfig.App, subject: Subject, audience: string, i: Issue, d: Directory)
    ensures Carries(AccessPayload(client, subject, audience, i, d), subject, audience, i)
  {
    BaseCarries(client, subject, audience, i);
    AccessTokenKeepsItsClaims(client, subject, audience, i, d);
    if subject.Delegated? {
      ExtrasAddNoRoles(client, subject, audience, i, d);
    } else {
      assert AccessPayload(client, subject, audience, i, d) == AccessBase(client, subject, audience, i);
    }
  }

  lemma CarriedPassesExactly(p: Claims, subject: Subject, audience: string, i: Issue,
                             opts: Options, e: Expectation, now: int)
    requires Carries(p, subject, audience, i) && forall s <- i.scopes :: ' ' !in s
    ensures CheckClaims(p, opts, e, now).Valid?
            <==> && i.issuer == e.issuer && audience in Accepted(opts, e)
                 && i.now - CLOCK_SKEW <= now <= i.now + i.lifetime + CLOCK_SKEW
                 && (forall s <- opts.requiredScopes :: s in PayloadScopes(subject, i))
                 && (forall r <- opts.requiredRoles :: r in PayloadRoles(subject))
  {
    NamesAreParts(i.scopes);
    ScpReadsBack(PayloadScopes(subject, i));
    assert GrantedScopes(p) == set s | s in PayloadScopes(subject, i);
    assert GrantedRoles(p) == set r | r in PayloadRoles(subject);
    ClaimsVerdict(p, opts, e, now);
  }

  /**
   * The claims of an access token pass exactly when issuer and audience are the expected ones, the time lies
   * between a skew before issue and a skew after expiry, and the grant covers every required scope and role.
   */
  lemma PayloadPassesExactly(client: TokenConfig.App, subject: Subject, audience: string, i: Issue, d: Directory,
                             opts: Options, e: Expectation, now: int)
    requires forall s <- i.scopes :: ' ' !in s
    ensures CheckClaims(AccessPayload(client, subject, audience, i, d), opts, e, now).Valid?
            <==> && i.issuer == e.issuer && audience in Accepted(opts, e)
                 && i.now - CLOCK_SKEW <= now <= i.now + i.lifetime + CLOCK_SKEW
                 && (forall s <- opts.requiredScopes :: s in PayloadScopes(subject, i))
                 && (forall r <- opts.requiredRoles :: r in PayloadRoles(subject))
  {
    PayloadCarries(client, subject, audience, i, d);
    CarriedPassesExactly(AccessPayload(client, subject, audience, i, d), subject, audience, i, opts, e, now);
  }
}
