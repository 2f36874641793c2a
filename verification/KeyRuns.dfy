/**
 * Signing keys under interleaving: insertions, activations, mints and validations of any number of callers,
 * with each import split from the read before it. No step deletes a key row.
 */
module KeyRuns {
  import opened Text
  import opened TokenConfig
  import opened SigningKeys

  /** `held` are the rows some caller has read and not yet imported; `minted` the tokens signed so far. */
  datatype State = State(
    now: int,
    rows: Table,
    privateCache: map<string, PrivateKey>,
    publicCache: map<string, PublicKey>,
    held: set<Row>,
    minted: set<Jws>)

  datatype Step =
    | Idle
    | Tick(seconds: nat)
    | InsertKey(key: NewKey)
    | Activate(kid: string, tenantId: string)
    | ReadActive(kid: string, tenantId: string)
    | ReadByKid(kid: string)
    | Mint(row: Row, payload: Claims)
    | ImportPublic(row: Row)

  ghost predicate Init(s: State) {
    s.rows == map[] && s.privateCache == map[] && s.publicCache == map[] && s.held == {} && s.minted == {}
  }

  /** The private key a caller signs with after reading `row`: the cached one if there is one. */
  function SigningKeyFor(s: State, row: Row): PrivateKey {
    if row.kid in s.privateCache then s.privateCache[row.kid] else row.privatePkcs8
  }

  ghost predicate Next(s: State, step: Step, s': State) {
    match step
    case Idle => s' == s
    case Tick(seconds) => s' == s.(now := s.now + seconds)
    case InsertKey(key) =>
      (match Insert(s.rows, key, s.now)
       case Some(rows) => s' == s.(rows := rows)
       case None => s' == s)
    case Activate(kid, tenantId) => s' == s.(rows := SetActive(s.rows, kid, tenantId))
    case ReadActive(kid, tenantId) => IsActive(s.rows, kid, tenantId) && s' == s.(held := s.held + {s.rows[kid]})
    case ReadByKid(kid) => kid in s.rows && s' == s.(held := s.held + {s.rows[kid]})
    case Mint(row, payload) =>
      && row in s.held && row.isActive
      && s' == s.(privateCache := s.privateCache[row.kid := SigningKeyFor(s, row)],
                  minted := s.minted + {Jws(SIGNING_ALG, row.kid, payload, SigningKeyFor(s, row))})
    case ImportPublic(row) =>
      row in s.held && s' == s.(publicCache := s.publicCache[row.kid := row.publicJwk])
  }

  ghost predicate Run(ss: seq<State>, steps: seq<Step>) {
    && |ss| == |steps| + 1 && Init(ss[0])
    && forall i | 0 <= i < |steps| :: Next(ss[i], steps[i], ss[i + 1])
  }

  /** A row read earlier still tells its key's pair. */
  ghost predicate StillStored(rows: Table, row: Row) {
    row.kid in rows && row == rows[row.kid].(isActive := row.isActive)
  }

  ghost predicate Inv(s: State) {
    && Consistent(s.rows)
    && CachesAgree(s.rows, s.privateCache, s.publicCache)
    && (forall row <- s.held :: StillStored(s.rows, row))
    && (forall token <- s.minted :: token.alg == SIGNING_ALG && token.kid in s.rows
                                    && Verifies(token, s.rows[token.kid].publicJwk))
  }

  lemma InvAfter(s: State, rows: Table)
    requires Inv(s) && Consistent(rows) && KeepsKeys(s.rows, rows)
    ensures Inv(s.(rows := rows))
  {
    forall row | row in s.held ensures StillStored(rows, row) {
      assert StillStored(s.rows, row);
    }
  }

  lemma InvNext(s: State, step: Step, s': State)
    requires Inv(s) && Next(s, step, s')
    ensures Inv(s') && KeepsKeys(s.rows, s'.rows) && s.minted <= s'.minted && s.now <= s'.now
  {
    match step
    case InsertKey(key) =>
      if Insert(s.rows, key, s.now).Some? {
        InsertKeepsOneActive(s.rows, key, s.now);
        InvAfter(s, Insert(s.rows, key, s.now).value);
      }
    case Activate(kid, tenantId) =>
      SetActiveLeavesOneExactlyForAKnownKey(s.rows, kid, tenantId);
      InvAfter(s, SetActive(s.rows, kid, tenantId));
    case Mint(row, _) => assert StillStored(s.rows, row);
    case ImportPublic(row) => assert StillStored(s.rows, row);
    case _ =>
  }

  /** In every reachable state at most one key a tenant is active and the caches agree with the table. */
  lemma {:induction false} InvRun(ss: seq<State>, steps: seq<Step>, i: nat)
    requires Run(ss, steps) && i <= |steps|
    ensures Inv(ss[i])
    decreases i
  {
    if i > 0 {
      InvRun(ss, steps, i - 1);
      InvNext(ss[i - 1], steps[i - 1], ss[i]);
    }
  }

  /** Between any two states of a run keys and tokens only accumulate, and no key changes its pair or tenant. */
  lemma {:induction false} KeysStay(ss: seq<State>, steps: seq<Step>, i: nat, j: nat)
    requires Run(ss, steps) && i <= j <= |steps|
    ensures KeepsKeys(ss[i].rows, ss[j].rows) && ss[i].minted <= ss[j].minted && ss[i].now <= ss[j].now
    decreases j
  {
    if i < j {
      KeysStay(ss, steps, i, j - 1);
      InvRun(ss, steps, j - 1);
      InvNext(ss[j - 1], steps[j - 1], ss[j]);
      forall kid | kid in ss[i].rows ensures kid in ss[j].rows
        && ss[j].rows[kid] == ss[i].rows[kid].(isActive := ss[j].rows[kid].isActive)
      {
        assert kid in ss[j - 1].rows;
      }
    }
  }

  /** The validator of a state, its keys taken from the cache when they are there. */
  function ValidateNow(s: State, token: Jws, opts: Options, e: Expectation): Verdict {
    if token.alg != SIGNING_ALG then Invalid(InvalidAlgorithm)
    else if token.kid == "" || (token.kid !in s.publicCache && token.kid !in s.rows) then Invalid(UnknownKey)
    else
      var key := if token.kid in s.publicCache then s.publicCache[token.kid] else s.rows[token.kid].publicJwk;
      if !Verifies(token, key) then Invalid(InvalidSignature) else CheckClaims(token.payload, opts, e, s.now)
  }

  /** In every reachable state the cached validator decides as the table alone would. */
  lemma CachesAreInvisible(ss: seq<State>, steps: seq<Step>, i: nat, token: Jws, opts: Options, e: Expectation)
    requires Run(ss, steps) && i <= |steps|
    ensures ValidateNow(ss[i], token, opts, e) == Validate(ss[i].rows, Compact(token), opts, e, ss[i].now)
  {
    InvRun(ss, steps, i);
  }

  /**
   * An access token minted anywhere in a run, through any rotation of keys and filling of caches since, is
   * accepted exactly from a skew before its issue to a skew after its expiry, by a validator of its issuer and
   * audience whose required scopes and roles its grant covers; and what comes back is its payload.
   */
  lemma MintThenValidate(ss: seq<State>, steps: seq<Step>, i: nat, j: nat, token: Jws,
                         client: App, subject: Subject, audience: string, issue: Issue, d: Directory,
                         opts: Options, e: Expectation)
    requires Run(ss, steps) && i <= j <= |steps|
    requires token in ss[i].minted && token.kid != ""
    requires token.payload == AccessPayload(client, subject, audience, issue, d)
    requires forall s <- issue.scopes :: ' ' !in s
    ensures var verdict := ValidateNow(ss[j], token, opts, e);
            && (verdict.Valid? <==>
                  && issue.issuer == e.issuer && audience in Accepted(opts, e)
                  && issue.now - CLOCK_SKEW <= ss[j].now <= issue.now + issue.lifetime + CLOCK_SKEW
                  && (forall s <- opts.requiredScopes :: s in PayloadScopes(subject, issue))
                  && (forall r <- opts.requiredRoles :: r in PayloadRoles(subject)))
            && (verdict.Valid? ==> verdict.claims == token.payload)
  {
    KeysStay(ss, steps, i, j);
    InvRun(ss, steps, j);
    CachesAreInvisible(ss, steps, j, token, opts, e);
    PayloadPassesExactly(client, subject, audience, issue, d, opts, e, ss[j].now);
  }

  /** Nothing else is accepted: a valid token was signed with the private key stored under its kid. */
  lemma AcceptedWasSigned(ss: seq<State>, steps: seq<Step>, i: nat, token: Jws, opts: Options, e: Expectation)
    requires Run(ss, steps) && i <= |steps| && ValidateNow(ss[i], token, opts, e).Valid?
    ensures token.kid in ss[i].rows && token.signer == ss[i].rows[token.kid].privatePkcs8
    ensures token.payload == ValidateNow(ss[i], token, opts, e).claims
  {
    InvRun(ss, steps, i);
  }

  /** A row read as active was, at the read, its tenant's active key. */
  lemma {:induction false} ReadWhileActive(ss: seq<State>, steps: seq<Step>, i: nat, row: Row) returns (k: nat)
    requires Run(ss, steps) && i <= |steps| && row in ss[i].held && row.isActive
    ensures k <= i && IsActive(ss[k].rows, row.kid, row.tenantId) && ss[k].rows[row.kid] == row
    decreases i
  {
    InvRun(ss, steps, i - 1);
    if row in ss[i - 1].held {
      k := ReadWhileActive(ss, steps, i - 1, row);
    } else {
      k := i - 1;
    }
  }

  /** Every `Mint` step signs the payload it is given, under the kid of the row it read. */
  lemma MintSigns(s: State, step: Step, s': State)
    requires Inv(s) && step.Mint? && Next(s, step, s')
    ensures step.row.kid in s.rows
    ensures Jws(alg := "RS256", kid := step.row.kid, payload := step.payload,
                signer := s.rows[step.row.kid].privatePkcs8) in s'.minted
  {
    assert StillStored(s.rows, step.row);
  }

  /** A key inserted active can be read and signs at once: the token verifies under the key stored for its kid. */
  lemma FreshKeySigns(s: State, key: NewKey, payload: Claims) returns (ss: seq<State>, steps: seq<Step>)
    requires Inv(s) && key.kid !in s.rows && key.isActive != Some(false)
    ensures |ss| == 4 && |steps| == 3 && ss[0] == s && forall i | 0 <= i < 3 :: Next(ss[i], steps[i], ss[i + 1])
    ensures key.kid in ss[3].rows && ss[3].rows[key.kid].publicJwk == PublicKey(key.privatePkcs8)
    ensures Jws("RS256", key.kid, payload, key.privatePkcs8) in ss[3].minted
  {
    InsertKeepsOneActive(s.rows, key, s.now);
    var s1 := s.(rows := Insert(s.rows, key, s.now).value);
    var row := s1.rows[key.kid];
    var s2 := s1.(held := s.held + {row});
    var s3 := s2.(privateCache := s.privateCache[key.kid := SigningKeyFor(s2, row)],
                  minted := s.minted + {Jws(SIGNING_ALG, key.kid, payload, SigningKeyFor(s2, row))});
    ss, steps := [s, s1, s2, s3], [InsertKey(key), ReadActive(key.kid, key.tenantId), Mint(row, payload)];
    assert Next(s, steps[0], s1) && Next(s1, steps[1], s2) && Next(s2, steps[2], s3);
  }

  /**
   * Every token was signed, by a step that was given its payload, with a key that some time before was its tenant's
   * active key, published in its JWKS.
   */
  lemma {:induction false} MintedWithAPublishedKey(ss: seq<State>, steps: seq<Step>, i: nat, token: Jws)
    returns (k: nat, row: Row, m: nat)
    requires Run(ss, steps) && i <= |steps| && token in ss[i].minted
    ensures k <= m < i && steps[m] == Mint(row, token.payload) && row.kid == token.kid && Verifies(token, row.publicJwk)
    ensures IsActive(ss[k].rows, row.kid, row.tenantId) && ss[k].rows[row.kid] == row
    ensures forall now :: JwksKey(row.kid, row.publicJwk) in Jwks(ss[k].rows, row.tenantId, now)
    decreases i
  {
    if token in ss[i - 1].minted {
      k, row, m := MintedWithAPublishedKey(ss, steps, i - 1, token);
    } else {
      InvRun(ss, steps, i - 1);
      m := i - 1;
      row := steps[i - 1].row;
      k := ReadWhileActive(ss, steps, i - 1, row);
      assert StillStored(ss[i - 1].rows, row);
      forall now ensures JwksKey(row.kid, row.publicJwk) in Jwks(ss[k].rows, row.tenantId, now) {
        ActiveKeyIsPublished(ss[k].rows, row.kid, row.publicJwk, row.tenantId, now);
      }
    }
  }
}
