/** The `device_codes` table, user codes, and the poll and decide handlers (RFC 8628). */
module DeviceCodes {
  import opened Text
  import opened Hashing
  import opened Scopes

  /** `ExpiredStatus` is declared by the schema's type and never written. */
  datatype Status = Pending | Approved | Denied | ExpiredStatus

  datatype DeviceCode = DeviceCode(
    userCode: string,
    appId: string,
    userId: Option<string>,
    scopes: string,
    status: Status,
    interval: int,
    expiresAt: int,
    createdAt: int)

  /** The table, keyed by the hash of the device code. */
  type Table = map<Hash, DeviceCode>

  predicate UserCodeExists(t: Table, userCode: string) {
    exists h <- t :: t[h].userCode == userCode
  }

  function PendingRow(userCode: string, appId: string, scopes: string, interval: int, expiresAt: int, now: int)
    : DeviceCode
  {
    DeviceCode(userCode, appId, None, scopes, Pending, interval, expiresAt, now)
  }

  /** `INSERT`: both the hash (primary key) and the user code (UNIQUE) must be new. */
  function Insert(t: Table, h: Hash, row: DeviceCode): Option<Table> {
    if h in t || UserCodeExists(t, row.userCode) then None else Some(t[h := row])
  }

  predicate AwaitsDecision(t: Table, h: Hash, userCode: string) {
    h in t && t[h].userCode == userCode && t[h].status == Pending
  }

  function Approve(t: Table, userCode: string, userId: string): Table {
    map h | h in t :: if AwaitsDecision(t, h, userCode) then t[h].(status := Approved, userId := Some(userId)) else t[h]
  }

  function Deny(t: Table, userCode: string): Table {
    map h | h in t :: if AwaitsDecision(t, h, userCode) then t[h].(status := Denied) else t[h]
  }

  /** The guard of `consumeApproved`. */
  predicate Redeemable(t: Table, h: Hash, appId: string, now: int) {
    h in t && t[h].appId == appId && t[h].status == Approved && t[h].expiresAt > now
  }

  function ConsumeApproved(t: Table, h: Hash, appId: string, now: int): Table {
    if Redeemable(t, h, appId, now) then t - {h} else t
  }

  function Consume(t: Table, h: Hash): Table { t - {h} }

  function DeleteExpired(t: Table, cutoff: int): Table {
    map h | h in t && t[h].expiresAt > cutoff :: t[h]
  }

  /** The table's own constraints: one row per user code, and approval is exactly having a user. */
  ghost predicate Consistent(t: Table) {
    && (forall h, k | h in t && k in t && t[h].userCode == t[k].userCode :: h == k)
    && (forall h <- t :: t[h].status != ExpiredStatus && (t[h].status == Approved <==> t[h].userId.Some?))
  }

  /** Every statement keeps the constraints, and a decision touches at most the one row of its user code. */
  lemma StatementsKeepConsistency(t: Table, h: Hash, row: DeviceCode, userCode: string, userId: string, cutoff: int)
    requires Consistent(t) && row.status == Pending && row.userId == None
    ensures Insert(t, h, row).Some? ==> Consistent(Insert(t, h, row).value)
    ensures Consistent(Approve(t, userCode, userId)) && Consistent(Deny(t, userCode))
    ensures Consistent(Consume(t, h)) && Consistent(DeleteExpired(t, cutoff))
    ensures forall a, b | a in t && b in t
                       && Approve(t, userCode, userId)[a] != t[a] && Approve(t, userCode, userId)[b] != t[b] :: a == b
  {
  }

  // --- user codes ---------------------------------------------------------------------------------

  const USER_CODE_CHARSET := "BCDFGHJKLMNPQRSTVWXZ"
  const USER_CODE_MAX_ATTEMPTS := 10

  predicate IsLetter(c: char) { 'A' <= c <= 'Z' }

  function Regroup(letters: string): string
    requires |letters| == 8
  {
    letters[..4] + "-" + letters[4..]
  }

  /** `XXXX-XXXX` over capital letters. */
  predicate Canonical(code: string) {
    && |code| == 9 && code[4] == '-'
    && (forall i | 0 <= i < 9 && i != 4 :: IsLetter(code[i]))
  }

  /** `generateUserCode`, with the eight random draws as its argument. */
  method GenerateUserCode(draws: seq<nat>) returns (code: string)
    requires |draws| == 8 && forall i | 0 <= i < 8 :: draws[i] < |USER_CODE_CHARSET|
    ensures Canonical(code)
    ensures forall i | 0 <= i < 8 :: code[if i < 4 then i else i + 1] == USER_CODE_CHARSET[draws[i]]
  {
    var raw := "";
    for i := 0 to 8
      invariant |raw| == i
      invariant forall k | 0 <= k < i :: raw[k] == USER_CODE_CHARSET[draws[k]]
    {
      raw := raw + [USER_CODE_CHARSET[draws[i]]];
    }
    assert forall k | 0 <= k < |USER_CODE_CHARSET| :: IsLetter(USER_CODE_CHARSET[k]);
    code := Regroup(raw);
  }

  /** The letters of an upper-cased text. `upper` is per character and may expand one, as `toUpperCase` does. */
  function Letters(raw: string, upper: char -> string): string {
    if raw == "" then "" else KeepLetters(upper(raw[0])) + Letters(raw[1..], upper)
  }

  function KeepLetters(s: string): (kept: string)
    ensures forall c <- kept :: IsLetter(c)
  {
    if s == "" then "" else (if IsLetter(s[0]) then [s[0]] else "") + KeepLetters(s[1..])
  }

  function NormalizeUserCode(raw: string, upper: char -> string): string {
    var letters := Letters(raw, upper);
    if |letters| == 8 then Regroup(letters) else letters
  }

  ghost predicate UpperCases(upper: char -> string) {
    (forall c | IsLetter(c) :: upper(c) == [c]) && upper('-') == "-"
  }

  lemma {:induction false} LettersConcat(a: string, b: string, upper: char -> string)
    ensures Letters(a + b, upper) == Letters(a, upper) + Letters(b, upper)
  {
    if a == "" {
      assert a + b == b;
    } else {
      assert (a + b)[1..] == a[1..] + b;
      LettersConcat(a[1..], b, upper);
    }
  }

  lemma {:induction false} LettersOfLetters(s: string, upper: char -> string)
    requires UpperCases(upper) && forall c <- s :: IsLetter(c)
    ensures Letters(s, upper) == s
  {
    if s != "" {
      LettersOfLetters(s[1..], upper);
      assert KeepLetters([s[0]]) == [s[0]] by {
        assert [s[0]][1..] == "";
      }
    }
  }

  lemma {:induction false} LettersAreLetters(raw: string, upper: char -> string)
    ensures forall c <- Letters(raw, upper) :: IsLetter(c)
  {
    if raw != "" {
      LettersAreLetters(raw[1..], upper);
    }
  }

  /** A human's entry finds a stored code exactly when it spells its letters, in any case, spacing or grouping. */
  lemma NormalizationFindsTheCode(raw: string, code: string, upper: char -> string)
    requires UpperCases(upper) && Canonical(code)
    ensures NormalizeUserCode(raw, upper) == code <==> Letters(raw, upper) == code[..4] + code[5..]
  {
    var letters := Letters(raw, upper);
    LettersAreLetters(raw, upper);
    assert code == code[..4] + "-" + code[5..];
    assert '-' !in letters && code[4] in code;
    if |letters| == 8 && Regroup(letters) == code {
      assert letters == Regroup(letters)[..4] + Regroup(letters)[5..];
    }
  }

  lemma LettersOfGroups(front: string, back: string, upper: char -> string)
    requires UpperCases(upper) && (forall c <- front :: IsLetter(c)) && (forall c <- back :: IsLetter(c))
    ensures Letters(front + ("-" + back), upper) == front + back
  {
    LettersConcat(front, "-" + back, upper);
    LettersConcat("-", back, upper);
    LettersOfLetters(front, upper);
    LettersOfLetters(back, upper);
    assert KeepLetters("-") == "" && Letters("-", upper) == KeepLetters("-") + "";
  }

  lemma LettersOfCode(code: string, upper: char -> string)
    requires UpperCases(upper) && Canonical(code)
    ensures Letters(code, upper) == code[..4] + code[5..]
  {
    LettersOfGroups(code[..4], code[5..], upper);
    assert code == code[..4] + ("-" + code[5..]);
  }

  /** A code typed as it is displayed finds itself. */
  lemma CanonicalCodesAreFixed(code: string, upper: char -> string)
    requires UpperCases(upper) && Canonical(code)
    ensures NormalizeUserCode(code, upper) == code
  {
    LettersOfCode(code, upper);
    NormalizationFindsTheCode(code, code, upper);
  }

  // --- the repository -----------------------------------------------------------------------------

  class DeviceCodesRepository {
    var rows: Table

    constructor ()
      ensures rows == map[]
    {
      rows := map[];
    }

    /** Stores a row pending and without a user; a taken hash or user code raises and changes nothing. */
    method InsertRow(h: Hash, userCode: string, appId: string, scopes: string, interval: int, expiresAt: int, now: int)
      returns (row: Option<DeviceCode>)
      modifies this
      ensures row.Some? <==> h !in old(rows) && forall k <- old(rows) :: old(rows)[k].userCode != userCode
      ensures row.Some? ==>
                && rows == old(rows)[h := row.value]
                && row.value == DeviceCode(
                     userCode := userCode, appId := appId, userId := None, scopes := scopes, status := Pending,
                     interval := interval, expiresAt := expiresAt, createdAt := now)
      ensures Insert(old(rows), h, PendingRow(userCode, appId, scopes, interval, expiresAt, now))
              == if row.Some? then Some(rows) else None
      ensures row.None? ==> rows == old(rows)
    {
      if h in rows || UserCodeExists(rows, userCode) {
        return None;
      }
      rows := rows[h := PendingRow(userCode, appId, scopes, interval, expiresAt, now)];
      row := Some(rows[h]);
    }

    method GetByDeviceCodeHash(h: Hash) returns (row: Option<DeviceCode>)
      ensures row == if h in rows then Some(rows[h]) else None
    {
      if h in rows {
        row := Some(rows[h]);
      } else {
        row := None;
      }
    }

    /** The row of a user code; under the UNIQUE index there is at most one. */
    method GetByUserCode(userCode: string) returns (found: Option<Hash>)
      ensures found.Some? ==> found.value in rows && rows[found.value].userCode == userCode
      ensures found.None? ==> !UserCodeExists(rows, userCode)
    {
      if UserCodeExists(rows, userCode) {
        var h :| h in rows && rows[h].userCode == userCode;
        found := Some(h);
      } else {
        found := None;
      }
    }

    /** The one pending row of the user code, if any, is approved for the user and comes back. */
    method ApproveRow(userCode: string, userId: string) returns (row: Option<DeviceCode>)
      requires Consistent(rows)
      modifies this
      ensures rows == Approve(old(rows), userCode, userId) && Consistent(rows)
      ensures row.Some? <==> rows != old(rows)
      ensures row.Some? ==> exists h ::
                && AwaitsDecision(old(rows), h, userCode)
                && rows == old(rows)[h := old(rows)[h].(status := Approved, userId := Some(userId))]
                && row.value == rows[h]
    {
      var found := GetByUserCode(userCode);
      if found.None? || rows[found.value].status != Pending {
        return None;
      }
      var h := found.value;
      rows := rows[h := rows[h].(status := Approved, userId := Some(userId))];
      row := Some(rows[h]);
    }

    /** The one pending row of the user code, if any, is denied and comes back. */
    method DenyRow(userCode: string) returns (row: Option<DeviceCode>)
      requires Consistent(rows)
      modifies this
      ensures rows == Deny(old(rows), userCode) && Consistent(rows)
      ensures row.Some? <==> rows != old(rows)
      ensures row.Some? ==> exists h ::
                && AwaitsDecision(old(rows), h, userCode)
                && rows == old(rows)[h := old(rows)[h].(status := Denied)]
                && row.value == rows[h]
    {
      var found := GetByUserCode(userCode);
      if found.None? || rows[found.value].status != Pending {
        return None;
      }
      var h := found.value;
      rows := rows[h := rows[h].(status := Denied)];
      row := Some(rows[h]);
    }

    /** The guarded delete: the row comes back to the one call that removed it. */
    method ConsumeApprovedRow(h: Hash, appId: string, now: int) returns (row: Option<DeviceCode>)
      modifies this
      ensures rows == ConsumeApproved(old(rows), h, appId, now)
      ensures row == if Redeemable(old(rows), h, appId, now) then Some(old(rows)[h]) else None
    {
      if h in rows && rows[h].appId == appId && rows[h].status == Approved && rows[h].expiresAt > now {
        row := Some(rows[h]);
        rows := rows - {h};
      } else {
        row := None;
      }
    }

    method ConsumeRow(h: Hash) returns (row: Option<DeviceCode>)
      modifies this
      ensures rows == Consume(old(rows), h)
      ensures row == if h in old(rows) then Some(old(rows)[h]) else None
    {
      row := if h in rows then Some(rows[h]) else None;
      rows := rows - {h};
    }

    /** Removes exactly the rows whose expiry is not after the cutoff, and counts them. */
    method DeleteExpiredRows(cutoff: int) returns (deleted: nat)
      modifies this
      ensures forall h :: h in rows <==> h in old(rows) && old(rows)[h].expiresAt > cutoff
      ensures forall h <- rows :: rows[h] == old(rows)[h]
      ensures rows == DeleteExpired(old(rows), cutoff)
      ensures deleted == |old(rows)| - |rows|
    {
      var expired := set h | h in rows && rows[h].expiresAt <= cutoff;
      deleted := |expired|;
      rows := rows - expired;
      assert old(rows).Keys == rows.Keys + expired;
      assert |old(rows).Keys| == |rows.Keys| + |expired|;
    }

    /**
     * The collision retry of the authorization endpoint: take the first free candidate among eleven draws;
     * only when all eleven are taken does a taken one go through, and then the insert is refused.
     */
    method ChooseUserCode(candidates: seq<string>) returns (userCode: string)
      requires |candidates| == USER_CODE_MAX_ATTEMPTS + 1
      ensures exists i | 0 <= i < |candidates| ::
                && userCode == candidates[i]
                && (forall k | 0 <= k < i :: UserCodeExists(rows, candidates[k]))
                && (UserCodeExists(rows, userCode) ==> i == USER_CODE_MAX_ATTEMPTS)
    {
      userCode := candidates[0];
      var attempt := 0;
      while UserCodeExists(rows, userCode) && attempt < USER_CODE_MAX_ATTEMPTS
        invariant 0 <= attempt <= USER_CODE_MAX_ATTEMPTS && userCode == candidates[attempt]
        invariant forall k | 0 <= k < attempt :: UserCodeExists(rows, candidates[k])
      {
        attempt := attempt + 1;
        userCode := candidates[attempt];
      }
    }
  }

  // --- polling ------------------------------------------------------------------------------------

  datatype Answer =
    | InvalidGrant
    | WrongClient
    | ExpiredToken
    | AccessDenied
    | AuthorizationPending
    | UserGone
    | Unredeemable
    | Granted(userId: string, scopes: seq<string>)

  /** What a poll does once it has read the row: answer, delete the row and answer, or redeem it. */
  datatype PollPlan = Reply(answer: Answer) | DiscardThen(answer: Answer) | Redeem

  function Plan(row: DeviceCode, appId: string, now: int): PollPlan {
    if row.appId != appId then Reply(WrongClient)
    else if row.expiresAt <= now then DiscardThen(ExpiredToken)
    else if row.status == Denied then DiscardThen(AccessDenied)
    else if row.status == Pending then Reply(AuthorizationPending)
    else if row.status == Approved then Redeem
    else Reply(Unredeemable)
  }

  /** The redeemed row's user must still exist and be enabled. */
  function AfterRedeem(row: DeviceCode, enabled: set<string>): Answer {
    if row.userId.Some? && row.userId.value in enabled then Granted(row.userId.value, SplitScopes(row.scopes))
    else UserGone
  }

  /** One uninterrupted poll, as a function of the table. */
  function PollOnce(t: Table, deviceCode: string, appId: string, now: int, enabled: set<string>): (Answer, Table) {
    var h := Sha256(deviceCode);
    if h !in t then (InvalidGrant, t)
    else
      match Plan(t[h], appId, now)
      case Reply(answer) => (answer, t)
      case DiscardThen(answer) => (answer, Consume(t, h))
      case Redeem =>
        if Redeemable(t, h, appId, now) then (AfterRedeem(t[h], enabled), ConsumeApproved(t, h, appId, now))
        else (InvalidGrant, t)
  }

  /**
   * What a poll without interference answers (section 3.5 of RFC 8628): on a consistent table the state of the row
   * alone decides, each answer has its one cause, and the row goes exactly when the code is spent.
   */
  lemma PollMeaning(t: Table, deviceCode: string, appId: string, now: int, enabled: set<string>)
    requires Consistent(t)
    ensures var h := Sha256(deviceCode);
            var (answer, t') := PollOnce(t, deviceCode, appId, now, enabled);
            var own := h in t && t[h].appId == appId;
            var unexpired := own && now < t[h].expiresAt;
            var approved := unexpired && t[h].status == Approved;
            && (answer == InvalidGrant <==> h !in t)
            && (answer == WrongClient <==> h in t && !own)
            && (answer == ExpiredToken <==> own && !unexpired)
            && (answer == AccessDenied <==> unexpired && t[h].status == Denied)
            && (answer == AuthorizationPending <==> unexpired && t[h].status == Pending)
            && (answer == UserGone <==> approved && t[h].userId.value !in enabled)
            && (answer.Granted? <==> approved && t[h].userId.value in enabled)
            && (answer.Granted? ==>
                  answer.userId == t[h].userId.value && answer.scopes == SplitScopes(t[h].scopes))
            && answer != Unredeemable
            && t' == if own && answer != AuthorizationPending then t - {h} else t
  {}

  /** A code that has just been inserted is pending for its client until the expiry it was inserted with. */
  lemma NewCodeIsPending(t: Table, deviceCode: string, userCode: string, appId: string, scopes: string, interval: int,
                         expiresAt: int, insertedAt: int, now: int, enabled: set<string>)
    requires Insert(t, Sha256(deviceCode), PendingRow(userCode, appId, scopes, interval, expiresAt, insertedAt)).Some?
    ensures var t' := Insert(t, Sha256(deviceCode),
                             PendingRow(userCode, appId, scopes, interval, expiresAt, insertedAt)).value;
            PollOnce(t', deviceCode, appId, now, enabled)
            == if now < expiresAt then (AuthorizationPending, t') else (ExpiredToken, t' - {Sha256(deviceCode)})
  {}

  class DeviceGrant {
    const store: DeviceCodesRepository

    constructor (store: DeviceCodesRepository)
      ensures this.store == store
    {
      this.store := store;
    }

    /** One uninterrupted poll; on a consistent table it never reaches the last branch. */
    method Poll(deviceCode: string, appId: string, now: int, enabled: set<string>) returns (answer: Answer)
      requires Consistent(store.rows)
      modifies store
      ensures (answer, store.rows) == PollOnce(old(store.rows), deviceCode, appId, now, enabled)
      ensures answer != Unredeemable
    {
      var h := Sha256(deviceCode);
      var found := store.GetByDeviceCodeHash(h);
      if found.None? {
        return InvalidGrant;
      }
      var row := found.value;
      if row.appId != appId {
        return WrongClient;
      }
      if row.expiresAt <= now {
        var _ := store.ConsumeRow(h);
        return ExpiredToken;
      }
      if row.status == Denied {
        var _ := store.ConsumeRow(h);
        return AccessDenied;
      }
      if row.status == Pending {
        return AuthorizationPending;
      }
      if row.status == Approved {
        var redeemed := store.ConsumeApprovedRow(h, appId, now);
        if redeemed.None? {
          return InvalidGrant;
        }
        return AfterRedeem(redeemed.value, enabled);
      }
      answer := Unredeemable;
    }
  }
}
