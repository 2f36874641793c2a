/**
 * Refresh tokens under interleaving. Any number of redemptions run at once, each split into its statements
 * (read the row, check it, rotate or revoke the family), together with issuance, purging and the clock.
 * `issued` is a history variable: every row ever inserted, with its place in its rotation chain.
 */
module RefreshRuns {
  import opened Text
  import opened Hashing
  import opened RefreshTokens
  import opened RefreshService

  datatype Issued = Issued(root: Hash, index: nat, row: RefreshToken)

  datatype Phase =
    | Presented
    | Replaying
    | Holding(row: RefreshToken)
    | Rotating(row: RefreshToken, scopes: seq<string>, checkedAt: int)
    | Finished(outcome: Outcome)

  datatype Redeemer = Redeemer(request: Request, phase: Phase) {
    function Hash(): Hash { Sha256(request.token) }
  }

  datatype State = State(
    lifetime: int,
    now: int,
    rows: Table,
    issued: map<Hash, Issued>,
    redeemers: map<nat, Redeemer>)

  datatype Step =
    | Idle
    | Tick(seconds: nat)
    | Issue(token: string, appId: string, userId: string, scopes: seq<string>, resource: Option<string>,
            stampedAt: int)
    | Present(id: nat, request: Request)
    | Read(id: nat)
    | CheckRow(id: nat)
    | RotateRow(id: nat, newToken: string, stampedAt: int)
    | RevokeChain(id: nat)
    | Purge(cutoff: int)

  ghost predicate Init(s: State) {
    s.rows == map[] && s.issued == map[] && s.redeemers == map[]
  }

  function MoveTo(s: State, id: nat, phase: Phase): map<nat, Redeemer>
    requires id in s.redeemers
  {
    s.redeemers[id := s.redeemers[id].(phase := phase)]
  }

  /** What `getByHash` makes of the presented token. */
  function AfterRead(t: Table, h: Hash): Phase {
    if h !in t then Finished(Rejected(UnknownToken))
    else if t[h].revoked then Replaying
    else Holding(t[h])
  }

  function AfterCheck(row: RefreshToken, request: Request, now: int): Phase {
    match Check(row, request, now)
    case Refuse(reason) => Finished(Rejected(reason))
    case Allow(scopes) => Rotating(row, scopes, now)
  }

  /** The redemption at this step wins: its compare-and-set finds the row live. */
  predicate Wins(s: State, step: Step) {
    step.RotateRow? && step.id in s.redeemers && Live(s.rows, s.redeemers[step.id].Hash())
  }

  function WonToken(s: State, step: Step): Hash
    requires Wins(s, step)
  {
    s.redeemers[step.id].Hash()
  }

  /** Generated tokens are fresh: no stored or purged row ever had their hash. */
  predicate Fresh(s: State, token: string) { Sha256(token) !in s.issued }

  /** The `rotate` transaction on behalf of redeemer `id`, and what it then answers. */
  ghost predicate Rotates(s: State, id: nat, newToken: string, stampedAt: int, s': State)
    requires id in s.redeemers && s.redeemers[id].phase.Rotating?
  {
    var p := s.redeemers[id].phase;
    var h := s.redeemers[id].Hash();
    var child := Replacement(p.row, newToken, p.scopes, stampedAt + s.lifetime);
    match Rotate(s.rows, h, child, s.now)
    case Refused => s' == s.(redeemers := MoveTo(s, id, Finished(Rejected(AlreadyUsed))))
    case Raised => s' == s.(redeemers := MoveTo(s, id, Finished(Outcome.Raised)))
    case Rotated(t) =>
      && h in s.issued
      && s' == s.(rows := t,
                  redeemers := MoveTo(s, id, Finished(Redeemed(p.row.userId, p.scopes, p.row.resource, newToken))),
                  issued := s.issued[Sha256(newToken) := Issued(
                    s.issued[h].root, s.issued[h].index + 1,
                    RowOf(child.(rotatedFrom := Some(h)), s.now))])
  }

  ghost predicate Next(s: State, step: Step, s': State) {
    match step
    case Idle => s' == s
    case Tick(seconds) => s' == s.(now := s.now + seconds)
    case Issue(token, appId, userId, scopes, resource, stampedAt) =>
      var root := NewRefreshToken(token, appId, userId, Join(scopes), resource, stampedAt + s.lifetime, None);
      && Fresh(s, token) && stampedAt <= s.now
      && Insert(s.rows, root, s.now).Some?
      && s' == s.(rows := Insert(s.rows, root, s.now).value,
                  issued := s.issued[Sha256(token) := Issued(Sha256(token), 0, RowOf(root, s.now))])
    case Present(id, request) =>
      id !in s.redeemers && s' == s.(redeemers := s.redeemers[id := Redeemer(request, Presented)])
    case Read(id) =>
      && id in s.redeemers && s.redeemers[id].phase.Presented?
      && s' == s.(redeemers := MoveTo(s, id, AfterRead(s.rows, s.redeemers[id].Hash())))
    case CheckRow(id) =>
      && id in s.redeemers && s.redeemers[id].phase.Holding?
      && s' == s.(redeemers := MoveTo(s, id, AfterCheck(s.redeemers[id].phase.row, s.redeemers[id].request, s.now)))
    case RotateRow(id, newToken, stampedAt) =>
      && id in s.redeemers && s.redeemers[id].phase.Rotating?
      && Fresh(s, newToken)
      && s.redeemers[id].phase.checkedAt <= stampedAt <= s.now
      && Rotates(s, id, newToken, stampedAt, s')
    case RevokeChain(id) =>
      && id in s.redeemers && s.redeemers[id].phase.Replaying?
      && s' == s.(rows := FamilyRevoked(s.rows, s.redeemers[id].Hash()),
                  redeemers := MoveTo(s, id, Finished(Rejected(Reused))))
    case Purge(cutoff) => s' == s.(rows := DeleteExpired(s.rows, cutoff))
  }

  ghost predicate Behaviour(ss: seq<State>, steps: seq<Step>) {
    && |ss| == |steps| + 1
    && forall i | 0 <= i < |steps| :: Next(ss[i], steps[i], ss[i + 1])
  }

  ghost predicate Run(ss: seq<State>, steps: seq<Step>) {
    Behaviour(ss, steps) && Init(ss[0])
  }

  // --- the chain-shape invariant ------------------------------------------------------------

  type History = map<Hash, Issued>

  predicate SameChain(g: History, h: Hash, k: Hash) {
    h in g && k in g && g[h].root == g[k].root
  }

  predicate IsChild(g: History, child: Hash, parent: Hash) {
    child in g && g[child].row.rotatedFrom == Some(parent)
  }

  /** A token is a root at index 0, or the next one after a parent of the same chain. */
  ghost predicate WellPlaced(g: History, h: Hash)
    requires h in g
  {
    !g[h].row.revoked &&
    match g[h].row.rotatedFrom
    case None => g[h].index == 0 && g[h].root == h
    case Some(p) =>
      p in g && g[p].root == g[h].root && g[h].index == g[p].index + 1 && Inherits(g[p].row, g[h].row)
  }

  /** Each chain is a line: no two of its tokens share an index, so no token has two children. */
  ghost predicate ChainShape(g: History) {
    && (forall h {:trigger WellPlaced(g, h)} | h in g :: WellPlaced(g, h))
    && (forall h, k | SameChain(g, h, k) && g[h].index == g[k].index :: h == k)
  }

  /** A stored row is the issued row, changed at most by revocation. */
  predicate Faithful(rows: Table, g: History) {
    forall h <- rows :: h in g && rows[h] == g[h].row.(revoked := rows[h].revoked)
  }

  /** A token with a successor is spent, and what is stored of a chain is a suffix of it. */
  ghost predicate Suffix(rows: Table, g: History) {
    forall h, p | IsChild(g, h, p) :: !Live(rows, p) && (p in rows ==> h in rows)
  }

  ghost predicate ExpiryWithin(g: History, horizon: int) {
    forall h <- g :: g[h].row.expiresAt <= horizon
  }

  /** A redemption in flight holds the row its token was issued with. */
  ghost predicate InFlight(s: State, r: Redeemer) {
    match r.phase
    case Holding(row) => r.Hash() in s.issued && row == s.issued[r.Hash()].row
    case Rotating(row, scopes, checkedAt) =>
      && r.Hash() in s.issued && row == s.issued[r.Hash()].row
      && row.expiresAt <= checkedAt + s.lifetime && checkedAt <= s.now
      && Check(row, r.request, checkedAt) == Allow(scopes)
    case Replaying => r.Hash() in s.issued
    case _ => true
  }

  ghost predicate Inv(s: State) {
    && ChainShape(s.issued)
    && Faithful(s.rows, s.issued)
    && Suffix(s.rows, s.issued)
    && ExpiryWithin(s.issued, s.now + s.lifetime)
    && forall id <- s.redeemers :: InFlight(s, s.redeemers[id])
  }

  lemma {:induction false} RootIssued(g: History, h: Hash)
    requires ChainShape(g) && h in g
    ensures g[h].root in g
    decreases g[h].index
  {
    assert WellPlaced(g, h);
    match g[h].row.rotatedFrom
    case None =>
    case Some(p) => RootIssued(g, p);
  }

  lemma StillPlaced(g: History, g': History)
    requires ChainShape(g)
    requires forall h <- g :: h in g' && g'[h] == g[h]
    ensures forall h <- g :: WellPlaced(g', h)
  {
    forall h <- g ensures WellPlaced(g', h) {
      assert WellPlaced(g, h);
    }
  }

  lemma AddRoot(g: History, n: Hash, row: RefreshToken)
    requires ChainShape(g) && n !in g && row.rotatedFrom == None && !row.revoked
    ensures ChainShape(g[n := Issued(n, 0, row)])
  {
    var g' := g[n := Issued(n, 0, row)];
    StillPlaced(g, g');
    forall h, k | SameChain(g', h, k) && g'[h].index == g'[k].index ensures h == k {
      if h != n && k != n {
        assert SameChain(g, h, k);
      } else if h != k {
        RootIssued(g, if h == n then k else h);
      }
    }
  }

  lemma AddChild(g: History, h: Hash, n: Hash, row: RefreshToken)
    requires ChainShape(g) && h in g && n !in g && !row.revoked
    requires row.rotatedFrom == Some(h) && Inherits(g[h].row, row)
    requires forall c :: !IsChild(g, c, h)
    ensures ChainShape(g[n := Issued(g[h].root, g[h].index + 1, row)])
  {
    var g' := g[n := Issued(g[h].root, g[h].index + 1, row)];
    StillPlaced(g, g');
    assert WellPlaced(g', n);
    forall a, b | SameChain(g', a, b) && g'[a].index == g'[b].index ensures a == b {
      if a != n && b != n {
        assert SameChain(g, a, b);
      } else if a != b {
        var k := if a == n then b else a;
        assert WellPlaced(g, k);
        var p := g[k].row.rotatedFrom.value;
        assert SameChain(g, p, h) && !IsChild(g, k, h);
      }
    }
  }

  lemma InvIssue(s: State, step: Step, s': State)
    requires Inv(s) && step.Issue? && Next(s, step, s')
    ensures Inv(s')
  {
    var n := Sha256(step.token);
    AddRoot(s.issued, n, s'.issued[n].row);
    forall h, p | IsChild(s'.issued, h, p) ensures !Live(s'.rows, p) && (p in s'.rows ==> h in s'.rows) {
      assert IsChild(s.issued, h, p);
      assert WellPlaced(s.issued, h);
    }
    InFlightKept(s, s');
  }

  /** Everything a redemption in flight relies on is stable. */
  lemma InFlightKept(s: State, s': State)
    requires forall id <- s.redeemers :: InFlight(s, s.redeemers[id])
    requires s'.lifetime == s.lifetime && s.now <= s'.now
    requires forall h <- s.issued :: h in s'.issued && s'.issued[h] == s.issued[h]
    ensures forall id <- s.redeemers :: InFlight(s', s.redeemers[id])
  {
    forall id <- s.redeemers ensures InFlight(s', s.redeemers[id]) {
      assert InFlight(s, s.redeemers[id]);
    }
  }

  /** The rotation itself: the old row spent, its one successor stored and live. */
  lemma RotationKeepsStorage(rows: Table, g: History, h: Hash, n: Hash, row: RefreshToken)
    requires ChainShape(g) && Faithful(rows, g) && Suffix(rows, g)
    requires Live(rows, h) && n !in g && !row.revoked && row.rotatedFrom == Some(h)
    ensures var rows' := Revoke(rows, h)[n := row];
            var g' := g[n := Issued(g[h].root, g[h].index + 1, row)];
            Faithful(rows', g') && Suffix(rows', g')
  {
    var rows' := Revoke(rows, h)[n := row];
    var g' := g[n := Issued(g[h].root, g[h].index + 1, row)];
    forall c, p | IsChild(g', c, p) ensures !Live(rows', p) && (p in rows' ==> c in rows') {
      if c != n {
        assert IsChild(g, c, p);
        assert WellPlaced(g, c);
      }
    }
  }

  /** What a winning rotation of `h` by redeemer `id` does: `h` spent, its one successor `n` stored and live. */
  ghost predicate Spends(s: State, id: nat, h: Hash, n: Hash, s': State) {
    && n in s'.issued && n !in s.issued && h in s.issued && id in s.redeemers && id in s'.redeemers
    && var row := s'.issued[n].row;
    && s'.issued == s.issued[n := Issued(s.issued[h].root, s.issued[h].index + 1, row)]
    && s'.rows == Revoke(s.rows, h)[n := row]
    && row.rotatedFrom == Some(h) && !row.revoked
    && Inherits(s.issued[h].row, row) && row.expiresAt <= s.now + s.lifetime
    && s'.lifetime == s.lifetime && s'.now == s.now
    && s'.redeemers == MoveTo(s, id, s'.redeemers[id].phase)
    && s'.redeemers[id].phase.Finished?
  }

  lemma WinSpends(s: State, step: Step, s': State)
    requires Wins(s, step) && Next(s, step, s')
    requires InFlight(s, s.redeemers[step.id]) && Sha256(step.newToken) !in s.rows
    ensures Spends(s, step.id, WonToken(s, step), Sha256(step.newToken), s')
  {
    var r := s.redeemers[step.id];
    var h := r.Hash();
    var expiresAt := step.stampedAt + s.lifetime;
    ReplacementInherits(r.phase.row, r.request, r.phase.checkedAt, step.newToken, expiresAt, h, s.now);
    var child := Replacement(r.phase.row, step.newToken, r.phase.scopes, expiresAt);
    assert Rotate(s.rows, h, child, s.now)
        == Rotated(Revoke(s.rows, h)[Sha256(step.newToken) := RowOf(child.(rotatedFrom := Some(h)), s.now)]);
  }

  /** The chain grows at its end, and its storage stays a suffix. */
  lemma SpendKeepsShape(rows: Table, g: History, h: Hash, n: Hash, row: RefreshToken)
    requires ChainShape(g) && Faithful(rows, g) && Suffix(rows, g) && Live(rows, h) && n !in g
    requires row.rotatedFrom == Some(h) && !row.revoked && Inherits(g[h].row, row)
    ensures var g' := g[n := Issued(g[h].root, g[h].index + 1, row)];
            && ChainShape(g')
            && Faithful(Revoke(rows, h)[n := row], g') && Suffix(Revoke(rows, h)[n := row], g')
  {
    assert forall c :: !IsChild(g, c, h);
    AddChild(g, h, n, row);
    RotationKeepsStorage(rows, g, h, n, row);
  }

  lemma InvSpends(s: State, id: nat, h: Hash, n: Hash, s': State)
    requires Inv(s) && Live(s.rows, h) && Spends(s, id, h, n, s')
    ensures Inv(s')
  {
    SpendKeepsShape(s.rows, s.issued, h, n, s'.issued[n].row);
    assert ExpiryWithin(s'.issued, s'.now + s'.lifetime);
    InFlightKept(s, s');
  }

  /** Steps that only revoke or purge rows keep the storage invariant. */
  lemma SuffixShrinks(rows: Table, rows': Table, g: History)
    requires Suffix(rows, g) && Faithful(rows, g) && ChainShape(g)
    requires forall h <- rows' :: h in rows && (rows'[h] == rows[h] || rows'[h] == rows[h].(revoked := true))
    requires rows'.Keys == rows.Keys || exists cutoff :: rows' == DeleteExpired(rows, cutoff)
    ensures Suffix(rows', g) && Faithful(rows', g)
  {
    forall h, p | IsChild(g, h, p) ensures !Live(rows', p) && (p in rows' ==> h in rows') {
      assert WellPlaced(g, h);
      assert !Live(rows, p) && (p in rows ==> h in rows);
    }
  }

  /** Purging and revoking: rows go or lose their life, and nothing is issued. */
  lemma InvShrinks(s: State, step: Step, s': State)
    requires Inv(s) && (step.Purge? || step.RevokeChain?) && Next(s, step, s')
    ensures Inv(s')
  {
    assert step.Purge? ==> s'.rows == DeleteExpired(s.rows, step.cutoff);
    SuffixShrinks(s.rows, s'.rows, s.issued);
    InFlightKept(s, s');
  }

  /** A request that moves on holds what it read, checked as the source checks it. */
  lemma MovedInFlight(s: State, step: Step, s': State, id: nat)
    requires Inv(s) && Next(s, step, s') && s'.rows == s.rows && s'.issued == s.issued
    requires id in s'.redeemers
    ensures InFlight(s', s'.redeemers[id])
  {
    if id in s.redeemers {
      assert InFlight(s, s.redeemers[id]);
      var h := s.redeemers[id].Hash();
      assert h in s.rows ==> WellPlaced(s.issued, h);
    }
  }

  lemma ClockAndLifetime(s: State, step: Step, s': State)
    requires Next(s, step, s')
    ensures s'.lifetime == s.lifetime && s.now <= s'.now
  {}

  /** The steps that leave table and history alone. */
  lemma InvQuiet(s: State, step: Step, s': State)
    requires Inv(s) && Next(s, step, s') && s'.rows == s.rows && s'.issued == s.issued
    ensures Inv(s')
  {
    ClockAndLifetime(s, step, s');
    forall id <- s'.redeemers ensures InFlight(s', s'.redeemers[id]) {
      MovedInFlight(s, step, s', id);
    }
  }

  /** A rotation that does not win changes no table. */
  lemma LosersChangeNothing(s: State, step: Step, s': State)
    requires Next(s, step, s') && !Wins(s, step) && !step.Issue? && !step.Purge? && !step.RevokeChain?
    ensures s'.rows == s.rows && s'.issued == s.issued
  {}

  lemma InvNext(s: State, step: Step, s': State)
    requires Inv(s) && Next(s, step, s')
    ensures Inv(s')
  {
    if step.Issue? {
      InvIssue(s, step, s');
    } else if Wins(s, step) {
      WinSpends(s, step, s');
      InvSpends(s, step.id, WonToken(s, step), Sha256(step.newToken), s');
    } else if step.Purge? || step.RevokeChain? {
      InvShrinks(s, step, s');
    } else {
      LosersChangeNothing(s, step, s');
      InvQuiet(s, step, s');
    }
  }

  lemma ClockOnlyTicks(s: State, step: Step, s': State)
    requires Next(s, step, s')
    ensures s'.now == s.now + if step.Tick? then step.seconds else 0
  {
  }

  lemma {:induction false} InvRun(ss: seq<State>, steps: seq<Step>, i: nat)
    requires Run(ss, steps) && i < |ss|
    ensures Inv(ss[i])
  {
    if i > 0 {
      InvRun(ss, steps, i - 1);
      assert Next(ss[i - 1], steps[i - 1], ss[i - 1 + 1]);
      InvNext(ss[i - 1], steps[i - 1], ss[i]);
    }
  }
}
