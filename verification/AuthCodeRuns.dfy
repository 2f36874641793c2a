/**
 * Authorization codes under interleaving: any number of redemptions split into read, check and consume,
 * with issuance, purging and the clock. `issued` remembers what each code was issued with.
 */
module AuthCodeRuns {
  import opened Text
  import opened AuthCodes

  /** The parameters `issueAuthCode` was called with, its clock reading, and the row it stored. */
  datatype Grant = Grant(params: IssueParams, stampedAt: int, row: AuthCode)

  datatype Phase =
    | Presented
    | Holding(row: AuthCode)
    | Consuming(row: AuthCode, checkedAt: int)
    | Finished(outcome: Outcome)

  datatype Redeemer = Redeemer(request: Request, phase: Phase)

  datatype State = State(
    lifetime: int,
    s256: string -> string,
    now: int,
    rows: Table,
    issued: map<string, Grant>,
    redeemers: map<nat, Redeemer>)

  datatype Step =
    | Idle
    | Tick(seconds: nat)
    | Issue(code: string, params: IssueParams, stampedAt: int)
    | Present(id: nat, request: Request)
    | Read(id: nat)
    | CheckRow(id: nat)
    | ConsumeRow(id: nat)
    | Purge(cutoff: int)

  ghost predicate Init(s: State) { s.rows == map[] && s.issued == map[] && s.redeemers == map[] }

  function MoveTo(s: State, id: nat, phase: Phase): map<nat, Redeemer>
    requires id in s.redeemers
  {
    s.redeemers[id := s.redeemers[id].(phase := phase)]
  }

  /** The row `issueAuthCode` stores: unconsumed, its scopes joined, its expiry one lifetime ahead. */
  function IssuedRow(s: State, step: Step): AuthCode
    requires step.Issue?
  {
    RowOf(NewCode(step.code, step.params, step.stampedAt + s.lifetime), s.now)
  }

  function AfterRead(t: Table, code: string): Phase {
    if code !in t then Finished(Rejected(UnknownCode))
    else if t[code].consumed then Finished(Rejected(AlreadyUsed))
    else Holding(t[code])
  }

  function AfterCheck(row: AuthCode, request: Request, now: int, s256: string -> string): Phase {
    match Check(row, request, now, s256)
    case Some(reason) => Finished(Rejected(reason))
    case None => Consuming(row, now)
  }

  predicate Wins(s: State, step: Step) {
    && step.ConsumeRow? && step.id in s.redeemers && s.redeemers[step.id].phase.Consuming?
    && Redeemable(s.rows, s.redeemers[step.id].request.code)
  }

  function WonCode(s: State, step: Step): string
    requires Wins(s, step)
  {
    s.redeemers[step.id].request.code
  }

  ghost predicate Next(s: State, step: Step, s': State) {
    match step
    case Idle => s' == s
    case Tick(seconds) => s' == s.(now := s.now + seconds)
    case Issue(code, params, stampedAt) =>
      && code !in s.issued && code !in s.rows && stampedAt <= s.now
      && s' == s.(rows := s.rows[code := IssuedRow(s, step)],
                  issued := s.issued[code := Grant(params, stampedAt, IssuedRow(s, step))])
    case Present(id, request) =>
      id !in s.redeemers && s' == s.(redeemers := s.redeemers[id := Redeemer(request, Presented)])
    case Read(id) =>
      && id in s.redeemers && s.redeemers[id].phase.Presented?
      && s' == s.(redeemers := MoveTo(s, id, AfterRead(s.rows, s.redeemers[id].request.code)))
    case CheckRow(id) =>
      && id in s.redeemers && s.redeemers[id].phase.Holding?
      && var r := s.redeemers[id];
      s' == s.(redeemers := MoveTo(s, id, AfterCheck(r.phase.row, r.request, s.now, s.s256)))
    case ConsumeRow(id) =>
      && id in s.redeemers && s.redeemers[id].phase.Consuming?
      && var r := s.redeemers[id];
      s' == s.(rows := Consume(s.rows, r.request.code),
               redeemers := MoveTo(s, id, Finished(
                 if Redeemable(s.rows, r.request.code) then Answer(r.phase.row) else Rejected(AlreadyUsed))))
    case Purge(cutoff) => s' == s.(rows := DeleteExpired(s.rows, cutoff))
  }

  ghost predicate Behaviour(ss: seq<State>, steps: seq<Step>) {
    |ss| == |steps| + 1 && forall i | 0 <= i < |steps| :: Next(ss[i], steps[i], ss[i + 1])
  }

  ghost predicate Run(ss: seq<State>, steps: seq<Step>) { Behaviour(ss, steps) && Init(ss[0]) }

  // --- invariant --------------------------------------------------------------------------------

  /** A row in hand is the row the code was issued with, and a passed check was passed on it. */
  ghost predicate InFlight(s: State, r: Redeemer) {
    match r.phase
    case Holding(row) => r.request.code in s.issued && row == s.issued[r.request.code].row
    case Consuming(row, checkedAt) =>
      && r.request.code in s.issued && row == s.issued[r.request.code].row
      && checkedAt <= s.now && Check(row, r.request, checkedAt, s.s256).None?
    case _ => true
  }

  /** The row a code was issued with is the one its grant asks for. */
  predicate AsAsked(g: Grant, lifetime: int) {
    IssuedFor(g.row, g.params, g.stampedAt + lifetime, g.row.createdAt)
  }

  /** A stored row is the issued row, changed at most by consumption. */
  predicate StoredAsIssued(rows: Table, issued: map<string, Grant>) {
    forall code <- rows :: code in issued && rows[code] == issued[code].row.(consumed := rows[code].consumed)
  }

  ghost predicate Inv(s: State) {
    && (forall code <- s.issued :: AsAsked(s.issued[code], s.lifetime))
    && StoredAsIssued(s.rows, s.issued)
    && (forall id <- s.redeemers :: InFlight(s, s.redeemers[id]))
  }

  lemma InFlightNext(s: State, step: Step, s': State, id: nat)
    requires Inv(s) && Next(s, step, s') && id in s'.redeemers
    ensures InFlight(s', s'.redeemers[id])
  {
    if id in s.redeemers {
      assert InFlight(s, s.redeemers[id]);
    }
  }

  lemma InvNext(s: State, step: Step, s': State)
    requires Inv(s) && Next(s, step, s')
    ensures Inv(s')
  {
    forall id <- s'.redeemers ensures InFlight(s', s'.redeemers[id]) {
      InFlightNext(s, step, s', id);
    }
    TablesNext(s, step, s');
  }

  lemma TablesNext(s: State, step: Step, s': State)
    requires StoredAsIssued(s.rows, s.issued) && Next(s, step, s')
    requires forall code <- s.issued :: AsAsked(s.issued[code], s.lifetime)
    ensures StoredAsIssued(s'.rows, s'.issued)
    ensures forall code <- s'.issued :: AsAsked(s'.issued[code], s'.lifetime)
  {
    forall code <- s'.issued ensures AsAsked(s'.issued[code], s'.lifetime) {
      IssuedNext(s, step, s', code);
    }
  }

  lemma ClockOnlyTicks(s: State, step: Step, s': State)
    requires Next(s, step, s')
    ensures s'.now == s.now + if step.Tick? then step.seconds else 0
  {
  }

  lemma {:induction false} InvRun(ss: seq<State>, steps: seq<Step>, i: nat)
    requires Run(ss, steps) && i < |ss|
    ensures Inv(ss[i])
  {
    if i > 0 {
      InvRun(ss, steps, i - 1);
      assert Next(ss[i - 1], steps[i - 1], ss[i - 1 + 1]);
      InvNext(ss[i - 1], steps[i - 1], ss[i]);
    }
  }

  // --- theorems ---------------------------------------------------------------------------------

  /** The verifier a request gives answers the challenge of a grant, if it has one. */
  predicate Answers(p: IssueParams, request: Request, s256: string -> string) {
    p.codeChallenge.Some? ==>
      && request.codeVerifier.Some? && request.codeVerifier.value != ""
      && var m := LowerCase(if p.codeChallengeMethod.Some? then p.codeChallengeMethod.value else "plain");
         || (m == "s256" && s256(request.codeVerifier.value) == p.codeChallenge.value)
         || (m == "plain" && request.codeVerifier.value == p.codeChallenge.value)
  }

  /**
   * A winning redemption is the issued code's own: the app and redirect URI it was issued for, the verifier of its
   * challenge, unexpired when checked; it answers exactly the user, resource, nonce and scopes it was issued for.
   */
  lemma WinnerMatchesGrant(s: State, step: Step, s': State)
    requires Inv(s) && Wins(s, step) && Next(s, step, s')
    ensures var r := s.redeemers[step.id];
            && r.request.code in s.issued
            && var grant := s.issued[r.request.code];
            var p := grant.params;
            && p.appId == r.request.appId && p.redirectUri == r.request.redirectUri
            && Answers(p, r.request, s.s256)
            && r.phase.checkedAt < grant.stampedAt + s.lifetime && r.phase.checkedAt <= s.now
            && s'.redeemers[step.id].phase == Finished(Redeemed(
                 userId := p.userId, scopes := ReadScopes(Join(p.scopes)), resource := p.resource, nonce := p.nonce))
            && (ReadScopes(Join(p.scopes)) == p.scopes
                <==> (forall scope <- p.scopes :: ' ' !in scope) && p.scopes != [""])
  {
    var r := s.redeemers[step.id];
    assert InFlight(s, r);
    StoredScopesRoundTrip(s.issued[r.request.code].params.scopes);
  }

  /** A step keeps what was issued and the lifetime; a new code is the one its `Issue` step asks for. */
  lemma IssuedNext(s: State, step: Step, s': State, code: string)
    requires Next(s, step, s') && code in s'.issued
    ensures s'.lifetime == s.lifetime && s'.s256 == s.s256
    ensures if code in s.issued then s'.issued[code] == s.issued[code]
            else step.Issue? && step.code == code
                 && s'.issued[code].params == step.params && s'.issued[code].stampedAt == step.stampedAt
                 && AsAsked(s'.issued[code], s'.lifetime)
  {}

  /** An issued code is stored, redeemable, for what the step issues it for. */
  lemma IssueStores(s: State, step: Step, s': State)
    requires step.Issue? && Next(s, step, s')
    ensures step.code in s'.rows && s'.issued.Keys == s.issued.Keys + {step.code}
    ensures IssuedFor(s'.rows[step.code], step.params, step.stampedAt + s.lifetime, s.now)
  {}

  lemma HistoryGrows(s: State, step: Step, s': State)
    requires Next(s, step, s')
    ensures forall code <- s.issued :: code in s'.issued && s'.issued[code] == s.issued[code]
  {}

  lemma {:induction false} IssueStep(ss: seq<State>, steps: seq<Step>, i: nat, code: string) returns (k: nat)
    requires Run(ss, steps) && i < |ss| && code in ss[i].issued
    ensures k < i && steps[k].Issue? && steps[k].code == code
    ensures steps[k].params == ss[i].issued[code].params && steps[k].stampedAt == ss[i].issued[code].stampedAt
    ensures ss[k].lifetime == ss[i].lifetime
  {
    assert i > 0;
    k := i - 1;
    assert Next(ss[k], steps[k], ss[k + 1]);
    IssuedNext(ss[k], steps[k], ss[i], code);
    if code in ss[k].issued {
      k := IssueStep(ss, steps, k, code);
    }
  }

  /** Over a whole run: behind every winning redemption stands the one step that issued the code for that grant. */
  lemma WinnerHasItsIssue(ss: seq<State>, steps: seq<Step>, j: nat) returns (k: nat)
    requires Run(ss, steps) && j < |steps| && Wins(ss[j], steps[j])
    ensures k < j && steps[k].Issue? && steps[k].code == WonCode(ss[j], steps[j])
    ensures var r := ss[j].redeemers[steps[j].id];
            var p := steps[k].params;
            && p.appId == r.request.appId && p.redirectUri == r.request.redirectUri
            && Answers(p, r.request, ss[j].s256)
            && r.phase.checkedAt < steps[k].stampedAt + ss[k].lifetime
            && ss[j + 1].redeemers[steps[j].id].phase == Finished(Redeemed(
                 userId := p.userId, scopes := ReadScopes(Join(p.scopes)), resource := p.resource, nonce := p.nonce))
  {
    assert Next(ss[j], steps[j], ss[j + 1]);
    InvRun(ss, steps, j);
    WinnerMatchesGrant(ss[j], steps[j], ss[j + 1]);
    k := IssueStep(ss, steps, j, WonCode(ss[j], steps[j]));
  }

  /**
   * Run without interference, the machine's steps are the service's redemption: from any state they answer and
   * store exactly what `Redeem` says for that table.
   */
  lemma UninterruptedRedemption(s: State, id: nat, request: Request) returns (ss: seq<State>, steps: seq<Step>)
    requires id !in s.redeemers
    ensures Behaviour(ss, steps) && ss[0] == s
    ensures var (outcome, t) := Redeem(s.rows, request, s.now, s.s256);
            ss[|ss| - 1] == s.(rows := t, redeemers := s.redeemers[id := Redeemer(request, Finished(outcome))])
  {
    var s1 := s.(redeemers := s.redeemers[id := Redeemer(request, Presented)]);
    var s2 := s1.(redeemers := MoveTo(s1, id, AfterRead(s.rows, request.code)));
    ss, steps := [s, s1, s2], [Present(id, request), Read(id)];
    assert Next(s, steps[0], s1) && Next(s1, steps[1], s2);
    if s2.redeemers[id].phase.Holding? {
      var tail, more := FinishRedemption(s2, id);
      ss, steps := [s, s1] + tail, steps + more;
      assert forall i | 2 <= i < |steps| :: ss[i] == tail[i - 2] && steps[i] == more[i - 2];
      assert s2.redeemers[id := Redeemer(request, ss[|ss| - 1].redeemers[id].phase)]
          == s.redeemers[id := Redeemer(request, ss[|ss| - 1].redeemers[id].phase)];
    }
  }

  /** The steps that finish a redemption once its row is in hand. */
  lemma FinishRedemption(s: State, id: nat) returns (ss: seq<State>, steps: seq<Step>)
    requires id in s.redeemers && Redeemable(s.rows, s.redeemers[id].request.code)
    requires s.redeemers[id].phase == Holding(s.rows[s.redeemers[id].request.code])
    ensures Behaviour(ss, steps) && ss[0] == s
    ensures var request := s.redeemers[id].request;
            var (outcome, t) := Redeem(s.rows, request, s.now, s.s256);
            ss[|ss| - 1] == s.(rows := t, redeemers := s.redeemers[id := Redeemer(request, Finished(outcome))])
  {
    var request := s.redeemers[id].request;
    var row := s.rows[request.code];
    var s1 := s.(redeemers := MoveTo(s, id, AfterCheck(row, request, s.now, s.s256)));
    ss, steps := [s, s1], [CheckRow(id)];
    assert Next(s, steps[0], s1);
    if s1.redeemers[id].phase.Consuming? {
      var s2 := s1.(rows := Consume(s.rows, request.code), redeemers := MoveTo(s1, id, Finished(Answer(row))));
      ss, steps := [s, s1, s2], [CheckRow(id), ConsumeRow(id)];
      assert Next(s1, steps[1], s2);
    }
  }

  /** Only winning its redemption changes a stored code: a failed attempt, of any kind, leaves the row alone. */
  lemma OnlyWinningChangesARow(s: State, step: Step, s': State, code: string)
    requires Inv(s) && Next(s, step, s') && code in s.rows && code in s'.rows
    ensures s'.rows[code] != s.rows[code] <==> Wins(s, step) && WonCode(s, step) == code
  {
  }

  /** A consumed or purged code is never redeemable again. */
  lemma {:induction false} NeverRedeemableAgain(ss: seq<State>, steps: seq<Step>, i: nat, j: nat, code: string)
    requires Run(ss, steps) && i <= j < |ss|
    requires code in ss[i].issued && !Redeemable(ss[i].rows, code)
    ensures !Redeemable(ss[j].rows, code)
    decreases j - i
  {
    if i < j {
      assert Next(ss[i], steps[i], ss[i + 1]);
      InvRun(ss, steps, i);
      NeverRedeemableAgain(ss, steps, i + 1, j, code);
    }
  }

  /** Each code wins at most one redemption, however many are in flight. */
  lemma SingleUse(ss: seq<State>, steps: seq<Step>, i: nat, j: nat)
    requires Run(ss, steps) && i < j < |steps|
    requires Wins(ss[i], steps[i]) && Wins(ss[j], steps[j])
    ensures WonCode(ss[i], steps[i]) != WonCode(ss[j], steps[j])
  {
    assert Next(ss[i], steps[i], ss[i + 1]);
    InvRun(ss, steps, i);
    NeverRedeemableAgain(ss, steps, i + 1, j, WonCode(ss[i], steps[i]));
  }
}
