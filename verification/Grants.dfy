/** When a token response issues a refresh row: the builder's own test, and the gate of the refresh handler. */
module TokenResponses {
  import opened Text
  import opened Scopes

  /** The parameters of `buildTokenResponse` that decide about refresh tokens. */
  datatype BuildParams = BuildParams(
    appId: string,
    userId: Option<string>,
    scopes: seq<string>,
    resource: Option<string>,
    refreshToken: Option<string>)

  predicate CarriesOfflineAccess(scopes: seq<string>) { OFFLINE_ACCESS in ScopeNames(scopes) }

  /** JavaScript truthiness of the pre-issued token. */
  predicate Embeds(p: BuildParams) { p.refreshToken.Some? && p.refreshToken.value != "" }

  /** The builder issues a row of its own. */
  predicate Issues(p: BuildParams) { !Embeds(p) && p.userId.Some? && CarriesOfflineAccess(p.scopes) }

  /** `refresh_token` in the response, given the token a builder-issued row would get. */
  function ResponseRefreshToken(p: BuildParams, issued: string): Option<string> {
    if Embeds(p) then p.refreshToken else if Issues(p) then Some(issued) else None
  }

  /** What `handleRefreshToken` passes on after a successful rotation. */
  function AfterRotation(appId: string, userId: string, scopes: seq<string>, resource: Option<string>, newToken: string)
    : BuildParams
  {
    BuildParams(appId, Some(userId), scopes, resource, if CarriesOfflineAccess(scopes) then Some(newToken) else None)
  }

  /** The builder issues exactly for a user whose scopes name `offline_access`, unless it was handed a token. */
  lemma BuilderIssuesExactly(p: BuildParams, issued: string)
    ensures Issues(p) <==> && (p.refreshToken.Some? ==> p.refreshToken.value == "") && p.userId.Some?
                           && exists scope <- p.scopes :: StripScopePrefix(scope) == "offline_access"
    ensures Issues(p) ==> ResponseRefreshToken(p, issued) == Some(issued)
    ensures !Issues(p) ==>
              ResponseRefreshToken(p, issued) == if p.refreshToken == Some("") then None else p.refreshToken
  {
    NamesMean(p.scopes, OFFLINE_ACCESS);
  }

  /**
   * After a rotation the gate and the builder never both act: no second row is issued, and the client gets
   * the rotated token exactly when the narrowed grant still carries `offline_access`, and otherwise none.
   */
  lemma RotationIssuesOnce(appId: string, userId: string, scopes: seq<string>, resource: Option<string>,
                           newToken: string, issued: string)
    requires newToken != ""
    ensures var p := AfterRotation(appId, userId, scopes, resource, newToken);
            && !Issues(p)
            && ResponseRefreshToken(p, issued) == if CarriesOfflineAccess(scopes) then Some(newToken) else None
  {
  }
}

/**
 * The token endpoint as a whole: the three machines over one clock, and the responses being built from their
 * successes. Building is a step of its own, since signing is asynchronous.
 */
module Grants {
  import opened Text
  import opened Hashing
  import opened Scopes
  import opened TokenResponses
  import AuthCodes
  import RefreshTokens
  import RefreshService
  import C = AuthCodeRuns
  import R = RefreshRuns
  import RS = RefreshSafety
  import D = DeviceRuns

  /** What a response is being built for. */
  datatype Source = FromCode(code: string) | FromDevice(hash: Hash) | FromRotation(newToken: string)

  /**
   * `wins` are the successful code and device redemptions; `spent` those whose response issued a root row, and
   * `roots` which response each of these rows came from.
   */
  datatype State = State(
    codes: C.State,
    devices: D.State,
    refresh: R.State,
    responses: map<Source, BuildParams>,
    wins: set<Source>,
    spent: set<Source>,
    rotations: set<Hash>,
    roots: map<Hash, Source>)

  datatype Step =
    | Tick(seconds: nat)
    | CodeStep(code: C.Step)
    | DeviceStep(device: D.Step)
    | RefreshStep(refresh: R.Step)
    | Build(source: Source, token: string, stampedAt: int)
    | Abandon(source: Source)

  ghost predicate Init(s: State) {
    && C.Init(s.codes) && D.Init(s.devices) && R.Init(s.refresh)
    && s.codes.now == s.devices.now == s.refresh.now
    && s.responses == map[] && s.wins == {} && s.spent == {} && s.rotations == {} && s.roots == map[]
  }

  /** The response a won authorization code leads to: for the requesting client, and for what redemption answered. */
  function CodeResponse(request: AuthCodes.Request, answer: AuthCodes.Outcome): BuildParams
    requires answer.Redeemed?
  {
    BuildParams(request.appId, Some(answer.userId), answer.scopes, answer.resource, None)
  }

  /** The response a won device code leads to, once the user check has granted its poll. */
  function DeviceResponse(s: D.State, step: D.Step): BuildParams
    requires D.Wins(s, step)
  {
    var row := s.rows[D.WonCode(s, step)];
    var scopes := SplitScopes(row.scopes);
    BuildParams(s.polls[step.id].appId, row.userId, scopes, ResolveResource(scopes), None)
  }

  function RotationResponse(request: RefreshService.Request, answer: RefreshService.Outcome): BuildParams
    requires answer.Redeemed?
  {
    AfterRotation(request.appId, answer.userId, answer.scopes, answer.resource, answer.newRefreshToken)
  }

  ghost predicate NextCode(s: State, step: C.Step, s': State) {
    && !step.Tick? && C.Next(s.codes, step, s'.codes)
    && s' == s.(
         codes := s'.codes,
         wins := if C.Wins(s.codes, step) then s.wins + {FromCode(C.WonCode(s.codes, step))} else s.wins,
         responses := if C.Wins(s.codes, step)
                      then s.responses[FromCode(C.WonCode(s.codes, step)) :=
                             CodeResponse(s.codes.redeemers[step.id].request,
                                          s'.codes.redeemers[step.id].phase.outcome)]
                      else s.responses)
  }

  ghost predicate NextDevice(s: State, step: D.Step, s': State) {
    && !step.Tick? && D.Next(s.devices, step, s'.devices)
    && s' == s.(
         devices := s'.devices,
         wins := if D.Wins(s.devices, step) then s.wins + {FromDevice(D.WonCode(s.devices, step))} else s.wins,
         responses := if D.Wins(s.devices, step)
                      then s.responses[FromDevice(D.WonCode(s.devices, step)) := DeviceResponse(s.devices, step)]
                      else s.responses)
  }

  /** The rotation has just succeeded. */
  predicate Answers(step: R.Step, s: R.State) {
    && step.RotateRow? && step.id in s.redeemers
    && s.redeemers[step.id].phase.Finished? && s.redeemers[step.id].phase.outcome.Redeemed?
  }

  lemma RotationAnswers(s: R.State, step: R.Step, s': R.State)
    requires R.Next(s, step, s') && Answers(step, s')
    ensures R.Wins(s, step) && s'.redeemers[step.id].phase.outcome.newRefreshToken == step.newToken
    ensures s'.redeemers[step.id].request == s.redeemers[step.id].request
  {}

  /** Rotation steps; root rows come only from `Build`. Generated tokens are never empty. */
  ghost predicate NextRefresh(s: State, step: R.Step, s': State) {
    && !step.Tick? && !step.Issue? && R.Next(s.refresh, step, s'.refresh)
    && (step.RotateRow? ==> step.newToken != "")
    && s' == s.(
         refresh := s'.refresh,
         rotations := if R.Wins(s.refresh, step) then s.rotations + {R.WonToken(s.refresh, step)} else s.rotations,
         responses := if Answers(step, s'.refresh)
                      then s.responses[FromRotation(step.newToken) := RotationResponse(
                             s'.refresh.redeemers[step.id].request, s'.refresh.redeemers[step.id].phase.outcome)]
                      else s.responses)
  }

  /** Some poll of the device code passed the user check and was granted tokens. */
  ghost predicate GrantedTo(s: D.State, h: Hash) {
    exists id <- s.polls :: s.polls[id].Hash() == h && s.polls[id].phase.Answered? && s.polls[id].phase.answer.Granted?
  }

  ghost predicate NextBuild(s: State, source: Source, token: string, stampedAt: int, s': State) {
    && source in s.responses
    && (source.FromDevice? ==> GrantedTo(s.devices, source.hash))
    && var p := s.responses[source];
    && (if Issues(p)
        then R.Next(s.refresh, R.Issue(token, p.appId, p.userId.value, p.scopes, p.resource, stampedAt), s'.refresh)
        else s'.refresh == s.refresh)
    && s' == s.(refresh := s'.refresh, responses := s.responses - {source},
                spent := if Issues(p) then s.spent + {source} else s.spent,
                roots := if Issues(p) then s.roots[Sha256(token) := source] else s.roots)
  }

  ghost predicate Next(s: State, step: Step, s': State) {
    match step
    case Tick(seconds) =>
      s' == s.(codes := s.codes.(now := s.codes.now + seconds),
               devices := s.devices.(now := s.devices.now + seconds),
               refresh := s.refresh.(now := s.refresh.now + seconds))
    case CodeStep(c) => NextCode(s, c, s')
    case DeviceStep(d) => NextDevice(s, d, s')
    case RefreshStep(r) => NextRefresh(s, r, s')
    case Build(source, token, stampedAt) => NextBuild(s, source, token, stampedAt, s')
    case Abandon(source) => s' == s.(responses := s.responses - {source})
  }

  ghost predicate Linked(ss: seq<State>, steps: seq<Step>, i: nat)
    requires i < |steps| && |ss| == |steps| + 1
  {
    Next(ss[i], steps[i], ss[i + 1])
  }

  ghost predicate Run(ss: seq<State>, steps: seq<Step>) {
    && |ss| == |steps| + 1 && Init(ss[0])
    && forall i | 0 <= i < |steps| :: Linked(ss, steps, i)
  }

  // --- every component keeps its own guarantees -------------------------------------------------------

  /** The step of the refresh machine that an endpoint step performs. */
  function RefreshView(s: State, step: Step): R.Step {
    match step
    case Tick(seconds) => R.Tick(seconds)
    case RefreshStep(r) => r
    case Build(source, token, stampedAt) =>
      if source in s.responses && Issues(s.responses[source]) then
        var p := s.responses[source];
        R.Issue(token, p.appId, p.userId.value, p.scopes, p.resource, stampedAt)
      else R.Idle
    case _ => R.Idle
  }

  function CodeView(step: Step): C.Step {
    match step
    case Tick(seconds) => C.Tick(seconds)
    case CodeStep(c) => c
    case _ => C.Idle
  }

  function DeviceView(step: Step): D.Step {
    match step
    case Tick(seconds) => D.Tick(seconds)
    case DeviceStep(d) => d
    case _ => D.Idle
  }

  /** Each endpoint step is one step of each machine, so each machine's theorems hold of endpoint runs. */
  lemma StepProjects(s: State, step: Step, s': State)
    requires Next(s, step, s')
    ensures R.Next(s.refresh, RefreshView(s, step), s'.refresh)
    ensures C.Next(s.codes, CodeView(step), s'.codes)
    ensures D.Next(s.devices, DeviceView(step), s'.devices)
  {
    assert D.NextOther(s.devices, DeviceView(step), s'.devices) || D.Next(s.devices, DeviceView(step), s'.devices);
  }

  /** An endpoint run, seen at the code table, is a run of the code machine. */
  lemma CodesProject(ss: seq<State>, steps: seq<Step>) returns (cs: seq<C.State>, csteps: seq<C.Step>)
    requires Run(ss, steps)
    ensures C.Run(cs, csteps) && |csteps| == |steps|
    ensures forall i | 0 <= i < |ss| :: cs[i] == ss[i].codes
    ensures forall i | 0 <= i < |steps| :: csteps[i] == CodeView(steps[i])
  {
    cs := seq(|ss|, i requires 0 <= i < |ss| => ss[i].codes);
    csteps := seq(|steps|, i requires 0 <= i < |steps| => CodeView(steps[i]));
    forall i | 0 <= i < |csteps| ensures C.Next(cs[i], csteps[i], cs[i + 1]) {
      assert Linked(ss, steps, i);
      StepProjects(ss[i], steps[i], ss[i + 1]);
    }
  }

  /** An endpoint run, seen at the device table, is a run of the device machine. */
  lemma DevicesProject(ss: seq<State>, steps: seq<Step>) returns (ds: seq<D.State>, dsteps: seq<D.Step>)
    requires Run(ss, steps)
    ensures D.Run(ds, dsteps) && |dsteps| == |steps|
    ensures forall i | 0 <= i < |ss| :: ds[i] == ss[i].devices
    ensures forall i | 0 <= i < |steps| :: dsteps[i] == DeviceView(steps[i])
  {
    ds := seq(|ss|, i requires 0 <= i < |ss| => ss[i].devices);
    dsteps := seq(|steps|, i requires 0 <= i < |steps| => DeviceView(steps[i]));
    forall i | 0 <= i < |dsteps| ensures D.Next(ds[i], dsteps[i], ds[i + 1]) {
      assert Linked(ss, steps, i);
      StepProjects(ss[i], steps[i], ss[i + 1]);
    }
  }

  /** An endpoint run, seen at the refresh table, is a run of the refresh machine. */
  lemma RunProjects(ss: seq<State>, steps: seq<Step>) returns (rs: seq<R.State>, rsteps: seq<R.Step>)
    requires Run(ss, steps)
    ensures R.Run(rs, rsteps) && |rsteps| == |steps|
    ensures forall i | 0 <= i < |ss| :: rs[i] == ss[i].refresh
    ensures forall i | 0 <= i < |steps| :: rsteps[i] == RefreshView(ss[i], steps[i])
  {
    rs := seq(|ss|, i requires 0 <= i < |ss| => ss[i].refresh);
    rsteps := seq(|steps|, i requires 0 <= i < |steps| => RefreshView(ss[i], steps[i]));
    forall i | 0 <= i < |rsteps| ensures R.Next(rs[i], rsteps[i], rs[i + 1]) {
      assert Linked(ss, steps, i);
      StepProjects(ss[i], steps[i], ss[i + 1]);
    }
  }

  // --- conservation -----------------------------------------------------------------------------------

  ghost predicate MachinesOk(s: State) {
    C.Inv(s.codes) && D.Inv(s.devices) && R.Inv(s.refresh) && s.codes.now == s.devices.now == s.refresh.now
  }

  /** A won code or device code is used up. */
  predicate UsedUp(s: State, source: Source) {
    match source
    case FromCode(code) => code in s.codes.issued && !AuthCodes.Redeemable(s.codes.rows, code)
    case FromDevice(h) => h in s.devices.inserted && h !in s.devices.rows
    case FromRotation(_) => false
  }

  /** A response in the making belongs to a success that has not issued yet, and a rotation never issues. */
  predicate ResponseOk(s: State, source: Source) {
    source in s.responses ==>
      if source.FromRotation? then !Issues(s.responses[source])
      else source in s.wins && source !in s.spent
  }

  /** The redemptions that led to tokens: won codes, and won device codes whose poll was granted. */
  ghost function Successes(s: State): set<Source> {
    set source | source in s.wins && (source.FromDevice? ==> GrantedTo(s.devices, source.hash))
  }

  ghost predicate Accounts(s: State) {
    && (forall source <- s.wins :: UsedUp(s, source))
    && s.spent <= Successes(s)
    && (forall source :: ResponseOk(s, source))
    && (forall h <- s.rotations :: h in s.refresh.issued && !RefreshTokens.Live(s.refresh.rows, h))
  }

  /** Root rows are exactly the issuing successes, and every other row is one rotation's. */
  ghost predicate Balanced(s: State) {
    && |RS.Roots(s.refresh.issued)| == |s.spent|
    && |s.refresh.issued| == |s.spent| + |s.rotations|
  }

  ghost predicate Inv(s: State) { MachinesOk(s) && Accounts(s) && Balanced(s) }

  lemma MachinesKept(s: State, step: Step, s': State)
    requires MachinesOk(s) && Next(s, step, s')
    ensures MachinesOk(s')
  {
    ClockIsShared(s, step, s');
    assert C.Inv(s'.codes) && D.Inv(s'.devices) && R.Inv(s'.refresh) by {
      StepProjects(s, step, s');
      C.InvNext(s.codes, CodeView(step), s'.codes);
      D.InvNext(s.devices, DeviceView(step), s'.devices);
      R.InvNext(s.refresh, RefreshView(s, step), s'.refresh);
    }
  }

  lemma ClockIsShared(s: State, step: Step, s': State)
    requires s.codes.now == s.devices.now == s.refresh.now && Next(s, step, s')
    ensures s'.codes.now == s'.devices.now == s'.refresh.now
  {
    StepProjects(s, step, s');
    C.ClockOnlyTicks(s.codes, CodeView(step), s'.codes);
    D.ClockOnlyTicks(s.devices, DeviceView(step), s'.devices);
    R.ClockOnlyTicks(s.refresh, RefreshView(s, step), s'.refresh);
    ViewsTickTogether(s, step, s');
  }

  lemma ViewsTickTogether(s: State, step: Step, s': State)
    requires Next(s, step, s')
    ensures step.Tick? <==> CodeView(step).Tick?
    ensures step.Tick? <==> DeviceView(step).Tick?
    ensures step.Tick? <==> RefreshView(s, step).Tick?
  {
  }

  /** Used up stays used up. */
  lemma UsedUpStays(s: State, step: Step, s': State, source: Source)
    requires MachinesOk(s) && Next(s, step, s') && UsedUp(s, source)
    ensures UsedUp(s', source)
  {
    StepProjects(s, step, s');
    D.InvNext(s.devices, DeviceView(step), s'.devices);
  }

  lemma CodeWinIsNew(s: C.State, step: C.Step, s': C.State)
    requires C.Inv(s) && C.Next(s, step, s') && C.Wins(s, step)
    ensures AuthCodes.Redeemable(s.rows, C.WonCode(s, step)) && !AuthCodes.Redeemable(s'.rows, C.WonCode(s, step))
    ensures C.WonCode(s, step) in s'.issued
  {
    assert C.InFlight(s, s.redeemers[step.id]);
  }

  lemma DeviceWinIsNew(s: D.State, step: D.Step, s': D.State)
    requires D.Inv(s) && D.Next(s, step, s') && D.Wins(s, step)
    ensures D.WonCode(s, step) in s.rows && D.WonCode(s, step) !in s'.rows && D.WonCode(s, step) in s'.inserted
  {
    assert D.WonCode(s, step) in s.inserted;
  }

  /** A success is won by a source that was not used up before, and is afterwards. */
  lemma WinsAreNew(s: State, step: Step, s': State, source: Source)
    requires MachinesOk(s) && Next(s, step, s') && source in s'.wins && source !in s.wins
    ensures !UsedUp(s, source) && UsedUp(s', source)
  {
    if step.CodeStep? {
      CodeWinIsNew(s.codes, step.code, s'.codes);
    } else {
      assert step.DeviceStep?;
      DeviceWinIsNew(s.devices, step.device, s'.devices);
    }
  }

  lemma RotationsStay(s: State, step: Step, s': State)
    requires MachinesOk(s) && Accounts(s) && Next(s, step, s')
    ensures forall h <- s'.rotations :: h in s'.refresh.issued && !RefreshTokens.Live(s'.refresh.rows, h)
  {
    StepProjects(s, step, s');
    var r := RefreshView(s, step);
    forall h <- s'.rotations ensures h in s'.refresh.issued && !RefreshTokens.Live(s'.refresh.rows, h) {
      if h in s.rotations {
        RS.NeverRevives(s.refresh, r, s'.refresh, h);
      } else {
        RS.WinSpendsItsToken(s.refresh, r, s'.refresh);
      }
    }
  }

  lemma WinsKept(s: State, step: Step, s': State)
    requires MachinesOk(s) && Accounts(s) && Next(s, step, s')
    ensures forall source <- s'.wins :: UsedUp(s', source)
  {
    forall source <- s'.wins ensures UsedUp(s', source) {
      if source in s.wins {
        UsedUpStays(s, step, s', source);
      } else {
        WinsAreNew(s, step, s', source);
      }
    }
  }

  /** The only new responses are those of the source that has just won. */
  lemma NewResponseIsWon(s: State, step: Step, s': State, source: Source)
    requires Next(s, step, s') && source in s'.responses
    requires source !in s.responses || s'.responses[source] != s.responses[source]
    ensures if source.FromRotation? then !Issues(s'.responses[source])
            else source in s'.wins && !step.Build? && s'.spent == s.spent
  {
    if step.RefreshStep? {
      RotationAnswers(s.refresh, step.refresh, s'.refresh);
    }
  }

  lemma ResponsesKept(s: State, step: Step, s': State, source: Source)
    requires Accounts(s) && MachinesOk(s) && Next(s, step, s')
    ensures ResponseOk(s', source)
  {
    assert ResponseOk(s, source);
    if source in s'.responses {
      if source !in s.responses || s'.responses[source] != s.responses[source] {
        NewResponseIsWon(s, step, s', source);
        if !source.FromRotation? && source !in s.wins {
          WinsAreNew(s, step, s', source);
        }
      }
    }
  }

  /** An answer given to a poll stays given. */
  lemma GrantsStay(s: State, step: Step, s': State, h: Hash)
    requires Next(s, step, s') && GrantedTo(s.devices, h)
    ensures GrantedTo(s'.devices, h)
  {
    var id :| id in s.devices.polls && s.devices.polls[id].Hash() == h && s.devices.polls[id].phase.Answered?
              && s.devices.polls[id].phase.answer.Granted?;
    StepProjects(s, step, s');
    D.AnswersStay(s.devices, DeviceView(step), s'.devices, id);
  }

  lemma SpentKept(s: State, step: Step, s': State)
    requires Accounts(s) && Next(s, step, s')
    ensures s'.spent <= Successes(s')
  {
    assert step.Build? ==> ResponseOk(s, step.source);
    forall source | source in s'.spent ensures source in Successes(s') {
      if source.FromDevice? {
        assert GrantedTo(s.devices, source.hash);
        GrantsStay(s, step, s', source.hash);
      }
    }
  }

  lemma AccountsKept(s: State, step: Step, s': State)
    requires MachinesOk(s) && Accounts(s) && Next(s, step, s')
    ensures Accounts(s')
  {
    WinsKept(s, step, s');
    RotationsStay(s, step, s');
    forall source ensures ResponseOk(s', source) {
      ResponsesKept(s, step, s', source);
    }
    SpentKept(s, step, s');
  }

  /** A rotation adds one row, which is not a root, and one rotation. */
  lemma RotationBalances(s: State, step: R.Step, s': State)
    requires MachinesOk(s) && Accounts(s) && Balanced(s) && NextRefresh(s, step, s')
    ensures Balanced(s') && s'.spent == s.spent
    ensures var won := if R.Wins(s.refresh, step) then 1 else 0;
            |s'.refresh.issued| == |s.refresh.issued| + won && |s'.rotations| == |s.rotations| + won
  {
    RS.RotationAddsOneRow(s.refresh, step, s'.refresh);
    if R.Wins(s.refresh, step) {
      RotationIsNew(s, R.WonToken(s.refresh, step));
    }
  }

  lemma RotationIsNew(s: State, h: Hash)
    requires Accounts(s) && RefreshTokens.Live(s.refresh.rows, h)
    ensures h !in s.rotations && |s.rotations + {h}| == |s.rotations| + 1
  {}

  /** A response that issues adds one root row, and spends one success. */
  lemma BuildBalances(s: State, source: Source, token: string, stampedAt: int, s': State)
    requires Accounts(s) && Balanced(s) && NextBuild(s, source, token, stampedAt, s')
    ensures Balanced(s') && s'.rotations == s.rotations
    ensures var issued := if Issues(s.responses[source]) then 1 else 0;
            && |s'.refresh.issued| == |s.refresh.issued| + issued
            && |RS.Roots(s'.refresh.issued)| == |RS.Roots(s.refresh.issued)| + issued
            && |s'.spent| == |s.spent| + issued
  {
    if Issues(s.responses[source]) {
      var n := Sha256(token);
      assert ResponseOk(s, source);
      RS.RootsAfterIssue(s.refresh.issued, n, s'.refresh.issued[n]);
    }
  }

  lemma InvNext(s: State, step: Step, s': State)
    requires Inv(s) && Next(s, step, s')
    ensures Inv(s')
  {
    MachinesKept(s, step, s');
    AccountsKept(s, step, s');
    match step
    case RefreshStep(r) => RotationBalances(s, r, s');
    case Build(source, token, stampedAt) => BuildBalances(s, source, token, stampedAt, s');
    case _ => assert s'.refresh.issued == s.refresh.issued && s'.spent == s.spent && s'.rotations == s.rotations;
  }

  lemma InvInit(s: State)
    requires Init(s)
    ensures Inv(s)
  {
    assert RS.Roots(s.refresh.issued) == {};
  }

  lemma InvLinked(ss: seq<State>, steps: seq<Step>, i: nat)
    requires |ss| == |steps| + 1 && i < |steps| && Linked(ss, steps, i) && Inv(ss[i])
    ensures Inv(ss[i + 1])
  {
    InvNext(ss[i], steps[i], ss[i + 1]);
  }

  lemma {:induction false} InvRun(ss: seq<State>, steps: seq<Step>, i: nat)
    requires Run(ss, steps) && i < |ss|
    ensures Inv(ss[i])
  {
    if i > 0 {
      InvRun(ss, steps, i - 1);
      InvLinked(ss, steps, i - 1);
    } else {
      InvInit(ss[0]);
    }
  }

  /**
   * Grant conservation: in every run of the token endpoint, every refresh row ever stored is the root of one
   * successful code or device redemption or the product of one successful rotation, and the live rows never
   * outnumber those redemptions, device polls that failed the user check not counted.
   */
  lemma GrantConservation(ss: seq<State>, steps: seq<Step>, i: nat)
    requires Run(ss, steps) && i < |ss|
    ensures |ss[i].refresh.issued| == |ss[i].spent| + |ss[i].rotations|
    ensures ss[i].spent <= Successes(ss[i]) <= ss[i].wins
    ensures |RS.LiveRows(ss[i].refresh)| <= |ss[i].spent| <= |Successes(ss[i])| <= |ss[i].wins|
  {
    InvRun(ss, steps, i);
    RS.LiveRowsBounded(ss[i].refresh);
    RefreshTokens.SubsetSize(ss[i].spent, Successes(ss[i]));
    RefreshTokens.SubsetSize(Successes(ss[i]), ss[i].wins);
  }

  /** Replay safety holds of the endpoint as a whole, whatever codes, polls and responses are in flight. */
  lemma EndpointReplaySafety(ss: seq<State>, steps: seq<Step>, i: nat, j: nat)
    requires Run(ss, steps) && i < j < |steps|
    requires steps[i].RefreshStep? && steps[i].refresh.RevokeChain?
    requires steps[i].refresh.id in ss[i].refresh.redeemers
    requires RS.InReach(ss[i].refresh, ss[i].refresh.redeemers[steps[i].refresh.id].Hash())
    requires steps[j].RefreshStep? && R.Wins(ss[j].refresh, steps[j].refresh)
    ensures !R.SameChain(ss[j].refresh.issued, R.WonToken(ss[j].refresh, steps[j].refresh),
                         ss[i].refresh.redeemers[steps[i].refresh.id].Hash())
  {
    var rs, rsteps := RunProjects(ss, steps);
    assert rsteps[i] == RefreshView(ss[i], steps[i]) && rsteps[j] == RefreshView(ss[j], steps[j]);
    RS.ReplaySafety(rs, rsteps, i, j);
  }

  /** Each authorization code, device code and refresh token yields at most one success in a run of the endpoint. */
  lemma EndpointSingleUse(ss: seq<State>, steps: seq<Step>, i: nat, j: nat)
    requires Run(ss, steps) && i < j < |steps|
    ensures steps[i].CodeStep? && steps[j].CodeStep?
            && C.Wins(ss[i].codes, steps[i].code) && C.Wins(ss[j].codes, steps[j].code)
            ==> C.WonCode(ss[i].codes, steps[i].code) != C.WonCode(ss[j].codes, steps[j].code)
    ensures steps[i].DeviceStep? && steps[j].DeviceStep?
            && D.Wins(ss[i].devices, steps[i].device) && D.Wins(ss[j].devices, steps[j].device)
            ==> D.WonCode(ss[i].devices, steps[i].device) != D.WonCode(ss[j].devices, steps[j].device)
    ensures steps[i].RefreshStep? && steps[j].RefreshStep?
            && R.Wins(ss[i].refresh, steps[i].refresh) && R.Wins(ss[j].refresh, steps[j].refresh)
            ==> R.WonToken(ss[i].refresh, steps[i].refresh) != R.WonToken(ss[j].refresh, steps[j].refresh)
  {
    CodesWinOnce(ss, steps, i, j);
    DevicesWinOnce(ss, steps, i, j);
    TokensWinOnce(ss, steps, i, j);
  }

  lemma CodesWinOnce(ss: seq<State>, steps: seq<Step>, i: nat, j: nat)
    requires Run(ss, steps) && i < j < |steps|
    ensures steps[i].CodeStep? && steps[j].CodeStep?
            && C.Wins(ss[i].codes, steps[i].code) && C.Wins(ss[j].codes, steps[j].code)
            ==> C.WonCode(ss[i].codes, steps[i].code) != C.WonCode(ss[j].codes, steps[j].code)
  {
    var cs, csteps := CodesProject(ss, steps);
    if C.Wins(cs[i], csteps[i]) && C.Wins(cs[j], csteps[j]) {
      C.SingleUse(cs, csteps, i, j);
    }
  }

  lemma DevicesWinOnce(ss: seq<State>, steps: seq<Step>, i: nat, j: nat)
    requires Run(ss, steps) && i < j < |steps|
    ensures steps[i].DeviceStep? && steps[j].DeviceStep?
            && D.Wins(ss[i].devices, steps[i].device) && D.Wins(ss[j].devices, steps[j].device)
            ==> D.WonCode(ss[i].devices, steps[i].device) != D.WonCode(ss[j].devices, steps[j].device)
  {
    var ds, dsteps := DevicesProject(ss, steps);
    if D.Wins(ds[i], dsteps[i]) && D.Wins(ds[j], dsteps[j]) {
      D.SingleUse(ds, dsteps, i, j);
    }
  }

  lemma TokensWinOnce(ss: seq<State>, steps: seq<Step>, i: nat, j: nat)
    requires Run(ss, steps) && i < j < |steps|
    ensures steps[i].RefreshStep? && steps[j].RefreshStep?
            && R.Wins(ss[i].refresh, steps[i].refresh) && R.Wins(ss[j].refresh, steps[j].refresh)
            ==> R.WonToken(ss[i].refresh, steps[i].refresh) != R.WonToken(ss[j].refresh, steps[j].refresh)
  {
    var rs, rsteps := RunProjects(ss, steps);
    if R.Wins(rs[i], rsteps[i]) && R.Wins(rs[j], rsteps[j]) {
      RS.SingleUse(rs, rsteps, i, j);
    }
  }
}
