/**
 * Where refresh tokens come from: every row of the table, through any number of rotations, goes back to one
 * authorization code or one approved device code, and has the app, user, resource and scopes of that grant.
 */
module GrantOrigins {
  import opened Text
  import opened Hashing
  import opened Scopes
  import opened TokenResponses
  import opened Grants
  import DeviceCodes
  import RefreshTokens
  import C = AuthCodeRuns
  import R = RefreshRuns
  import RS = RefreshSafety
  import D = DeviceRuns

  /** Who was granted what, for which app. */
  datatype Granted = Granted(appId: string, userId: string, scopes: seq<string>, resource: Option<string>)

  predicate Known(s: State, source: Source) {
    match source
    case FromCode(code) => code in s.codes.issued
    case FromDevice(h) => h in s.devices.inserted && h in s.devices.approvals
    case FromRotation(_) => false
  }

  /** What a code was issued for; what a device asked for and the session that approved it. */
  function GrantOf(s: State, source: Source): Granted
    requires Known(s, source)
  {
    match source
    case FromCode(code) =>
      var p := s.codes.issued[code].params;
      Granted(p.appId, p.userId, ReadScopes(Join(p.scopes)), p.resource)
    case FromDevice(h) =>
      var scopes := SplitScopes(s.devices.inserted[h].scopes);
      Granted(s.devices.inserted[h].appId, s.devices.approvals[h].session.userId, scopes, ResolveResource(scopes))
  }

  predicate BuiltFor(p: BuildParams, g: Granted) {
    p == BuildParams(appId := g.appId, userId := Some(g.userId), scopes := g.scopes, resource := g.resource,
                     refreshToken := None)
  }

  /** The row of a root token, as its grant says. */
  predicate StoredFor(row: RefreshTokens.RefreshToken, g: Granted) {
    row.appId == g.appId && row.userId == g.userId && row.scopes == Join(g.scopes) && row.resource == g.resource
  }

  // --- invariant --------------------------------------------------------------------------------------

  predicate ResponseGranted(s: State, source: Source) {
    source in s.responses && !source.FromRotation? ==>
      Known(s, source) && BuiltFor(s.responses[source], GrantOf(s, source))
  }

  predicate RootGranted(s: State, n: Hash) {
    n in s.roots ==>
      && s.roots[n] in s.spent && Known(s, s.roots[n])
      && n in s.refresh.issued && StoredFor(s.refresh.issued[n].row, GrantOf(s, s.roots[n]))
  }

  ghost predicate Rooted(s: State) {
    && (forall source :: ResponseGranted(s, source))
    && (forall n :: RootGranted(s, n))
    && (forall n <- RS.Roots(s.refresh.issued) :: n in s.roots)
  }

  /** What was issued, inserted and approved stays on record. */
  ghost predicate HistoryKept(s: State, s': State) {
    && (forall code <- s.codes.issued :: code in s'.codes.issued && s'.codes.issued[code] == s.codes.issued[code])
    && (forall h <- s.devices.inserted ::
          h in s'.devices.inserted && s'.devices.inserted[h] == s.devices.inserted[h])
    && (forall h <- s.devices.approvals ::
          h in s'.devices.approvals && s'.devices.approvals[h] == s.devices.approvals[h])
    && (forall h <- s.refresh.issued :: h in s'.refresh.issued && s'.refresh.issued[h] == s.refresh.issued[h])
  }

  lemma StepKeepsHistory(s: State, step: Step, s': State)
    requires MachinesOk(s) && Next(s, step, s')
    ensures HistoryKept(s, s')
  {
    StepProjects(s, step, s');
    C.HistoryGrows(s.codes, CodeView(step), s'.codes);
    D.InvNext(s.devices, DeviceView(step), s'.devices);
    RS.HistoryGrows(s.refresh, RefreshView(s, step), s'.refresh);
  }

  lemma GrantKept(s: State, s': State, source: Source)
    requires HistoryKept(s, s') && Known(s, source)
    ensures Known(s', source) && GrantOf(s', source) == GrantOf(s, source)
  {}

  /** The response of a won code is for what the code was issued for. */
  lemma CodeResponseGranted(s: State, step: C.Step, s': State)
    requires C.Inv(s.codes) && NextCode(s, step, s') && C.Wins(s.codes, step)
    ensures FromCode(C.WonCode(s.codes, step)) in s'.responses
    ensures ResponseGranted(s', FromCode(C.WonCode(s.codes, step)))
  {
    C.WinnerMatchesGrant(s.codes, step, s'.codes);
    C.HistoryGrows(s.codes, step, s'.codes);
  }

  /** The response of a won device code is for what the device asked for and the approving session's user. */
  lemma DeviceResponseGranted(s: State, step: D.Step, s': State)
    requires D.Inv(s.devices) && NextDevice(s, step, s') && D.Wins(s.devices, step)
    ensures FromDevice(D.WonCode(s.devices, step)) in s'.responses
    ensures ResponseGranted(s', FromDevice(D.WonCode(s.devices, step)))
  {
    var h := D.WonCode(s.devices, step);
    assert D.Traced(s.devices.rows[h], s.devices.inserted[h], D.Lookup(s.devices.approvals, h));
    D.InvNext(s.devices, step, s'.devices);
  }

  /** Every response in the making is the one before, or the one just won. */
  lemma ResponseNext(s: State, step: Step, s': State, source: Source)
    requires MachinesOk(s) && ResponseGranted(s, source) && HistoryKept(s, s') && Next(s, step, s')
    ensures ResponseGranted(s', source)
  {
    if source in s'.responses && !source.FromRotation? {
      if source in s.responses && s'.responses[source] == s.responses[source] {
        GrantKept(s, s', source);
      } else {
        NewResponse(s, step, s', source);
      }
    }
  }

  lemma NewResponse(s: State, step: Step, s': State, source: Source)
    requires MachinesOk(s) && Next(s, step, s') && source in s'.responses && !source.FromRotation?
    requires source !in s.responses || s'.responses[source] != s.responses[source]
    ensures ResponseGranted(s', source)
  {
    match step
    case CodeStep(c) => CodeResponseGranted(s, c, s');
    case DeviceStep(d) => DeviceResponseGranted(s, d, s');
    case _ => NoOtherResponse(s, step, s', source); assert false;
  }

  lemma NoOtherResponse(s: State, step: Step, s': State, source: Source)
    requires Next(s, step, s') && !step.CodeStep? && !step.DeviceStep?
    requires source in s'.responses && !source.FromRotation?
    ensures source in s.responses && s'.responses[source] == s.responses[source]
  {}

  /** A response that issues stores the row of its grant. */
  lemma BuildRoots(s: State, source: Source, token: string, stampedAt: int, s': State)
    requires NextBuild(s, source, token, stampedAt, s') && Issues(s.responses[source])
    ensures var n, p := Sha256(token), s.responses[source];
            && n in s'.refresh.issued && p.userId.Some?
            && s'.roots == s.roots[n := source] && s'.spent == s.spent + {source}
            && s'.refresh.issued[n].row.appId == p.appId && s'.refresh.issued[n].row.userId == p.userId.value
            && s'.refresh.issued[n].row.scopes == Join(p.scopes) && s'.refresh.issued[n].row.resource == p.resource
            && n !in s.refresh.issued && s'.refresh.issued == s.refresh.issued[n := s'.refresh.issued[n]]
  {}

  predicate IssuesRoot(s: State, step: Step) {
    step.Build? && step.source in s.responses && Issues(s.responses[step.source])
  }

  lemma OtherStepsKeepRoots(s: State, step: Step, s': State)
    requires Next(s, step, s') && !IssuesRoot(s, step)
    ensures s'.roots == s.roots && s.spent <= s'.spent
  {}

  lemma RootNext(s: State, step: Step, s': State, n: Hash)
    requires Accounts(s) && HistoryKept(s, s') && Next(s, step, s')
    requires RootGranted(s, n) && forall source :: ResponseGranted(s, source)
    ensures RootGranted(s', n)
  {
    if IssuesRoot(s, step) {
      BuildRoots(s, step.source, step.token, step.stampedAt, s');
      if n == Sha256(step.token) {
        assert ResponseOk(s, step.source) && ResponseGranted(s, step.source);
        GrantKept(s, s', step.source);
      }
    } else {
      OtherStepsKeepRoots(s, step, s');
    }
    if n in s.roots {
      GrantKept(s, s', s.roots[n]);
    }
  }

  lemma AllRootsNext(s: State, step: Step, s': State)
    requires MachinesOk(s) && Next(s, step, s') && forall n <- RS.Roots(s.refresh.issued) :: n in s.roots
    ensures forall n <- RS.Roots(s'.refresh.issued) :: n in s'.roots
  {
    StepProjects(s, step, s');
    if IssuesRoot(s, step) {
      BuildRoots(s, step.source, step.token, step.stampedAt, s');
    } else {
      OtherStepsKeepRoots(s, step, s');
      RS.RotationAddsOneRow(s.refresh, RefreshView(s, step), s'.refresh);
    }
  }

  lemma RootedNext(s: State, step: Step, s': State)
    requires Inv(s) && Rooted(s) && Next(s, step, s')
    ensures Rooted(s')
  {
    StepKeepsHistory(s, step, s');
    forall source ensures ResponseGranted(s', source) {
      ResponseNext(s, step, s', source);
    }
    forall n ensures RootGranted(s', n) {
      RootNext(s, step, s', n);
    }
    AllRootsNext(s, step, s');
  }

  lemma RootedLinked(ss: seq<State>, steps: seq<Step>, i: nat)
    requires |ss| == |steps| + 1 && i < |steps| && Linked(ss, steps, i) && Inv(ss[i]) && Rooted(ss[i])
    ensures Rooted(ss[i + 1])
  {
    RootedNext(ss[i], steps[i], ss[i + 1]);
  }

  lemma {:induction false} RootedRun(ss: seq<State>, steps: seq<Step>, i: nat)
    requires Run(ss, steps) && i < |ss|
    ensures Rooted(ss[i])
  {
    if i > 0 {
      RootedRun(ss, steps, i - 1);
      InvRun(ss, steps, i - 1);
      RootedLinked(ss, steps, i - 1);
    } else {
      assert RS.Roots(ss[0].refresh.issued) == {};
    }
  }

  // --- theorems ---------------------------------------------------------------------------------------

  /** Every root row of a run is the row of one redeemed code or granted device code, exactly as it was granted. */
  lemma RootHasItsGrant(ss: seq<State>, steps: seq<Step>, i: nat, n: Hash)
    requires Run(ss, steps) && i < |ss| && n in ss[i].refresh.issued && ss[i].refresh.issued[n].index == 0
    ensures n in ss[i].roots && ss[i].roots[n] in Successes(ss[i]) && Known(ss[i], ss[i].roots[n])
    ensures StoredFor(ss[i].refresh.issued[n].row, GrantOf(ss[i], ss[i].roots[n]))
  {
    RootedRun(ss, steps, i);
    InvRun(ss, steps, i);
    assert n in RS.Roots(ss[i].refresh.issued) && RootGranted(ss[i], n);
  }

  /**
   * Every refresh row of a run, however often rotated, has the app, user and resource of the grant its chain
   * started from, and scopes of that grant only.
   */
  lemma RowHasItsGrant(ss: seq<State>, steps: seq<Step>, i: nat, n: Hash) returns (source: Source)
    requires Run(ss, steps) && i < |ss| && n in ss[i].refresh.issued
    ensures source in Successes(ss[i]) && Known(ss[i], source)
    ensures var row, g := ss[i].refresh.issued[n].row, GrantOf(ss[i], source);
            && row.appId == g.appId && row.userId == g.userId && row.resource == g.resource
            && forall scope <- ReadScopes(row.scopes) :: scope in ReadScopes(Join(g.scopes))
  {
    InvRun(ss, steps, i);
    RS.RootHasIndexZero(ss[i].refresh.issued, n);
    var root := ss[i].refresh.issued[n].root;
    RS.Lineage(ss[i].refresh, root, n);
    RootHasItsGrant(ss, steps, i, root);
    source := ss[i].roots[root];
  }

  /** The step issued that code for the app, user and resource of the row, and for all of its scopes. */
  ghost predicate AuthorizedBy(step: Step, code: string, row: RefreshTokens.RefreshToken) {
    && step.CodeStep? && step.code.Issue? && step.code.code == code
    && row.appId == step.code.params.appId && row.userId == step.code.params.userId
    && row.resource == step.code.params.resource
    && forall scope <- ReadScopes(row.scopes) :: scope in ReadScopes(Join(step.code.params.scopes))
  }

  /** The step inserted that device code for the app of the row, and for all of its scopes. */
  ghost predicate RequestedBy(step: Step, h: Hash, row: RefreshTokens.RefreshToken) {
    && step.DeviceStep? && step.device.InsertCode? && Sha256(step.device.deviceCode) == h
    && row.appId == step.device.appId
    && var scopes := SplitScopes(Join(step.device.scopes));
       row.resource == ResolveResource(scopes) && forall scope <- ReadScopes(row.scopes) :: scope in scopes
  }

  /** The step approved that device code in a session of the user of the row. */
  ghost predicate ApprovedBy(s: State, step: Step, h: Hash, row: RefreshTokens.RefreshToken) {
    && step.DeviceStep? && step.device.ApplyDecision? && step.device.id in s.devices.decides
    && var d := s.devices.decides[step.device.id];
       && d.decision == D.ApproveIt && d.phase.Deciding? && d.phase.session.userId == row.userId
       && DeviceCodes.AwaitsDecision(s.devices.rows, h, d.state.userCode)
  }

  lemma CodeGoesBack(ss: seq<State>, steps: seq<Step>, i: nat, code: string) returns (k: nat)
    requires Run(ss, steps) && i < |ss| && code in ss[i].codes.issued
    ensures k < i && steps[k].CodeStep? && steps[k].code.Issue? && steps[k].code.code == code
    ensures steps[k].code.params == ss[i].codes.issued[code].params
  {
    var cs, csteps := CodesProject(ss, steps);
    k := C.IssueStep(cs, csteps, i, code);
  }

  lemma DeviceGoesBack(ss: seq<State>, steps: seq<Step>, i: nat, h: Hash) returns (k: nat)
    requires Run(ss, steps) && i < |ss| && h in ss[i].devices.inserted
    ensures k < i && steps[k].DeviceStep? && steps[k].device.InsertCode? && Sha256(steps[k].device.deviceCode) == h
    ensures ss[i].devices.inserted[h].appId == steps[k].device.appId
    ensures ss[i].devices.inserted[h].scopes == Join(steps[k].device.scopes)
  {
    var ds, dsteps := DevicesProject(ss, steps);
    k := D.InsertStep(ds, dsteps, i, h);
  }

  lemma ApprovalGoesBack(ss: seq<State>, steps: seq<Step>, i: nat, h: Hash, row: RefreshTokens.RefreshToken)
    returns (a: nat)
    requires Run(ss, steps) && i < |ss| && h in ss[i].devices.approvals
    requires ss[i].devices.approvals[h].session.userId == row.userId
    ensures a < i && ApprovedBy(ss[a], steps[a], h, row)
  {
    var ds, dsteps := DevicesProject(ss, steps);
    a := D.ApprovalStep(ds, dsteps, i, h);
    assert D.Next(ds[a], dsteps[a], ds[a + 1]);
    D.InvRun(ds, dsteps, a);
    D.ApprovalsComeFromDecisions(ds[a], dsteps[a], ds[a + 1], h);
  }

  /**
   * Every refresh row of a run goes back to the steps that authorized it: the issue of an authorization code for its
   * app, user and resource; or the request of a device code for its app, and the approval of that code in a session
   * of its user. Its scopes are among those asked for there.
   */
  lemma RowGoesBack(ss: seq<State>, steps: seq<Step>, i: nat, n: Hash) returns (source: Source, k: nat, a: nat)
    requires Run(ss, steps) && i < |ss| && n in ss[i].refresh.issued
    ensures source in Successes(ss[i]) && !source.FromRotation?
    ensures source.FromCode? ==> k < i && AuthorizedBy(steps[k], source.code, ss[i].refresh.issued[n].row)
    ensures source.FromDevice? ==>
              && k < i && RequestedBy(steps[k], source.hash, ss[i].refresh.issued[n].row)
              && a < i && ApprovedBy(ss[a], steps[a], source.hash, ss[i].refresh.issued[n].row)
  {
    source := RowHasItsGrant(ss, steps, i, n);
    a := 0;
    var scopes := GrantOf(ss[i], source).scopes;
    match source
    case FromCode(code) =>
      k := CodeGoesBack(ss, steps, i, code);
      StoredScopesShrink(scopes);
    case FromDevice(h) =>
      k := DeviceGoesBack(ss, steps, i, h);
      a := ApprovalGoesBack(ss, steps, i, h, ss[i].refresh.issued[n].row);
      assert forall scope <- scopes :: IsScope(scope);
      StoredScopesShrink(scopes);
  }

  /** The response to a rotation is for the row it stored, and hands out its token when that may be refreshed again. */
  lemma RotationResponseFitsItsRow(s: State, step: R.Step, s': State)
    requires R.Inv(s.refresh) && NextRefresh(s, step, s') && R.Wins(s.refresh, step)
    ensures FromRotation(step.newToken) in s'.responses && Sha256(step.newToken) in s'.refresh.rows
    ensures var p := s'.responses[FromRotation(step.newToken)];
            var row := s'.refresh.rows[Sha256(step.newToken)];
            && p.appId == row.appId && p.userId == Some(row.userId) && p.resource == row.resource
            && Join(p.scopes) == row.scopes
            && p.refreshToken == if OFFLINE_ACCESS in ScopeNames(p.scopes) then Some(step.newToken) else None
  {
    RS.WinnerAnswers(s.refresh, step, s'.refresh);
    RotationAnswers(s.refresh, step, s'.refresh);
  }
}
