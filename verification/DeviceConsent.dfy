/**
 * Cross-site protection of the device approval: a decision counts only with a state the server signed, and a
 * state bound to a session is signed only on a consent page shown in that session.
 */
module DeviceConsent {
  import opened Text
  import opened Hashing
  import opened DeviceCodes
  import opened DeviceRuns

  /** Every decision in flight carries a signed state. */
  ghost predicate StatesSigned(s: State) { forall id <- s.decides :: s.decides[id].state in s.signed }

  lemma SignedNext(s: State, step: Step, s': State)
    requires StatesSigned(s) && Next(s, step, s')
    ensures StatesSigned(s') && s.signed <= s'.signed
    ensures s'.signed != s.signed ==> step.ShowPage? && NextVisit(s, step, s')
  {
    StepKeeps(s, step, s');
    if s'.decides != s.decides {
      DecideSigned(s, step, s');
    }
  }

  lemma DecideSigned(s: State, step: Step, s': State)
    requires StatesSigned(s) && NextDecide(s, step, s')
    ensures StatesSigned(s')
  {
    OtherDecidesStay(s, step, s');
  }

  lemma {:induction false} SignedRun(ss: seq<State>, steps: seq<Step>, i: nat)
    requires Run(ss, steps) && i < |ss|
    ensures StatesSigned(ss[i])
  {
    if i > 0 {
      SignedRun(ss, steps, i - 1);
      assert Next(ss[i - 1], steps[i - 1], ss[i - 1 + 1]);
      SignedNext(ss[i - 1], steps[i - 1], ss[i]);
    }
  }

  /**
   * The step shows a consent page for the user code in the session: the live one whose cookie the visitor presents,
   * or a new one for the enabled account that signs in.
   */
  predicate ShowsConsent(s: State, step: Step, s': State, userCode: string, sid: string) {
    && step.ShowPage? && step.id in s.visits
    && s.visits[step.id].phase.Loaded? && s.visits[step.id].userCode == userCode
    && match s.visits[step.id].kind
       case CodeEntry(cookie) =>
         && cookie == Some(sid) && sid != "" && sid in s.sessions && s'.sessions == s.sessions
         && s.sessions[sid].expiresAt > s.now && s.sessions[sid].userId in s.enabled
       case SignIn(userId) =>
         && userId in s.enabled && sid == step.newSid && sid !in s.sessions
         && s'.sessions == s.sessions[sid := Session(userId, s.now + SESSION_LIFETIME)]
  }

  /** Each signed state that names a session was signed on a consent page for its user code in that session. */
  lemma {:induction false} ConsentStep(ss: seq<State>, steps: seq<Step>, i: nat, state: ApprovalState)
    returns (m: nat)
    requires Run(ss, steps) && i < |ss| && state in ss[i].signed && state.sid != ""
    ensures m < i && ShowsConsent(ss[m], steps[m], ss[m + 1], state.userCode, state.sid)
  {
    assert i > 0;
    m := i - 1;
    assert Next(ss[m], steps[m], ss[m + 1]);
    SignedRun(ss, steps, m);
    SignedNext(ss[m], steps[m], ss[i]);
    if state in ss[m].signed {
      m := ConsentStep(ss, steps, m, state);
    }
  }

  /** A page is shown only after its user code was found pending and unexpired. */
  lemma {:induction false} PageLoadStep(ss: seq<State>, steps: seq<Step>, i: nat, id: nat) returns (l: nat)
    requires Run(ss, steps) && i < |ss| && id in ss[i].visits && ss[i].visits[id].phase.Loaded?
    ensures l < i && steps[l].LoadPage? && steps[l].id == id && steps[l].found.Some?
    ensures AwaitsDecision(ss[l].rows, steps[l].found.value, ss[i].visits[id].userCode)
    ensures ss[l].rows[steps[l].found.value].expiresAt > ss[l].now
  {
    assert i > 0;
    l := i - 1;
    assert Next(ss[l], steps[l], ss[l + 1]);
    VisitsMove(ss[l], steps[l], ss[i], id);
    if ss[l].visits[id].phase.Loaded? {
      l := PageLoadStep(ss, steps, l, id);
    }
  }

  lemma VisitsMove(s: State, step: Step, s': State, id: nat)
    requires Next(s, step, s') && id in s'.visits && s'.visits[id].phase.Loaded?
    ensures id in s.visits && s.visits[id].userCode == s'.visits[id].userCode
    ensures s.visits[id].phase.Loaded? || (step.LoadPage? && step.id == id && NextVisit(s, step, s'))
  {
    StepKeeps(s, step, s');
  }

  /**
   * A granted poll goes back to a consent page: before the decision that approved its code had its session
   * checked, a page for that very user code, found pending, was shown in that very session. No other site can
   * have made the decision up, since it would have needed the state signed on that page.
   */
  lemma GrantedPollHasItsConsent(ss: seq<State>, steps: seq<Step>, j: nat) returns (i: nat, k: nat, m: nat, l: nat)
    requires Run(ss, steps) && j < |steps| && steps[j].CheckUser?
    requires ss[j + 1].polls[steps[j].id].phase.answer.Granted?
    ensures l < m < k < i < j && steps[i].ApplyDecision? && steps[k] == CheckSession(steps[i].id)
    ensures steps[i].id in ss[k].decides && SessionMatches(ss[k], ss[k].decides[steps[i].id])
    ensures var h := ss[j].polls[steps[j].id].Hash();
            var state := ss[k].decides[steps[i].id].state;
            && AwaitsDecision(ss[i].rows, h, state.userCode)
            && ShowsConsent(ss[m], steps[m], ss[m + 1], state.userCode, state.sid)
            && steps[l].LoadPage? && steps[l].found.Some?
            && AwaitsDecision(ss[l].rows, steps[l].found.value, state.userCode)
  {
    i, k := GrantedPollHasItsApproval(ss, steps, j);
    SignedRun(ss, steps, k);
    m := ConsentStep(ss, steps, k, ss[k].decides[steps[i].id].state);
    l := PageLoadStep(ss, steps, m, steps[m].id);
  }
}
