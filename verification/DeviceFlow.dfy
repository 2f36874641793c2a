/** The device flow does what it is for: a code that a user approves in a live session is granted to its device. */
module DeviceFlow {
  import opened Text
  import opened Hashing
  import opened Scopes
  import opened DeviceCodes
  import opened DeviceRuns

  /** The visitor with a live session who enters a pending code gets its consent page, and a state signed for it. */
  lemma PageIsShown(s: State, id: nat, h: Hash, sid: string, newSid: string)
    returns (ss: seq<State>, steps: seq<Step>)
    requires h in s.rows && s.rows[h].status == Pending && s.rows[h].expiresAt > s.now
    requires LiveSession(s, Some(sid)) && id !in s.visits && newSid != "" && newSid !in s.sessions
    ensures Behaviour(ss, steps) && ss[0] == s
    ensures var last := ss[|ss| - 1];
            last == s.(visits := last.visits, signed := s.signed + {ApprovalState(s.rows[h].userCode, sid)})
  {
    var userCode := s.rows[h].userCode;
    var s1 := s.(visits := s.visits[id := Visit(userCode, CodeEntry(Some(sid)), Opened)]);
    var s2 := s1.(visits := MoveVisit(s1, id, Loaded));
    var s3 := s2.(visits := MoveVisit(s2, id, Shown), signed := s.signed + {ApprovalState(userCode, sid)});
    ss := [s, s1, s2, s3];
    steps := [OpenLookup(id, userCode, Some(sid)), LoadPage(id, Some(h)), ShowPage(id, newSid)];
    assert NextVisit(s, steps[0], s1) && NextVisit(s1, steps[1], s2) && NextVisit(s2, steps[2], s3);
  }

  /** A decision with a state signed for its session, up to the point where it takes effect. */
  lemma DecisionIsPut(s: State, id: nat, h: Hash, sid: string, decision: Decision)
    returns (ss: seq<State>, steps: seq<Step>)
    requires h in s.rows && s.rows[h].status == Pending && s.rows[h].expiresAt > s.now
    requires LiveSession(s, Some(sid)) && id !in s.decides && ApprovalState(s.rows[h].userCode, sid) in s.signed
    ensures Behaviour(ss, steps) && ss[0] == s
    ensures ss[|ss| - 1] == s.(decides := s.decides[id := Decide(
              ApprovalState(s.rows[h].userCode, sid), Some(sid), decision, Deciding(s.sessions[sid], s.now))])
  {
    var state := ApprovalState(s.rows[h].userCode, sid);
    var s2 := s.(decides := s.decides[id := Decide(state, Some(sid), decision, Verified(s.sessions[sid], s.now))]);
    var s1 := SessionIsFound(s, id, state, sid, decision, s2);
    var s3 := s.(decides := s.decides[id := Decide(state, Some(sid), decision, Deciding(s.sessions[sid], s.now))]);
    ss := [s, s1, s2, s3];
    steps := [StartDecide(id, state, Some(sid), decision), CheckSession(id), LoadPending(id, Some(h))];
    assert s3.decides == MoveDecide(s2, id, Deciding(s.sessions[sid], s.now));
    assert NextDecide(s2, steps[2], s3);
  }

  lemma SessionIsFound(s: State, id: nat, state: ApprovalState, sid: string, decision: Decision, s2: State)
    returns (s1: State)
    requires LiveSession(s, Some(sid)) && id !in s.decides && state in s.signed && state.sid == sid
    requires s2 == s.(decides := s.decides[id := Decide(state, Some(sid), decision, Verified(s.sessions[sid], s.now))])
    ensures Next(s, StartDecide(id, state, Some(sid), decision), s1) && Next(s1, CheckSession(id), s2)
  {
    s1 := s.(decides := s.decides[id := Decide(state, Some(sid), decision, Submitted)]);
    assert s2.decides == MoveDecide(s1, id, Verified(s.sessions[sid], s.now));
  }

  /** Put so, an approval by an enabled user in a live session approves the row for that user. */
  lemma ApprovalTakesEffect(s: State, id: nat, h: Hash) returns (s': State)
    requires id in s.decides && s.decides[id].phase.Deciding? && s.decides[id].cookie.Some?
    requires s.decides[id].decision == ApproveIt && AwaitsDecision(s.rows, h, s.decides[id].state.userCode)
    ensures Next(s, ApplyDecision(id), s') && h in s'.rows
    ensures s'.rows[h] == s.rows[h].(status := Approved, userId := Some(s.decides[id].phase.session.userId))
  {
    var d := s.decides[id];
    s' := s.(rows := Approve(s.rows, d.state.userCode, d.phase.session.userId),
             approvals := ApprovalsAfter(s, d), decides := MoveDecide(s, id, Closed));
    assert NextDecide(s, ApplyDecision(id), s');
  }

  lemma Append(ss: seq<State>, steps: seq<Step>, tail: seq<State>, more: seq<Step>)
    requires Behaviour(ss, steps) && Behaviour(tail, more) && ss[|ss| - 1] == tail[0]
    ensures Behaviour(ss + tail[1..], steps + more) && (ss + tail[1..])[|ss + tail[1..]| - 1] == tail[|tail| - 1]
  {
    var all, allSteps := ss + tail[1..], steps + more;
    forall i | 0 <= i < |allSteps| ensures Next(all[i], allSteps[i], all[i + 1]) {
      if i >= |steps| {
        assert all[i] == tail[i - |steps|] && all[i + 1] == tail[i - |steps| + 1];
      }
    }
  }

  /** From the entered code to the approved row: consent page, decision, approval. */
  lemma ApprovalSucceeds(s: State, visit: nat, decide: nat, h: Hash, sid: string, newSid: string)
    returns (ss: seq<State>, steps: seq<Step>)
    requires h in s.rows && s.rows[h].status == Pending && s.rows[h].expiresAt > s.now
    requires LiveSession(s, Some(sid)) && newSid != "" && newSid !in s.sessions
    requires visit !in s.visits && decide !in s.decides
    ensures Behaviour(ss, steps) && ss[0] == s
    ensures var last := ss[|ss| - 1];
            && last.now == s.now && last.enabled == s.enabled && last.polls == s.polls && h in last.rows
            && last.rows[h] == s.rows[h].(status := Approved, userId := Some(s.sessions[sid].userId))
  {
    ss, steps := PageIsShown(s, visit, h, sid, newSid);
    var shown := ss[|ss| - 1];
    var put, more := DecisionIsPut(shown, decide, h, sid, ApproveIt);
    Append(ss, steps, put, more);
    ss, steps := ss + put[1..], steps + more;
    var before := ss[|ss| - 1];
    var after := ApprovalTakesEffect(before, decide, h);
    StepKeeps(before, ApplyDecision(decide), after);
    Append(ss, steps, [before, after], [ApplyDecision(decide)]);
    assert [before, after][1..] == [after];
    ss, steps := ss + [after], steps + [ApplyDecision(decide)];
  }

  /**
   * The whole flow: from any state with a pending, unexpired code, a user who enters it, consents in a live session
   * of an enabled account and is not disturbed has the device's next poll granted, for that user and for the scopes
   * the code was inserted with.
   */
  lemma ApprovedDeviceIsGranted(s: State, visit: nat, decide: nat, poll: nat, deviceCode: string, sid: string,
                                newSid: string)
    returns (ss: seq<State>, steps: seq<Step>)
    requires Sha256(deviceCode) in s.rows && s.rows[Sha256(deviceCode)].status == Pending
    requires s.rows[Sha256(deviceCode)].expiresAt > s.now
    requires LiveSession(s, Some(sid)) && newSid != "" && newSid !in s.sessions
    requires visit !in s.visits && decide !in s.decides && poll !in s.polls
    ensures Behaviour(ss, steps) && ss[0] == s
    ensures var row, last := s.rows[Sha256(deviceCode)], ss[|ss| - 1];
            && last.now == s.now && Sha256(deviceCode) !in last.rows && poll in last.polls
            && last.polls[poll].phase == Answered(Granted(s.sessions[sid].userId, SplitScopes(row.scopes)))
  {
    var h := Sha256(deviceCode);
    ss, steps := ApprovalSucceeds(s, visit, decide, h, sid, newSid);
    var approved := ss[|ss| - 1];
    var tail, more := UninterruptedPoll(approved, poll, deviceCode, s.rows[h].appId);
    Append(ss, steps, tail, more);
    ss, steps := ss + tail[1..], steps + more;
    assert PollOnce(approved.rows, deviceCode, s.rows[h].appId, s.now, s.enabled)
        == (Granted(s.sessions[sid].userId, SplitScopes(s.rows[h].scopes)), approved.rows - {h});
  }
}
