/**
 * The device grant under interleaving: polls, approval pages and decisions split into their statements, with
 * insertion, sessions coming and going, accounts enabled and disabled, purging and the clock.
 * `inserted` and `approvals` are history: the row each device code started as, and the decision that approved
 * it. `signed` holds every approval state the server has signed; no other state passes its verification.
 */
module DeviceRuns {
  import opened Text
  import opened Hashing
  import opened Scopes
  import opened DeviceCodes

  datatype Session = Session(userId: string, expiresAt: int)

  /** The signed state that a page carries from one approval step to the next. */
  datatype ApprovalState = ApprovalState(userCode: string, sid: string)

  datatype Decision = ApproveIt | DenyIt | NoDecision

  datatype PollPhase =
    | Polling(startedAt: int)
    | Discarding(answer: Answer)
    | Redeeming(startedAt: int)
    | Redeemed(startedAt: int, row: DeviceCode)
    | Answered(answer: Answer)

  datatype Poll = Poll(deviceCode: string, appId: string, phase: PollPhase) {
    function Hash(): Hash { Sha256(deviceCode) }
  }

  datatype DecidePhase =
    | Submitted
    | Verified(session: Session, checkedAt: int)
    | Expiring(hash: Hash)
    | Deciding(session: Session, checkedAt: int)
    | Closed

  datatype Decide = Decide(state: ApprovalState, cookie: Option<string>, decision: Decision, phase: DecidePhase)

  /** A request for the next approval page: an entered code with its session cookie, or the sign-in of a user. */
  datatype VisitKind = CodeEntry(cookie: Option<string>) | SignIn(userId: string)

  datatype VisitPhase = Opened | PageExpiring(hash: Hash) | Loaded | Shown

  datatype Visit = Visit(userCode: string, kind: VisitKind, phase: VisitPhase)

  const SESSION_LIFETIME := 8 * 60 * 60

  /** Which session approved a code, and when that session was found live. */
  datatype Approval = Approval(state: ApprovalState, sid: string, session: Session, checkedAt: int)

  datatype State = State(
    now: int,
    rows: Table,
    sessions: map<string, Session>,
    enabled: set<string>,
    polls: map<nat, Poll>,
    decides: map<nat, Decide>,
    visits: map<nat, Visit>,
    signed: set<ApprovalState>,
    inserted: map<Hash, DeviceCode>,
    approvals: map<Hash, Approval>)

  datatype Step =
    | Idle
    | Tick(seconds: nat)
    | SetSessions(sessions: map<string, Session>)
    | SetEnabled(enabled: set<string>)
    | InsertCode(deviceCode: string, userCode: string, appId: string, scopes: seq<string>, interval: int,
                 expiresAt: int)
    | Purge(cutoff: int)
    | StartPoll(id: nat, deviceCode: string, appId: string)
    | ReadRow(id: nat)
    | DiscardRow(id: nat)
    | RedeemRow(id: nat)
    | CheckUser(id: nat)
    | OpenLookup(id: nat, userCode: string, cookie: Option<string>)
    | OpenSignIn(id: nat, state: ApprovalState, userId: string)
    | LoadPage(id: nat, found: Option<Hash>)
    | ExpirePage(id: nat)
    | ShowPage(id: nat, newSid: string)
    | StartDecide(id: nat, state: ApprovalState, cookie: Option<string>, decision: Decision)
    | CheckSession(id: nat)
    | LoadPending(id: nat, found: Option<Hash>)
    | ExpireRow(id: nat)
    | ApplyDecision(id: nat)

  ghost predicate Init(s: State) {
    && s.rows == map[] && s.polls == map[] && s.decides == map[] && s.inserted == map[] && s.approvals == map[]
    && s.visits == map[] && s.signed == {}
  }

  function MovePoll(s: State, id: nat, phase: PollPhase): map<nat, Poll>
    requires id in s.polls
  {
    s.polls[id := s.polls[id].(phase := phase)]
  }

  function MoveDecide(s: State, id: nat, phase: DecidePhase): map<nat, Decide>
    requires id in s.decides
  {
    s.decides[id := s.decides[id].(phase := phase)]
  }

  function AfterReadRow(s: State, p: Poll): PollPhase
    requires p.phase.Polling?
  {
    if p.Hash() !in s.rows then Answered(InvalidGrant)
    else
      match Plan(s.rows[p.Hash()], p.appId, p.phase.startedAt)
      case Reply(answer) => Answered(answer)
      case DiscardThen(answer) => Discarding(answer)
      case Redeem => Redeeming(p.phase.startedAt)
  }

  /** The poll at this step removes an approved row: the redemption that wins. */
  predicate Wins(s: State, step: Step) {
    && step.RedeemRow? && step.id in s.polls && s.polls[step.id].phase.Redeeming?
    && var p := s.polls[step.id];
    Redeemable(s.rows, p.Hash(), p.appId, p.phase.startedAt)
  }

  function WonCode(s: State, step: Step): Hash
    requires Wins(s, step)
  {
    s.polls[step.id].Hash()
  }

  /** `resolveSession`: the cookie names a session that has not expired, of an enabled account. */
  predicate LiveSession(s: State, cookie: Option<string>) {
    && cookie.Some? && cookie.value != "" && cookie.value in s.sessions
    && s.sessions[cookie.value].expiresAt > s.now && s.sessions[cookie.value].userId in s.enabled
  }

  /** The session and the state match of the decide step. */
  predicate SessionMatches(s: State, d: Decide) { LiveSession(s, d.cookie) && d.state.sid == d.cookie.value }

  function AfterSession(s: State, d: Decide): DecidePhase {
    if SessionMatches(s, d) then Verified(s.sessions[d.cookie.value], s.now) else Closed
  }

  /** `loadPendingByUserCode`, given the row the lookup found. */
  function AfterLoad(s: State, found: Option<Hash>, session: Session, checkedAt: int): DecidePhase {
    if found.None? || found.value !in s.rows then Closed
    else if s.rows[found.value].expiresAt <= s.now then Expiring(found.value)
    else if s.rows[found.value].status != Pending then Closed
    else Deciding(session, checkedAt)
  }

  /** The same load for an approval page. */
  function AfterPageLoad(s: State, found: Option<Hash>): VisitPhase {
    if found.None? || found.value !in s.rows then Shown
    else if s.rows[found.value].expiresAt <= s.now then PageExpiring(found.value)
    else if s.rows[found.value].status != Pending then Shown
    else Loaded
  }

  /** The session a consent page is shown in: the visitor's live one or the one a sign-in creates, if any. */
  function ConsentSession(s: State, v: Visit, newSid: string): Option<string> {
    match v.kind
    case CodeEntry(cookie) => if LiveSession(s, cookie) then cookie else None
    case SignIn(userId) => if userId in s.enabled then Some(newSid) else None
  }

  /** The state the page is signed with: bound to its session, or to none on a sign-in page. */
  function PageState(s: State, v: Visit, newSid: string): ApprovalState {
    ApprovalState(v.userCode, if ConsentSession(s, v, newSid).Some? then ConsentSession(s, v, newSid).value else "")
  }

  function SessionsAfter(s: State, v: Visit, newSid: string): map<string, Session> {
    if v.kind.SignIn? && v.kind.userId in s.enabled
    then s.sessions[newSid := Session(v.kind.userId, s.now + SESSION_LIFETIME)]
    else s.sessions
  }

  predicate Looks(t: Table, userCode: string, found: Option<Hash>) {
    match found
    case Some(h) => h in t && t[h].userCode == userCode
    case None => !UserCodeExists(t, userCode)
  }

  ghost predicate NextPoll(s: State, step: Step, s': State) {
    match step
    case StartPoll(id, deviceCode, appId) =>
      && id !in s.polls
      && s' == s.(polls := s.polls[id := Poll(deviceCode, appId, Polling(s.now))])
    case ReadRow(id) =>
      && id in s.polls && s.polls[id].phase.Polling?
      && s' == s.(polls := MovePoll(s, id, AfterReadRow(s, s.polls[id])))
    case DiscardRow(id) =>
      && id in s.polls && s.polls[id].phase.Discarding?
      && s' == s.(rows := Consume(s.rows, s.polls[id].Hash()),
                  polls := MovePoll(s, id, Answered(s.polls[id].phase.answer)))
    case RedeemRow(id) =>
      && id in s.polls && s.polls[id].phase.Redeeming?
      && var p := s.polls[id];
      s' == s.(rows := ConsumeApproved(s.rows, p.Hash(), p.appId, p.phase.startedAt),
               polls := MovePoll(s, id,
                 if Wins(s, step) then Redeemed(p.phase.startedAt, s.rows[p.Hash()]) else Answered(InvalidGrant)))
    case CheckUser(id) =>
      && id in s.polls && s.polls[id].phase.Redeemed?
      && s' == s.(polls := MovePoll(s, id, Answered(AfterRedeem(s.polls[id].phase.row, s.enabled))))
    case _ => false
  }

  /** The approve statement: the row it finds pending, if any, and the approval that is on record for it. */
  ghost function ApprovalsAfter(s: State, d: Decide): map<Hash, Approval>
    requires d.phase.Deciding? && d.cookie.Some?
  {
    s.approvals +
    map h | h in s.rows && AwaitsDecision(s.rows, h, d.state.userCode)
      :: Approval(d.state, d.cookie.value, d.phase.session, d.phase.checkedAt)
  }

  function MoveVisit(s: State, id: nat, phase: VisitPhase): map<nat, Visit>
    requires id in s.visits
  {
    s.visits[id := s.visits[id].(phase := phase)]
  }

  /** The lookup and sign-in handlers, up to the page they show; a sign-in must present a state the server signed. */
  ghost predicate NextVisit(s: State, step: Step, s': State) {
    match step
    case OpenLookup(id, userCode, cookie) =>
      id !in s.visits && s' == s.(visits := s.visits[id := Visit(userCode, CodeEntry(cookie), Opened)])
    case OpenSignIn(id, state, userId) =>
      && id !in s.visits && state in s.signed
      && s' == s.(visits := s.visits[id := Visit(state.userCode, SignIn(userId), Opened)])
    case LoadPage(id, found) =>
      && id in s.visits && s.visits[id].phase.Opened? && Looks(s.rows, s.visits[id].userCode, found)
      && s' == s.(visits := MoveVisit(s, id, AfterPageLoad(s, found)))
    case ExpirePage(id) =>
      && id in s.visits && s.visits[id].phase.PageExpiring?
      && s' == s.(rows := Consume(s.rows, s.visits[id].phase.hash), visits := MoveVisit(s, id, Shown))
    case ShowPage(id, newSid) =>
      && id in s.visits && s.visits[id].phase.Loaded? && newSid != "" && newSid !in s.sessions
      && s' == s.(visits := MoveVisit(s, id, Shown),
                  sessions := SessionsAfter(s, s.visits[id], newSid),
                  signed := s.signed + {PageState(s, s.visits[id], newSid)})
    case _ => false
  }

  ghost predicate NextDecide(s: State, step: Step, s': State) {
    match step
    case StartDecide(id, state, cookie, decision) =>
      && id !in s.decides && state in s.signed
      && s' == s.(decides := s.decides[id := Decide(state, cookie, decision, Submitted)])
    case CheckSession(id) =>
      && id in s.decides && s.decides[id].phase.Submitted?
      && s' == s.(decides := MoveDecide(s, id, AfterSession(s, s.decides[id])))
    case LoadPending(id, found) =>
      && id in s.decides && s.decides[id].phase.Verified?
      && var d := s.decides[id];
      && Looks(s.rows, d.state.userCode, found)
      && s' == s.(decides := MoveDecide(s, id, AfterLoad(s, found, d.phase.session, d.phase.checkedAt)))
    case ExpireRow(id) =>
      && id in s.decides && s.decides[id].phase.Expiring?
      && s' == s.(rows := Consume(s.rows, s.decides[id].phase.hash), decides := MoveDecide(s, id, Closed))
    case ApplyDecision(id) =>
      && id in s.decides && s.decides[id].phase.Deciding? && s.decides[id].cookie.Some?
      && var d := s.decides[id];
      && var closed := MoveDecide(s, id, Closed);
      (match d.decision
       case ApproveIt => s' == s.(rows := Approve(s.rows, d.state.userCode, d.phase.session.userId),
                                  approvals := ApprovalsAfter(s, d), decides := closed)
       case DenyIt => s' == s.(rows := Deny(s.rows, d.state.userCode), decides := closed)
       case NoDecision => s' == s.(decides := closed))
    case _ => false
  }

  ghost predicate NextOther(s: State, step: Step, s': State) {
    match step
    case Idle => s' == s
    case Tick(seconds) => s' == s.(now := s.now + seconds)
    case SetSessions(sessions) => s' == s.(sessions := sessions)
    case SetEnabled(enabled) => s' == s.(enabled := enabled)
    case InsertCode(deviceCode, userCode, appId, scopes, interval, expiresAt) =>
      var h := Sha256(deviceCode);
      var row := PendingRow(userCode, appId, Join(scopes), interval, expiresAt, s.now);
      && h !in s.inserted
      && (match Insert(s.rows, h, row)
          case Some(t) => s' == s.(rows := t, inserted := s.inserted[h := row])
          case None => s' == s)
    case Purge(cutoff) => s' == s.(rows := DeleteExpired(s.rows, cutoff))
    case _ => false
  }

  predicate IsPollStep(step: Step) {
    step.StartPoll? || step.ReadRow? || step.DiscardRow? || step.RedeemRow? || step.CheckUser?
  }

  predicate IsVisitStep(step: Step) {
    step.OpenLookup? || step.OpenSignIn? || step.LoadPage? || step.ExpirePage? || step.ShowPage?
  }

  predicate IsDecideStep(step: Step) {
    step.StartDecide? || step.CheckSession? || step.LoadPending? || step.ExpireRow? || step.ApplyDecision?
  }

  ghost predicate Next(s: State, step: Step, s': State) {
    if IsPollStep(step) then NextPoll(s, step, s')
    else if IsVisitStep(step) then NextVisit(s, step, s')
    else if IsDecideStep(step) then NextDecide(s, step, s')
    else NextOther(s, step, s')
  }

  ghost predicate Behaviour(ss: seq<State>, steps: seq<Step>) {
    |ss| == |steps| + 1 && forall i | 0 <= i < |steps| :: Next(ss[i], steps[i], ss[i + 1])
  }

  ghost predicate Run(ss: seq<State>, steps: seq<Step>) { Behaviour(ss, steps) && Init(ss[0]) }

  // --- what each kind of step leaves alone ---------------------------------------------------------

  lemma OtherKeeps(s: State, step: Step, s': State)
    requires NextOther(s, step, s')
    ensures s'.polls == s.polls && s'.decides == s.decides && s'.visits == s.visits
    ensures s'.signed == s.signed && s'.approvals == s.approvals
    ensures s'.inserted != s.inserted ==> step.InsertCode?
    ensures s'.now == s.now + if step.Tick? then step.seconds else 0
  {}

  lemma PollKeeps(s: State, step: Step, s': State)
    requires NextPoll(s, step, s')
    ensures s'.decides == s.decides && s'.visits == s.visits && s'.now == s.now && !step.Tick?
    ensures s'.inserted == s.inserted
    ensures s'.signed == s.signed && s'.approvals == s.approvals
  {}

  lemma VisitKeeps(s: State, step: Step, s': State)
    requires NextVisit(s, step, s')
    ensures s'.polls == s.polls && s'.decides == s.decides && s'.approvals == s.approvals
    ensures s'.inserted == s.inserted
    ensures s.signed <= s'.signed && (s'.signed != s.signed ==> step.ShowPage?)
    ensures s'.now == s.now && !step.Tick?
  {}

  lemma DecideKeeps(s: State, step: Step, s': State)
    requires NextDecide(s, step, s')
    ensures s'.polls == s.polls && s'.visits == s.visits && s'.signed == s.signed && s'.inserted == s.inserted
    ensures s'.approvals != s.approvals ==>
              step.ApplyDecision? && step.id in s.decides && s.decides[step.id].decision == ApproveIt
    ensures s'.now == s.now && !step.Tick?
  {}

  /** Every step is of one kind, and leaves the requests of the other kinds alone. */
  lemma StepKeeps(s: State, step: Step, s': State)
    requires Next(s, step, s')
    ensures s'.polls != s.polls ==> IsPollStep(step)
    ensures s'.decides != s.decides ==> NextDecide(s, step, s')
    ensures s'.visits != s.visits ==> NextVisit(s, step, s')
    ensures s.signed <= s'.signed && (s'.signed != s.signed ==> step.ShowPage? && NextVisit(s, step, s'))
    ensures s'.approvals != s.approvals ==>
              && NextDecide(s, step, s') && step.ApplyDecision? && step.id in s.decides
              && s.decides[step.id].decision == ApproveIt
    ensures s'.now == s.now + if step.Tick? then step.seconds else 0
    ensures s'.inserted != s.inserted ==> step.InsertCode?
  {
    if IsPollStep(step) {
      PollKeeps(s, step, s');
    } else if IsVisitStep(step) {
      VisitKeeps(s, step, s');
    } else if IsDecideStep(step) {
      DecideKeeps(s, step, s');
    } else {
      OtherKeeps(s, step, s');
    }
  }

  /** A poll that has been answered keeps its answer. */
  lemma AnswersStay(s: State, step: Step, s': State, id: nat)
    requires Next(s, step, s') && id in s.polls && s.polls[id].phase.Answered?
    ensures id in s'.polls && s'.polls[id] == s.polls[id]
  {
    if !IsPollStep(step) {
      StepKeeps(s, step, s');
    }
  }

  // --- invariant ----------------------------------------------------------------------------------

  /** The approval on record was made in a live session of an account, by the state signed for that session. */
  predicate Sound(a: Approval, row: DeviceCode, now: int) {
    && a.session.expiresAt > a.checkedAt && a.checkedAt <= now
    && a.sid != "" && a.state.sid == a.sid && a.state.userCode == row.userCode
  }

  /** A row is the inserted row with a status, and a user exactly when its one approval is on record. */
  predicate Traced(row: DeviceCode, origin: DeviceCode, approval: Option<Approval>) {
    && origin.status == Pending && origin.userId == None
    && row.status != ExpiredStatus
    && row == origin.(status := row.status, userId := row.userId)
    && (row.status == Approved <==> row.userId.Some?)
    && (row.userId.Some? <==> approval.Some?)
    && (row.userId.Some? ==> row.userId.value == approval.value.session.userId)
  }

  function Lookup<K, V>(m: map<K, V>, k: K): Option<V> { if k in m then Some(m[k]) else None }

  predicate RowsTraced(t: Table, inserted: map<Hash, DeviceCode>, approvals: map<Hash, Approval>) {
    forall h <- t :: h in inserted && Traced(t[h], inserted[h], Lookup(approvals, h))
  }

  predicate ApprovalsSound(approvals: map<Hash, Approval>, inserted: map<Hash, DeviceCode>, now: int) {
    forall h <- approvals :: h in inserted && Sound(approvals[h], inserted[h], now)
  }

  ghost predicate OnePerUserCode(t: Table) {
    forall h, k | h in t && k in t && t[h].userCode == t[k].userCode :: h == k
  }

  ghost predicate TablesOk(s: State) {
    && RowsTraced(s.rows, s.inserted, s.approvals)
    && ApprovalsSound(s.approvals, s.inserted, s.now)
    && OnePerUserCode(s.rows)
  }

  predicate DecideSound(s: State, d: Decide) {
    d.phase.Verified? || d.phase.Deciding? ==>
      && d.cookie.Some? && d.cookie.value != "" && d.state.sid == d.cookie.value
      && d.phase.session.expiresAt > d.phase.checkedAt && d.phase.checkedAt <= s.now
  }

  /** A redeemed row in hand: approved, of this client, unexpired when the poll began, and gone from the table. */
  predicate PollSound(s: State, p: Poll) {
    match p.phase
    case Redeemed(startedAt, row) =>
      && p.Hash() in s.inserted && p.Hash() !in s.rows && p.Hash() in s.approvals
      && row.status == Approved && row.appId == p.appId && row.expiresAt > startedAt
      && Traced(row, s.inserted[p.Hash()], Some(s.approvals[p.Hash()]))
    case Discarding(answer) => answer != Unredeemable
    case Answered(answer) => answer != Unredeemable
    case _ => true
  }

  ghost predicate Inv(s: State) {
    && TablesOk(s)
    && (forall id <- s.decides :: DecideSound(s, s.decides[id]))
    && (forall id <- s.polls :: PollSound(s, s.polls[id]))
  }

  // --- what one step may do to the tables -----------------------------------------------------------

  /** History only grows, a code that is gone never comes back, and a decided row keeps its decision. */
  ghost predicate Grows(s: State, s': State) {
    && s.now <= s'.now
    && (forall h <- s.inserted :: h in s'.inserted && s'.inserted[h] == s.inserted[h])
    && (forall h <- s.approvals :: h in s'.approvals && s'.approvals[h] == s.approvals[h])
    && (forall h <- s.inserted :: h !in s.rows ==> h !in s'.rows)
    && (forall h <- s.rows :: s.rows[h].status != Pending && h in s'.rows ==> s'.rows[h] == s.rows[h])
  }

  /** Deleting rows, and nothing else. */
  ghost predicate Deletes(s: State, s': State) {
    && s'.inserted == s.inserted && s'.approvals == s.approvals && s.now <= s'.now
    && forall h <- s'.rows :: h in s.rows && s'.rows[h] == s.rows[h]
  }

  lemma DeletionIsSafe(s: State, s': State)
    requires TablesOk(s) && Deletes(s, s')
    ensures TablesOk(s') && Grows(s, s')
  {
  }

  /** A new hash has no approval yet, and a new user code is nobody else's. */
  lemma InsertedRowIsTraced(s: State, h: Hash, row: DeviceCode, t: Table)
    requires TablesOk(s) && h !in s.inserted && Insert(s.rows, h, row) == Some(t)
    requires row.status == Pending && row.userId == None
    ensures RowsTraced(t, s.inserted[h := row], s.approvals)
    ensures ApprovalsSound(s.approvals, s.inserted[h := row], s.now)
    ensures OnePerUserCode(t)
  {
    assert h !in s.approvals && h !in s.rows;
    forall k, l | k in t && l in t && t[k].userCode == t[l].userCode ensures k == l {
      assert k != h ==> k in s.rows && s.rows[k] == t[k];
      assert l != h ==> l in s.rows && s.rows[l] == t[l];
    }
  }

  lemma InsertionGrows(s: State, h: Hash, row: DeviceCode, s': State)
    requires TablesOk(s) && h !in s.inserted
    requires s' == s.(rows := s.rows[h := row], inserted := s.inserted[h := row])
    ensures Grows(s, s')
  {
    assert h !in s.rows;
  }

  lemma InsertionIsSafe(s: State, step: Step, s': State)
    requires TablesOk(s) && step.InsertCode? && NextOther(s, step, s')
    ensures TablesOk(s') && Grows(s, s')
  {
    InsertionShape(s, step, s');
    if s' == s {
      DeletionIsSafe(s, s');
    } else {
      var h := Sha256(step.deviceCode);
      var row := PendingRow(step.userCode, step.appId, Join(step.scopes), step.interval, step.expiresAt, s.now);
      InsertedRowIsTraced(s, h, row, s'.rows);
      InsertionGrows(s, h, row, s');
    }
  }

  lemma InsertionShape(s: State, step: Step, s': State)
    requires step.InsertCode? && NextOther(s, step, s')
    ensures var h := Sha256(step.deviceCode);
            var row := PendingRow(step.userCode, step.appId, Join(step.scopes), step.interval, step.expiresAt, s.now);
            s' == s || (h !in s.inserted && Insert(s.rows, h, row) == Some(s'.rows)
                        && s' == s.(rows := s.rows[h := row], inserted := s.inserted[h := row]))
  {}

  lemma OtherIsSafe(s: State, step: Step, s': State)
    requires TablesOk(s) && NextOther(s, step, s')
    ensures TablesOk(s') && Grows(s, s') && s'.polls == s.polls && s'.decides == s.decides
  {
    OtherKeeps(s, step, s');
    if step.InsertCode? {
      InsertionIsSafe(s, step, s');
    } else {
      OtherDeletes(s, step, s');
      DeletionIsSafe(s, s');
    }
  }

  lemma OtherDeletes(s: State, step: Step, s': State)
    requires NextOther(s, step, s') && !step.InsertCode?
    ensures Deletes(s, s')
  {}

  lemma VisitIsSafe(s: State, step: Step, s': State)
    requires TablesOk(s) && NextVisit(s, step, s')
    ensures TablesOk(s') && Grows(s, s') && s'.polls == s.polls && s'.decides == s.decides
  {
    assert Deletes(s, s');
  }

  lemma PollIsSafe(s: State, step: Step, s': State)
    requires TablesOk(s) && NextPoll(s, step, s')
    ensures TablesOk(s') && Grows(s, s') && s'.decides == s.decides
  {
    assert Deletes(s, s');
  }

  lemma DenialIsSafe(s: State, userCode: string, s': State)
    requires TablesOk(s) && s' == s.(rows := Deny(s.rows, userCode), decides := s'.decides)
    ensures TablesOk(s') && Grows(s, s')
  {
  }

  lemma ApprovalIsTraced(s: State, d: Decide, s': State)
    requires TablesOk(s) && DecideSound(s, d) && d.phase.Deciding?
    requires s' == s.(rows := Approve(s.rows, d.state.userCode, d.phase.session.userId),
                      approvals := ApprovalsAfter(s, d), decides := s'.decides)
    ensures RowsTraced(s'.rows, s'.inserted, s'.approvals)
    ensures forall h <- s.approvals :: s'.approvals[h] == s.approvals[h]
  {
    forall h <- s'.rows ensures h in s'.inserted && Traced(s'.rows[h], s'.inserted[h], Lookup(s'.approvals, h)) {
      assert h in s.rows && Traced(s.rows[h], s.inserted[h], Lookup(s.approvals, h));
    }
    forall h <- s.approvals ensures s'.approvals[h] == s.approvals[h] {
      if h in s.rows {
        assert Traced(s.rows[h], s.inserted[h], Lookup(s.approvals, h));
      }
    }
  }

  lemma ApprovalIsSound(s: State, d: Decide)
    requires TablesOk(s) && DecideSound(s, d) && d.phase.Deciding?
    ensures ApprovalsSound(ApprovalsAfter(s, d), s.inserted, s.now)
  {
    forall h <- ApprovalsAfter(s, d) ensures h in s.inserted && Sound(ApprovalsAfter(s, d)[h], s.inserted[h], s.now) {
      if h in s.rows {
        assert Traced(s.rows[h], s.inserted[h], Lookup(s.approvals, h));
      }
    }
  }

  lemma ApprovalIsSafe(s: State, d: Decide, s': State)
    requires TablesOk(s) && DecideSound(s, d) && d.phase.Deciding?
    requires s' == s.(rows := Approve(s.rows, d.state.userCode, d.phase.session.userId),
                      approvals := ApprovalsAfter(s, d), decides := s'.decides)
    ensures TablesOk(s') && Grows(s, s')
  {
    ApprovalIsTraced(s, d, s');
    ApprovalIsSound(s, d);
  }

  lemma ApplyIsSafe(s: State, step: Step, s': State)
    requires TablesOk(s) && step.ApplyDecision? && NextDecide(s, step, s')
    requires DecideSound(s, s.decides[step.id])
    ensures TablesOk(s') && Grows(s, s') && s'.polls == s.polls
  {
    var d := s.decides[step.id];
    match d.decision
    case ApproveIt => ApprovalIsSafe(s, d, s');
    case DenyIt => DenialIsSafe(s, d.state.userCode, s');
    case NoDecision => assert Deletes(s, s');
  }

  lemma DecideIsSafe(s: State, step: Step, s': State)
    requires TablesOk(s) && NextDecide(s, step, s')
    requires forall id <- s.decides :: DecideSound(s, s.decides[id])
    ensures TablesOk(s') && Grows(s, s') && s'.polls == s.polls
  {
    if step.ApplyDecision? {
      ApplyIsSafe(s, step, s');
    } else {
      assert Deletes(s, s');
    }
  }

  /** What requests in flight rely on survives every step. */
  lemma InFlightKept(s: State, s': State)
    requires Grows(s, s')
    ensures forall id <- s.polls :: PollSound(s, s.polls[id]) ==> PollSound(s', s.polls[id])
    ensures forall id <- s.decides :: DecideSound(s, s.decides[id]) ==> DecideSound(s', s.decides[id])
  {
  }

  /** The poll that removes an approved row holds it, with the approval on record. */
  lemma RedeemMoves(s: State, step: Step, s': State)
    requires TablesOk(s) && step.RedeemRow? && NextPoll(s, step, s')
    ensures PollSound(s', s'.polls[step.id])
  {
    var h := s.polls[step.id].Hash();
    assert h in s.rows ==> Traced(s.rows[h], s.inserted[h], Lookup(s.approvals, h));
  }

  lemma PollMoves(s: State, step: Step, s': State)
    requires TablesOk(s) && NextPoll(s, step, s') && Grows(s, s')
    requires step.id in s.polls ==> PollSound(s, s.polls[step.id])
    ensures step.id in s'.polls && PollSound(s', s'.polls[step.id])
    ensures forall id <- s'.polls | id != step.id :: id in s.polls && s'.polls[id] == s.polls[id]
  {
    if step.RedeemRow? {
      RedeemMoves(s, step, s');
    }
  }

  lemma DecideMoves(s: State, step: Step, s': State)
    requires NextDecide(s, step, s') && Grows(s, s')
    requires step.id in s.decides ==> DecideSound(s, s.decides[step.id])
    ensures step.id in s'.decides && DecideSound(s', s'.decides[step.id])
    ensures forall id <- s'.decides | id != step.id :: id in s.decides && s'.decides[id] == s.decides[id]
  {
    OtherDecidesStay(s, step, s');
  }

  lemma OtherDecidesStay(s: State, step: Step, s': State)
    requires NextDecide(s, step, s')
    ensures step.id in s'.decides
    ensures forall id <- s'.decides | id != step.id :: id in s.decides && s'.decides[id] == s.decides[id]
  {
  }

  lemma InvPoll(s: State, step: Step, s': State)
    requires Inv(s) && NextPoll(s, step, s')
    ensures Inv(s') && Grows(s, s')
  {
    PollIsSafe(s, step, s');
    InFlightKept(s, s');
    PollMoves(s, step, s');
  }

  lemma InvDecide(s: State, step: Step, s': State)
    requires Inv(s) && NextDecide(s, step, s')
    ensures Inv(s') && Grows(s, s')
  {
    DecideIsSafe(s, step, s');
    InFlightKept(s, s');
    DecideMoves(s, step, s');
  }

  lemma InvOther(s: State, step: Step, s': State)
    requires Inv(s) && NextOther(s, step, s')
    ensures Inv(s') && Grows(s, s')
  {
    OtherIsSafe(s, step, s');
    InFlightKept(s, s');
  }

  lemma InvVisit(s: State, step: Step, s': State)
    requires Inv(s) && NextVisit(s, step, s')
    ensures Inv(s') && Grows(s, s')
  {
    VisitIsSafe(s, step, s');
    InFlightKept(s, s');
  }

  lemma InvNext(s: State, step: Step, s': State)
    requires Inv(s) && Next(s, step, s')
    ensures Inv(s') && Grows(s, s')
  {
    if IsPollStep(step) {
      InvPoll(s, step, s');
    } else if IsVisitStep(step) {
      InvVisit(s, step, s');
    } else if IsDecideStep(step) {
      InvDecide(s, step, s');
    } else {
      InvOther(s, step, s');
    }
  }

  lemma ClockOnlyTicks(s: State, step: Step, s': State)
    requires Next(s, step, s')
    ensures s'.now == s.now + if step.Tick? then step.seconds else 0
  {
    StepKeeps(s, step, s');
  }

  lemma {:induction false} InvRun(ss: seq<State>, steps: seq<Step>, i: nat)
    requires Run(ss, steps) && i < |ss|
    ensures Inv(ss[i])
  {
    if i > 0 {
      InvRun(ss, steps, i - 1);
      assert Next(ss[i - 1], steps[i - 1], ss[i - 1 + 1]);
      InvNext(ss[i - 1], steps[i - 1], ss[i]);
    }
  }

  // --- theorems -----------------------------------------------------------------------------------

  /**
   * A poll that is granted tokens was granted what the device asked for and what one live session approved:
   * the inserted client and scopes, a code unexpired when the poll began, and the approval on record, made by
   * the granted user in a session that was live and matched the signed state when it was checked.
   */
  lemma GrantedPollWasApproved(s: State, step: Step, s': State)
    requires Inv(s) && step.CheckUser? && Next(s, step, s')
    requires s'.polls[step.id].phase.answer.Granted?
    ensures var p := s.polls[step.id];
            var answer := s'.polls[step.id].phase.answer;
            && p.Hash() in s.inserted && p.Hash() in s.approvals
            && var origin, approval := s.inserted[p.Hash()], s.approvals[p.Hash()];
            && origin.appId == p.appId && p.phase.startedAt < origin.expiresAt
            && answer.scopes == SplitScopes(origin.scopes)
            && answer.userId == approval.session.userId && answer.userId in s.enabled
            && Sound(approval, origin, s.now)
  {
    assert PollSound(s, s.polls[step.id]);
  }

  /** Split and joined at both ends, the granted scopes are the requested ones. */
  lemma GrantedScopesAsRequested(s: State, step: Step, s': State)
    requires Inv(s) && step.InsertCode? && Next(s, step, s') && s' != s
    requires forall scope <- step.scopes :: IsScope(scope)
    ensures SplitScopes(s'.inserted[Sha256(step.deviceCode)].scopes) == step.scopes
  {
    SplitScopesJoin(step.scopes);
  }

  /** A history row as the step that inserted its code asked for it. */
  ghost predicate InsertedBy(s: State, step: Step, h: Hash, row: DeviceCode) {
    && step.InsertCode? && Sha256(step.deviceCode) == h
    && row == DeviceCode(
         userCode := step.userCode, appId := step.appId, userId := None, scopes := Join(step.scopes),
         status := Pending, interval := step.interval, expiresAt := step.expiresAt, createdAt := s.now)
  }

  lemma InsertedNext(s: State, step: Step, s': State, h: Hash)
    requires Next(s, step, s') && h in s'.inserted
    ensures if h in s.inserted then s'.inserted[h] == s.inserted[h] else InsertedBy(s, step, h, s'.inserted[h])
  {
    StepKeeps(s, step, s');
    if step.InsertCode? {
      InsertionRecords(s, step, s', h);
    }
  }

  lemma InsertionRecords(s: State, step: Step, s': State, h: Hash)
    requires step.InsertCode? && NextOther(s, step, s') && h in s'.inserted
    ensures if h in s.inserted then s'.inserted[h] == s.inserted[h] else InsertedBy(s, step, h, s'.inserted[h])
  {}

  /** Every device code of a run was inserted by one of its steps. */
  lemma {:induction false} InsertStep(ss: seq<State>, steps: seq<Step>, i: nat, h: Hash) returns (k: nat)
    requires Run(ss, steps) && i < |ss| && h in ss[i].inserted
    ensures k < i && InsertedBy(ss[k], steps[k], h, ss[i].inserted[h])
  {
    assert i > 0;
    k := i - 1;
    assert Next(ss[k], steps[k], ss[k + 1]);
    InsertedNext(ss[k], steps[k], ss[i], h);
    if h in ss[k].inserted {
      k := InsertStep(ss, steps, k, h);
    }
  }

  /**
   * Over a whole run: a granted poll presents the device code of one earlier insertion, made for the same client
   * with an expiry after the poll began, and is granted the scopes requested there.
   */
  lemma GrantedPollHasItsInsertion(ss: seq<State>, steps: seq<Step>, j: nat) returns (k: nat)
    requires Run(ss, steps) && j < |steps| && steps[j].CheckUser?
    requires ss[j + 1].polls[steps[j].id].phase.answer.Granted?
    ensures k < j && steps[k].InsertCode?
    ensures var p := ss[j].polls[steps[j].id];
            && steps[k].deviceCode == p.deviceCode && steps[k].appId == p.appId
            && p.phase.startedAt < steps[k].expiresAt
            && ss[j + 1].polls[steps[j].id].phase.answer.scopes == SplitScopes(Join(steps[k].scopes))
            && ((forall scope <- steps[k].scopes :: IsScope(scope)) ==>
                  ss[j + 1].polls[steps[j].id].phase.answer.scopes == steps[k].scopes)
            && p.Hash() in ss[j].approvals && ss[j].approvals[p.Hash()].state.userCode == steps[k].userCode
  {
    assert Next(ss[j], steps[j], ss[j + 1]);
    InvRun(ss, steps, j);
    GrantedPollWasApproved(ss[j], steps[j], ss[j + 1]);
    k := InsertStep(ss, steps, j, ss[j].polls[steps[j].id].Hash());
    SplitScopesRoundTrip(steps[k].scopes);
  }

  /** In every reachable state no poll has fallen through to the last branch. */
  lemma FallThroughIsUnreachable(ss: seq<State>, steps: seq<Step>, i: nat, id: nat)
    requires Run(ss, steps) && i < |ss| && id in ss[i].polls
    ensures ss[i].polls[id].phase != Answered(Unredeemable)
  {
    InvRun(ss, steps, i);
    assert PollSound(ss[i], ss[i].polls[id]);
  }

  lemma GrowsTransitive(a: State, b: State, c: State)
    requires RowsTraced(a.rows, a.inserted, a.approvals) && Grows(a, b) && Grows(b, c)
    ensures Grows(a, c)
  {
  }

  /** A decided row keeps its decision and its user, over any run; the approval of a code is never rewritten. */
  lemma {:induction false} DecisionsAreFinal(ss: seq<State>, steps: seq<Step>, i: nat, j: nat)
    requires Run(ss, steps) && i <= j < |ss|
    ensures Grows(ss[i], ss[j])
    decreases j - i
  {
    InvRun(ss, steps, i);
    if i < j {
      assert Next(ss[i], steps[i], ss[i + 1]);
      assert Grows(ss[i], ss[i + 1]) by {
        InvNext(ss[i], steps[i], ss[i + 1]);
      }
      DecisionsAreFinal(ss, steps, i + 1, j);
      GrowsTransitive(ss[i], ss[i + 1], ss[j]);
    }
  }

  /**
   * A decision takes effect as it was made: approval gives the pending row of the code to the session's user, denial
   * denies it, anything else leaves it; and no other row is touched.
   */
  lemma DecisionTakesEffect(s: State, step: Step, s': State, h: Hash)
    requires step.ApplyDecision? && NextDecide(s, step, s') && h in s.rows
    ensures h in s'.rows
    ensures var d := s.decides[step.id];
            s'.rows[h] == if s.rows[h].userCode != d.state.userCode || s.rows[h].status != Pending then s.rows[h]
                          else match d.decision
                               case ApproveIt => s.rows[h].(status := Approved,
                                                            userId := Some(d.phase.session.userId))
                               case DenyIt => s.rows[h].(status := Denied)
                               case NoDecision => s.rows[h]
  {}

  /** A code appears on record as approved only at an approve step whose session check passed for that user. */
  lemma ApprovalsComeFromDecisions(s: State, step: Step, s': State, h: Hash)
    requires Inv(s) && Next(s, step, s') && h !in s.approvals && h in s'.approvals
    ensures step.ApplyDecision? && step.id in s.decides
    ensures var d := s.decides[step.id];
            && d.decision == ApproveIt && d.phase.Deciding?
            && AwaitsDecision(s.rows, h, d.state.userCode)
            && s'.approvals[h] == Approval(d.state, d.state.sid, d.phase.session, d.phase.checkedAt)
            && s'.rows[h].userId == Some(d.phase.session.userId)
  {
    StepKeeps(s, step, s');
    assert DecideSound(s, s.decides[step.id]);
  }

  lemma ApprovalKept(ss: seq<State>, steps: seq<Step>, i: nat, j: nat, h: Hash)
    requires Run(ss, steps) && i <= j < |ss| && h in ss[i].approvals
    ensures h in ss[j].approvals && ss[j].approvals[h] == ss[i].approvals[h]
  {
    DecisionsAreFinal(ss, steps, i, j);
  }

  /** The step that put a code's approval on record. */
  lemma {:induction false} ApprovalStep(ss: seq<State>, steps: seq<Step>, j: nat, h: Hash) returns (i: nat)
    requires Run(ss, steps) && j < |ss| && h in ss[j].approvals
    ensures i < j && h !in ss[i].approvals && h in ss[i + 1].approvals
    ensures ss[j].approvals[h] == ss[i + 1].approvals[h]
  {
    assert j > 0;
    if h in ss[j - 1].approvals {
      i := ApprovalStep(ss, steps, j - 1, h);
      ApprovalKept(ss, steps, i + 1, j, h);
    } else {
      i := j - 1;
    }
  }

  /** A decision past its session check: the request is the one checked, and nothing of the check has changed. */
  predicate Checked(d: Decide) { d.phase.Verified? || d.phase.Deciding? }

  lemma CheckedMoves(s: State, step: Step, s': State, id: nat)
    requires NextDecide(s, step, s') && id in s'.decides && Checked(s'.decides[id])
    ensures id in s.decides
    ensures s.decides[id].state == s'.decides[id].state && s.decides[id].cookie == s'.decides[id].cookie
    ensures if Checked(s.decides[id])
            then && s.decides[id].phase.session == s'.decides[id].phase.session
                 && s.decides[id].phase.checkedAt == s'.decides[id].phase.checkedAt
            else && step == CheckSession(id) && SessionMatches(s, s.decides[id])
                 && s'.decides[id].phase == Verified(s.sessions[s.decides[id].cookie.value], s.now)
  {
    OtherDecidesStay(s, step, s');
    if id == step.id {
      if step.LoadPending? {
        LoadChecked(s, step, s');
      } else {
        SessionChecked(s, step, s');
      }
    }
  }

  lemma SessionChecked(s: State, step: Step, s': State)
    requires NextDecide(s, step, s') && !step.LoadPending? && Checked(s'.decides[step.id])
    ensures step == CheckSession(step.id) && step.id in s.decides && SessionMatches(s, s.decides[step.id])
    ensures !Checked(s.decides[step.id])
    ensures s'.decides[step.id] == s.decides[step.id].(
              phase := Verified(s.sessions[s.decides[step.id].cookie.value], s.now))
  {}

  lemma LoadChecked(s: State, step: Step, s': State)
    requires NextDecide(s, step, s') && step.LoadPending? && step.id in s'.decides && Checked(s'.decides[step.id])
    ensures step.id in s.decides && Checked(s.decides[step.id])
    ensures var d, d' := s.decides[step.id], s'.decides[step.id];
            && d.state == d'.state && d.cookie == d'.cookie
            && d.phase.session == d'.phase.session && d.phase.checkedAt == d'.phase.checkedAt
  {}

  lemma CheckedOnce(s: State, step: Step, s': State, id: nat)
    requires Next(s, step, s') && id in s'.decides && Checked(s'.decides[id])
    ensures id in s.decides
    ensures s.decides[id].state == s'.decides[id].state && s.decides[id].cookie == s'.decides[id].cookie
    ensures if Checked(s.decides[id])
            then && s.decides[id].phase.session == s'.decides[id].phase.session
                 && s.decides[id].phase.checkedAt == s'.decides[id].phase.checkedAt
            else && step == CheckSession(id) && SessionMatches(s, s.decides[id])
                 && s'.decides[id].phase == Verified(s.sessions[s.decides[id].cookie.value], s.now)
  {
    if IsDecideStep(step) {
      CheckedMoves(s, step, s', id);
    } else {
      StepKeeps(s, step, s');
    }
  }

  /** The step that checked the session of a decision in flight. */
  lemma {:induction false} SessionCheckStep(ss: seq<State>, steps: seq<Step>, i: nat, id: nat) returns (k: nat)
    requires Run(ss, steps) && i < |ss| && id in ss[i].decides && Checked(ss[i].decides[id])
    ensures k < i && steps[k] == CheckSession(id) && id in ss[k].decides && SessionMatches(ss[k], ss[k].decides[id])
    ensures ss[k].decides[id].state == ss[i].decides[id].state
    ensures ss[k].sessions[ss[k].decides[id].cookie.value] == ss[i].decides[id].phase.session
  {
    assert i > 0;
    k := i - 1;
    assert Next(ss[k], steps[k], ss[k + 1]);
    CheckedOnce(ss[k], steps[k], ss[i], id);
    if Checked(ss[k].decides[id]) {
      k := SessionCheckStep(ss, steps, k, id);
    }
  }

  lemma DecidingMoves(s: State, step: Step, s': State, id: nat)
    requires NextDecide(s, step, s') && id in s'.decides && s'.decides[id].phase.Deciding?
    ensures id in s.decides && s.decides[id].state == s'.decides[id].state
    ensures || s.decides[id].phase.Deciding?
            || (step.LoadPending? && step.id == id && step.found.Some?
                && AwaitsDecision(s.rows, step.found.value, s.decides[id].state.userCode)
                && s.rows[step.found.value].expiresAt > s.now)
  {
    OtherDecidesStay(s, step, s');
  }

  /** A decision is put only after its user code was found once more, pending and unexpired. */
  lemma {:induction false} DecisionLoadStep(ss: seq<State>, steps: seq<Step>, i: nat, id: nat) returns (l: nat)
    requires Run(ss, steps) && i < |ss| && id in ss[i].decides && ss[i].decides[id].phase.Deciding?
    ensures l < i && steps[l].LoadPending? && steps[l].id == id && steps[l].found.Some?
    ensures AwaitsDecision(ss[l].rows, steps[l].found.value, ss[i].decides[id].state.userCode)
    ensures ss[l].rows[steps[l].found.value].expiresAt > ss[l].now
  {
    assert i > 0;
    l := i - 1;
    assert Next(ss[l], steps[l], ss[l + 1]);
    if ss[l].decides != ss[i].decides {
      StepKeeps(ss[l], steps[l], ss[i]);
      DecidingMoves(ss[l], steps[l], ss[i], id);
    }
    if id in ss[l].decides && ss[l].decides[id].phase.Deciding? {
      l := DecisionLoadStep(ss, steps, l, id);
    }
  }

  /**
   * Device-code safety over whole runs: if a poll is granted tokens, then earlier in the run some decision
   * approved that very code, and still earlier that decision's session was checked: live, matching the
   * signed state, and belonging to the user the tokens are for, whose account was enabled.
   */
  lemma GrantedPollHasItsApproval(ss: seq<State>, steps: seq<Step>, j: nat) returns (i: nat, k: nat)
    requires Run(ss, steps) && j < |steps| && steps[j].CheckUser?
    requires ss[j + 1].polls[steps[j].id].phase.answer.Granted?
    ensures k < i < j && steps[i].ApplyDecision? && steps[k] == CheckSession(steps[i].id)
    ensures steps[i].id in ss[i].decides && steps[i].id in ss[k].decides
    ensures var h := ss[j].polls[steps[j].id].Hash();
            var d := ss[k].decides[steps[i].id];
            && ss[i].decides[steps[i].id].decision == ApproveIt
            && AwaitsDecision(ss[i].rows, h, d.state.userCode)
            && d.cookie == Some(d.state.sid) && d.state.sid != "" && d.state.sid in ss[k].sessions
            && var session := ss[k].sessions[d.state.sid];
               && session.expiresAt > ss[k].now && session.userId in ss[k].enabled
               && session.userId == ss[j + 1].polls[steps[j].id].phase.answer.userId
  {
    var h := ss[j].polls[steps[j].id].Hash();
    assert Next(ss[j], steps[j], ss[j + 1]);
    InvRun(ss, steps, j);
    GrantedPollWasApproved(ss[j], steps[j], ss[j + 1]);
    i := ApprovalStep(ss, steps, j, h);
    assert Next(ss[i], steps[i], ss[i + 1]);
    InvRun(ss, steps, i);
    ApprovalsComeFromDecisions(ss[i], steps[i], ss[i + 1], h);
    k := SessionCheckStep(ss, steps, i, steps[i].id);
  }

  /** An inserted code is stored, pending, as the step asks for it, unless its hash or user code is taken. */
  lemma InsertStores(s: State, step: Step, s': State)
    requires step.InsertCode? && NextOther(s, step, s')
    requires Sha256(step.deviceCode) !in s.rows && forall h <- s.rows :: s.rows[h].userCode != step.userCode
    ensures Sha256(step.deviceCode) in s'.rows && InsertedBy(s, step, Sha256(step.deviceCode),
                                                             s'.rows[Sha256(step.deviceCode)])
  {}

  // --- the machine implements the poll ---------------------------------------------------------------

  /** The steps of one poll after its row has been read. */
  lemma FinishPoll(s: State, id: nat, startedAt: int) returns (ss: seq<State>, steps: seq<Step>)
    requires id in s.polls && s.polls[id].Hash() in s.rows
    requires s.polls[id].phase == AfterReadRow(s, s.polls[id].(phase := Polling(startedAt)))
    ensures Behaviour(ss, steps) && ss[0] == s
    ensures var p := s.polls[id];
            var (answer, t) := PollOnce(s.rows, p.deviceCode, p.appId, startedAt, s.enabled);
            ss[|ss| - 1] == s.(rows := t, polls := s.polls[id := p.(phase := Answered(answer))])
  {
    var p := s.polls[id];
    ss, steps := [s], [];
    if p.phase.Discarding? {
      var s1 := s.(rows := Consume(s.rows, p.Hash()), polls := MovePoll(s, id, Answered(p.phase.answer)));
      ss, steps := [s, s1], [DiscardRow(id)];
    } else if p.phase.Redeeming? {
      var redeemed := RedeemPoll(s, id);
      ss, steps := [s, redeemed], [RedeemRow(id)];
      if redeemed.polls[id].phase.Redeemed? {
        var s2 := redeemed.(polls := MovePoll(redeemed, id, Answered(AfterRedeem(s.rows[p.Hash()], s.enabled))));
        ss, steps := [s, redeemed, s2], [RedeemRow(id), CheckUser(id)];
        assert Next(redeemed, CheckUser(id), s2);
      }
    }
  }

  lemma RedeemPoll(s: State, id: nat) returns (s': State)
    requires id in s.polls && s.polls[id].phase.Redeeming? && s.polls[id].Hash() in s.rows
    ensures Next(s, RedeemRow(id), s')
    ensures var p := s.polls[id];
            var startedAt := p.phase.startedAt;
            s' == s.(rows := ConsumeApproved(s.rows, p.Hash(), p.appId, startedAt),
                     polls := s.polls[id := p.(phase :=
                       if DeviceCodes.Redeemable(s.rows, p.Hash(), p.appId, startedAt)
                       then Redeemed(startedAt, s.rows[p.Hash()]) else Answered(InvalidGrant))])
  {
    var p := s.polls[id];
    var step := RedeemRow(id);
    s' := s.(rows := ConsumeApproved(s.rows, p.Hash(), p.appId, p.phase.startedAt),
             polls := MovePoll(s, id,
               if Wins(s, step) then Redeemed(p.phase.startedAt, s.rows[p.Hash()]) else Answered(InvalidGrant)));
  }

  /**
   * Run without interference, the machine's steps are the poll handler: from any state they answer and store
   * exactly what `PollOnce` says for that table.
   */
  lemma UninterruptedPoll(s: State, id: nat, deviceCode: string, appId: string)
    returns (ss: seq<State>, steps: seq<Step>)
    requires id !in s.polls
    ensures Behaviour(ss, steps) && ss[0] == s
    ensures var (answer, t) := PollOnce(s.rows, deviceCode, appId, s.now, s.enabled);
            ss[|ss| - 1] == s.(rows := t, polls := s.polls[id := Poll(deviceCode, appId, Answered(answer))])
  {
    var s1 := s.(polls := s.polls[id := Poll(deviceCode, appId, Polling(s.now))]);
    var s2 := s1.(polls := MovePoll(s1, id, AfterReadRow(s1, s1.polls[id])));
    assert Next(s, StartPoll(id, deviceCode, appId), s1) && Next(s1, ReadRow(id), s2);
    ss, steps := [s, s1, s2], [StartPoll(id, deviceCode, appId), ReadRow(id)];
    if Sha256(deviceCode) in s.rows {
      var tail, more := FinishPoll(s2, id, s.now);
      ss, steps := [s, s1] + tail, steps + more;
      assert forall i | 2 <= i < |steps| :: ss[i] == tail[i - 2] && steps[i] == more[i - 2];
    }
    assert forall phase ::
        s2.polls[id := Poll(deviceCode, appId, phase)] == s.polls[id := Poll(deviceCode, appId, phase)];
  }

  /** Each device code is redeemed at most once, however many polls race. */
  lemma SingleUse(ss: seq<State>, steps: seq<Step>, i: nat, j: nat)
    requires Run(ss, steps) && i < j < |steps|
    requires Wins(ss[i], steps[i]) && Wins(ss[j], steps[j])
    ensures WonCode(ss[i], steps[i]) != WonCode(ss[j], steps[j])
  {
    assert Next(ss[i], steps[i], ss[i + 1]);
    InvRun(ss, steps, i);
    InvRun(ss, steps, i + 1);
    DecisionsAreFinal(ss, steps, i + 1, j);
  }
}
