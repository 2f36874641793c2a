/** What every run of the refresh-token machine guarantees: chain shape, single use, replay safety, lineage. */
module RefreshSafety {
  import opened Text
  import opened Hashing
  import opened RefreshTokens
  import opened RefreshService
  import opened RefreshRuns

  // --- the shape of a chain -----------------------------------------------------------------

  /** The next token of the chain after `h`, on the way to a later token `k`. */
  lemma {:induction false} Successor(g: History, h: Hash, k: Hash) returns (c: Hash)
    requires ChainShape(g) && SameChain(g, h, k) && g[h].index < g[k].index
    ensures IsChild(g, c, h) && SameChain(g, c, k) && g[c].index == g[h].index + 1
    decreases g[k].index
  {
    assert WellPlaced(g, k);
    var p := g[k].row.rotatedFrom.value;
    assert SameChain(g, h, p);
    if g[p].index == g[h].index {
      c := k;
    } else {
      c := Successor(g, h, p);
    }
  }

  /** `rotated_from` is acyclic: no parent path of stored rows comes back to where it started. */
  lemma {:induction false} NoCycle(s: State, p: seq<Hash>)
    requires Inv(s) && |p| >= 2
    requires forall i | 0 <= i < |p| - 1 :: p[i] in s.rows && s.rows[p[i]].rotatedFrom == Some(p[i + 1])
    ensures p[|p| - 1] in s.issued && s.issued[p[|p| - 1]].index < s.issued[p[0]].index
    ensures p[0] != p[|p| - 1]
  {
    assert p[0] in s.rows && s.rows[p[0]].rotatedFrom == Some(p[1]);
    assert WellPlaced(s.issued, p[0]);
    if |p| > 2 {
      NoCycle(s, p[1..]);
    }
  }

  /** No row has two children. */
  lemma OneChild(s: State, a: Hash, b: Hash, parent: Hash)
    requires Inv(s) && a in s.rows && b in s.rows
    requires s.rows[a].rotatedFrom == Some(parent) && s.rows[b].rotatedFrom == Some(parent)
    ensures a == b
  {
    assert WellPlaced(s.issued, a) && WellPlaced(s.issued, b);
    assert SameChain(s.issued, a, b);
  }

  /** The live row of a chain is its last token, so a chain has at most one. */
  lemma LiveIsLast(s: State, h: Hash, k: Hash)
    requires Inv(s) && Live(s.rows, h) && SameChain(s.issued, h, k)
    ensures s.issued[k].index <= s.issued[h].index
    ensures Live(s.rows, k) ==> h == k
  {
    if s.issued[h].index < s.issued[k].index {
      var c := Successor(s.issued, h, k);
      assert false;
    }
    if Live(s.rows, k) && s.issued[k].index < s.issued[h].index {
      var c := Successor(s.issued, k, h);
      assert false;
    }
  }

  // --- the family search finds the chain ----------------------------------------------------

  /** From a stored token the search walks down the chain to every later token; all of them are stored. */
  lemma {:induction false} SearchReaches(s: State, start: Hash, a: Hash, k: Hash)
    requires Inv(s) && a in s.rows && SameChain(s.issued, a, k) && s.issued[a].index <= s.issued[k].index
    requires Connected(s.rows, start, a)
    ensures k in s.rows && Connected(s.rows, start, k)
    decreases s.issued[k].index
  {
    if s.issued[a].index < s.issued[k].index {
      assert WellPlaced(s.issued, k);
      var p := s.issued[k].row.rotatedFrom.value;
      assert SameChain(s.issued, a, p);
      SearchReaches(s, start, a, p);
      assert IsChild(s.issued, k, p);
      ConnectedStep(s.rows, start, p, k);
    } else {
      assert a == k;
    }
  }

  /** The search never leaves the chain. */
  lemma {:induction false} SearchStays(s: State, p: seq<Hash>, a: Hash, b: Hash)
    requires Inv(s) && a in s.issued && Path(s.rows, p, a, b)
    ensures SameChain(s.issued, a, b)
  {
    if |p| > 1 {
      assert Edge(s.rows, p[0], p[1]);
      assert WellPlaced(s.issued, if p[0] in s.rows && s.rows[p[0]].rotatedFrom == Some(p[1]) then p[0] else p[1]);
      SearchStays(s, p[1..], p[1], b);
    }
  }

  lemma ConnectedSymmetric(t: Table, a: Hash, b: Hash)
    requires Connected(t, a, b)
    ensures Connected(t, b, a)
  {
    var p :| Path(t, p, a, b);
    var n := |p|;
    var q := seq(n, i requires 0 <= i < n => p[n - 1 - i]);
    forall i | 0 <= i < n - 1 ensures Edge(t, q[i], q[i + 1]) {
      assert Edge(t, p[n - 2 - i], p[n - 2 - i + 1]);
    }
    assert Path(t, q, b, a);
  }

  /** From a stored token, the stored rows of its family are exactly the stored rows of its one chain. */
  lemma FamilyIsChain(s: State, h: Hash, k: Hash)
    requires Inv(s) && h in s.rows && k in s.rows
    ensures Connected(s.rows, h, k) <==> SameChain(s.issued, h, k)
  {
    if Connected(s.rows, h, k) {
      var p :| Path(s.rows, p, h, k);
      SearchStays(s, p, h, k);
    }
    if SameChain(s.issued, h, k) {
      if s.issued[h].index <= s.issued[k].index {
        ConnectedSelf(s.rows, h);
        SearchReaches(s, h, h, k);
      } else {
        ConnectedSelf(s.rows, k);
        SearchReaches(s, k, k, h);
        ConnectedSymmetric(s.rows, k, h);
      }
    }
  }

  // --- replay ---------------------------------------------------------------------------------

  /** A chain none of whose stored rows is live. */
  ghost predicate Dead(s: State, root: Hash) {
    forall h <- s.rows | h in s.issued && s.issued[h].root == root :: s.rows[h].revoked
  }

  /** A revoked or purged token never becomes live again. */
  lemma NeverRevives(s: State, step: Step, s': State, h: Hash)
    requires Inv(s) && Next(s, step, s') && h in s.issued && !Live(s.rows, h)
    ensures h in s'.issued && s'.issued[h] == s.issued[h] && !Live(s'.rows, h)
  {
    if Wins(s, step) {
      WinSpends(s, step, s');
    }
  }

  lemma {:induction false} NeverRevivesRun(ss: seq<State>, steps: seq<Step>, i: nat, j: nat, h: Hash)
    requires Run(ss, steps) && i <= j < |ss|
    requires h in ss[i].issued && !Live(ss[i].rows, h)
    ensures h in ss[j].issued && ss[j].issued[h] == ss[i].issued[h] && !Live(ss[j].rows, h)
    decreases j - i
  {
    if i < j {
      assert Next(ss[i], steps[i], ss[i + 1]);
      InvRun(ss, steps, i);
      NeverRevives(ss[i], steps[i], ss[i + 1], h);
      NeverRevivesRun(ss, steps, i + 1, j, h);
    }
  }

  lemma DeadStaysDead(s: State, step: Step, s': State, root: Hash)
    requires Inv(s) && Next(s, step, s') && root in s.issued && Dead(s, root)
    ensures root in s'.issued && Dead(s', root)
  {
    if Wins(s, step) {
      WinSpends(s, step, s');
      assert s.issued[WonToken(s, step)].root != root;
    }
  }

  lemma {:induction false} DeadStaysDeadRun(ss: seq<State>, steps: seq<Step>, i: nat, j: nat, root: Hash)
    requires Run(ss, steps) && i <= j < |ss|
    requires root in ss[i].issued && Dead(ss[i], root)
    ensures Dead(ss[j], root)
    decreases j - i
  {
    if i < j {
      assert Next(ss[i], steps[i], ss[i + 1]);
      InvRun(ss, steps, i);
      DeadStaysDead(ss[i], steps[i], ss[i + 1], root);
      DeadStaysDeadRun(ss, steps, i + 1, j, root);
    }
  }

  predicate ChildStored(s: State, h: Hash) {
    exists c <- s.rows :: s.rows[c].rotatedFrom == Some(h)
  }

  lemma SearchKills(s: State, start: Hash, a: Hash, h: Hash)
    requires Inv(s) && a in s.rows && SameChain(s.issued, start, a) && Connected(s.rows, start, a)
    requires s.issued[start].index <= s.issued[a].index <= s.issued[start].index + 1
    requires Live(s.rows, h) && SameChain(s.issued, start, h) && (Live(s.rows, start) ==> start == a)
    ensures Connected(s.rows, start, h)
  {
    LiveIsLast(s, h, a);
    SearchReaches(s, start, a, h);
  }

  /**
   * Family revocation kills a chain exactly when the chain is already dead, or the presented token's row or
   * its successor's row is still stored when the revocation runs. The read of the row and the revocation are
   * two statements, so a purge between them can take both rows away; then a live tail survives.
   */
  lemma RevocationKills(s: State, step: Step, s': State)
    requires Inv(s) && step.RevokeChain? && Next(s, step, s')
    requires s.redeemers[step.id].Hash() in s.issued
    ensures var h := s.redeemers[step.id].Hash();
            var root := s.issued[h].root;
            Dead(s', root) <==> Dead(s, root) || h in s.rows || ChildStored(s, h)
  {
    var h := s.redeemers[step.id].Hash();
    var root := s.issued[h].root;
    ConnectedSelf(s.rows, h);
    if h in s.rows || ChildStored(s, h) {
      forall k <- s'.rows | k in s'.issued && s'.issued[k].root == root ensures s'.rows[k].revoked {
        if Live(s.rows, k) {
          if h in s.rows {
            SearchKills(s, h, h, k);
          } else {
            var c :| c in s.rows && s.rows[c].rotatedFrom == Some(h);
            assert WellPlaced(s.issued, c);
            ConnectedStep(s.rows, h, h, c);
            SearchKills(s, h, c, k);
          }
        }
      }
    } else {
      forall k | Connected(s.rows, h, k) ensures k == h {
        var p :| Path(s.rows, p, h, k);
        ClosedHoldsFamily(s.rows, {h}, p, h, k);
      }
      assert s'.rows == s.rows;
    }
  }

  function RootOf(g: History, h: Hash): Hash { if h in g then g[h].root else h }

  /** Exactly when the revocation of `h` leaves its chain dead: its row or its successor's is stored, or it was dead. */
  ghost predicate InReach(s: State, h: Hash) { h in s.rows || ChildStored(s, h) || Dead(s, RootOf(s.issued, h)) }

  /**
   * Replay safety over whole runs: once a spent token is presented and its family revoked, its row or its
   * successor's still stored or its chain already dead, no redemption of any token of that chain ever wins
   * afterwards, under any interleaving. Where that condition fails the chain's tail stays live.
   */
  lemma ReplaySafety(ss: seq<State>, steps: seq<Step>, i: nat, j: nat)
    requires Run(ss, steps) && i < j < |steps|
    requires steps[i].RevokeChain? && steps[i].id in ss[i].redeemers
    requires InReach(ss[i], ss[i].redeemers[steps[i].id].Hash())
    requires Wins(ss[j], steps[j])
    ensures !SameChain(ss[j].issued, WonToken(ss[j], steps[j]), ss[i].redeemers[steps[i].id].Hash())
  {
    var h := ss[i].redeemers[steps[i].id].Hash();
    InvRun(ss, steps, i);
    InvRun(ss, steps, j);
    assert Next(ss[i], steps[i], ss[i + 1]) && Next(ss[j], steps[j], ss[j + 1]);
    assert InFlight(ss[i], ss[i].redeemers[steps[i].id]);
    var root := ss[i].issued[h].root;
    RootIssued(ss[i].issued, h);
    RevocationKills(ss[i], steps[i], ss[i + 1]);
    DeadStaysDeadRun(ss, steps, i + 1, j, root);
    NeverRevivesRun(ss, steps, i + 1, j, h);
  }

  /** Each refresh token wins at most one redemption, however many are in flight. */
  lemma SingleUse(ss: seq<State>, steps: seq<Step>, i: nat, j: nat)
    requires Run(ss, steps) && i < j < |steps|
    requires Wins(ss[i], steps[i]) && Wins(ss[j], steps[j])
    ensures WonToken(ss[i], steps[i]) != WonToken(ss[j], steps[j])
  {
    var h := WonToken(ss[i], steps[i]);
    assert Next(ss[i], steps[i], ss[i + 1]);
    InvRun(ss, steps, i);
    WinSpends(ss[i], steps[i], ss[i + 1]);
    NeverRevivesRun(ss, steps, i + 1, j, h);
  }

  // --- lineage ----------------------------------------------------------------------------------

  /** Along a chain of any length: same app, user and resource, scopes only shrink, expiry never decreases. */
  lemma {:induction false} Lineage(s: State, h: Hash, k: Hash)
    requires Inv(s) && SameChain(s.issued, h, k) && s.issued[h].index <= s.issued[k].index
    ensures Inherits(s.issued[h].row, s.issued[k].row)
    decreases s.issued[k].index
  {
    if s.issued[h].index < s.issued[k].index {
      assert WellPlaced(s.issued, k);
      var p := s.issued[k].row.rotatedFrom.value;
      assert SameChain(s.issued, h, p);
      Lineage(s, h, p);
    } else {
      assert h == k;
    }
  }

  /**
   * What a winning redemption answers and stores: the user and resource the chain was rooted with, the scopes it
   * asked for or else all those of the token it spends, and one new row for just these, the child of that token.
   */
  lemma WinnerAnswers(s: State, step: Step, s': State)
    requires Inv(s) && Wins(s, step) && Next(s, step, s')
    ensures var h := WonToken(s, step);
            var phase := s'.redeemers[step.id].phase;
            && phase.Finished? && phase.outcome.Redeemed?
            && h in s.issued && s.issued[h].root in s.issued
            && var origin := s.issued[s.issued[h].root].row;
            && phase.outcome.userId == origin.userId
            && phase.outcome.resource == origin.resource
            && s.redeemers[step.id].request.appId == origin.appId
            && (forall scope <- phase.outcome.scopes :: scope in ReadScopes(origin.scopes))
            && phase.outcome.scopes == GrantedScopes(s.redeemers[step.id].request, s.issued[h].row)
            && phase.outcome.newRefreshToken == step.newToken
            && Sha256(step.newToken) in s'.rows
            && s'.rows[Sha256(step.newToken)] == RefreshToken(
                 appId := origin.appId, userId := origin.userId, scopes := Join(phase.outcome.scopes),
                 resource := origin.resource, expiresAt := step.stampedAt + s.lifetime, rotatedFrom := Some(h),
                 revoked := false, createdAt := s.now)
  {
    var r := s.redeemers[step.id];
    assert InFlight(s, r);
    WinSpends(s, step, s');
    RootIssued(s.issued, r.Hash());
    RootHasIndexZero(s.issued, r.Hash());
    Lineage(s, s.issued[r.Hash()].root, r.Hash());
  }

  /** A root row as the `Issue` step that stored it asked for it. */
  ghost predicate RootOfStep(s: State, step: Step, h: Hash, issued: Issued) {
    && step.Issue? && Sha256(step.token) == h
    && issued.row == RefreshToken(
         appId := step.appId, userId := step.userId, scopes := Join(step.scopes), resource := step.resource,
         expiresAt := step.stampedAt + s.lifetime, rotatedFrom := None, revoked := false, createdAt := s.now)
  }

  /** A step keeps what was issued; a new row is the root it asks for, or the child of a winning redemption. */
  lemma IssuedNext(s: State, step: Step, s': State, h: Hash)
    requires Inv(s) && Next(s, step, s') && h in s'.issued
    ensures s'.lifetime == s.lifetime
    ensures if h in s.issued then s'.issued[h] == s.issued[h]
            else if s'.issued[h].index == 0 then RootOfStep(s, step, h, s'.issued[h])
            else Wins(s, step) && Sha256(step.newToken) == h
  {
    if Wins(s, step) {
      WinSpendsItsToken(s, step, s');
    }
  }

  lemma HistoryGrows(s: State, step: Step, s': State)
    requires Inv(s) && Next(s, step, s')
    ensures forall h <- s.issued :: h in s'.issued && s'.issued[h] == s.issued[h]
  {
    if Wins(s, step) {
      WinSpendsItsToken(s, step, s');
    }
  }

  /** Every root of a run was issued by one of its steps, with that step's app, user, scopes and resource. */
  lemma {:induction false} RootsIssueStep(ss: seq<State>, steps: seq<Step>, i: nat, h: Hash) returns (k: nat)
    requires Run(ss, steps) && i < |ss| && h in ss[i].issued && ss[i].issued[h].index == 0
    ensures k < i && RootOfStep(ss[k], steps[k], h, ss[i].issued[h])
  {
    assert i > 0;
    k := i - 1;
    assert Next(ss[k], steps[k], ss[k + 1]);
    InvRun(ss, steps, k);
    IssuedNext(ss[k], steps[k], ss[i], h);
    if h in ss[k].issued {
      k := RootsIssueStep(ss, steps, k, h);
    }
  }

  lemma {:induction false} RootHasIndexZero(g: History, h: Hash)
    requires ChainShape(g) && h in g
    ensures g[h].root in g && g[g[h].root].index == 0 && SameChain(g, g[h].root, h)
    decreases g[h].index
  {
    assert WellPlaced(g, h);
    if g[h].row.rotatedFrom.Some? {
      RootHasIndexZero(g, g[h].row.rotatedFrom.value);
    }
  }

  // --- counting -------------------------------------------------------------------------------

  ghost function LiveRows(s: State): set<Hash> { set h | h in s.rows && Live(s.rows, h) }

  ghost function Roots(g: History): set<Hash> { set h | h in g && g[h].index == 0 }

  lemma OneMoreKey<K, V>(m: map<K, V>, k: K, v: V)
    requires k !in m
    ensures |m[k := v]| == |m| + 1
  {
    assert m[k := v].Keys == m.Keys + {k};
    assert |m[k := v]| == |m[k := v].Keys| && |m| == |m.Keys|;
  }

  /** One more issued row: a root exactly when its index is zero. */
  lemma RootsAfterIssue(g: History, n: Hash, issued: Issued)
    requires n !in g
    ensures |g[n := issued]| == |g| + 1
    ensures Roots(g[n := issued]) == Roots(g) + if issued.index == 0 then {n} else {}
    ensures |Roots(g[n := issued])| == |Roots(g)| + if issued.index == 0 then 1 else 0
  {
    OneMoreKey(g, n, issued);
    assert n !in Roots(g);
    assert Roots(g[n := issued]) == if issued.index == 0 then Roots(g) + {n} else Roots(g);
  }

  /** The token a redemption wins was issued, and is spent afterwards. */
  lemma WinSpendsItsToken(s: State, step: Step, s': State)
    requires Inv(s) && Wins(s, step) && Next(s, step, s')
    ensures Spends(s, step.id, WonToken(s, step), Sha256(step.newToken), s')
    ensures WonToken(s, step) in s'.issued && !Live(s'.rows, WonToken(s, step))
  {
    assert InFlight(s, s.redeemers[step.id]);
    WinSpends(s, step, s');
  }

  /** A winning redemption adds one row, which is no root; every other step but an issue adds none. */
  lemma RotationAddsOneRow(s: State, step: Step, s': State)
    requires Inv(s) && Next(s, step, s') && !step.Issue?
    ensures |s'.issued| == |s.issued| + if Wins(s, step) then 1 else 0
    ensures Roots(s'.issued) == Roots(s.issued)
    ensures Wins(s, step) ==> Live(s.rows, WonToken(s, step))
  {
    if Wins(s, step) {
      var n := Sha256(step.newToken);
      WinSpendsItsToken(s, step, s');
      RootsAfterIssue(s.issued, n, s'.issued[n]);
    }
  }

  /** Live rows never outnumber the chains ever started. */
  lemma LiveRowsBounded(s: State)
    requires Inv(s)
    ensures |LiveRows(s)| <= |Roots(s.issued)|
  {
    var roots := set h | h in LiveRows(s) :: s.issued[h].root;
    forall r <- roots ensures r in Roots(s.issued) {
      var h :| h in LiveRows(s) && r == s.issued[h].root;
      RootHasIndexZero(s.issued, h);
    }
    SubsetSize(roots, Roots(s.issued));
    RootsInject(s, LiveRows(s));
  }

  lemma {:induction false} RootsInject(s: State, live: set<Hash>)
    requires Inv(s) && live <= LiveRows(s)
    ensures |set h | h in live :: s.issued[h].root| == |live|
    decreases |live|
  {
    if live != {} {
      var h :| h in live;
      var rest := live - {h};
      RootsInject(s, rest);
      var roots := set k | k in rest :: s.issued[k].root;
      forall k <- rest ensures s.issued[k].root != s.issued[h].root {
        if SameChain(s.issued, h, k) {
          LiveIsLast(s, h, k);
        }
      }
      assert (set k | k in live :: s.issued[k].root) == roots + {s.issued[h].root};
    }
  }

  // --- the machine implements the service -------------------------------------------------------

  lemma RotateStep(s: State, id: nat, newToken: string) returns (s': State)
    requires id in s.redeemers && s.redeemers[id].phase.Rotating? && s.redeemers[id].phase.checkedAt == s.now
    requires Live(s.rows, s.redeemers[id].Hash()) && s.redeemers[id].Hash() in s.issued
    requires Fresh(s, newToken) && Sha256(newToken) !in s.rows
    ensures Next(s, RotateRow(id, newToken, s.now), s')
    ensures var p := s.redeemers[id].phase;
            var child := Replacement(p.row, newToken, p.scopes, s.now + s.lifetime);
            && Rotate(s.rows, s.redeemers[id].Hash(), child, s.now) == Rotated(s'.rows)
            && s'.now == s.now
            && s'.redeemers == MoveTo(s, id, Finished(Redeemed(p.row.userId, p.scopes, p.row.resource, newToken)))
  {
    var p := s.redeemers[id].phase;
    var h := s.redeemers[id].Hash();
    var child := Replacement(p.row, newToken, p.scopes, s.now + s.lifetime);
    s' := s.(
      rows := Rotate(s.rows, h, child, s.now).table,
      redeemers := MoveTo(s, id, Finished(Redeemed(p.row.userId, p.scopes, p.row.resource, newToken))),
      issued := s.issued[Sha256(newToken) := Issued(
        s.issued[h].root, s.issued[h].index + 1, RowOf(child.(rotatedFrom := Some(h)), s.now))]);
  }

  /** The steps that finish a redemption once its row has been read. */
  lemma FinishRedemption(s: State, id: nat, newToken: string) returns (ss: seq<State>, steps: seq<Step>)
    requires id in s.redeemers && Fresh(s, newToken) && Sha256(newToken) !in s.rows
    requires s.redeemers[id].Hash() in s.issued
    requires s.redeemers[id].phase == AfterRead(s.rows, s.redeemers[id].Hash())
    ensures Behaviour(ss, steps) && ss[0] == s
    ensures var r := s.redeemers[id];
            var (outcome, t) := Redeem(s.rows, r.request, newToken, s.lifetime, Readings(s.now, s.now, s.now));
            var last := ss[|ss| - 1];
            && last.rows == t && last.now == s.now
            && last.redeemers == s.redeemers[id := Redeemer(r.request, Finished(outcome))]
  {
    var r := s.redeemers[id];
    ss, steps := [s], [];
    if r.phase.Replaying? {
      var s1 := s.(rows := FamilyRevoked(s.rows, r.Hash()), redeemers := MoveTo(s, id, Finished(Rejected(Reused))));
      ss, steps := [s, s1], [RevokeChain(id)];
    } else if r.phase.Holding? {
      var s1 := s.(redeemers := MoveTo(s, id, AfterCheck(r.phase.row, r.request, s.now)));
      assert Next(s, CheckRow(id), s1);
      if s1.redeemers[id].phase.Rotating? {
        var s2 := RotateStep(s1, id, newToken);
        ss, steps := [s, s1, s2], [CheckRow(id), RotateRow(id, newToken, s1.now)];
      } else {
        ss, steps := [s, s1], [CheckRow(id)];
      }
    }
  }

  predicate Unpurged(steps: seq<Step>) { forall step <- steps :: !step.Purge? }

  /** A redemption is presented and reads its row. */
  lemma ReadRedemption(s: State, id: nat, request: Request) returns (ss: seq<State>, steps: seq<Step>)
    requires Inv(s) && id !in s.redeemers
    ensures Behaviour(ss, steps) && ss[0] == s && Unpurged(steps)
    ensures ss[|ss| - 1] == s.(redeemers := s.redeemers[
              id := Redeemer(request, AfterRead(s.rows, Sha256(request.token)))])
  {
    var h := Sha256(request.token);
    var s1 := s.(redeemers := s.redeemers[id := Redeemer(request, Presented)]);
    var s2 := s1.(redeemers := MoveTo(s1, id, AfterRead(s.rows, h)));
    assert Next(s, Present(id, request), s1) && Next(s1, Read(id), s2);
    ss, steps := [s, s1, s2], [Present(id, request), Read(id)];
    assert s2.redeemers == s.redeemers[id := Redeemer(request, AfterRead(s.rows, h))];
  }

  /**
   * Run without interference, the machine's steps are the service's redemption: from any reachable state
   * they answer and store exactly what `Redeem` says for that table.
   */
  lemma UninterruptedRedemption(s: State, id: nat, request: Request, newToken: string)
    returns (ss: seq<State>, steps: seq<Step>)
    requires Inv(s) && id !in s.redeemers && Fresh(s, newToken)
    ensures Behaviour(ss, steps) && ss[0] == s
    ensures var (outcome, t) := Redeem(s.rows, request, newToken, s.lifetime, Readings(s.now, s.now, s.now));
            var last := ss[|ss| - 1];
            && last.rows == t && last.now == s.now
            && last.redeemers == s.redeemers[id := Redeemer(request, Finished(outcome))]
  {
    ss, steps := ReadRedemption(s, id, request);
    if Sha256(request.token) in s.rows {
      var tail, more := FinishRedemption(ss[|ss| - 1], id, newToken);
      Append(ss, steps, tail, more);
      ss, steps := ss + tail[1..], steps + more;
    }
  }

  lemma Append(ss: seq<State>, steps: seq<Step>, tail: seq<State>, more: seq<Step>)
    requires Behaviour(ss, steps) && Behaviour(tail, more) && ss[|ss| - 1] == tail[0]
    ensures Behaviour(ss + tail[1..], steps + more)
  {
    var all, allSteps := ss + tail[1..], steps + more;
    forall i | 0 <= i < |allSteps| ensures Next(all[i], allSteps[i], all[i + 1]) {
      if i >= |steps| {
        assert all[i] == tail[i - |steps|] && all[i + 1] == tail[i - |steps| + 1];
      }
    }
  }

  // --- the one race family revocation loses ------------------------------------------------------

  /** A row of the race below: all its rows live for ten seconds and differ only in what is given. */
  function RaceRow(expiresAt: int, parent: Option<Hash>, revoked: bool): RefreshToken {
    RefreshToken("app", "user", "", None, expiresAt, parent, revoked, expiresAt - 10)
  }

  /** A request for a live root of the race, up to the decision to rotate it. */
  lemma AllowedInRace(s: State, id: nat, token: string) returns (ss: seq<State>, steps: seq<Step>)
    requires id !in s.redeemers && Sha256(token) in s.rows && s.now < 10
    requires exists parent :: s.rows[Sha256(token)] == RaceRow(10, parent, false)
    ensures Behaviour(ss, steps) && ss[0] == s && Unpurged(steps)
    ensures ss[|ss| - 1] == s.(redeemers := s.redeemers[id := Redeemer(
              Request(token, "app", None), Rotating(s.rows[Sha256(token)], [], s.now))])
  {
    var request, row := Request(token, "app", None), s.rows[Sha256(token)];
    var s1 := s.(redeemers := s.redeemers[id := Redeemer(request, Presented)]);
    var s2 := s1.(redeemers := MoveTo(s1, id, Holding(row)));
    var s3 := s2.(redeemers := MoveTo(s2, id, Rotating(row, [], s.now)));
    assert Check(row, request, s.now) == Allow([]);
    ss, steps := [s, s1, s2, s3], [Present(id, request), Read(id), CheckRow(id)];
    assert Next(s, steps[0], s1) && Next(s1, steps[1], s2) && Next(s2, steps[2], s3);
    assert s3.redeemers == s.redeemers[id := Redeemer(request, Rotating(row, [], s.now))];
  }

  lemma RotateInRace(s: State, id: nat, token: string, newToken: string, parent: Option<Hash>)
    returns (ss: seq<State>, steps: seq<Step>)
    requires s.lifetime == 10 && id !in s.redeemers && Fresh(s, newToken) && Sha256(newToken) !in s.rows
    requires Sha256(token) in s.issued && Sha256(token) in s.rows
    requires s.rows[Sha256(token)] == RaceRow(10, parent, false) && s.now < 10
    ensures Behaviour(ss, steps) && ss[0] == s && Unpurged(steps)
    ensures var last, h := ss[|ss| - 1], Sha256(token);
            && last.rows == s.rows[h := RaceRow(10, parent, true)][
                              Sha256(newToken) := RaceRow(s.now + 10, Some(h), false)]
            && last.issued.Keys == s.issued.Keys + {Sha256(newToken)}
            && last.redeemers.Keys == s.redeemers.Keys + {id}
            && last.now == s.now && last.lifetime == 10
  {
    ss, steps := AllowedInRace(s, id, token);
    var s3 := ss[|ss| - 1];
    var s4 := RotateStep(s3, id, newToken);
    var rotate := RotateRow(id, newToken, s.now);
    Append(ss, steps, [s3, s4], [rotate]);
    assert [s3, s4][1..] == [s4];
    ss, steps := ss + [s4], steps + [rotate];
  }

  lemma Then(ss: seq<State>, steps: seq<Step>, step: Step, s': State)
    requires Run(ss, steps) && Next(ss[|ss| - 1], step, s')
    ensures Run(ss + [s'], steps + [step])
  {
    Append(ss, steps, [ss[|ss| - 1], s'], [step]);
    assert [ss[|ss| - 1], s'][1..] == [s'];
  }

  /** A row of token a is issued, and rotated to b. */
  lemma FirstRotation() returns (ss: seq<State>, steps: seq<Step>)
    ensures Run(ss, steps) && Unpurged(steps)
    ensures var a, b := Sha256("a"), Sha256("b");
            var last := ss[|ss| - 1];
            && last.rows == map[a := RaceRow(10, None, true), b := RaceRow(10, Some(a), false)]
            && last.issued.Keys == {a, b} && last.redeemers.Keys == {0} && last.now == 0 && last.lifetime == 10
  {
    var a := Sha256("a");
    var init := State(10, 0, map[], map[], map[]);
    var issue := Issue("a", "app", "user", [], None, 0);
    var s1 := init.(rows := map[a := RaceRow(10, None, false)],
                    issued := map[a := Issued(a, 0, RaceRow(10, None, false))]);
    assert Run([init], []) && Next(init, issue, s1);
    Then([init], [], issue, s1);
    var tail, more := RotateInRace(s1, 0, "a", "b", None);
    Append([init] + [s1], [] + [issue], tail, more);
    ss, steps := [init] + [s1] + tail[1..], [] + [issue] + more;
    assert ss[|ss| - 1] == tail[|tail| - 1];
  }

  /** Two rotations, a to b and later b to c: both old rows are spent and expire before the tail. */
  lemma RaceSetup() returns (ss: seq<State>, steps: seq<Step>)
    ensures Run(ss, steps) && Unpurged(steps)
    ensures var a, b, c := Sha256("a"), Sha256("b"), Sha256("c");
            var last := ss[|ss| - 1];
            && last.rows == map[a := RaceRow(10, None, true), b := RaceRow(10, Some(a), true),
                                c := RaceRow(15, Some(b), false)]
            && 2 !in last.redeemers && last.now == 5
  {
    ss, steps := FirstRotation();
    var s3 := ss[|ss| - 1].(now := 5);
    Then(ss, steps, Tick(5), s3);
    ss, steps := ss + [s3], steps + [Tick(5)];
    var tail, more := RotateInRace(s3, 1, "b", "c", Some(Sha256("a")));
    Append(ss, steps, tail, more);
    ss, steps := ss + tail[1..], steps + more;
    assert ss[|ss| - 1] == tail[|tail| - 1];
  }

  lemma RaceChain(s: State)
    requires Inv(s)
    requires var a, b, c := Sha256("a"), Sha256("b"), Sha256("c");
             s.rows == map[a := RaceRow(10, None, true), b := RaceRow(10, Some(a), true),
                           c := RaceRow(15, Some(b), false)]
    ensures SameChain(s.issued, Sha256("a"), Sha256("c"))
  {
    var a, b, c := Sha256("a"), Sha256("b"), Sha256("c");
    assert a in s.rows && b in s.rows && c in s.rows;
    assert WellPlaced(s.issued, c) && WellPlaced(s.issued, b);
  }

  /** Every purge removes what has expired by the clock, no more. */
  ghost predicate PurgesByTheClock(ss: seq<State>, steps: seq<Step>)
    requires |ss| == |steps| + 1
  {
    forall i | 0 <= i < |steps| :: steps[i].Purge? ==> steps[i].cutoff == ss[i].now
  }

  /** A replay of the spent root has been read. */
  lemma RaceUpToRead() returns (ss: seq<State>, steps: seq<Step>)
    ensures Run(ss, steps) && Unpurged(steps)
    ensures var a, b, c := Sha256("a"), Sha256("b"), Sha256("c");
            var last := ss[|ss| - 1];
            && last.rows == map[a := RaceRow(10, None, true), b := RaceRow(10, Some(a), true),
                                c := RaceRow(15, Some(b), false)]
            && SameChain(last.issued, a, c) && last.now == 5
            && 2 in last.redeemers && last.redeemers[2] == Redeemer(Request("a", "app", None), Replaying)
  {
    ss, steps := RaceSetup();
    var s4 := ss[|ss| - 1];
    InvRun(ss, steps, |ss| - 1);
    RaceChain(s4);
    var tail, more := ReadRedemption(s4, 2, Request("a", "app", None));
    Append(ss, steps, tail, more);
    ss, steps := ss + tail[1..], steps + more;
    assert ss[|ss| - 1] == tail[|tail| - 1];
  }

  /** Once a and b have expired, a purge takes both rows. */
  lemma RaceUpToPurge() returns (ss: seq<State>, steps: seq<Step>)
    ensures Run(ss, steps) && PurgesByTheClock(ss, steps)
    ensures var last := ss[|ss| - 1];
            && last.rows == map[Sha256("c") := RaceRow(15, Some(Sha256("b")), false)]
            && SameChain(last.issued, Sha256("a"), Sha256("c"))
            && 2 in last.redeemers && last.redeemers[2] == Redeemer(Request("a", "app", None), Replaying)
  {
    ss, steps := RaceUpToRead();
    var late := ss[|ss| - 1].(now := 12);
    Then(ss, steps, Tick(7), late);
    ss, steps := ss + [late], steps + [Tick(7)];
    var purged := late.(rows := DeleteExpired(late.rows, late.now));
    Then(ss, steps, Purge(late.now), purged);
    ss, steps := ss + [purged], steps + [Purge(late.now)];
  }

  /**
   * A replay that revokes nothing: between the read that finds the token spent and the revocation, a purge
   * takes the token's row and its successor's, and the chain's tail stays live.
   */
  lemma ReplayRace() returns (ss: seq<State>, steps: seq<Step>)
    ensures Run(ss, steps) && |steps| >= 1 && PurgesByTheClock(ss, steps)
    ensures var last := steps[|steps| - 1];
            var before, after := ss[|ss| - 2], ss[|ss| - 1];
            && last.RevokeChain? && last.id in before.redeemers
            && before.redeemers[last.id].request.token == "a"
            && SameChain(after.issued, Sha256("a"), Sha256("c")) && Live(after.rows, Sha256("c"))
  {
    var a, c := Sha256("a"), Sha256("c");
    ss, steps := RaceUpToPurge();
    var s7 := ss[|ss| - 1];
    InvRun(ss, steps, |ss| - 1);
    var s8 := s7.(rows := FamilyRevoked(s7.rows, a), redeemers := MoveTo(s7, 2, Finished(Rejected(Reused))));
    Then(ss, steps, RevokeChain(2), s8);
    ss, steps := ss + [s8], steps + [RevokeChain(2)];
    RevocationKills(s7, RevokeChain(2), s8);
    assert Live(s7.rows, c);
  }
}
