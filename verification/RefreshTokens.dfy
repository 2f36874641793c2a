/** The `refresh_tokens` table: its statements as functions, the repository over it, and the family search. */
module RefreshTokens {
  import opened Text
  import opened Hashing

  datatype RefreshToken = RefreshToken(
    appId: string,
    userId: string,
    scopes: string,
    resource: Option<string>,
    expiresAt: int,
    rotatedFrom: Option<Hash>,
    revoked: bool,
    createdAt: int)

  datatype NewRefreshToken = NewRefreshToken(
    token: string,
    appId: string,
    userId: string,
    scopes: string,
    resource: Option<string>,
    expiresAt: int,
    rotatedFrom: Option<Hash>)

  /** The table, keyed by its primary key, the token hash. */
  type Table = map<Hash, RefreshToken>

  predicate Live(t: Table, h: Hash) { h in t && !t[h].revoked }

  function RowOf(input: NewRefreshToken, now: int): RefreshToken {
    RefreshToken(input.appId, input.userId, input.scopes, input.resource, input.expiresAt,
                 input.rotatedFrom, false, now)
  }

  /** `INSERT`: raises (None) on a primary-key conflict. */
  function Insert(t: Table, input: NewRefreshToken, now: int): Option<Table> {
    var h := Sha256(input.token);
    if h in t then None else Some(t[h := RowOf(input, now)])
  }

  /** `UPDATE ... SET revoked = 1 WHERE token = ? AND revoked = 0`. */
  function Revoke(t: Table, h: Hash): Table {
    if Live(t, h) then t[h := t[h].(revoked := true)] else t
  }

  /** How a rotation ends: a compare-and-set that lost, a rolled-back conflict, or the new table. */
  datatype Rotation = Refused | Raised | Rotated(table: Table)

  /** The `rotate` transaction. */
  function Rotate(t: Table, spent: Hash, replacement: NewRefreshToken, now: int): Rotation {
    if !Live(t, spent) then Refused
    else
      match Insert(Revoke(t, spent), replacement.(rotatedFrom := Some(spent)), now)
      case None => Raised
      case Some(t') => Rotated(t')
  }

  /**
   * Rotation succeeds exactly on a live row and a new hash; it spends the one and stores the other as its child,
   * and touches nothing else.
   */
  lemma RotateMeans(t: Table, spent: Hash, replacement: NewRefreshToken, now: int)
    ensures var n := Sha256(replacement.token);
            && (Rotate(t, spent, replacement, now).Refused? <==> !Live(t, spent))
            && (Rotate(t, spent, replacement, now).Raised? <==> Live(t, spent) && n in t)
            && (Live(t, spent) && n !in t ==>
                  Rotate(t, spent, replacement, now) == Rotated(t[spent := t[spent].(revoked := true)][
                    n := RefreshToken(
                      appId := replacement.appId, userId := replacement.userId, scopes := replacement.scopes,
                      resource := replacement.resource, expiresAt := replacement.expiresAt,
                      rotatedFrom := Some(spent), revoked := false, createdAt := now)]))
  {}

  /** `DELETE ... WHERE expires_at <= ?`. */
  function DeleteExpired(t: Table, cutoff: int): Table {
    map h | h in t && t[h].expiresAt > cutoff :: t[h]
  }

  // --- the rotation graph -----------------------------------------------------------------

  /** A stored row and its `rotated_from`, in either direction; the parent's own row may be gone. */
  predicate Edge(t: Table, a: Hash, b: Hash) {
    || (a in t && t[a].rotatedFrom == Some(b))
    || (b in t && t[b].rotatedFrom == Some(a))
  }

  ghost predicate Path(t: Table, p: seq<Hash>, a: Hash, b: Hash) {
    && |p| >= 1 && p[0] == a && p[|p| - 1] == b
    && forall i | 0 <= i < |p| - 1 :: Edge(t, p[i], p[i + 1])
  }

  /** `b` is in the connected component of `a`: the family of `a`. */
  ghost predicate Connected(t: Table, a: Hash, b: Hash) {
    exists p :: Path(t, p, a, b)
  }

  /** The table after revoking a family: its rows revoked, every other row as it was. */
  ghost function FamilyRevoked(t: Table, start: Hash): Table {
    map h | h in t :: if Connected(t, start, h) then t[h].(revoked := true) else t[h]
  }

  ghost function LiveFamily(t: Table, start: Hash): set<Hash> {
    set h | h in t && Live(t, h) && Connected(t, start, h)
  }

  lemma ConnectedSelf(t: Table, a: Hash)
    ensures Connected(t, a, a)
  {
    assert Path(t, [a], a, a);
  }

  lemma ConnectedStep(t: Table, a: Hash, b: Hash, c: Hash)
    requires Connected(t, a, b) && Edge(t, b, c)
    ensures Connected(t, a, c)
  {
    var p :| Path(t, p, a, b);
    assert Path(t, p + [c], a, c);
  }

  /** A set closed under edges holds the whole family of each of its members. */
  lemma {:induction false} ClosedHoldsFamily(t: Table, s: set<Hash>, p: seq<Hash>, a: Hash, b: Hash)
    requires forall x, y | x in s && Edge(t, x, y) :: y in s
    requires a in s && Path(t, p, a, b)
    ensures b in s
  {
    if |p| > 1 {
      assert Edge(t, p[0], p[1]);
      ClosedHoldsFamily(t, s, p[1..], p[1], b);
    }
  }

  /** Every hash a search can meet. */
  ghost function Mentioned(t: Table): set<Hash> {
    t.Keys + set h | h in t && t[h].rotatedFrom.Some? :: t[h].rotatedFrom.value
  }

  /**
   * The search of `revokeFamily`: depth first over parents and children. It terminates on every table, and
   * what it has seen is exactly the connected component of `start`.
   */
  method CollectFamily(t: Table, start: Hash) returns (seen: set<Hash>)
    ensures forall h :: h in seen <==> Connected(t, start, h)
  {
    ConnectedSelf(t, start);
    seen := {};
    var queue := [start];
    while queue != []
      invariant seen <= Mentioned(t) + {start}
      invariant forall h <- queue :: h in Mentioned(t) + {start}
      invariant start in seen || start in queue
      invariant forall h | h in seen || h in queue :: Connected(t, start, h)
      invariant forall x, y | x in seen && Edge(t, x, y) :: y in seen || y in queue
      decreases Mentioned(t) + {start} - seen, |queue|
    {
      var hash := queue[|queue| - 1];
      ghost var before := queue;
      queue := queue[..|queue| - 1];
      assert forall h <- before :: h in queue || h == hash;
      if hash !in seen {
        seen := seen + {hash};
        if hash in t && t[hash].rotatedFrom.Some? {
          var parent := t[hash].rotatedFrom.value;
          ConnectedStep(t, start, hash, parent);
          if parent !in seen {
            queue := queue + [parent];
          }
        }
        queue := PushChildren(t, start, hash, seen, queue);
      }
    }
    forall h | Connected(t, start, h) ensures h in seen {
      var p :| Path(t, p, start, h);
      ClosedHoldsFamily(t, seen, p, start, h);
    }
  }

  /** The inner loop: push each unseen child of `hash`, in whatever order the rows come back. */
  method PushChildren(t: Table, ghost start: Hash, hash: Hash, seen: set<Hash>, queue: seq<Hash>)
    returns (pushed: seq<Hash>)
    requires Connected(t, start, hash)
    requires forall h <- queue :: h in Mentioned(t) + {start} && Connected(t, start, h)
    ensures forall h <- pushed :: h in Mentioned(t) + {start} && Connected(t, start, h)
    ensures forall h <- queue :: h in pushed
    ensures forall h | h in t && t[h].rotatedFrom == Some(hash) :: h in seen || h in pushed
  {
    pushed := queue;
    var children := set h | h in t && t[h].rotatedFrom == Some(hash);
    while children != {}
      invariant forall h <- children :: h in t && t[h].rotatedFrom == Some(hash)
      invariant forall h <- queue :: h in pushed
      invariant forall h <- pushed :: h in Mentioned(t) + {start} && Connected(t, start, h)
      invariant forall h | h in t && t[h].rotatedFrom == Some(hash) :: h in children || h in seen || h in pushed
      decreases children
    {
      var child :| child in children;
      children := children - {child};
      ConnectedStep(t, start, hash, child);
      if child !in seen {
        pushed := pushed + [child];
      }
    }
  }

  // --- revoking a set of hashes -----------------------------------------------------------

  function RevokedAll(t: Table, hashes: set<Hash>): Table {
    map h | h in t :: if h in hashes then t[h].(revoked := true) else t[h]
  }

  function LiveIn(t: Table, hashes: set<Hash>): set<Hash> { set h | h in hashes && Live(t, h) }

  /** Revoking one more hash changes the table, and the count, exactly when its row was still live. */
  lemma RevokeOneMore(t: Table, done: set<Hash>, h: Hash)
    requires h !in done
    ensures Revoke(RevokedAll(t, done), h) == RevokedAll(t, done + {h})
    ensures Live(RevokedAll(t, done), h) <==> Live(t, h)
    ensures |LiveIn(t, done + {h})| == |LiveIn(t, done)| + if Live(t, h) then 1 else 0
  {
    assert LiveIn(t, done + {h}) == LiveIn(t, done) + if Live(t, h) then {h} else {};
  }

  // --- the repository ---------------------------------------------------------------------

  class RefreshTokensRepository {
    var rows: Table

    constructor ()
      ensures rows == map[]
    {
      rows := map[];
    }

    method InsertRow(input: NewRefreshToken, now: int) returns (inserted: Option<RefreshToken>)
      modifies this
      ensures inserted.Some? <==> Sha256(input.token) !in old(rows)
      ensures inserted.Some? ==>
                inserted.value == RefreshToken(
                  appId := input.appId, userId := input.userId, scopes := input.scopes, resource := input.resource,
                  expiresAt := input.expiresAt, rotatedFrom := input.rotatedFrom, revoked := false, createdAt := now)
      ensures rows == if inserted.Some? then old(rows)[Sha256(input.token) := inserted.value] else old(rows)
      ensures Insert(old(rows), input, now) == if inserted.Some? then Some(rows) else None
    {
      var h := Sha256(input.token);
      if h in rows {
        return None;
      }
      rows := rows[h := RowOf(input, now)];
      inserted := Some(rows[h]);
    }

    method GetByHash(h: Hash) returns (row: Option<RefreshToken>)
      ensures row == if h in rows then Some(rows[h]) else None
    {
      if h in rows {
        row := Some(rows[h]);
      } else {
        row := None;
      }
    }

    /** Returns true when a row moved to revoked. */
    method MarkRevoked(h: Hash) returns (changed: bool)
      modifies this
      ensures rows == Revoke(old(rows), h)
      ensures changed == Live(old(rows), h)
    {
      changed := h in rows && !rows[h].revoked;
      if changed {
        rows := rows[h := rows[h].(revoked := true)];
      }
    }

    /** Compare-and-set on `revoked`, then the chained insert; a conflict rolls both back. */
    method RotateRow(spent: Hash, replacement: NewRefreshToken, now: int) returns (r: Rotation)
      modifies this
      ensures r == Rotate(old(rows), spent, replacement, now)
      ensures rows == if r.Rotated? then r.table else old(rows)
    {
      var snapshot := rows;
      var revoked := MarkRevoked(spent);
      if !revoked {
        return Refused;
      }
      var inserted := InsertRow(replacement.(rotatedFrom := Some(spent)), now);
      if inserted.None? {
        rows := snapshot;
        return Raised;
      }
      r := Rotated(rows);
    }

    /** Revokes every row of `seen` and counts those that were live. */
    method RevokeEach(seen: set<Hash>) returns (revoked: nat)
      modifies this
      ensures rows == RevokedAll(old(rows), seen)
      ensures revoked == |LiveIn(old(rows), seen)|
    {
      ghost var t := rows;
      var todo := seen;
      revoked := 0;
      while todo != {}
        invariant todo <= seen
        invariant rows == RevokedAll(t, seen - todo)
        invariant revoked == |LiveIn(t, seen - todo)|
        decreases todo
      {
        var h :| h in todo;
        RevokeOneMore(t, seen - todo, h);
        var changed := MarkRevoked(h);
        assert seen - (todo - {h}) == seen - todo + {h};
        todo := todo - {h};
        if changed {
          revoked := revoked + 1;
        }
      }
      assert seen - todo == seen;
    }

    /** Revokes exactly the family of `start` and counts the rows that were live before. */
    method RevokeFamily(start: Hash) returns (revoked: nat)
      modifies this
      ensures rows == FamilyRevoked(old(rows), start)
      ensures revoked == |LiveFamily(old(rows), start)|
    {
      var seen := CollectFamily(rows, start);
      assert LiveIn(rows, seen) == LiveFamily(rows, start);
      revoked := RevokeEach(seen);
    }

    /** Removes exactly the rows whose expiry is not after the cutoff, and counts them. */
    method DeleteExpiredRows(cutoff: int) returns (deleted: nat)
      modifies this
      ensures forall h :: h in rows <==> h in old(rows) && old(rows)[h].expiresAt > cutoff
      ensures forall h <- rows :: rows[h] == old(rows)[h]
      ensures rows == DeleteExpired(old(rows), cutoff)
      ensures deleted == |old(rows)| - |rows|
    {
      var expired := set h | h in rows && rows[h].expiresAt <= cutoff;
      deleted := |expired|;
      rows := rows - expired;
      assert old(rows).Keys == rows.Keys + expired;
      assert |old(rows).Keys| == |rows.Keys| + |expired|;
    }
  }

  lemma {:induction false} SubsetSize<T>(a: set<T>, b: set<T>)
    requires a <= b
    ensures |a| <= |b|
  {
    assert b == a + (b - a);
  }
}
