/** Which tokens a step revokes, read off the rows of the tables. */
module GrantRevocation {
  import opened Options
  import opened GrantStore
  import opened TokenFamilies
  import opened GrantInvariant
  import opened Grants
  import opened GrantSafety
  import opened GrantTheorems

  /** The step is to revoke the stored token: it rotates or names it, the token
      belongs to the user and client of a reused token or of a logout, or to the
      device that is revoked. */
  predicate Targets(s: State, e: Event, t: Name)
    requires t in s.db.tokens
  {
    var row := s.db.tokens[t];
    match e
    case Start(_, _) => false
    case Advance(r, a) => r in s.requests && !a.dbError && TargetedBy(s.db, s.requests[r], t, row)
    case Outside(c) => TargetedFrom(s.db, c, t, row)
  }

  predicate TargetedBy(db: Db, q: Request, t: Name, row: RefreshToken) {
    || (q.RefreshRotate? && q.id == t
        && (q.replacement.Some? ==> q.replacement.value.id != NONE && q.replacement.value.id !in db.tokens))
    || (q.RefreshReuse? && q.id in db.tokens && row.user == db.tokens[q.id].user && row.client == db.tokens[q.id].client)
  }

  predicate TargetedFrom(db: Db, c: Change, t: Name, row: RefreshToken) {
    match c
    case RevokeToken(id) => id == t
    case Logout(user, client) => row.user == user && row.client == client
    case DeviceRevoked(d) => row.device == d && d in db.devices && db.devices[d].status != Revoked
    case _ => false
  }

  /** The row of a stored token, revoked or left alone. */
  predicate RowMoves(before: Table, after: Table, t: Name, revokes: bool)
    requires t in before
  {
    t in after && after[t] == before[t].(revoked := before[t].revoked || revokes)
  }

  lemma RotationMoves(db: Db, q: Request, a: Arg, t: Name)
    requires q.RefreshRotate? && t in db.tokens
    ensures RowMoves(db.tokens, ExecRefresh(db, q, a).db.tokens, t, TargetedBy(db, q, t, db.tokens[t]))
  {
    hide RevokeForUserClient;
  }

  lemma RefreshMoves(db: Db, q: Request, a: Arg, t: Name)
    requires q.RefreshLookup? || q.RefreshUser? || q.RefreshDevice? || q.RefreshReuse?
    requires RequestOk(db, q) && t in db.tokens
    ensures RowMoves(db.tokens, ExecRefresh(db, q, a).db.tokens, t, TargetedBy(db, q, t, db.tokens[t]))
  {
    hide RotateRefreshToken, ReplacementFor, IsActive;
  }

  lemma CodeMoves(db: Db, q: Request, a: Arg, t: Name)
    requires (q.CodeConsume? || q.CodeUser? || q.CodeIssue?) && t in db.tokens
    ensures RowMoves(db.tokens, ExecCode(db, q, a).db.tokens, t, false)
  {
  }

  lemma PollMoves(db: Db, q: Request, a: Arg, t: Name)
    requires (q.PollLookup? || q.PollMark? || q.PollDevice? || q.PollUser? || q.PollConsume? || q.PollIssue?) && t in db.tokens
    ensures RowMoves(db.tokens, ExecPoll(db, q, a).db.tokens, t, false)
  {
    hide IsActive, PolledTooSoon;
  }

  lemma ConfirmMoves(db: Db, q: Request, a: Arg, t: Name)
    requires (q.ConfirmLookup? || q.ConfirmDevice? || q.ConfirmDecide?) && t in db.tokens
    ensures RowMoves(db.tokens, ExecConfirm(db, q, a).db.tokens, t, false)
  {
  }

  lemma ExchangeMoves(db: Db, q: Request, t: Name)
    requires (q.ExchangeDevice? || q.ExchangeToken? || q.ExchangeUser? || q.ExchangeTarget?) && t in db.tokens
    ensures RowMoves(db.tokens, ExecExchange(db, q).db.tokens, t, false)
  {
  }

  lemma RequestMoves(db: Db, q: Request, a: Arg, t: Name)
    requires RequestOk(db, q) && t in db.tokens
    ensures RowMoves(db.tokens, Exec(db, q, a).db.tokens, t, !a.dbError && TargetedBy(db, q, t, db.tokens[t]))
  {
    hide ExecRefresh, ExecCode, ExecPoll, ExecConfirm, ExecExchange, RequestOk;
    if q.RefreshRotate? {
      RotationMoves(db, q, a, t);
    } else if q.RefreshLookup? || q.RefreshUser? || q.RefreshDevice? || q.RefreshReuse? {
      RefreshMoves(db, q, a, t);
    } else if q.CodeConsume? || q.CodeUser? || q.CodeIssue? {
      CodeMoves(db, q, a, t);
    } else if q.PollLookup? || q.PollMark? || q.PollDevice? || q.PollUser? || q.PollConsume? || q.PollIssue? {
      PollMoves(db, q, a, t);
    } else if q.ConfirmLookup? || q.ConfirmDevice? || q.ConfirmDecide? {
      ConfirmMoves(db, q, a, t);
    } else if !q.Done? {
      ExchangeMoves(db, q, t);
    }
  }

  lemma OutsideMoves(db: Db, c: Change, t: Name)
    requires t in db.tokens
    ensures RowMoves(db.tokens, Apply(db, c).tokens, t, TargetedFrom(db, c, t, db.tokens[t]))
  {
  }

  /** In every run, a step revokes exactly the tokens that it targets, and
      changes nothing else of a stored token's row. */
  lemma RevokedExactlyWhenTargeted(s: State, e: Event, t: Name)
    requires Reachable(s) && t in s.db.tokens
    ensures RowMoves(s.db.tokens, Step(s, e).db.tokens, t, Targets(s, e, t))
  {
    ReachableOk(s);
    hide Reachable, Exec, Apply, TargetedBy, TargetedFrom;
    match e
    case Start(_, _) =>
    case Advance(r, a) =>
      if r in s.requests {
        assert Ready(s.db, s.requests[r]);
        RequestMoves(s.db, s.requests[r], a, t);
      }
    case Outside(c) => OutsideMoves(s.db, c, t);
  }
}
