/** What holds of every run of the token endpoint from an empty database. */
module GrantTheorems {
  import opened GrantStore
  import opened TokenFamilies
  import opened GrantInvariant
  import opened Grants
  import opened GrantSafety

  ghost predicate Reachable(s: State) {
    exists now, events :: s == Run(Initial(now), events)
  }

  lemma ReachableOk(s: State)
    requires Reachable(s)
    ensures Inv(s)
  {
    var now, events :| s == Run(Initial(now), events);
    RunOk(Initial(now), events);
  }

  lemma {:induction false} ReachableRuns(s: State, events: seq<Event>)
    requires Inv(s)
    ensures Inv(Run(s, events)) && Extends(s.db.tokens, Run(s, events).db.tokens, s.db.hist.lineage, Run(s, events).db.hist.lineage)
    decreases |events|
  {
    if events != [] {
      StepOk(s, events[0]);
      ReachableRuns(Step(s, events[0]), events[1..]);
    }
  }

  // ----- chains -----

  /** A path that follows rotated_from from its first token to its last. */
  ghost predicate Chain(ts: Table, path: seq<Name>) {
    && |path| > 0
    && (forall i :: 0 <= i < |path| ==> path[i] in ts)
    && (forall i :: 0 <= i < |path| - 1 ==> ts[path[i]].rotatedFrom == path[i + 1])
  }

  /** Two tokens of one chain: both lead to the same earlier token. */
  ghost predicate SameChain(ts: Table, t: Name, u: Name) {
    exists p, q :: Chain(ts, p) && Chain(ts, q) && p[0] == t && q[0] == u && p[|p| - 1] == q[|q| - 1]
  }

  lemma {:induction false} ChainKeepsRoot(ts: Table, lines: Lines, path: seq<Name>)
    requires Families(ts, lines) && Chain(ts, path)
    ensures Root(lines, path[0]) == Root(lines, path[|path| - 1])
    decreases |path|
  {
    if |path| > 1 {
      assert LineAt(ts, lines, path[0]);
      assert LineAt(ts, lines, path[1]);
      var rest := path[1..];
      forall i | 0 <= i < |rest| - 1 ensures ts[rest[i]].rotatedFrom == rest[i + 1] {
        assert rest[i] == path[i + 1];
      }
      ChainKeepsRoot(ts, lines, rest);
    }
  }

  lemma SameChainSameRoot(ts: Table, lines: Lines, t: Name, u: Name)
    requires Families(ts, lines) && SameChain(ts, t, u)
    ensures t in ts && u in ts && Root(lines, t) == Root(lines, u)
  {
    var p, q :| Chain(ts, p) && Chain(ts, q) && p[0] == t && q[0] == u && p[|p| - 1] == q[|q| - 1];
    ChainKeepsRoot(ts, lines, p);
    ChainKeepsRoot(ts, lines, q);
  }

  /** A chain holds at most one live token, whatever the interleaving. */
  lemma OneLiveTokenPerChain(s: State, t: Name, u: Name)
    requires Reachable(s) && SameChain(s.db.tokens, t, u)
    ensures !s.db.tokens[t].revoked && !s.db.tokens[u].revoked ==> t == u
  {
    ReachableOk(s);
    SameChainSameRoot(s.db.tokens, s.db.hist.lineage, t, u);
  }

  lemma OneChildPerToken(s: State, t: Name, u: Name)
    requires Reachable(s) && t in s.db.tokens && u in s.db.tokens
    requires s.db.tokens[t].rotatedFrom == s.db.tokens[u].rotatedFrom != NONE
    ensures t == u && s.db.tokens[t].rotatedFrom in s.db.tokens && s.db.tokens[s.db.tokens[t].rotatedFrom].revoked
  {
    ReachableOk(s);
    assert Siblings(s.db.tokens, t, u);
    assert LinkAt(s.db.tokens, t);
  }

  /** Every refresh token is redeemed at most once, every code too. */
  lemma RedeemedAtMostOnce(s: State, i: nat, j: nat)
    requires Reachable(s) && i < j < |s.db.hist.log|
    ensures s.db.hist.log[i].Refreshed? && s.db.hist.log[j].Refreshed?
      ==> s.db.hist.log[i].presented != s.db.hist.log[j].presented
    ensures s.db.hist.log[i].CodeTokens? && s.db.hist.log[j].CodeTokens?
      ==> s.db.hist.log[i].code != s.db.hist.log[j].code
    ensures s.db.hist.log[i].DeviceTokens? && s.db.hist.log[j].DeviceTokens?
      ==> s.db.hist.log[i].code != s.db.hist.log[j].code
  {
    ReachableOk(s);
    assert UsesUp(s.db.hist.log[i]).Some? ==> UsesUp(s.db.hist.log[i]) != UsesUp(s.db.hist.log[j]);
  }

  // ----- provenance -----

  /** The chain from t to the first token of its family, and the code that the
      family was issued for. */
  ghost predicate ComesFrom(db: Db, t: Name, path: seq<Name>, g: Grant) {
    && Chain(db.tokens, path) && path[0] == t
    && var first := path[|path| - 1];
       && db.tokens[first].rotatedFrom == NONE && first in db.hist.source && db.hist.source[first] == g
       && g in db.hist.spent
       && Carries(db.hist, g, db.tokens[first].client, db.tokens[first].user, db.tokens[first].scope,
                  db.tokens[first].amr, db.tokens[first].authTime, db.tokens[first].device)
       && forall i :: 0 <= i < |path| ==> Inherits(db.tokens[path[i]], db.tokens[t])
  }

  /** Every stored token leads back to a token issued for one consumed code,
      whose user, authentication and device it still carries. */
  lemma Provenance(s: State, t: Name)
    requires Reachable(s) && t in s.db.tokens
    ensures exists path, g :: ComesFrom(s.db, t, path, g)
  {
    ReachableOk(s);
    var path := s.db.hist.lineage[t];
    assert LineAt(s.db.tokens, s.db.hist.lineage, t);
    forall i: nat | i < |path| ensures path[i] in s.db.tokens && Inherits(s.db.tokens[path[i]], s.db.tokens[t])
      && (i + 1 < |path| ==> s.db.tokens[path[i]].rotatedFrom == path[i + 1]) {
      LineDescends(s.db.tokens, s.db.hist.lineage, t, i);
    }
    var first := path[|path| - 1];
    assert SourceAt(s.db.tokens, s.db.hist, first);
    assert ComesFrom(s.db, t, path, s.db.hist.source[first]);
  }

  lemma DistinctFamiliesDistinctCodes(s: State, t: Name, u: Name, p: seq<Name>, q: seq<Name>, g: Grant)
    requires Reachable(s) && ComesFrom(s.db, t, p, g) && ComesFrom(s.db, u, q, g)
    ensures p[|p| - 1] == q[|q| - 1]
  {
    ReachableOk(s);
  }

  /** An exchanged token's scope lies within its refresh token's and within what
      the audience allows. */
  lemma ExchangeStaysWithinScope(s: State, i: nat)
    requires Reachable(s) && i < |s.db.hist.log| && s.db.hist.log[i].Exchanged?
    ensures var x := s.db.hist.log[i];
      && x.subject in s.db.tokens && x.scope != {} && x.scope <= s.db.tokens[x.subject].scope && x.scope <= x.allowed
      && x.device == s.db.tokens[x.subject].device
  {
    ReachableOk(s);
    assert Earned(s.db.hist, s.db.tokens, s.db.hist.log[i]);
  }

  // ----- device codes -----

  predicate StatusMoves(a: CodeStatus, b: CodeStatus) {
    a == b || (a == Pending && (b == Approved || b == Denied)) || (a == Approved && b == Consumed)
  }

  lemma StatusOnlyAdvances(s: State, e: Event, c: Name)
    requires Inv(s) && c in s.db.deviceCodes && c in Step(s, e).db.deviceCodes
    ensures StatusMoves(s.db.deviceCodes[c].status, Step(s, e).db.deviceCodes[c].status)
  {
    assert DeviceCodeAt(s.db.deviceCodes, s.db.hist, c);
    if e.Advance? && e.r in s.requests {
      ExecStatus(s.db, s.requests[e.r], e.a, c);
    } else if e.Outside? {
      ApplyStatus(s.db, e.c, c);
    }
  }

  predicate StatusKept(db: Db, db': Db, c: Name) {
    c in db.deviceCodes ==> c in db'.deviceCodes && StatusMoves(db.deviceCodes[c].status, db'.deviceCodes[c].status)
  }

  lemma ExecStatus(db: Db, q: Request, a: Arg, c: Name)
    requires c in db.deviceCodes
    ensures StatusKept(db, Exec(db, q, a).db, c)
  {
    hide ExecRefresh, ExecCode, ExecPoll, ExecConfirm, ExecExchange;
    if q.RefreshLookup? || q.RefreshUser? || q.RefreshDevice? || q.RefreshRotate? || q.RefreshReuse? {
      RefreshStatus(db, q, a);
    } else if q.CodeConsume? || q.CodeUser? || q.CodeIssue? {
      CodeStatusKept(db, q, a);
    } else if q.PollLookup? || q.PollMark? || q.PollDevice? || q.PollUser? || q.PollConsume? || q.PollIssue? {
      PollStatus(db, q, a, c);
    } else if q.ConfirmLookup? || q.ConfirmDevice? || q.ConfirmDecide? {
      ConfirmStatus(db, q, a, c);
    } else if !q.Done? {
      ExchangeStatus(db, q);
    }
  }

  lemma RefreshStatus(db: Db, q: Request, a: Arg)
    requires q.RefreshLookup? || q.RefreshUser? || q.RefreshDevice? || q.RefreshRotate? || q.RefreshReuse?
    ensures ExecRefresh(db, q, a).db.deviceCodes == db.deviceCodes
  {
  }

  lemma CodeStatusKept(db: Db, q: Request, a: Arg)
    requires q.CodeConsume? || q.CodeUser? || q.CodeIssue?
    ensures ExecCode(db, q, a).db.deviceCodes == db.deviceCodes
  {
  }

  lemma PollStatus(db: Db, q: Request, a: Arg, c: Name)
    requires q.PollLookup? || q.PollMark? || q.PollDevice? || q.PollUser? || q.PollConsume? || q.PollIssue?
    ensures StatusKept(db, ExecPoll(db, q, a).db, c)
  {
  }

  lemma ConfirmStatus(db: Db, q: Request, a: Arg, c: Name)
    requires q.ConfirmLookup? || q.ConfirmDevice? || q.ConfirmDecide?
    ensures StatusKept(db, ExecConfirm(db, q, a).db, c)
  {
  }

  lemma ExchangeStatus(db: Db, q: Request)
    requires q.ExchangeDevice? || q.ExchangeToken? || q.ExchangeUser? || q.ExchangeTarget?
    ensures ExecExchange(db, q).db.deviceCodes == db.deviceCodes
  {
  }

  lemma ApplyStatus(db: Db, change: Change, c: Name)
    requires c in db.deviceCodes && c in db.hist.deviceCodes && c in Apply(db, change).deviceCodes
    ensures StatusMoves(db.deviceCodes[c].status, Apply(db, change).deviceCodes[c].status)
  {
  }

  /** Tokens for a device code: only after its approval, never after a denial,
      for exactly the user and authentication that approved it, and for the
      device the code is bound to. */
  lemma DeviceTokensFollowApproval(s: State, i: nat)
    requires Reachable(s) && i < |s.db.hist.log| && s.db.hist.log[i].DeviceTokens?
    ensures var x := s.db.hist.log[i];
      && x.code in s.db.hist.approvals && s.db.hist.approvals[x.code] == Approval(x.user, x.amr, x.authTime)
      && x.code !in s.db.hist.denied && FromDeviceCode(x.code) in s.db.hist.spent
      && x.code in s.db.hist.deviceCodes && x.scope == s.db.hist.deviceCodes[x.code].scope
      && x.device == s.db.hist.deviceCodes[x.code].device
  {
    ReachableOk(s);
    assert Earned(s.db.hist, s.db.tokens, s.db.hist.log[i]);
  }

  // ----- device revocation -----

  /** The device is revoked and no rotation past its device check can win. */
  ghost predicate Shut(s: State, d: Name) {
    && d != NONE && d in s.db.devices && s.db.devices[d].status == Revoked
    && forall r {:trigger s.requests[r]} :: r in s.requests && s.requests[r].RefreshRotate? && s.requests[r].rt.device == d
         ==> s.requests[r].id in s.db.tokens && s.db.tokens[s.requests[r].id].revoked
  }

  lemma RevocationShuts(s: State, d: Name)
    requires Inv(s) && d != NONE && d in s.db.devices && s.db.devices[d].status != Revoked
    ensures Shut(Step(s, Outside(DeviceRevoked(d))), d)
  {
    forall r | r in s.requests && s.requests[r].RefreshRotate? && s.requests[r].rt.device == d
      ensures s.requests[r].id in s.db.tokens && s.db.tokens[s.requests[r].id].device == d {
      assert Ready(s.db, s.requests[r]);
    }
  }

  /** The responses from the n-th on redeem no token bound to the device. */
  ghost predicate NoRefreshFrom(db: Db, n: nat, ts: Table, d: Name) {
    forall i {:trigger db.hist.log[i]} :: n <= i < |db.hist.log| && db.hist.log[i].Refreshed? ==>
      db.hist.log[i].presented in ts && ts[db.hist.log[i].presented].device != d
  }

  lemma ShutStays(s: State, e: Event, d: Name)
    requires Inv(s) && Shut(s, d)
    ensures Shut(Step(s, e), d) && NoRefreshFrom(Step(s, e).db, |s.db.hist.log|, s.db.tokens, d)
  {
    StepOk(s, e);
    hide Inv, DbInv, Apply, Exec;
    match e
    case Advance(r, a) => ShutAdvance(s, r, a, d);
    case Outside(c) => ShutOutside(s, c, d);
    case Start(_, _) =>
  }

  lemma ShutAdvance(s: State, r: Name, a: Arg, d: Name)
    requires Inv(s) && Shut(s, d) && Grows(s.db, Step(s, Advance(r, a)).db)
    ensures var s' := Step(s, Advance(r, a)); Shut(s', d) && NoRefreshFrom(s'.db, |s.db.hist.log|, s.db.tokens, d)
  {
    if r in s.requests {
      assert Ready(s.db, s.requests[r]);
      AdvanceFromShut(s.db, s.requests[r], a, d);
    }
    hide Inv, DbInv, Exec;
  }

  lemma ShutOutside(s: State, c: Change, d: Name)
    requires Inv(s) && Shut(s, d)
    ensures var s' := Step(s, Outside(c)); Shut(s', d) && NoRefreshFrom(s'.db, |s.db.hist.log|, s.db.tokens, d)
  {
    ApplyOk(s.db, c);
    hide Inv, DbInv, Apply;
  }

  /** The step comes to no rotation or exchange, and what it may answer is for a
      code. */
  predicate CodeResponse(db: Db, o: Outcome) {
    && !o.next.RefreshRotate? && !o.next.ExchangeToken? && !o.next.ExchangeUser? && !o.next.ExchangeTarget?
    && (o.db.hist.log == db.hist.log
        || (|o.db.hist.log| == |db.hist.log| + 1 && o.db.hist.log[..|db.hist.log|] == db.hist.log
            && (o.db.hist.log[|db.hist.log|].CodeTokens? || o.db.hist.log[|db.hist.log|].DeviceTokens?)))
  }

  /** The step adds no response about a redeemed token, or none at all. */
  predicate OtherResponse(db: Db, o: Outcome) {
    && !o.next.RefreshRotate?
    && (o.db.hist.log == db.hist.log
        || (|o.db.hist.log| == |db.hist.log| + 1 && o.db.hist.log[..|db.hist.log|] == db.hist.log && !o.db.hist.log[|db.hist.log|].Refreshed?))
  }

  lemma CodeResponds(db: Db, q: Request, a: Arg)
    requires q.CodeConsume? || q.CodeUser? || q.CodeIssue?
    ensures CodeResponse(db, ExecCode(db, q, a))
  {
  }

  lemma PollResponds(db: Db, q: Request, a: Arg)
    requires q.PollLookup? || q.PollMark? || q.PollDevice? || q.PollUser? || q.PollConsume? || q.PollIssue?
    ensures CodeResponse(db, ExecPoll(db, q, a))
  {
    if q.PollConsume? {
      PollConsumeResponds(db, q, a);
    } else if q.PollIssue? {
      PollIssueResponds(db, q, a);
    } else {
      hide ConsumeDeviceCode, InsertToken, Insertable, Respond, IsActive;
    }
  }

  lemma PollConsumeResponds(db: Db, q: Request, a: Arg)
    requires q.PollConsume?
    ensures CodeResponse(db, ExecPoll(db, q, a))
  {
    hide InsertToken, Insertable, Respond, MarkDeviceCodePolled, IsActive;
  }

  lemma PollIssueResponds(db: Db, q: Request, a: Arg)
    requires q.PollIssue?
    ensures CodeResponse(db, ExecPoll(db, q, a))
  {
    hide ConsumeDeviceCode, MarkDeviceCodePolled, IsActive;
  }

  lemma ConfirmResponds(db: Db, q: Request, a: Arg)
    requires q.ConfirmLookup? || q.ConfirmDevice? || q.ConfirmDecide?
    ensures CodeResponse(db, ExecConfirm(db, q, a))
  {
  }

  lemma ExchangeResponds(db: Db, q: Request)
    requires q.ExchangeDevice? || q.ExchangeToken? || q.ExchangeUser? || q.ExchangeTarget?
    ensures OtherResponse(db, ExecExchange(db, q))
  {
  }

  lemma RefreshFromShut(db: Db, q: Request, a: Arg, d: Name)
    requires q.RefreshLookup? || q.RefreshUser? || q.RefreshDevice? || q.RefreshRotate? || q.RefreshReuse?
    requires RequestOk(db, q) && d != NONE && d in db.devices && db.devices[d].status == Revoked
    requires q.RefreshRotate? && q.rt.device == d ==> db.tokens[q.id].revoked
    ensures ExecRefresh(db, q, a).next.RefreshRotate? ==> ExecRefresh(db, q, a).next.rt.device != d
    ensures NoRefreshFrom(ExecRefresh(db, q, a).db, |db.hist.log|, db.tokens, d)
  {
  }

  lemma AdvanceFromShut(db: Db, q: Request, a: Arg, d: Name)
    requires RequestOk(db, q) && d != NONE && d in db.devices && db.devices[d].status == Revoked
    requires q.RefreshRotate? && q.rt.device == d ==> db.tokens[q.id].revoked
    ensures Exec(db, q, a).next.RefreshRotate? ==> Exec(db, q, a).next.rt.device != d
    ensures NoRefreshFrom(Exec(db, q, a).db, |db.hist.log|, db.tokens, d)
  {
    hide ExecRefresh, ExecCode, ExecPoll, ExecConfirm, ExecExchange;
    if q.RefreshLookup? || q.RefreshUser? || q.RefreshDevice? || q.RefreshRotate? || q.RefreshReuse? {
      RefreshFromShut(db, q, a, d);
    } else if q.CodeConsume? || q.CodeUser? || q.CodeIssue? {
      CodeResponds(db, q, a);
    } else if q.PollLookup? || q.PollMark? || q.PollDevice? || q.PollUser? || q.PollConsume? || q.PollIssue? {
      PollResponds(db, q, a);
    } else if q.ConfirmLookup? || q.ConfirmDevice? || q.ConfirmDecide? {
      ConfirmResponds(db, q, a);
    } else if !q.Done? {
      ExchangeResponds(db, q);
    }
  }

  /** Once a device is revoked, no refresh token bound to it is ever redeemed
      again: neither one stored before, nor one that a grant already past its
      device check still stores afterwards. */
  lemma RevokedDeviceNeverRefreshes(s: State, d: Name, events: seq<Event>)
    requires Reachable(s) && d != NONE && d in s.db.devices && s.db.devices[d].status != Revoked
    ensures var after := Run(Step(s, Outside(DeviceRevoked(d))), events).db;
      NoRefreshFrom(after, |s.db.hist.log|, after.tokens, d)
  {
    ReachableOk(s);
    RevocationShuts(s, d);
    StepOk(s, Outside(DeviceRevoked(d)));
    ShutNeverRefreshes(Step(s, Outside(DeviceRevoked(d))), events, d);
  }

  lemma {:induction false} ShutNeverRefreshes(s: State, events: seq<Event>, d: Name)
    requires Inv(s) && Shut(s, d)
    ensures NoRefreshFrom(Run(s, events).db, |s.db.hist.log|, Run(s, events).db.tokens, d)
    decreases |events|
  {
    if events != [] {
      var s' := Step(s, events[0]);
      StepOk(s, events[0]);
      ShutStays(s, events[0], d);
      LogPrefix(s', events[1..]);
      ReachableRuns(s', events[1..]);
      ShutNeverRefreshes(s', events[1..], d);
      var end := Run(s, events).db;
      forall i | |s.db.hist.log| <= i < |end.hist.log| && end.hist.log[i].Refreshed?
        ensures end.hist.log[i].presented in end.tokens && end.tokens[end.hist.log[i].presented].device != d {
        if i < |s'.db.hist.log| { assert end.hist.log[i] == s'.db.hist.log[i]; }
      }
    }
  }

  lemma {:induction false} LogPrefix(s: State, events: seq<Event>)
    requires Inv(s)
    ensures s.db.hist.log <= Run(s, events).db.hist.log
    decreases |events|
  {
    if events != [] {
      StepOk(s, events[0]);
      LogPrefix(Step(s, events[0]), events[1..]);
    }
  }
}
