/** Reuse of a refresh token: when it ends the token's chain, and a run in which
    it does not. */
module GrantReuse {
  import opened Options
  import opened GrantStore
  import opened TokenFamilies
  import opened GrantInvariant
  import opened Grants
  import opened GrantSafety
  import opened GrantServer
  import opened GrantAnswers
  import opened GrantTheorems

  /** No token of the family is live. */
  ghost predicate Dead(db: Db, root: Name) {
    && root in db.tokens
    && forall t {:trigger Root(db.hist.lineage, t)} ::
         t in db.tokens && Root(db.hist.lineage, t) == root ==> db.tokens[t].revoked
  }

  lemma DeadStays(db: Db, db': Db, root: Name)
    requires DbInv(db) && DbInv(db') && Grows(db, db') && Dead(db, root)
    ensures Dead(db', root)
  {
    forall t | t in db'.tokens && Root(db'.hist.lineage, t) == root ensures db'.tokens[t].revoked {
      assert LineAt(db'.tokens, db'.hist.lineage, t);
      if t in db.tokens {
        assert LineAt(db.tokens, db.hist.lineage, t);
        assert Root(db.hist.lineage, t) == root;
      } else {
        assert BornOfLive(db.tokens, db'.tokens[t]);
        NewFamilyOfLiveParent(db, db', t);
      }
    }
  }

  lemma NewFamilyOfLiveParent(db: Db, db': Db, t: Name)
    requires DbInv(db) && DbInv(db') && Grows(db, db') && t in db'.tokens && t !in db.tokens
    ensures Root(db'.hist.lineage, t) !in db.tokens
      || (db'.tokens[t].rotatedFrom in db.tokens && !db.tokens[db'.tokens[t].rotatedFrom].revoked
          && Root(db.hist.lineage, db'.tokens[t].rotatedFrom) == Root(db'.hist.lineage, t))
  {
    assert LineAt(db'.tokens, db'.hist.lineage, t);
    var p := db'.tokens[t].rotatedFrom;
    if p in db.tokens {
      assert LineAt(db.tokens, db.hist.lineage, p);
    }
  }

  lemma {:induction false} DeadForever(s: State, events: seq<Event>, root: Name)
    requires Inv(s) && Dead(s.db, root)
    ensures Inv(Run(s, events)) && Dead(Run(s, events).db, root)
    decreases |events|
  {
    if events != [] {
      StepOk(s, events[0]);
      DeadStays(s.db, Step(s, events[0]).db, root);
      DeadForever(Step(s, events[0]), events[1..], root);
    }
  }

  /** No token of the chain is live. */
  ghost predicate ChainOver(ts: Table, id: Name) {
    forall t {:trigger SameChain(ts, t, id)} :: t in ts && SameChain(ts, t, id) ==> ts[t].revoked
  }

  ghost predicate OverAfter(s: State, events: seq<Event>, id: Name) {
    ChainOver(Run(s, events).db.tokens, id)
  }

  /** Nor will one ever be, whatever happens. */
  ghost predicate OverForGood(s: State, id: Name) {
    forall events {:trigger OverAfter(s, events, id)} :: OverAfter(s, events, id)
  }

  lemma SameRootSameChain(ts: Table, lines: Lines, t: Name, u: Name)
    requires Families(ts, lines) && t in ts && u in ts && Root(lines, t) == Root(lines, u)
    ensures SameChain(ts, t, u)
  {
    assert LineAt(ts, lines, t) && LineAt(ts, lines, u);
    LineIsChain(ts, lines, t);
    LineIsChain(ts, lines, u);
    assert lines[t][|lines[t]| - 1] == lines[u][|lines[u]| - 1];
  }

  lemma LineIsChain(ts: Table, lines: Lines, t: Name)
    requires Families(ts, lines) && t in ts
    ensures Chain(ts, lines[t])
  {
    assert LineAt(ts, lines, t);
    forall i: nat | i < |lines[t]| ensures lines[t][i] in ts && (i + 1 < |lines[t]| ==> ts[lines[t][i]].rotatedFrom == lines[t][i + 1]) {
      LineDescends(ts, lines, t, i);
    }
  }

  lemma OverIsDead(db: Db, id: Name)
    requires DbInv(db) && id in db.tokens
    ensures ChainOver(db.tokens, id) <==> Dead(db, Root(db.hist.lineage, id))
  {
    assert LineAt(db.tokens, db.hist.lineage, id);
    forall t | t in db.tokens ensures SameChain(db.tokens, t, id) <==> Root(db.hist.lineage, t) == Root(db.hist.lineage, id) {
      if Root(db.hist.lineage, t) == Root(db.hist.lineage, id) { SameRootSameChain(db.tokens, db.hist.lineage, t, id); }
      if SameChain(db.tokens, t, id) { SameChainSameRoot(db.tokens, db.hist.lineage, t, id); }
    }
  }

  /** The revoking statement reaches every token of the chain. */
  lemma RevocationEnds(s: State, r: Name, a: Arg)
    requires Inv(s) && r in s.requests && s.requests[r].RefreshReuse? && !a.dbError
    ensures var id := s.requests[r].id; id in s.db.tokens && Dead(Step(s, Advance(r, a)).db, Root(s.db.hist.lineage, id))
  {
    var id, db := s.requests[r].id, Step(s, Advance(r, a)).db;
    assert Ready(s.db, s.requests[r]);
    assert LineAt(s.db.tokens, s.db.hist.lineage, id);
    forall u | u in db.tokens && Root(db.hist.lineage, u) == Root(db.hist.lineage, id) ensures db.tokens[u].revoked {
      FamilyShares(s.db, u, id);
    }
  }

  /** From its reuse branch on, whatever was already in flight, no token of the
      chain is ever live: if and only if the revoking statement, whose error
      the handler ignores, does not fail or there was nothing left to revoke. */
  lemma ReuseEndsTheChain(s: State, r: Name, a: Arg)
    requires Reachable(s) && r in s.requests && s.requests[r].RefreshReuse?
    ensures OverForGood(Step(s, Advance(r, a)), s.requests[r].id) <==> !a.dbError || ChainOver(s.db.tokens, s.requests[r].id)
  {
    ReachableOk(s);
    var id, s' := s.requests[r].id, Step(s, Advance(r, a));
    assert Ready(s.db, s.requests[r]);
    StepOk(s, Advance(r, a));
    OverIsDead(s.db, id);
    if !a.dbError {
      RevocationEnds(s, r, a);
    } else {
      assert s'.db == s.db;
    }
    hide Exec, Inv, DbInv, Dead, ChainOver, Reachable;
    if !a.dbError || ChainOver(s.db.tokens, id) {
      forall events ensures OverAfter(s', events, id) {
        OverForever(s', events, id);
      }
    } else {
      assert !OverAfter(s', [], id);
    }
  }

  lemma OverForever(s: State, events: seq<Event>, id: Name)
    requires Inv(s) && id in s.db.tokens && Dead(s.db, Root(s.db.hist.lineage, id))
    ensures OverAfter(s, events, id)
  {
    var root := Root(s.db.hist.lineage, id);
    DeadForever(s, events, root);
    ReachableRuns(s, events);
    assert LineAt(s.db.tokens, s.db.hist.lineage, id);
    OverIsDead(Run(s, events).db, id);
  }

  /** One user and one client per family. */
  lemma FamilyShares(db: Db, t: Name, u: Name)
    requires DbInv(db) && t in db.tokens && u in db.tokens && Root(db.hist.lineage, t) == Root(db.hist.lineage, u)
    ensures db.tokens[t].user == db.tokens[u].user && db.tokens[t].client == db.tokens[u].client
  {
    assert LineAt(db.tokens, db.hist.lineage, t) && LineAt(db.tokens, db.hist.lineage, u);
    LineDescends(db.tokens, db.hist.lineage, t, |db.hist.lineage[t]| - 1);
    LineDescends(db.tokens, db.hist.lineage, u, |db.hist.lineage[u]| - 1);
  }

  /** The token that the request is about to look up or to rotate. */
  function Held(q: Request): Name
    requires q.RefreshLookup? || q.RefreshRotate?
  {
    if q.RefreshLookup? then q.token else q.id
  }

  predicate HoldsRevoked(db: Db, q: Request) {
    && (q.RefreshLookup? || q.RefreshRotate?)
    && Held(q) in db.tokens && db.tokens[Held(q)].revoked
    && (q.RefreshLookup? ==> db.tokens[Held(q)].client == q.client)
  }

  /** A request that reads its token as revoked, or finds it revoked when it
      rotates, goes on to the reuse branch. */
  lemma RevokedTokenLeadsToReuse(db: Db, q: Request, a: Arg)
    requires !a.dbError && HoldsRevoked(db, q)
    ensures Exec(db, q, a).db == db && Exec(db, q, a).next.RefreshReuse?
    ensures Exec(db, q, a).next.id == Held(q)
  {
  }

  lemma {:induction false} Waits(s: State, events: seq<Event>, r: Name)
    requires r in s.requests && forall i :: 0 <= i < |events| && events[i].Advance? ==> events[i].r != r
    ensures r in Run(s, events).requests && Run(s, events).requests[r] == s.requests[r]
    decreases |events|
  {
    if events != [] { Waits(Step(s, events[0]), events[1..], r); }
  }

  /** A request that presents a revoked token, or loses the rotation race, ends
      its chain for good once its next two steps have gone through, whatever
      happens between and after them. */
  lemma RevokedTokenEndsTheChain(s: State, r: Name, a: Arg, between: seq<Event>, a': Arg)
    requires Reachable(s) && r in s.requests && HoldsRevoked(s.db, s.requests[r]) && !a.dbError && !a'.dbError
    requires forall i :: 0 <= i < |between| && between[i].Advance? ==> between[i].r != r
    ensures OverForGood(Step(Run(Step(s, Advance(r, a)), between), Advance(r, a')), Held(s.requests[r]))
  {
    var s' := Step(s, Advance(r, a));
    var mid := Run(s', between);
    RevokedTokenLeadsToReuse(s.db, s.requests[r], a);
    Waits(s', between, r);
    ReachableThen(s, [Advance(r, a)]);
    RunOne(s, Advance(r, a));
    ReachableThen(s', between);
    ReuseEndsTheChain(mid, r, a');
  }

  // ----- a revocation that fails -----

  const CLIENT: Name := 2
  const USER: Name := 3
  const CODE: Name := 4
  const FIRST: Name := 5
  const SECOND: Name := 6
  const ISSUED := RefreshToken(CLIENT, USER, {OFFLINE_ACCESS}, NONE, false, 10, 0, NONE, NONE, NONE)

  lemma RunOne(s: State, e: Event)
    ensures Run(s, [e]) == Step(s, e)
  {
    assert [e][1..] == [];
    assert Run(Step(s, e), []) == Step(s, e);
  }

  lemma {:induction false} RunJoin(s: State, xs: seq<Event>, ys: seq<Event>)
    ensures Run(s, xs + ys) == Run(Run(s, xs), ys)
    decreases |xs|
  {
    if xs == [] {
      assert xs + ys == ys;
    } else {
      assert (xs + ys)[1..] == xs[1..] + ys;
      RunJoin(Step(s, xs[0]), xs[1..], ys);
    }
  }

  lemma ReachableThen(s: State, events: seq<Event>)
    requires Reachable(s)
    ensures Reachable(Run(s, events))
  {
    var now, before :| s == Run(Initial(now), before);
    RunJoin(Initial(now), before, events);
  }

  lemma ReachableStep(s: State, e: Event)
    requires Reachable(s)
    ensures Reachable(Step(s, e))
  {
    ReachableThen(s, [e]);
    RunOne(s, e);
  }

  lemma InitialReachable()
    ensures Reachable(Initial(0))
  {
    var none: seq<Event> := [];
    assert Run(Initial(0), none) == Initial(0);
  }

  const GRANTED := AuthCode(CLIENT, USER, NONE, {OFFLINE_ACCESS}, NONE, 10, false, 0, NONE)
  const REDEEM := CodeConsume(CLIENT, false, CODE, NONE, true, NONE)

  /** A user, a code, and a request that redeems it. */
  lemma Granted() returns (s: State)
    ensures Reachable(s) && s.requests == map[CODE := REDEEM] && s.db.now == 0
    ensures s.db.enabled == {USER} && s.db.tokens == map[] && s.db.authCodes == map[CODE := GRANTED]
  {
    hide Exec, Reachable, RevokeRefreshToken, RevokeForUserClient, RevokeDevice, ApproveDevice, SetDeviceOwnerOnly, SweepAuthCodes, SweepDeviceCodes;
    var s0 := Initial(0);
    InitialReachable();
    ReachableStep(s0, Outside(UserSet(USER, true)));
    var s1 := Step(s0, Outside(UserSet(USER, true)));
    ReachableStep(s1, Outside(NewAuthCode(CODE, GRANTED)));
    var s2 := Step(s1, Outside(NewAuthCode(CODE, GRANTED)));
    ReachableStep(s2, Start(CODE, REDEEM));
    s := Step(s2, Start(CODE, REDEEM));
  }

  /** The code has been redeemed for the first token. */
  lemma Issued() returns (s: State)
    ensures Reachable(s) && s.requests.Keys == {CODE} && s.db.now == 0 && s.db.enabled == {USER} && s.db.tokens == map[FIRST := ISSUED]
  {
    hide Exec, Alone, Reachable;
    var s3 := Granted();
    var a := Arg(FIRST, 10, false);
    AloneIsARun(s3, CODE, a, 3);
    ReachableThen(s3, Repeat(Advance(CODE, a), 3));
    s := Run(s3, Repeat(Advance(CODE, a), 3));
    CodeAnswered(s3.db, CLIENT, false, CODE, NONE, true, NONE, a);
  }

  /** And the first token for the second. */
  lemma Rotated() returns (s: State)
    ensures Reachable(s) && s.requests.Keys == {CODE, FIRST}
    ensures s.db.tokens == map[FIRST := ISSUED.(revoked := true), SECOND := ISSUED.(rotatedFrom := FIRST)]
  {
    hide Alone, Reachable;
    var s4 := Issued();
    var q, a := RefreshLookup(CLIENT, FIRST, NONE, None), Arg(SECOND, 10, false);
    ReachableStep(s4, Start(FIRST, q));
    var s5 := Step(s4, Start(FIRST, q));
    AloneIsARun(s5, FIRST, a, 5);
    ReachableThen(s5, Repeat(Advance(FIRST, a), 5));
    var s6 := Run(s5, Repeat(Advance(FIRST, a), 5));
    s := s6;
    RefreshAnswered(s5.db, CLIENT, FIRST, NONE, None, a);
  }

  /** The first token is presented again. */
  lemma Reused() returns (s: State)
    ensures Reachable(s) && SECOND in s.requests && s.requests[SECOND] == RefreshReuse(FIRST, ISSUED.(revoked := true))
    ensures s.db.tokens == map[FIRST := ISSUED.(revoked := true), SECOND := ISSUED.(rotatedFrom := FIRST)]
  {
    hide Reachable;
    var s6 := Rotated();
    var q, a := RefreshLookup(CLIENT, FIRST, NONE, None), Arg(SECOND, 10, false);
    ReachableStep(s6, Start(SECOND, q));
    var s7 := Step(s6, Start(SECOND, q));
    ReachableStep(s7, Advance(SECOND, a));
    s := Step(s7, Advance(SECOND, a));
  }

  /** A run in which the revoking statement of the reuse branch fails and a
      token of the chain lives on. */
  lemma FailedRevocation() returns (s: State, r: Name, a: Arg)
    ensures Reachable(s) && r in s.requests && s.requests[r].RefreshReuse? && a.dbError
    ensures !ChainOver(Step(s, Advance(r, a)).db.tokens, s.requests[r].id)
  {
    s := Reused();
    r, a := SECOND, Arg(NONE, 0, true);
    var ts := Step(s, Advance(r, a)).db.tokens;
    assert ts == s.db.tokens;
    assert Chain(ts, [SECOND, FIRST]) && Chain(ts, [FIRST]);
    assert [SECOND, FIRST][1] == [FIRST][0];
    assert SameChain(ts, SECOND, FIRST);
  }
}
