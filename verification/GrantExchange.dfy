/** Token exchange after a device is revoked. */
module GrantExchange {
  import opened GrantStore
  import opened TokenFamilies
  import opened GrantInvariant
  import opened Grants
  import opened GrantSafety
  import opened GrantTheorems

  /** An exchange past its device check that has read its token, or that names
      one that it could still read. */
  predicate Passing(db: Db, q: Request, d: Name) {
    || ((q.ExchangeUser? || q.ExchangeTarget?) && q.device == d)
    || (q.ExchangeToken? && q.device == d
        && (q.subject !in db.tokens || (db.tokens[q.subject].device == d && !db.tokens[q.subject].revoked)))
  }

  function PassingAll(s: State, d: Name): set<Name> {
    set r | r in s.requests && Passing(s.db, s.requests[r], d)
  }

  /** How many of the responses are exchanges for the device. */
  function Exchanges(log: seq<Response>, d: Name): nat {
    if log == [] then 0
    else Exchanges(log[..|log| - 1], d) + if log[|log| - 1].Exchanged? && log[|log| - 1].device == d then 1 else 0
  }

  lemma {:induction false} ExchangesJoin(a: seq<Response>, b: seq<Response>, d: Name)
    ensures Exchanges(a + b, d) == Exchanges(a, d) + Exchanges(b, d)
    decreases |b|
  {
    if b == [] {
      assert a + b == a;
    } else {
      assert (a + b)[..|a + b| - 1] == a + b[..|b| - 1];
      ExchangesJoin(a, b[..|b| - 1], d);
    }
  }

  /** What a step adds to the log. */
  function Added(db: Db, db': Db): seq<Response> {
    if db.hist.log <= db'.hist.log then db'.hist.log[|db.hist.log|..] else []
  }

  predicate Gone(db: Db, d: Name) {
    d in db.devices && db.devices[d].status == Revoked
  }

  /** Nothing comes to be passing that was not, and an exchange that is answered
      was passing and is done. */
  predicate StepsPast(db: Db, q: Request, o: Outcome, d: Name) {
    && (Passing(o.db, o.next, d) ==> Passing(db, q, d))
    && (o.db.hist.log == db.hist.log
        || (|o.db.hist.log| == |db.hist.log| + 1 && o.db.hist.log[..|db.hist.log|] == db.hist.log
            && var x := o.db.hist.log[|db.hist.log|];
               x.Exchanged? && x.device == d ==> Passing(db, q, d) && o.next.Done?))
  }

  lemma ExchangePast(db: Db, q: Request, d: Name)
    requires q.ExchangeDevice? || q.ExchangeToken? || q.ExchangeUser? || q.ExchangeTarget?
    requires Gone(db, d)
    ensures StepsPast(db, q, ExecExchange(db, q), d)
  {
  }

  lemma RefreshPast(db: Db, q: Request, a: Arg, d: Name)
    requires q.RefreshLookup? || q.RefreshUser? || q.RefreshDevice? || q.RefreshRotate? || q.RefreshReuse?
    ensures StepsPast(db, q, ExecRefresh(db, q, a), d)
  {
  }

  lemma StepPast(db: Db, q: Request, a: Arg, d: Name)
    requires Gone(db, d)
    ensures StepsPast(db, q, Exec(db, q, a), d)
  {
    hide ExecRefresh, ExecCode, ExecPoll, ExecConfirm, ExecExchange, Gone;
    if q.RefreshLookup? || q.RefreshUser? || q.RefreshDevice? || q.RefreshRotate? || q.RefreshReuse? {
      RefreshPast(db, q, a, d);
    } else if q.CodeConsume? || q.CodeUser? || q.CodeIssue? {
      CodeResponds(db, q, a);
    } else if q.PollLookup? || q.PollMark? || q.PollDevice? || q.PollUser? || q.PollConsume? || q.PollIssue? {
      PollResponds(db, q, a);
    } else if q.ConfirmLookup? || q.ConfirmDevice? || q.ConfirmDecide? {
      ConfirmResponds(db, q, a);
    } else if !q.Done? {
      ExchangePast(db, q, d);
    }
  }

  /** What passes later passed before. */
  lemma PassedBefore(db: Db, db': Db, q: Request, d: Name)
    requires Grows(db, db') && Passing(db', q, d)
    ensures Passing(db, q, d)
  {
  }

  lemma SmallerSet(a: set<Name>, b: set<Name>)
    requires a <= b
    ensures |a| <= |b|
  {
    assert |b| == |a| + |b - a| by { assert b == a + (b - a); }
  }

  lemma OneLess(a: set<Name>, b: set<Name>, r: Name)
    requires a <= b && r in b && r !in a
    ensures |a| < |b|
  {
    SmallerSet(a, b - {r});
  }

  lemma StillPassing(s: State, e: Event, r: Name, d: Name)
    requires Gone(s.db, d) && Grows(s.db, Step(s, e).db) && r in PassingAll(Step(s, e), d)
    ensures r in PassingAll(s, d)
  {
    var s' := Step(s, e);
    hide Apply, Exec, Grows;
    if e.Advance? && e.r == r && r in s.requests {
      StepPast(s.db, s.requests[r], e.a, d);
    } else if r in s.requests {
      PassedBefore(s.db, s'.db, s.requests[r], d);
    }
  }

  lemma NoneNew(s: State, e: Event, d: Name)
    requires Inv(s) && Gone(s.db, d)
    ensures Gone(Step(s, e).db, d) && PassingAll(Step(s, e), d) <= PassingAll(s, d)
  {
    StepOk(s, e);
    hide Inv, Step, PassingAll;
    StaysGone(s.db, Step(s, e).db, d);
    forall r | r in PassingAll(Step(s, e), d) ensures r in PassingAll(s, d) {
      StillPassing(s, e, r, d);
    }
  }

  lemma StaysGone(db: Db, db': Db, d: Name)
    requires Gone(db, d) && Grows(db, db')
    ensures Gone(db', d)
  {
  }

  /** An answer for the device ends a request that was passing. */
  lemma AdvanceUsesUp(s: State, r: Name, a: Arg, d: Name)
    requires r in s.requests && Gone(s.db, d) && PassingAll(Step(s, Advance(r, a)), d) <= PassingAll(s, d)
    ensures var s' := Step(s, Advance(r, a));
      s.db.hist.log <= s'.db.hist.log && Exchanges(Added(s.db, s'.db), d) + |PassingAll(s', d)| <= |PassingAll(s, d)|
  {
    hide Exec, Gone, Passing;
    var s' := Step(s, Advance(r, a));
    StepPast(s.db, s.requests[r], a, d);
    SmallerSet(PassingAll(s', d), PassingAll(s, d));
    var added := Added(s.db, s'.db);
    if added != [] {
      assert s.db.hist.log == s'.db.hist.log[..|s.db.hist.log|];
      assert added == [s'.db.hist.log[|s.db.hist.log|]];
      assert added[..0] == [];
      if added[0].Exchanged? && added[0].device == d {
        assert r in PassingAll(s, d);
        DoneIsPast(s'.db, d);
        OneLess(PassingAll(s', d), PassingAll(s, d), r);
      }
    }
  }

  lemma DoneIsPast(db: Db, d: Name)
    ensures !Passing(db, Done, d)
  {
  }

  lemma SameLog(s: State, e: Event)
    requires Inv(s) && !(e.Advance? && e.r in s.requests)
    ensures Step(s, e).db.hist.log == s.db.hist.log
  {
    hide Inv, DbInv, Apply;
    if e.Outside? { OutsideSameLog(s, e.c); }
  }

  lemma OutsideSameLog(s: State, c: Change)
    requires Inv(s)
    ensures Apply(s.db, c).hist.log == s.db.hist.log
  {
    ApplyOk(s.db, c);
  }

  /** Each answer to an exchange for the revoked device uses up a request that
      was past its check. */
  lemma StepUsesUp(s: State, e: Event, d: Name)
    requires Inv(s) && Gone(s.db, d)
    ensures Gone(Step(s, e).db, d) && s.db.hist.log <= Step(s, e).db.hist.log
    ensures Exchanges(Added(s.db, Step(s, e).db), d) + |PassingAll(Step(s, e), d)| <= |PassingAll(s, d)|
  {
    hide Inv, Step, PassingAll, Gone;
    NoneNew(s, e, d);
    if e.Advance? && e.r in s.requests {
      AdvanceUsesUp(s, e.r, e.a, d);
    } else {
      SameLog(s, e);
      SmallerSet(PassingAll(Step(s, e), d), PassingAll(s, d));
    }
  }

  lemma {:induction false} RunUsesUp(s: State, events: seq<Event>, d: Name)
    requires Inv(s) && Gone(s.db, d)
    ensures s.db.hist.log <= Run(s, events).db.hist.log
    ensures Exchanges(Added(s.db, Run(s, events).db), d) <= |PassingAll(s, d)|
    decreases |events|
  {
    hide Inv, Step, PassingAll, Gone, Grows;
    if events == [] {
      assert Added(s.db, s.db) == [];
    } else {
      var s', end := Step(s, events[0]), Run(s, events);
      StepOk(s, events[0]);
      StepUsesUp(s, events[0], d);
      RunUsesUp(s', events[1..], d);
      assert Added(s.db, end.db) == Added(s.db, s'.db) + Added(s'.db, end.db);
      ExchangesJoin(Added(s.db, s'.db), Added(s'.db, end.db), d);
    }
  }

  /** Once a device is revoked, exchanges for it are answered at most once for
      each request that was past its device check at that moment, and had read
      its token or names one that was not stored yet; all others get nothing. */
  lemma RevokedDeviceExchanges(s: State, d: Name, events: seq<Event>)
    requires Reachable(s) && d in s.db.devices && s.db.devices[d].status != Revoked
    ensures var revoked := Step(s, Outside(DeviceRevoked(d)));
      Exchanges(Added(s.db, Run(revoked, events).db), d) <= |PassingAll(revoked, d)|
    ensures forall r :: r in PassingAll(Step(s, Outside(DeviceRevoked(d))), d) ==>
      var q := s.requests[r];
      (q.ExchangeToken? && q.subject !in s.db.tokens) || q.ExchangeUser? || q.ExchangeTarget?
  {
    ReachableOk(s);
    var revoked := Step(s, Outside(DeviceRevoked(d)));
    StepOk(s, Outside(DeviceRevoked(d)));
    assert revoked.db.hist == s.db.hist;
    RunUsesUp(revoked, events, d);
  }
}
