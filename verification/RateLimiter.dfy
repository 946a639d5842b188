/** The fixed-window limiter: what reaping may not change, and how many
    failures it lets through. Times are nanoseconds. */
module RateLimiter {

  const DEFAULT_MAX: int := 5
  const DEFAULT_TTL: int := 900_000_000_000

  datatype Window = Window(count: int, resetAt: int)

  datatype Limiter = Limiter(windows: map<string, Window>, lastReap: int)

  datatype Op = Allow(key: string, max: int, ttl: int) | Fail(key: string, ttl: int) | Reset(key: string)

  datatype Call = Call(op: Op, now: int)

  function Max(max: int): (r: nat)
    ensures r >= 1
  {
    if max < 1 then DEFAULT_MAX else max
  }

  function Ttl(ttl: int): (r: int)
    ensures r > 0
  {
    if ttl <= 0 then DEFAULT_TTL else ttl
  }

  function Reap(l: Limiter, now: int, ttl: int): Limiter {
    if now - l.lastReap < ttl then l
    else Limiter(map k | k in l.windows && now <= l.windows[k].resetAt :: l.windows[k], now)
  }

  predicate Expired(l: Limiter, key: string, now: int) {
    key !in l.windows || now > l.windows[key].resetAt
  }

  /** One call: the answer of Allowed (true for the others) and the new state. */
  function Apply(l: Limiter, c: Call): (bool, Limiter) {
    match c.op
    case Allow(key, max, ttl) =>
      var l' := Reap(l, c.now, Ttl(ttl));
      (Expired(l', key, c.now) || l'.windows[key].count < Max(max), l')
    case Fail(key, ttl) =>
      (true, Bump(Reap(l, c.now, Ttl(ttl)), key, c.now, Ttl(ttl)))
    case Reset(key) => (true, l.(windows := l.windows - {key}))
  }

  function Bump(l: Limiter, key: string, now: int, ttl: int): Limiter {
    l.(windows := l.windows[key :=
      if Expired(l, key, now) then Window(1, now + ttl)
      else Window(l.windows[key].count + 1, l.windows[key].resetAt)])
  }

  function Answers(l: Limiter, calls: seq<Call>): seq<bool>
    decreases |calls|
  {
    if calls == [] then [] else [Apply(l, calls[0]).0] + Answers(Apply(l, calls[0]).1, calls[1..])
  }

  function After(l: Limiter, calls: seq<Call>): Limiter
    decreases |calls|
  {
    if calls == [] then l else After(Apply(l, calls[0]).1, calls[1..])
  }

  /** The clock never goes back. */
  ghost predicate Timed(now: int, calls: seq<Call>) {
    forall i :: 0 <= i < |calls| ==> now <= calls[i].now && forall j :: i < j < |calls| ==> calls[i].now <= calls[j].now
  }

  // ----- the limiter that never deletes -----

  function ApplyKeeping(l: Limiter, c: Call): (bool, Limiter) {
    match c.op
    case Allow(key, max, ttl) => (Expired(l, key, c.now) || l.windows[key].count < Max(max), l)
    case Fail(key, ttl) => (true, Bump(l, key, c.now, Ttl(ttl)))
    case Reset(key) => (true, l.(windows := l.windows - {key}))
  }

  function AnswersKeeping(l: Limiter, calls: seq<Call>): seq<bool>
    decreases |calls|
  {
    if calls == [] then [] else [ApplyKeeping(l, calls[0]).0] + AnswersKeeping(ApplyKeeping(l, calls[0]).1, calls[1..])
  }

  /** Windows differ only where one has deleted an expired one. */
  ghost predicate Matches(l: Limiter, kept: Limiter, now: int) {
    forall k {:trigger k in l.windows} {:trigger k in kept.windows} ::
      if k in l.windows then k in kept.windows && kept.windows[k] == l.windows[k]
      else Expired(kept, k, now)
  }

  lemma MatchesApply(l: Limiter, kept: Limiter, c: Call, now: int)
    requires Matches(l, kept, now) && now <= c.now
    ensures Apply(l, c).0 == ApplyKeeping(kept, c).0
    ensures Matches(Apply(l, c).1, ApplyKeeping(kept, c).1, c.now)
  {
    if !c.op.Reset? {
      var l' := Reap(l, c.now, Ttl(c.op.ttl));
      assert Matches(l', kept, c.now);
      assert Expired(l', c.op.key, c.now) == Expired(kept, c.op.key, c.now);
    }
  }

  /** Deleting expired windows never changes an answer. */
  lemma {:induction false} ReapingIsInvisible(l: Limiter, kept: Limiter, calls: seq<Call>, now: int)
    requires Matches(l, kept, now) && Timed(now, calls)
    ensures Answers(l, calls) == AnswersKeeping(kept, calls)
    decreases |calls|
  {
    if calls != [] {
      MatchesApply(l, kept, calls[0], now);
      TimedRest(now, calls);
      ReapingIsInvisible(Apply(l, calls[0]).1, ApplyKeeping(kept, calls[0]).1, calls[1..], calls[0].now);
    }
  }

  lemma TimedRest(now: int, calls: seq<Call>)
    requires Timed(now, calls) && calls != []
    ensures now <= calls[0].now && Timed(calls[0].now, calls[1..])
  {
  }

  // ----- how many failures get through -----

  /** Each Fail on the key directly follows, among the calls on the key, an
      Allowed with the same limits that answered true; the key is not reset. */
  ghost predicate Disciplined(l: Limiter, armed: bool, calls: seq<Call>, key: string, max: int, ttl: int)
    decreases |calls|
  {
    calls == [] ||
    (var c := calls[0];
     && (c.op.key == key && c.op.Fail? ==> armed && c.op.ttl == ttl)
     && !(c.op.key == key && c.op.Reset?)
     && Disciplined(Apply(l, c).1, Armed(l, armed, c, key, max, ttl), calls[1..], key, max, ttl))
  }

  function Armed(l: Limiter, armed: bool, c: Call, key: string, max: int, ttl: int): bool {
    if c.op.key != key then armed else c.op == Allow(key, max, ttl) && Apply(l, c).0
  }

  function FailTimes(calls: seq<Call>, key: string): seq<int>
    decreases |calls|
  {
    if calls == [] then []
    else (if calls[0].op.Fail? && calls[0].op.key == key then [calls[0].now] else []) + FailTimes(calls[1..], key)
  }

  ghost predicate Sorted(f: seq<int>) {
    forall i, j :: 0 <= i < j < |f| ==> f[i] <= f[j]
  }

  predicate SpreadAt(f: seq<int>, n: nat, ttl: int, i: nat) {
    i + n < |f| ==> f[i] + ttl < f[i + n]
  }

  /** Any n + 1 consecutive failures take longer than ttl. */
  ghost predicate Spread(f: seq<int>, n: nat, ttl: int) {
    forall i {:trigger SpreadAt(f, n, ttl, i)} :: SpreadAt(f, n, ttl, i)
  }

  /** The most failures in an interval of length ttl: a window's first failure
      and the next window's are further apart. */
  function Most(max: nat): nat {
    if max == 0 then 0 else 2 * max - 1
  }

  /** Where the current window and the one before it start among the failures. */
  datatype Track = Track(f: seq<int>, prev: nat, cur: nat)

  ghost predicate Tracks(l: Limiter, armed: bool, tr: Track, key: string, max: nat, ttl: int, now: int) {
    var n := |tr.f|;
    && Sorted(tr.f) && (n > 0 ==> tr.f[n - 1] <= now) && Spread(tr.f, Most(max), ttl)
    && (n == 0 ==> key !in l.windows && tr.cur == tr.prev == 0)
    && (n > 0 ==>
          && tr.prev <= tr.cur < n && n - tr.cur <= max && tr.cur - tr.prev <= max
          && (tr.prev < tr.cur ==> tr.f[tr.prev] + ttl < tr.f[tr.cur])
          && (tr.prev == tr.cur ==> tr.cur == 0)
          && (if key in l.windows then l.windows[key] == Window(n - tr.cur, tr.f[tr.cur] + ttl) else now > tr.f[tr.cur] + ttl))
    && (armed ==> Expired(l, key, now) || l.windows[key].count < max)
  }

  function Append(tr: Track, t: int, opens: bool): Track {
    Track(tr.f + [t], if opens then tr.cur else tr.prev, if opens then |tr.f| else tr.cur)
  }

  /** The arithmetic: a failure that is let through comes more than ttl after
      the one that is 2 * max - 1 failures before it. */
  lemma SpreadAppend(tr: Track, t: int, max: nat, ttl: int, opens: bool)
    requires max >= 1 && ttl > 0 && Sorted(tr.f) && Spread(tr.f, Most(max), ttl)
    requires |tr.f| > 0 ==>
      && tr.f[|tr.f| - 1] <= t && tr.prev <= tr.cur < |tr.f| && |tr.f| - tr.cur <= max && tr.cur - tr.prev <= max
      && (tr.prev < tr.cur ==> tr.f[tr.prev] + ttl < tr.f[tr.cur]) && (tr.prev == tr.cur ==> tr.cur == 0)
      && (if opens then tr.f[tr.cur] + ttl < t else |tr.f| - tr.cur < max)
    ensures Sorted(tr.f + [t]) && Spread(tr.f + [t], Most(max), ttl)
  {
    var f, n := tr.f + [t], |tr.f|;
    forall i: nat ensures SpreadAt(f, Most(max), ttl, i) {
      if i + Most(max) != n {
        assert SpreadAt(tr.f, Most(max), ttl, i);
      } else if opens {
        assert i <= tr.cur;
        assert tr.f[i] <= tr.f[tr.cur];
      } else {
        assert i <= tr.prev;
        assert tr.f[i] <= tr.f[tr.prev];
        assert tr.f[tr.cur] <= t;
      }
    }
  }

  lemma TracksCall(l: Limiter, armed: bool, tr: Track, c: Call, key: string, max: int, ttl: int, now: int)
    requires Tracks(l, armed, tr, key, Max(max), Ttl(ttl), now) && now <= c.now
    requires c.op.key == key && c.op.Fail? ==> armed && c.op.ttl == ttl
    requires !(c.op.key == key && c.op.Reset?)
    ensures var opens := Expired(l, key, c.now);
      var tr' := if c.op.Fail? && c.op.key == key then Append(tr, c.now, |tr.f| > 0 && opens) else tr;
      Tracks(Apply(l, c).1, Armed(l, armed, c, key, max, ttl), tr', key, Max(max), Ttl(ttl), c.now)
  {
    if c.op.Fail? && c.op.key == key {
      LetThrough(l, armed, tr, c, key, max, ttl, now);
      FailingCall(l, armed, tr, c, key, max, ttl, now);
    } else {
      OtherCall(l, armed, tr, c, key, max, ttl, now);
    }
  }

  lemma LetThrough(l: Limiter, armed: bool, tr: Track, c: Call, key: string, max: int, ttl: int, now: int)
    requires Tracks(l, armed, tr, key, Max(max), Ttl(ttl), now) && now <= c.now && armed
    ensures Sorted(tr.f + [c.now]) && Spread(tr.f + [c.now], Most(Max(max)), Ttl(ttl))
  {
    SpreadAppend(tr, c.now, Max(max), Ttl(ttl), |tr.f| > 0 && Expired(l, key, c.now));
  }

  lemma OtherCall(l: Limiter, armed: bool, tr: Track, c: Call, key: string, max: int, ttl: int, now: int)
    requires Tracks(l, armed, tr, key, Max(max), Ttl(ttl), now) && now <= c.now
    requires !(c.op.key == key && (c.op.Fail? || c.op.Reset?))
    ensures Tracks(Apply(l, c).1, Armed(l, armed, c, key, max, ttl), tr, key, Max(max), Ttl(ttl), c.now)
  {
    hide Sorted, Spread;
    var l' := Apply(l, c).1;
    assert key in l'.windows ==> key in l.windows && l'.windows[key] == l.windows[key];
    assert key in l.windows && key !in l'.windows ==> c.now > l.windows[key].resetAt;
  }

  lemma FailingCall(l: Limiter, armed: bool, tr: Track, c: Call, key: string, max: int, ttl: int, now: int)
    requires Tracks(l, armed, tr, key, Max(max), Ttl(ttl), now) && now <= c.now && armed && c.op == Fail(key, ttl)
    requires Sorted(tr.f + [c.now]) && Spread(tr.f + [c.now], Most(Max(max)), Ttl(ttl))
    ensures Tracks(Apply(l, c).1, false, Append(tr, c.now, |tr.f| > 0 && Expired(l, key, c.now)), key, Max(max), Ttl(ttl), c.now)
  {
    hide Sorted, Spread;
    var l' := Reap(l, c.now, Ttl(ttl));
    assert Expired(l', key, c.now) == Expired(l, key, c.now);
  }

  lemma {:induction false} FailuresTracked(l: Limiter, armed: bool, tr: Track, calls: seq<Call>, key: string, max: int, ttl: int, now: int)
    requires Tracks(l, armed, tr, key, Max(max), Ttl(ttl), now) && Timed(now, calls)
    requires Disciplined(l, armed, calls, key, max, ttl)
    ensures Sorted(tr.f + FailTimes(calls, key)) && Spread(tr.f + FailTimes(calls, key), Most(Max(max)), Ttl(ttl))
    ensures NotOverfull(After(l, calls), key, max)
    decreases |calls|
  {
    hide Tracks, Sorted, Spread, Apply, Timed, Disciplined;
    if calls == [] {
      TracksSpread(l, armed, tr, key, max, ttl, now);
      assert tr.f + [] == tr.f;
    } else {
      var c := calls[0];
      DisciplinedStep(l, armed, calls, key, max, ttl);
      TimedRest(now, calls);
      TracksCall(l, armed, tr, c, key, max, ttl, now);
      var tr' := if c.op.Fail? && c.op.key == key then Append(tr, c.now, |tr.f| > 0 && Expired(l, key, c.now)) else tr;
      FailuresTracked(Apply(l, c).1, Armed(l, armed, c, key, max, ttl), tr', calls[1..], key, max, ttl, c.now);
      FailTimesStep(tr.f, calls, key);
    }
  }

  predicate NotOverfull(l: Limiter, key: string, max: int) {
    key in l.windows ==> 1 <= l.windows[key].count <= Max(max)
  }

  lemma TracksSpread(l: Limiter, armed: bool, tr: Track, key: string, max: int, ttl: int, now: int)
    requires Tracks(l, armed, tr, key, Max(max), Ttl(ttl), now)
    ensures Sorted(tr.f) && Spread(tr.f, Most(Max(max)), Ttl(ttl)) && NotOverfull(l, key, max)
  {
  }

  lemma DisciplinedStep(l: Limiter, armed: bool, calls: seq<Call>, key: string, max: int, ttl: int)
    requires Disciplined(l, armed, calls, key, max, ttl) && calls != []
    ensures var c := calls[0];
      && (c.op.key == key && c.op.Fail? ==> armed && c.op.ttl == ttl) && !(c.op.key == key && c.op.Reset?)
      && Disciplined(Apply(l, c).1, Armed(l, armed, c, key, max, ttl), calls[1..], key, max, ttl)
  {
  }

  lemma FailTimesStep(f: seq<int>, calls: seq<Call>, key: string)
    requires calls != []
    ensures var c := calls[0];
      f + FailTimes(calls, key)
      == (if c.op.Fail? && c.op.key == key then f + [c.now] else f) + FailTimes(calls[1..], key)
  {
    assert f + ([calls[0].now] + FailTimes(calls[1..], key)) == f + [calls[0].now] + FailTimes(calls[1..], key);
    assert [] + FailTimes(calls[1..], key) == FailTimes(calls[1..], key);
  }

  function Within(f: seq<int>, from: int, ttl: int): set<int> {
    set i | 0 <= i < |f| && from <= f[i] <= from + ttl
  }

  /** The first failure not before the given time. */
  function FirstFrom(f: seq<int>, from: int): (lo: nat)
    ensures lo <= |f| && forall i :: 0 <= i < lo ==> f[i] < from
    ensures lo < |f| ==> f[lo] >= from
  {
    if f == [] || f[0] >= from then 0
    else
      assert forall i :: 0 < i < |f| ==> f[i] == f[1..][i - 1];
      1 + FirstFrom(f[1..], from)
  }

  function Range(lo: int, n: nat): (s: set<int>)
    ensures |s| == n && forall i :: i in s <==> lo <= i < lo + n
  {
    if n == 0 then {} else Range(lo, n - 1) + {lo + n - 1}
  }

  lemma SpreadCounts(f: seq<int>, n: nat, ttl: int, from: int)
    requires Sorted(f) && Spread(f, n, ttl)
    ensures |Within(f, from, ttl)| <= n
  {
    var s, lo := Within(f, from, ttl), FirstFrom(f, from);
    WithinWindow(f, n, ttl, from, lo);
    hide Within, Sorted, Spread;
    assert Range(lo, n) == s + (Range(lo, n) - s);
  }

  lemma WithinWindow(f: seq<int>, n: nat, ttl: int, from: int, lo: nat)
    requires Sorted(f) && Spread(f, n, ttl)
    requires lo <= |f| && (forall i :: 0 <= i < lo ==> f[i] < from) && (lo < |f| ==> f[lo] >= from)
    ensures Within(f, from, ttl) <= Range(lo, n)
  {
    assert SpreadAt(f, n, ttl, lo);
    forall i | i in Within(f, from, ttl) ensures i in Range(lo, n) {
      if i >= lo + n { assert f[lo + n] <= f[i]; }
    }
  }

  /** Whatever the other keys do, one window holds at most max failures of the
      key and every closed interval of length ttl at most 2 * max - 1. Limits that
      are not positive stand for five failures and fifteen minutes. */
  lemma FailuresPerInterval(calls: seq<Call>, key: string, max: int, ttl: int, start: int, lastReap: int, from: int)
    requires Timed(start, calls) && Disciplined(Limiter(map[], lastReap), false, calls, key, max, ttl)
    ensures var m, d := if max >= 1 then max else 5, if ttl > 0 then ttl else 15 * 60 * 1_000_000_000;
      var l := After(Limiter(map[], lastReap), calls);
      |Within(FailTimes(calls, key), from, d)| <= 2 * m - 1 && (key in l.windows ==> 1 <= l.windows[key].count <= m)
  {
    hide Disciplined, Timed;
    FailuresTracked(Limiter(map[], lastReap), false, Track([], 0, 0), calls, key, max, ttl, start);
    hide Sorted, Spread, FailTimes;
    assert [] + FailTimes(calls, key) == FailTimes(calls, key);
    SpreadCounts(FailTimes(calls, key), Most(Max(max)), Ttl(ttl), from);
  }

  // ----- the bound is reached -----

  /** So many failures at one time, each let through. */
  function Burst(key: string, max: int, ttl: int, t: int, n: nat): seq<Call> {
    if n == 0 then [] else [Call(Allow(key, max, ttl), t), Call(Fail(key, ttl), t)] + Burst(key, max, ttl, t, n - 1)
  }

  /** One failure opens a window; the others come at its end; a full window's
      worth follows just after it. */
  function Schedule(key: string, max: int, ttl: int, t: int): seq<Call> {
    Burst(key, max, ttl, t, 1) + (Burst(key, max, ttl, t + Ttl(ttl), Max(max) - 1) + Burst(key, max, ttl, t + Ttl(ttl) + 1, Max(max)))
  }

  /** The window after n more failures at a time. */
  function Fuller(l: Limiter, key: string, ttl: int, t: int, n: nat): Window {
    if Expired(l, key, t) then Window(n, t + ttl) else Window(l.windows[key].count + n, l.windows[key].resetAt)
  }

  predicate HasWindow(l: Limiter, key: string, w: Window) {
    key in l.windows && l.windows[key] == w
  }

  /** From any limiter with this window of the key the calls are disciplined. */
  ghost predicate GoesOn(key: string, w: Window, calls: seq<Call>, max: int, ttl: int) {
    forall l {:trigger HasWindow(l, key, w)} :: HasWindow(l, key, w) ==> Disciplined(l, false, calls, key, max, ttl)
  }

  lemma OneLetThrough(l: Limiter, key: string, max: int, ttl: int, t: int, rest: seq<Call>)
    requires Expired(l, key, t) || l.windows[key].count < Max(max)
    ensures var calls := [Call(Allow(key, max, ttl), t), Call(Fail(key, ttl), t)] + rest;
      var l' := Apply(Apply(l, calls[0]).1, calls[1]).1;
      && HasWindow(l', key, Fuller(l, key, Ttl(ttl), t, 1))
      && After(l, calls) == After(l', rest)
      && (Disciplined(l', false, rest, key, max, ttl) ==> Disciplined(l, false, calls, key, max, ttl))
  {
    var calls := [Call(Allow(key, max, ttl), t), Call(Fail(key, ttl), t)] + rest;
    var l1 := Apply(l, calls[0]).1;
    assert Expired(l1, key, t) == Expired(l, key, t);
    assert calls[1..][1..] == rest;
    assert After(l1, calls[1..]) == After(Apply(l1, calls[1]).1, rest);
    assert Disciplined(Apply(l1, calls[1]).1, false, rest, key, max, ttl) ==> Disciplined(l1, true, calls[1..], key, max, ttl);
  }

  lemma {:induction false} BurstLetThrough(l: Limiter, key: string, max: int, ttl: int, t: int, n: nat, rest: seq<Call>)
    requires n > 0 && Fuller(l, key, Ttl(ttl), t, n).count <= Max(max)
    requires Expired(l, key, t) || t <= l.windows[key].resetAt
    requires GoesOn(key, Fuller(l, key, Ttl(ttl), t, n), rest, max, ttl)
    ensures Disciplined(l, false, Burst(key, max, ttl, t, n) + rest, key, max, ttl)
    decreases n
  {
    var more := Burst(key, max, ttl, t, n - 1) + rest;
    var l' := Apply(Apply(l, Call(Allow(key, max, ttl), t)).1, Call(Fail(key, ttl), t)).1;
    OneLetThrough(l, key, max, ttl, t, more);
    assert Burst(key, max, ttl, t, n) + rest == [Call(Allow(key, max, ttl), t), Call(Fail(key, ttl), t)] + more;
    if n == 1 {
      assert more == rest;
    } else {
      assert Fuller(l', key, Ttl(ttl), t, n - 1) == Fuller(l, key, Ttl(ttl), t, n);
      BurstLetThrough(l', key, max, ttl, t, n - 1, rest);
    }
  }

  lemma {:induction false} BurstTimed(now: int, key: string, max: int, ttl: int, t: int, n: nat, rest: seq<Call>)
    requires now <= t && Timed(t, rest)
    ensures Timed(now, Burst(key, max, ttl, t, n) + rest)
    decreases n
  {
    if n == 0 {
      assert [] + rest == rest;
    } else {
      BurstTimed(t, key, max, ttl, t, n - 1, rest);
      var more := Burst(key, max, ttl, t, n - 1) + rest;
      assert Burst(key, max, ttl, t, n) + rest == [Call(Allow(key, max, ttl), t), Call(Fail(key, ttl), t)] + more;
    }
  }

  function Times(t: int, n: nat): (r: seq<int>)
    ensures |r| == n && forall i :: 0 <= i < n ==> r[i] == t
  {
    if n == 0 then [] else [t] + Times(t, n - 1)
  }

  lemma PairFails(key: string, max: int, ttl: int, t: int, rest: seq<Call>)
    ensures FailTimes([Call(Allow(key, max, ttl), t), Call(Fail(key, ttl), t)] + rest, key) == [t] + FailTimes(rest, key)
  {
    var calls := [Call(Allow(key, max, ttl), t), Call(Fail(key, ttl), t)] + rest;
    assert calls[1..][1..] == rest;
    assert FailTimes(calls[1..], key) == [t] + FailTimes(rest, key);
  }

  lemma {:induction false} BurstFails(key: string, max: int, ttl: int, t: int, n: nat, rest: seq<Call>)
    ensures FailTimes(Burst(key, max, ttl, t, n) + rest, key) == Times(t, n) + FailTimes(rest, key)
    decreases n
  {
    hide FailTimes;
    if n == 0 {
      assert [] + rest == rest;
    } else {
      var more := Burst(key, max, ttl, t, n - 1) + rest;
      BurstFails(key, max, ttl, t, n - 1, rest);
      PairFails(key, max, ttl, t, more);
      assert Burst(key, max, ttl, t, n) + rest == [Call(Allow(key, max, ttl), t), Call(Fail(key, ttl), t)] + more;
      assert [t] + (Times(t, n - 1) + FailTimes(rest, key)) == Times(t, n) + FailTimes(rest, key);
    }
  }

  lemma ScheduleDisciplined(key: string, max: int, ttl: int, t: int, lastReap: int)
    ensures Disciplined(Limiter(map[], lastReap), false, Schedule(key, max, ttl, t), key, max, ttl)
  {
    hide Disciplined;
    var l, m, d := Limiter(map[], lastReap), Max(max), Ttl(ttl);
    var last := Burst(key, max, ttl, t + d + 1, m);
    var middle := Burst(key, max, ttl, t + d, m - 1);
    forall l1 | HasWindow(l1, key, Window(1, t + d)) ensures Disciplined(l1, false, middle + last, key, max, ttl) {
      if m == 1 {
        assert middle + last == last;
        LastBurst(l1, key, max, ttl, t);
      } else {
        forall l2 | HasWindow(l2, key, Window(m, t + d)) ensures Disciplined(l2, false, last, key, max, ttl) {
          LastBurst(l2, key, max, ttl, t);
        }
        BurstLetThrough(l1, key, max, ttl, t + d, m - 1, last);
      }
    }
    BurstLetThrough(l, key, max, ttl, t, 1, middle + last);
  }

  lemma LastBurst(l: Limiter, key: string, max: int, ttl: int, t: int)
    requires key in l.windows && l.windows[key].resetAt == t + Ttl(ttl)
    ensures Disciplined(l, false, Burst(key, max, ttl, t + Ttl(ttl) + 1, Max(max)), key, max, ttl)
  {
    var last := Burst(key, max, ttl, t + Ttl(ttl) + 1, Max(max));
    assert last + [] == last;
    BurstLetThrough(l, key, max, ttl, t + Ttl(ttl) + 1, Max(max), []);
  }

  lemma ScheduleTimed(key: string, max: int, ttl: int, t: int)
    ensures Timed(t, Schedule(key, max, ttl, t))
  {
    hide Timed;
    var m, d := Max(max), Ttl(ttl);
    var last := Burst(key, max, ttl, t + d + 1, m);
    assert last + [] == last;
    NoneTimed(t + d + 1);
    BurstTimed(t + d, key, max, ttl, t + d + 1, m, []);
    BurstTimed(t, key, max, ttl, t + d, m - 1, last);
    BurstTimed(t, key, max, ttl, t, 1, Burst(key, max, ttl, t + d, m - 1) + last);
  }

  lemma NoneTimed(now: int)
    ensures Timed(now, [])
  {
  }

  lemma ScheduleFails(key: string, max: int, ttl: int, t: int)
    ensures FailTimes(Schedule(key, max, ttl, t), key)
         == Times(t, 1) + (Times(t + Ttl(ttl), Max(max) - 1) + Times(t + Ttl(ttl) + 1, Max(max)))
  {
    NoneFail(key);
    hide FailTimes, Times;
    var m, d := Max(max), Ttl(ttl);
    var last := Burst(key, max, ttl, t + d + 1, m);
    assert last + [] == last;
    BurstFails(key, max, ttl, t + d + 1, m, []);
    BurstFails(key, max, ttl, t + d, m - 1, last);
    BurstFails(key, max, ttl, t, 1, Burst(key, max, ttl, t + d, m - 1) + last);
    assert Times(t + d + 1, m) + [] == Times(t + d + 1, m);
  }

  lemma NoneFail(key: string)
    ensures FailTimes([], key) == []
  {
  }

  /** For every limit and time, an interval of length ttl with the most failures. */
  lemma BoundIsReached(key: string, max: int, ttl: int, t: int, lastReap: int)
    ensures var calls := Schedule(key, max, ttl, t);
      var m, d := if max >= 1 then max else 5, if ttl > 0 then ttl else 15 * 60 * 1_000_000_000;
      && Timed(t, calls) && Disciplined(Limiter(map[], lastReap), false, calls, key, max, ttl)
      && |Within(FailTimes(calls, key), t + 1, d)| == 2 * m - 1
  {
    hide Disciplined, Timed, Schedule, FailTimes;
    ScheduleDisciplined(key, max, ttl, t, lastReap);
    ScheduleTimed(key, max, ttl, t);
    ScheduleFails(key, max, ttl, t);
    assert Within(FailTimes(Schedule(key, max, ttl, t), key), t + 1, Ttl(ttl)) == Range(1, Most(Max(max)));
  }

  // ----- the limiter as mutable state -----

  class Limit {
    var windows: map<string, Window>
    var lastReap: int

    ghost function State(): Limiter
      reads this
    {
      Limiter(windows, lastReap)
    }

    method DropExpired(now: int, ttl: int)
      modifies this
      ensures State() == Reap(old(State()), now, ttl)
      ensures now - old(lastReap) < ttl ==> windows == old(windows) && lastReap == old(lastReap)
      ensures now - old(lastReap) >= ttl ==>
        lastReap == now && forall k :: k in windows <==> k in old(windows) && now <= old(windows)[k].resetAt
      ensures forall k :: k in windows ==> k in old(windows) && windows[k] == old(windows)[k]
    {
      if now - lastReap < ttl {
        return;
      }
      lastReap := now;
      var rest := windows.Keys;
      while rest != {}
        invariant rest <= windows.Keys && windows.Keys <= old(windows).Keys && lastReap == now
        invariant forall k :: k in old(windows) && (k in rest || now <= old(windows)[k].resetAt) ==> k in windows
        invariant forall k :: k in windows ==> windows[k] == old(windows)[k] && (k in rest || now <= windows[k].resetAt)
        decreases rest
      {
        var k :| k in rest;
        rest := rest - {k};
        if now > windows[k].resetAt {
          windows := windows - {k};
        }
      }
    }

    method Allowed(key: string, max: int, ttl: int, now: int) returns (ok: bool)
      modifies this
      ensures (ok, State()) == Apply(old(State()), Call(Allow(key, max, ttl), now))
      ensures ok <==>
        || key !in old(windows) || now > old(windows)[key].resetAt
        || old(windows)[key].count < (if max >= 1 then max else 5)
    {
      DropExpired(now, Ttl(ttl));
      if key !in windows || now > windows[key].resetAt {
        return true;
      }
      return windows[key].count < Max(max);
    }

    method RecordFail(key: string, ttl: int, now: int)
      modifies this
      ensures State() == Apply(old(State()), Call(Fail(key, ttl), now)).1
      ensures key in windows && windows[key] ==
        if key !in old(windows) || now > old(windows)[key].resetAt then Window(1, now + if ttl > 0 then ttl else 15 * 60 * 1_000_000_000)
        else Window(old(windows)[key].count + 1, old(windows)[key].resetAt)
    {
      DropExpired(now, Ttl(ttl));
      if key !in windows || now > windows[key].resetAt {
        windows := windows[key := Window(1, now + Ttl(ttl))];
        return;
      }
      windows := windows[key := windows[key].(count := windows[key].count + 1)];
    }

    method Clear(key: string)
      modifies this
      ensures State() == Apply(old(State()), Call(Reset(key), 0)).1
      ensures windows == old(windows) - {key}
    {
      windows := windows - {key};
    }
  }
}
