/** The client's polling loop against the server's poll throttle. Times are
    nanoseconds; the two clocks run at the same rate. */
module Polling {
  import opened Options
  import opened GrantStore

  const SECOND: int := 1_000_000_000

  datatype Reply = Tokens | AuthorizationPending | SlowDown | ExpiredToken | OtherError

  /** What the throttle reads and writes of a device code. */
  datatype Row = Row(lastPolled: Option<int>, expiresAt: int)

  /** The token endpoint as its one poller sees it; usable: device and user pass
      their checks, and the tokens can be stored; marked: the poll's time is
      stored, an error of which the handler ignores. */
  function Serve(row: Row, now: int, status: CodeStatus, usable: bool, marked: bool): (Reply, Row) {
    var polled := if marked then row.(lastPolled := Some(now)) else row;
    if now > row.expiresAt then (ExpiredToken, row)
    else if row.lastPolled.Some? && now - row.lastPolled.value < POLL_INTERVAL then (SlowDown, polled)
    else
      (match status
       case Pending => AuthorizationPending
       case Approved => if usable then Tokens else OtherError
       case _ => OtherError,
       polled)
  }

  /** For the k-th poll: how long until the server handles it, until the answer
      is back, and how much longer than asked the client sleeps; what the
      server finds; whether the exchange fails or the caller gives up. */
  datatype World = World(
    out: nat -> nat, back: nat -> nat, oversleep: nat -> nat,
    status: nat -> CodeStatus, usable: nat -> bool, marked: nat -> bool, lost: nat -> bool, cancelled: nat -> bool)

  datatype Outcome = Redeemed | Failed | TimedOut | Cancelled

  function Interval(advertised: int): (r: int)
    ensures r >= SECOND
  {
    if advertised < 1 then POLL_INTERVAL else advertised * SECOND
  }

  function SlowDowns(replies: seq<Reply>): nat {
    if replies == [] then 0 else SlowDowns(replies[..|replies| - 1]) + if replies[|replies| - 1].SlowDown? then 1 else 0
  }

  lemma SlowDownsAppend(replies: seq<Reply>, r: Reply)
    ensures SlowDowns(replies + [r]) == SlowDowns(replies) + if r.SlowDown? then 1 else 0
  {
    assert (replies + [r])[..|replies|] == replies;
  }

  predicate KeepsWaiting(r: Reply) {
    r.AuthorizationPending? || r.SlowDown?
  }

  /** At most this many polls fit the lifetime of the code. */
  function MaxPolls(advertised: int, expiresIn: int): int {
    if expiresIn < 0 then 1 else expiresIn * SECOND / Interval(advertised) + 2
  }

  /** So many intervals have gone by. */
  predicate Fits(k: nat, interval: int, elapsed: int) {
    k * interval <= elapsed
  }

  lemma FitsNext(k: nat, interval: int, elapsed: int, elapsed': int)
    requires Fits(k, interval, elapsed) && elapsed + interval <= elapsed'
    ensures Fits(k + 1, interval, elapsed')
  {
    assert (k + 1) * interval == k * interval + interval;
  }

  lemma FitsQuotient(k: nat, interval: int, lifetime: int)
    requires interval > 0 && Fits(k, interval, lifetime)
    ensures k <= lifetime / interval
  {
    if k > lifetime / interval {
      NextMultiple(lifetime / interval + 1, k, interval);
    }
  }

  lemma NextMultiple(m: int, n: int, d: int)
    requires m <= n && d > 0
    ensures m * d <= n * d
  {
  }

  /** The loop before its next poll: how often it has polled and been slowed
      down, its interval, its clock, and the code's row. */
  datatype Loop = Loop(polls: nat, slowDowns: nat, interval: int, now: int, row: Row)

  predicate LoopOk(l: Loop, advertised: int, expiresIn: int, start: int) {
    var first := Interval(advertised);
    && l.interval == first + l.slowDowns * POLL_INTERVAL && l.slowDowns <= 1
    && (first >= POLL_INTERVAL ==> l.slowDowns == 0)
    && (l.row.lastPolled.Some? ==> l.row.lastPolled.value + l.interval <= l.now)
    && start <= l.now && Fits(l.polls, first, l.now - start)
    && (l.polls > 0 ==> expiresIn >= 0 && Fits(l.polls - 1, first, expiresIn * SECOND))
  }

  lemma LoopStarts(advertised: int, expiresIn: int, start: int, row: Row)
    requires row.lastPolled.None?
    ensures LoopOk(Loop(0, 0, Interval(advertised), start, row), advertised, expiresIn, start)
  {
  }

  /** There is room for one more poll. */
  lemma OneMorePoll(l: Loop, advertised: int, expiresIn: int, start: int)
    requires LoopOk(l, advertised, expiresIn, start)
    ensures l.polls + 1 <= MaxPolls(advertised, expiresIn)
  {
    if l.polls > 0 {
      FitsQuotient(l.polls - 1, Interval(advertised), expiresIn * SECOND);
    } else if expiresIn >= 0 {
      assert Fits(0, Interval(advertised), expiresIn * SECOND);
      FitsQuotient(0, Interval(advertised), expiresIn * SECOND);
    }
  }

  /** A poll served at the given time, answered before the deadline, and a sleep
      of at least the new interval. */
  function Slept(l: Loop, served: int, status: CodeStatus, usable: bool, marked: bool, next: int): Loop {
    var (reply, row) := Serve(l.row, served, status, usable, marked);
    if reply.SlowDown? then Loop(l.polls + 1, l.slowDowns + 1, l.interval + POLL_INTERVAL, next, row)
    else Loop(l.polls + 1, l.slowDowns, l.interval, next, row)
  }

  lemma LoopGoesOn(l: Loop, advertised: int, expiresIn: int, start: int, served: int, status: CodeStatus, usable: bool, marked: bool, next: int)
    requires LoopOk(l, advertised, expiresIn, start) && l.now <= served <= start + expiresIn * SECOND
    requires KeepsWaiting(Serve(l.row, served, status, usable, marked).0)
    requires served + Slept(l, served, status, usable, marked, next).interval <= next
    ensures LoopOk(Slept(l, served, status, usable, marked, next), advertised, expiresIn, start)
  {
    FitsNext(l.polls, Interval(advertised), l.now - start, next - start);
    FitsLater(l.polls, Interval(advertised), l.now - start, expiresIn * SECOND);
  }

  lemma FitsLater(k: nat, interval: int, elapsed: int, elapsed': int)
    requires Fits(k, interval, elapsed) && elapsed <= elapsed'
    ensures Fits(k, interval, elapsed')
  {
  }

  /** What happened: when each poll was served and answered, with what, and the
      code's row before each poll and after the last. */
  datatype Turns = Turns(served: seq<int>, answered: seq<int>, replies: seq<Reply>, rows: seq<Row>)

  predicate Shaped(h: Turns, polls: nat) {
    |h.served| == |h.answered| == |h.replies| == polls && |h.rows| == polls + 1
  }

  /** The interval in seconds, five when none is advertised. */
  function Seconds(advertised: int): int {
    if advertised < 1 then 5 else advertised
  }

  /** The k-th poll was sent an interval after the answer before it, five seconds
      longer for each slow_down so far, and answered as the server does. */
  predicate TurnOk(h: Turns, k: nat, advertised: int, start: int, w: World)
    requires Shaped(h, |h.replies|) && k < |h.replies|
  {
    && h.served[k] == (if k == 0 then start
         else h.answered[k - 1] + (Seconds(advertised) + 5 * SlowDowns(h.replies[..k])) * SECOND + w.oversleep(k - 1)) + w.out(k)
    && h.answered[k] == h.served[k] + w.back(k)
    && (h.replies[k], h.rows[k + 1]) ==
         if w.lost(k) then (OtherError, h.rows[k]) else Serve(h.rows[k], h.served[k], w.status(k), w.usable(k), w.marked(k))
  }

  ghost predicate TurnsOk(h: Turns, advertised: int, start: int, w: World) {
    Shaped(h, |h.replies|) && forall k {:trigger TurnOk(h, k, advertised, start, w)} :: 0 <= k < |h.replies| ==> TurnOk(h, k, advertised, start, w)
  }

  function Turn(h: Turns, served: int, answered: int, reply: Reply, row: Row): Turns {
    Turns(h.served + [served], h.answered + [answered], h.replies + [reply], h.rows + [row])
  }

  lemma TurnAdded(h: Turns, advertised: int, start: int, w: World, served: int, answered: int, reply: Reply, row: Row)
    requires TurnsOk(h, advertised, start, w)
    requires var k := |h.replies|; TurnOk(Turn(h, served, answered, reply, row), k, advertised, start, w)
    ensures TurnsOk(Turn(h, served, answered, reply, row), advertised, start, w)
  {
    var h' := Turn(h, served, answered, reply, row);
    hide Serve, SlowDowns;
    forall k | 0 <= k < |h'.replies| ensures TurnOk(h', k, advertised, start, w) {
      if k < |h.replies| {
        assert TurnOk(h, k, advertised, start, w);
        assert h'.replies[..k] == h.replies[..k];
      }
    }
  }

  /** The loop goes on after the k-th poll. */
  predicate GoesOn(h: Turns, k: nat, deadline: int, w: World)
    requires k < |h.replies| == |h.answered|
  {
    KeepsWaiting(h.replies[k]) && h.answered[k] <= deadline && !w.cancelled(k)
  }

  ghost predicate AllGoOn(h: Turns, n: nat, deadline: int, w: World) {
    n <= |h.replies| == |h.answered| && forall k {:trigger GoesOn(h, k, deadline, w)} :: 0 <= k < n ==> GoesOn(h, k, deadline, w)
  }

  lemma GoesOnAdded(h: Turns, n: nat, deadline: int, w: World, served: int, answered: int, reply: Reply, row: Row)
    requires AllGoOn(h, n, deadline, w) && |h.replies| == n
    ensures var h' := Turn(h, served, answered, reply, row);
      AllGoOn(h', n, deadline, w) && (GoesOn(h', n, deadline, w) ==> AllGoOn(h', n + 1, deadline, w))
  {
    var h' := Turn(h, served, answered, reply, row);
    forall k | 0 <= k < n ensures GoesOn(h', k, deadline, w) {
      assert GoesOn(h, k, deadline, w);
    }
  }

  // ----- the loop -----

  /** The loop is about to poll again. */
  ghost predicate Waiting(l: Loop, h: Turns, advertised: int, expiresIn: int, start: int, issued: Row, w: World) {
    && Shaped(h, l.polls) && TurnsOk(h, advertised, start, w) && h.rows[0] == issued && h.rows[l.polls] == l.row
    && LoopOk(l, advertised, expiresIn, start) && l.slowDowns == SlowDowns(h.replies)
    && l.interval == (Seconds(advertised) + 5 * l.slowDowns) * SECOND
    && l.now == (if l.polls == 0 then start else h.answered[l.polls - 1] + l.interval + w.oversleep(l.polls - 1))
    && AllGoOn(h, l.polls, start + expiresIn * SECOND, w)
  }

  /** The server's part in the next poll. */
  function Answered(l: Loop, w: World): (Reply, Row) {
    if w.lost(l.polls) then (OtherError, l.row)
    else Serve(l.row, l.now + w.out(l.polls), w.status(l.polls), w.usable(l.polls), w.marked(l.polls))
  }

  function NextTurns(l: Loop, h: Turns, w: World): Turns {
    var served := l.now + w.out(l.polls);
    Turn(h, served, served + w.back(l.polls), Answered(l, w).0, Answered(l, w).1)
  }

  /** The loop after a poll that keeps it waiting, and a sleep. */
  function NextLoop(l: Loop, w: World): Loop {
    var served, interval := l.now + w.out(l.polls), l.interval + if Answered(l, w).0.SlowDown? then POLL_INTERVAL else 0;
    Slept(l, served, w.status(l.polls), w.usable(l.polls), w.marked(l.polls), served + w.back(l.polls) + interval + w.oversleep(l.polls))
  }

  lemma WaitingStarts(advertised: int, expiresIn: int, start: int, issued: Row, w: World)
    requires issued.lastPolled.None?
    ensures Waiting(Loop(0, 0, Interval(advertised), start, issued), Turns([], [], [], [issued]), advertised, expiresIn, start, issued, w)
  {
    IntervalIs(advertised);
    LoopStarts(advertised, expiresIn, start, issued);
  }

  lemma Polled(l: Loop, h: Turns, advertised: int, expiresIn: int, start: int, issued: Row, w: World)
    requires Waiting(l, h, advertised, expiresIn, start, issued, w)
    ensures var h' := NextTurns(l, h, w);
      && TurnsOk(h', advertised, start, w) && Shaped(h', l.polls + 1) && h'.rows[0] == issued
      && AllGoOn(h', l.polls, start + expiresIn * SECOND, w)
      && SlowDowns(h'.replies) <= 1 && (Seconds(advertised) >= 5 ==> SlowDowns(h'.replies) == 0)
    ensures if expiresIn < 0 then l.polls == 0 else l.polls + 1 <= expiresIn / Seconds(advertised) + 2
  {
    hide LoopOk, MaxPolls, Interval, SlowDowns, TurnsOk, AllGoOn, Seconds;
    var served, reply, row := l.now + w.out(l.polls), Answered(l, w).0, Answered(l, w).1;
    IntervalIs(advertised);
    OneMorePoll(l, advertised, expiresIn, start);
    PollsFit(l.polls + 1, advertised, expiresIn);
    SlowDownsAppend(h.replies, reply);
    SlowDownsBounded(l, advertised, expiresIn, start, served, w.status(l.polls), w.usable(l.polls), w.marked(l.polls));
    TurnIsOk(h, l.polls, advertised, start, w, served, served + w.back(l.polls), reply, row);
    GoesOnAdded(h, l.polls, start + expiresIn * SECOND, w, served, served + w.back(l.polls), reply, row);
  }

  lemma Resumes(l: Loop, h: Turns, advertised: int, expiresIn: int, start: int, issued: Row, w: World)
    requires Waiting(l, h, advertised, expiresIn, start, issued, w)
    requires Shaped(NextTurns(l, h, w), l.polls + 1) && GoesOn(NextTurns(l, h, w), l.polls, start + expiresIn * SECOND, w)
    ensures Waiting(NextLoop(l, w), NextTurns(l, h, w), advertised, expiresIn, start, issued, w)
  {
    hide LoopOk, MaxPolls, Interval, SlowDowns, TurnsOk, AllGoOn, Seconds;
    var served, reply := l.now + w.out(l.polls), Answered(l, w).0;
    Polled(l, h, advertised, expiresIn, start, issued, w);
    SlowDownsAppend(h.replies, reply);
    GoesOnAdded(h, l.polls, start + expiresIn * SECOND, w, served, served + w.back(l.polls), reply, Answered(l, w).1);
    LoopGoesOn(l, advertised, expiresIn, start, served, w.status(l.polls), w.usable(l.polls), w.marked(l.polls), NextLoop(l, w).now);
  }

  /** As the only poller of its code, the loop draws at most one slow_down, and
      none when the interval is at least the server's; it stops exactly at the
      first answer that is not to wait, past the lifetime of the code or when the
      caller gives up, and has the tokens exactly when a poll gets them. */
  method WaitForDeviceCode(advertised: int, expiresIn: int, start: int, issued: Row, w: World)
    returns (outcome: Outcome, polls: nat, row: Row, ghost h: Turns)
    requires issued.lastPolled.None?
    ensures TurnsOk(h, advertised, start, w) && Shaped(h, polls) && h.rows[0] == issued && h.rows[polls] == row
    ensures 1 <= polls && (if expiresIn < 0 then polls == 1 else polls <= expiresIn / Seconds(advertised) + 2)
    ensures SlowDowns(h.replies) <= 1
    ensures Seconds(advertised) >= 5 ==> SlowDowns(h.replies) == 0
    ensures AllGoOn(h, polls - 1, start + expiresIn * SECOND, w)
    ensures var last, late := h.replies[polls - 1], h.answered[polls - 1] > start + expiresIn * SECOND;
      && (outcome.Redeemed? <==> last.Tokens?)
      && (outcome.Failed? <==> last.ExpiredToken? || last.OtherError?)
      && (outcome.TimedOut? <==> KeepsWaiting(last) && late)
      && (outcome.Cancelled? <==> KeepsWaiting(last) && !late && w.cancelled(polls - 1))
    ensures outcome.Redeemed? ==> w.status(polls - 1).Approved? && w.usable(polls - 1) && !w.lost(polls - 1)
  {
    hide Waiting, Interval, SlowDowns, TurnsOk, AllGoOn, Seconds;
    var interval, now := Interval(advertised), start;
    var deadline := start + expiresIn * SECOND;
    polls, row, h := 0, issued, Turns([], [], [], [issued]);
    ghost var l := Loop(0, 0, interval, now, row);
    WaitingStarts(advertised, expiresIn, start, issued, w);
    while true
      invariant l.polls == polls && l.interval == interval && l.now == now && l.row == row
      invariant interval >= SECOND && Waiting(l, h, advertised, expiresIn, start, issued, w)
      decreases deadline + interval - now
    {
      ghost var before := h;
      Polled(l, h, advertised, expiresIn, start, issued, w);
      h := NextTurns(l, h, w);
      var reply := OtherError;
      if !w.lost(polls) {
        var answer := Serve(row, now + w.out(polls), w.status(polls), w.usable(polls), w.marked(polls));
        reply, row := answer.0, answer.1;
      }
      now := now + w.out(polls) + w.back(polls);
      polls := polls + 1;
      match reply {
        case Tokens => return Redeemed, polls, row, h;
        case AuthorizationPending =>
        case SlowDown => interval := interval + POLL_INTERVAL;
        case _ => return Failed, polls, row, h;
      }
      if now > deadline {
        return TimedOut, polls, row, h;
      }
      if w.cancelled(polls - 1) {
        return Cancelled, polls, row, h;
      }
      Resumes(l, before, advertised, expiresIn, start, issued, w);
      now := now + interval + w.oversleep(polls - 1);
      l := NextLoop(l, w);
    }
  }

  lemma IntervalIs(advertised: int)
    ensures Interval(advertised) == Seconds(advertised) * SECOND
    ensures Interval(advertised) >= POLL_INTERVAL <==> Seconds(advertised) >= 5
  {
  }

  lemma PollsFit(polls: nat, advertised: int, expiresIn: int)
    requires 1 <= polls <= MaxPolls(advertised, expiresIn)
    ensures if expiresIn < 0 then polls == 1 else polls <= expiresIn / Seconds(advertised) + 2
  {
    if expiresIn >= 0 { SameQuotient(expiresIn, Seconds(advertised)); }
  }

  lemma SameQuotient(a: nat, b: int)
    requires b > 0
    ensures a * SECOND / (b * SECOND) == a / b
  {
    var q, r := a / b, a % b;
    assert a * SECOND == q * (b * SECOND) + r * SECOND;
    QuotientIs(a * SECOND, b * SECOND, q, r * SECOND);
  }

  lemma QuotientIs(a: int, b: int, q: int, r: int)
    requires b > 0 && a == q * b + r && 0 <= r < b
    ensures a / b == q
  {
    var q' := a / b;
    if q' > q { NextMultiple(q + 1, q', b); }
    if q' < q { NextMultiple(q' + 1, q, b); }
  }

  lemma TurnIsOk(h: Turns, polls: nat, advertised: int, start: int, w: World, served: int, answered: int, reply: Reply, row: Row)
    requires Shaped(h, polls) && TurnsOk(h, advertised, start, w)
    requires served == (if polls == 0 then start
      else h.answered[polls - 1] + (Seconds(advertised) + 5 * SlowDowns(h.replies)) * SECOND + w.oversleep(polls - 1)) + w.out(polls)
    requires answered == served + w.back(polls)
    requires (reply, row) ==
      if w.lost(polls) then (OtherError, h.rows[polls]) else Serve(h.rows[polls], served, w.status(polls), w.usable(polls), w.marked(polls))
    ensures TurnsOk(Turn(h, served, answered, reply, row), advertised, start, w)
  {
    hide Serve, SlowDowns;
    assert (h.replies + [reply])[..polls] == h.replies;
    TurnAdded(h, advertised, start, w, served, answered, reply, row);
  }

  /** With the answer to its next poll, the loop has still been slowed down at
      most once, and never from the server's interval on. */
  lemma SlowDownsBounded(l: Loop, advertised: int, expiresIn: int, start: int, served: int, status: CodeStatus, usable: bool, marked: bool)
    requires LoopOk(l, advertised, expiresIn, start) && l.now <= served
    ensures var n := l.slowDowns + if Serve(l.row, served, status, usable, marked).0.SlowDown? then 1 else 0;
      n <= 1 && l.slowDowns <= 1 && (Interval(advertised) >= POLL_INTERVAL ==> n == 0 && l.slowDowns == 0)
  {
  }
}
