/** The bounded queue and batching worker that ship log records, under every
    interleaving of producers, ticker, worker and close. */
module LogShipper {
  import opened Options

  datatype Record = Record(text: string, encodable: bool)

  /** formed: the endpoint is a URL that a request can be made for. */
  datatype Config = Config(batchSize: int, bufferSize: int, formed: bool)

  function BatchSize(c: Config): (r: nat)
    ensures r >= 1
  {
    if c.batchSize <= 0 then 100 else c.batchSize
  }

  function BufferSize(c: Config): (r: nat)
    ensures r >= 1
  {
    if c.bufferSize <= 0 then 2048 else c.bufferSize
  }

  const ATTEMPTS: nat := 3

  datatype Fate = Acknowledged | Counted | Forgotten

  datatype Post = Post(records: seq<Record>, fate: Fate)

  datatype Stage = Running | Draining | Stopped

  /** The worker is at a stage, or in a post on its way there after so many
      failed attempts. The last four fields are history. */
  datatype State = State(
    queue: seq<Record>, batch: seq<Record>, dropped: nat, stage: Stage, posting: Option<nat>, closed: bool,
    accepted: seq<Record>, overflowed: nat, posts: seq<Post>, closedAt: nat)

  datatype Event =
    | Handle(r: Record)
    | Close
    | Receive
    | Ticker
    | Done
    | Drained
    | Respond(ok: bool)

  function Initial(): State {
    State([], [], 0, Running, None, false, [], 0, [], 0)
  }

  /** flush(): an empty batch is not posted. */
  function Flush(s: State): State {
    s.(posting := if s.batch == [] then None else Some(0))
  }

  function Finish(s: State, fate: Fate): State {
    s.(batch := [], posting := None, posts := s.posts + [Post(s.batch, fate)],
       dropped := s.dropped + if fate.Counted? then |s.batch| else 0)
  }

  /** One answer to an attempt, or the error of making the request. */
  function Attempt(c: Config, s: State, ok: bool): State
    requires s.posting.Some?
  {
    if !c.formed then Finish(s, Forgotten)
    else if ok then Finish(s, Acknowledged)
    else if s.posting.value + 1 < ATTEMPTS then s.(posting := Some(s.posting.value + 1))
    else Finish(s, Counted)
  }

  function Enqueue(c: Config, s: State, r: Record): State {
    if |s.queue| < BufferSize(c) then s.(queue := s.queue + [r], accepted := s.accepted + [r])
    else s.(dropped := s.dropped + 1, overflowed := s.overflowed + 1)
  }

  function Take(c: Config, s: State): State
    requires s.queue != []
  {
    var s' := s.(queue := s.queue[1..], batch := s.batch + [s.queue[0]]);
    if |s'.batch| >= BatchSize(c) then Flush(s') else s'
  }

  /** An event that is not enabled changes nothing. */
  function Step(c: Config, s: State, e: Event): State {
    match e
    case Handle(r) => Enqueue(c, s, r)
    case Close => if s.closed then s else s.(closed := true, closedAt := |s.accepted|)
    case Receive => if s.queue == [] || s.stage.Stopped? || s.posting.Some? then s else Take(c, s)
    case Ticker => if !s.stage.Running? || s.posting.Some? then s else Flush(s)
    case Done => if !s.stage.Running? || s.posting.Some? || !s.closed then s else s.(stage := Draining)
    case Drained => if !s.stage.Draining? || s.posting.Some? || s.queue != [] then s else Flush(s.(stage := Stopped))
    case Respond(ok) => if s.posting.None? then s else Attempt(c, s, ok)
  }

  function Run(c: Config, s: State, events: seq<Event>): State
    decreases |events|
  {
    if events == [] then s else Run(c, Step(c, s, events[0]), events[1..])
  }

  // ----- what the posts hold -----

  function Posted(posts: seq<Post>): seq<Record> {
    if posts == [] then [] else Posted(posts[..|posts| - 1]) + posts[|posts| - 1].records
  }

  function Size(posts: seq<Post>, fate: Fate): nat {
    if posts == [] then 0
    else Size(posts[..|posts| - 1], fate) + if posts[|posts| - 1].fate == fate then |posts[|posts| - 1].records| else 0
  }

  /** What the server received: the encodable records of acknowledged posts. */
  function Delivered(posts: seq<Post>): seq<Record> {
    if posts == [] then []
    else Delivered(posts[..|posts| - 1]) + if posts[|posts| - 1].fate.Acknowledged? then Encodable(posts[|posts| - 1].records) else []
  }

  function Encodable(rs: seq<Record>): seq<Record> {
    if rs == [] then [] else Encodable(rs[..|rs| - 1]) + if rs[|rs| - 1].encodable then [rs[|rs| - 1]] else []
  }

  lemma PostedAppend(posts: seq<Post>, p: Post)
    ensures Posted(posts + [p]) == Posted(posts) + p.records
    ensures forall f :: Size(posts + [p], f) == Size(posts, f) + if p.fate == f then |p.records| else 0
  {
    assert (posts + [p])[..|posts|] == posts;
  }

  // ----- conservation and order -----

  /** Every accepted record is, in order, in a finished post, the batch or the
      queue, and every other record was counted as dropped. */
  ghost predicate Conserved(c: Config, s: State) {
    && s.accepted == Posted(s.posts) + s.batch + s.queue
    && s.dropped == s.overflowed + Size(s.posts, Counted)
    && |s.batch| <= BatchSize(c) && |s.queue| <= BufferSize(c)
  }

  ghost predicate PhaseOk(c: Config, s: State) {
    && (s.posting.Some? ==> s.batch != [] && s.posting.value < ATTEMPTS)
    && (s.posting.None? ==> |s.batch| < BatchSize(c) && (s.stage.Stopped? ==> s.batch == []))
    && (!s.stage.Running? ==> s.closed)
    && (s.closed ==> s.closedAt <= |s.accepted|)
    && (s.stage.Stopped? ==> s.closedAt <= |Posted(s.posts)| + |s.batch|)
    && Size(s.posts, if c.formed then Forgotten else Counted) == 0
  }

  lemma TakeOk(c: Config, s: State)
    requires Conserved(c, s) && PhaseOk(c, s) && s.queue != [] && !s.stage.Stopped? && s.posting.None?
    ensures Conserved(c, Take(c, s)) && PhaseOk(c, Take(c, s))
  {
    hide Posted, Size;
    assert s.batch + s.queue == s.batch + [s.queue[0]] + s.queue[1..];
    assert Posted(s.posts) + s.batch + s.queue == Posted(s.posts) + (s.batch + [s.queue[0]]) + s.queue[1..];
  }

  lemma FinishOk(c: Config, s: State, fate: Fate)
    requires Conserved(c, s) && PhaseOk(c, s) && s.posting.Some? && (fate.Forgotten? <==> !c.formed)
    ensures Conserved(c, Finish(s, fate)) && PhaseOk(c, Finish(s, fate))
  {
    PostedAppend(s.posts, Post(s.batch, fate));
    hide Posted, Size;
    assert Posted(s.posts) + s.batch + [] + s.queue == Posted(s.posts) + s.batch + s.queue;
  }

  lemma EnqueueOk(c: Config, s: State, r: Record)
    requires Conserved(c, s) && PhaseOk(c, s)
    ensures Conserved(c, Enqueue(c, s, r)) && PhaseOk(c, Enqueue(c, s, r))
  {
    hide Posted, Size;
    assert Posted(s.posts) + s.batch + s.queue + [r] == Posted(s.posts) + s.batch + (s.queue + [r]);
  }

  lemma StepOk(c: Config, s: State, e: Event)
    requires Conserved(c, s) && PhaseOk(c, s)
    ensures Conserved(c, Step(c, s, e)) && PhaseOk(c, Step(c, s, e))
  {
    hide Posted, Size;
    match e
    case Handle(r) => EnqueueOk(c, s, r);
    case Receive => if s.queue != [] && !s.stage.Stopped? && s.posting.None? { TakeOk(c, s); }
    case Respond(ok) => if s.posting.Some? { FinishOk(c, s, if !c.formed then Forgotten else if ok then Acknowledged else Counted); }
    case _ =>
  }

  lemma {:induction false} RunOk(c: Config, s: State, events: seq<Event>)
    requires Conserved(c, s) && PhaseOk(c, s)
    ensures Conserved(c, Run(c, s, events)) && PhaseOk(c, Run(c, s, events))
    decreases |events|
  {
    if events != [] {
      StepOk(c, s, events[0]);
      RunOk(c, Step(c, s, events[0]), events[1..]);
    }
  }

  function Handled(events: seq<Event>): nat
    decreases |events|
  {
    if events == [] then 0 else (if events[0].Handle? then 1 else 0) + Handled(events[1..])
  }

  lemma {:induction false} HandledCounted(c: Config, s: State, events: seq<Event>)
    ensures var s' := Run(c, s, events); |s'.accepted| + s'.overflowed == |s.accepted| + s.overflowed + Handled(events)
    decreases |events|
  {
    if events != [] { HandledCounted(c, Step(c, s, events[0]), events[1..]); }
  }

  /** Each handled record is in exactly one of queue, batch, acknowledged posts
      and the drop counter. */
  predicate Accounted(s: State, handled: nat) {
    handled == |s.queue| + |s.batch| + Size(s.posts, Acknowledged) + s.dropped
  }

  lemma {:induction false} SizesAddUp(posts: seq<Post>)
    ensures |Posted(posts)| == Size(posts, Acknowledged) + Size(posts, Counted) + Size(posts, Forgotten)
  {
    if posts != [] { SizesAddUp(posts[..|posts| - 1]); }
  }

  lemma RecordsAccountedFor(c: Config, events: seq<Event>)
    ensures var s := Run(c, Initial(), events);
      && Conserved(c, s)
      && Handled(events) == |s.queue| + |s.batch| + Size(s.posts, Acknowledged) + s.dropped + Size(s.posts, Forgotten)
      && (c.formed ==> Accounted(s, Handled(events)))
  {
    RunOk(c, Initial(), events);
    HandledCounted(c, Initial(), events);
    SizesAddUp(Run(c, Initial(), events).posts);
  }

  /** A batch whose request cannot be made is lost without being counted, so
      nothing is unaccounted for exactly when requests can be made. */
  lemma AccountedExactlyWhenFormed(c: Config, r: Record)
    ensures (forall events {:trigger Run(c, Initial(), events)} :: Accounted(Run(c, Initial(), events), Handled(events))) <==> c.formed
  {
    forall events ensures c.formed ==> Accounted(Run(c, Initial(), events), Handled(events)) {
      RecordsAccountedFor(c, events);
    }
    if !c.formed {
      LostBatch(c, r);
      PostedAppend([], Post([r], Forgotten));
      assert [] + [Post([r], Forgotten)] == [Post([r], Forgotten)];
      var events := [Handle(r), Receive, Ticker, Respond(true)];
      assert !Accounted(Run(c, Initial(), events), Handled(events));
    }
  }

  lemma LostBatch(c: Config, r: Record)
    requires !c.formed
    ensures var events := [Handle(r), Receive, Ticker, Respond(true)];
      Handled(events) == 1 && Run(c, Initial(), events) == State([], [], 0, Running, None, false, [r], 0, [Post([r], Forgotten)], 0)
  {
    var events := [Handle(r), Receive, Ticker, Respond(true)];
    var s1 := Step(c, Initial(), Handle(r));
    var s2 := Step(c, s1, Receive);
    assert s2.queue == [] && s2.batch == [r];
    var s3 := Step(c, s2, Ticker);
    var s4 := Step(c, s3, Respond(true));
    assert s4 == State([], [], 0, Running, None, false, [r], 0, [Post([r], Forgotten)], 0);
    assert events[1..] == [Receive, Ticker, Respond(true)];
    assert events[1..][1..] == [Ticker, Respond(true)];
    assert [Ticker, Respond(true)][1..] == [Respond(true)];
    assert Handled([Ticker, Respond(true)]) == 0;
    assert Run(c, s2, [Ticker, Respond(true)]) == Run(c, s3, [Respond(true)]) == s4;
    assert Run(c, s1, events[1..]) == Run(c, s2, [Ticker, Respond(true)]);
  }

  // ----- order -----

  ghost predicate Subsequence(a: seq<Record>, b: seq<Record>) {
    a == [] || (b != [] && (Subsequence(a, b[..|b| - 1]) || (a[|a| - 1] == b[|b| - 1] && Subsequence(a[..|a| - 1], b[..|b| - 1]))))
  }

  lemma {:induction false} SubsequenceLonger(a: seq<Record>, b: seq<Record>, c: seq<Record>)
    requires Subsequence(a, b)
    ensures Subsequence(a, b + c)
    decreases |c|
  {
    if c == [] {
      assert b + c == b;
    } else {
      SubsequenceLonger(a, b, c[..|c| - 1]);
      assert (b + c)[..|b + c| - 1] == b + c[..|c| - 1];
    }
  }

  lemma {:induction false} SubsequencesJoin(a: seq<Record>, b: seq<Record>, a': seq<Record>, b': seq<Record>)
    requires Subsequence(a, b) && Subsequence(a', b')
    ensures Subsequence(a + a', b + b')
    decreases |b'|
  {
    if a' == [] {
      assert a + a' == a;
      SubsequenceLonger(a, b, b');
    } else {
      var init := b'[..|b'| - 1];
      assert (b + b')[..|b + b'| - 1] == b + init;
      if Subsequence(a', init) {
        SubsequencesJoin(a, b, a', init);
      } else {
        SubsequencesJoin(a, b, a'[..|a'| - 1], init);
        assert (a + a')[..|a + a'| - 1] == a + a'[..|a'| - 1];
      }
    }
  }

  lemma {:induction false} EncodableInOrder(rs: seq<Record>)
    ensures Subsequence(Encodable(rs), rs)
  {
    if rs != [] {
      var n := |rs| - 1;
      EncodableInOrder(rs[..n]);
      var e := Encodable(rs[..n]);
      assert Encodable(rs) == if rs[n].encodable then e + [rs[n]] else e;
      assert (e + [rs[n]])[..|e + [rs[n]]| - 1] == e;
    }
  }

  lemma {:induction false} DeliveredInOrder(posts: seq<Post>)
    ensures Subsequence(Delivered(posts), Posted(posts))
  {
    if posts != [] {
      var init, last := posts[..|posts| - 1], posts[|posts| - 1];
      DeliveredInOrder(init);
      if last.fate.Acknowledged? {
        EncodableInOrder(last.records);
        SubsequencesJoin(Delivered(init), Posted(init), Encodable(last.records), last.records);
      } else {
        assert Delivered(init) + [] == Delivered(init);
        SubsequenceLonger(Delivered(init), Posted(init), last.records);
      }
    }
  }

  /** Acknowledged records arrive in the order in which they were accepted. */
  lemma AcknowledgedInOrder(c: Config, events: seq<Event>)
    ensures var s := Run(c, Initial(), events); Subsequence(Delivered(s.posts), s.accepted)
  {
    var s := Run(c, Initial(), events);
    RunOk(c, Initial(), events);
    DeliveredInOrder(s.posts);
    SubsequenceLonger(Delivered(s.posts), Posted(s.posts), s.batch + s.queue);
    assert Posted(s.posts) + (s.batch + s.queue) == s.accepted;
  }

  /** Once the worker has stopped, everything accepted before the close has
      been through a post. */
  lemma CloseFlushes(c: Config, events: seq<Event>)
    requires var s := Run(c, Initial(), events); s.stage.Stopped? && s.posting.None?
    ensures var s := Run(c, Initial(), events);
      s.closed && s.batch == [] && s.closedAt <= |s.accepted| && s.accepted[..s.closedAt] <= Posted(s.posts)
  {
    RunOk(c, Initial(), events);
    var s := Run(c, Initial(), events);
    assert s.accepted == Posted(s.posts) + s.queue;
  }

  /** A worker or close event. */
  predicate NoRecord(events: seq<Event>) {
    forall i :: 0 <= i < |events| ==> !events[i].Handle?
  }

  /** How far the worker of a closed shipper is from having stopped. */
  function ToGo(s: State): nat {
    (if s.stage.Running? then 4 else if s.stage.Draining? then 2 else 0) + 2 * |s.queue| + if s.posting.Some? then 1 else 0
  }

  /** After the close the worker can always stop, whatever is still queued. */
  lemma {:induction false} ClosedCanStop(c: Config, s: State) returns (events: seq<Event>)
    requires s.closed && Conserved(c, s) && PhaseOk(c, s)
    ensures NoRecord(events)
    ensures var end := Run(c, s, events); end.posting.None? && end.stage.Stopped? && end.queue == if s.stage.Stopped? then s.queue else []
    decreases ToGo(s)
  {
    if s.stage.Stopped? && s.posting.None? {
      return [];
    }
    var e :=
      if s.posting.Some? then Respond(true)
      else if s.stage.Running? then Done
      else if s.queue != [] then Receive
      else Drained;
    StepOk(c, s, e);
    hide Conserved, PhaseOk, BatchSize, BufferSize;
    var rest := ClosedCanStop(c, Step(c, s, e));
    events := [e] + rest;
    assert events[1..] == rest;
  }

  // ----- the shipper -----

  lemma {:induction false} RunJoin(c: Config, s: State, xs: seq<Event>, ys: seq<Event>)
    ensures Run(c, s, xs + ys) == Run(c, Run(c, s, xs), ys)
    decreases |xs|
  {
    if xs == [] {
      assert xs + ys == ys;
    } else {
      assert (xs + ys)[1..] == xs[1..] + ys;
      RunJoin(c, Step(c, s, xs[0]), xs[1..], ys);
    }
  }

  /** The answers to the attempts at one post; those after its end are not read. */
  function Responses(answers: seq<bool>): (r: seq<Event>)
    ensures |r| == |answers| && forall i :: 0 <= i < |answers| ==> r[i] == Respond(answers[i])
  {
    seq(|answers|, i requires 0 <= i < |answers| => Respond(answers[i]))
  }

  lemma {:induction false} Settled(c: Config, s: State, events: seq<Event>)
    requires s.posting.None? && forall i :: 0 <= i < |events| ==> events[i].Respond?
    ensures Run(c, s, events) == s
    decreases |events|
  {
    if events != [] { Settled(c, s, events[1..]); }
  }

  lemma PostEnds(c: Config, s: State, events: seq<Event>, fate: Fate)
    requires events != [] && forall i :: 0 <= i < |events| ==> events[i].Respond?
    requires s.posting.Some? && Attempt(c, s, events[0].ok) == Finish(s, fate)
    ensures Run(c, s, events) == Finish(s, fate)
  {
    Settled(c, Finish(s, fate), events[1..]);
  }

  lemma PostGoesOn(c: Config, s: State, events: seq<Event>)
    requires events != [] && events[0] == Respond(false)
    requires c.formed && s.posting.Some? && s.posting.value + 1 < ATTEMPTS
    ensures Run(c, s, events) == Run(c, s.(posting := Some(s.posting.value + 1)), events[1..])
  {
  }

  lemma RunNothing(c: Config, s: State)
    ensures Run(c, s, []) == s
  {
  }

  predicate WorkerOnly(events: seq<Event>) {
    forall e :: e in events ==> e.Receive? || e.Drained? || e.Respond?
  }

  /** A batch is acknowledged if any attempt is, counted as lost if none is, and
      forgotten when no request can be made. */
  function FateOf(c: Config, answers: seq<bool>): Fate {
    if !c.formed then Forgotten else if true in answers then Acknowledged else Counted
  }

  class Shipper {
    const config: Config
    var queue: seq<Record>
    var batch: seq<Record>
    var dropped: nat
    var closed: bool
    var stage: Stage
    ghost var posting: Option<nat>
    ghost var accepted: seq<Record>
    ghost var overflowed: nat
    ghost var posts: seq<Post>
    ghost var closedAt: nat

    ghost function Contents(): State
      reads this
    {
      State(queue, batch, dropped, stage, posting, closed, accepted, overflowed, posts, closedAt)
    }

    method HandleRecord(r: Record)
      modifies this
      ensures Contents() == Step(config, old(Contents()), Handle(r))
      ensures var room := |old(queue)| < if config.bufferSize <= 0 then 2048 else config.bufferSize;
        queue == old(queue) + (if room then [r] else []) && dropped == old(dropped) + if room then 0 else 1
      ensures batch == old(batch) && posts == old(posts) && stage == old(stage)
    {
      if |queue| < BufferSize(config) {
        queue, accepted := queue + [r], accepted + [r];
      } else {
        dropped, overflowed := dropped + 1, overflowed + 1;
      }
    }

    method CloseShipper()
      modifies this
      ensures Contents() == Step(config, old(Contents()), Close)
    {
      if !closed {
        closed, closedAt := true, |accepted|;
      }
    }

    /** post: three attempts, then give up and count. */
    method PostBatch(answers: seq<bool>)
      requires posting == Some(0) && |answers| == 3
      modifies this
      ensures posting == None && batch == [] && queue == old(queue) && stage == old(stage)
      ensures posts == old(posts) + [Post(old(batch), FateOf(config, answers))]
      ensures dropped == old(dropped) + if config.formed && true !in answers then |old(batch)| else 0
      ensures Contents() == Run(config, old(Contents()), Responses(answers))
    {
      hide Run;
      ghost var start := Contents();
      ghost var all := Responses(answers);
      assert all[0..] == all;
      for attempt := 0 to ATTEMPTS
        invariant Contents() == start.(posting := Some(if attempt < ATTEMPTS then attempt else ATTEMPTS - 1))
        invariant attempt < ATTEMPTS ==> Run(config, start, all) == Run(config, Contents(), all[attempt..])
        invariant attempt == ATTEMPTS ==> Run(config, start, all) == Finish(Contents(), Counted)
        invariant true !in answers[..attempt] && (attempt > 0 ==> config.formed)
      {
        if !config.formed {
          PostEnds(config, Contents(), all[attempt..], Forgotten);
          posts, batch, posting := posts + [Post(batch, Forgotten)], [], None;
          return;
        }
        if answers[attempt] {
          PostEnds(config, Contents(), all[attempt..], Acknowledged);
          posts, batch, posting := posts + [Post(batch, Acknowledged)], [], None;
          return;
        }
        if attempt + 1 < ATTEMPTS {
          PostGoesOn(config, Contents(), all[attempt..]);
          posting := Some(attempt + 1);
          assert all[attempt..][1..] == all[attempt + 1..];
        } else {
          PostEnds(config, Contents(), all[attempt..], Counted);
        }
      }
      dropped := dropped + |batch|;
      posts, batch, posting := posts + [Post(batch, Counted)], [], None;
    }

    /** flush at a tick. */
    method FlushBatch(answers: seq<bool>)
      requires posting == None && stage == Running && |answers| == 3
      modifies this
      ensures posting == None && batch == [] && queue == old(queue) && stage == Running
      ensures posts == old(posts) + if old(batch) == [] then [] else [Post(old(batch), FateOf(config, answers))]
      ensures Contents() == Run(config, old(Contents()), [Ticker] + Responses(answers))
    {
      ghost var events := [Ticker] + Responses(answers);
      assert events[1..] == Responses(answers);
      if batch == [] {
        Settled(config, Contents(), Responses(answers));
        return;
      }
      posting := Some(0);
      PostBatch(answers);
    }

    /** One record off the queue, posting the batch when it is full. */
    method TakeNext(answers: seq<bool>) returns (ghost trace: seq<Event>)
      requires queue != [] && posting == None && stage != Stopped && |batch| < BatchSize(config) && |answers| == 3
      modifies this
      ensures var more, size := old(batch) + [old(queue)[0]], if config.batchSize <= 0 then 100 else config.batchSize;
        if |more| < size then batch == more && posts == old(posts)
        else batch == [] && posts == old(posts) + [Post(more, FateOf(config, answers))]
      ensures Contents() == Run(config, old(Contents()), trace) && WorkerOnly(trace)
      ensures queue == old(queue)[1..] && posting == None && stage == old(stage) && |batch| < BatchSize(config)
    {
      batch, queue := batch + [queue[0]], queue[1..];
      trace := [Receive];
      if |batch| >= BatchSize(config) {
        posting := Some(0);
        assert Contents() == Step(config, old(Contents()), Receive);
        PostBatch(answers);
        trace := [Receive] + Responses(answers);
        assert trace[1..] == Responses(answers);
      }
    }

    /** The last flush. */
    method Stop(answers: seq<bool>) returns (ghost trace: seq<Event>)
      requires queue == [] && posting == None && stage == Draining && |answers| == 3
      modifies this
      ensures posts == old(posts) + if old(batch) == [] then [] else [Post(old(batch), FateOf(config, answers))]
      ensures Contents() == Run(config, old(Contents()), trace) && WorkerOnly(trace)
      ensures stage == Stopped && queue == [] && batch == [] && posting == None
    {
      stage := Stopped;
      trace := [Drained];
      if batch != [] {
        posting := Some(0);
        assert Contents() == Step(config, old(Contents()), Drained);
        PostBatch(answers);
        trace := [Drained] + Responses(answers);
        assert trace[1..] == Responses(answers);
      }
    }

    /** The worker once it has seen the close: empty the queue, flush, stop.
        answers holds what the server says, post by post. */
    method DrainAndStop(answers: seq<seq<bool>>) returns (ghost trace: seq<Event>)
      requires posting == None && stage == Draining && |batch| < BatchSize(config)
      requires |answers| > |queue| && forall i :: 0 <= i < |answers| ==> |answers[i]| == 3
      modifies this
      ensures Contents() == Run(config, old(Contents()), trace) && WorkerOnly(trace)
      ensures stage == Stopped && queue == [] && batch == [] && posting == None
    {
      hide Run;
      ghost var start, more := Contents(), [];
      RunNothing(config, start);
      trace := [];
      var next := 0;
      while queue != []
        invariant Contents() == Run(config, start, trace) && WorkerOnly(trace)
        invariant posting == None && stage == Draining && |batch| < BatchSize(config) && |answers| > next + |queue|
        decreases |queue|
      {
        more := TakeNext(answers[next]);
        RunJoin(config, start, trace, more);
        trace, next := trace + more, next + 1;
      }
      more := Stop(answers[next]);
      RunJoin(config, start, trace, more);
      trace := trace + more;
    }
  }
}
