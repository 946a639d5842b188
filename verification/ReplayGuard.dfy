/** Single-use identifiers of DPoP proofs and device assertions, remembered
    only for a computed time. Times are nanoseconds on the server's clock. */
module ReplayGuard {

  const SKEW: int := 300_000_000_000
  const MAX_LIFETIME: int := 300_000_000_000

  const NUL: char := 0 as char

  /** The base64url digest of a key. */
  type Thumbprint = s: string | NUL !in s

  datatype Credential =
    | Proof(jkt: Thumbprint, jti: string, iat: int)
    | Assertion(jkt: Thumbprint, jti: string, iat: int, exp: int)

  /** JTIHash before hashing, which is injective. */
  function Identifier(c: Credential): string {
    c.jkt + [NUL] + c.jti
  }

  lemma {:induction false} IdentifiersDistinct(jkt: string, jti: string, jkt': string, jti': string)
    requires NUL !in jkt && NUL !in jkt' && jkt + [NUL] + jti == jkt' + [NUL] + jti'
    ensures jkt == jkt' && jti == jti'
  {
    var s, s' := jkt + [NUL] + jti, jkt' + [NUL] + jti';
    assert s[0] == s'[0];
    assert s[1..] == s'[1..];
    assert jkt == [] <==> jkt' == [];
    if jkt == [] {
      assert s[1..] == jti && s'[1..] == jti';
    } else {
      assert s[1..] == jkt[1..] + [NUL] + jti && s'[1..] == jkt'[1..] + [NUL] + jti';
      IdentifiersDistinct(jkt[1..], jti, jkt'[1..], jti');
    }
  }

  /** Two credentials share an identifier exactly when key and jti agree. */
  lemma IdentifiesKeyAndJti(c: Credential, d: Credential)
    ensures Identifier(c) == Identifier(d) <==> c.jkt == d.jkt && c.jti == d.jti
  {
    if Identifier(c) == Identifier(d) { IdentifiersDistinct(c.jkt, c.jti, d.jkt, d.jti); }
  }

  /** The time checks of VerifyProof, and of VerifyAssertion with the JWT
      library's expiry and issued-at checks. */
  predicate Accepts(c: Credential, now: int) {
    match c
    case Proof(_, _, iat) => now - SKEW <= iat <= now + SKEW
    case Assertion(_, _, iat, exp) => now < exp + SKEW && iat - SKEW <= now && exp - iat <= MAX_LIFETIME
  }

  /** Until when the identifier is kept. */
  function KeptUntil(c: Credential): int {
    match c
    case Proof(_, _, iat) => iat + 2 * SKEW
    case Assertion(_, _, _, exp) => exp + SKEW
  }

  /** A request between its verification and its INSERT. */
  datatype Pending = Pending(c: Credential, verified: int)

  datatype Acceptance = Acceptance(c: Credential, verified: int, recorded: int)

  datatype State = State(now: int, rows: map<string, int>, pending: map<nat, Pending>, accepted: seq<Acceptance>)

  /** The DELETE of ConsumeJTI and of the sweeper, with any earlier clock
      reading, and the INSERT, are separate statements. */
  datatype Event =
    | Tick(elapsed: nat)
    | Verify(r: nat, c: Credential)
    | Prune(cutoff: int)
    | Record(r: nat)

  function PruneRows(rows: map<string, int>, cutoff: int): map<string, int> {
    map h | h in rows && rows[h] >= cutoff :: rows[h]
  }

  function Step(s: State, e: Event): State {
    match e
    case Tick(elapsed) => s.(now := s.now + elapsed)
    case Verify(r, c) =>
      if r in s.pending || !Accepts(c, s.now) then s
      else s.(pending := s.pending[r := Pending(c, s.now)])
    case Prune(cutoff) => if cutoff <= s.now then s.(rows := PruneRows(s.rows, cutoff)) else s
    case Record(r) =>
      if r !in s.pending then s
      else
        var p := s.pending[r];
        var s' := s.(pending := s.pending - {r});
        if Identifier(p.c) in s.rows then s'
        else s'.(rows := s.rows[Identifier(p.c) := KeptUntil(p.c)],
                 accepted := s.accepted + [Acceptance(p.c, p.verified, s.now)])
  }

  function Run(s: State, events: seq<Event>): State
    decreases |events|
  {
    if events == [] then s else Run(Step(s, events[0]), events[1..])
  }

  function Initial(now: int): State {
    State(now, map[], map[], [])
  }

  // ----- the invariant -----

  /** The identifier is still kept, or its time is over. */
  predicate Remembered(s: State, c: Credential) {
    (Identifier(c) in s.rows && s.rows[Identifier(c)] == KeptUntil(c)) || KeptUntil(c) < s.now
  }

  ghost predicate Inv(s: State) {
    && (forall i {:trigger s.accepted[i]} :: 0 <= i < |s.accepted| ==> Remembered(s, s.accepted[i].c))
    && (forall r {:trigger s.pending[r]} :: r in s.pending ==> s.pending[r].verified <= s.now && Accepts(s.pending[r].c, s.pending[r].verified))
    && (forall i {:trigger s.accepted[i]} :: 0 <= i < |s.accepted| ==> s.accepted[i].verified <= s.accepted[i].recorded)
    && (forall i, j :: 0 <= i < j < |s.accepted| && s.accepted[i].c == s.accepted[j].c ==> TooLate(s.accepted[j]))
  }

  /** How long after its verification a second acceptance must have been
      recorded. */
  predicate TooLate(a: Acceptance) {
    a.recorded - a.verified > if a.c.Proof? then SKEW else 1
  }

  lemma RecordOk(s: State, r: nat)
    requires Inv(s) && r in s.pending && Identifier(s.pending[r].c) !in s.rows
    ensures Inv(Step(s, Record(r)))
  {
    var s', p := Step(s, Record(r)), s.pending[r];
    forall i | 0 <= i < |s'.accepted| ensures Remembered(s', s'.accepted[i].c) {
      if i < |s.accepted| { assert Remembered(s, s.accepted[i].c); }
    }
    forall i | 0 <= i < |s.accepted| && s.accepted[i].c == p.c ensures TooLate(s'.accepted[|s.accepted|]) {
      assert Remembered(s, s.accepted[i].c);
    }
  }

  lemma StepOk(s: State, e: Event)
    requires Inv(s)
    ensures Inv(Step(s, e))
  {
    var s' := Step(s, e);
    if e.Record? && e.r in s.pending && Identifier(s.pending[e.r].c) !in s.rows {
      RecordOk(s, e.r);
    } else {
      forall i | 0 <= i < |s'.accepted| ensures Remembered(s', s'.accepted[i].c) {
        assert Remembered(s, s.accepted[i].c);
      }
    }
  }

  lemma {:induction false} RunOk(s: State, events: seq<Event>)
    requires Inv(s)
    ensures Inv(Run(s, events))
    decreases |events|
  {
    if events != [] {
      StepOk(s, events[0]);
      RunOk(Step(s, events[0]), events[1..]);
    }
  }

  // ----- what is refused -----

  predicate KeptFor(s: State, h: string, i: int) {
    0 <= i < |s.accepted| && h in s.rows && Identifier(s.accepted[i].c) == h && s.rows[h] == KeptUntil(s.accepted[i].c)
  }

  /** Every kept identifier is that of an acceptance, and what is accepted or
      about to be has verified. */
  ghost predicate Rooted(s: State) {
    && (forall h {:trigger s.rows[h]} :: h in s.rows ==> exists i :: KeptFor(s, h, i))
    && (forall i {:trigger s.accepted[i]} :: 0 <= i < |s.accepted| ==> Accepts(s.accepted[i].c, s.accepted[i].verified))
    && (forall r {:trigger s.pending[r]} :: r in s.pending ==> Accepts(s.pending[r].c, s.pending[r].verified))
  }

  lemma RootedStep(s: State, e: Event)
    requires Rooted(s)
    ensures Rooted(Step(s, e))
  {
    hide Accepts, KeptUntil, Identifier;
    var s' := Step(s, e);
    forall h | h in s'.rows ensures exists i :: KeptFor(s', h, i) {
      if h in s.rows && s'.rows[h] == s.rows[h] {
        var i :| KeptFor(s, h, i);
        assert KeptFor(s', h, i);
      } else {
        assert KeptFor(s', h, |s.accepted|);
      }
    }
    if e.Verify? { assert forall r :: r in s'.pending && r !in s.pending ==> Accepts(s'.pending[r].c, s'.pending[r].verified); }
  }

  lemma {:induction false} RunRooted(s: State, events: seq<Event>)
    requires Rooted(s)
    ensures Rooted(Run(s, events))
    decreases |events|
  {
    if events != [] {
      RootedStep(s, events[0]);
      RunRooted(Step(s, events[0]), events[1..]);
    }
  }

  predicate UsedBefore(s: State, c: Credential, i: int) {
    0 <= i < |s.accepted| && s.accepted[i].c.jkt == c.jkt && s.accepted[i].c.jti == c.jti
  }

  /** In every run, a verified credential is refused only if one with the same
      key and jti was accepted before, and is refused if that is still kept. */
  lemma RefusedOnlyAfterUse(now: int, events: seq<Event>, r: nat)
    requires r in Run(Initial(now), events).pending
    ensures var s := Run(Initial(now), events);
      var p := s.pending[r];
      var after := Step(s, Record(r)).accepted;
      && (after == s.accepted || after == s.accepted + [Acceptance(p.c, p.verified, s.now)])
      && (after == s.accepted ==> exists i :: UsedBefore(s, p.c, i))
      && ((exists i :: UsedBefore(s, p.c, i) && KeptUntil(s.accepted[i].c) >= s.now) ==> after == s.accepted)
  {
    RunOk(Initial(now), events);
    RunRooted(Initial(now), events);
    hide Run, Inv, Rooted, Identifier, KeptUntil;
    RecordRefuses(Run(Initial(now), events), r);
  }

  lemma RecordRefuses(s: State, r: nat)
    requires Inv(s) && Rooted(s) && r in s.pending
    ensures var p, after := s.pending[r], Step(s, Record(r)).accepted;
      && (after == s.accepted || after == s.accepted + [Acceptance(p.c, p.verified, s.now)])
      && (after == s.accepted ==> exists i :: UsedBefore(s, p.c, i))
      && ((exists i :: UsedBefore(s, p.c, i) && KeptUntil(s.accepted[i].c) >= s.now) ==> after == s.accepted)
  {
    var c := s.pending[r].c;
    if Identifier(c) in s.rows {
      var i :| KeptFor(s, Identifier(c), i);
      IdentifiesKeyAndJti(s.accepted[i].c, c);
      assert UsedBefore(s, c, i);
    } else {
      assert |s.accepted + [Acceptance(c, s.pending[r].verified, s.now)]| == |s.accepted| + 1;
      forall i | UsedBefore(s, c, i) ensures KeptUntil(s.accepted[i].c) < s.now {
        assert Remembered(s, s.accepted[i].c);
        IdentifiesKeyAndJti(s.accepted[i].c, c);
      }
    }
  }

  /** In every run, what is accepted was verified within the skew of its issue,
      an assertion within the skew of a life of five minutes at most. */
  lemma AcceptedInTime(now: int, events: seq<Event>, i: nat)
    requires i < |Run(Initial(now), events).accepted|
    ensures var a := Run(Initial(now), events).accepted[i];
      && a.verified >= a.c.iat - 300_000_000_000
      && (a.c.Proof? ==> a.verified <= a.c.iat + 300_000_000_000)
      && (a.c.Assertion? ==> a.verified < a.c.exp + 300_000_000_000 && a.c.exp <= a.c.iat + 300_000_000_000)
  {
    RunRooted(Initial(now), events);
  }

  // ----- when forgetting is harmless -----

  ghost predicate Prompt(s: State, delay: int) {
    forall i {:trigger s.accepted[i]} :: 0 <= i < |s.accepted| ==> s.accepted[i].recorded - s.accepted[i].verified <= delay
  }

  /** The credential is accepted once at most. */
  ghost predicate Once(s: State, c: Credential) {
    forall i, j :: 0 <= i < j < |s.accepted| && s.accepted[i].c == c ==> s.accepted[j].c != c
  }

  /** No run in which identifiers are recorded within the delay accepts the
      credential twice. */
  ghost predicate ReplaySafe(c: Credential, delay: int) {
    forall now, events {:trigger Run(Initial(now), events)} ::
      Prompt(Run(Initial(now), events), delay) ==> Once(Run(Initial(now), events), c)
  }

  lemma PromptRunsAreSafe(c: Credential, delay: int)
    requires delay <= if c.Proof? then SKEW else 1
    ensures ReplaySafe(c, delay)
  {
    forall now, events | Prompt(Run(Initial(now), events), delay) ensures Once(Run(Initial(now), events), c) {
      RunOk(Initial(now), events);
      var s := Run(Initial(now), events);
      forall i, j | 0 <= i < j < |s.accepted| && s.accepted[i].c == c ensures s.accepted[j].c != c {
        assert s.accepted[j].recorded - s.accepted[j].verified <= delay;
      }
    }
  }

  /** The last moment at which the credential verifies. */
  function LastMoment(c: Credential): int {
    if c.Proof? then c.iat + SKEW else c.exp + SKEW - 1
  }

  /** Accepted at once; then verified again at the last moment, and recorded
      after the row has been pruned. */
  function LateReplay(c: Credential, delay: nat): seq<Event> {
    [Verify(0, c), Record(0), Verify(1, c), Tick(delay), Prune(LastMoment(c) + delay), Record(1)]
  }

  lemma LateReplayRuns(c: Credential, delay: nat)
    requires Accepts(c, LastMoment(c)) && delay > if c.Proof? then SKEW else 1
    ensures Run(Initial(LastMoment(c)), LateReplay(c, delay)).accepted
         == [Acceptance(c, LastMoment(c), LastMoment(c)), Acceptance(c, LastMoment(c), LastMoment(c) + delay)]
  {
    var t, events := LastMoment(c), LateReplay(c, delay);
    var s1 := Step(Initial(t), events[0]);
    var s2 := Step(s1, events[1]);
    assert s2.rows == map[Identifier(c) := KeptUntil(c)] && s2.accepted == [Acceptance(c, t, t)] && s2.pending == map[];
    var s3 := Step(s2, events[2]);
    var s4 := Step(s3, events[3]);
    var s5 := Step(s4, events[4]);
    assert s5.rows == map[] && s5.pending == map[1 := Pending(c, t)];
    var s6 := Step(s5, events[5]);
    RunSix(Initial(t), events);
  }

  lemma RunSix(s: State, events: seq<Event>)
    requires |events| == 6
    ensures Run(s, events) == Step(Step(Step(Step(Step(Step(s, events[0]), events[1]), events[2]), events[3]), events[4]), events[5])
  {
    RunThree(s, events);
    RunThree(Step(Step(Step(s, events[0]), events[1]), events[2]), events[3..]);
  }

  lemma RunThree(s: State, events: seq<Event>)
    requires |events| >= 3
    ensures Run(s, events) == Run(Step(Step(Step(s, events[0]), events[1]), events[2]), events[3..])
  {
    assert events[1..][1..] == events[2..] && events[2..][1..] == events[3..];
    assert Run(s, events) == Run(Step(s, events[0]), events[1..]);
    assert Run(Step(s, events[0]), events[1..]) == Run(Step(Step(s, events[0]), events[1]), events[2..]);
  }

  /** Forgetting is harmless exactly while the INSERT follows the verification
      within the skew for a proof, within one tick for an assertion. */
  lemma ReplaySafeExactlyWhenPrompt(c: Credential, sometime: int, delay: nat)
    requires Accepts(c, sometime)
    ensures ReplaySafe(c, delay) <==> delay <= if c.Proof? then SKEW else 1
  {
    if delay <= if c.Proof? then SKEW else 1 {
      PromptRunsAreSafe(c, delay);
    } else {
      LateReplayRuns(c, delay);
      var s := Run(Initial(LastMoment(c)), LateReplay(c, delay));
      assert s.accepted[0].c == s.accepted[1].c == c;
      assert Prompt(s, delay) && !Once(s, c);
    }
  }

  // ----- ConsumeJTI -----

  /** One clock reading for the DELETE and the INSERT. */
  function Consume(rows: map<string, int>, c: Credential, now: int): (bool, map<string, int>) {
    var kept := PruneRows(rows, now);
    if Identifier(c) in kept then (false, kept) else (true, kept[Identifier(c) := KeptUntil(c)])
  }

  lemma ConsumeIsPruneThenRecord(s: State, r: nat)
    requires r in s.pending
    ensures var p, s' := s.pending[r], Step(Step(s, Prune(s.now)), Record(r));
      && (Consume(s.rows, p.c, s.now).0 <==> s'.accepted == s.accepted + [Acceptance(p.c, p.verified, s.now)])
      && s'.rows == Consume(s.rows, p.c, s.now).1
  {
    assert |s.accepted + [Acceptance(s.pending[r].c, s.pending[r].verified, s.now)]| == |s.accepted| + 1;
  }

  predicate Keeps(rows: map<string, int>, recorded: seq<Credential>, h: string, i: int) {
    0 <= i < |recorded| && h in rows && Identifier(recorded[i]) == h && rows[h] == KeptUntil(recorded[i])
  }

  /** The rows are those of what was recorded, but for what had to be kept no
      longer than until the clock. */
  ghost predicate TableOk(rows: map<string, int>, recorded: seq<Credential>, clock: int) {
    && (forall h {:trigger rows[h]} :: h in rows ==> exists i :: Keeps(rows, recorded, h, i))
    && (forall i {:trigger recorded[i]} :: 0 <= i < |recorded| ==>
          Keeps(rows, recorded, Identifier(recorded[i]), i) || KeptUntil(recorded[i]) < clock)
  }

  /** A credential with this key and jti was recorded and is still to be kept. */
  predicate Used(recorded: seq<Credential>, c: Credential, now: int, i: int) {
    0 <= i < |recorded| && recorded[i].jkt == c.jkt && recorded[i].jti == c.jti && KeptUntil(recorded[i]) >= now
  }

  lemma FreshUnlessUsed(rows: map<string, int>, recorded: seq<Credential>, clock: int, c: Credential, now: int)
    requires TableOk(rows, recorded, clock) && clock <= now
    ensures Consume(rows, c, now).0 <==> !exists i :: Used(recorded, c, now, i)
  {
    hide Identifier, KeptUntil;
    var kept := PruneRows(rows, now);
    if Identifier(c) in kept {
      var i :| Keeps(rows, recorded, Identifier(c), i);
      IdentifiesKeyAndJti(recorded[i], c);
      assert Used(recorded, c, now, i);
    }
    forall i | Used(recorded, c, now, i) ensures Identifier(c) in kept {
      IdentifiesKeyAndJti(recorded[i], c);
      assert Keeps(rows, recorded, Identifier(recorded[i]), i);
    }
  }

  lemma StaysOk(rows: map<string, int>, recorded: seq<Credential>, clock: int, c: Credential, now: int)
    requires TableOk(rows, recorded, clock) && clock <= now
    ensures var (isFresh, rows') := Consume(rows, c, now); TableOk(rows', recorded + if isFresh then [c] else [], now)
  {
    hide Identifier, KeptUntil;
    var (isFresh, rows') := Consume(rows, c, now);
    var recorded' := recorded + if isFresh then [c] else [];
    forall h | h in rows' ensures exists i :: Keeps(rows', recorded', h, i) {
      if isFresh && h == Identifier(c) {
        assert Keeps(rows', recorded', h, |recorded|);
      } else {
        var i :| Keeps(rows, recorded, h, i);
        assert Keeps(rows', recorded', h, i);
      }
    }
    forall i | 0 <= i < |recorded'| ensures Keeps(rows', recorded', Identifier(recorded'[i]), i) || KeptUntil(recorded'[i]) < now {
      if i < |recorded| { assert recorded'[i] == recorded[i]; }
    }
  }

  class JtiTable {
    var rows: map<string, int>
    /** What was recorded so far, and the last clock reading. */
    ghost var recorded: seq<Credential>
    ghost var clock: int

    ghost predicate Valid()
      reads this
    {
      TableOk(rows, recorded, clock)
    }

    constructor (now: int)
      ensures Valid() && recorded == [] && clock == now
    {
      rows, recorded, clock := map[], [], now;
    }

    /** A credential is fresh exactly when none with its key and jti is recorded
        for a time that is not over. */
    method ConsumeJTI(c: Credential, now: int) returns (isFresh: bool)
      requires Valid() && clock <= now
      modifies this
      ensures Valid() && clock == now
      ensures isFresh <==> !exists i :: Used(old(recorded), c, now, i)
      ensures recorded == old(recorded) + if isFresh then [c] else []
      ensures (isFresh, rows) == Consume(old(rows), c, now)
    {
      hide TableOk, Identifier, KeptUntil;
      FreshUnlessUsed(rows, recorded, clock, c, now);
      StaysOk(rows, recorded, clock, c, now);
      assert recorded + [] == recorded;
      rows := PruneRows(rows, now);
      isFresh := Identifier(c) !in rows;
      clock := now;
      if isFresh {
        rows := rows[Identifier(c) := KeptUntil(c)];
        recorded := recorded + [c];
      }
    }
  }
}
