/** Account lockout: how many bad passwords a local account can be tried with.
    Times are nanoseconds; one login attempt is one step. */
module Lockout {
  import opened Options

  /** locked_until is NULL when None. */
  datatype Counter = Counter(failed: nat, lockedUntil: Option<int>)

  datatype Settings = Settings(maxFailed: int, lockout: int)

  /** slot: a password-verification slot was free. stored: the update of the
      counter went through; its error is ignored. */
  datatype Attempt = Attempt(now: int, slot: bool, passwordOk: bool, disabled: bool, stored: bool)

  datatype Outcome = Locked | Busy | Rejected(recorded: bool) | SignedIn

  predicate IsLocked(c: Counter, now: int) {
    c.lockedUntil.Some? && now < c.lockedUntil.value
  }

  /** The single UPDATE of RecordFailedLogin. */
  function Recorded(c: Counter, threshold: int, lockUntil: int): Counter {
    Counter(c.failed + 1, if c.failed + 1 >= threshold then Some(lockUntil) else c.lockedUntil)
  }

  function Submit(c: Counter, s: Settings, a: Attempt): (Outcome, Counter) {
    if IsLocked(c, a.now) then (Locked, c)
    else if !a.slot then (Busy, c)
    else if a.disabled then (Rejected(false), c)
    else if !a.passwordOk then
      if a.stored then (Rejected(true), Recorded(c, s.maxFailed, a.now + s.lockout)) else (Rejected(false), c)
    else (SignedIn, if a.stored then Counter(0, None) else c)
  }

  function After(c: Counter, s: Settings, attempts: seq<Attempt>): Counter
    decreases |attempts|
  {
    if attempts == [] then c else After(Submit(c, s, attempts[0]).1, s, attempts[1..])
  }

  function Failures(c: Counter, s: Settings, attempts: seq<Attempt>): nat
    decreases |attempts|
  {
    if attempts == [] then 0
    else (if Submit(c, s, attempts[0]).0 == Rejected(true) then 1 else 0) + Failures(Submit(c, s, attempts[0]).1, s, attempts[1..])
  }

  /** No attempt signs in. */
  predicate NoSuccess(c: Counter, s: Settings, attempts: seq<Attempt>)
    decreases |attempts|
  {
    attempts == [] || (Submit(c, s, attempts[0]).0 != SignedIn && NoSuccess(Submit(c, s, attempts[0]).1, s, attempts[1..]))
  }

  /** The attempts are made between the two times, the clock not going back. */
  predicate Timed(from: int, attempts: seq<Attempt>, to: int)
    decreases |attempts|
  {
    if attempts == [] then from <= to else from <= attempts[0].now && Timed(attempts[0].now, attempts[1..], to)
  }

  function Threshold(s: Settings): (r: nat)
    ensures r >= 1
  {
    if s.maxFailed < 1 then 1 else s.maxFailed
  }

  /** Failures left before one that locks. */
  function Free(c: Counter, s: Settings): nat {
    if c.failed + 1 >= Threshold(s) then 0 else Threshold(s) - 1 - c.failed
  }

  /** From when a password is checked at all. */
  function Open(c: Counter, from: int): int {
    if IsLocked(c, from) then c.lockedUntil.value else from
  }

  lemma {:induction false} FailuresFrom(c: Counter, s: Settings, from: int, attempts: seq<Attempt>, to: int)
    requires s.lockout > 0 && Timed(from, attempts, to) && NoSuccess(c, s, attempts)
    ensures Failures(c, s, attempts) == 0 || (Failures(c, s, attempts) - 1 - Free(c, s)) * s.lockout <= to - Open(c, from)
    decreases |attempts|
  {
    if attempts != [] {
      var a, c' := attempts[0], Submit(c, s, attempts[0]).1;
      FailuresFrom(c', s, a.now, attempts[1..], to);
      EndsAfter(a.now, attempts[1..], to);
      var n := Failures(c', s, attempts[1..]);
      if Submit(c, s, a).0 == Rejected(true) {
        Product(n - 1, n, s.lockout);
        assert Free(c, s) == 0 ==> n == 0 || n * s.lockout <= to - a.now;
        assert Free(c, s) > 0 ==> Free(c', s) == Free(c, s) - 1;
        assert n == 0 ==> (0 - Free(c, s)) * s.lockout <= 0 by { Sign(Free(c, s), s.lockout); }
      }
    }
  }

  lemma Product(m: int, n: int, d: int)
    requires n == m + 1
    ensures m * d == n * d - d
  {
  }

  lemma Sign(m: nat, d: nat)
    ensures (0 - m) * d <= 0
  {
  }

  lemma {:induction false} EndsAfter(from: int, attempts: seq<Attempt>, to: int)
    requires Timed(from, attempts, to)
    ensures from <= to
    decreases |attempts|
  {
    if attempts != [] { EndsAfter(attempts[0].now, attempts[1..], to); }
  }

  /** Whatever the counter was before: because it is not cleared when a lock
      lapses, one failure per lockout period follows the first threshold. */
  lemma FailuresInPeriod(c: Counter, s: Settings, from: int, attempts: seq<Attempt>, to: int)
    requires s.lockout > 0 && Timed(from, attempts, to) && NoSuccess(c, s, attempts)
    ensures Failures(c, s, attempts) <= Threshold(s) + (to - from) / s.lockout
  {
    hide Failures, Timed, NoSuccess;
    FailuresFrom(c, s, from, attempts, to);
    EndsAfter(from, attempts, to);
    assert from <= Open(c, from);
    Periods(Failures(c, s, attempts), Threshold(s), Free(c, s), s.lockout, to - Open(c, from), to - from);
  }

  lemma Periods(n: nat, threshold: nat, free: nat, d: int, x: int, y: int)
    requires free < threshold && d > 0 && x <= y && 0 <= y
    requires n == 0 || (n - 1 - free) * d <= x
    ensures n <= threshold + y / d
  {
    if n > threshold {
      Monotone(n - threshold, n - 1 - free, d);
      Quotient(n - threshold, d, y);
    } else {
      NonNegative(y, d);
    }
  }

  lemma NonNegative(y: nat, d: int)
    requires d > 0
    ensures y / d >= 0
  {
  }

  lemma Monotone(m: int, n: int, d: nat)
    requires m <= n
    ensures m * d <= n * d
  {
  }

  lemma Quotient(q: int, d: int, x: int)
    requires d > 0 && q * d <= x
    ensures q <= x / d
  {
    if q > x / d {
      Monotone(x / d + 1, q, d);
    }
  }

  // ----- the bound is reached -----

  function Wrong(now: int): Attempt {
    Attempt(now, true, false, false, true)
  }

  /** Fails k times at once, then q more times, as soon as each lock lapses. */
  function Schedule(from: int, k: nat, lockout: int, q: nat): seq<Attempt>
    decreases k + q
  {
    if k > 0 then [Wrong(from)] + Schedule(from, k - 1, lockout, q)
    else if q > 0 then [Wrong(from + lockout)] + Schedule(from + lockout, 0, lockout, q - 1)
    else []
  }

  lemma {:induction false} ScheduleFails(c: Counter, s: Settings, from: int, k: nat, q: nat, to: int)
    requires s.lockout > 0 && from + q * s.lockout <= to
    requires if k > 0 then k == Free(c, s) + 1 && !IsLocked(c, from) else c.failed >= Threshold(s) && c.lockedUntil == Some(from + s.lockout)
    ensures Timed(from, Schedule(from, k, s.lockout, q), to)
    ensures NoSuccess(c, s, Schedule(from, k, s.lockout, q))
    ensures Failures(c, s, Schedule(from, k, s.lockout, q)) == k + q
    decreases k + q
  {
    var l := Schedule(from, k, s.lockout, q);
    if k > 0 {
      assert l[1..] == Schedule(from, k - 1, s.lockout, q);
      ScheduleFails(Submit(c, s, l[0]).1, s, from, k - 1, q, to);
    } else if q > 0 {
      assert l[1..] == Schedule(from + s.lockout, 0, s.lockout, q - 1);
      Product(q - 1, q, s.lockout);
      ScheduleFails(Submit(c, s, l[0]).1, s, from + s.lockout, 0, q - 1, to);
    } else {
      assert l == [];
    }
  }

  lemma BoundIsReached(s: Settings, from: int, to: int) returns (attempts: seq<Attempt>)
    requires s.lockout > 0 && from <= to
    ensures Timed(from, attempts, to) && NoSuccess(Counter(0, None), s, attempts)
    ensures Failures(Counter(0, None), s, attempts) == Threshold(s) + (to - from) / s.lockout
  {
    var q := (to - from) / s.lockout;
    assert q * s.lockout <= to - from;
    attempts := Schedule(from, Threshold(s), s.lockout, q);
    ScheduleFails(Counter(0, None), s, from, Threshold(s), q, to);
  }

  /** Until a success the counter is the number of recorded failures. */
  lemma {:induction false} CountsEveryFailure(c: Counter, s: Settings, attempts: seq<Attempt>)
    requires NoSuccess(c, s, attempts)
    ensures After(c, s, attempts).failed == c.failed + Failures(c, s, attempts)
    decreases |attempts|
  {
    if attempts != [] { CountsEveryFailure(Submit(c, s, attempts[0]).1, s, attempts[1..]); }
  }

  // ----- after a success -----

  predicate LockedByCount(c: Counter, s: Settings) {
    c.lockedUntil.Some? <==> c.failed >= 1 && c.failed >= s.maxFailed
  }

  lemma {:induction false} LockFollowsCount(c: Counter, s: Settings, attempts: seq<Attempt>)
    requires LockedByCount(c, s) && NoSuccess(c, s, attempts)
    ensures LockedByCount(After(c, s, attempts), s)
    decreases |attempts|
  {
    if attempts != [] { LockFollowsCount(Submit(c, s, attempts[0]).1, s, attempts[1..]); }
  }

  /** After a sign-in whose reset was stored, the account is locked again exactly
      when as many failures as the threshold have been recorded since. */
  lemma SignInStartsOver(c: Counter, s: Settings, a: Attempt, attempts: seq<Attempt>)
    requires Submit(c, s, a).0 == SignedIn && a.stored && NoSuccess(Submit(c, s, a).1, s, attempts)
    ensures var reset := Submit(c, s, a).1;
      After(reset, s, attempts).lockedUntil.Some? <==> Failures(reset, s, attempts) >= (if s.maxFailed < 1 then 1 else s.maxFailed)
  {
    var reset := Submit(c, s, a).1;
    LockFollowsCount(reset, s, attempts);
    CountsEveryFailure(reset, s, attempts);
  }

  class Account {
    var failedLoginCount: nat
    var lockedUntil: Option<int>

    ghost function State(): Counter
      reads this
    {
      Counter(failedLoginCount, lockedUntil)
    }

    method RecordFailedLogin(threshold: int, lockUntil: int) returns (count: nat)
      modifies this
      ensures State() == Recorded(old(State()), threshold, lockUntil) && count == failedLoginCount
    {
      failedLoginCount := failedLoginCount + 1;
      if failedLoginCount >= threshold {
        lockedUntil := Some(lockUntil);
      }
      count := failedLoginCount;
    }

    method ResetFailedLogins()
      modifies this
      ensures State() == Counter(0, None)
    {
      failedLoginCount, lockedUntil := 0, None;
    }

    /** The local branch of the login form. */
    method HandleLogin(s: Settings, a: Attempt) returns (outcome: Outcome)
      modifies this
      ensures (outcome, State()) == Submit(old(State()), s, a)
      ensures outcome == Locked <==> old(lockedUntil).Some? && a.now < old(lockedUntil).value
      ensures outcome == Busy <==> outcome != Locked && !a.slot
      ensures outcome == SignedIn <==>
        (old(lockedUntil).None? || old(lockedUntil).value <= a.now) && a.slot && a.passwordOk && !a.disabled
      ensures outcome == Rejected(true) <==> outcome !in {Locked, Busy} && !a.passwordOk && !a.disabled && a.stored
      ensures outcome == SignedIn && a.stored ==> failedLoginCount == 0 && lockedUntil == None
      ensures outcome == Rejected(true) ==>
        && failedLoginCount == old(failedLoginCount) + 1
        && lockedUntil == if failedLoginCount >= s.maxFailed then Some(a.now + s.lockout) else old(lockedUntil)
      ensures outcome in {Locked, Busy, Rejected(false)} || !a.stored ==> State() == old(State())
    {
      if lockedUntil.Some? && a.now < lockedUntil.value {
        return Locked;
      }
      if !a.slot {
        return Busy;
      }
      if !a.passwordOk || a.disabled {
        if a.disabled {
          return Rejected(false);
        }
        if !a.stored {
          return Rejected(false);
        }
        var _ := RecordFailedLogin(s.maxFailed, a.now + s.lockout);
        return Rejected(true);
      }
      if a.stored {
        ResetFailedLogins();
      }
      return SignedIn;
    }
  }
}
