/** What every offline login rests on, over whole runs of an endpoint. */
module OfflineSafety {
  import opened Options
  import opened OfflineLogin

  // ----- what an offline login rests on -----

  ghost predicate NoRefusal(log: seq<Fact>, name: string, from: int) {
    forall j :: 0 <= j < |log| && from < j && log[j].TrustRefused? ==> log[j].name != name
  }

  /** Trust for the subject was recorded at the time and not refused since. */
  ghost predicate TrustedSince(log: seq<Fact>, name: string, sub: string, at: int) {
    exists i :: 0 <= i < |log| && log[i] == Trusted(name, sub, at) && NoRefusal(log, name, i)
  }

  /** The login started no later than the validity after that time, which is not
      in the future of its acceptance. */
  ghost predicate Justified(log: seq<Fact>, f: Fact)
    requires f.Unlocked?
  {
    && (exists at :: TrustedSince(log, f.name, f.sub, at) && f.at <= at + f.validity && at <= f.accepted)
    && f.at <= f.accepted
    && Chose(f.name, f.sub, f.secret) in log
    && DeviceUsable(f.status)
  }

  predicate DeviceUsable(status: DeviceStatus) {
    status != Revoked && status != Pending
  }

  /** Every offline login is justified by what came before it. */
  ghost predicate Safe(log: seq<Fact>) {
    forall k :: 0 <= k < |log| && log[k].Unlocked? ==> Justified(log[..k], log[k])
  }

  // ----- refusals that could not be saved -----

  /** A step that records trust for the name. */
  ghost predicate Trusts(facts: seq<Fact>, name: string) {
    exists i :: 0 <= i < |facts| && facts[i].Trusted? && facts[i].name == name
  }

  /** The names whose last refused refresh could not be saved, and that have not
      been trusted again. */
  ghost function LostAfter(s: State, lost: set<string>, ev: Event): set<string> {
    var facts := Step(s, ev).1;
    (set n | n in lost && !Trusts(facts, n)) + if ev.Refresh? && ev.answer.Refused? && !ev.saved && facts != [] then {ev.name} else {}
  }

  /** An offline login is accepted for such a name. */
  predicate UsesLost(s: State, lost: set<string>, ev: Event) {
    && ev.Login? && ev.session.started <= s.now && ev.session.name in lost
    && var l := ev.session;
       && ValidName(l.name) && !l.local && OfflineAllowed(s, l.name, l.started, ev.policy.validity)
       && l.password.Some? && l.password.value != "" && s.users[l.name].secret == Some(Hash(l.password.value))
  }

  ghost predicate NeverUsesLost(s: State, lost: set<string>, events: seq<Event>)
    decreases |events|
  {
    events == [] || (!UsesLost(s, lost, events[0]) && NeverUsesLost(Step(s, events[0]).0, LostAfter(s, lost, events[0]), events[1..]))
  }

  // ----- the invariant -----

  /** The time of the last recorded trust, unless a saved refusal followed. */
  function Standing(log: seq<Fact>, name: string): Option<int> {
    if log == [] then None
    else
      var f := log[|log| - 1];
      if f.Trusted? && f.name == name then Some(f.at)
      else if f == TrustRefused(name, true) then None
      else Standing(log[..|log| - 1], name)
  }

  ghost predicate LostSince(log: seq<Fact>, name: string) {
    exists j :: 0 <= j < |log| && log[j].TrustRefused? && log[j].name == name && !Trusts(log[j..], name)
  }

  ghost predicate EntryOk(log: seq<Fact>, name: string, e: Entry, isLost: bool) {
    e.secret.Some? ==>
      && e.sub != "" && Chose(name, e.sub, e.secret.value) in log
      && Standing(log, name) == (if e.revoked then None else Some(e.lastTrustRefresh))
      && (!e.revoked && !isLost ==> TrustedSince(log, name, e.sub, e.lastTrustRefresh))
  }

  ghost predicate Inv(s: State, lost: set<string>, log: seq<Fact>) {
    && (forall name {:trigger s.users[name]} :: name in s.users ==> EntryOk(log, name, s.users[name], name in lost))
    && (forall name {:trigger LostSince(log, name)} :: name in lost ==> LostSince(log, name))
  }

  /** No trust that an entry with a password rests on is dated in the future. */
  ghost predicate OnTime(s: State) {
    forall name {:trigger s.users[name]} :: name in s.users && s.users[name].secret.Some? ==> s.users[name].lastTrustRefresh <= s.now
  }

  lemma OnTimeStep(s: State, ev: Event)
    requires OnTime(s)
    ensures OnTime(Step(s, ev).0)
  {
    var s' := Step(s, ev).0;
    forall name | name in s'.users && s'.users[name].secret.Some? ensures s'.users[name].lastTrustRefresh <= s'.now {
      assert name in s.users && s.users[name] == s'.users[name] ==> s.users[name].lastTrustRefresh <= s.now;
    }
  }

  /** Facts about another name. */
  ghost predicate AboutOther(facts: seq<Fact>, name: string) {
    forall i :: 0 <= i < |facts| && (facts[i].Trusted? || facts[i].TrustRefused?) ==> facts[i].name != name
  }

  lemma {:induction false} StandingKept(log: seq<Fact>, more: seq<Fact>, name: string)
    requires AboutOther(more, name)
    ensures Standing(log + more, name) == Standing(log, name)
    decreases |more|
  {
    if more == [] {
      assert log + more == log;
    } else {
      var init := more[..|more| - 1];
      assert (log + more)[..|log + more| - 1] == log + init;
      assert (log + more)[|log + more| - 1] == more[|more| - 1];
      StandingKept(log, init, name);
    }
  }

  lemma EntryKept(log: seq<Fact>, more: seq<Fact>, name: string, e: Entry, isLost: bool)
    requires EntryOk(log, name, e, isLost) && AboutOther(more, name)
    ensures EntryOk(log + more, name, e, isLost)
  {
    StandingKept(log, more, name);
    if e.secret.Some? && !e.revoked && !isLost {
      var i :| 0 <= i < |log| && log[i] == Trusted(name, e.sub, e.lastTrustRefresh) && NoRefusal(log, name, i);
      var l := log + more;
      assert forall j :: |log| <= j < |l| ==> l[j] == more[j - |log|];
      assert l[i] == Trusted(name, e.sub, e.lastTrustRefresh) && NoRefusal(l, name, i);
    }
  }

  lemma LostKept(log: seq<Fact>, more: seq<Fact>, name: string)
    requires LostSince(log, name) && !Trusts(more, name)
    ensures LostSince(log + more, name)
  {
    var j :| 0 <= j < |log| && log[j].TrustRefused? && log[j].name == name && !Trusts(log[j..], name);
    var l := log + more;
    assert l[j..] == log[j..] + more;
    assert !Trusts(l[j..], name);
    assert l[j] == log[j];
  }

  lemma JustTrusted(log: seq<Fact>, name: string, sub: string, at: int)
    ensures TrustedSince(log + [Trusted(name, sub, at)], name, sub, at)
    ensures Standing(log + [Trusted(name, sub, at)], name) == Some(at)
  {
    var l := log + [Trusted(name, sub, at)];
    assert l[|log|] == Trusted(name, sub, at) && NoRefusal(l, name, |log|);
  }

  lemma JustRefused(log: seq<Fact>, name: string, saved: bool)
    ensures LostSince(log + [TrustRefused(name, saved)], name)
    ensures Standing(log + [TrustRefused(name, saved)], name) == if saved then None else Standing(log, name)
  {
    var l := log + [TrustRefused(name, saved)];
    assert l[|log|] == TrustRefused(name, saved) && l[|log|..] == [TrustRefused(name, saved)];
    assert l[..|l| - 1] == log;
  }

  /** The step is about one name. */
  ghost predicate OnlyAbout(s: State, r: (State, seq<Fact>), name: string) {
    && (forall n {:trigger r.0.users[n]} :: n in r.0.users && n != name ==> n in s.users && s.users[n] == r.0.users[n])
    && (forall i {:trigger r.1[i]} :: 0 <= i < |r.1| ==> r.1[i].name == name)
  }

  lemma OthersKept(s: State, lost: set<string>, log: seq<Fact>, ev: Event, name: string)
    requires Inv(s, lost, log) && OnlyAbout(s, Step(s, ev), name) && (ev.Refresh? ==> ev.name == name)
    requires var r := Step(s, ev); name in r.0.users ==> EntryOk(log + r.1, name, r.0.users[name], name in LostAfter(s, lost, ev))
    requires name in LostAfter(s, lost, ev) ==> LostSince(log + Step(s, ev).1, name)
    ensures Inv(Step(s, ev).0, LostAfter(s, lost, ev), log + Step(s, ev).1)
  {
    var r := Step(s, ev);
    forall n | n in r.0.users && n != name ensures EntryOk(log + r.1, n, r.0.users[n], n in LostAfter(s, lost, ev)) {
      EntryKept(log, r.1, n, s.users[n], n in lost);
    }
    forall n | n in LostAfter(s, lost, ev) && n != name ensures LostSince(log + r.1, n) {
      LostKept(log, r.1, n);
    }
  }

  lemma ApprovedEntry(s: State, log: seq<Fact>, l: Session, pol: Policy, wasLost: bool)
    requires OnlineLogin(s, l, pol).2 != [] && (l.name in s.users ==> EntryOk(log, l.name, s.users[l.name], wasLost))
    ensures var (_, s', facts) := OnlineLogin(s, l, pol);
      l.name in s'.users && EntryOk(log + facts, l.name, s'.users[l.name], false) && Trusts(facts, l.name)
  {
    var (_, s', facts) := OnlineLogin(s, l, pol);
    var before := log + facts[..|facts| - 1];
    var trusted := Trusted(l.name, l.online.sub, l.started);
    assert facts[|facts| - 1] == trusted;
    assert log + facts == before + [trusted];
    JustTrusted(before, l.name, l.online.sub, l.started);
    assert Chose(l.name, l.online.sub, s'.users[l.name].secret.value) in before;
  }

  lemma ApprovalIsLocal(s: State, l: Session, pol: Policy)
    ensures var (_, s', facts) := OnlineLogin(s, l, pol); OnlyAbout(s, (s', facts), l.name) && (facts == [] ==> s' == s)
  {
  }

  lemma ApprovalOk(s: State, lost: set<string>, log: seq<Fact>, ev: Event)
    requires Inv(s, lost, log) && ev.Login? && Step(s, ev) == (OnlineLogin(s, ev.session, ev.policy).1, OnlineLogin(s, ev.session, ev.policy).2)
    ensures Inv(Step(s, ev).0, LostAfter(s, lost, ev), log + Step(s, ev).1)
  {
    ApprovalIsLocal(s, ev.session, ev.policy);
    hide OnlineLogin, Step, EntryOk, LostSince, OnlyAbout;
    if Step(s, ev).1 == [] {
      NothingHappened(s, lost, log, ev);
    } else {
      ApprovedEntry(s, log, ev.session, ev.policy, ev.session.name in lost);
      OthersKept(s, lost, log, ev, ev.session.name);
    }
  }

  lemma NothingHappened(s: State, lost: set<string>, log: seq<Fact>, ev: Event)
    requires Inv(s, lost, log) && Step(s, ev).1 == [] && Step(s, ev).0.users == s.users
    ensures Inv(Step(s, ev).0, LostAfter(s, lost, ev), log + Step(s, ev).1)
  {
    assert log + Step(s, ev).1 == log;
    assert LostAfter(s, lost, ev) == lost;
  }

  lemma RefreshOk(s: State, lost: set<string>, log: seq<Fact>, ev: Event)
    requires Inv(s, lost, log) && ev.Refresh?
    ensures Inv(Step(s, ev).0, LostAfter(s, lost, ev), log + Step(s, ev).1)
  {
    var r := Step(s, ev);
    if r.1 == [] {
      NothingHappened(s, lost, log, ev);
    } else {
      assert EntryOk(log, ev.name, s.users[ev.name], ev.name in lost);
      if ev.answer.Granted? {
        JustTrusted(log, ev.name, s.users[ev.name].sub, s.now);
        assert r.1[0].Trusted? && Trusts(r.1, ev.name);
      } else {
        JustRefused(log, ev.name, ev.saved);
      }
      OthersKept(s, lost, log, ev, ev.name);
    }
  }

  lemma SignInOk(s: State, lost: set<string>, log: seq<Fact>, ev: Event)
    requires Inv(s, lost, log) && (ev.Provision? || ev.DesktopSignIn? || ev.SignOut?)
    ensures Inv(Step(s, ev).0, LostAfter(s, lost, ev), log + Step(s, ev).1)
  {
    var r := Step(s, ev);
    assert ev.name in s.users ==> EntryOk(log, ev.name, s.users[ev.name], ev.name in lost);
    if r.1 != [] {
      JustTrusted(log, ev.name, ev.sub, s.now);
      assert r.1[0].Trusted? && Trusts(r.1, ev.name);
    } else {
      assert log + r.1 == log;
    }
    OthersKept(s, lost, log, ev, ev.name);
  }

  lemma UnlockKeeps(s: State, lost: set<string>, log: seq<Fact>, ev: Event)
    requires Inv(s, lost, log) && ev.Login? && Step(s, ev).0 == s && |Step(s, ev).1| == 1 && Step(s, ev).1[0].Unlocked?
    ensures Inv(s, LostAfter(s, lost, ev), log + Step(s, ev).1)
  {
    var more := Step(s, ev).1;
    forall n | n in s.users ensures EntryOk(log + more, n, s.users[n], n in LostAfter(s, lost, ev)) {
      EntryKept(log, more, n, s.users[n], n in lost);
    }
    forall n | n in LostAfter(s, lost, ev) ensures LostSince(log + more, n) {
      LostKept(log, more, n);
    }
  }

  lemma StepOk(s: State, lost: set<string>, log: seq<Fact>, ev: Event)
    requires Inv(s, lost, log)
    ensures Inv(Step(s, ev).0, LostAfter(s, lost, ev), log + Step(s, ev).1)
  {
    match ev
    case Login(l, pol) =>
      if l.started > s.now || !ValidName(l.name) || l.local {
        NothingHappened(s, lost, log, ev);
      } else if OfflineAllowed(s, l.name, l.started, pol.validity) && l.password != Some("") {
        if Step(s, ev).1 == [] { NothingHappened(s, lost, log, ev); } else { UnlockKeeps(s, lost, log, ev); }
      } else {
        ApprovalOk(s, lost, log, ev);
      }
    case Refresh(_, _, _) => RefreshOk(s, lost, log, ev);
    case Tick(_) => NothingHappened(s, lost, log, ev);
    case SetStatus(_) => NothingHappened(s, lost, log, ev);
    case _ => SignInOk(s, lost, log, ev);
  }

  // ----- every run -----

  lemma LostIsUnjustified(log: seq<Fact>, f: Fact)
    requires f.Unlocked? && LostSince(log, f.name)
    ensures !Justified(log, f)
  {
    var j :| 0 <= j < |log| && log[j].TrustRefused? && log[j].name == f.name && !Trusts(log[j..], f.name);
    forall i | 0 <= i < |log| && log[i].Trusted? && log[i].name == f.name ensures !NoRefusal(log, f.name, i) {
      NotTrustedFrom(log, f.name, j, i);
    }
  }

  lemma NotTrustedFrom(log: seq<Fact>, name: string, j: nat, i: nat)
    requires j < |log| && i < |log| && !Trusts(log[j..], name)
    ensures log[i].Trusted? && log[i].name == name ==> i < j
  {
    assert i >= j ==> log[j..][i - j] == log[i];
  }

  /** The facts of a step hold an offline login only as the single fact of one
      that is accepted, and it is justified unless the name is lost. */
  lemma UnlockJustified(s: State, lost: set<string>, log: seq<Fact>, ev: Event)
    requires Inv(s, lost, log) && OnTime(s)
    ensures var facts := Step(s, ev).1;
      (forall k :: 0 <= k < |facts| && facts[k].Unlocked? ==> |facts| == 1 && (Justified(log, facts[k]) <==> !UsesLost(s, lost, ev)))
      && (UsesLost(s, lost, ev) ==> |facts| == 1 && facts[0].Unlocked?)
  {
    if ev.Login? && ev.session.started <= s.now && OfflineAllowed(s, ev.session.name, ev.session.started, ev.policy.validity) {
      var l, e := ev.session, s.users[ev.session.name];
      var f := Unlocked(l.name, e.sub, e.secret.value, l.started, s.now, ev.policy.validity, s.status);
      assert EntryOk(log, l.name, e, l.name in lost);
      if l.name in lost {
        LostIsUnjustified(log, f);
      } else {
        assert Justified(log, f);
      }
    }
  }

  lemma SafeAppend(s: State, lost: set<string>, log: seq<Fact>, ev: Event)
    requires Inv(s, lost, log) && OnTime(s) && Safe(log)
    ensures Safe(log + Step(s, ev).1) <==> !UsesLost(s, lost, ev)
  {
    var more := Step(s, ev).1;
    var l := log + more;
    UnlockJustified(s, lost, log, ev);
    if UsesLost(s, lost, ev) {
      assert l[|log|] == more[0] && l[..|log|] == log;
    } else {
      forall k | 0 <= k < |l| && l[k].Unlocked? ensures Justified(l[..k], l[k]) {
        if k < |log| {
          assert l[k] == log[k] && l[..k] == log[..k];
        } else {
          assert l[k] == more[k - |log|];
          assert l[..k] == log;
        }
      }
    }
  }

  lemma UnsafeStays(log: seq<Fact>, more: seq<Fact>)
    requires !Safe(log)
    ensures !Safe(log + more)
  {
    var k :| 0 <= k < |log| && log[k].Unlocked? && !Justified(log[..k], log[k]);
    assert (log + more)[k] == log[k] && (log + more)[..k] == log[..k];
  }

  lemma {:induction false} RunSafe(s: State, lost: set<string>, log: seq<Fact>, events: seq<Event>)
    requires Inv(s, lost, log) && OnTime(s) && Safe(log)
    ensures Safe(log + Facts(s, events)) <==> NeverUsesLost(s, lost, events)
    decreases |events|
  {
    hide Inv, OnTime, Safe, Step, UsesLost, LostAfter;
    if events == [] {
      assert log + [] == log;
    } else {
      var r, lost' := Step(s, events[0]), LostAfter(s, lost, events[0]);
      var rest := Facts(r.0, events[1..]);
      StepOk(s, lost, log, events[0]);
      OnTimeStep(s, events[0]);
      SafeAppend(s, lost, log, events[0]);
      assert log + Facts(s, events) == log + r.1 + rest;
      if UsesLost(s, lost, events[0]) {
        UnsafeStays(log + r.1, rest);
      } else {
        RunSafe(r.0, lost', log + r.1, events[1..]);
      }
    }
  }

  /** From an empty cache, every offline login follows an online sign-in or a
      granted refresh recorded within the validity window for the same subject,
      with no refused refresh since, uses a password chosen in an online login
      of that subject, and finds the device neither revoked nor pending: if and
      only if none is accepted for a name whose refusal could not be saved. */
  lemma OfflineLoginsAreJustified(now: int, deviceId: string, status: DeviceStatus, events: seq<Event>)
    ensures Safe(Facts(Initial(now, deviceId, status), events)) <==> NeverUsesLost(Initial(now, deviceId, status), {}, events)
  {
    RunSafe(Initial(now, deviceId, status), {}, [], events);
    assert [] + Facts(Initial(now, deviceId, status), events) == Facts(Initial(now, deviceId, status), events);
  }

  /** While refusals are saved, no name is lost. */
  lemma {:induction false} SavedRefusalsSuffice(s: State, events: seq<Event>)
    requires forall i :: 0 <= i < |events| && events[i].Refresh? && events[i].answer.Refused? ==> events[i].saved
    ensures NeverUsesLost(s, {}, events)
    decreases |events|
  {
    if events != [] {
      assert LostAfter(s, {}, events[0]) == {};
      SavedRefusalsSuffice(Step(s, events[0]).0, events[1..]);
    }
  }

  // ----- when offline login is open -----

  lemma {:induction false} RunOk(s: State, lost: set<string>, log: seq<Fact>, events: seq<Event>) returns (lost': set<string>)
    requires Inv(s, lost, log)
    ensures Inv(After(s, events), lost', log + Facts(s, events))
    decreases |events|
  {
    hide Inv, Step, LostAfter;
    if events == [] {
      lost' := lost;
      assert log + [] == log;
    } else {
      var r := Step(s, events[0]);
      StepOk(s, lost, log, events[0]);
      lost' := RunOk(r.0, LostAfter(s, lost, events[0]), log + r.1, events[1..]);
      assert log + Facts(s, events) == log + r.1 + Facts(r.0, events[1..]);
    }
  }

  /** In every state of every run, an entry with a password can be used offline
      exactly until the validity after its last recorded trust, unless a saved
      refusal followed or the device is revoked or pending. */
  lemma OpenUntilLastTrust(now: int, deviceId: string, status: DeviceStatus, events: seq<Event>, name: string, at: int, validity: int)
    requires var s := After(Initial(now, deviceId, status), events); name in s.users && s.users[name].secret.Some?
    ensures var s, last := After(Initial(now, deviceId, status), events), Standing(Facts(Initial(now, deviceId, status), events), name);
      OfflineAllowed(s, name, at, validity) <==> DeviceUsable(s.status) && last.Some? && at <= last.value + validity
  {
    var s0 := Initial(now, deviceId, status);
    var lost := RunOk(s0, {}, [], events);
    assert [] + Facts(s0, events) == Facts(s0, events);
    assert EntryOk(Facts(s0, events), name, After(s0, events).users[name], name in lost);
  }

  // ----- an unreachable server -----

  predicate Unconnected(ev: Event) {
    (ev.Login? && ev.session.online.Unreachable?) || (ev.Refresh? && ev.answer.NoConnection?)
  }

  /** The events that find a connection, or need none. */
  function Connected(events: seq<Event>): seq<Event>
    decreases |events|
  {
    if events == [] then []
    else if Unconnected(events[0]) then Connected(events[1..])
    else [events[0]] + Connected(events[1..])
  }

  /** What is left of a log without its offline logins. */
  function Lasting(log: seq<Fact>): seq<Fact> {
    if log == [] then [] else (if log[0].Unlocked? then [] else [log[0]]) + Lasting(log[1..])
  }

  lemma {:induction false} LastingJoin(a: seq<Fact>, b: seq<Fact>)
    ensures Lasting(a + b) == Lasting(a) + Lasting(b)
  {
    if a == [] {
      assert a + b == b;
    } else {
      assert (a + b)[1..] == a[1..] + b;
      LastingJoin(a[1..], b);
    }
  }

  /** Steps that find no connection leave no trace: without them a run ends in
      the same state, with the same trust, refusals and passwords. */
  lemma {:induction false} UnreachableLeavesNoTrace(s: State, events: seq<Event>)
    ensures After(s, Connected(events)) == After(s, events)
    ensures Lasting(Facts(s, Connected(events))) == Lasting(Facts(s, events))
    decreases |events|
  {
    if events != [] {
      var r := Step(s, events[0]);
      UnreachableLeavesNoTrace(r.0, events[1..]);
      LastingJoin(r.1, Facts(r.0, events[1..]));
      if Unconnected(events[0]) {
        UnconnectedStep(s, events[0]);
      } else {
        var rest := Connected(events[1..]);
        assert ([events[0]] + rest)[1..] == rest;
        LastingJoin(r.1, Facts(r.0, rest));
      }
    }
  }

  lemma UnconnectedStep(s: State, ev: Event)
    requires Unconnected(ev)
    ensures Step(s, ev).0 == s && Lasting(Step(s, ev).1) == []
  {
    assert |Step(s, ev).1| <= 1;
  }

  // ----- a refusal that is not saved -----

  /** A run with an offline login after a refusal that could not be saved. */
  lemma LostRefusal(deviceId: string, secret: string) returns (events: seq<Event>)
    requires secret != ""
    ensures !Safe(Facts(Initial(0, deviceId, Active), events))
  {
    var pol := Policy(1, 0);
    var typed := Typed(Some(secret), Some(secret));
    var online := Session("alice", 0, false, None, Identified("alice", "7", deviceId, "rt", true, [typed], true));
    var offline := Session("alice", 0, false, Some(secret), Unreachable);
    var s0 := Initial(0, deviceId, Active);
    var s1 := s0.(users := map["alice" := Entry("7", Some(Hash(secret)), 0, deviceId, "rt", false)]);
    events := [Login(online, pol), Refresh("alice", Refused, false), Login(offline, pol)];
    FirstLogin(s0, online, pol, secret);
    var unlocked := Unlocked("alice", "7", Hash(secret), 0, 0, 1, Active);
    assert Step(s1, events[1]) == (s1, [TrustRefused("alice", false)]);
    assert Step(s1, events[2]) == (s1, [unlocked]);
    assert events[1..] == [events[1], events[2]] && events[1..][1..] == [events[2]] && events[2..] == [events[2]];
    assert Facts(s1, [events[2]]) == [unlocked];
    assert Facts(s1, events[1..]) == [TrustRefused("alice", false), unlocked];
    var log := [Chose("alice", "7", Hash(secret)), Trusted("alice", "7", 0), TrustRefused("alice", false), unlocked];
    assert Facts(s0, events) == log;
    assert log[..3][2..] == [TrustRefused("alice", false)] && log[..3][2] == TrustRefused("alice", false);
    assert !Trusts(log[..3][2..], "alice");
    LostIsUnjustified(log[..3], unlocked);
    assert log[3] == unlocked;
  }

  lemma FirstLogin(s: State, l: Session, pol: Policy, secret: string)
    requires s.users == map[] && s.now == 0 && secret != "" && pol == Policy(1, 0)
    requires l == Session("alice", 0, false, None, Identified("alice", "7", s.deviceId, "rt", true, [Typed(Some(secret), Some(secret))], true))
    ensures Step(s, Login(l, pol)) == (s.(users := map["alice" := Entry("7", Some(Hash(secret)), 0, s.deviceId, "rt", false)]),
                                       [Chose("alice", "7", Hash(secret)), Trusted("alice", "7", 0)])
  {
    assert ChooseSecret(l.online.answers, 3, 0) == Some(Hash(secret));
    assert ValidName("alice") && !OfflineAllowed(s, l.name, 0, 1);
    var e := Entry("7", Some(Hash(secret)), 0, s.deviceId, "rt", false);
    assert s.users["alice" := e] == map["alice" := e];
    assert OnlineLogin(s, l, pol).2 == [Chose("alice", "7", Hash(secret)), Trusted("alice", "7", 0)];
  }
}
