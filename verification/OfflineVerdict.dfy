/** What an accepted login rests on, and how each step moves the time for which
    an entry can be used offline. */
module OfflineVerdict {
  import opened Options
  import opened OfflineLogin
  import opened OfflineSafety

  // ----- verdicts -----

  /** The login is accepted on the cached secret. */
  predicate OnSecret(l: Session, f: Fact) {
    && f.Unlocked? && f.name == l.name && l.password.Some? && f.secret == Hash(l.password.value) && f.at == l.started
  }

  /** The login is accepted on an online sign-in of this device. */
  predicate OnSignIn(s: State, l: Session, f: Fact) {
    && f == Trusted(l.name, if l.online.Identified? then l.online.sub else "", l.started)
    && l.online.Identified? && l.online.preferred == l.name && l.online.sub != "" && l.online.deviceId == s.deviceId
  }

  /** A login is accepted exactly when it leaves a fact: the typed password's
      unlocking, or the trust of a sign-in. */
  lemma VerdictHasFact(s: State, l: Session, pol: Policy)
    ensures var (verdict, _, facts) := LoginStep(s, l, pol);
      && (verdict == OK <==> facts != [])
      && (facts != [] ==> OnSecret(l, facts[|facts| - 1]) || OnSignIn(s, l, facts[|facts| - 1]))
      && (facts != [] && facts[|facts| - 1].Unlocked? ==> facts == [facts[0]])
      && (verdict == Ignore <==> !ValidName(l.name) || l.local)
  {
  }

  lemma {:induction false} FactsJoin(s: State, events: seq<Event>, k: nat)
    requires k < |events|
    ensures Facts(s, events[..k + 1]) == Facts(s, events[..k]) + Step(After(s, events[..k]), events[k]).1
    decreases k
  {
    hide Step;
    var upTo := events[..k + 1];
    if k == 0 {
      assert upTo == [events[0]] && events[..0] == [] && upTo[1..] == [];
    } else {
      var rest := events[1..];
      FactsJoin(Step(s, events[0]).0, rest, k - 1);
      assert upTo[1..] == rest[..k] && events[..k][1..] == rest[..k - 1];
    }
  }

  lemma {:induction false} NeverUsesLostSoFar(s: State, lost: set<string>, events: seq<Event>, k: nat)
    requires NeverUsesLost(s, lost, events) && k <= |events|
    ensures NeverUsesLost(s, lost, events[..k])
    decreases k
  {
    hide Step, UsesLost, LostAfter;
    if k > 0 {
      NeverUsesLostSoFar(Step(s, events[0]).0, LostAfter(s, lost, events[0]), events[1..], k - 1);
      assert events[..k][1..] == events[1..][..k - 1];
    }
  }

  /** In every run that never accepts a name whose refusal was lost: each login
      that is accepted was a sign-in of this device under its own name, or typed
      a password whose use offline is justified by what came before. */
  lemma AcceptedLoginsAreJustified(now: int, deviceId: string, status: DeviceStatus, events: seq<Event>, k: nat)
    requires NeverUsesLost(Initial(now, deviceId, status), {}, events) && k < |events| && events[k].Login?
    requires var s := After(Initial(now, deviceId, status), events[..k]);
      events[k].session.started <= s.now && LoginStep(s, events[k].session, events[k].policy).0 == OK
    ensures var s0 := Initial(now, deviceId, status);
      var s, l, facts := After(s0, events[..k]), events[k].session, Step(After(s0, events[..k]), events[k]).1;
      && facts != []
      && (OnSignIn(s, l, facts[|facts| - 1]) || (OnSecret(l, facts[0]) && Justified(Facts(s0, events[..k]), facts[0])))
  {
    var s0 := Initial(now, deviceId, status);
    var s, log := After(s0, events[..k]), Facts(s0, events[..k]);
    var facts := Step(s, events[k]).1;
    VerdictHasFact(s, events[k].session, events[k].policy);
    FactsJoin(s0, events, k);
    NeverUsesLostSoFar(s0, {}, events, k + 1);
    OfflineLoginsAreJustified(now, deviceId, status, events[..k + 1]);
    hide Justified, LoginStep, After, Facts, OnSignIn, Step;
    if facts[|facts| - 1].Unlocked? {
      assert (log + facts)[|log|] == facts[0] && (log + facts)[..|log|] == log;
    }
  }

  // ----- the window -----

  predicate WindowOpen(s: State, name: string, at: int, validity: int) {
    && name in s.users && !s.users[name].revoked && s.users[name].secret.Some?
    && at <= s.users[name].lastTrustRefresh + validity
  }

  /** The step is about the name and takes effect. */
  predicate Moves(s: State, ev: Event, name: string) {
    match ev
    case Login(l, pol) =>
      && l.name == name && l.started <= s.now && ValidName(l.name) && !l.local
      && !(OfflineAllowed(s, l.name, l.started, pol.validity) && l.password != Some(""))
      && SignInAcceptable(s, l, pol)
    case Refresh(n, answer, saved) =>
      n == name && n in s.users && s.users[n].refreshToken != "" && !s.users[n].revoked && saved && !answer.NoConnection?
    case DesktopSignIn(n, sub, token) =>
      n == name && sub != "" && token != "" && (n in s.users ==> s.users[n].sub in {"", sub})
    case Provision(n, _, overwrite) => n == name && (n !in s.users || overwrite)
    case SignOut(n) => n == name
    case _ => false
  }

  /** What the window then is. */
  predicate MovedWindow(s: State, ev: Event, at: int, validity: int) {
    match ev
    case Login(l, _) => at <= l.started + validity
    case Refresh(n, answer, _) => answer.Granted? && n in s.users && s.users[n].secret.Some? && at <= s.now + validity
    case DesktopSignIn(n, _, _) => n in s.users && s.users[n].secret.Some? && at <= s.now + validity
    case _ => false
  }

  /** Every step moves the time for which an entry can be used offline exactly
      so: a sign-in or granted refresh extends it, a refused one ends it. */
  lemma WindowMoves(s: State, ev: Event, name: string, at: int, validity: int)
    ensures WindowOpen(Step(s, ev).0, name, at, validity) <==>
      if Moves(s, ev, name) then MovedWindow(s, ev, at, validity) else WindowOpen(s, name, at, validity)
    ensures Step(s, ev).0.status == if ev.SetStatus? then ev.status else s.status
    ensures Step(s, ev).0.now == s.now + if ev.Tick? then ev.elapsed else 0
  {
    if ev.Login? {
      LoginMoves(s, ev, name, at, validity);
    } else {
      hide LoginStep;
    }
  }

  lemma LoginMoves(s: State, ev: Event, name: string, at: int, validity: int)
    requires ev.Login?
    ensures WindowOpen(Step(s, ev).0, name, at, validity) <==>
      if Moves(s, ev, name) then MovedWindow(s, ev, at, validity) else WindowOpen(s, name, at, validity)
  {
    SignInExactly(s, ev.session, ev.policy);
    hide OnlineLogin, SignInAcceptable, ChooseSecret, ValidName;
  }

  function TokenOf(s: State, name: string): string {
    if name in s.users then s.users[name].refreshToken else ""
  }

  /** The refresh token held for a name is the last one given for it; a refused
      refresh, a replaced entry and a sign-out leave none. */
  lemma TokenMoves(s: State, ev: Event, name: string)
    ensures var given := match ev
        case Login(l, _) => if l.online.Identified? then l.online.refreshToken else ""
        case Refresh(_, answer, _) => if answer.Granted? then answer.token else ""
        case DesktopSignIn(_, _, token) => token
        case _ => "";
      var keeps := ev.Login? || (ev.Refresh? && ev.answer.Granted?);
      TokenOf(Step(s, ev).0, name) ==
        if !Moves(s, ev, name) then TokenOf(s, name) else if given == "" && keeps then TokenOf(s, name) else given
  {
    if ev.Login? { SignInExactly(s, ev.session, ev.policy); }
    hide OnlineLogin, SignInAcceptable, ChooseSecret, ValidName;
  }

  // ----- RefreshUsers -----

  /** Each listed entry is refreshed at the time of its answer. */
  function RefreshEvents(work: seq<Work>): seq<Event> {
    if work == [] then []
    else
      var w := work[|work| - 1];
      RefreshEvents(work[..|work| - 1]) + [Tick(w.elapsed), Refresh(w.name, w.answer, w.saved)]
  }

  lemma {:induction false} AfterJoin(s: State, xs: seq<Event>, ys: seq<Event>)
    ensures After(s, xs + ys) == After(After(s, xs), ys)
    decreases |xs|
  {
    hide Step;
    if xs == [] {
      assert xs + ys == ys;
    } else {
      assert (xs + ys)[1..] == xs[1..] + ys;
      AfterJoin(Step(s, xs[0]).0, xs[1..], ys);
    }
  }

  /** RefreshUsers is a run of refreshes, one for each entry in turn. */
  lemma {:induction false} RefreshAllIsARun(s: State, work: seq<Work>)
    ensures RefreshAll(s, work) == After(s, RefreshEvents(work))
    decreases |work|
  {
    hide RefreshEntry, LoginStep;
    if work != [] {
      var init, w := work[..|work| - 1], work[|work| - 1];
      var tick, refresh := Tick(w.elapsed), Refresh(w.name, w.answer, w.saved);
      RefreshAllIsARun(s, init);
      AfterJoin(s, RefreshEvents(init), [tick, refresh]);
      assert [tick, refresh][1..] == [refresh] && [refresh][1..] == [];
      var before := After(s, RefreshEvents(init));
      assert After(Step(before, tick).0, [refresh]) == Step(Step(before, tick).0, refresh).0;
    }
  }
}
