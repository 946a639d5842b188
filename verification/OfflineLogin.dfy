/** The endpoint's login conversation and trust refresh. Each load-modify-save of
    a cache entry is one step. */
module OfflineLogin {
  import opened Options

  /** A password hash, injective. */
  datatype Hash = Hash(password: string)

  /** lastTrustRefresh is arbitrary while there is no secret. */
  datatype Entry = Entry(sub: string, secret: Option<Hash>, lastTrustRefresh: int, deviceId: string, refreshToken: string, revoked: bool)

  datatype DeviceStatus = Unreadable | Active | Pending | Revoked

  datatype State = State(now: int, deviceId: string, status: DeviceStatus, users: map<string, Entry>)

  datatype Verdict = Fail | OK | Ignore

  datatype Policy = Policy(validity: int, minSecret: nat)

  /** Answers to the two prompts for a new local password. */
  datatype Typed = Typed(first: Option<string>, second: Option<string>)

  /** What the online sign-in comes back with. */
  datatype Online =
    | Unreachable
    | NotCompleted
    | Identified(preferred: string, sub: string, deviceId: string, refreshToken: string, uidFree: bool, answers: seq<Typed>, saved: bool)

  /** local: the name is in the local account file. password: None when the
      prompt fails. started: the clock reading at the start. */
  datatype Session = Session(name: string, started: int, local: bool, password: Option<string>, online: Online)

  datatype Answer = Granted(token: string) | NoConnection | Refused

  datatype Event =
    | Tick(elapsed: nat)
    | SetStatus(status: DeviceStatus)
    | Login(session: Session, policy: Policy)
    | Refresh(name: string, answer: Answer, saved: bool)
    | Provision(name: string, sub: string, overwrite: bool)
    | DesktopSignIn(name: string, sub: string, token: string)
    | SignOut(name: string)

  /** What a step is remembered for. Trust has the time at which an online login
      started, or a desktop sign-in or refresh was granted; an offline login has
      the password that was typed, and the times at which it started and was
      accepted. */
  datatype Fact =
    | Trusted(name: string, sub: string, at: int)
    | TrustRefused(name: string, saved: bool)
    | Chose(name: string, sub: string, secret: Hash)
    | Unlocked(name: string, sub: string, secret: Hash, at: int, accepted: int, validity: int, status: DeviceStatus)

  /** "^[a-z_][a-z0-9_-]{0,31}$" */
  predicate ValidName(name: string) {
    && 1 <= |name| <= 32 && ('a' <= name[0] <= 'z' || name[0] == '_')
    && forall i :: 1 <= i < |name| ==> 'a' <= name[i] <= 'z' || '0' <= name[i] <= '9' || name[i] == '_' || name[i] == '-'
  }

  predicate OfflineAllowed(s: State, name: string, now: int, validity: int) {
    && name in s.users && !s.users[name].revoked && s.users[name].secret.Some?
    && now <= s.users[name].lastTrustRefresh + validity
    && s.status != Revoked && s.status != Pending
  }

  /** At most three attempts; a failing prompt ends the choice. */
  function ChooseSecret(answers: seq<Typed>, attempts: nat, min: nat): (r: Option<Hash>)
    ensures r.Some? ==> |r.value.password| >= min
    ensures r.Some? ==> exists i :: 0 <= i < |answers| && i < attempts && answers[i] == Typed(Some(r.value.password), Some(r.value.password))
  {
    if attempts == 0 || answers == [] || answers[0].first.None? then None
    else if |answers[0].first.value| < min then Later(answers, attempts, ChooseSecret(answers[1..], attempts - 1, min))
    else if answers[0].second.None? then None
    else if answers[0].first != answers[0].second then Later(answers, attempts, ChooseSecret(answers[1..], attempts - 1, min))
    else Some(Hash(answers[0].first.value))
  }

  function Later(answers: seq<Typed>, attempts: nat, r: Option<Hash>): (r': Option<Hash>)
    requires attempts > 0 && answers != []
    requires r.Some? ==> exists i :: 0 <= i < |answers[1..]| && i < attempts - 1 && answers[1..][i] == Typed(Some(r.value.password), Some(r.value.password))
    ensures r' == r
    ensures r.Some? ==> exists i :: 0 <= i < |answers| && i < attempts && answers[i] == Typed(Some(r.value.password), Some(r.value.password))
  {
    assert forall i :: 0 <= i < |answers[1..]| ==> answers[1..][i] == answers[i + 1];
    r
  }

  /** The user is asked again. */
  predicate Retries(t: Typed, min: nat) {
    t.first.Some? && (|t.first.value| < min || (t.second.Some? && t.second != t.first))
  }

  /** The password is chosen in this attempt, the ones before it being retried. */
  predicate ChosenAt(answers: seq<Typed>, attempts: nat, min: nat, i: int) {
    && 0 <= i < |answers| && i < attempts
    && answers[i].first.Some? && |answers[i].first.value| >= min && answers[i].second == answers[i].first
    && forall j :: 0 <= j < i ==> Retries(answers[j], min)
  }

  /** The choice succeeds exactly with the first entry that is long enough and
      typed twice alike, if no prompt fails before it. */
  lemma {:induction false} ChosenExactly(answers: seq<Typed>, attempts: nat, min: nat)
    ensures ChooseSecret(answers, attempts, min).Some? <==> exists i :: ChosenAt(answers, attempts, min, i)
    ensures forall i :: ChosenAt(answers, attempts, min, i) ==> ChooseSecret(answers, attempts, min) == Some(Hash(answers[i].first.value))
    decreases attempts
  {
    if attempts > 0 && answers != [] {
      var rest, less := answers[1..], attempts - 1;
      ChosenExactly(rest, less, min);
      if Retries(answers[0], min) {
        forall i | ChosenAt(rest, less, min, i) ensures ChosenAt(answers, attempts, min, i + 1) {
          assert forall j :: 0 < j <= i ==> answers[j] == rest[j - 1];
        }
        forall i | ChosenAt(answers, attempts, min, i) ensures ChosenAt(rest, less, min, i - 1) {
          assert rest[i - 1] == answers[i];
        }
      } else {
        assert forall i :: ChosenAt(answers, attempts, min, i) ==> i == 0;
        assert ChosenAt(answers, attempts, min, 0) <==> ChooseSecret(answers, attempts, min).Some?;
      }
    }
  }

  function LoginStep(s: State, l: Session, pol: Policy): (Verdict, State, seq<Fact>) {
    if !ValidName(l.name) || l.local then (Ignore, s, [])
    else if OfflineAllowed(s, l.name, l.started, pol.validity) && l.password != Some("") then
      var e := s.users[l.name];
      if l.password.Some? && e.secret.value == Hash(l.password.value) then
        (OK, s, [Unlocked(l.name, e.sub, Hash(l.password.value), l.started, s.now, pol.validity, s.status)])
      else (Fail, s, [])
    else OnlineLogin(s, l, pol)
  }

  function OnlineLogin(s: State, l: Session, pol: Policy): (Verdict, State, seq<Fact>) {
    var on := l.online;
    if !on.Identified? || on.preferred != l.name || on.sub == "" || on.deviceId != s.deviceId then (Fail, s, [])
    else if l.name in s.users && s.users[l.name].sub != "" && s.users[l.name].sub != on.sub then (Fail, s, [])
    else if l.name !in s.users && !on.uidFree then (Fail, s, [])
    else
      var e := if l.name in s.users then s.users[l.name] else Entry(on.sub, None, 0, "", "", false);
      var secret := if e.secret.Some? then e.secret else ChooseSecret(on.answers, 3, pol.minSecret);
      if secret.None? || !on.saved then (Fail, s, [])
      else (OK, s.(users := s.users[l.name := Approved(e, secret, on, l.started)]), Approval(l, e, secret.value))
  }

  function Approved(e: Entry, secret: Option<Hash>, on: Online, now: int): Entry
    requires on.Identified?
  {
    Entry(on.sub, secret, now, on.deviceId, if on.refreshToken != "" then on.refreshToken else e.refreshToken, false)
  }

  function Approval(l: Session, e: Entry, secret: Hash): seq<Fact>
    requires l.online.Identified?
  {
    (if e.secret.None? then [Chose(l.name, l.online.sub, secret)] else []) + [Trusted(l.name, l.online.sub, l.started)]
  }

  predicate PasswordThere(s: State, l: Session, pol: Policy) {
    (l.name in s.users && s.users[l.name].secret.Some?)
    || (l.online.Identified? && ChooseSecret(l.online.answers, 3, pol.minSecret).Some?)
  }

  /** The sign-in names this user and device, no other subject has the name, and
      a password is there or chosen and saved. */
  predicate SignInAcceptable(s: State, l: Session, pol: Policy) {
    var on := l.online;
    && on.Identified? && on.preferred == l.name && on.sub != "" && on.deviceId == s.deviceId && on.saved
    && (if l.name in s.users then s.users[l.name].sub in {"", on.sub} else on.uidFree)
    && PasswordThere(s, l, pol)
  }

  /** The entry after an accepted sign-in. */
  predicate SignedInEntry(users: map<string, Entry>, l: Session, pol: Policy, e: Entry) {
    var known := l.name in users;
    && l.online.Identified? && e.sub == l.online.sub && e.deviceId == l.online.deviceId
    && e.lastTrustRefresh == l.started && !e.revoked
    && e.secret == (if known && users[l.name].secret.Some? then users[l.name].secret else ChooseSecret(l.online.answers, 3, pol.minSecret))
    && e.refreshToken == (if l.online.refreshToken != "" then l.online.refreshToken else if known then users[l.name].refreshToken else "")
  }

  /** An online login succeeds exactly then, and changes one entry. */
  lemma SignInExactly(s: State, l: Session, pol: Policy)
    ensures var (verdict, s', _) := OnlineLogin(s, l, pol);
      && (if SignInAcceptable(s, l, pol) then verdict == OK else verdict == Fail)
      && (verdict != OK ==> s' == s)
      && (verdict == OK ==>
            l.name in s'.users && SignedInEntry(s.users, l, pol, s'.users[l.name]) && s' == s.(users := s.users[l.name := s'.users[l.name]]))
  {
    hide ChooseSecret;
  }

  /** One entry of RefreshUsers. */
  function RefreshEntry(s: State, name: string, answer: Answer, saved: bool): (State, seq<Fact>) {
    if name !in s.users || s.users[name].refreshToken == "" || s.users[name].revoked then (s, [])
    else
      var e := s.users[name];
      match answer
      case NoConnection => (s, [])
      case Granted(token) =>
        if !saved then (s, [])
        else (s.(users := s.users[name := e.(lastTrustRefresh := s.now, refreshToken := if token != "" then token else e.refreshToken)]),
              [Trusted(name, e.sub, s.now)])
      case Refused =>
        (if saved then s.(users := s.users[name := e.(revoked := true, refreshToken := "")]) else s, [TrustRefused(name, saved)])
  }

  function Step(s: State, ev: Event): (State, seq<Fact>) {
    match ev
    case Tick(elapsed) => (s.(now := s.now + elapsed), [])
    case SetStatus(status) => (s.(status := status), [])
    case Login(l, pol) => if l.started > s.now then (s, []) else (LoginStep(s, l, pol).1, LoginStep(s, l, pol).2)
    case Refresh(name, answer, saved) => RefreshEntry(s, name, answer, saved)
    case Provision(name, sub, overwrite) =>
      // overwrite: the name-service lookup; otherwise the enrolling owner
      if name in s.users && !overwrite then (s, [])
      else (s.(users := s.users[name := Entry(sub, None, 0, s.deviceId, "", false)]), [])
    case DesktopSignIn(name, sub, token) =>
      if sub == "" || token == "" || (name in s.users && s.users[name].sub != "" && s.users[name].sub != sub) then (s, [])
      else
        var secret := if name in s.users then s.users[name].secret else None;
        (s.(users := s.users[name := Entry(sub, secret, s.now, s.deviceId, token, false)]), [Trusted(name, sub, s.now)])
    case SignOut(name) => (s.(users := s.users - {name}), [])
  }

  function Facts(s: State, events: seq<Event>): seq<Fact>
    decreases |events|
  {
    if events == [] then [] else Step(s, events[0]).1 + Facts(Step(s, events[0]).0, events[1..])
  }

  function After(s: State, events: seq<Event>): State
    decreases |events|
  {
    if events == [] then s else After(Step(s, events[0]).0, events[1..])
  }

  function Initial(now: int, deviceId: string, status: DeviceStatus): State {
    State(now, deviceId, status, map[])
  }

  // ----- the agent -----

  /** elapsed: the time until the server's answer. */
  datatype Work = Work(name: string, elapsed: nat, answer: Answer, saved: bool)

  /** RefreshUsers over the listed entries. */
  function RefreshAll(s: State, work: seq<Work>): State {
    if work == [] then s
    else
      var w := work[|work| - 1];
      var before := RefreshAll(s, work[..|work| - 1]);
      RefreshEntry(before.(now := before.now + w.elapsed), w.name, w.answer, w.saved).0
  }

  class Agent {
    const deviceId: string
    var now: int
    var status: DeviceStatus
    var users: map<string, Entry>

    ghost function Contents(): State
      reads this
    {
      State(now, deviceId, status, users)
    }

    method ChooseLocalSecret(answers: seq<Typed>, min: nat) returns (secret: Option<Hash>)
      ensures secret == ChooseSecret(answers, 3, min)
    {
      var attempt := 0;
      while attempt < 3
        invariant 0 <= attempt <= 3 && (attempt < 3 ==> attempt <= |answers|)
        invariant attempt == 3 ==> ChooseSecret(answers, 3, min) == None
        invariant attempt < 3 ==> ChooseSecret(answers, 3, min) == ChooseSecret(answers[attempt..], 3 - attempt, min)
      {
        if attempt == |answers| || answers[attempt].first.None? {
          return None;
        }
        var first, second := answers[attempt].first.value, answers[attempt].second;
        assert answers[attempt..][1..] == answers[attempt + 1..];
        if |first| >= min {
          if second.None? {
            return None;
          }
          if first == second.value {
            return Some(Hash(first));
          }
        }
        attempt := attempt + 1;
      }
      return None;
    }

    method Login(l: Session, pol: Policy) returns (verdict: Verdict)
      modifies this
      ensures verdict == LoginStep(old(Contents()), l, pol).0 && Contents() == LoginStep(old(Contents()), l, pol).1
      ensures verdict == Ignore <==> !ValidName(l.name) || l.local
      ensures verdict != Ignore && OfflineAllowed(old(Contents()), l.name, l.started, pol.validity) && l.password != Some("") ==>
        && users == old(users)
        && (verdict == OK <==> l.password.Some? && old(users)[l.name].secret == Some(Hash(l.password.value)))
      ensures verdict != Ignore && !(OfflineAllowed(old(Contents()), l.name, l.started, pol.validity) && l.password != Some("")) ==>
        (verdict == OK <==> SignInAcceptable(old(Contents()), l, pol))
    {
      if !ValidName(l.name) || l.local {
        return Ignore;
      }
      var cached := l.name in users;
      if cached && !users[l.name].revoked && users[l.name].secret.Some?
         && l.started <= users[l.name].lastTrustRefresh + pol.validity && status != Revoked && status != Pending {
        if l.password.None? {
          return Fail;
        }
        if l.password.value != "" {
          return if users[l.name].secret.value == Hash(l.password.value) then OK else Fail;
        }
      }
      verdict := LoginOnline(l, pol);
    }

    method LoginOnline(l: Session, pol: Policy) returns (verdict: Verdict)
      modifies this
      ensures verdict == OnlineLogin(old(Contents()), l, pol).0 && Contents() == OnlineLogin(old(Contents()), l, pol).1
      ensures verdict == OK <==> SignInAcceptable(old(Contents()), l, pol)
      ensures verdict != OK ==> users == old(users)
      ensures verdict == OK ==>
        && l.name in users && users == old(users)[l.name := users[l.name]] && SignedInEntry(old(users), l, pol, users[l.name])
    {
      SignInExactly(Contents(), l, pol);
      var on := l.online;
      if !on.Identified? || on.preferred != l.name || on.sub == "" || on.deviceId != deviceId {
        return Fail;
      }
      var uc := Entry(on.sub, None, 0, "", "", false);
      if l.name in users {
        uc := users[l.name];
        if uc.sub != "" && uc.sub != on.sub {
          return Fail;
        }
      } else if !on.uidFree {
        return Fail;
      }
      if uc.secret.None? {
        var secret := ChooseLocalSecret(on.answers, pol.minSecret);
        if secret.None? {
          return Fail;
        }
        uc := uc.(secret := secret);
      }
      uc := uc.(sub := on.sub, deviceId := on.deviceId, lastTrustRefresh := l.started, revoked := false);
      if on.refreshToken != "" {
        uc := uc.(refreshToken := on.refreshToken);
      }
      if !on.saved {
        return Fail;
      }
      users := users[l.name := uc];
      return OK;
    }

    method RefreshUsers(work: seq<Work>)
      modifies this
      ensures Contents() == RefreshAll(old(Contents()), work)
    {
      for i := 0 to |work|
        invariant Contents() == RefreshAll(old(Contents()), work[..i])
      {
        var w := work[i];
        assert work[..i + 1][..i] == work[..i];
        now := now + w.elapsed;
        if w.name !in users || users[w.name].refreshToken == "" || users[w.name].revoked {
          continue;
        }
        var uc := users[w.name];
        match w.answer {
          case Granted(token) =>
            uc := uc.(lastTrustRefresh := now);
            if token != "" {
              uc := uc.(refreshToken := token);
            }
          case NoConnection => continue;
          case Refused => uc := uc.(revoked := true, refreshToken := "");
        }
        if w.saved {
          users := users[w.name := uc];
        }
      }
      assert work[..|work|] == work;
    }
  }
}
