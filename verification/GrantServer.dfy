/** The tables as mutable state and the token handlers as the sequential code
    they are, each proved to do what its request program does when nothing
    comes in between. */
module GrantServer {
  import opened Options
  import opened GrantStore
  import opened Grants

  /** Steps a request can still take. */
  function Left(q: Request): nat {
    match q
    case Done => 0
    case RefreshLookup(_, _, _, _) => 5
    case RefreshUser(_, _, _, _) => 4
    case RefreshDevice(_, _, _, _) => 3
    case RefreshRotate(_, _, _) => 2
    case RefreshReuse(_, _) => 1
    case CodeConsume(_, _, _, _, _, _) => 3
    case CodeUser(_, _, _) => 2
    case CodeIssue(_, _, _) => 1
    case PollLookup(_, _, _, _) => 6
    case PollMark(_, _, _, _, _) => 5
    case PollDevice(_, _, _, _) => 4
    case PollUser(_, _, _, _) => 3
    case PollConsume(_, _, _, _) => 2
    case PollIssue(_, _, _, _) => 1
    case ConfirmLookup(_, _, _) => 3
    case ConfirmDevice(_, _, _, _) => 2
    case ConfirmDecide(_, _, _) => 1
    case ExchangeDevice(_, _, _, _, _, _) => 4
    case ExchangeToken(_, _, _, _, _, _) => 3
    case ExchangeUser(_, _, _, _, _) => 2
    case ExchangeTarget(_, _, _, _, _) => 1
  }

  lemma StepsRunOut(db: Db, q: Request, a: Arg)
    ensures q.Done? ==> Exec(db, q, a) == Outcome(db, Done)
    ensures !q.Done? ==> Left(Exec(db, q, a).next) < Left(q)
  {
  }

  /** The store after the request has run to its end without interference. */
  function Alone(db: Db, q: Request, a: Arg): Db
    decreases Left(q)
  {
    StepsRunOut(db, q, a);
    if q.Done? then db else Alone(Exec(db, q, a).db, Exec(db, q, a).next, a)
  }

  /** One step of running alone, or the end of it. */
  ghost predicate StepOfAlone(db: Db, q: Request, a: Arg, o: Outcome) {
    Alone(db, q, a) == if o.next.Done? then o.db else Alone(o.db, o.next, a)
  }

  lemma AloneRefresh(db: Db, q: Request, a: Arg)
    requires q.RefreshLookup? || q.RefreshUser? || q.RefreshDevice? || q.RefreshRotate? || q.RefreshReuse?
    ensures !a.dbError ==> StepOfAlone(db, q, a, ExecRefresh(db, q, a))
  {
    StepsRunOut(db, q, a);
  }

  lemma AloneCode(db: Db, q: Request, a: Arg)
    requires q.CodeConsume? || q.CodeUser? || q.CodeIssue?
    ensures !a.dbError ==> StepOfAlone(db, q, a, ExecCode(db, q, a))
  {
    StepsRunOut(db, q, a);
  }

  lemma AlonePoll(db: Db, q: Request, a: Arg)
    requires q.PollLookup? || q.PollMark? || q.PollDevice? || q.PollUser? || q.PollConsume? || q.PollIssue?
    ensures !a.dbError ==> StepOfAlone(db, q, a, ExecPoll(db, q, a))
  {
    StepsRunOut(db, q, a);
  }

  lemma AloneConfirm(db: Db, q: Request, a: Arg)
    requires q.ConfirmLookup? || q.ConfirmDevice? || q.ConfirmDecide?
    ensures !a.dbError ==> StepOfAlone(db, q, a, ExecConfirm(db, q, a))
  {
    StepsRunOut(db, q, a);
  }

  lemma AloneExchange(db: Db, q: Request, a: Arg)
    requires q.ExchangeDevice? || q.ExchangeToken? || q.ExchangeUser? || q.ExchangeTarget?
    ensures !a.dbError ==> StepOfAlone(db, q, a, ExecExchange(db, q))
  {
    StepsRunOut(db, q, a);
  }

  function Repeat(e: Event, n: nat): (es: seq<Event>)
    ensures |es| == n && forall i :: 0 <= i < n ==> es[i] == e
  {
    if n == 0 then [] else [e] + Repeat(e, n - 1)
  }

  /** Running alone is one of the machine's runs. */
  lemma {:induction false} AloneIsARun(s: State, r: Name, a: Arg, n: nat)
    requires r in s.requests && Left(s.requests[r]) <= n
    ensures Run(s, Repeat(Advance(r, a), n)) == State(Alone(s.db, s.requests[r], a), s.requests[r := Done])
    decreases n
  {
    var q := s.requests[r];
    StepsRunOut(s.db, q, a);
    if n == 0 {
      assert s.requests[r := Done] == s.requests;
    } else {
      var s' := Step(s, Advance(r, a));
      AloneIsARun(s', r, a, n - 1);
      assert Repeat(Advance(r, a), n)[1..] == Repeat(Advance(r, a), n - 1);
      assert s'.requests[r := Done] == s.requests[r := Done];
    }
  }

  /** What a handler that made db into db' sent: the response it logged. */
  function Answer(db: Db, db': Db): Option<Response> {
    if |db'.hist.log| > |db.hist.log| then Some(db'.hist.log[|db'.hist.log| - 1]) else None
  }

  class Server {
    var now: int
    var tokens: map<Name, RefreshToken>
    var authCodes: map<Name, AuthCode>
    var deviceCodes: map<Name, DeviceCode>
    var devices: map<Name, Device>
    var enabled: set<Name>
    var audiences: map<Name, set<Name>>
    ghost var hist: History

    ghost function Contents(): Db
      reads this
    {
      Db(now, tokens, authCodes, deviceCodes, devices, enabled, audiences, hist)
    }

    // ----- the store -----

    method StoreRotateRefreshToken(presented: Name, replacement: Option<NewToken>) returns (result: RotateResult)
      modifies this`tokens, this`hist
      ensures (result, Contents()) == RotateRefreshToken(old(Contents()), presented, replacement)
    {
      var before := tokens;
      if presented !in tokens || tokens[presented].revoked {
        return AlreadyRevoked;
      }
      tokens := tokens[presented := tokens[presented].(revoked := true)];
      if replacement.Some? {
        var id, row := replacement.value.id, replacement.value.row;
        if id == NONE || id in tokens {
          tokens := before;
          return Conflict;
        }
        hist := InsertToken(Contents(), id, row, None).hist;
        tokens := tokens[id := row];
      }
      return Rotated;
    }

    method StoreRevokeForUserClient(user: Name, client: Name)
      modifies this`tokens
      ensures Contents() == RevokeForUserClient(old(Contents()), user, client)
      ensures tokens.Keys == old(tokens).Keys && forall t :: t in old(tokens) ==>
        var row := old(tokens)[t];
        tokens[t] == row.(revoked := row.revoked || (row.user == user && row.client == client))
    {
      tokens := map t | t in tokens ::
        if tokens[t].user == user && tokens[t].client == client then tokens[t].(revoked := true) else tokens[t];
    }

    method StoreCreateRefreshToken(id: Name, row: RefreshToken, ghost grant: Grant) returns (ok: bool)
      modifies this`tokens, this`hist
      ensures ok == Insertable(old(Contents()), id)
      ensures Contents() == if ok then InsertToken(old(Contents()), id, row, Some(grant)) else old(Contents())
    {
      if id == NONE || id in tokens {
        return false;
      }
      hist := InsertToken(Contents(), id, row, Some(grant)).hist;
      tokens := tokens[id := row];
      return true;
    }

    method StoreConsumeAuthCode(code: Name) returns (found: Option<AuthCode>)
      modifies this`authCodes, this`hist
      ensures (found, Contents()) == ConsumeAuthCode(old(Contents()), code)
    {
      if code !in authCodes {
        return None;
      }
      var row := authCodes[code];
      if row.used || now > row.expiresAt {
        return None;
      }
      row := row.(used := true);
      authCodes := authCodes[code := row];
      hist := hist.(spent := hist.spent + {FromAuthCode(code)});
      return Some(row);
    }

    method StoreConsumeDeviceCode(code: Name) returns (consumed: bool)
      modifies this`deviceCodes, this`hist
      ensures (consumed, Contents()) == ConsumeDeviceCode(old(Contents()), code)
    {
      consumed := code in deviceCodes && deviceCodes[code].status == Approved;
      if consumed {
        deviceCodes := deviceCodes[code := deviceCodes[code].(status := Consumed)];
        hist := hist.(spent := hist.spent + {FromDeviceCode(code)});
      }
    }

    method StoreMarkDeviceCodePolled(code: Name, at: int)
      modifies this`deviceCodes
      ensures Contents() == MarkDeviceCodePolled(old(Contents()), code, at)
    {
      if code in deviceCodes {
        deviceCodes := deviceCodes[code := deviceCodes[code].(lastPolled := Some(at))];
      }
    }

    method StoreRevokeDevice(d: Name) returns (found: bool)
      modifies this`devices, this`tokens
      ensures Contents() == RevokeDevice(old(Contents()), d)
      ensures tokens.Keys == old(tokens).Keys && forall t :: t in old(tokens) ==>
        var row := old(tokens)[t];
        tokens[t] == row.(revoked := row.revoked || (found && row.device == d))
      ensures found <==> d in old(devices) && old(devices)[d].status != Revoked
    {
      if d !in devices || devices[d].status == Revoked {
        return false;
      }
      devices := devices[d := devices[d].(status := Revoked)];
      tokens := map t | t in tokens :: if tokens[t].device == d then tokens[t].(revoked := true) else tokens[t];
      return true;
    }

    method StoreApproveDeviceCode(code: Name, decision: Approval) returns (found: bool)
      modifies this`deviceCodes, this`hist
      ensures Contents() == ApproveDeviceCode(old(Contents()), code, decision)
      ensures found <==> code in old(deviceCodes) && old(deviceCodes)[code].status == Pending
    {
      if code !in deviceCodes || deviceCodes[code].status != Pending {
        return false;
      }
      deviceCodes := deviceCodes[code :=
        deviceCodes[code].(status := Approved, user := decision.user, amr := decision.amr, authTime := decision.authTime)];
      hist := hist.(approvals := hist.approvals[code := decision]);
      return true;
    }

    method StoreDenyDeviceCode(code: Name) returns (found: bool)
      modifies this`deviceCodes, this`hist
      ensures Contents() == DenyDeviceCode(old(Contents()), code)
      ensures found <==> code in old(deviceCodes) && old(deviceCodes)[code].status == Pending
    {
      if code !in deviceCodes || deviceCodes[code].status != Pending {
        return false;
      }
      deviceCodes := deviceCodes[code := deviceCodes[code].(status := Denied)];
      hist := hist.(denied := hist.denied + {code});
      return true;
    }

    // ----- the handlers -----

    method GrantRefreshToken(client: Name, token: Name, jkt: Name, wanted: Option<set<Name>>, a: Arg)
      returns (answer: Option<Response>)
      requires !a.dbError
      modifies this`tokens, this`hist
      ensures Contents() == Alone(old(Contents()), RefreshLookup(client, token, jkt, wanted), a)
      ensures answer == Answer(old(Contents()), Contents())
    {
      hide Alone, Exec;
      AloneRefresh(Contents(), RefreshLookup(client, token, jkt, wanted), a);
      if token !in tokens {
        return None;
      }
      var rt := tokens[token];
      if rt.client != client {
        return None;
      }
      if rt.revoked {
        AloneRefresh(Contents(), RefreshReuse(token, rt), a);
        StoreRevokeForUserClient(rt.user, rt.client);
        return None;
      }
      if now > rt.expiresAt || (rt.jkt != NONE && jkt != rt.jkt) {
        return None;
      }
      answer := CheckAndRotate(token, rt, jkt, wanted, a);
    }

    /** The handler once the token is found in order. */
    method CheckAndRotate(token: Name, rt: RefreshToken, jkt: Name, wanted: Option<set<Name>>, a: Arg)
      returns (answer: Option<Response>)
      requires !a.dbError
      modifies this`tokens, this`hist
      ensures Contents() == Alone(old(Contents()), RefreshUser(token, rt, jkt, wanted), a)
      ensures answer == Answer(old(Contents()), Contents())
    {
      hide Alone, Exec;
      AloneRefresh(Contents(), RefreshUser(token, rt, jkt, wanted), a);
      if rt.user !in enabled {
        return None;
      }
      var device := NONE;
      if rt.device != NONE {
        AloneRefresh(Contents(), RefreshDevice(token, rt, jkt, wanted), a);
        if rt.device !in devices || devices[rt.device].status != Active {
          return None;
        }
        device := rt.device;
      }
      answer := DownscopeAndRotate(token, rt, jkt, device, wanted, a);
    }

    /** The handler after its checks of user and device. */
    method DownscopeAndRotate(token: Name, rt: RefreshToken, jkt: Name, device: Name, wanted: Option<set<Name>>, a: Arg)
      returns (answer: Option<Response>)
      requires !a.dbError
      modifies this`tokens, this`hist
      ensures var before := old(Contents());
        var next := Downscoped(before, token, rt, jkt, device, wanted, a).next;
        Contents() == if next.Done? then before else Alone(before, next, a)
      ensures answer == Answer(old(Contents()), Contents())
    {
      hide Alone, Exec;
      var scope := rt.scope;
      if wanted.Some? {
        if !(wanted.value <= rt.scope) {
          return None;
        }
        scope := wanted.value;
      }
      var replacement := None;
      if OFFLINE_ACCESS in scope {
        replacement := Some(NewToken(a.newId,
          RefreshToken(rt.client, rt.user, scope, token, false, now + a.ttl, rt.authTime, rt.amr, device, jkt)));
      }
      answer := RotateAndAnswer(token, rt, replacement, a);
    }

    method RotateAndAnswer(token: Name, rt: RefreshToken, replacement: Option<NewToken>, a: Arg)
      returns (answer: Option<Response>)
      requires !a.dbError
      modifies this`tokens, this`hist
      ensures Contents() == Alone(old(Contents()), RefreshRotate(token, rt, replacement), a)
      ensures answer == Answer(old(Contents()), Contents())
    {
      hide Alone, Exec;
      AloneRefresh(Contents(), RefreshRotate(token, rt, replacement), a);
      var result := StoreRotateRefreshToken(token, replacement);
      if result == Conflict {
        return None;
      }
      if result == AlreadyRevoked {
        AloneRefresh(Contents(), RefreshReuse(token, rt), a);
        StoreRevokeForUserClient(rt.user, rt.client);
        return None;
      }
      var response := Refreshed(token, if replacement.Some? then replacement.value.id else NONE);
      hist := hist.(log := hist.log + [response]);
      return Some(response);
    }

    method GrantAuthorizationCode(client: Name, isPublic: bool, code: Name, redirect: Name, pkceOk: bool, jkt: Name, a: Arg)
      returns (answer: Option<Response>)
      requires !a.dbError
      modifies this`tokens, this`authCodes, this`hist
      ensures Contents() == Alone(old(Contents()), CodeConsume(client, isPublic, code, redirect, pkceOk, jkt), a)
      ensures answer == Answer(old(Contents()), Contents())
    {
      hide Alone, Exec;
      ghost var end := Alone(Contents(), CodeConsume(client, isPublic, code, redirect, pkceOk, jkt), a);
      AloneCode(Contents(), CodeConsume(client, isPublic, code, redirect, pkceOk, jkt), a);
      var found := StoreConsumeAuthCode(code);
      if found.None? {
        return None;
      }
      var ac := found.value;
      if ac.client != client || ac.redirect != redirect {
        return None;
      }
      if ac.challenge != NONE {
        if !pkceOk {
          return None;
        }
      } else if isPublic {
        return None;
      }
      assert end == Alone(Contents(), CodeUser(code, ac, jkt), a);
      AloneCode(Contents(), CodeUser(code, ac, jkt), a);
      if ac.user !in enabled {
        return None;
      }
      assert end == Alone(Contents(), CodeIssue(code, ac, jkt), a);
      answer := IssueForCode(code, ac, jkt, a);
    }

    method IssueForCode(code: Name, ac: AuthCode, jkt: Name, a: Arg) returns (answer: Option<Response>)
      requires !a.dbError
      modifies this`tokens, this`hist
      ensures Contents() == Alone(old(Contents()), CodeIssue(code, ac, jkt), a)
      ensures answer == Answer(old(Contents()), Contents())
    {
      hide Alone, Exec;
      AloneCode(Contents(), CodeIssue(code, ac, jkt), a);
      var refresh := NONE;
      if OFFLINE_ACCESS in ac.scope {
        var ok := StoreCreateRefreshToken(a.newId,
          RefreshToken(ac.client, ac.user, ac.scope, NONE, false, now + a.ttl, ac.authTime, ac.amr, NONE, jkt),
          FromAuthCode(code));
        if !ok {
          return None;
        }
        refresh := a.newId;
      }
      var response := CodeTokens(code, ac.user, ac.scope, ac.amr, ac.authTime, refresh);
      hist := hist.(log := hist.log + [response]);
      return Some(response);
    }

    method GrantDeviceCode(client: Name, code: Name, jkt: Name, bearer: Name, a: Arg)
      returns (answer: Option<Response>)
      requires !a.dbError
      modifies this`tokens, this`deviceCodes, this`hist
      ensures Contents() == Alone(old(Contents()), PollLookup(client, code, jkt, bearer), a)
      ensures answer == Answer(old(Contents()), Contents())
    {
      hide Alone, Exec;
      ghost var end := Alone(Contents(), PollLookup(client, code, jkt, bearer), a);
      AlonePoll(Contents(), PollLookup(client, code, jkt, bearer), a);
      if code !in deviceCodes || deviceCodes[code].client != client {
        return None;
      }
      var dc := deviceCodes[code];
      if now > dc.expiresAt {
        return None;
      }
      assert end == Alone(Contents(), PollMark(code, dc, jkt, bearer, now), a);
      AlonePoll(Contents(), PollMark(code, dc, jkt, bearer, now), a);
      StoreMarkDeviceCodePolled(code, now);
      if PolledTooSoon(dc, now) || dc.status != Approved {
        return None;
      }
      var device := NONE;
      if dc.device != NONE {
        assert end == Alone(Contents(), PollDevice(code, dc, jkt, bearer), a);
        AlonePoll(Contents(), PollDevice(code, dc, jkt, bearer), a);
        if bearer == NONE || bearer !in devices || devices[bearer].status != Active || bearer != dc.device {
          return None;
        }
        if devices[bearer].ownerOnly && devices[bearer].owner != dc.user {
          return None;
        }
        device := bearer;
      }
      assert end == Alone(Contents(), PollUser(code, dc, jkt, device), a);
      AlonePoll(Contents(), PollUser(code, dc, jkt, device), a);
      if dc.user !in enabled {
        return None;
      }
      assert end == Alone(Contents(), PollConsume(code, dc, jkt, device), a);
      answer := ConsumeAndIssue(code, dc, jkt, device, a);
    }

    method ConsumeAndIssue(code: Name, dc: DeviceCode, jkt: Name, device: Name, a: Arg)
      returns (answer: Option<Response>)
      requires !a.dbError
      modifies this`tokens, this`deviceCodes, this`hist
      ensures Contents() == Alone(old(Contents()), PollConsume(code, dc, jkt, device), a)
      ensures answer == Answer(old(Contents()), Contents())
    {
      hide Alone, Exec;
      AlonePoll(Contents(), PollConsume(code, dc, jkt, device), a);
      var consumed := StoreConsumeDeviceCode(code);
      if !consumed {
        return None;
      }
      AlonePoll(Contents(), PollIssue(code, dc, jkt, device), a);
      var refresh := NONE;
      if OFFLINE_ACCESS in dc.scope {
        var ok := StoreCreateRefreshToken(a.newId,
          RefreshToken(dc.client, dc.user, dc.scope, NONE, false, now + a.ttl, dc.authTime, dc.amr, device, jkt),
          FromDeviceCode(code));
        if !ok {
          return None;
        }
        refresh := a.newId;
      }
      var response := DeviceTokens(code, dc.user, dc.scope, dc.amr, dc.authTime, device, refresh);
      hist := hist.(log := hist.log + [response]);
      return Some(response);
    }

    /** The user's decision on /device. */
    method ConfirmDeviceCode(code: Name, allow: bool, decision: Approval, a: Arg) returns (decided: bool)
      requires !a.dbError
      modifies this`deviceCodes, this`hist
      ensures Contents() == Alone(old(Contents()), ConfirmLookup(code, allow, decision), a)
      ensures decided <==> code in old(deviceCodes) && old(deviceCodes)[code].status == Pending && now <= old(deviceCodes)[code].expiresAt
    {
      hide Alone, Exec;
      ghost var end := Alone(Contents(), ConfirmLookup(code, allow, decision), a);
      AloneConfirm(Contents(), ConfirmLookup(code, allow, decision), a);
      if code !in deviceCodes || deviceCodes[code].status != Pending || now > deviceCodes[code].expiresAt {
        return false;
      }
      var dc, allowed := deviceCodes[code], allow;
      if dc.device != NONE {
        assert end == Alone(Contents(), ConfirmDevice(code, dc, allow, decision), a);
        AloneConfirm(Contents(), ConfirmDevice(code, dc, allow, decision), a);
        if dc.device in devices && devices[dc.device].ownerOnly && devices[dc.device].owner != decision.user {
          allowed := false;
        }
      }
      assert end == Alone(Contents(), ConfirmDecide(code, allowed, decision), a);
      AloneConfirm(Contents(), ConfirmDecide(code, allowed, decision), a);
      if allowed {
        decided := StoreApproveDeviceCode(code, decision);
      } else {
        decided := StoreDenyDeviceCode(code);
      }
    }

    method GrantTokenExchange(client: Name, subject: Name, bearer: Name, jkt: Name, audience: Name,
                              wanted: Option<set<Name>>, a: Arg)
      returns (answer: Option<Response>)
      requires !a.dbError
      modifies this`hist
      ensures Contents() == Alone(old(Contents()), ExchangeDevice(client, subject, bearer, jkt, audience, wanted), a)
      ensures answer == Answer(old(Contents()), Contents())
    {
      hide Alone, Exec;
      ghost var end := Alone(Contents(), ExchangeDevice(client, subject, bearer, jkt, audience, wanted), a);
      AloneExchange(Contents(), ExchangeDevice(client, subject, bearer, jkt, audience, wanted), a);
      if jkt == NONE || bearer !in devices || devices[bearer].status != Active {
        return None;
      }
      AloneExchange(Contents(), ExchangeToken(client, subject, bearer, jkt, audience, wanted), a);
      if subject !in tokens {
        return None;
      }
      var rt := tokens[subject];
      if rt.revoked || now > rt.expiresAt || rt.client != client || rt.device != bearer || rt.jkt != jkt {
        return None;
      }
      AloneExchange(Contents(), ExchangeUser(subject, rt, bearer, audience, wanted), a);
      if rt.user !in enabled {
        return None;
      }
      assert end == Alone(Contents(), ExchangeTarget(subject, rt, bearer, audience, wanted), a);
      answer := ScopeAndExchange(subject, rt, bearer, audience, wanted, a);
    }

    method ScopeAndExchange(subject: Name, rt: RefreshToken, device: Name, audience: Name, wanted: Option<set<Name>>, a: Arg)
      returns (answer: Option<Response>)
      requires !a.dbError
      modifies this`hist
      ensures Contents() == Alone(old(Contents()), ExchangeTarget(subject, rt, device, audience, wanted), a)
      ensures answer == Answer(old(Contents()), Contents())
    {
      hide Alone, Exec;
      AloneExchange(Contents(), ExchangeTarget(subject, rt, device, audience, wanted), a);
      if audience !in audiences {
        return None;
      }
      var allowed := audiences[audience];
      var scope := rt.scope * allowed;
      if wanted.Some? {
        scope := wanted.value;
      }
      if scope == {} || !(scope <= rt.scope) || !(scope <= allowed) {
        return None;
      }
      var response := Exchanged(subject, device, audience, scope, allowed);
      hist := hist.(log := hist.log + [response]);
      return Some(response);
    }
  }
}
