/** The token endpoint as a state machine. A request is a small program; each
    Advance runs its next store statement and the code up to the one after it,
    so a run is an arbitrary interleaving of any number of requests with
    administrative changes, the sweeper and the clock. */
module Grants {
  import opened Options
  import opened GrantStore

  /** Where a request stands, with the local copies it has made. */
  datatype Request =
    | Done
    // grantRefreshToken
    | RefreshLookup(client: Name, token: Name, jkt: Name, wanted: Option<set<Name>>)
    | RefreshUser(id: Name, rt: RefreshToken, jkt: Name, wanted: Option<set<Name>>)
    | RefreshDevice(id: Name, rt: RefreshToken, jkt: Name, wanted: Option<set<Name>>)
    | RefreshRotate(id: Name, rt: RefreshToken, replacement: Option<NewToken>)
    | RefreshReuse(id: Name, rt: RefreshToken)
    // grantAuthorizationCode
    | CodeConsume(client: Name, isPublic: bool, code: Name, redirect: Name, pkceOk: bool, jkt: Name)
    | CodeUser(code: Name, ac: AuthCode, jkt: Name)
    | CodeIssue(code: Name, ac: AuthCode, jkt: Name)
    // grantDeviceCode; bearer is the device named by the request's device token
    | PollLookup(client: Name, code: Name, jkt: Name, bearer: Name)
    | PollMark(code: Name, dc: DeviceCode, jkt: Name, bearer: Name, at: int)
    | PollDevice(code: Name, dc: DeviceCode, jkt: Name, bearer: Name)
    | PollUser(code: Name, dc: DeviceCode, jkt: Name, device: Name)
    | PollConsume(code: Name, dc: DeviceCode, jkt: Name, device: Name)
    | PollIssue(code: Name, dc: DeviceCode, jkt: Name, device: Name)
    // handleDeviceConfirm
    | ConfirmLookup(code: Name, allow: bool, decision: Approval)
    | ConfirmDevice(code: Name, dc: DeviceCode, allow: bool, decision: Approval)
    | ConfirmDecide(code: Name, allow: bool, decision: Approval)
    // grantTokenExchange; bearer is the device named by the actor token
    | ExchangeDevice(client: Name, subject: Name, bearer: Name, jkt: Name, audience: Name, wanted: Option<set<Name>>)
    | ExchangeToken(client: Name, subject: Name, device: Name, jkt: Name, audience: Name, wanted: Option<set<Name>>)
    | ExchangeUser(id: Name, rt: RefreshToken, device: Name, audience: Name, wanted: Option<set<Name>>)
    | ExchangeTarget(id: Name, rt: RefreshToken, device: Name, audience: Name, wanted: Option<set<Name>>)

  /** What a step takes from outside the store: the identifier drawn for a new
      token, its lifetime, and whether the database reports an error. */
  datatype Arg = Arg(newId: Name, ttl: int, dbError: bool)

  datatype Outcome = Outcome(db: Db, next: Request)

  predicate IsEntry(q: Request) {
    q.RefreshLookup? || q.CodeConsume? || q.PollLookup? || q.ConfirmLookup? || q.ExchangeDevice?
  }

  predicate PolledTooSoon(dc: DeviceCode, at: int) {
    dc.lastPolled.Some? && at - dc.lastPolled.value < POLL_INTERVAL
  }

  function ReplacementFor(id: Name, rt: RefreshToken, scope: set<Name>, jkt: Name, device: Name, now: int, a: Arg): Option<NewToken> {
    if OFFLINE_ACCESS in scope then
      Some(NewToken(a.newId,
        RefreshToken(rt.client, rt.user, scope, id, false, now + a.ttl, rt.authTime, rt.amr, device, jkt)))
    else None
  }

  /** The scope check, signing and the replacement row, after the device check. */
  function Downscoped(db: Db, id: Name, rt: RefreshToken, jkt: Name, device: Name, wanted: Option<set<Name>>, a: Arg): Outcome {
    if wanted.Some? && !(wanted.value <= rt.scope) then Outcome(db, Done)
    else
      var scope := if wanted.Some? then wanted.value else rt.scope;
      Outcome(db, RefreshRotate(id, rt, ReplacementFor(id, rt, scope, jkt, device, db.now, a)))
  }

  function ExecRefresh(db: Db, q: Request, a: Arg): Outcome
    requires q.RefreshLookup? || q.RefreshUser? || q.RefreshDevice? || q.RefreshRotate? || q.RefreshReuse?
  {
    match q
    case RefreshLookup(client, token, jkt, wanted) =>
      if token !in db.tokens then Outcome(db, Done)
      else
        var rt := db.tokens[token];
        if rt.client != client then Outcome(db, Done)
        else if rt.revoked then Outcome(db, RefreshReuse(token, rt))
        else if db.now > rt.expiresAt then Outcome(db, Done)
        else if rt.jkt != NONE && jkt != rt.jkt then Outcome(db, Done)
        else Outcome(db, RefreshUser(token, rt, jkt, wanted))
    case RefreshUser(id, rt, jkt, wanted) =>
      if rt.user !in db.enabled then Outcome(db, Done)
      else if rt.device != NONE then Outcome(db, RefreshDevice(id, rt, jkt, wanted))
      else Downscoped(db, id, rt, jkt, NONE, wanted, a)
    case RefreshDevice(id, rt, jkt, wanted) =>
      if !IsActive(db, rt.device) then Outcome(db, Done)
      else Downscoped(db, id, rt, jkt, rt.device, wanted, a)
    case RefreshRotate(id, rt, replacement) =>
      var (result, db') := RotateRefreshToken(db, id, replacement);
      (match result
       case Conflict => Outcome(db, Done)
       case AlreadyRevoked => Outcome(db, RefreshReuse(id, rt))
       case Rotated =>
         Outcome(Respond(db', Refreshed(id, if replacement.Some? then replacement.value.id else NONE)), Done))
    case RefreshReuse(_, rt) =>
      Outcome(RevokeForUserClient(db, rt.user, rt.client), Done)
  }

  function ExecCode(db: Db, q: Request, a: Arg): Outcome
    requires q.CodeConsume? || q.CodeUser? || q.CodeIssue?
  {
    match q
    case CodeConsume(client, isPublic, code, redirect, pkceOk, jkt) =>
      var (found, db') := ConsumeAuthCode(db, code);
      if found.None? then Outcome(db, Done)
      else
        var ac := found.value;
        if ac.client != client || ac.redirect != redirect then Outcome(db', Done)
        else if ac.challenge != NONE && !pkceOk then Outcome(db', Done)
        else if ac.challenge == NONE && isPublic then Outcome(db', Done)
        else Outcome(db', CodeUser(code, ac, jkt))
    case CodeUser(code, ac, jkt) =>
      if ac.user !in db.enabled then Outcome(db, Done) else Outcome(db, CodeIssue(code, ac, jkt))
    case CodeIssue(code, ac, jkt) =>
      if OFFLINE_ACCESS !in ac.scope then
        Outcome(Respond(db, CodeTokens(code, ac.user, ac.scope, ac.amr, ac.authTime, NONE)), Done)
      else if !Insertable(db, a.newId) then Outcome(db, Done)
      else
        var row := RefreshToken(ac.client, ac.user, ac.scope, NONE, false, db.now + a.ttl, ac.authTime, ac.amr, NONE, jkt);
        Outcome(Respond(InsertToken(db, a.newId, row, Some(FromAuthCode(code))),
                        CodeTokens(code, ac.user, ac.scope, ac.amr, ac.authTime, a.newId)), Done)
  }

  function ExecPoll(db: Db, q: Request, a: Arg): Outcome
    requires q.PollLookup? || q.PollMark? || q.PollDevice? || q.PollUser? || q.PollConsume? || q.PollIssue?
  {
    match q
    case PollLookup(client, code, jkt, bearer) =>
      if code !in db.deviceCodes || db.deviceCodes[code].client != client then Outcome(db, Done)
      else if db.now > db.deviceCodes[code].expiresAt then Outcome(db, Done)
      else Outcome(db, PollMark(code, db.deviceCodes[code], jkt, bearer, db.now))
    case PollMark(code, dc, jkt, bearer, at) =>
      // An error of this one statement is ignored by the handler.
      var db' := if a.dbError then db else MarkDeviceCodePolled(db, code, at);
      if PolledTooSoon(dc, at) then Outcome(db', Done)
      else if dc.status != Approved then Outcome(db', Done)
      else if dc.device != NONE then Outcome(db', PollDevice(code, dc, jkt, bearer))
      else Outcome(db', PollUser(code, dc, jkt, NONE))
    case PollDevice(code, dc, jkt, bearer) =>
      if bearer == NONE || !IsActive(db, bearer) || bearer != dc.device then Outcome(db, Done)
      else if db.devices[bearer].ownerOnly && db.devices[bearer].owner != dc.user then Outcome(db, Done)
      else Outcome(db, PollUser(code, dc, jkt, bearer))
    case PollUser(code, dc, jkt, device) =>
      if dc.user !in db.enabled then Outcome(db, Done) else Outcome(db, PollConsume(code, dc, jkt, device))
    case PollConsume(code, dc, jkt, device) =>
      var (consumed, db') := ConsumeDeviceCode(db, code);
      if consumed then Outcome(db', PollIssue(code, dc, jkt, device)) else Outcome(db, Done)
    case PollIssue(code, dc, jkt, device) =>
      if OFFLINE_ACCESS !in dc.scope then
        Outcome(Respond(db, DeviceTokens(code, dc.user, dc.scope, dc.amr, dc.authTime, device, NONE)), Done)
      else if !Insertable(db, a.newId) then Outcome(db, Done)
      else
        var row := RefreshToken(dc.client, dc.user, dc.scope, NONE, false, db.now + a.ttl, dc.authTime, dc.amr, device, jkt);
        Outcome(Respond(InsertToken(db, a.newId, row, Some(FromDeviceCode(code))),
                        DeviceTokens(code, dc.user, dc.scope, dc.amr, dc.authTime, device, a.newId)), Done)
  }

  function ExecConfirm(db: Db, q: Request, a: Arg): Outcome
    requires q.ConfirmLookup? || q.ConfirmDevice? || q.ConfirmDecide?
  {
    match q
    case ConfirmLookup(code, allow, decision) =>
      if code !in db.deviceCodes || db.deviceCodes[code].status != Pending || db.now > db.deviceCodes[code].expiresAt
      then Outcome(db, Done)
      else if db.deviceCodes[code].device != NONE
      then Outcome(db, ConfirmDevice(code, db.deviceCodes[code], allow, decision))
      else Outcome(db, ConfirmDecide(code, allow, decision))
    case ConfirmDevice(code, dc, allow, decision) =>
      // An unreadable device record does not stop the decision.
      var refused := !a.dbError && dc.device in db.devices && db.devices[dc.device].ownerOnly
                     && db.devices[dc.device].owner != decision.user;
      Outcome(db, ConfirmDecide(code, allow && !refused, decision))
    case ConfirmDecide(code, allow, decision) =>
      Outcome(if allow then ApproveDeviceCode(db, code, decision) else DenyDeviceCode(db, code), Done)
  }

  function ExecExchange(db: Db, q: Request): Outcome
    requires q.ExchangeDevice? || q.ExchangeToken? || q.ExchangeUser? || q.ExchangeTarget?
  {
    match q
    case ExchangeDevice(client, subject, bearer, jkt, audience, wanted) =>
      if jkt == NONE || !IsActive(db, bearer) then Outcome(db, Done)
      else Outcome(db, ExchangeToken(client, subject, bearer, jkt, audience, wanted))
    case ExchangeToken(client, subject, device, jkt, audience, wanted) =>
      if subject !in db.tokens then Outcome(db, Done)
      else
        var rt := db.tokens[subject];
        if rt.revoked || db.now > rt.expiresAt || rt.client != client then Outcome(db, Done)
        else if rt.device != device || rt.jkt != jkt then Outcome(db, Done)
        else Outcome(db, ExchangeUser(subject, rt, device, audience, wanted))
    case ExchangeUser(id, rt, device, audience, wanted) =>
      if rt.user !in db.enabled then Outcome(db, Done)
      else Outcome(db, ExchangeTarget(id, rt, device, audience, wanted))
    case ExchangeTarget(id, rt, device, audience, wanted) =>
      if audience !in db.audiences then Outcome(db, Done)
      else
        var allowed := db.audiences[audience];
        var scope := if wanted.Some? then wanted.value else rt.scope * allowed;
        if scope == {} || !(scope <= rt.scope) || !(scope <= allowed) then Outcome(db, Done)
        else Outcome(Respond(db, Exchanged(id, device, audience, scope, allowed)), Done)
  }

  /** One step of a request. A database error ends the request and changes
      nothing, but for the two statements whose error the handlers ignore. */
  function Exec(db: Db, q: Request, a: Arg): Outcome {
    if a.dbError && !q.PollMark? && !q.ConfirmDevice? then Outcome(db, Done)
    else match q
      case Done => Outcome(db, Done)
      case RefreshLookup(_, _, _, _) => ExecRefresh(db, q, a)
      case RefreshUser(_, _, _, _) => ExecRefresh(db, q, a)
      case RefreshDevice(_, _, _, _) => ExecRefresh(db, q, a)
      case RefreshRotate(_, _, _) => ExecRefresh(db, q, a)
      case RefreshReuse(_, _) => ExecRefresh(db, q, a)
      case CodeConsume(_, _, _, _, _, _) => ExecCode(db, q, a)
      case CodeUser(_, _, _) => ExecCode(db, q, a)
      case CodeIssue(_, _, _) => ExecCode(db, q, a)
      case PollLookup(_, _, _, _) => ExecPoll(db, q, a)
      case PollMark(_, _, _, _, _) => ExecPoll(db, q, a)
      case PollDevice(_, _, _, _) => ExecPoll(db, q, a)
      case PollUser(_, _, _, _) => ExecPoll(db, q, a)
      case PollConsume(_, _, _, _) => ExecPoll(db, q, a)
      case PollIssue(_, _, _, _) => ExecPoll(db, q, a)
      case ConfirmLookup(_, _, _) => ExecConfirm(db, q, a)
      case ConfirmDevice(_, _, _, _) => ExecConfirm(db, q, a)
      case ConfirmDecide(_, _, _) => ExecConfirm(db, q, a)
      case ExchangeDevice(_, _, _, _, _, _) => ExecExchange(db, q)
      case ExchangeToken(_, _, _, _, _, _) => ExecExchange(db, q)
      case ExchangeUser(_, _, _, _, _) => ExecExchange(db, q)
      case ExchangeTarget(_, _, _, _, _) => ExecExchange(db, q)
  }

  /** Changes made outside the requests above: other handlers, the
      administrator, the sweeper and the clock. */
  datatype Change =
    | Tick(elapsed: nat)
    | NewAuthCode(code: Name, ac: AuthCode)
    | NewDeviceCode(code: Name, dc: DeviceCode)
    | RevokeToken(id: Name)
    | Logout(user: Name, client: Name)
    | DeviceRevoked(d: Name)
    | DeviceApproved(d: Name)
    | DeviceEnrolled(d: Name, device: Device)
    | OwnerOnlySet(d: Name, owner: Name, ownerOnly: bool)
    | UserSet(user: Name, isEnabled: bool)
    | AudienceSet(client: Name, allowed: Option<set<Name>>)
    | AuthCodesSwept(cutoff: int)
    | DeviceCodesSwept(cutoff: int)

  function Apply(db: Db, c: Change): Db {
    match c
    case Tick(elapsed) => db.(now := db.now + elapsed)
    case NewAuthCode(code, ac) =>
      // Codes are drawn at random and never repeat.
      if code in db.hist.authCodes || ac.used then db
      else db.(authCodes := db.authCodes[code := ac], hist := db.hist.(authCodes := db.hist.authCodes[code := ac]))
    case NewDeviceCode(code, dc) =>
      if code in db.hist.deviceCodes || dc.status != Pending then db
      else db.(deviceCodes := db.deviceCodes[code := dc], hist := db.hist.(deviceCodes := db.hist.deviceCodes[code := dc]))
    case RevokeToken(id) => RevokeRefreshToken(db, id)
    case Logout(user, client) => RevokeForUserClient(db, user, client)
    case DeviceRevoked(d) => RevokeDevice(db, d)
    case DeviceApproved(d) => ApproveDevice(db, d)
    case DeviceEnrolled(d, device) =>
      if d == NONE || d in db.devices || device.status == Revoked then db
      else db.(devices := db.devices[d := device])
    case OwnerOnlySet(d, owner, ownerOnly) => SetDeviceOwnerOnly(db, d, owner, ownerOnly)
    case UserSet(user, isEnabled) =>
      db.(enabled := if isEnabled then db.enabled + {user} else db.enabled - {user})
    case AudienceSet(client, allowed) =>
      db.(audiences := if allowed.Some? then db.audiences[client := allowed.value] else db.audiences - {client})
    case AuthCodesSwept(cutoff) => if cutoff <= db.now then SweepAuthCodes(db, cutoff) else db
    case DeviceCodesSwept(cutoff) => if cutoff <= db.now then SweepDeviceCodes(db, cutoff) else db
  }

  datatype Event =
    | Start(r: Name, q: Request)
    | Advance(r: Name, a: Arg)
    | Outside(c: Change)

  datatype State = State(db: Db, requests: map<Name, Request>)

  function Step(s: State, e: Event): State {
    match e
    case Start(r, q) =>
      if r in s.requests || !IsEntry(q) then s else s.(requests := s.requests[r := q])
    case Advance(r, a) =>
      if r !in s.requests then s
      else
        var o := Exec(s.db, s.requests[r], a);
        State(o.db, s.requests[r := o.next])
    case Outside(c) => s.(db := Apply(s.db, c))
  }

  function Run(s: State, events: seq<Event>): State
    decreases |events|
  {
    if events == [] then s else Run(Step(s, events[0]), events[1..])
  }

  /** A freshly migrated database. */
  function Initial(now: int): State {
    State(Db(now, map[], map[], map[], map[], {}, map[],
             History(map[], map[], map[], map[], {}, map[], {}, [])), map[])
  }
}
