/** When an undisturbed request gets tokens, said without the order of the
    handlers' checks, and what it leaves behind. */
module GrantAnswers {
  import opened Options
  import opened GrantStore
  import opened Grants
  import opened GrantServer

  // ----- refresh tokens -----

  function RefreshScope(rt: RefreshToken, wanted: Option<set<Name>>): set<Name> {
    if wanted.Some? then wanted.value else rt.scope
  }

  predicate RefreshAcceptable(db: Db, client: Name, token: Name, jkt: Name, wanted: Option<set<Name>>, newId: Name) {
    token in db.tokens &&
    var rt := db.tokens[token];
    && !rt.revoked && db.now <= rt.expiresAt && rt.client == client && rt.jkt in {NONE, jkt}
    && rt.user in db.enabled && (rt.device == NONE || IsActive(db, rt.device))
    && RefreshScope(rt, wanted) <= rt.scope
    && (OFFLINE_ACCESS in RefreshScope(rt, wanted) ==> Insertable(db, newId))
  }

  /** The row that replaces the presented one. */
  function Replacing(rt: RefreshToken, token: Name, jkt: Name, wanted: Option<set<Name>>, expiresAt: int): RefreshToken {
    rt.(scope := RefreshScope(rt, wanted), rotatedFrom := token, revoked := false, expiresAt := expiresAt, jkt := jkt)
  }

  predicate Reused(db: Db, client: Name, token: Name) {
    token in db.tokens && db.tokens[token].client == client && db.tokens[token].revoked
  }

  /** The tokens of the reused token's user at its client are revoked, and no
      other row changes. */
  ghost predicate EndsForUser(before: map<Name, RefreshToken>, after: map<Name, RefreshToken>, reused: Name)
    requires reused in before
  {
    after.Keys == before.Keys && forall t {:trigger after[t]} :: t in before ==>
      after[t] == before[t].(revoked := before[t].revoked || (before[t].user == before[reused].user && before[t].client == before[reused].client))
  }

  /** The token of an active device's enabled user, live, in time, of this
      client and key, gets one answer and one replacement; a reused one ends its
      user's tokens at the client; every other request changes nothing. */
  lemma RefreshAnswered(db: Db, client: Name, token: Name, jkt: Name, wanted: Option<set<Name>>, a: Arg)
    requires !a.dbError
    ensures var after := Alone(db, RefreshLookup(client, token, jkt, wanted), a);
      if RefreshAcceptable(db, client, token, jkt, wanted, a.newId) then
        var rt := db.tokens[token];
        var rotates := OFFLINE_ACCESS in RefreshScope(rt, wanted);
        var gone := db.tokens[token := rt.(revoked := true)];
        && Answer(db, after) == Some(Refreshed(token, if rotates then a.newId else NONE))
        && after == db.(tokens := if rotates then gone[a.newId := Replacing(rt, token, jkt, wanted, db.now + a.ttl)] else gone,
                        hist := after.hist)
      else
        && Answer(db, after) == None
        && after == db.(tokens := after.tokens)
        && if Reused(db, client, token) then EndsForUser(db.tokens, after.tokens, token) else after.tokens == db.tokens
  {
    hide Alone, Exec;
    AloneRefresh(db, RefreshLookup(client, token, jkt, wanted), a);
    if Reused(db, client, token) {
      AloneRefresh(db, RefreshReuse(token, db.tokens[token]), a);
    } else if ExecRefresh(db, RefreshLookup(client, token, jkt, wanted), a).next.RefreshUser? {
      var rt := db.tokens[token];
      RefreshChecked(db, token, rt, jkt, wanted, a);
      var replacement := ReplacementFor(token, rt, RefreshScope(rt, wanted), jkt, rt.device, db.now, a);
      RotationAnswered(db, token, rt, replacement, a);
    }
  }

  /** The checks of user, device and scope let the token be rotated, or end the
      request. */
  lemma RefreshChecked(db: Db, token: Name, rt: RefreshToken, jkt: Name, wanted: Option<set<Name>>, a: Arg)
    requires !a.dbError
    ensures Alone(db, RefreshUser(token, rt, jkt, wanted), a)
      == if rt.user in db.enabled && (rt.device == NONE || IsActive(db, rt.device)) && RefreshScope(rt, wanted) <= rt.scope
         then Alone(db, RefreshRotate(token, rt, ReplacementFor(token, rt, RefreshScope(rt, wanted), jkt, rt.device, db.now, a)), a)
         else db
  {
    hide Alone, Exec;
    AloneRefresh(db, RefreshUser(token, rt, jkt, wanted), a);
    AloneRefresh(db, RefreshDevice(token, rt, jkt, wanted), a);
  }

  lemma RotationAnswered(db: Db, token: Name, rt: RefreshToken, replacement: Option<NewToken>, a: Arg)
    requires !a.dbError && token in db.tokens && db.tokens[token] == rt && !rt.revoked
    ensures var after := Alone(db, RefreshRotate(token, rt, replacement), a);
      if replacement.Some? && !Insertable(db, replacement.value.id) then after == db
      else
        && Answer(db, after) == Some(Refreshed(token, if replacement.Some? then replacement.value.id else NONE))
        && var gone := db.tokens[token := rt.(revoked := true)];
           after == db.(tokens := if replacement.Some? then gone[replacement.value.id := replacement.value.row] else gone, hist := after.hist)
  {
    hide Alone, Exec;
    AloneRefresh(db, RefreshRotate(token, rt, replacement), a);
  }

  // ----- authorization codes -----

  predicate CodeTaken(db: Db, code: Name) {
    code in db.authCodes && !db.authCodes[code].used && db.now <= db.authCodes[code].expiresAt
  }

  predicate CodeAcceptable(db: Db, client: Name, isPublic: bool, code: Name, redirect: Name, pkceOk: bool, newId: Name) {
    CodeTaken(db, code) &&
    var ac := db.authCodes[code];
    && ac.client == client && ac.redirect == redirect
    && (if ac.challenge == NONE then !isPublic else pkceOk)
    && ac.user in db.enabled && (OFFLINE_ACCESS in ac.scope ==> Insertable(db, newId))
  }

  /** An unused code in time is used up whatever comes of it; tokens are issued
      exactly to its client, at its redirect URI, with the verifier that its
      challenge or a public client demands, for an enabled user. */
  lemma CodeAnswered(db: Db, client: Name, isPublic: bool, code: Name, redirect: Name, pkceOk: bool, jkt: Name, a: Arg)
    requires !a.dbError
    ensures var after := Alone(db, CodeConsume(client, isPublic, code, redirect, pkceOk, jkt), a);
      && after == db.(authCodes := after.authCodes, tokens := after.tokens, hist := after.hist)
      && after.authCodes == (if CodeTaken(db, code) then db.authCodes[code := db.authCodes[code].(used := true)] else db.authCodes)
      && if CodeAcceptable(db, client, isPublic, code, redirect, pkceOk, a.newId) then
           var ac := db.authCodes[code];
           var keeps := OFFLINE_ACCESS in ac.scope;
           && Answer(db, after) == Some(CodeTokens(code, ac.user, ac.scope, ac.amr, ac.authTime, if keeps then a.newId else NONE))
           && after.tokens == (if keeps
                then db.tokens[a.newId := RefreshToken(client, ac.user, ac.scope, NONE, false, db.now + a.ttl, ac.authTime, ac.amr, NONE, jkt)]
                else db.tokens)
         else Answer(db, after) == None && after.tokens == db.tokens
  {
    hide Alone, Exec;
    var q := CodeConsume(client, isPublic, code, redirect, pkceOk, jkt);
    AloneCode(db, q, a);
    CodeChecked(db, q, a);
    if CodeTaken(db, code) {
      var ac, taken := db.authCodes[code].(used := true), ConsumeAuthCode(db, code).1;
      UserChecked(taken, code, ac, jkt, a);
      hide ExecCode;
      if ac.user in db.enabled { IssueAnswered(taken, code, ac, jkt, a); }
    }
  }

  /** The checks of client, redirect URI and verifier. */
  lemma CodeChecked(db: Db, q: Request, a: Arg)
    requires q.CodeConsume?
    ensures var ok := CodeTaken(db, q.code) && var ac := db.authCodes[q.code];
        ac.client == q.client && ac.redirect == q.redirect && if ac.challenge == NONE then !q.isPublic else q.pkceOk;
      ExecCode(db, q, a) == Outcome(if CodeTaken(db, q.code) then ConsumeAuthCode(db, q.code).1 else db,
                                    if ok then CodeUser(q.code, db.authCodes[q.code].(used := true), q.jkt) else Done)
  {
  }

  lemma UserChecked(db: Db, code: Name, ac: AuthCode, jkt: Name, a: Arg)
    requires !a.dbError
    ensures Alone(db, CodeUser(code, ac, jkt), a) == if ac.user in db.enabled then Alone(db, CodeIssue(code, ac, jkt), a) else db
  {
    hide Alone, Exec;
    AloneCode(db, CodeUser(code, ac, jkt), a);
  }

  lemma IssueAnswered(db: Db, code: Name, ac: AuthCode, jkt: Name, a: Arg)
    requires !a.dbError
    ensures var after := Alone(db, CodeIssue(code, ac, jkt), a);
      var keeps := OFFLINE_ACCESS in ac.scope;
      && after == db.(tokens := after.tokens, hist := after.hist)
      && if keeps && !Insertable(db, a.newId) then after == db
         else
           && after.hist.log == db.hist.log + [CodeTokens(code, ac.user, ac.scope, ac.amr, ac.authTime, if keeps then a.newId else NONE)]
           && after.tokens == (if keeps
                then db.tokens[a.newId := RefreshToken(ac.client, ac.user, ac.scope, NONE, false, db.now + a.ttl, ac.authTime, ac.amr, NONE, jkt)]
                else db.tokens)
  {
    hide Alone, Exec;
    AloneCode(db, CodeIssue(code, ac, jkt), a);
  }

  // ----- device codes -----

  predicate DeviceMatches(db: Db, dc: DeviceCode, bearer: Name) {
    dc.device == NONE ||
    (bearer == dc.device && IsActive(db, bearer) && (db.devices[bearer].ownerOnly ==> db.devices[bearer].owner == dc.user))
  }

  predicate PollAcceptable(db: Db, client: Name, code: Name, bearer: Name, newId: Name) {
    code in db.deviceCodes &&
    var dc := db.deviceCodes[code];
    && dc.client == client && db.now <= dc.expiresAt && dc.status == Approved
    && (dc.lastPolled == None || dc.lastPolled.value + POLL_INTERVAL <= db.now)
    && DeviceMatches(db, dc, bearer) && dc.user in db.enabled
    && (OFFLINE_ACCESS in dc.scope ==> Insertable(db, newId))
  }

  /** A poll of the client's own code in time is noted, whatever its answer. */
  predicate PollNoted(db: Db, client: Name, code: Name) {
    code in db.deviceCodes && db.deviceCodes[code].client == client && db.now <= db.deviceCodes[code].expiresAt
  }

  /** Tokens go exactly to a client that polls its own approved code in time,
      not too soon, from the device the code is bound to. */
  lemma PollAnswered(db: Db, client: Name, code: Name, jkt: Name, bearer: Name, a: Arg)
    requires !a.dbError
    ensures var after := Alone(db, PollLookup(client, code, jkt, bearer), a);
      if PollAcceptable(db, client, code, bearer, a.newId) then
        var dc := db.deviceCodes[code];
        var keeps := OFFLINE_ACCESS in dc.scope;
        && Answer(db, after) == Some(DeviceTokens(code, dc.user, dc.scope, dc.amr, dc.authTime, dc.device, if keeps then a.newId else NONE))
        && after.tokens == (if keeps
             then db.tokens[a.newId := RefreshToken(client, dc.user, dc.scope, NONE, false, db.now + a.ttl, dc.authTime, dc.amr, dc.device, jkt)]
             else db.tokens)
        && after.deviceCodes == db.deviceCodes[code := dc.(status := Consumed, lastPolled := Some(db.now))]
      else Answer(db, after) == None && after.tokens == db.tokens
    ensures var after := Alone(db, PollLookup(client, code, jkt, bearer), a);
      && after == db.(deviceCodes := after.deviceCodes, tokens := after.tokens, hist := after.hist)
      && (code in db.deviceCodes ==>
            && code in after.deviceCodes
            && after.deviceCodes[code].lastPolled == (if PollNoted(db, client, code) then Some(db.now) else db.deviceCodes[code].lastPolled)
            && after.deviceCodes[code].expiresAt == db.deviceCodes[code].expiresAt)
  {
    hide Alone, Exec;
    AlonePoll(db, PollLookup(client, code, jkt, bearer), a);
    if ExecPoll(db, PollLookup(client, code, jkt, bearer), a).next.PollMark? {
      var dc, polled := db.deviceCodes[code], MarkDeviceCodePolled(db, code, db.now);
      AlonePoll(db, PollMark(code, dc, jkt, bearer, db.now), a);
      if !PolledTooSoon(dc, db.now) && dc.status == Approved {
        DeviceChecked(polled, code, dc, jkt, bearer, a);
        if DeviceMatches(db, dc, bearer) && dc.user in db.enabled { ConsumptionAnswered(polled, code, dc, jkt, a); }
      }
    }
  }

  /** The checks of device and user let the code be consumed, or end the
      request. */
  lemma DeviceChecked(db: Db, code: Name, dc: DeviceCode, jkt: Name, bearer: Name, a: Arg)
    requires !a.dbError
    ensures var q := if dc.device != NONE then PollDevice(code, dc, jkt, bearer) else PollUser(code, dc, jkt, NONE);
      Alone(db, q, a) == if DeviceMatches(db, dc, bearer) && dc.user in db.enabled
                         then Alone(db, PollConsume(code, dc, jkt, dc.device), a) else db
  {
    hide Alone, Exec;
    AlonePoll(db, PollDevice(code, dc, jkt, bearer), a);
    AlonePoll(db, PollUser(code, dc, jkt, dc.device), a);
  }

  lemma ConsumptionAnswered(db: Db, code: Name, dc: DeviceCode, jkt: Name, a: Arg)
    requires !a.dbError && code in db.deviceCodes && db.deviceCodes[code].status == Approved
    ensures var after := Alone(db, PollConsume(code, dc, jkt, dc.device), a);
      var keeps := OFFLINE_ACCESS in dc.scope;
      && after == db.(deviceCodes := db.deviceCodes[code := db.deviceCodes[code].(status := Consumed)], tokens := after.tokens, hist := after.hist)
      && if keeps && !Insertable(db, a.newId) then after.hist.log == db.hist.log && after.tokens == db.tokens
         else
           && after.hist.log == db.hist.log + [DeviceTokens(code, dc.user, dc.scope, dc.amr, dc.authTime, dc.device, if keeps then a.newId else NONE)]
           && after.tokens == (if keeps
                then db.tokens[a.newId := RefreshToken(dc.client, dc.user, dc.scope, NONE, false, db.now + a.ttl, dc.authTime, dc.amr, dc.device, jkt)]
                else db.tokens)
  {
    hide Alone, Exec;
    AlonePoll(db, PollConsume(code, dc, jkt, dc.device), a);
    AlonePoll(ConsumeDeviceCode(db, code).1, PollIssue(code, dc, jkt, dc.device), a);
  }

  // ----- the user's decision -----

  /** A decision takes effect exactly on a pending code in time; an owner-only
      device turns the approval of anyone but its owner into a denial. */
  lemma ConfirmationAnswered(db: Db, code: Name, allow: bool, decision: Approval, a: Arg)
    requires !a.dbError
    ensures var after := Alone(db, ConfirmLookup(code, allow, decision), a);
      if code !in db.deviceCodes || db.deviceCodes[code].status != Pending || db.now > db.deviceCodes[code].expiresAt then after == db
      else
        var dc := db.deviceCodes[code];
        var stranger := dc.device != NONE && dc.device in db.devices
          && db.devices[dc.device].ownerOnly && db.devices[dc.device].owner != decision.user;
        after == db.(deviceCodes := db.deviceCodes[code :=
          if allow && !stranger then dc.(status := Approved, user := decision.user, amr := decision.amr, authTime := decision.authTime)
          else dc.(status := Denied)], hist := after.hist)
  {
    hide Alone, Exec;
    var q := ConfirmLookup(code, allow, decision);
    AloneConfirm(db, q, a);
    var next := ExecConfirm(db, q, a).next;
    if next.ConfirmDevice? {
      AloneConfirm(db, next, a);
      AloneConfirm(db, ExecConfirm(db, next, a).next, a);
    } else if next.ConfirmDecide? {
      AloneConfirm(db, next, a);
    }
  }

  // ----- token exchange -----

  predicate ExchangeAcceptable(db: Db, client: Name, subject: Name, bearer: Name, jkt: Name, audience: Name, scope: set<Name>) {
    && jkt != NONE && IsActive(db, bearer) && subject in db.tokens && audience in db.audiences
    && var rt := db.tokens[subject];
       && !rt.revoked && db.now <= rt.expiresAt && rt.client == client && rt.device == bearer && rt.jkt == jkt
       && rt.user in db.enabled && scope != {} && scope <= rt.scope * db.audiences[audience]
  }

  function WantedScope(db: Db, subject: Name, audience: Name, wanted: Option<set<Name>>): set<Name> {
    if wanted.Some? then wanted.value
    else if subject in db.tokens && audience in db.audiences then db.tokens[subject].scope * db.audiences[audience]
    else {}
  }

  /** An exchange needs the active device and the key that the live refresh
      token is bound to, and changes no table. */
  lemma ExchangeAnswered(db: Db, client: Name, subject: Name, bearer: Name, jkt: Name, audience: Name, wanted: Option<set<Name>>, a: Arg)
    requires !a.dbError
    ensures var after := Alone(db, ExchangeDevice(client, subject, bearer, jkt, audience, wanted), a);
      var scope := WantedScope(db, subject, audience, wanted);
      if ExchangeAcceptable(db, client, subject, bearer, jkt, audience, scope)
      then after == Respond(db, Exchanged(subject, bearer, audience, scope, db.audiences[audience]))
      else after == db
  {
    hide Alone, Exec;
    AloneExchange(db, ExchangeDevice(client, subject, bearer, jkt, audience, wanted), a);
    if jkt != NONE && IsActive(db, bearer) {
      AloneExchange(db, ExchangeToken(client, subject, bearer, jkt, audience, wanted), a);
      if ExecExchange(db, ExchangeToken(client, subject, bearer, jkt, audience, wanted)).next.ExchangeUser? {
        var rt := db.tokens[subject];
        AloneExchange(db, ExchangeUser(subject, rt, bearer, audience, wanted), a);
        AloneExchange(db, ExchangeTarget(subject, rt, bearer, audience, wanted), a);
      }
    }
  }
}
