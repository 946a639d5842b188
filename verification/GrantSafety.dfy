/** The invariant of the whole machine: the store's, what each request's local
    copies still say, and that a consumed code is held by one request only. */
module GrantSafety {
  import opened Options
  import opened GrantStore
  import opened TokenFamilies
  import opened GrantInvariant
  import opened Grants

  /** A request's copy of a row: still right, but for a later revocation. */
  predicate CopyOf(ts: Table, id: Name, rt: RefreshToken) {
    id in ts && SameToken(rt, ts[id])
  }

  predicate PollCopy(h: History, c: Name, dc: DeviceCode) {
    && c in h.deviceCodes && SameRequest(dc, h.deviceCodes[c])
    && (dc.status == Approved ==> ApprovedAs(h, c, dc))
  }

  predicate ReplacementOk(id: Name, rt: RefreshToken, replacement: Option<NewToken>) {
    replacement.Some? ==>
      replacement.value.row.rotatedFrom == id && Inherits(rt, replacement.value.row) && !replacement.value.row.revoked
  }

  predicate RequestOk(db: Db, q: Request) {
    match q
    case RefreshUser(id, rt, jkt, _) => CopyOf(db.tokens, id, rt) && (rt.jkt != NONE ==> jkt == rt.jkt)
    case RefreshDevice(id, rt, jkt, _) => CopyOf(db.tokens, id, rt) && (rt.jkt != NONE ==> jkt == rt.jkt)
    case RefreshRotate(id, rt, replacement) => CopyOf(db.tokens, id, rt) && ReplacementOk(id, rt, replacement)
    case RefreshReuse(id, rt) => CopyOf(db.tokens, id, rt)
    case CodeUser(c, ac, _) => c in db.hist.authCodes && ac == db.hist.authCodes[c].(used := true)
    case CodeIssue(c, ac, _) => c in db.hist.authCodes && ac == db.hist.authCodes[c].(used := true)
    case PollMark(c, dc, _, _, _) => PollCopy(db.hist, c, dc)
    case PollDevice(c, dc, _, _) => PollCopy(db.hist, c, dc) && dc.status == Approved
    case PollUser(c, dc, _, device) => PollCopy(db.hist, c, dc) && dc.status == Approved && device == dc.device
    case PollConsume(c, dc, _, device) => PollCopy(db.hist, c, dc) && dc.status == Approved && device == dc.device
    case PollIssue(c, dc, _, device) => PollCopy(db.hist, c, dc) && dc.status == Approved && device == dc.device
    case ExchangeUser(id, rt, device, _, _) => CopyOf(db.tokens, id, rt) && rt.device == device
    case ExchangeTarget(id, rt, device, _, _) => CopyOf(db.tokens, id, rt) && rt.device == device
    case _ => true
  }

  /** The consumed code a request is about to issue tokens for. */
  function HeldGrant(q: Request): Option<Grant> {
    match q
    case CodeUser(c, _, _) => Some(FromAuthCode(c))
    case CodeIssue(c, _, _) => Some(FromAuthCode(c))
    case PollIssue(c, _, _, _) => Some(FromDeviceCode(c))
    case _ => None
  }

  ghost predicate Ready(db: Db, q: Request) {
    RequestOk(db, q)
    && (HeldGrant(q).Some? ==> HeldGrant(q).value in db.hist.spent && Unused(db.hist, HeldGrant(q).value))
  }

  ghost predicate Inv(s: State) {
    && DbInv(s.db)
    && (forall r {:trigger s.requests[r]} :: r in s.requests ==> Ready(s.db, s.requests[r]))
    && (forall r, q {:trigger s.requests[r], s.requests[q]} ::
          r in s.requests && q in s.requests && r != q && HeldGrant(s.requests[r]).Some?
          ==> HeldGrant(s.requests[r]) != HeldGrant(s.requests[q]))
  }

  lemma RequestOkGrows(db: Db, db': Db, q: Request)
    requires RequestOk(db, q) && Grows(db, db')
    ensures RequestOk(db', q)
  {
  }

  lemma UnspentIsUnused(db: Db, g: Grant)
    requires DbInv(db) && g !in db.hist.spent
    ensures Unused(db.hist, g)
  {
    forall t | t in db.hist.source ensures db.hist.source[t] != g {
      assert SourceAt(db.tokens, db.hist, t);
    }
  }

  /** What one step of one request owes to all others. */
  ghost predicate GoodStep(db: Db, q: Request, o: Outcome) {
    && DbInv(o.db) && Grows(db, o.db) && RequestOk(o.db, o.next)
    && (HeldGrant(o.next).Some? ==>
          && (HeldGrant(o.next) == HeldGrant(q) || HeldGrant(o.next).value !in db.hist.spent)
          && HeldGrant(o.next).value in o.db.hist.spent && Unused(o.db.hist, HeldGrant(o.next).value))
    && (forall g :: Unused(db.hist, g) && HeldGrant(q) != Some(g) ==> Unused(o.db.hist, g))
  }

  lemma StandsStill(db: Db, q: Request, next: Request)
    requires DbInv(db) && RequestOk(db, next) && HeldGrant(next).None?
    ensures GoodStep(db, q, Outcome(db, next))
  {
  }

  /** A statement after which nothing is held, issued or logged. */
  lemma QuietStep(db: Db, q: Request, o: Outcome)
    requires DbInv(o.db) && Grows(db, o.db) && RequestOk(o.db, o.next) && HeldGrant(o.next).None?
    requires o.db.hist.source == db.hist.source && o.db.hist.log == db.hist.log
    ensures GoodStep(db, q, o)
  {
    hide DbInv, Grows;
  }

  /** Consuming a code: the request comes to hold it, unless it stops. */
  lemma TakingStep(db: Db, q: Request, g: Grant, o: Outcome)
    requires DbInv(db) && DbInv(o.db) && Grows(db, o.db) && RequestOk(o.db, o.next)
    requires o.db.hist.source == db.hist.source && o.db.hist.log == db.hist.log
    requires g !in db.hist.spent && g in o.db.hist.spent
    requires HeldGrant(o.next).None? || HeldGrant(o.next) == Some(g)
    ensures GoodStep(db, q, o)
  {
    UnspentIsUnused(db, g);
    hide DbInv, Grows;
  }

  /** A response that uses up something not used up before, and what the
      request held. */
  lemma AnsweringStep(db: Db, q: Request, mid: Db, r: Response)
    requires DbInv(mid) && Grows(db, mid) && Earned(mid.hist, mid.tokens, r) && mid.hist.log == db.hist.log
    requires forall i :: 0 <= i < |db.hist.log| && UsesUp(r).Some? ==> UsesUp(db.hist.log[i]) != UsesUp(r)
    requires forall g :: Unused(db.hist, g) && HeldGrant(q) != Some(g) ==> Unused(mid.hist, g)
    requires forall g :: UsesUp(r) == Some(Code(g)) ==> HeldGrant(q) == Some(g)
    ensures GoodStep(db, q, Outcome(Respond(mid, r), Done))
  {
    RespondOk(mid, r);
    GrowsTrans(db, mid, Respond(mid, r));
    hide DbInv, Grows, Unused;
  }

  lemma GrowsTrans(a: Db, b: Db, c: Db)
    requires Grows(a, b) && Grows(b, c) && c.tokens == b.tokens
    ensures Grows(a, c)
  {
  }

  lemma DownscopedOk(db: Db, id: Name, rt: RefreshToken, jkt: Name, wanted: Option<set<Name>>, a: Arg)
    requires CopyOf(db.tokens, id, rt) && (rt.jkt != NONE ==> jkt == rt.jkt)
    ensures RequestOk(db, Downscoped(db, id, rt, jkt, rt.device, wanted, a).next)
  {
  }

  lemma RotateStepOk(db: Db, q: Request, a: Arg)
    requires DbInv(db) && Ready(db, q) && q.RefreshRotate?
    ensures GoodStep(db, q, ExecRefresh(db, q, a))
  {
    var (result, db') := RotateRefreshToken(db, q.id, q.replacement);
    RotateOk(db, q.id, q.replacement);
    if result == Rotated {
      var r := Refreshed(q.id, if q.replacement.Some? then q.replacement.value.id else NONE);
      NotRedeemedYet(db, r);
      hide DbInv, Grows, RotateRefreshToken;
      AnsweringStep(db, q, db', r);
    } else {
      hide DbInv, Grows;
      StandsStill(db, q, ExecRefresh(db, q, a).next);
    }
  }

  lemma NotRedeemedYet(db: Db, r: Response)
    requires LogOk(db.hist, db.tokens) && r.Refreshed? && r.presented in db.tokens && !db.tokens[r.presented].revoked
    ensures forall i :: 0 <= i < |db.hist.log| ==> UsesUp(db.hist.log[i]) != UsesUp(r)
  {
    forall i | 0 <= i < |db.hist.log| ensures UsesUp(db.hist.log[i]) != UsesUp(r) {
      assert Earned(db.hist, db.tokens, db.hist.log[i]);
    }
  }

  lemma RefreshStepOk(db: Db, q: Request, a: Arg)
    requires DbInv(db) && Ready(db, q)
    requires q.RefreshLookup? || q.RefreshUser? || q.RefreshDevice? || q.RefreshRotate? || q.RefreshReuse?
    ensures GoodStep(db, q, ExecRefresh(db, q, a))
  {
    hide GoodStep, DbInv, Grows;
    match q
    case RefreshLookup(_, _, _, _) =>
      StandsStill(db, q, ExecRefresh(db, q, a).next);
    case RefreshUser(id, rt, jkt, wanted) =>
      DownscopedOk(db, id, rt, jkt, wanted, a);
      StandsStill(db, q, ExecRefresh(db, q, a).next);
    case RefreshDevice(id, rt, jkt, wanted) =>
      DownscopedOk(db, id, rt, jkt, wanted, a);
      StandsStill(db, q, ExecRefresh(db, q, a).next);
    case RefreshRotate(_, _, _) =>
      RotateStepOk(db, q, a);
    case RefreshReuse(_, rt) =>
      RevokingOk(db, RevokeForUserClient(db, rt.user, rt.client));
      QuietStep(db, q, ExecRefresh(db, q, a));
  }

  /** The first token of a family and the response that delivers it. */
  lemma IssuingStep(db: Db, q: Request, n: Name, row: RefreshToken, g: Grant, r: Response)
    requires DbInv(db) && Unused(db.hist, g) && g in db.hist.spent && UsesUp(r) == Some(Code(g))
    requires HeldGrant(q) == Some(g) && Earned(db.hist, db.tokens, r)
    requires Insertable(db, n) && row.rotatedFrom == NONE && !row.revoked
    requires Carries(db.hist, g, row.client, row.user, row.scope, row.amr, row.authTime, row.device)
    ensures GoodStep(db, q, Outcome(Respond(InsertToken(db, n, row, Some(g)), r), Done))
  {
    FirstTokenOk(db, n, row, g);
    var mid := InsertToken(db, n, row, Some(g));
    EarnedKept(db.hist, mid.hist, db.tokens, mid.tokens, r);
    hide DbInv, Grows;
    AnsweringStep(db, q, mid, r);
  }

  lemma CodeConsumeOk(db: Db, q: Request, a: Arg)
    requires DbInv(db) && q.CodeConsume?
    ensures GoodStep(db, q, ExecCode(db, q, a))
  {
    ConsumeAuthCodeOk(db, q.code);
    hide DbInv, Grows;
    if ConsumeAuthCode(db, q.code).0.Some? {
      TakingStep(db, q, FromAuthCode(q.code), ExecCode(db, q, a));
    } else {
      StandsStill(db, q, Done);
    }
  }

  lemma CodeIssueOk(db: Db, q: Request, a: Arg)
    requires DbInv(db) && Ready(db, q) && q.CodeIssue?
    ensures GoodStep(db, q, ExecCode(db, q, a))
  {
    hide DbInv, Grows;
    var CodeIssue(code, ac, jkt) := q;
    if OFFLINE_ACCESS !in ac.scope {
      GrowsRefl(db);
      AnsweringStep(db, q, db, CodeTokens(code, ac.user, ac.scope, ac.amr, ac.authTime, NONE));
    } else if Insertable(db, a.newId) {
      var row := RefreshToken(ac.client, ac.user, ac.scope, NONE, false, db.now + a.ttl, ac.authTime, ac.amr, NONE, jkt);
      IssuingStep(db, q, a.newId, row, FromAuthCode(code),
                  CodeTokens(code, ac.user, ac.scope, ac.amr, ac.authTime, a.newId));
    } else {
      StandsStill(db, q, Done);
    }
  }

  lemma GrowsRefl(db: Db)
    ensures Grows(db, db)
  {
  }

  lemma CodeStepOk(db: Db, q: Request, a: Arg)
    requires DbInv(db) && Ready(db, q) && (q.CodeConsume? || q.CodeUser? || q.CodeIssue?)
    ensures GoodStep(db, q, ExecCode(db, q, a))
  {
    hide DbInv, Grows;
    match q
    case CodeConsume(_, _, _, _, _, _) => CodeConsumeOk(db, q, a);
    case CodeUser(_, _, _) => GrowsRefl(db);
    case CodeIssue(_, _, _) => CodeIssueOk(db, q, a);
  }

  lemma PollLookupOk(db: Db, q: Request, a: Arg)
    requires DbInv(db) && q.PollLookup?
    ensures GoodStep(db, q, ExecPoll(db, q, a))
  {
    if q.code in db.deviceCodes {
      assert DeviceCodeAt(db.deviceCodes, db.hist, q.code);
    }
    StandsStill(db, q, ExecPoll(db, q, a).next);
  }

  lemma PollMarkOk(db: Db, q: Request, a: Arg)
    requires DbInv(db) && Ready(db, q) && q.PollMark?
    ensures GoodStep(db, q, ExecPoll(db, q, a))
  {
    hide DbInv, Grows, Unused;
    MarkDeviceCodePolledOk(db, q.code, q.at);
    GrowsRefl(db);
    QuietStep(db, q, ExecPoll(db, q, a));
  }

  lemma PollConsumeOk(db: Db, q: Request, a: Arg)
    requires DbInv(db) && Ready(db, q) && q.PollConsume?
    ensures GoodStep(db, q, ExecPoll(db, q, a))
  {
    ConsumeDeviceCodeOk(db, q.code);
    hide DbInv, Grows;
    if ConsumeDeviceCode(db, q.code).0 {
      TakingStep(db, q, FromDeviceCode(q.code), ExecPoll(db, q, a));
    } else {
      StandsStill(db, q, Done);
    }
  }

  lemma PollIssueOk(db: Db, q: Request, a: Arg)
    requires DbInv(db) && Ready(db, q) && q.PollIssue?
    ensures GoodStep(db, q, ExecPoll(db, q, a))
  {
    hide DbInv, Grows;
    var PollIssue(code, dc, jkt, device) := q;
    if OFFLINE_ACCESS !in dc.scope {
      GrowsRefl(db);
      AnsweringStep(db, q, db, DeviceTokens(code, dc.user, dc.scope, dc.amr, dc.authTime, device, NONE));
    } else if Insertable(db, a.newId) {
      var row := RefreshToken(dc.client, dc.user, dc.scope, NONE, false, db.now + a.ttl, dc.authTime, dc.amr, device, jkt);
      IssuingStep(db, q, a.newId, row, FromDeviceCode(code),
                  DeviceTokens(code, dc.user, dc.scope, dc.amr, dc.authTime, device, a.newId));
    } else {
      StandsStill(db, q, Done);
    }
  }

  lemma PollStepOk(db: Db, q: Request, a: Arg)
    requires DbInv(db) && Ready(db, q)
    requires q.PollLookup? || q.PollMark? || q.PollDevice? || q.PollUser? || q.PollConsume? || q.PollIssue?
    ensures GoodStep(db, q, ExecPoll(db, q, a))
  {
    hide DbInv, Grows;
    match q
    case PollLookup(_, _, _, _) => PollLookupOk(db, q, a);
    case PollMark(_, _, _, _, _) => PollMarkOk(db, q, a);
    case PollDevice(_, _, _, _) => StandsStill(db, q, ExecPoll(db, q, a).next);
    case PollUser(_, _, _, _) => StandsStill(db, q, ExecPoll(db, q, a).next);
    case PollConsume(_, _, _, _) => PollConsumeOk(db, q, a);
    case PollIssue(_, _, _, _) => PollIssueOk(db, q, a);
  }

  lemma ConfirmStepOk(db: Db, q: Request, a: Arg)
    requires DbInv(db) && (q.ConfirmLookup? || q.ConfirmDevice? || q.ConfirmDecide?)
    ensures GoodStep(db, q, ExecConfirm(db, q, a))
  {
    hide DbInv, Grows;
    match q
    case ConfirmLookup(_, _, _) => StandsStill(db, q, ExecConfirm(db, q, a).next);
    case ConfirmDevice(_, _, _, _) => StandsStill(db, q, ExecConfirm(db, q, a).next);
    case ConfirmDecide(code, _, decision) =>
      ApproveDeviceCodeOk(db, code, decision);
      DenyDeviceCodeOk(db, code);
      QuietStep(db, q, ExecConfirm(db, q, a));
  }

  lemma ExchangeStepOk(db: Db, q: Request)
    requires DbInv(db) && Ready(db, q)
    requires q.ExchangeDevice? || q.ExchangeToken? || q.ExchangeUser? || q.ExchangeTarget?
    ensures GoodStep(db, q, ExecExchange(db, q))
  {
    hide DbInv, Grows;
    var o := ExecExchange(db, q);
    if o.db == db {
      StandsStill(db, q, o.next);
    } else {
      var allowed := db.audiences[q.audience];
      GrowsRefl(db);
      AnsweringStep(db, q, db, Exchanged(q.id, q.device, q.audience,
        if q.wanted.Some? then q.wanted.value else q.rt.scope * allowed, allowed));
    }
  }

  lemma ExecOk(db: Db, q: Request, a: Arg)
    requires DbInv(db) && Ready(db, q)
    ensures GoodStep(db, q, Exec(db, q, a))
  {
    hide DbInv, GoodStep, Ready;
    if (a.dbError && !q.PollMark? && !q.ConfirmDevice?) || q.Done? {
      StandsStill(db, q, Done);
    } else if q.RefreshLookup? || q.RefreshUser? || q.RefreshDevice? || q.RefreshRotate? || q.RefreshReuse? {
      RefreshStepOk(db, q, a);
    } else if q.CodeConsume? || q.CodeUser? || q.CodeIssue? {
      CodeStepOk(db, q, a);
    } else if q.ConfirmLookup? || q.ConfirmDevice? || q.ConfirmDecide? {
      ConfirmStepOk(db, q, a);
    } else if q.ExchangeDevice? || q.ExchangeToken? || q.ExchangeUser? || q.ExchangeTarget? {
      ExchangeStepOk(db, q);
    } else {
      PollStepOk(db, q, a);
    }
  }

  lemma NewCodesOk(db: Db, c: Change)
    requires DbInv(db) && (c.NewAuthCode? || c.NewDeviceCode?)
    ensures DbInv(Apply(db, c)) && Grows(db, Apply(db, c))
  {
    var db' := Apply(db, c);
    NewCodesAt(db, c);
    NewCodesGrow(db, c);
    hide Families, Sources, AuthCodesOk, DeviceCodesOk, LogOk, Grows, HistGrows;
    SourcesKept(db.tokens, db.tokens, db.hist, db'.hist);
    LogKept(db.hist, db'.hist, db.tokens, db.tokens);
  }

  lemma NewCodesHist(db: Db, c: Change)
    requires Ledger(db.hist) && (c.NewAuthCode? || c.NewDeviceCode?)
    ensures var h := Apply(db, c).hist;
      HistGrows(db.hist, h) && Ledger(h) && h == db.hist.(authCodes := h.authCodes, deviceCodes := h.deviceCodes)
  {
    var h := Apply(db, c).hist;
    NewCodesAdd(db, c);
    hide Apply;
    assert Ledger(h) by { hide HistGrows; CreatedKept(db.hist, h); }
  }

  /** A new code is only added to the codes created so far. */
  lemma NewCodesAdd(db: Db, c: Change)
    requires c.NewAuthCode? || c.NewDeviceCode?
    ensures var h := Apply(db, c).hist;
      HistGrows(db.hist, h) && h == db.hist.(authCodes := h.authCodes, deviceCodes := h.deviceCodes)
  {
    hide Ledger, RevokeRefreshToken, RevokeForUserClient, RevokeDevice, ApproveDevice, SetDeviceOwnerOnly, SweepAuthCodes, SweepDeviceCodes;
  }

  lemma CreatedKept(h: History, h': History)
    requires Ledger(h) && h' == h.(authCodes := h'.authCodes, deviceCodes := h'.deviceCodes)
    requires forall c :: c in h.deviceCodes ==> c in h'.deviceCodes && h'.deviceCodes[c] == h.deviceCodes[c]
    requires forall c :: c in h.authCodes ==> c in h'.authCodes && h'.authCodes[c] == h.authCodes[c]
    ensures Ledger(h')
  {
  }

  lemma NewCodesGrow(db: Db, c: Change)
    requires Ledger(db.hist) && (c.NewAuthCode? || c.NewDeviceCode?)
    ensures var db' := Apply(db, c);
      && Grows(db, db') && HistGrows(db.hist, db'.hist) && Ledger(db'.hist)
      && db' == db.(authCodes := db'.authCodes, deviceCodes := db'.deviceCodes, hist := db'.hist)
      && db'.hist == db.hist.(authCodes := db'.hist.authCodes, deviceCodes := db'.hist.deviceCodes)
  {
    hide HistGrows, Ledger;
    NewCodesHist(db, c);
  }

  lemma NewCodesAt(db: Db, c: Change)
    requires AuthCodesOk(db.authCodes, db.hist) && DeviceCodesOk(db.deviceCodes, db.hist) && Ledger(db.hist) && (c.NewAuthCode? || c.NewDeviceCode?)
    ensures var db' := Apply(db, c); AuthCodesOk(db'.authCodes, db'.hist) && DeviceCodesOk(db'.deviceCodes, db'.hist)
  {
    var db' := Apply(db, c);
    forall k | k in db'.authCodes ensures AuthCodeAt(db'.authCodes, db'.hist, k) {
      if k in db.authCodes { assert AuthCodeAt(db.authCodes, db.hist, k); }
    }
    forall k | k in db'.deviceCodes ensures DeviceCodeAt(db'.deviceCodes, db'.hist, k) {
      if k in db.deviceCodes { assert DeviceCodeAt(db.deviceCodes, db.hist, k); }
    }
  }

  lemma ApplyOk(db: Db, c: Change)
    requires DbInv(db)
    ensures var db' := Apply(db, c);
      DbInv(db') && Grows(db, db') && db'.hist.source == db.hist.source && db'.hist.log == db.hist.log
  {
    hide DbInv, Grows;
    GrowsRefl(db);
    match c
    case NewAuthCode(_, _) => NewCodesOk(db, c);
    case NewDeviceCode(_, _) => NewCodesOk(db, c);
    case AuthCodesSwept(cutoff) => SweepCodesOk(db, cutoff);
    case DeviceCodesSwept(cutoff) => SweepCodesOk(db, cutoff);
    case Tick(_) => PlainOk(db, Apply(db, c));
    case UserSet(_, _) => PlainOk(db, Apply(db, c));
    case AudienceSet(_, _) => PlainOk(db, Apply(db, c));
    case _ => RevokingChangeOk(db, c);
  }

  lemma RevokingChangeOk(db: Db, c: Change)
    requires DbInv(db)
    requires c.RevokeToken? || c.Logout? || c.DeviceRevoked? || c.DeviceApproved? || c.DeviceEnrolled? || c.OwnerOnlySet?
    ensures var db' := Apply(db, c);
      DbInv(db') && Grows(db, db') && db'.hist == db.hist
  {
    RevokingChange(db, c);
    hide DbInv, Grows;
    RevokingOk(db, Apply(db, c));
  }

  /** Tokens are only revoked, devices stay revoked, nothing else changes. */
  ghost predicate OnlyRevoking(db: Db, db': Db) {
    && OnlyRevokes(db.tokens, db'.tokens) && db' == db.(tokens := db'.tokens, devices := db'.devices)
    && forall d :: d in db.devices && db.devices[d].status == Revoked ==> d in db'.devices && db'.devices[d].status == Revoked
  }

  lemma RevokingChange(db: Db, c: Change)
    requires c.RevokeToken? || c.Logout? || c.DeviceRevoked? || c.DeviceApproved? || c.DeviceEnrolled? || c.OwnerOnlySet?
    ensures OnlyRevoking(db, Apply(db, c))
  {
    hide RevokeRefreshToken, RevokeForUserClient, RevokeDevice, ApproveDevice, SetDeviceOwnerOnly, OnlyRevoking;
    match c
    case RevokeToken(id) => RevokeTokenOnly(db, id);
    case Logout(user, client) => LogoutOnly(db, user, client);
    case DeviceRevoked(d) => RevokeDeviceOnly(db, d);
    case DeviceApproved(d) => ApproveDeviceOnly(db, d);
    case OwnerOnlySet(d, owner, ownerOnly) => SetOwnerOnly(db, d, owner, ownerOnly);
    case DeviceEnrolled(d, device) => EnrolOnly(db, d, device);
  }

  lemma RevokeTokenOnly(db: Db, id: Name)
    ensures OnlyRevoking(db, RevokeRefreshToken(db, id))
  {
  }

  lemma LogoutOnly(db: Db, user: Name, client: Name)
    ensures OnlyRevoking(db, RevokeForUserClient(db, user, client))
  {
  }

  lemma RevokeDeviceOnly(db: Db, d: Name)
    ensures OnlyRevoking(db, RevokeDevice(db, d))
  {
  }

  lemma ApproveDeviceOnly(db: Db, d: Name)
    ensures OnlyRevoking(db, ApproveDevice(db, d))
  {
  }

  lemma SetOwnerOnly(db: Db, d: Name, owner: Name, ownerOnly: bool)
    ensures OnlyRevoking(db, SetDeviceOwnerOnly(db, d, owner, ownerOnly))
  {
  }

  lemma EnrolOnly(db: Db, d: Name, device: Device)
    ensures OnlyRevoking(db, Apply(db, DeviceEnrolled(d, device)))
  {
  }

  lemma PlainOk(db: Db, db': Db)
    requires DbInv(db) && db'.now >= db.now
    requires db' == db.(now := db'.now, enabled := db'.enabled, audiences := db'.audiences)
    ensures DbInv(db') && Grows(db, db')
  {
  }

  lemma AdvanceOk(s: State, r: Name, a: Arg)
    requires Inv(s) && r in s.requests
    ensures Inv(Step(s, Advance(r, a)))
    ensures Grows(s.db, Step(s, Advance(r, a)).db)
  {
    var q := s.requests[r];
    var o := Exec(s.db, q, a);
    ExecOk(s.db, q, a);
    var s' := Step(s, Advance(r, a));
    forall k | k in s'.requests ensures Ready(s'.db, s'.requests[k]) {
      if k != r {
        RequestOkGrows(s.db, o.db, s.requests[k]);
      }
    }
  }

  lemma StepOk(s: State, e: Event)
    requires Inv(s)
    ensures Inv(Step(s, e)) && Grows(s.db, Step(s, e).db)
  {
    hide Inv, Grows, Exec, Apply;
    match e
    case Start(r, q) => StartOk(s, r, q);
    case Advance(r, a) => if r in s.requests { AdvanceOk(s, r, a); } else { GrowsRefl(s.db); }
    case Outside(c) => OutsideOk(s, c);
  }

  lemma OutsideOk(s: State, c: Change)
    requires Inv(s)
    ensures Inv(Step(s, Outside(c))) && Grows(s.db, Step(s, Outside(c)).db)
  {
    ApplyOk(s.db, c);
    forall k | k in s.requests ensures Ready(Apply(s.db, c), s.requests[k]) {
      RequestOkGrows(s.db, Apply(s.db, c), s.requests[k]);
    }
    hide DbInv, Apply, Ready, Grows;
  }

  lemma StartOk(s: State, r: Name, q: Request)
    requires Inv(s)
    ensures Inv(Step(s, Start(r, q))) && Grows(s.db, Step(s, Start(r, q)).db)
  {
    GrowsRefl(s.db);
    hide DbInv, Grows;
  }

  lemma {:induction false} RunOk(s: State, events: seq<Event>)
    requires Inv(s)
    ensures Inv(Run(s, events))
    decreases |events|
  {
    if events != [] {
      StepOk(s, events[0]);
      RunOk(Step(s, events[0]), events[1..]);
    }
  }
}
