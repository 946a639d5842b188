/** What every statement keeps about the store and its history. */
module GrantInvariant {
  import opened Options
  import opened GrantStore
  import opened TokenFamilies

  // ----- the pieces -----

  /** The token carries exactly what its grant recorded. */
  predicate Carries(h: History, g: Grant, client: Name, user: Name, scope: set<Name>, amr: Name, authTime: int, device: Name) {
    match g
    case FromAuthCode(c) =>
      && c in h.authCodes && client == h.authCodes[c].client && user == h.authCodes[c].user
      && scope == h.authCodes[c].scope && amr == h.authCodes[c].amr && authTime == h.authCodes[c].authTime
      && device == NONE
    case FromDeviceCode(c) =>
      && c in h.deviceCodes && c in h.approvals && client == h.deviceCodes[c].client
      && scope == h.deviceCodes[c].scope && device == h.deviceCodes[c].device
      && h.approvals[c] == Approval(user, amr, authTime)
  }

  predicate SourceAt(ts: Table, h: History, t: Name) {
    && t in ts && (t in h.source <==> ts[t].rotatedFrom == NONE)
    && (t in h.source ==>
          && h.source[t] in h.spent
          && Carries(h, h.source[t], ts[t].client, ts[t].user, ts[t].scope, ts[t].amr, ts[t].authTime, ts[t].device))
  }

  ghost predicate Sources(ts: Table, h: History) {
    && h.source.Keys <= ts.Keys
    && (forall t {:trigger SourceAt(ts, h, t)} :: t in ts ==> SourceAt(ts, h, t))
    && (forall t, u :: t in h.source && u in h.source && h.source[t] == h.source[u] ==> t == u)
  }

  predicate AuthCodeAt(codes: map<Name, AuthCode>, h: History, c: Name) {
    c in codes && c in h.authCodes && codes[c] == h.authCodes[c].(used := FromAuthCode(c) in h.spent)
  }

  ghost predicate AuthCodesOk(codes: map<Name, AuthCode>, h: History) {
    forall c {:trigger AuthCodeAt(codes, h, c)} :: c in codes ==> AuthCodeAt(codes, h, c)
  }

  /** The row against the code as it was created. */
  predicate SameRequest(a: DeviceCode, b: DeviceCode) {
    a.client == b.client && a.scope == b.scope && a.device == b.device && a.expiresAt == b.expiresAt
  }

  predicate ApprovedAs(h: History, c: Name, dc: DeviceCode) {
    c in h.approvals && h.approvals[c] == Approval(dc.user, dc.amr, dc.authTime)
  }

  predicate DeviceCodeAt(codes: map<Name, DeviceCode>, h: History, c: Name) {
    && c in codes && c in h.deviceCodes && SameRequest(codes[c], h.deviceCodes[c])
    && (codes[c].status == Pending ==> c !in h.approvals && c !in h.denied)
    && (codes[c].status == Denied ==> c in h.denied)
    && (codes[c].status == Approved || codes[c].status == Consumed ==> ApprovedAs(h, c, codes[c]))
    && (codes[c].status == Consumed <==> FromDeviceCode(c) in h.spent)
  }

  ghost predicate DeviceCodesOk(codes: map<Name, DeviceCode>, h: History) {
    forall c {:trigger DeviceCodeAt(codes, h, c)} :: c in codes ==> DeviceCodeAt(codes, h, c)
  }

  ghost predicate Ledger(h: History) {
    && h.approvals.Keys <= h.deviceCodes.Keys && h.denied <= h.deviceCodes.Keys
    && h.approvals.Keys !! h.denied
    && (forall c {:trigger FromAuthCode(c) in h.spent} :: FromAuthCode(c) in h.spent ==> c in h.authCodes)
    && (forall c {:trigger FromDeviceCode(c) in h.spent} :: FromDeviceCode(c) in h.spent ==> c in h.approvals)
  }

  /** What a response may use up once only. */
  datatype Once = Token(id: Name) | Code(grant: Grant)

  function UsesUp(r: Response): Option<Once> {
    match r
    case Refreshed(p, _) => Some(Token(p))
    case CodeTokens(c, _, _, _, _, _) => Some(Code(FromAuthCode(c)))
    case DeviceTokens(c, _, _, _, _, _, _) => Some(Code(FromDeviceCode(c)))
    case Exchanged(_, _, _, _, _) => None
  }

  predicate Earned(h: History, ts: Table, r: Response) {
    match r
    case Refreshed(p, _) => p in ts && ts[p].revoked
    case CodeTokens(c, user, scope, amr, authTime, _) =>
      && FromAuthCode(c) in h.spent && c in h.authCodes
      && Carries(h, FromAuthCode(c), h.authCodes[c].client, user, scope, amr, authTime, NONE)
    case DeviceTokens(c, user, scope, amr, authTime, device, _) =>
      && FromDeviceCode(c) in h.spent && c in h.deviceCodes
      && Carries(h, FromDeviceCode(c), h.deviceCodes[c].client, user, scope, amr, authTime, device)
    case Exchanged(t, device, _, scope, allowed) =>
      t in ts && ts[t].device == device && scope != {} && scope <= ts[t].scope && scope <= allowed
  }

  ghost predicate LogOk(h: History, ts: Table) {
    && (forall i {:trigger h.log[i]} :: 0 <= i < |h.log| ==> Earned(h, ts, h.log[i]))
    && (forall i, j {:trigger h.log[i], h.log[j]} ::
          0 <= i < j < |h.log| && UsesUp(h.log[i]).Some? ==> UsesUp(h.log[i]) != UsesUp(h.log[j]))
  }

  ghost predicate DbInv(db: Db) {
    && Families(db.tokens, db.hist.lineage)
    && Sources(db.tokens, db.hist)
    && AuthCodesOk(db.authCodes, db.hist)
    && DeviceCodesOk(db.deviceCodes, db.hist)
    && Ledger(db.hist)
    && LogOk(db.hist, db.tokens)
  }

  /** No token and no response has come of the grant yet. */
  ghost predicate Unused(h: History, g: Grant) {
    && (forall t :: t in h.source ==> h.source[t] != g)
    && (forall i :: 0 <= i < |h.log| ==> UsesUp(h.log[i]) != Some(Code(g)))
  }

  // ----- how the store may change -----

  ghost predicate HistGrows(h: History, h': History) {
    && (forall c :: c in h.authCodes ==> c in h'.authCodes && h'.authCodes[c] == h.authCodes[c])
    && (forall c :: c in h.deviceCodes ==> c in h'.deviceCodes && h'.deviceCodes[c] == h.deviceCodes[c])
    && (forall c :: c in h.approvals ==> c in h'.approvals && h'.approvals[c] == h.approvals[c])
    && h.spent <= h'.spent
    && h.denied <= h'.denied
    && h.log <= h'.log
  }

  /** A new row starts a family or replaces a token that was live. */
  predicate BornOfLive(ts: Table, row: RefreshToken) {
    row.rotatedFrom == NONE || (row.rotatedFrom in ts && !ts[row.rotatedFrom].revoked)
  }

  ghost predicate Grows(db: Db, db': Db) {
    && db.now <= db'.now
    && Extends(db.tokens, db'.tokens, db.hist.lineage, db'.hist.lineage)
    && (forall t :: t in db'.tokens && t !in db.tokens ==> BornOfLive(db.tokens, db'.tokens[t]))
    && HistGrows(db.hist, db'.hist)
    && (forall d :: d in db.devices && db.devices[d].status == Revoked ==> d in db'.devices && db'.devices[d].status == Revoked)
  }

  // ----- pieces that only follow -----

  lemma SourcesKept(ts: Table, ts': Table, h: History, h': History)
    requires Sources(ts, h) && HistGrows(h, h') && h'.source == h.source && ts'.Keys == ts.Keys
    requires forall t :: t in ts ==> SameToken(ts[t], ts'[t])
    ensures Sources(ts', h')
  {
    forall t | t in ts' ensures SourceAt(ts', h', t) {
      assert SourceAt(ts, h, t);
    }
  }

  lemma EarnedKept(h: History, h': History, ts: Table, ts': Table, r: Response)
    requires Earned(h, ts, r) && HistGrows(h, h')
    requires forall t :: t in ts ==> t in ts' && SameToken(ts[t], ts'[t]) && (ts[t].revoked ==> ts'[t].revoked)
    ensures Earned(h', ts', r)
  {
  }

  lemma LogKept(h: History, h': History, ts: Table, ts': Table)
    requires LogOk(h, ts) && HistGrows(h, h') && h'.log == h.log
    requires forall t :: t in ts ==> t in ts' && SameToken(ts[t], ts'[t]) && (ts[t].revoked ==> ts'[t].revoked)
    ensures LogOk(h', ts')
  {
    forall i | 0 <= i < |h'.log| ensures Earned(h', ts', h'.log[i]) {
      EarnedKept(h, h', ts, ts', h.log[i]);
    }
  }

  lemma AuthCodesKept(codes: map<Name, AuthCode>, codes': map<Name, AuthCode>, h: History, h': History)
    requires AuthCodesOk(codes, h) && HistGrows(h, h')
    requires forall c :: c in codes' ==> c in codes && codes'[c] == codes[c]
    requires forall c :: FromAuthCode(c) in h'.spent ==> FromAuthCode(c) in h.spent
    ensures AuthCodesOk(codes', h')
  {
    forall c | c in codes' ensures AuthCodeAt(codes', h', c) {
      assert AuthCodeAt(codes, h, c);
    }
  }

  lemma DeviceCodesKept(codes: map<Name, DeviceCode>, codes': map<Name, DeviceCode>, h: History, h': History)
    requires DeviceCodesOk(codes, h) && HistGrows(h, h')
    requires forall c :: c in codes' ==> c in codes && codes'[c].(lastPolled := None) == codes[c].(lastPolled := None)
    requires forall c :: FromDeviceCode(c) in h'.spent ==> FromDeviceCode(c) in h.spent
    requires h'.approvals == h.approvals && h'.denied == h.denied
    ensures DeviceCodesOk(codes', h')
  {
    forall c | c in codes' ensures DeviceCodeAt(codes', h', c) {
      assert DeviceCodeAt(codes, h, c);
      assert codes'[c] == codes[c].(lastPolled := codes'[c].lastPolled);
    }
  }

  /** Statements on the tokens alone leave what is known of codes as it is. */
  lemma CodesKept(db: Db, db': Db)
    requires AuthCodesOk(db.authCodes, db.hist) && DeviceCodesOk(db.deviceCodes, db.hist) && Ledger(db.hist)
    requires db'.authCodes == db.authCodes && db'.deviceCodes == db.deviceCodes
    requires db'.hist == db.hist.(lineage := db'.hist.lineage, source := db'.hist.source, log := db'.hist.log)
    ensures AuthCodesOk(db'.authCodes, db'.hist) && DeviceCodesOk(db'.deviceCodes, db'.hist) && Ledger(db'.hist)
  {
    forall c | c in db'.authCodes ensures AuthCodeAt(db'.authCodes, db'.hist, c) {
      assert AuthCodeAt(db.authCodes, db.hist, c);
    }
    forall c | c in db'.deviceCodes ensures DeviceCodeAt(db'.deviceCodes, db'.hist, c) {
      assert DeviceCodeAt(db.deviceCodes, db.hist, c);
    }
  }

  // ----- the statements -----

  lemma RevokingOk(db: Db, db': Db)
    requires DbInv(db) && db' == db.(tokens := db'.tokens, devices := db'.devices)
    requires OnlyRevokes(db.tokens, db'.tokens)
    requires forall d :: d in db.devices && db.devices[d].status == Revoked ==> d in db'.devices && db'.devices[d].status == Revoked
    ensures DbInv(db') && Grows(db, db')
  {
    RevokingKeepsFamilies(db.tokens, db'.tokens, db.hist.lineage);
    SourcesKept(db.tokens, db'.tokens, db.hist, db.hist);
    LogKept(db.hist, db.hist, db.tokens, db'.tokens);
  }

  lemma RespondOk(db: Db, r: Response)
    requires DbInv(db) && Earned(db.hist, db.tokens, r)
    requires forall i :: 0 <= i < |db.hist.log| && UsesUp(r).Some? ==> UsesUp(db.hist.log[i]) != UsesUp(r)
    ensures DbInv(Respond(db, r)) && Grows(db, Respond(db, r))
    ensures forall g :: Unused(db.hist, g) && UsesUp(r) != Some(Code(g)) ==> Unused(Respond(db, r).hist, g)
  {
    var db' := Respond(db, r);
    SourcesKept(db.tokens, db.tokens, db.hist, db'.hist);
    CodesKept(db, db');
    forall i | 0 <= i < |db'.hist.log| ensures Earned(db'.hist, db.tokens, db'.hist.log[i]) {
      EarnedKept(db.hist, db'.hist, db.tokens, db.tokens, if i < |db.hist.log| then db.hist.log[i] else r);
    }
  }

  lemma FirstTokenOk(db: Db, n: Name, row: RefreshToken, g: Grant)
    requires DbInv(db) && Insertable(db, n) && row.rotatedFrom == NONE && !row.revoked
    requires g in db.hist.spent && (forall t :: t in db.hist.source ==> db.hist.source[t] != g)
    requires Carries(db.hist, g, row.client, row.user, row.scope, row.amr, row.authTime, row.device)
    ensures var db' := InsertToken(db, n, row, Some(g));
      && DbInv(db') && Grows(db, db') && db'.hist.log == db.hist.log
      && forall k :: k != g && Unused(db.hist, k) ==> Unused(db'.hist, k)
  {
    var db' := InsertToken(db, n, row, Some(g));
    assert [n] + [] == [n];
    assert Families(db'.tokens, db'.hist.lineage) by {
      FirstTokenKeepsFamilies(db.tokens, db.hist.lineage, n, row);
    }
    FirstTokenLedgers(db, n, row, g);
    FirstTokenGrows(db, n, row, g);
  }

  lemma FirstTokenGrows(db: Db, n: Name, row: RefreshToken, g: Grant)
    requires n !in db.tokens && db.hist.lineage.Keys == db.tokens.Keys && row.rotatedFrom == NONE
    ensures Grows(db, InsertToken(db, n, row, Some(g)))
  {
  }

  lemma FirstTokenLedgers(db: Db, n: Name, row: RefreshToken, g: Grant)
    requires DbInv(db) && n !in db.tokens && row.rotatedFrom == NONE
    requires g in db.hist.spent && (forall t :: t in db.hist.source ==> db.hist.source[t] != g)
    requires Carries(db.hist, g, row.client, row.user, row.scope, row.amr, row.authTime, row.device)
    ensures var db' := InsertToken(db, n, row, Some(g));
      && Sources(db'.tokens, db'.hist) && AuthCodesOk(db'.authCodes, db'.hist)
      && DeviceCodesOk(db'.deviceCodes, db'.hist) && Ledger(db'.hist) && LogOk(db'.hist, db'.tokens)
  {
    var db' := InsertToken(db, n, row, Some(g));
    FirstSourceOk(db, n, row, g);
    LogKept(db.hist, db'.hist, db.tokens, db'.tokens);
    CodesKept(db, db');
  }

  lemma FirstSourceOk(db: Db, n: Name, row: RefreshToken, g: Grant)
    requires Sources(db.tokens, db.hist) && n !in db.tokens && row.rotatedFrom == NONE
    requires g in db.hist.spent && (forall t :: t in db.hist.source ==> db.hist.source[t] != g)
    requires Carries(db.hist, g, row.client, row.user, row.scope, row.amr, row.authTime, row.device)
    ensures var db' := InsertToken(db, n, row, Some(g)); Sources(db'.tokens, db'.hist)
  {
    var db' := InsertToken(db, n, row, Some(g));
    forall t | t in db'.tokens ensures SourceAt(db'.tokens, db'.hist, t) {
      if t != n { assert SourceAt(db.tokens, db.hist, t); }
    }
  }

  lemma ReplacementSourceOk(ts: Table, h: History, p: Name, n: Name, row: RefreshToken, h': History)
    requires Sources(ts, h) && p in ts && n !in ts && row.rotatedFrom != NONE
    requires h' == h.(lineage := h'.lineage)
    ensures Sources(ts[p := ts[p].(revoked := true)][n := row], h')
  {
    var ts' := ts[p := ts[p].(revoked := true)][n := row];
    forall t | t in ts' ensures SourceAt(ts', h', t) {
      if t != n { assert SourceAt(ts, h, t); }
    }
  }

  lemma ReplaceOk(db: Db, p: Name, n: Name, row: RefreshToken)
    requires DbInv(db) && p in db.tokens && !db.tokens[p].revoked && Insertable(db, n)
    requires row.rotatedFrom == p && Inherits(db.tokens[p], row)
    ensures DbInv(InsertToken(RevokeRefreshToken(db, p), n, row, None))
  {
    var db' := InsertToken(RevokeRefreshToken(db, p), n, row, None);
    assert Families(db'.tokens, db'.hist.lineage) by {
      RotationKeepsFamilies(db.tokens, db.hist.lineage, p, n, row);
    }
    ReplacementSourceOk(db.tokens, db.hist, p, n, row, db'.hist);
    ReplacementLogOk(db, db', p, n);
    CodesKept(db, db');
  }

  lemma ReplacementLogOk(db: Db, db': Db, p: Name, n: Name)
    requires LogOk(db.hist, db.tokens) && p in db.tokens && n !in db.tokens && n in db'.tokens
    requires db'.tokens == db.tokens[p := db.tokens[p].(revoked := true)][n := db'.tokens[n]]
    requires db'.hist == db.hist.(lineage := db'.hist.lineage)
    ensures LogOk(db'.hist, db'.tokens)
  {
    LogKept(db.hist, db'.hist, db.tokens, db'.tokens);
  }

  /** RotateRefreshToken, when the replacement inherits from the presented row. */
  lemma RotateOk(db: Db, p: Name, replacement: Option<NewToken>)
    requires DbInv(db)
    requires replacement.Some? && p in db.tokens ==>
      replacement.value.row.rotatedFrom == p && Inherits(db.tokens[p], replacement.value.row)
    ensures var (result, db') := RotateRefreshToken(db, p, replacement);
      && DbInv(db') && Grows(db, db')
      && db'.hist.source == db.hist.source && db'.hist.log == db.hist.log
      && (result == Rotated ==> p in db.tokens && !db.tokens[p].revoked && db'.tokens[p].revoked)
  {
    hide DbInv, Grows, Inherits, OnlyRevokes;
    var (result, db') := RotateRefreshToken(db, p, replacement);
    GrowsInCodes(db, db);
    if result == Rotated {
      if replacement.None? {
        RevokesOne(db, p);
        RevokingOk(db, db');
      } else {
        ReplaceOk(db, p, replacement.value.id, replacement.value.row);
        ReplaceGrows(db, p, replacement.value.id, replacement.value.row);
      }
    }
  }

  lemma ReplaceGrows(db: Db, p: Name, n: Name, row: RefreshToken)
    requires DbInv(db) && p in db.tokens && !db.tokens[p].revoked && Insertable(db, n) && row.rotatedFrom == p
    ensures Grows(db, InsertToken(RevokeRefreshToken(db, p), n, row, None))
  {
    hide Sources, AuthCodesOk, DeviceCodesOk, Ledger, LogOk;
  }

  lemma RevokesOne(db: Db, p: Name)
    ensures OnlyRevokes(db.tokens, RevokeRefreshToken(db, p).tokens)
  {
  }

  lemma ConsumeAuthCodeOk(db: Db, c: Name)
    requires DbInv(db)
    ensures var (found, db') := ConsumeAuthCode(db, c);
      && DbInv(db') && Grows(db, db')
      && db'.hist.source == db.hist.source && db'.hist.log == db.hist.log
      && (found.Some? ==>
            && FromAuthCode(c) !in db.hist.spent && FromAuthCode(c) in db'.hist.spent
            && c in db'.hist.authCodes && found.value == db'.hist.authCodes[c].(used := true))
  {
    var (found, db') := ConsumeAuthCode(db, c);
    if found.Some? {
      assert AuthCodeAt(db.authCodes, db.hist, c);
      SourcesKept(db.tokens, db.tokens, db.hist, db'.hist);
      LogKept(db.hist, db'.hist, db.tokens, db.tokens);
      DeviceCodesKept(db.deviceCodes, db.deviceCodes, db.hist, db'.hist);
      forall k | k in db'.authCodes ensures AuthCodeAt(db'.authCodes, db'.hist, k) {
        assert AuthCodeAt(db.authCodes, db.hist, k);
      }
    }
  }

  lemma ApproveDeviceCodeOk(db: Db, c: Name, a: Approval)
    requires DbInv(db)
    ensures DbInv(ApproveDeviceCode(db, c, a)) && Grows(db, ApproveDeviceCode(db, c, a))
  {
    var db' := ApproveDeviceCode(db, c, a);
    if db' != db {
      assert DeviceCodeAt(db.deviceCodes, db.hist, c);
      SourcesKept(db.tokens, db.tokens, db.hist, db'.hist);
      LogKept(db.hist, db'.hist, db.tokens, db.tokens);
      AuthCodesKept(db.authCodes, db.authCodes, db.hist, db'.hist);
      forall k | k in db'.deviceCodes ensures DeviceCodeAt(db'.deviceCodes, db'.hist, k) {
        assert DeviceCodeAt(db.deviceCodes, db.hist, k);
      }
    }
  }

  lemma DenyDeviceCodeOk(db: Db, c: Name)
    requires DbInv(db)
    ensures DbInv(DenyDeviceCode(db, c)) && Grows(db, DenyDeviceCode(db, c))
  {
    var db' := DenyDeviceCode(db, c);
    if db' != db {
      assert DeviceCodeAt(db.deviceCodes, db.hist, c);
      SourcesKept(db.tokens, db.tokens, db.hist, db'.hist);
      LogKept(db.hist, db'.hist, db.tokens, db.tokens);
      AuthCodesKept(db.authCodes, db.authCodes, db.hist, db'.hist);
      forall k | k in db'.deviceCodes ensures DeviceCodeAt(db'.deviceCodes, db'.hist, k) {
        assert DeviceCodeAt(db.deviceCodes, db.hist, k);
      }
    }
  }

  lemma ConsumeDeviceCodeOk(db: Db, c: Name)
    requires DbInv(db)
    ensures var (consumed, db') := ConsumeDeviceCode(db, c);
      && DbInv(db') && Grows(db, db')
      && db'.hist.source == db.hist.source && db'.hist.log == db.hist.log
      && (consumed ==> FromDeviceCode(c) !in db.hist.spent && FromDeviceCode(c) in db'.hist.spent)
  {
    var (consumed, db') := ConsumeDeviceCode(db, c);
    if consumed {
      assert DeviceCodeAt(db.deviceCodes, db.hist, c);
      SourcesKept(db.tokens, db.tokens, db.hist, db'.hist);
      LogKept(db.hist, db'.hist, db.tokens, db.tokens);
      AuthCodesKept(db.authCodes, db.authCodes, db.hist, db'.hist);
      forall k | k in db'.deviceCodes ensures DeviceCodeAt(db'.deviceCodes, db'.hist, k) {
        assert DeviceCodeAt(db.deviceCodes, db.hist, k);
      }
    }
  }

  lemma MarkDeviceCodePolledOk(db: Db, c: Name, at: int)
    requires DbInv(db)
    ensures DbInv(MarkDeviceCodePolled(db, c, at)) && Grows(db, MarkDeviceCodePolled(db, c, at))
  {
    hide Families, Sources, AuthCodesOk, DeviceCodesOk, Ledger, LogOk, Grows, Extends, HistGrows;
    var db' := MarkDeviceCodePolled(db, c, at);
    GrowsInCodes(db, db');
    HistStays(db.hist);
    DeviceCodesKept(db.deviceCodes, db'.deviceCodes, db.hist, db'.hist);
  }

  lemma HistStays(h: History)
    ensures HistGrows(h, h)
  {
  }

  lemma GrowsInCodes(db: Db, db': Db)
    requires db' == db.(deviceCodes := db'.deviceCodes)
    ensures Grows(db, db')
  {
  }

  lemma SweepCodesOk(db: Db, cutoff: int)
    requires DbInv(db)
    ensures DbInv(SweepAuthCodes(db, cutoff)) && Grows(db, SweepAuthCodes(db, cutoff))
    ensures DbInv(SweepDeviceCodes(db, cutoff)) && Grows(db, SweepDeviceCodes(db, cutoff))
  {
    AuthCodesKept(db.authCodes, SweepAuthCodes(db, cutoff).authCodes, db.hist, db.hist);
    DeviceCodesKept(db.deviceCodes, SweepDeviceCodes(db, cutoff).deviceCodes, db.hist, db.hist);
  }
}
