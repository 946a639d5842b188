/** The tables behind the token endpoint and the single SQL statements or
    transactions that change them. Every function here is one atomic step.

    Identifiers are opaque, so they are natural numbers, NONE standing for the
    source's empty string. Hashing is injective, so a token or code is named by
    the identifier of its row. A scope string is the set of its fields. */
module GrantStore {
  import opened Options

  type Name = nat

  const NONE: Name := 0
  const OFFLINE_ACCESS: Name := 1
  /** Seconds between polls, in the nanoseconds of the model's clock. */
  const POLL_INTERVAL: int := 5_000_000_000

  datatype RefreshToken = RefreshToken(
    client: Name, user: Name, scope: set<Name>, rotatedFrom: Name, revoked: bool,
    expiresAt: int, authTime: int, amr: Name, device: Name, jkt: Name)

  datatype AuthCode = AuthCode(
    client: Name, user: Name, redirect: Name, scope: set<Name>, challenge: Name,
    expiresAt: int, used: bool, authTime: int, amr: Name)

  datatype CodeStatus = Pending | Approved | Denied | Consumed

  datatype DeviceCode = DeviceCode(
    client: Name, scope: set<Name>, device: Name, status: CodeStatus, user: Name,
    amr: Name, authTime: int, lastPolled: Option<int>, expiresAt: int)

  datatype DeviceStatus = AwaitingApproval | Active | Revoked

  datatype Device = Device(owner: Name, ownerOnly: bool, status: DeviceStatus)

  /** What a refresh-token family was first issued for. */
  datatype Grant = FromAuthCode(code: Name) | FromDeviceCode(code: Name)

  datatype Approval = Approval(user: Name, amr: Name, authTime: int)

  /** A successful token response. `refresh` is NONE when none was issued. */
  datatype Response =
    | Refreshed(presented: Name, refresh: Name)
    | CodeTokens(code: Name, user: Name, scope: set<Name>, amr: Name, authTime: int, refresh: Name)
    | DeviceTokens(code: Name, user: Name, scope: set<Name>, amr: Name, authTime: int, device: Name, refresh: Name)
    | Exchanged(subject: Name, device: Name, audience: Name, scope: set<Name>, allowed: set<Name>)

  /** What has happened so far. No step of a request reads it; a new code is
      refused if it was created before. Codes are kept as they were created,
      because the sweeper deletes their rows. */
  datatype History = History(
    lineage: map<Name, seq<Name>>,
    source: map<Name, Grant>,
    authCodes: map<Name, AuthCode>,
    deviceCodes: map<Name, DeviceCode>,
    spent: set<Grant>,
    approvals: map<Name, Approval>,
    denied: set<Name>,
    log: seq<Response>)

  datatype Db = Db(
    now: int,
    tokens: map<Name, RefreshToken>,
    authCodes: map<Name, AuthCode>,
    deviceCodes: map<Name, DeviceCode>,
    devices: map<Name, Device>,
    enabled: set<Name>,
    audiences: map<Name, set<Name>>,
    hist: History)

  // ----- refresh_tokens.go -----

  /** INSERT: the primary key must be new. The history keeps the new row's line
      of ancestors, and the grant when the row starts a family. */
  function InsertToken(db: Db, id: Name, row: RefreshToken, grant: Option<Grant>): Db {
    var above := if row.rotatedFrom in db.hist.lineage then db.hist.lineage[row.rotatedFrom] else [];
    db.(tokens := db.tokens[id := row],
        hist := db.hist.(lineage := db.hist.lineage[id := [id] + above],
                         source := if grant.Some? then db.hist.source[id := grant.value] else db.hist.source))
  }

  predicate Insertable(db: Db, id: Name) {
    id != NONE && id !in db.tokens
  }

  datatype NewToken = NewToken(id: Name, row: RefreshToken)

  datatype RotateResult = Rotated | AlreadyRevoked | Conflict

  /** RotateRefreshToken: the conditional UPDATE and the INSERT commit together
      or not at all. */
  function RotateRefreshToken(db: Db, presented: Name, replacement: Option<NewToken>): (RotateResult, Db) {
    if presented !in db.tokens || db.tokens[presented].revoked then (AlreadyRevoked, db)
    else
      var revoked := RevokeRefreshToken(db, presented);
      if replacement.None? then (Rotated, revoked)
      else if !Insertable(db, replacement.value.id) then (Conflict, db)
      else (Rotated, InsertToken(revoked, replacement.value.id, replacement.value.row, None))
  }

  function RevokeRefreshToken(db: Db, id: Name): Db {
    if id in db.tokens then db.(tokens := db.tokens[id := db.tokens[id].(revoked := true)]) else db
  }

  function RevokeForUserClient(db: Db, user: Name, client: Name): Db {
    db.(tokens := map t | t in db.tokens ::
          if db.tokens[t].user == user && db.tokens[t].client == client
          then db.tokens[t].(revoked := true) else db.tokens[t])
  }

  // ----- auth_codes.go -----

  /** ConsumeAuthCode: nothing is returned for a missing, used or expired code. */
  function ConsumeAuthCode(db: Db, code: Name): (Option<AuthCode>, Db) {
    if code !in db.authCodes || db.authCodes[code].used || db.now > db.authCodes[code].expiresAt then (None, db)
    else
      var row := db.authCodes[code].(used := true);
      (Some(row),
       db.(authCodes := db.authCodes[code := row],
           hist := db.hist.(spent := db.hist.spent + {FromAuthCode(code)})))
  }

  // ----- devices.go -----

  function ApproveDeviceCode(db: Db, code: Name, a: Approval): Db {
    if code in db.deviceCodes && db.deviceCodes[code].status == Pending then
      db.(deviceCodes := db.deviceCodes[code :=
            db.deviceCodes[code].(status := Approved, user := a.user, amr := a.amr, authTime := a.authTime)],
          hist := db.hist.(approvals := db.hist.approvals[code := a]))
    else db
  }

  function DenyDeviceCode(db: Db, code: Name): Db {
    if code in db.deviceCodes && db.deviceCodes[code].status == Pending then
      db.(deviceCodes := db.deviceCodes[code := db.deviceCodes[code].(status := Denied)],
          hist := db.hist.(denied := db.hist.denied + {code}))
    else db
  }

  function ConsumeDeviceCode(db: Db, code: Name): (bool, Db) {
    if code in db.deviceCodes && db.deviceCodes[code].status == Approved then
      (true, db.(deviceCodes := db.deviceCodes[code := db.deviceCodes[code].(status := Consumed)],
                 hist := db.hist.(spent := db.hist.spent + {FromDeviceCode(code)})))
    else (false, db)
  }

  function MarkDeviceCodePolled(db: Db, code: Name, at: int): Db {
    if code in db.deviceCodes then
      db.(deviceCodes := db.deviceCodes[code := db.deviceCodes[code].(lastPolled := Some(at))])
    else db
  }

  /** RevokeDevice: the device and every token bound to it, in one transaction. */
  function RevokeDevice(db: Db, d: Name): Db {
    if d in db.devices && db.devices[d].status != Revoked then
      db.(devices := db.devices[d := db.devices[d].(status := Revoked)],
          tokens := map t | t in db.tokens ::
            if db.tokens[t].device == d then db.tokens[t].(revoked := true) else db.tokens[t])
    else db
  }

  function ApproveDevice(db: Db, d: Name): Db {
    if d in db.devices && db.devices[d].status == AwaitingApproval then
      db.(devices := db.devices[d := db.devices[d].(status := Active)])
    else db
  }

  function SetDeviceOwnerOnly(db: Db, d: Name, owner: Name, ownerOnly: bool): Db {
    if d in db.devices && db.devices[d].owner == owner then
      db.(devices := db.devices[d := db.devices[d].(ownerOnly := ownerOnly)])
    else db
  }

  predicate IsActive(db: Db, d: Name) {
    d in db.devices && db.devices[d].status == Active
  }

  // ----- sweep.go, for the two code tables -----

  function SweepAuthCodes(db: Db, cutoff: int): Db {
    db.(authCodes := map c | c in db.authCodes && db.authCodes[c].expiresAt >= cutoff :: db.authCodes[c])
  }

  function SweepDeviceCodes(db: Db, cutoff: int): Db {
    db.(deviceCodes := map c | c in db.deviceCodes && db.deviceCodes[c].expiresAt >= cutoff :: db.deviceCodes[c])
  }

  function Respond(db: Db, r: Response): Db {
    db.(hist := db.hist.(log := db.hist.log + [r]))
  }
}
