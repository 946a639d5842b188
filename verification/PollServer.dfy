/** The server that the polling loop sees is the handler of the token endpoint. */
module PollServer {
  import opened Options
  import opened GrantStore
  import opened Grants
  import opened GrantServer
  import opened GrantAnswers
  import Polling

  function RowOf(dc: DeviceCode): Polling.Row {
    Polling.Row(dc.lastPolled, dc.expiresAt)
  }

  predicate Usable(db: Db, dc: DeviceCode, bearer: Name, newId: Name) {
    DeviceMatches(db, dc, bearer) && dc.user in db.enabled && (OFFLINE_ACCESS in dc.scope ==> Insertable(db, newId))
  }

  /** The store after an undisturbed poll; marked: the one statement whose error
      the handler ignores goes through. */
  function HandlePoll(db: Db, q: Request, a: Arg, marked: bool): Db
    requires q.PollLookup?
  {
    var looked := Exec(db, q, a);
    if looked.next.PollMark? then
      var noted := Exec(looked.db, looked.next, a.(dbError := !marked));
      Alone(noted.db, noted.next, a)
    else looked.db
  }

  /** The handler's throttle decides as Serve says: a code in time comes to the
      step that notes the poll, and that step ends a poll that is too soon. */
  lemma ThrottlesAsTheHandler(db: Db, client: Name, code: Name, jkt: Name, bearer: Name, a: Arg, usable: bool, marked: bool)
    requires !a.dbError && code in db.deviceCodes && db.deviceCodes[code].client == client
    ensures var dc, looked := db.deviceCodes[code], Exec(db, PollLookup(client, code, jkt, bearer), a);
      var (reply, row) := Polling.Serve(RowOf(dc), db.now, dc.status, usable, marked);
      && looked.db == db && looked.next == (if reply.ExpiredToken? then Done else PollMark(code, dc, jkt, bearer, db.now))
      && (!reply.ExpiredToken? ==>
            var noted := Exec(db, looked.next, a.(dbError := !marked));
            && (reply.SlowDown? <==> PolledTooSoon(dc, db.now))
            && (reply.AuthorizationPending? <==> !PolledTooSoon(dc, db.now) && dc.status.Pending?)
            && (noted.next.Done? <==> reply.SlowDown? || dc.status != Approved)
            && noted.db == db.(deviceCodes := db.deviceCodes[code := dc.(lastPolled := row.lastPolled)]))
  {
    assert db.deviceCodes[code := db.deviceCodes[code]] == db.deviceCodes;
  }

  /** The rest of a poll of an approved code. */
  function Remaining(code: Name, dc: DeviceCode, jkt: Name, bearer: Name): Request {
    if dc.device != NONE then PollDevice(code, dc, jkt, bearer) else PollUser(code, dc, jkt, NONE)
  }

  lemma RemainingAnswered(db: Db, code: Name, dc: DeviceCode, jkt: Name, bearer: Name, a: Arg)
    requires !a.dbError && code in db.deviceCodes && db.deviceCodes[code].status == Approved
    ensures var after := Alone(db, Remaining(code, dc, jkt, bearer), a);
      && (Answer(db, after).Some? <==> Usable(db, dc, bearer, a.newId))
      && code in after.deviceCodes && RowOf(after.deviceCodes[code]) == RowOf(db.deviceCodes[code])
  {
    hide Alone, Exec, DeviceMatches;
    DeviceChecked(db, code, dc, jkt, bearer, a);
    if DeviceMatches(db, dc, bearer) && dc.user in db.enabled { ConsumptionAnswered(db, code, dc, jkt, a); }
  }

  lemma NotedGoesOn(db: Db, code: Name, dc: DeviceCode, jkt: Name, bearer: Name, a: Arg, marked: bool)
    ensures var noted := Exec(db, PollMark(code, dc, jkt, bearer, db.now), a.(dbError := !marked));
      noted.next == if noted.next.Done? then Done else Remaining(code, dc, jkt, bearer)
  {
  }

  lemma NothingLeft(db: Db, a: Arg)
    ensures Alone(db, Done, a) == db && Answer(db, db) == None
  {
  }

  /** Answers and checks do not read the poll time. */
  lemma SameButForPolls(db: Db, noted: Db, dc: DeviceCode, bearer: Name, newId: Name, after: Db)
    requires noted == db.(deviceCodes := noted.deviceCodes)
    ensures Usable(noted, dc, bearer, newId) == Usable(db, dc, bearer, newId) && Answer(noted, after) == Answer(db, after)
  {
  }

  /** A poll of the client's own code gets tokens, and leaves the poll time
      behind, exactly as Serve says. */
  lemma ServesAsTheHandler(db: Db, client: Name, code: Name, jkt: Name, bearer: Name, a: Arg, marked: bool)
    requires !a.dbError && code in db.deviceCodes && db.deviceCodes[code].client == client
    ensures var dc, after := db.deviceCodes[code], HandlePoll(db, PollLookup(client, code, jkt, bearer), a, marked);
      var (reply, row) := Polling.Serve(RowOf(dc), db.now, dc.status, Usable(db, dc, bearer, a.newId), marked);
      && (reply.Tokens? <==> Answer(db, after).Some?)
      && code in after.deviceCodes && RowOf(after.deviceCodes[code]) == row
  {
    hide Alone, Exec, Usable, Answer, PolledTooSoon;
    var dc, after := db.deviceCodes[code], HandlePoll(db, PollLookup(client, code, jkt, bearer), a, marked);
    ThrottlesAsTheHandler(db, client, code, jkt, bearer, a, Usable(db, dc, bearer, a.newId), marked);
    NothingLeft(db, a);
    if db.now <= dc.expiresAt {
      var noted := Exec(db, PollMark(code, dc, jkt, bearer, db.now), a.(dbError := !marked));
      NotedGoesOn(db, code, dc, jkt, bearer, a, marked);
      NothingLeft(noted.db, a);
      SameButForPolls(db, noted.db, dc, bearer, a.newId, after);
      if !noted.next.Done? { RemainingAnswered(noted.db, code, dc, jkt, bearer, a); }
    }
  }
}
