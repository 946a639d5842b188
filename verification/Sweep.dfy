/** The expiry sweep: when deleting expired rows shows in a later answer. */
module Sweep {
  datatype Table = Sessions | AuthCodes | AuthRequests | LoginChallenges | PasswordTokens | DeviceCodes | Ceremonies | Jtis

  /** A row is named by its primary key, a password token by its hash. */
  datatype Key = Key(table: Table, id: string)

  datatype Mark = Unused | Used | Pending | Approved | Denied | Consumed

  datatype Column = RowId | DeviceCodeHash | UserCode

  /** A value in another UNIQUE column of the table. */
  datatype Unique = Unique(column: Column, value: string)

  datatype Row = Row(expiresAt: int, mark: Mark, user: string, touchedAt: int, uniques: set<Unique>)

  type Rows = map<Key, Row>

  datatype Filter =
    | ById(key: Key)
    | ByUnique(table: Table, unique: Unique)
    | ByUser(table: Table, user: string, keep: string)
    | InTable(table: Table)

  /** One SQL statement or transaction. A clock reading that is not the time of
      the statement comes before it as `clock` and `cutoff`, after it as `checked`. */
  datatype Op =
    | Insert(key: Key, row: Row)
    | Select(filter: Filter, checked: int)      // the caller drops an expired row
    | SelectValid(filter: Filter, clock: int)   // WHERE expires_at > clock
    | SelectAny(filter: Filter)                 // ConsumePasswordToken reads back
    | UseToken(id: string, clock: int)          // ConsumePasswordToken updates
    | UseCode(id: string, checked: int)         // ConsumeAuthCode
    | UseCeremony(id: string, checked: int)     // ConsumeWebAuthnCeremony
    | Move(id: string, from: Mark, to: Mark)    // the conditional updates of device codes
    | Touch(key: Key, at: int)                  // TouchSession, MarkDeviceCodePolled
    | Delete(filter: Filter)
    | PruneJtis(cutoff: int)                    // ConsumeJTI deletes
    | InsertJti(id: string, expiresAt: int)     // ConsumeJTI inserts
    | SweepTable(table: Table, cutoff: int)

  datatype Event = At(now: int, op: Op)

  datatype Answer = Refused | Done | Found(rows: Rows)

  predicate Live(rows: Rows, key: Key, now: int) {
    key in rows && now <= rows[key].expiresAt
  }

  predicate Selects(f: Filter, k: Key, r: Row) {
    match f
    case ById(key) => k == key
    case ByUnique(table, unique) => k.table == table && unique in r.uniques
    case ByUser(table, user, keep) => k.table == table && r.user == user && k.id != keep
    case InTable(table) => k.table == table
  }

  predicate Usable(k: Key, r: Row, clock: int) {
    r.expiresAt > clock && (k.table == PasswordTokens ==> r.mark == Unused)
  }

  /** The rows a SELECT gives to its caller. */
  predicate Picks(op: Op, k: Key, r: Row) {
    match op
    case Select(f, checked) => Selects(f, k, r) && checked <= r.expiresAt
    case SelectValid(f, clock) => Selects(f, k, r) && Usable(k, r, clock)
    case SelectAny(f) => Selects(f, k, r)
    case _ => false
  }

  function Picked(rows: Rows, op: Op): Rows {
    map k | k in rows && Picks(op, k, rows[k]) :: rows[k]
  }

  /** A stored row that stands in the way of a new one. */
  predicate Clashes(rows: Rows, k: Key, key: Key, row: Row) {
    k in rows && k.table == key.table && (k == key || rows[k].uniques * row.uniques != {})
  }

  predicate Conflict(rows: Rows, key: Key, row: Row) {
    exists k :: k in rows && Clashes(rows, k, key, row)
  }

  predicate LiveConflict(rows: Rows, key: Key, row: Row, now: int) {
    exists k :: k in rows && Clashes(rows, k, key, row) && now <= rows[k].expiresAt
  }

  function Prune(rows: Rows, table: Table, cutoff: int): Rows {
    map k | k in rows && !(k.table == table && rows[k].expiresAt < cutoff) :: rows[k]
  }

  function Without(rows: Rows, f: Filter): Rows {
    map k | k in rows && !Selects(f, k, rows[k]) :: rows[k]
  }

  function SetMark(rows: Rows, key: Key, mark: Mark): Rows
    requires key in rows
  {
    rows[key := rows[key].(mark := mark)]
  }

  /** The answer of the statement, and the tables after it. */
  function Apply(rows: Rows, e: Event): (Answer, Rows) {
    match e.op
    case Insert(key, row) => if Conflict(rows, key, row) then (Refused, rows) else (Done, rows[key := row])
    case Select(_, _) => (Found(Picked(rows, e.op)), rows)
    case SelectValid(_, _) => (Found(Picked(rows, e.op)), rows)
    case SelectAny(_) => (Found(Picked(rows, e.op)), rows)
    case UseToken(id, clock) =>
      var key := Key(PasswordTokens, id);
      if key in rows && Usable(key, rows[key], clock) then (Done, SetMark(rows, key, Used)) else (Refused, rows)
    case UseCode(id, checked) =>
      var key := Key(AuthCodes, id);
      if Live(rows, key, checked) && rows[key].mark == Unused then (Found(map[key := rows[key]]), SetMark(rows, key, Used))
      else (Refused, rows)
    case UseCeremony(id, checked) =>
      var key := Key(Ceremonies, id);
      (if Live(rows, key, checked) then Found(map[key := rows[key]]) else Refused, rows - {key})
    case Move(id, from, to) =>
      var key := Key(DeviceCodes, id);
      if key in rows && rows[key].mark == from then (Done, SetMark(rows, key, to)) else (Refused, rows)
    case Touch(key, at) => (Done, if key in rows then rows[key := rows[key].(touchedAt := at)] else rows)
    case Delete(f) => (Done, Without(rows, f))
    case PruneJtis(cutoff) => (Done, Prune(rows, Jtis, cutoff))
    case InsertJti(id, expiresAt) =>
      var key := Key(Jtis, id);
      if key in rows then (Refused, rows) else (Done, rows[key := Row(expiresAt, Unused, "", 0, {})])
    case SweepTable(table, cutoff) => (Done, Prune(rows, table, cutoff))
  }

  /** The answers of everything but the sweeps. */
  function Answers(rows: Rows, events: seq<Event>): seq<Answer>
    decreases |events|
  {
    if events == [] then []
    else
      var rest := Answers(Apply(rows, events[0]).1, events[1..]);
      if events[0].op.SweepTable? then rest else [Apply(rows, events[0]).0] + rest
  }

  function Unswept(events: seq<Event>): seq<Event>
    decreases |events|
  {
    if events == [] then []
    else if events[0].op.SweepTable? then Unswept(events[1..])
    else [events[0]] + Unswept(events[1..])
  }

  predicate ClockOk(e: Event) {
    match e.op
    case Select(_, checked) => e.now <= checked
    case UseCode(_, checked) => e.now <= checked
    case UseCeremony(_, checked) => e.now <= checked
    case SelectValid(_, clock) => clock <= e.now
    case UseToken(_, clock) => clock <= e.now
    case PruneJtis(cutoff) => cutoff <= e.now
    case SweepTable(_, cutoff) => cutoff <= e.now
    case _ => true
  }

  /** The clock never goes back. */
  predicate Timed(now: int, events: seq<Event>)
    decreases |events|
  {
    events == [] || (now <= events[0].now && ClockOk(events[0]) && Timed(events[0].now, events[1..]))
  }

  predicate PicksLive(rows: Rows, op: Op, now: int) {
    forall k :: k in rows && Picks(op, k, rows[k]) ==> now <= rows[k].expiresAt
  }

  /** What the statement finds is not an expired row alone. */
  predicate Calm(rows: Rows, e: Event) {
    match e.op
    case Insert(key, row) => Conflict(rows, key, row) ==> LiveConflict(rows, key, row, e.now)
    case SelectValid(_, _) => PicksLive(rows, e.op, e.now)
    case SelectAny(_) => PicksLive(rows, e.op, e.now)
    case UseToken(id, clock) =>
      var key := Key(PasswordTokens, id);
      key in rows && Usable(key, rows[key], clock) ==> Live(rows, key, e.now)
    case Move(id, from, _) =>
      var key := Key(DeviceCodes, id);
      key in rows && rows[key].mark == from ==> Live(rows, key, e.now)
    case InsertJti(id, _) => Key(Jtis, id) in rows ==> Live(rows, Key(Jtis, id), e.now)
    case _ => true
  }

  predicate AllCalm(rows: Rows, events: seq<Event>)
    decreases |events|
  {
    events == [] || (Calm(rows, events[0]) && AllCalm(Apply(rows, events[0]).1, events[1..]))
  }

  // ----- transparency -----

  predicate MatchesAt(swept: Rows, kept: Rows, now: int, k: Key) {
    if k in swept then k in kept && kept[k] == swept[k] else !Live(kept, k, now)
  }

  /** Rows differ only where an expired one has been deleted. */
  ghost predicate Matches(swept: Rows, kept: Rows, now: int) {
    forall k {:trigger MatchesAt(swept, kept, now, k)} :: MatchesAt(swept, kept, now, k)
  }

  lemma SamePicks(swept: Rows, kept: Rows, op: Op, now: int)
    requires Matches(swept, kept, now) && PicksLive(kept, op, now)
    ensures Picked(swept, op) == Picked(kept, op)
  {
    forall k: Key ensures k in Picked(swept, op) <==> k in Picked(kept, op) {
      assert MatchesAt(swept, kept, now, k);
    }
    forall k | k in Picked(swept, op) ensures Picked(swept, op)[k] == Picked(kept, op)[k] {
      assert MatchesAt(swept, kept, now, k);
    }
  }

  lemma SameConflict(swept: Rows, kept: Rows, key: Key, row: Row, now: int)
    requires Matches(swept, kept, now) && (Conflict(kept, key, row) ==> LiveConflict(kept, key, row, now))
    ensures Conflict(swept, key, row) <==> Conflict(kept, key, row)
  {
    if Conflict(kept, key, row) {
      var k :| k in kept && Clashes(kept, k, key, row) && now <= kept[k].expiresAt;
      assert MatchesAt(swept, kept, now, k);
      assert Clashes(swept, k, key, row);
    }
    if Conflict(swept, key, row) {
      var k :| k in swept && Clashes(swept, k, key, row);
      assert MatchesAt(swept, kept, now, k);
      assert Clashes(kept, k, key, row);
    }
  }

  function KeyOf(op: Op): Key {
    match op
    case Insert(key, _) => key
    case Touch(key, _) => key
    case UseToken(id, _) => Key(PasswordTokens, id)
    case UseCode(id, _) => Key(AuthCodes, id)
    case UseCeremony(id, _) => Key(Ceremonies, id)
    case InsertJti(id, _) => Key(Jtis, id)
    case Move(id, _, _) => Key(DeviceCodes, id)
    case _ => Key(Jtis, "")
  }

  lemma SameAnswer(swept: Rows, kept: Rows, e: Event)
    requires Matches(swept, kept, e.now) && ClockOk(e) && Calm(kept, e)
    ensures Apply(swept, e).0 == Apply(kept, e).0
  {
    hide Conflict, LiveConflict, Matches, Picks, Picked;
    assert MatchesAt(swept, kept, e.now, KeyOf(e.op)) by { MatchesOne(swept, kept, e.now, KeyOf(e.op)); }
    if e.op.Insert? { SameConflict(swept, kept, e.op.key, e.op.row, e.now); }
    if e.op.Select? { SelectIsCalm(kept, e); }
    if e.op.Select? || e.op.SelectValid? || e.op.SelectAny? { SamePicks(swept, kept, e.op, e.now); }
  }

  lemma MatchesOne(swept: Rows, kept: Rows, now: int, k: Key)
    requires Matches(swept, kept, now)
    ensures MatchesAt(swept, kept, now, k)
  {
  }

  lemma SelectIsCalm(rows: Rows, e: Event)
    requires e.op.Select? && ClockOk(e)
    ensures PicksLive(rows, e.op, e.now)
  {
  }

  lemma MatchesApply(swept: Rows, kept: Rows, e: Event)
    requires Matches(swept, kept, e.now) && ClockOk(e) && Calm(kept, e) && !e.op.SweepTable?
    ensures Apply(swept, e).0 == Apply(kept, e).0
    ensures Matches(Apply(swept, e).1, Apply(kept, e).1, e.now)
  {
    hide Conflict, LiveConflict, Picks, Picked;
    SameAnswer(swept, kept, e);
    forall k ensures MatchesAt(Apply(swept, e).1, Apply(kept, e).1, e.now, k) {
      assert MatchesAt(swept, kept, e.now, k);
    }
  }

  lemma MatchesSweep(swept: Rows, kept: Rows, table: Table, cutoff: int, now: int)
    requires Matches(swept, kept, now) && cutoff <= now
    ensures Matches(Prune(swept, table, cutoff), kept, now)
  {
    forall k ensures MatchesAt(Prune(swept, table, cutoff), kept, now, k) {
      assert MatchesAt(swept, kept, now, k);
    }
  }

  lemma MatchesLater(swept: Rows, kept: Rows, now: int, later: int)
    requires Matches(swept, kept, now) && now <= later
    ensures Matches(swept, kept, later)
  {
    forall k ensures MatchesAt(swept, kept, later, k) {
      assert MatchesAt(swept, kept, now, k);
    }
  }

  /** Sweeps at any points of a run change none of its answers. */
  lemma {:induction false} SweepsAreInvisible(swept: Rows, kept: Rows, events: seq<Event>, now: int)
    requires Matches(swept, kept, now) && Timed(now, events) && AllCalm(kept, Unswept(events))
    ensures Answers(swept, events) == Answers(kept, Unswept(events))
    decreases |events|
  {
    hide Matches, Apply, Calm;
    if events != [] {
      var e := events[0];
      MatchesLater(swept, kept, now, e.now);
      if e.op.SweepTable? {
        SweepStep(swept, kept, e);
        SweepsAreInvisible(Apply(swept, e).1, kept, events[1..], e.now);
      } else {
        assert Unswept(events)[0] == e && Unswept(events)[1..] == Unswept(events[1..]);
        MatchesApply(swept, kept, e);
        SweepsAreInvisible(Apply(swept, e).1, Apply(kept, e).1, events[1..], e.now);
      }
    }
  }

  lemma SweepStep(swept: Rows, kept: Rows, e: Event)
    requires Matches(swept, kept, e.now) && e.op.SweepTable? && ClockOk(e)
    ensures Matches(Apply(swept, e).1, kept, e.now)
  {
    MatchesSweep(swept, kept, e.op.table, e.op.cutoff, e.now);
  }

  // ----- the condition is exact -----

  function PruneAll(rows: Rows, cutoff: int): Rows {
    map k | k in rows && rows[k].expiresAt >= cutoff :: rows[k]
  }

  lemma PruneAllMatches(rows: Rows, now: int)
    ensures Matches(PruneAll(rows, now), rows, now)
  {
    forall k ensures MatchesAt(PruneAll(rows, now), rows, now, k) {
    }
  }

  /** A full sweep right before a statement changes its answer exactly when the
      statement is not calm. */
  lemma SweepShowsExactlyWhenNotCalm(rows: Rows, e: Event)
    requires !e.op.SweepTable? && ClockOk(e)
    ensures Apply(PruneAll(rows, e.now), e).0 == Apply(rows, e).0 <==> Calm(rows, e)
  {
    if Calm(rows, e) {
      PruneAllMatches(rows, e.now);
      SameAnswer(PruneAll(rows, e.now), rows, e);
    } else {
      NotCalmShows(rows, e);
    }
  }

  lemma NotCalmShows(rows: Rows, e: Event)
    requires !Calm(rows, e)
    ensures Apply(PruneAll(rows, e.now), e).0 != Apply(rows, e).0
  {
    var swept := PruneAll(rows, e.now);
    assert KeyOf(e.op) in swept <==> Live(rows, KeyOf(e.op), e.now);
    if e.op.SelectValid? || e.op.SelectAny? {
      var k :| k in rows && Picks(e.op, k, rows[k]) && rows[k].expiresAt < e.now;
      assert k in Picked(rows, e.op) && k !in Picked(swept, e.op);
    }
  }

  // ----- used once -----

  predicate UsesUp(op: Op, key: Key) {
    || (op.UseToken? && key == Key(PasswordTokens, op.id)) || (op.UseCode? && key == Key(AuthCodes, op.id))
    || (op.UseCeremony? && key == Key(Ceremonies, op.id))
  }

  predicate Spent(rows: Rows, key: Key) {
    key !in rows || (rows[key].mark == Used && key.table in {PasswordTokens, AuthCodes})
  }

  predicate Renews(op: Op, key: Key) {
    (op.Insert? && op.key == key) || (op.InsertJti? && key == Key(Jtis, op.id))
  }

  lemma UseSpends(rows: Rows, e: Event, key: Key)
    ensures UsesUp(e.op, key) && Apply(rows, e).0 != Refused ==> Spent(Apply(rows, e).1, key)
    ensures UsesUp(e.op, key) && Spent(rows, key) ==> Apply(rows, e).0 == Refused
    ensures Spent(rows, key) && !Renews(e.op, key) ==> Spent(Apply(rows, e).1, key)
  {
    hide Conflict, Picked;
  }

  /** In no run is a password token, authorization code or ceremony used twice,
      unless its key is inserted in between. */
  lemma UsedOnce(rows: Rows, events: seq<Event>, key: Key, i: nat, j: nat)
    requires i < j < |events| && UsesUp(events[i].op, key) && UsesUp(events[j].op, key)
    requires forall k :: i < k < j ==> !Renews(events[k].op, key)
    ensures Apply(After(rows, events[..i]), events[i]).0 == Refused || Apply(After(rows, events[..j]), events[j]).0 == Refused
  {
    if Apply(After(rows, events[..i]), events[i]).0 != Refused {
      SpentUntil(rows, events, key, i, j);
      UseSpends(After(rows, events[..j]), events[j], key);
    }
  }

  lemma {:induction false} SpentUntil(rows: Rows, events: seq<Event>, key: Key, i: nat, j: nat)
    requires i < j <= |events| && UsesUp(events[i].op, key) && Apply(After(rows, events[..i]), events[i]).0 != Refused
    requires forall k :: i < k < j ==> !Renews(events[k].op, key)
    ensures Spent(After(rows, events[..j]), key)
    decreases j
  {
    hide Apply, Spent;
    var before := events[..j - 1];
    assert events[..j][..j - 1] == before;
    if i < j - 1 { SpentUntil(rows, events, key, i, j - 1); }
    UseSpends(After(rows, before), events[j - 1], key);
  }

  // ----- SweepExpired -----

  const STEPS := [Sessions, AuthCodes, AuthRequests, LoginChallenges, PasswordTokens, DeviceCodes, Ceremonies, Jtis]

  /** The first so many steps. */
  function Swept(rows: Rows, steps: nat, cutoff: Table -> int): Rows
    requires steps <= |STEPS|
  {
    if steps == 0 then rows else Prune(Swept(rows, steps - 1, cutoff), STEPS[steps - 1], cutoff(STEPS[steps - 1]))
  }

  /** Without an error, exactly the rows that expired before their table's
      cutoff are gone. */
  lemma {:induction false} SweptRows(rows: Rows, steps: nat, cutoff: Table -> int, k: Key)
    requires steps <= |STEPS|
    ensures k in Swept(rows, steps, cutoff) <==> k in rows && !(k.table in STEPS[..steps] && rows[k].expiresAt < cutoff(k.table))
    ensures k in Swept(rows, steps, cutoff) ==> Swept(rows, steps, cutoff)[k] == rows[k]
  {
    if steps > 0 {
      SweptRows(rows, steps - 1, cutoff, k);
      assert STEPS[..steps] == STEPS[..steps - 1] + [STEPS[steps - 1]];
    }
  }

  /** The rows that a DELETE of the table removes. */
  function ExpiredIn(rows: Rows, table: Table, cutoff: int): set<Key> {
    set k | k in rows && k.table == table && rows[k].expiresAt < cutoff
  }

  lemma EarlierStepsDoNotMatter(rows: Rows, step: nat, cutoff: Table -> int)
    requires step < |STEPS|
    ensures ExpiredIn(Swept(rows, step, cutoff), STEPS[step], cutoff(STEPS[step])) == ExpiredIn(rows, STEPS[step], cutoff(STEPS[step]))
  {
    hide Swept;
    StepsDiffer(step);
    forall k: Key | k.table == STEPS[step]
      ensures k in Swept(rows, step, cutoff) <==> k in rows
      ensures k in rows ==> Swept(rows, step, cutoff)[k] == rows[k]
    {
      SweptRows(rows, step, cutoff, k);
    }
  }

  lemma StepsDiffer(i: nat)
    requires i < |STEPS|
    ensures STEPS[i] !in STEPS[..i]
  {
  }

  function Counts(rows: Rows, steps: nat, cutoff: Table -> int): map<Table, nat>
    requires steps <= |STEPS|
  {
    if steps == 0 then map[]
    else Counts(rows, steps - 1, cutoff)[STEPS[steps - 1] := |ExpiredIn(rows, STEPS[steps - 1], cutoff(STEPS[steps - 1]))|]
  }

  lemma {:induction false} CountsExpired(rows: Rows, steps: nat, cutoff: Table -> int, t: Table)
    requires steps <= |STEPS|
    ensures t in Counts(rows, steps, cutoff) <==> t in STEPS[..steps]
    ensures t in Counts(rows, steps, cutoff) ==> Counts(rows, steps, cutoff)[t] == |ExpiredIn(rows, t, cutoff(t))|
  {
    if steps > 0 {
      CountsExpired(rows, steps - 1, cutoff, t);
      assert STEPS[..steps] == STEPS[..steps - 1] + [STEPS[steps - 1]];
    }
  }

  /** For each table of the steps done, how many of its rows had expired. */
  ghost predicate CountsRight(rows: Rows, steps: nat, cutoff: Table -> int, counts: map<Table, nat>) {
    steps <= |STEPS|
    && (forall t :: t in counts <==> t in STEPS[..steps])
    && forall t :: t in counts ==> counts[t] == |set k | k in rows && k.table == t && rows[k].expiresAt < cutoff(t)|
  }

  lemma CountsAreRight(rows: Rows, steps: nat, cutoff: Table -> int)
    requires steps <= |STEPS|
    ensures CountsRight(rows, steps, cutoff, Counts(rows, steps, cutoff))
  {
    var counts := Counts(rows, steps, cutoff);
    forall t
      ensures t in counts <==> t in STEPS[..steps]
      ensures t in counts ==> counts[t] == |set k | k in rows && k.table == t && rows[k].expiresAt < cutoff(t)|
    {
      CountsExpired(rows, steps, cutoff, t);
      assert ExpiredIn(rows, t, cutoff(t)) == set k | k in rows && k.table == t && rows[k].expiresAt < cutoff(t);
    }
  }

  /** A sweep is a run of DELETE statements. */
  function Deletes(steps: nat, cutoff: Table -> int, now: int): seq<Event>
    requires steps <= |STEPS|
  {
    if steps == 0 then [] else Deletes(steps - 1, cutoff, now) + [At(now, SweepTable(STEPS[steps - 1], cutoff(STEPS[steps - 1])))]
  }

  function After(rows: Rows, events: seq<Event>): Rows {
    if events == [] then rows else Apply(After(rows, events[..|events| - 1]), events[|events| - 1]).1
  }

  lemma {:induction false} SweepIsARun(rows: Rows, steps: nat, cutoff: Table -> int, now: int)
    requires steps <= |STEPS|
    ensures After(rows, Deletes(steps, cutoff, now)) == Swept(rows, steps, cutoff)
  {
    hide Apply, Prune;
    if steps > 0 {
      SweepIsARun(rows, steps - 1, cutoff, now);
      var e := At(now, SweepTable(STEPS[steps - 1], cutoff(STEPS[steps - 1])));
      var d := Deletes(steps - 1, cutoff, now);
      assert (d + [e])[..|d|] == d;
      SweepIsPrune(After(rows, d), e);
    }
  }

  // ----- over a run -----

  lemma {:induction false} DeletesAreInvisible(rows: Rows, steps: nat, cutoff: Table -> int, now: int, rest: seq<Event>)
    requires steps <= |STEPS|
    ensures var d := Deletes(steps, cutoff, now);
      Unswept(d + rest) == Unswept(rest) && Answers(rows, d + rest) == Answers(Swept(rows, steps, cutoff), rest)
    decreases steps
  {
    if steps == 0 {
      assert [] + rest == rest;
    } else {
      var e := At(now, SweepTable(STEPS[steps - 1], cutoff(STEPS[steps - 1])));
      var d := Deletes(steps - 1, cutoff, now);
      assert (d + [e]) + rest == d + ([e] + rest);
      DeletesAreInvisible(rows, steps - 1, cutoff, now, [e] + rest);
      assert ([e] + rest)[1..] == rest;
    }
  }

  lemma {:induction false} DeletesAreTimed(steps: nat, cutoff: Table -> int, now: int, rest: seq<Event>)
    requires steps <= |STEPS| && Timed(now, rest) && forall t :: cutoff(t) <= now
    ensures Timed(now, Deletes(steps, cutoff, now) + rest)
    decreases steps
  {
    if steps == 0 {
      assert [] + rest == rest;
    } else {
      var e := At(now, SweepTable(STEPS[steps - 1], cutoff(STEPS[steps - 1])));
      var d := Deletes(steps - 1, cutoff, now);
      assert (d + [e]) + rest == d + ([e] + rest);
      assert ([e] + rest)[1..] == rest;
      DeletesAreTimed(steps - 1, cutoff, now, [e] + rest);
    }
  }

  lemma FullSweep(rows: Rows, now: int)
    ensures Swept(rows, |STEPS|, (_: Table) => now) == PruneAll(rows, now)
  {
    var swept := Swept(rows, |STEPS|, (_: Table) => now);
    forall k: Key
      ensures k in swept <==> k in PruneAll(rows, now)
      ensures k in swept ==> swept[k] == PruneAll(rows, now)[k]
    {
      SweptRows(rows, |STEPS|, (_: Table) => now, k);
      EveryTable(k.table);
    }
  }

  lemma EveryTable(t: Table)
    ensures t in STEPS[..|STEPS|]
  {
    assert STEPS[..|STEPS|] == STEPS;
    assert STEPS[0] == Sessions && STEPS[1] == AuthCodes && STEPS[2] == AuthRequests && STEPS[3] == LoginChallenges;
    assert STEPS[4] == PasswordTokens && STEPS[5] == DeviceCodes && STEPS[6] == Ceremonies && STEPS[7] == Jtis;
  }

  /** The run with sweeps added at some points. */
  predicate IsSweptVersion(swept: seq<Event>, events: seq<Event>, now: int) {
    Timed(now, swept) && Unswept(swept) == events
  }

  /** A sweep before the first statement that is not calm. */
  lemma SweepBefore(rows: Rows, events: seq<Event>)
    requires events != [] && !events[0].op.SweepTable? && !Calm(rows, events[0]) && Timed(events[0].now, events)
    ensures var now := events[0].now;
      var swept := Deletes(|STEPS|, (_: Table) => now, now) + events;
      && Timed(now, swept) && Unswept(swept) == Unswept(events) && Answers(rows, swept) != Answers(rows, events)
  {
    var now := events[0].now;
    var cutoff := (_: Table) => now;
    DeletesAreInvisible(rows, |STEPS|, cutoff, now, events);
    DeletesAreTimed(|STEPS|, cutoff, now, events);
    FullSweep(rows, now);
    SweepShowsExactlyWhenNotCalm(rows, events[0]);
    assert Answers(PruneAll(rows, now), events)[0] != Answers(rows, events)[0];
  }

  lemma {:induction false} SomeSweepShows(rows: Rows, events: seq<Event>, now: int) returns (swept: seq<Event>)
    requires IsSweptVersion(events, events, now) && !AllCalm(rows, events)
    ensures IsSweptVersion(swept, events, now) && Answers(rows, swept) != Answers(rows, events)
    decreases |events|
  {
    var e := events[0];
    UnsweptHasNone(events);
    if !Calm(rows, e) {
      SweepBefore(rows, events);
      swept := Deletes(|STEPS|, (_: Table) => e.now, e.now) + events;
      TimedSooner(swept, e.now, now);
    } else {
      var rest := SomeSweepShows(Apply(rows, e).1, events[1..], e.now);
      swept := [e] + rest;
      assert swept[1..] == rest;
      assert Answers(rows, swept)[1..] == Answers(Apply(rows, e).1, rest);
      assert Answers(rows, events)[1..] == Answers(Apply(rows, e).1, events[1..]);
    }
  }

  lemma TimedSooner(events: seq<Event>, now: int, sooner: int)
    requires Timed(now, events) && sooner <= now
    ensures Timed(sooner, events)
  {
  }

  lemma {:induction false} UnsweptHasNone(events: seq<Event>)
    requires events != [] && Unswept(events) == events
    ensures !events[0].op.SweepTable? && Unswept(events[1..]) == events[1..]
  {
    UnsweptIsShorter(events[1..]);
    if !events[0].op.SweepTable? {
      assert Unswept(events)[1..] == Unswept(events[1..]);
    }
  }

  lemma {:induction false} UnsweptIsShorter(events: seq<Event>)
    ensures |Unswept(events)| <= |events|
    decreases |events|
  {
    if events != [] { UnsweptIsShorter(events[1..]); }
  }

  predicate SameAnswers(rows: Rows, swept: seq<Event>, events: seq<Event>) {
    Answers(rows, swept) == Answers(rows, events)
  }

  /** Sweeps change no answer of a run, wherever they are put: if and only if
      every statement of the run is calm. */
  lemma SweepsInvisibleExactlyWhenCalm(rows: Rows, events: seq<Event>, now: int)
    requires IsSweptVersion(events, events, now)
    ensures (forall swept {:trigger SameAnswers(rows, swept, events)} :: IsSweptVersion(swept, events, now) ==> SameAnswers(rows, swept, events))
       <==> AllCalm(rows, events)
  {
    if AllCalm(rows, events) {
      MatchesItself(rows, now);
      forall swept | IsSweptVersion(swept, events, now) ensures SameAnswers(rows, swept, events) {
        SweepsAreInvisible(rows, rows, swept, now);
      }
    } else {
      var swept := SomeSweepShows(rows, events, now);
      assert !SameAnswers(rows, swept, events);
    }
  }

  lemma MatchesItself(rows: Rows, now: int)
    ensures Matches(rows, rows, now)
  {
    forall k ensures MatchesAt(rows, rows, now, k) {
    }
  }

  // ----- each of the conditions can fail -----

  lemma FirstAnswer(rows: Rows, e: Event, rest: seq<Event>)
    ensures Answers(rows, [e] + rest) == (if e.op.SweepTable? then [] else [Apply(rows, e).0]) + Answers(Apply(rows, e).1, rest)
    ensures Unswept([e] + rest) == (if e.op.SweepTable? then [] else [e]) + Unswept(rest)
    ensures forall now :: Timed(now, [e] + rest) <==> now <= e.now && ClockOk(e) && Timed(e.now, rest)
  {
    assert ([e] + rest)[1..] == rest;
  }

  /** From empty tables, two statements and a third: the same run without and
      with the sweep of a table right before the third. */
  predicate SweepTells(a: Event, b: Event, table: Table, c: Event, before: seq<Answer>, plain: Answer, swept: Answer) {
    var events := [a, b, c];
    var sweep := At(c.now, SweepTable(table, c.now));
    && IsSweptVersion(events, events, a.now) && IsSweptVersion([a, b, sweep, c], events, a.now)
    && Answers(map[], events) == before + [plain] && Answers(map[], [a, b, sweep, c]) == before + [swept]
  }

  lemma ThreeStatements(a: Event, b: Event, table: Table, c: Event)
    requires !a.op.SweepTable? && !b.op.SweepTable? && !c.op.SweepTable?
    requires a.now <= b.now <= c.now && ClockOk(a) && ClockOk(b) && ClockOk(c)
    ensures var first := Apply(map[], a);
      var second := Apply(first.1, b);
      SweepTells(a, b, table, c, [first.0, second.0], Apply(second.1, c).0, Apply(Prune(second.1, table, c.now), c).0)
  {
    hide Apply, Prune, Unswept, Timed, ClockOk;
    var start: Rows := map[];
    var one := Apply(start, a).1;
    var two := Apply(one, b).1;
    var sweep := At(c.now, SweepTable(table, c.now));
    NoStatements(two, c.now);
    FirstAnswer(two, c, []);
    FirstAnswer(two, sweep, [c]);
    FirstAnswer(one, b, [c]);
    FirstAnswer(one, b, [sweep, c]);
    FirstAnswer(start, a, [b, c]);
    FirstAnswer(start, a, [b, sweep, c]);
    SweepIsPrune(two, sweep);
    assert ClockOk(sweep) by { SweepsOnTime(sweep); }
    assert [a] + [b, c] == [a, b, c] && [a] + [b, sweep, c] == [a, b, sweep, c];
    assert [b] + [c] == [b, c] && [b] + [sweep, c] == [b, sweep, c] && [sweep] + [c] == [sweep, c] && [c] + [] == [c];
  }

  lemma NoStatements(rows: Rows, now: int)
    ensures Answers(rows, []) == [] && Unswept([]) == [] && Timed(now, [])
  {
  }

  lemma SweepsOnTime(e: Event)
    requires e.op.SweepTable? && e.op.cutoff <= e.now
    ensures ClockOk(e)
  {
  }

  lemma SweepIsPrune(rows: Rows, e: Event)
    requires e.op.SweepTable?
    ensures Apply(rows, e).1 == Prune(rows, e.op.table, e.op.cutoff)
  {
  }

  /** A reset token is used up just before it expires, a sweep passes, and the
      statement that reads it back finds nothing. */
  lemma TokenLostAfterUse(key: Key, row: Row)
    requires key.table == PasswordTokens && row.mark == Unused && row.expiresAt == 5
    ensures SweepTells(At(0, Insert(key, row)), At(4, UseToken(key.id, 4)), PasswordTokens, At(6, SelectAny(ById(key))),
      [Done, Done], Found(map[key := row.(mark := Used)]), Found(map[]))
  {
    ThreeStatements(At(0, Insert(key, row)), At(4, UseToken(key.id, 4)), PasswordTokens, At(6, SelectAny(ById(key))));
    var used: Rows := map[key := row.(mark := Used)];
    var start: Rows := map[];
    assert start[key := row][key := row.(mark := Used)] == used;
    assert Picked(used, SelectAny(ById(key))) == used;
    assert Picked(Prune(used, PasswordTokens, 6), SelectAny(ById(key))) == map[];
  }

  /** A verified identifier is kept by the caller's own clean-up, and forgotten by
      a sweep before the caller records it: a replay is taken for new. */
  lemma ReplayAfterSweep(id: string)
    ensures SweepTells(At(0, InsertJti(id, 5)), At(4, PruneJtis(4)), Jtis, At(6, InsertJti(id, 10)), [Done, Done], Refused, Done)
  {
    ThreeStatements(At(0, InsertJti(id, 5)), At(4, PruneJtis(4)), Jtis, At(6, InsertJti(id, 10)));
  }

  /** A new device code draws the user code of an expired one. */
  lemma UserCodeTaken(key: Key, row: Row, other: Key, shared: Unique)
    requires key.table == other.table == DeviceCodes && key != other && row.mark == Pending && row.expiresAt == 5 && shared in row.uniques
    ensures SweepTells(At(0, Insert(key, row)), At(4, Move(key.id, Pending, Denied)), DeviceCodes,
      At(6, Insert(other, Row(10, Pending, "", 0, {shared}))), [Done, Done], Refused, Done)
  {
    var c := At(6, Insert(other, Row(10, Pending, "", 0, {shared})));
    ThreeStatements(At(0, Insert(key, row)), At(4, Move(key.id, Pending, Denied)), DeviceCodes, c);
    var start: Rows := map[];
    var denied := start[key := row][key := row.(mark := Denied)];
    assert shared in denied[key].uniques * {shared};
    assert Clashes(denied, key, other, c.op.row);
  }

  /** A device code is found in time, expires, and is approved only if it has not
      been swept. */
  lemma LateApproval(key: Key, row: Row)
    requires key.table == DeviceCodes && row.mark == Pending && row.expiresAt == 5
    ensures SweepTells(At(0, Insert(key, row)), At(4, Select(ById(key), 4)), DeviceCodes, At(6, Move(key.id, Pending, Approved)),
      [Done, Found(map[key := row])], Done, Refused)
  {
    ThreeStatements(At(0, Insert(key, row)), At(4, Select(ById(key), 4)), DeviceCodes, At(6, Move(key.id, Pending, Approved)));
    var start: Rows := map[];
    assert Picked(start[key := row], Select(ById(key), 4)) == map[key := row];
  }

  class Store {
    var rows: Rows

    method DeleteExpired(table: Table, cutoff: int) returns (deleted: nat)
      modifies this
      ensures rows == Prune(old(rows), table, cutoff) && deleted == |ExpiredIn(old(rows), table, cutoff)|
    {
      var kept := Prune(rows, table, cutoff);
      assert kept.Keys + ExpiredIn(rows, table, cutoff) == rows.Keys;
      deleted := |rows.Keys| - |kept.Keys|;
      rows := kept;
    }

    /** The steps run in order until one fails; the counts are those of the
        steps before it. */
    method SweepExpired(cutoff: Table -> int, fails: Table -> bool) returns (counts: map<Table, nat>, ok: bool, ghost steps: nat)
      modifies this
      ensures steps <= |STEPS| && rows == Swept(old(rows), steps, cutoff) && counts == Counts(old(rows), steps, cutoff)
      ensures if ok then steps == |STEPS| else steps < |STEPS| && fails(STEPS[steps])
      ensures forall i :: 0 <= i < steps ==> !fails(STEPS[i])
      ensures CountsRight(old(rows), steps, cutoff, counts)
    {
      hide ExpiredIn, CountsRight;
      counts, steps := map[], 0;
      for i := 0 to |STEPS|
        invariant steps == i && rows == Swept(old(rows), i, cutoff) && counts == Counts(old(rows), i, cutoff)
        invariant forall j :: 0 <= j < i ==> !fails(STEPS[j])
      {
        CountsAreRight(old(rows), i, cutoff);
        if fails(STEPS[i]) {
          return counts, false, steps;
        }
        EarlierStepsDoNotMatter(old(rows), i, cutoff);
        var n := DeleteExpired(STEPS[i], cutoff(STEPS[i]));
        counts, steps := counts[STEPS[i] := n], i + 1;
      }
      CountsAreRight(old(rows), |STEPS|, cutoff);
      ok := true;
    }
  }
}
