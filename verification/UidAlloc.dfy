/** Uids of cached users: linear probing from a hash of the subject. A probe
    and the save that follows it are one step. */
module UidAlloc {
  import opened Options

  const UID_START := 200000
  const UID_SIZE := 100000
  const PROBES := 1000

  type Subject = seq<bv8>

  datatype Entry = Entry(sub: Subject, uid: int)

  /** localUids is None when the local account file cannot be read. */
  datatype State = State(localUids: Option<set<int>>, localNames: set<string>, users: map<string, Entry>)

  /** 32-bit FNV-1a. */
  function Fnv(h: bv32, s: seq<bv8>): bv32
    decreases |s|
  {
    if s == [] then h else Fnv((h ^ (s[0] as bv32)) * 16777619, s[1..])
  }

  function UidFor(sub: Subject): (r: int)
    ensures UID_START <= r < UID_START + UID_SIZE
  {
    UID_START + Fnv(2166136261, sub) as int % UID_SIZE
  }

  /** The first published test vectors of the hash. */
  lemma FnvVectors()
    ensures Fnv(2166136261, []) == 0x811c9dc5 && Fnv(2166136261, [97]) == 0xe40c292c
  {
  }

  /** The uids of the cached users with another subject. */
  function Taken(users: map<string, Entry>, sub: Subject): set<int> {
    set n | n in users && users[n].sub != sub :: users[n].uid
  }

  function Probe(uid: int, n: nat, blocked: set<int>): Option<int>
    decreases n
  {
    if n == 0 then None
    else if uid !in blocked then Some(uid)
    else Probe(uid + 1, n - 1, blocked)
  }

  function Blocked(s: State, sub: Subject): set<int>
    requires s.localUids.Some?
  {
    s.localUids.value + Taken(s.users, sub)
  }

  function Allocate(s: State, sub: Subject): Option<int> {
    if s.localUids.None? then None else Probe(UidFor(sub), PROBES, Blocked(s, sub))
  }

  datatype Event =
    | LocalFile(uids: Option<set<int>>, names: set<string>)
    | FirstLogin(name: string, sub: Subject)
    | LaterLogin(name: string, sub: Subject)
    | Owner(name: string, sub: Subject)
    | Lookup(name: string, username: string, sub: Subject)
    | Remove(name: string)

  function Save(s: State, name: string, sub: Subject): State {
    var uid := Allocate(s, sub);
    if uid.None? then s else s.(users := s.users[name := Entry(sub, uid.value)])
  }

  function Step(s: State, e: Event): State {
    match e
    case LocalFile(uids, names) => s.(localUids := uids, localNames := names)
    case FirstLogin(name, sub) =>
      if name in s.localNames || sub == [] || name in s.users then s else Save(s, name, sub)
    case LaterLogin(name, sub) =>
      if name in s.localNames || sub == [] || name !in s.users || (s.users[name].sub != [] && s.users[name].sub != sub) then s
      else s.(users := s.users[name := s.users[name].(sub := sub)])
    case Owner(name, sub) =>
      if sub == [] || name in s.users || name in s.localNames then s else Save(s, name, sub)
    case Lookup(name, username, sub) =>
      if name in s.users || name in s.localNames then s else Save(s, username, sub)
    case Remove(name) => s.(users := s.users - {name})
  }

  function Run(s: State, events: seq<Event>): State
    decreases |events|
  {
    if events == [] then s else Run(Step(s, events[0]), events[1..])
  }

  // ----- probing -----

  predicate AllBlocked(uid: int, n: nat, blocked: set<int>) {
    forall k :: uid <= k < uid + n ==> k in blocked
  }

  /** The first free uid of the window, if there is one. */
  lemma {:induction false} ProbeFindsFirstFree(uid: int, n: nat, blocked: set<int>)
    ensures Probe(uid, n, blocked).None? <==> AllBlocked(uid, n, blocked)
    ensures Probe(uid, n, blocked).Some? ==>
      var r := Probe(uid, n, blocked).value;
      && uid <= r < uid + n && r !in blocked && AllBlocked(uid, r - uid, blocked)
    decreases n
  {
    if n > 0 { ProbeFindsFirstFree(uid + 1, n - 1, blocked); }
  }

  function Window(uid: int, n: nat): (s: set<int>)
    ensures |s| == n && forall k :: k in s <==> uid <= k < uid + n
  {
    if n == 0 then {} else Window(uid, n - 1) + {uid + n - 1}
  }

  lemma BlockedWindowIsLarge(uid: int, n: nat, blocked: set<int>)
    requires AllBlocked(uid, n, blocked)
    ensures |blocked| >= n
  {
    var w := Window(uid, n);
    assert w <= blocked;
    assert blocked == w + (blocked - w);
  }

  predicate InRange(uid: int) {
    UID_START <= uid < UID_START + UID_SIZE + 1000
  }

  /** Fewer than 1000 blocked uids cannot defeat the probe. */
  lemma AllocationSucceeds(s: State, sub: Subject)
    requires s.localUids.Some? && |Blocked(s, sub)| < PROBES
    ensures Allocate(s, sub).Some?
  {
    ProbeFindsFirstFree(UidFor(sub), PROBES, Blocked(s, sub));
    if AllBlocked(UidFor(sub), PROBES, Blocked(s, sub)) {
      BlockedWindowIsLarge(UidFor(sub), PROBES, Blocked(s, sub));
    }
  }

  /** An allocated uid is free in the local file, in the range that lookups
      accept, and held by no other subject. */
  lemma AllocatedIsFree(s: State, sub: Subject)
    requires Allocate(s, sub).Some?
    ensures var uid := Allocate(s, sub).value;
      && uid !in s.localUids.value && InRange(uid)
      && forall n :: n in s.users && s.users[n].uid == uid ==> s.users[n].sub == sub
  {
    ProbeFindsFirstFree(UidFor(sub), PROBES, Blocked(s, sub));
  }

  /** The step caches the name with a newly allocated uid. */
  predicate Caches(s: State, e: Event, n: string) {
    match e
    case FirstLogin(name, sub) => name == n && name !in s.localNames && sub != [] && name !in s.users && Allocate(s, sub).Some?
    case Owner(name, sub) => name == n && name !in s.localNames && sub != [] && name !in s.users && Allocate(s, sub).Some?
    case Lookup(name, username, sub) => username == n && name !in s.localNames && name !in s.users && Allocate(s, sub).Some?
    case _ => false
  }

  predicate NamesSubject(s: State, e: Event, n: string) {
    e.LaterLogin? && e.name == n && n !in s.localNames && e.sub != [] && n in s.users && s.users[n].sub == []
  }

  /** Every step changes the cache exactly so: an entry comes with the subject
      and an allocated uid, keeps its uid until it is removed or cached anew, and
      is given a subject only if it has none. */
  lemma EntriesMove(s: State, e: Event, n: string)
    ensures var users := Step(s, e).users;
      && (n in users <==> Caches(s, e, n) || (n in s.users && e != Remove(n)))
      && (Caches(s, e, n) ==> users[n].sub == e.sub && Allocate(s, e.sub) == Some(users[n].uid))
      && (!Caches(s, e, n) && n in users ==>
            && users[n].uid == s.users[n].uid
            && users[n].sub == if NamesSubject(s, e, n) then e.sub else s.users[n].sub)
  {
    hide Allocate;
  }

  // ----- every run -----

  predicate Apart(users: map<string, Entry>, n: string, m: string)
    requires n in users && m in users
  {
    users[n].sub != users[m].sub ==> users[n].uid != users[m].uid
  }

  ghost predicate AllApart(users: map<string, Entry>) {
    forall n, m {:trigger Apart(users, n, m)} :: n in users && m in users ==> Apart(users, n, m)
  }

  /** An online login gives a subject to an entry that was cached without one
      and shares its uid with another entry. */
  ghost predicate Splits(s: State, e: Event) {
    && e.LaterLogin? && e.name !in s.localNames && e.sub != [] && e.name in s.users && s.users[e.name].sub == []
    && exists m :: m in s.users && m != e.name && s.users[m].uid == s.users[e.name].uid
  }

  lemma SaveApart(s: State, name: string, sub: Subject)
    requires AllApart(s.users)
    ensures AllApart(Save(s, name, sub).users)
  {
    if Allocate(s, sub).Some? {
      AllocatedIsFree(s, sub);
      var s' := Save(s, name, sub);
      forall n, m | n in s'.users && m in s'.users ensures Apart(s'.users, n, m) {
        if n != name && m != name { assert Apart(s.users, n, m); }
      }
    }
  }

  lemma LaterLoginApart(s: State, e: Event)
    requires AllApart(s.users) && e.LaterLogin?
    ensures AllApart(Step(s, e).users) <==> !Splits(s, e)
  {
    var s' := Step(s, e);
    if Splits(s, e) {
      var m :| m in s.users && m != e.name && s.users[m].uid == s.users[e.name].uid;
      assert Apart(s.users, m, e.name);
      assert !Apart(s'.users, m, e.name);
    } else {
      forall n, m | n in s'.users && m in s'.users ensures Apart(s'.users, n, m) {
        assert Apart(s.users, n, m);
      }
    }
  }

  /** A step sets two subjects on one uid exactly when it splits. */
  lemma StepApart(s: State, e: Event)
    requires AllApart(s.users)
    ensures AllApart(Step(s, e).users) <==> !Splits(s, e)
  {
    match e
    case FirstLogin(name, sub) => SaveApart(s, name, sub);
    case Owner(name, sub) => SaveApart(s, name, sub);
    case Lookup(_, username, sub) => SaveApart(s, username, sub);
    case LaterLogin(_, _) => LaterLoginApart(s, e);
    case Remove(_) =>
      var s' := Step(s, e);
      forall n, m | n in s'.users && m in s'.users ensures Apart(s'.users, n, m) {
        assert Apart(s.users, n, m);
      }
    case LocalFile(_, _) =>
  }

  ghost predicate NeverSplits(s: State, events: seq<Event>)
    decreases |events|
  {
    events == [] || (!Splits(s, events[0]) && NeverSplits(Step(s, events[0]), events[1..]))
  }

  /** After the first k events. */
  function At(s: State, events: seq<Event>, k: nat): State {
    if k <= |events| then Run(s, events[..k]) else s
  }

  lemma AtNext(s: State, events: seq<Event>, k: nat)
    requires k < |events|
    ensures At(s, events, k + 1) == At(Step(s, events[0]), events[1..], k)
  {
    assert events[..k + 1][1..] == events[1..][..k];
  }

  lemma {:induction false} RunApart(s: State, events: seq<Event>)
    requires AllApart(s.users)
    ensures NeverSplits(s, events) <==> forall k {:trigger At(s, events, k)} :: 0 <= k <= |events| ==> AllApart(At(s, events, k).users)
    decreases |events|
  {
    if events != [] {
      var s' := Step(s, events[0]);
      StepApart(s, events[0]);
      AtNext(s, events, 0);
      if !Splits(s, events[0]) {
        RunApart(s', events[1..]);
        forall k: nat | k < |events| ensures At(s, events, k + 1) == At(s', events[1..], k) {
          AtNext(s, events, k);
        }
        assert forall k {:trigger At(s, events, k)} :: 1 <= k <= |events| ==> At(s, events, k) == At(s', events[1..], k - 1);
      }
    }
  }

  lemma {:induction false} RunInRange(s: State, events: seq<Event>)
    requires AllInRange(s.users)
    ensures AllInRange(Run(s, events).users)
    decreases |events|
  {
    if events != [] {
      StepInRange(s, events[0]);
      RunInRange(Step(s, events[0]), events[1..]);
    }
  }

  predicate AllInRange(users: map<string, Entry>) {
    forall n :: n in users ==> InRange(users[n].uid)
  }

  lemma StepInRange(s: State, e: Event)
    requires AllInRange(s.users)
    ensures AllInRange(Step(s, e).users)
  {
    if !e.LocalFile? && !e.Remove? && Allocate(s, e.sub).Some? { AllocatedIsFree(s, e.sub); }
  }

  function Initial(uids: Option<set<int>>, names: set<string>): State {
    State(uids, names, map[])
  }

  /** In every state of a run, whatever happens to the local file, two users
      never share a uid: if and only if no login of the run splits one. */
  lemma DifferentSubjectsDifferentUids(uids: Option<set<int>>, names: set<string>, events: seq<Event>)
    ensures var s := Initial(uids, names);
      (forall k {:trigger At(s, events, k)} :: 0 <= k <= |events| ==> AllApart(At(s, events, k).users)) <==> NeverSplits(s, events)
  {
    RunApart(Initial(uids, names), events);
  }

  /** The first entry with the uid, in directory order. */
  function FirstWithUid(users: map<string, Entry>, order: seq<string>, uid: int): Option<string> {
    if order == [] then None
    else if order[0] in users && users[order[0]].uid == uid then Some(order[0])
    else FirstWithUid(users, order[1..], uid)
  }

  lemma {:induction false} FirstWithUidFinds(users: map<string, Entry>, order: seq<string>, uid: int)
    ensures FirstWithUid(users, order, uid).Some? <==> exists n :: n in order && n in users && users[n].uid == uid
    ensures var r := FirstWithUid(users, order, uid); r.Some? ==> r.value in users && users[r.value].uid == uid
  {
    if order != [] { FirstWithUidFinds(users, order[1..], uid); }
  }

  predicate IsFirst(users: map<string, Entry>, order: seq<string>, uid: int, i: int)
    requires 0 <= i < |order|
  {
    && order[i] in users && users[order[i]].uid == uid
    && forall j :: 0 <= j < i ==> order[j] in users ==> users[order[j]].uid != uid
  }

  function ByUid(s: State, order: seq<string>, uid: int): Option<string> {
    if !InRange(uid) then None else FirstWithUid(s.users, order, uid)
  }

  ghost predicate Lists(order: seq<string>, users: map<string, Entry>) {
    forall n :: n in users <==> n in order
  }

  predicate ResolvesSame(s: State, order: seq<string>, n: string)
    requires n in s.users
  {
    var r := ByUid(s, order, s.users[n].uid);
    r.Some? && r.value in s.users && s.users[r.value].sub == s.users[n].sub
  }

  /** Looking up the uid of a resolved name finds an entry with its subject. */
  ghost predicate AllResolve(s: State, order: seq<string>) {
    forall n {:trigger ResolvesSame(s, order, n)} :: n in s.users ==> ResolvesSame(s, order, n)
  }

  lemma ResolvesExactlyWhenApart(s: State, order: seq<string>)
    requires AllInRange(s.users) && Lists(order, s.users)
    ensures AllResolve(s, order) <==> AllApart(s.users)
  {
    forall n | n in s.users ensures ByUid(s, order, s.users[n].uid).Some? {
      FirstWithUidFinds(s.users, order, s.users[n].uid);
    }
    if AllApart(s.users) {
      forall n | n in s.users ensures ResolvesSame(s, order, n) {
        FirstWithUidFinds(s.users, order, s.users[n].uid);
        assert Apart(s.users, ByUid(s, order, s.users[n].uid).value, n);
      }
    }
    if AllResolve(s, order) {
      forall n, m | n in s.users && m in s.users ensures Apart(s.users, n, m) {
        assert ResolvesSame(s, order, n) && ResolvesSame(s, order, m);
      }
    }
  }

  /** Every directory can be listed. */
  lemma {:induction false} Listing(names: set<string>) returns (order: seq<string>)
    ensures forall n :: n in names <==> n in order
  {
    if names == {} {
      order := [];
    } else {
      var n :| n in names;
      var rest := Listing(names - {n});
      order := [n] + rest;
    }
  }

  ghost predicate AlwaysResolve(s: State) {
    forall order {:trigger AllResolve(s, order)} :: Lists(order, s.users) ==> AllResolve(s, order)
  }

  /** In every state of a run, whatever the order of the directory, looking up
      a resolved name's uid finds its subject: if and only if no login of the
      run splits a uid. */
  lemma UidResolvesToSameSubject(uids: Option<set<int>>, names: set<string>, events: seq<Event>)
    ensures var s := Initial(uids, names);
      (forall k {:trigger At(s, events, k)} :: 0 <= k <= |events| ==> AlwaysResolve(At(s, events, k))) <==> NeverSplits(s, events)
  {
    var s := Initial(uids, names);
    RunApart(s, events);
    forall k | 0 <= k <= |events| ensures AlwaysResolve(At(s, events, k)) <==> AllApart(At(s, events, k).users) {
      RunInRange(s, events[..k]);
      AlwaysExactlyWhenApart(At(s, events, k));
    }
  }

  lemma AlwaysExactlyWhenApart(s: State)
    requires AllInRange(s.users)
    ensures AlwaysResolve(s) <==> AllApart(s.users)
  {
    forall order | Lists(order, s.users) ensures AllResolve(s, order) <==> AllApart(s.users) {
      ResolvesExactlyWhenApart(s, order);
    }
    var order := Listing(s.users.Keys);
    assert Lists(order, s.users);
  }

  /** While lookups name subjects, nothing splits. */
  lemma {:induction false} NamedSubjectsNeverSplit(s: State, events: seq<Event>)
    requires forall n :: n in s.users ==> s.users[n].sub != []
    requires forall i :: 0 <= i < |events| && events[i].Lookup? ==> events[i].sub != []
    ensures NeverSplits(s, events)
    decreases |events|
  {
    if events != [] {
      NamedSubjectsNeverSplit(Step(s, events[0]), events[1..]);
    }
  }

  // ----- lookups that name no subject -----

  /** Two lookups without a subject share a uid, and keep it when later logins
      give them different subjects: any two subjects can end up so. */
  lemma EmptySubjectsShareAUid(n: string, m: string, a: Subject, b: Subject) returns (events: seq<Event>)
    requires n != m && a != b && a != [] && b != []
    ensures var users := Run(Initial(Some({}), {}), events).users;
      && n in users && m in users && users[n].sub == a && users[m].sub == b && users[n].uid == users[m].uid == 236261
  {
    FnvVectors();
    var s := Initial(Some({}), {});
    events := [Lookup(n, n, []), Lookup(m, m, []), LaterLogin(n, a), LaterLogin(m, b)];
    var s1, uid := Step(s, events[0]), UidFor([]);
    EmptyLookup(s, n);
    EmptyLookup(s1, m);
    var s2 := Step(s1, events[1]);
    var s3 := Step(s2, events[2]);
    RunFour(s, events);
  }

  lemma EmptyLookup(s: State, n: string)
    requires s.localUids == Some({}) && s.localNames == {} && n !in s.users
    requires forall m :: m in s.users ==> s.users[m].sub == []
    ensures Step(s, Lookup(n, n, [])) == s.(users := s.users[n := Entry([], UidFor([]))])
  {
    assert Taken(s.users, []) == {};
    assert Blocked(s, []) == {};
  }

  lemma RunFour(s: State, events: seq<Event>)
    requires |events| == 4
    ensures Run(s, events) == Step(Step(Step(Step(s, events[0]), events[1]), events[2]), events[3])
  {
    RunTwo(s, events);
    RunTwo(Step(Step(s, events[0]), events[1]), events[2..]);
  }

  lemma RunTwo(s: State, events: seq<Event>)
    requires |events| >= 2
    ensures Run(s, events) == Run(Step(Step(s, events[0]), events[1]), events[2..])
  {
    assert events[1..][1..] == events[2..];
    assert Run(s, events) == Run(Step(s, events[0]), events[1..]);
  }

  // ----- the agent -----

  class Agent {
    var localUids: Option<set<int>>
    var localNames: set<string>
    var users: map<string, Entry>

    ghost function Contents(): State
      reads this
    {
      State(localUids, localNames, users)
    }

    /** order lists the cached users. */
    method AllocateUID(sub: Subject, order: seq<string>) returns (r: Option<int>)
      requires Lists(order, users)
      ensures r == Allocate(Contents(), sub)
    {
      var taken: set<int> := {};
      for i := 0 to |order|
        invariant taken == set j | 0 <= j < i && users[order[j]].sub != sub :: users[order[j]].uid
      {
        if users[order[i]].sub != sub {
          taken := taken + {users[order[i]].uid};
        }
      }
      assert taken == Taken(users, sub);
      if localUids.None? {
        return None;
      }
      var uid := UidFor(sub);
      for i := 0 to PROBES
        invariant uid == UidFor(sub) + i
        invariant Allocate(Contents(), sub) == Probe(uid, PROBES - i, Blocked(Contents(), sub))
      {
        if uid !in localUids.value && uid !in taken {
          return Some(uid);
        }
        uid := uid + 1;
      }
      return None;
    }

    method LookupByUID(uid: int, order: seq<string>) returns (r: Option<string>)
      requires Lists(order, users)
      ensures r == ByUid(Contents(), order, uid)
      ensures r.None? <==> !(200000 <= uid < 301000) || forall n :: n in users ==> users[n].uid != uid
      ensures r.Some? ==> exists i :: 0 <= i < |order| && IsFirst(users, order, uid, i) && r == Some(order[i])
    {
      if uid < UID_START || uid >= UID_START + UID_SIZE + 1000 {
        return None;
      }
      for i := 0 to |order|
        invariant FirstWithUid(users, order, uid) == FirstWithUid(users, order[i..], uid)
        invariant forall j :: 0 <= j < i ==> users[order[j]].uid != uid
      {
        if users[order[i]].uid == uid {
          assert IsFirst(users, order, uid, i);
          return Some(order[i]);
        }
      }
      return None;
    }

    /** The online half of a name lookup, when the server knows the user. */
    method CacheIdentity(name: string, username: string, sub: Subject, order: seq<string>) returns (ok: bool)
      requires Lists(order, users)
      modifies this`users
      ensures Contents() == Step(old(Contents()), Lookup(name, username, sub))
      ensures ok <==> name !in old(users) && name !in localNames && Allocate(old(Contents()), sub).Some?
      ensures !ok ==> users == old(users)
      ensures ok ==>
        && username in users && users == old(users)[username := users[username]]
        && users[username].sub == sub && Allocate(old(Contents()), sub) == Some(users[username].uid)
    {
      if name in users || name in localNames {
        return false;
      }
      var uid := AllocateUID(sub, order);
      if uid.None? {
        return false;
      }
      users := users[username := Entry(sub, uid.value)];
      return true;
    }
  }
}
