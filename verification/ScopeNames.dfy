/** The grant model's sets of names stand for the scope words of the handlers. */
module ScopeNames {
  import opened Options
  import opened GrantStore
  import opened Grants
  import opened Scopes

  /** Different words have different names. */
  ghost predicate Injective(naming: string -> Name) {
    forall u, v :: naming(u) == naming(v) ==> u == v
  }

  function Named(naming: string -> Name, words: set<string>): set<Name> {
    set w | w in words :: naming(w)
  }

  /** Naming words keeps inclusion, intersection and emptiness. */
  lemma NamesKeepSets(naming: string -> Name, a: set<string>, b: set<string>)
    requires Injective(naming)
    ensures Named(naming, a) <= Named(naming, b) <==> a <= b
    ensures Named(naming, a) * Named(naming, b) == Named(naming, a * b)
    ensures Named(naming, a) == {} <==> a == {}
  {
    if Named(naming, a) <= Named(naming, b) {
      forall w | w in a ensures w in b {
        assert naming(w) in Named(naming, a);
      }
    }
    forall w | w in a ensures naming(w) in Named(naming, a) {
    }
  }

  /** The scope parameter of an exchange, as the grant model has it. */
  function Wanted(naming: string -> Name, requested: string): Option<set<Name>> {
    if ScopeSet(requested) == {} then None else Some(Named(naming, ScopeSet(requested)))
  }

  /** The machine's exchange answers with the names of the words on which the
      handler decides, or refuses as the handler does. */
  lemma ExchangeInWords(naming: string -> Name, db: Db, id: Name, rt: RefreshToken, device: Name, audience: Name,
                        requested: string, granted: string, allowed: seq<string>)
    requires Injective(naming) && rt.scope == Named(naming, ScopeSet(granted))
    requires audience in db.audiences && db.audiences[audience] == Named(naming, Elements(allowed))
    ensures var r := ExchangedWords(ScopeSet(requested), ScopeSet(granted), Elements(allowed));
      ExecExchange(db, ExchangeTarget(id, rt, device, audience, Wanted(naming, requested)))
      == Outcome(if r.None? then db else Respond(db, Exchanged(id, device, audience, Named(naming, r.value), db.audiences[audience])), Done)
  {
    var g, w := ScopeSet(granted), Elements(allowed);
    NamesKeepSets(naming, g, w);
    NamesKeepSets(naming, ScopeSet(requested), g);
    NamesKeepSets(naming, ScopeSet(requested), w);
    NamesKeepSets(naming, g * w, g);
    NamesKeepSets(naming, g * w, w);
    hide ScopeSet, Elements, Named;
  }

  /** So does a refresh: the machine's down-scoping check is the handler's. */
  lemma DownscopeInWords(naming: string -> Name, db: Db, id: Name, rt: RefreshToken, jkt: Name, device: Name,
                         requested: string, granted: string, a: Arg)
    requires Injective(naming) && rt.scope == Named(naming, ScopeSet(granted))
    ensures var wanted := Some(Named(naming, ScopeSet(requested)));
      Downscoped(db, id, rt, jkt, device, wanted, a).next.RefreshRotate? <==> ScopeSet(requested) <= ScopeSet(granted)
  {
    NamesKeepSets(naming, ScopeSet(requested), ScopeSet(granted));
  }
}
