/** Families of refresh tokens: the chains linked by rotated_from, and what
    every statement on the table keeps about them. */
module TokenFamilies {
  import opened GrantStore

  type Table = map<Name, RefreshToken>
  type Lines = map<Name, seq<Name>>

  /** The same row, but possibly revoked in between. */
  predicate SameToken(a: RefreshToken, b: RefreshToken) {
    a.(revoked := b.revoked) == b
  }

  /** What a token takes over from the one it replaces. */
  predicate Inherits(parent: RefreshToken, child: RefreshToken) {
    && child.client == parent.client && child.user == parent.user && child.amr == parent.amr
    && child.authTime == parent.authTime && child.device == parent.device
    && child.scope <= parent.scope
    && (parent.jkt != NONE ==> child.jkt == parent.jkt)
  }

  /** The first token of t's family. */
  function Root(lines: Lines, t: Name): Name {
    if t in lines && |lines[t]| > 0 then lines[t][|lines[t]| - 1] else NONE
  }

  /** The recorded line of t runs from t by rotated_from to the first token. */
  predicate LineAt(ts: Table, lines: Lines, t: Name) {
    && t in ts && t in lines && |lines[t]| > 0 && lines[t][0] == t
    && Root(lines, t) in ts && ts[Root(lines, t)].rotatedFrom == NONE
    && (if ts[t].rotatedFrom == NONE then lines[t] == [t]
        else ts[t].rotatedFrom in lines && lines[t] == [t] + lines[ts[t].rotatedFrom])
  }

  predicate LinkAt(ts: Table, t: Name) {
    t in ts && (ts[t].rotatedFrom != NONE ==>
      && ts[t].rotatedFrom in ts && ts[ts[t].rotatedFrom].revoked && Inherits(ts[ts[t].rotatedFrom], ts[t]))
  }

  predicate Siblings(ts: Table, t: Name, u: Name) {
    t in ts && u in ts && ts[t].rotatedFrom == ts[u].rotatedFrom != NONE
  }

  ghost predicate OneChild(ts: Table) {
    forall t, u {:trigger Siblings(ts, t, u)} :: Siblings(ts, t, u) ==> t == u
  }

  ghost predicate OneLive(ts: Table, lines: Lines) {
    forall t, u {:trigger Root(lines, t), Root(lines, u)} ::
      t in ts && u in ts && !ts[t].revoked && !ts[u].revoked && Root(lines, t) == Root(lines, u) ==> t == u
  }

  ghost predicate Families(ts: Table, lines: Lines) {
    && lines.Keys == ts.Keys && NONE !in ts
    && (forall t {:trigger LineAt(ts, lines, t)} :: t in ts ==> LineAt(ts, lines, t))
    && (forall t {:trigger LinkAt(ts, t)} :: t in ts ==> LinkAt(ts, t))
    && OneChild(ts)
    && OneLive(ts, lines)
  }

  /** The table after statements that only revoke. */
  ghost predicate OnlyRevokes(before: Table, after: Table) {
    && after.Keys == before.Keys
    && (forall t :: t in before ==> SameToken(before[t], after[t]) && (before[t].revoked ==> after[t].revoked))
  }

  /** Rows are only revoked or added, and recorded lines stay. */
  ghost predicate Extends(ts: Table, ts': Table, lines: Lines, lines': Lines) {
    && (forall t :: t in ts ==> t in ts' && SameToken(ts[t], ts'[t]) && (ts[t].revoked ==> ts'[t].revoked))
    && (forall t :: t in lines ==> t in lines' && lines'[t] == lines[t])
  }

  lemma LineKept(ts: Table, ts': Table, lines: Lines, lines': Lines, t: Name)
    requires LineAt(ts, lines, t) && Extends(ts, ts', lines, lines')
    ensures LineAt(ts', lines', t) && Root(lines', t) == Root(lines, t) && Root(lines, t) in ts
  {
  }

  lemma LinkKept(ts: Table, ts': Table, lines: Lines, lines': Lines, t: Name)
    requires LinkAt(ts, t) && Extends(ts, ts', lines, lines')
    ensures LinkAt(ts', t)
  {
  }

  lemma RevokingKeepsFamilies(ts: Table, ts': Table, lines: Lines)
    requires Families(ts, lines) && OnlyRevokes(ts, ts')
    ensures Families(ts', lines)
  {
    forall t | t in ts' ensures LineAt(ts', lines, t) {
      assert LineAt(ts, lines, t);
      LineKept(ts, ts', lines, lines, t);
    }
    forall t | t in ts' ensures LinkAt(ts', t) {
      assert LinkAt(ts, t);
      LinkKept(ts, ts', lines, lines, t);
    }
    forall t, u | Siblings(ts', t, u) ensures t == u {
      assert Siblings(ts, t, u);
    }
  }

  /** Adding a row: what is left to show is the row's own line and link, that
      its parent has no child yet, and that its family has no live token. */
  lemma AddingKeepsFamilies(ts: Table, ts': Table, lines: Lines, lines': Lines, n: Name)
    requires Families(ts, lines) && Extends(ts, ts', lines, lines')
    requires n != NONE && n !in ts && ts'.Keys == ts.Keys + {n} && lines'.Keys == lines.Keys + {n}
    requires LineAt(ts', lines', n) && LinkAt(ts', n)
    requires ts'[n].rotatedFrom == NONE || forall t :: t in ts ==> ts[t].rotatedFrom != ts'[n].rotatedFrom
    requires forall t :: t in ts && !ts'[t].revoked ==> Root(lines, t) != Root(lines', n)
    ensures Families(ts', lines')
  {
    LinesKept(ts, ts', lines, lines', n);
    LinksKept(ts, ts', lines, lines', n);
    OneChildGrows(ts, ts', n);
    OneLiveGrows(ts, ts', lines, lines', n);
  }

  lemma LinesKept(ts: Table, ts': Table, lines: Lines, lines': Lines, n: Name)
    requires forall t {:trigger LineAt(ts, lines, t)} :: t in ts ==> LineAt(ts, lines, t)
    requires Extends(ts, ts', lines, lines') && ts'.Keys == ts.Keys + {n} && LineAt(ts', lines', n)
    ensures forall t {:trigger LineAt(ts', lines', t)} :: t in ts' ==> LineAt(ts', lines', t)
    ensures forall t :: t in ts ==> Root(lines', t) == Root(lines, t)
  {
    forall t | t in ts ensures LineAt(ts', lines', t) && Root(lines', t) == Root(lines, t) {
      assert LineAt(ts, lines, t);
      LineKept(ts, ts', lines, lines', t);
    }
  }

  lemma LinksKept(ts: Table, ts': Table, lines: Lines, lines': Lines, n: Name)
    requires forall t {:trigger LinkAt(ts, t)} :: t in ts ==> LinkAt(ts, t)
    requires Extends(ts, ts', lines, lines') && ts'.Keys == ts.Keys + {n} && LinkAt(ts', n)
    ensures forall t {:trigger LinkAt(ts', t)} :: t in ts' ==> LinkAt(ts', t)
  {
    forall t | t in ts ensures LinkAt(ts', t) {
      assert LinkAt(ts, t);
      LinkKept(ts, ts', lines, lines', t);
    }
  }

  lemma FirstTokenKeepsFamilies(ts: Table, lines: Lines, n: Name, row: RefreshToken)
    requires Families(ts, lines) && n != NONE && n !in ts && row.rotatedFrom == NONE
    ensures Families(ts[n := row], lines[n := [n]])
  {
    forall t | t in ts ensures Root(lines, t) != n {
      assert LineAt(ts, lines, t);
    }
    AddingKeepsFamilies(ts, ts[n := row], lines, lines[n := [n]], n);
  }

  /** Rotation: the presented token must be live when its row is replaced. */
  lemma RotationKeepsFamilies(ts: Table, lines: Lines, p: Name, n: Name, row: RefreshToken)
    requires Families(ts, lines) && p in ts && !ts[p].revoked && n != NONE && n !in ts
    requires row.rotatedFrom == p && Inherits(ts[p], row)
    ensures Families(ts[p := ts[p].(revoked := true)][n := row], lines[n := [n] + lines[p]])
  {
    var ts', lines' := ts[p := ts[p].(revoked := true)][n := row], lines[n := [n] + lines[p]];
    assert LineAt(ts, lines, p);
    assert Extends(ts, ts', lines, lines');
    assert Root(lines', n) == Root(lines, p);
    LineKept(ts, ts', lines, lines', p);
    assert LineAt(ts', lines', n);
    forall t | t in ts ensures ts[t].rotatedFrom != p {
      assert LinkAt(ts, t);
    }
    AddingKeepsFamilies(ts, ts', lines, lines', n);
  }

  lemma OneChildGrows(ts: Table, ts': Table, n: Name)
    requires OneChild(ts) && ts'.Keys == ts.Keys + {n} && n !in ts
    requires forall t :: t in ts ==> SameToken(ts[t], ts'[t])
    requires ts'[n].rotatedFrom == NONE || forall t :: t in ts ==> ts[t].rotatedFrom != ts'[n].rotatedFrom
    ensures OneChild(ts')
  {
    forall t, u | Siblings(ts', t, u) ensures t == u {
      if t != n && u != n {
        assert Siblings(ts, t, u);
      }
    }
  }

  /** A new token is the only live one of its family if its family had no live
      token left. */
  lemma OneLiveGrows(ts: Table, ts': Table, lines: Lines, lines': Lines, n: Name)
    requires OneLive(ts, lines) && ts'.Keys == ts.Keys + {n} && n !in ts
    requires forall t :: t in ts ==> Root(lines', t) == Root(lines, t) && (ts[t].revoked ==> ts'[t].revoked)
    requires forall t :: t in ts && !ts'[t].revoked ==> Root(lines, t) != Root(lines', n)
    ensures OneLive(ts', lines')
  {
  }

  /** Everything a token shares with any earlier token of its line: what the
      grant fixed stays fixed, scope only shrinks, a key once set stays. */
  lemma {:induction false} LineDescends(ts: Table, lines: Lines, t: Name, i: nat)
    requires Families(ts, lines) && t in ts && i < |lines[t]|
    ensures lines[t][i] in ts && Inherits(ts[lines[t][i]], ts[t])
    ensures i + 1 < |lines[t]| ==> ts[lines[t][i]].rotatedFrom == lines[t][i + 1]
    decreases i
  {
    assert LineAt(ts, lines, t) && LinkAt(ts, t);
    if ts[t].rotatedFrom != NONE {
      var p := ts[t].rotatedFrom;
      assert LineAt(ts, lines, p);
      if i > 0 {
        assert lines[t][i] == lines[p][i - 1];
        LineDescends(ts, lines, p, i - 1);
      }
    }
  }
}
