/** CopyData: every table of one database into another, inside one
    transaction of a destination that checks its foreign keys after every
    statement. */
module CopyData {
  import opened Options
  import opened Names
  import opened TopoSpec
  import TopoSort

  /** A column value as the source driver delivers it. */
  datatype Value = Null | Bool(b: bool) | Int(i: int) | Float(r: real) | Bytes(t: string) | Text(t: string)

  type Row = map<string, Value>
  type Store = map<string, seq<Row>>

  /** cols of the child refer to refs of the parent. */
  datatype ForeignKey = ForeignKey(child: string, cols: seq<string>, parent: string, refs: seq<string>)

  /** Each table's columns, true for BOOLEAN ones, and the foreign keys. */
  datatype Schema = Schema(columns: map<string, map<string, bool>>, keys: set<ForeignKey>)

  function Lower(s: string): string {
    seq(|s|, i requires 0 <= i < |s| => if 'A' <= s[i] <= 'Z' then (s[i] as int + 32) as char else s[i])
  }

  /** toBool: SQLite's integer and text booleans. */
  function ToBool(v: Value): Value {
    match v
    case Null => Null
    case Bool(b) => Bool(b)
    case Int(i) => Bool(i != 0)
    case Float(r) => Bool(r != 0.0)
    case Bytes(t) => Bool(t == "1" || Lower(t) == "true")
    case Text(t) => Bool(t == "1" || Lower(t) == "true")
  }

  /** Applied to what it made, the coercion changes nothing, and only NULL stays
      NULL. */
  lemma ToBoolSettles(v: Value)
    ensures ToBool(ToBool(v)) == ToBool(v) && (ToBool(v) == Null <==> v == Null)
    ensures ToBool(v) != Null ==> ToBool(v).Bool?
  {
  }

  function Coerced(row: Row, cols: map<string, bool>): Row {
    map c | c in cols && c in row :: if cols[c] then ToBool(row[c]) else row[c]
  }

  function CoercedRows(rows: seq<Row>, cols: map<string, bool>): (r: seq<Row>)
    ensures |r| == |rows| && forall i :: 0 <= i < |rows| ==> r[i] == Coerced(rows[i], cols)
  {
    seq(|rows|, i requires 0 <= i < |rows| => Coerced(rows[i], cols))
  }

  function Key(row: Row, cols: seq<string>): (k: seq<Value>)
    ensures |k| == |cols|
  {
    seq(|cols|, i requires 0 <= i < |cols| => if cols[i] in row then row[cols[i]] else Null)
  }

  predicate Finds(rows: seq<Row>, refs: seq<string>, key: seq<Value>) {
    exists i :: 0 <= i < |rows| && Key(rows[i], refs) == key
  }

  /** MATCH SIMPLE: a key with a NULL refers to nothing. */
  predicate Refers(row: Row, cols: seq<string>, rows: seq<Row>, refs: seq<string>) {
    Null in Key(row, cols) || Finds(rows, refs, Key(row, cols))
  }

  function Rows(db: Store, t: string): seq<Row> {
    if t in db then db[t] else []
  }

  predicate Holds(db: Store, k: ForeignKey) {
    forall i :: 0 <= i < |Rows(db, k.child)| ==> Refers(Rows(db, k.child)[i], k.cols, Rows(db, k.parent), k.refs)
  }

  predicate Consistent(schema: Schema, db: Store) {
    forall k :: k in schema.keys ==> Holds(db, k)
  }

  /** What SQL demands of a schema: keys between columns of listed tables, a
      boolean referring to a boolean. */
  predicate KeyOk(schema: Schema, k: ForeignKey) {
    && k.child in schema.columns && k.parent in schema.columns && |k.cols| == |k.refs|
    && forall i :: 0 <= i < |k.cols| ==>
         && k.cols[i] in schema.columns[k.child] && k.refs[i] in schema.columns[k.parent]
         && schema.columns[k.child][k.cols[i]] == schema.columns[k.parent][k.refs[i]]
  }

  predicate SchemaOk(schema: Schema) {
    forall k :: k in schema.keys ==> KeyOk(schema, k)
  }

  /** foreignKeyParents: self-references are dropped. */
  function Parents(schema: Schema): map<string, set<string>> {
    map t | t in schema.columns :: set k | k in schema.keys && k.child == t && k.parent != t :: k.parent
  }

  /** The source read through the destination's columns. */
  function Target(schema: Schema, src: Store): Store {
    map t | t in schema.columns :: CoercedRows(Rows(src, t), schema.columns[t])
  }

  predicate HasColumns(schema: Schema, src: Store, t: string) {
    && t in schema.columns && |schema.columns[t]| > 0
    && forall i :: 0 <= i < |Rows(src, t)| ==> schema.columns[t].Keys <= Rows(src, t)[i].Keys
  }

  /** Row j of a table that refers to itself refers to row j or one before. */
  predicate RefersBack(target: Store, k: ForeignKey, j: nat)
    requires j < |Rows(target, k.child)|
  {
    Refers(Rows(target, k.child)[j], k.cols, Rows(target, k.child)[..j + 1], k.refs)
  }

  /** Every row that refers to its own table refers to itself or to a row
      before it, in the order the source is read. */
  ghost predicate SelfReferencesComeAfter(schema: Schema, src: Store) {
    forall k, j {:trigger RefersBack(Target(schema, src), k, j)} ::
      k in schema.keys && k.child == k.parent && 0 <= j < |Rows(Target(schema, src), k.child)|
      ==> RefersBack(Target(schema, src), k, j)
  }

  // ----- what a copied value says -----

  predicate AnyCase(t: string, word: string) {
    |t| == |word| && forall i :: 0 <= i < |t| ==> t[i] == word[i] || t[i] as int + 32 == word[i] as int
  }

  /** The text of a stored boolean. */
  predicate Spells(t: string, b: bool) {
    t == (if b then "1" else "0") || AnyCase(t, if b then "true" else "false")
  }

  /** The source's driver delivers a stored boolean so: a number that is zero for
      false, or its digit or word. */
  predicate Stores(v: Value, b: bool) {
    match v
    case Null => false
    case Bool(x) => x == b
    case Int(i) => b <==> i != 0
    case Float(r) => b <==> r != 0.0
    case Bytes(t) => Spells(t, b)
    case Text(t) => Spells(t, b)
  }

  /** The copied value says the same: NULL is NULL, a boolean column holds the
      boolean that was stored, and any other column the value itself. */
  predicate SameValue(v: Value, copied: Value, boolean: bool) {
    if boolean then (v == Null <==> copied == Null) && (Stores(v, true) ==> copied == Bool(true)) && (Stores(v, false) ==> copied == Bool(false))
    else copied == v
  }

  predicate SameRow(row: Row, copied: Row, cols: map<string, bool>) {
    copied.Keys == cols.Keys * row.Keys && forall c :: c in copied ==> SameValue(row[c], copied[c], cols[c])
  }

  predicate SameTable(rows: seq<Row>, copied: seq<Row>, cols: map<string, bool>) {
    |copied| == |rows| && forall i :: 0 <= i < |rows| ==> SameRow(rows[i], copied[i], cols)
  }

  /** Every table of the schema holds the source's rows, in their order. */
  predicate SameData(schema: Schema, src: Store, copied: Store) {
    copied.Keys == schema.columns.Keys
    && forall t :: t in schema.columns ==> SameTable(Rows(src, t), copied[t], schema.columns[t])
  }

  /** However a boolean is delivered, it is coerced to that boolean. */
  lemma CoercedAsStored(v: Value, b: bool)
    requires Stores(v, b)
    ensures ToBool(v) == Bool(b)
  {
    if v.Bytes? || v.Text? { SpelledAsStored(v.t, b); }
  }

  lemma SpelledAsStored(t: string, b: bool)
    requires Spells(t, b)
    ensures (t == "1" || Lower(t) == "true") == b
  {
    var word := if b then "true" else "false";
    if AnyCase(t, word) {
      assert Lower(t) == word;
    } else {
      assert |Lower(t)| == 1;
    }
  }

  lemma CoercedSame(row: Row, cols: map<string, bool>)
    ensures SameRow(row, Coerced(row, cols), cols)
  {
    hide ToBool, Stores;
    forall c | c in Coerced(row, cols) ensures SameValue(row[c], Coerced(row, cols)[c], cols[c]) {
      ToBoolSettles(row[c]);
      if Stores(row[c], true) { CoercedAsStored(row[c], true); }
      if Stores(row[c], false) { CoercedAsStored(row[c], false); }
    }
  }

  lemma CoercedRowsSame(rows: seq<Row>, cols: map<string, bool>)
    ensures SameTable(rows, CoercedRows(rows, cols), cols)
  {
    hide SameRow, Coerced;
    forall i | 0 <= i < |rows| ensures SameRow(rows[i], CoercedRows(rows, cols)[i], cols) {
      CoercedSame(rows[i], cols);
    }
  }

  lemma TargetSame(schema: Schema, src: Store)
    ensures SameData(schema, src, Target(schema, src))
  {
    hide SameTable, CoercedRows;
    forall t | t in schema.columns ensures SameTable(Rows(src, t), Target(schema, src)[t], schema.columns[t]) {
      CoercedRowsSame(Rows(src, t), schema.columns[t]);
    }
  }

  // ----- coercion keeps references -----

  lemma CoercedKey(row: Row, cols: map<string, bool>, names: seq<string>)
    requires cols.Keys <= row.Keys && forall i :: 0 <= i < |names| ==> names[i] in cols
    ensures forall i :: 0 <= i < |names| ==>
      Key(Coerced(row, cols), names)[i] == (if cols[names[i]] then ToBool(Key(row, names)[i]) else Key(row, names)[i])
  {
  }

  lemma CoercionKeepsReference(schema: Schema, src: Store, k: ForeignKey, j: nat)
    requires KeyOk(schema, k) && Holds(src, k) && j < |Rows(src, k.child)|
    requires HasColumns(schema, src, k.child) && HasColumns(schema, src, k.parent)
    ensures Refers(Target(schema, src)[k.child][j], k.cols, Target(schema, src)[k.parent], k.refs)
  {
    var row, cols, pcols := Rows(src, k.child)[j], schema.columns[k.child], schema.columns[k.parent];
    CoercedKey(row, cols, k.cols);
    var key := Key(Target(schema, src)[k.child][j], k.cols);
    if Null in Key(row, k.cols) {
      var i :| 0 <= i < |k.cols| && Key(row, k.cols)[i] == Null;
      assert key[i] == Null;
    } else {
      var m :| 0 <= m < |Rows(src, k.parent)| && Key(Rows(src, k.parent)[m], k.refs) == Key(row, k.cols);
      CoercedKey(Rows(src, k.parent)[m], pcols, k.refs);
      assert Key(Target(schema, src)[k.parent][m], k.refs) == key;
    }
  }

  // ----- the states the transaction passes through -----

  /** Tables from the k-th on emptied. */
  function Cleared(db: Store, order: seq<string>, k: nat): Store
    requires k <= |order|
  {
    map t | t in db :: if t in order[k..] then [] else db[t]
  }

  /** Tables before the k-th as the target has them, the k-th up to row j. */
  function Filled(target: Store, order: seq<string>, k: nat, j: nat): Store
    requires k <= |order| && (k < |order| ==> j <= |Rows(target, order[k])|)
  {
    map t | t in target :: if t in order[..k] then target[t] else if k < |order| && t == order[k] then Rows(target, t)[..j] else []
  }

  lemma ParentPrecedes(schema: Schema, order: seq<string>, k: ForeignKey, i: nat)
    requires SchemaOk(schema) && k in schema.keys && k.child != k.parent && i < |order| && order[i] == k.child
    requires IsTopological(TopoSort.KnownGraph(order, Parents(schema)), order) && Elems(order) == schema.columns.Keys
    ensures k.parent in order[..i]
  {
    var g := TopoSort.KnownGraph(order, Parents(schema));
    assert KeyOk(schema, k);
    assert k.parent in Parents(schema)[k.child];
    assert k.parent in Elems(order);
    assert k.parent in g[order[i]] && g[order[i]] <= Elems(order[..i]);
  }

  /** Clearing children before parents never leaves a row without its parent. */
  lemma ClearedConsistent(schema: Schema, db: Store, order: seq<string>, k: nat)
    requires SchemaOk(schema) && Consistent(schema, db) && k <= |order|
    requires IsTopological(TopoSort.KnownGraph(order, Parents(schema)), order) && Elems(order) == schema.columns.Keys
    ensures Consistent(schema, Cleared(db, order, k))
  {
    forall f | f in schema.keys ensures Holds(Cleared(db, order, k), f) {
      assert Holds(db, f) && KeyOk(schema, f);
      ClearedHolds(schema, db, order, k, f);
    }
  }

  lemma ClearedHolds(schema: Schema, db: Store, order: seq<string>, k: nat, f: ForeignKey)
    requires SchemaOk(schema) && Holds(db, f) && f in schema.keys && KeyOk(schema, f) && k <= |order|
    requires IsTopological(TopoSort.KnownGraph(order, Parents(schema)), order) && Elems(order) == schema.columns.Keys
    ensures Holds(Cleared(db, order, k), f)
  {
    if f.child in order[k..] {
      assert Rows(Cleared(db, order, k), f.child) == [];
    } else {
      assert Rows(Cleared(db, order, k), f.child) == Rows(db, f.child);
      if f.child != f.parent {
        assert f.child in Elems(order) && order == order[..k] + order[k..];
        var i :| 0 <= i < k && order[..k][i] == f.child;
        ParentPrecedes(schema, order, f, i);
        NotLater(order, f.parent, i, k);
      }
      assert Rows(Cleared(db, order, k), f.parent) == Rows(db, f.parent);
    }
  }

  lemma NotLater(order: seq<string>, t: string, i: nat, k: nat)
    requires NoDup(order) && i <= k <= |order| && t in order[..i]
    ensures t !in order[k..]
  {
    var m :| 0 <= m < i && order[m] == t;
    forall n | 0 <= n < |order[k..]| ensures order[k..][n] != t {
      assert order[k..][n] == order[k + n];
    }
  }

  /** With its parents in place, a row may be inserted exactly when what it
      says about its own table is already true. */
  lemma FilledHolds(schema: Schema, src: Store, order: seq<string>, k: nat, j: nat, f: ForeignKey)
    requires SchemaOk(schema) && Consistent(schema, src) && f in schema.keys && f.child != f.parent
    requires forall t :: t in schema.columns ==> HasColumns(schema, src, t)
    requires IsTopological(TopoSort.KnownGraph(order, Parents(schema)), order) && Elems(order) == schema.columns.Keys
    requires k <= |order| && (k < |order| ==> j <= |Rows(Target(schema, src), order[k])|)
    ensures Holds(Filled(Target(schema, src), order, k, j), f)
  {
    var target := Target(schema, src);
    var db := Filled(target, order, k, j);
    assert Holds(src, f) && KeyOk(schema, f);
    if f.child in order[..k] || (k < |order| && f.child == order[k]) {
      ParentFilled(schema, order, f, k);
      FilledRefers(schema, src, order, k, j, f);
    } else {
      assert Rows(db, f.child) == [];
    }
  }

  lemma FilledRefers(schema: Schema, src: Store, order: seq<string>, k: nat, j: nat, f: ForeignKey)
    requires KeyOk(schema, f) && Holds(src, f) && HasColumns(schema, src, f.child) && HasColumns(schema, src, f.parent)
    requires k <= |order| && (k < |order| ==> j <= |Rows(Target(schema, src), order[k])|)
    requires f.parent in order[..k]
    ensures Holds(Filled(Target(schema, src), order, k, j), f)
  {
    var target := Target(schema, src);
    var db := Filled(target, order, k, j);
    assert Rows(db, f.parent) == target[f.parent];
    forall n | 0 <= n < |Rows(db, f.child)| ensures Refers(Rows(db, f.child)[n], f.cols, Rows(db, f.parent), f.refs) {
      assert Rows(db, f.child)[n] == target[f.child][n];
      CoercionKeepsReference(schema, src, f, n);
    }
  }

  lemma ParentFilled(schema: Schema, order: seq<string>, f: ForeignKey, k: nat)
    requires SchemaOk(schema) && f in schema.keys && f.child != f.parent && k <= |order|
    requires IsTopological(TopoSort.KnownGraph(order, Parents(schema)), order) && Elems(order) == schema.columns.Keys
    requires f.child in order[..k] || (k < |order| && f.child == order[k])
    ensures f.parent in order[..k]
  {
    var i := Position(order, f.child, k);
    ParentPrecedes(schema, order, f, i);
    Earlier(order, f.parent, i, k);
  }

  lemma Position(order: seq<string>, t: string, k: nat) returns (i: nat)
    requires k <= |order| && (t in order[..k] || (k < |order| && t == order[k]))
    ensures i < |order| && i <= k && order[i] == t
  {
    if t in order[..k] {
      i :| 0 <= i < k && order[..k][i] == t;
    } else {
      i := k;
    }
  }

  lemma Earlier(order: seq<string>, t: string, i: nat, k: nat)
    requires i <= k <= |order| && t in order[..i]
    ensures t in order[..k]
  {
    var m :| 0 <= m < i && order[..i][m] == t;
    assert order[..k][m] == t;
  }

  lemma LongerFinds(rows: seq<Row>, refs: seq<string>, key: seq<Value>, m: nat, n: nat)
    requires m <= n <= |rows| && Finds(rows[..m], refs, key)
    ensures Finds(rows[..n], refs, key)
  {
    var i :| 0 <= i < m && Key(rows[..m][i], refs) == key;
    assert rows[..n][i] == rows[..m][i];
  }

  /** The rows before row n of a table that refers to itself. */
  ghost predicate BackUpTo(target: Store, f: ForeignKey, n: nat) {
    forall m {:trigger RefersBack(target, f, m)} :: 0 <= m < n && m < |Rows(target, f.child)| ==> RefersBack(target, f, m)
  }

  lemma PrefixHolds(target: Store, f: ForeignKey, n: nat, i: nat)
    requires BackUpTo(target, f, n) && i < n <= |Rows(target, f.child)|
    ensures Refers(Rows(target, f.child)[i], f.cols, Rows(target, f.child)[..n], f.refs)
  {
    assert RefersBack(target, f, i);
    var rows := Rows(target, f.child);
    if Null !in Key(rows[i], f.cols) {
      LongerFinds(rows, f.refs, Key(rows[i], f.cols), i + 1, n);
    }
  }

  /** For a table that refers to itself: the state with rows up to j is
      consistent exactly when those rows refer back. */
  lemma SelfHolds(target: Store, order: seq<string>, k: nat, j: nat, f: ForeignKey)
    requires f.child == f.parent && k <= |order| && (k < |order| ==> j <= |Rows(target, order[k])|)
    requires f.child in order[..k] ==> BackUpTo(target, f, |Rows(target, f.child)|)
    requires k < |order| && f.child == order[k] ==> BackUpTo(target, f, j)
    ensures Holds(Filled(target, order, k, j), f)
  {
    var db, all := Filled(target, order, k, j), Rows(target, f.child);
    var rows := Rows(db, f.child);
    assert all[..|all|] == all;
    if rows != [] {
      assert rows == all[..|rows|];
      forall i | 0 <= i < |rows| ensures Refers(rows[i], f.cols, rows, f.refs) {
        PrefixHolds(target, f, |rows|, i);
      }
    }
  }

  lemma InsertedRefersBack(target: Store, order: seq<string>, k: nat, j: nat, f: ForeignKey)
    requires f.child == f.parent && k < |order| && NoDup(order) && f.child == order[k] && j < |Rows(target, order[k])|
    requires Holds(Filled(target, order, k, j + 1), f)
    ensures RefersBack(target, f, j)
  {
    var db := Filled(target, order, k, j + 1);
    assert order[k] !in order[..k];
    assert Rows(db, f.child) == Rows(target, f.child)[..j + 1];
    assert Refers(Rows(db, f.child)[j], f.cols, Rows(db, f.parent), f.refs);
  }

  // ----- the transaction -----

  /** Two databases of the schema, each satisfying its foreign keys. */
  ghost predicate Prepared(schema: Schema, src: Store, dst: Store) {
    && SchemaOk(schema) && Consistent(schema, src) && Consistent(schema, dst) && dst.Keys == schema.columns.Keys
    && (forall t :: t in schema.columns ==> HasColumns(schema, src, t))
  }

  ghost predicate WellPrepared(schema: Schema, order: seq<string>, src: Store, dst: Store) {
    && Prepared(schema, src, dst)
    && IsTopological(TopoSort.KnownGraph(order, Parents(schema)), order) && Elems(order) == schema.columns.Keys
  }

  /** All rows inserted before row j of the k-th table refer back. */
  ghost predicate BackSoFar(schema: Schema, target: Store, order: seq<string>, k: nat, j: nat) {
    k <= |order| && forall f {:trigger f in schema.keys} :: f in schema.keys && f.child == f.parent ==>
      && (f.child in order[..k] ==> BackUpTo(target, f, |Rows(target, f.child)|))
      && (k < |order| && f.child == order[k] ==> BackUpTo(target, f, j))
  }

  lemma FilledConsistent(schema: Schema, order: seq<string>, src: Store, dst: Store, k: nat, j: nat)
    requires WellPrepared(schema, order, src, dst) && BackSoFar(schema, Target(schema, src), order, k, j)
    requires k < |order| ==> j <= |Rows(Target(schema, src), order[k])|
    ensures Consistent(schema, Filled(Target(schema, src), order, k, j))
  {
    forall f | f in schema.keys ensures Holds(Filled(Target(schema, src), order, k, j), f) {
      if f.child == f.parent {
        SelfHolds(Target(schema, src), order, k, j, f);
      } else {
        FilledHolds(schema, src, order, k, j, f);
      }
    }
  }

  lemma OneMoreBack(schema: Schema, target: Store, order: seq<string>, k: nat, j: nat)
    requires BackSoFar(schema, target, order, k, j) && k < |order| && NoDup(order) && j < |Rows(target, order[k])|
    requires Consistent(schema, Filled(target, order, k, j + 1))
    ensures BackSoFar(schema, target, order, k, j + 1)
  {
    forall f | f in schema.keys && f.child == f.parent && f.child == order[k] ensures BackUpTo(target, f, j + 1) {
      assert Holds(Filled(target, order, k, j + 1), f);
      InsertedRefersBack(target, order, k, j, f);
    }
  }

  lemma TableBack(schema: Schema, target: Store, order: seq<string>, k: nat)
    requires k < |order| && BackSoFar(schema, target, order, k, |Rows(target, order[k])|)
    ensures BackSoFar(schema, target, order, k + 1, 0)
  {
    assert order[..k + 1] == order[..k] + [order[k]];
  }

  lemma SelfReferencesBack(schema: Schema, src: Store, order: seq<string>, k: nat, j: nat)
    requires SelfReferencesComeAfter(schema, src) && k <= |order|
    ensures BackSoFar(schema, Target(schema, src), order, k, j)
  {
  }

  lemma AllBack(schema: Schema, src: Store, order: seq<string>)
    requires Elems(order) == schema.columns.Keys
    requires BackSoFar(schema, Target(schema, src), order, |order|, 0)
    ensures SchemaOk(schema) ==> SelfReferencesComeAfter(schema, src)
  {
    assert order[..|order|] == order;
    forall k, j | SchemaOk(schema) && k in schema.keys && k.child == k.parent && 0 <= j < |Rows(Target(schema, src), k.child)|
      ensures RefersBack(Target(schema, src), k, j) {
      assert KeyOk(schema, k);
      assert k.child in Elems(order);
      assert BackUpTo(Target(schema, src), k, |Rows(Target(schema, src), k.child)|);
    }
  }

  /** One statement: refused on a fault or when a foreign key would break. */
  method Execute(schema: Schema, next: Store, fault: bool) returns (ok: bool)
    ensures ok <==> !fault && Consistent(schema, next)
  {
    ok := !fault && Consistent(schema, next);
  }

  lemma StepClear(db: Store, order: seq<string>, k: nat)
    requires k < |order| && db.Keys == Elems(order)
    ensures Cleared(db, order, k) == Cleared(db, order, k + 1)[order[k] := []]
  {
    assert order[k..] == [order[k]] + order[k + 1..];
    assert order[k] in Elems(order);
  }

  lemma PreparedClears(schema: Schema, order: seq<string>, src: Store, dst: Store, k: nat)
    requires WellPrepared(schema, order, src, dst) && k <= |order|
    ensures Consistent(schema, Cleared(dst, order, k))
  {
    ClearedConsistent(schema, dst, order, k);
  }

  method Clear(schema: Schema, order: seq<string>, ghost src: Store, dst: Store, faults: nat -> bool)
    returns (ok: bool, work: Store, n: nat)
    requires dst.Keys == Elems(order)
    ensures ok ==> work == Cleared(dst, order, 0)
    ensures WellPrepared(schema, order, src, dst) && (forall m :: !faults(m)) ==> ok
  {
    work, n := dst, 0;
    var k := |order|;
    assert work == Cleared(dst, order, k);
    hide Cleared, WellPrepared;
    while k > 0
      invariant 0 <= k <= |order| && work == Cleared(dst, order, k)
    {
      k := k - 1;
      StepClear(dst, order, k);
      work := work[order[k] := []];
      if WellPrepared(schema, order, src, dst) { PreparedClears(schema, order, src, dst, k); }
      ok := Execute(schema, work, faults(n));
      if !ok {
        return;
      }
      n := n + 1;
    }
    ok := true;
  }

  /** copyTable: the rows of one table, in the order the source has them. */
  method CopyTable(schema: Schema, order: seq<string>, k: nat, src: Store, ghost dst: Store, start: Store, faults: nat -> bool, n0: nat)
    returns (ok: bool, work: Store, n: nat, count: nat)
    requires k < |order| && NoDup(order) && Elems(order) == schema.columns.Keys
    requires start == Filled(Target(schema, src), order, k, 0)
    requires BackSoFar(schema, Target(schema, src), order, k, 0)
    ensures ok ==> work == Filled(Target(schema, src), order, k + 1, 0) && count == |Rows(src, order[k])|
    ensures ok ==> order[k] in schema.columns && SameTable(Rows(src, order[k]), Rows(work, order[k]), schema.columns[order[k]])
    ensures ok ==> BackSoFar(schema, Target(schema, src), order, k + 1, 0)
    ensures WellPrepared(schema, order, src, dst) && SelfReferencesComeAfter(schema, src) && (forall m :: !faults(m)) ==> ok
  {
    hide WellPrepared, SelfReferencesComeAfter, BackSoFar, Filled, Target, Coerced, Consistent, NoDup, SameTable;
    var t := order[k];
    assert t in Elems(order);
    work, n, count := start, n0, 0;
    if !HasColumns(schema, src, t) {
      NotPrepared(schema, order, src, dst, t);
      return false, work, n, count;
    }
    hide HasColumns;
    LastFill(schema, src, order, k);
    var rows := Rows(src, t);
    while count < |rows|
      invariant count <= |rows|
      invariant work == Filled(Target(schema, src), order, k, count)
      invariant BackSoFar(schema, Target(schema, src), order, k, count)
    {
      StepFill(schema, src, order, k, count);
      work := work[t := Rows(work, t) + [Coerced(rows[count], schema.columns[t])]];
      if WellPrepared(schema, order, src, dst) && SelfReferencesComeAfter(schema, src) {
        SelfReferencesBack(schema, src, order, k, count + 1);
        FilledConsistent(schema, order, src, dst, k, count + 1);
      }
      ok := Execute(schema, work, faults(n));
      if !ok {
        return;
      }
      OneMoreBack(schema, Target(schema, src), order, k, count);
      n, count := n + 1, count + 1;
    }
    TableBack(schema, Target(schema, src), order, k);
    FilledSame(schema, src, order, k);
    ok := true;
  }

  lemma FilledSame(schema: Schema, src: Store, order: seq<string>, k: nat)
    requires k < |order| && order[k] in schema.columns
    ensures SameTable(Rows(src, order[k]), Rows(Filled(Target(schema, src), order, k + 1, 0), order[k]), schema.columns[order[k]])
  {
    assert order[k] in order[..k + 1];
    TargetSame(schema, src);
  }

  lemma NotPrepared(schema: Schema, order: seq<string>, src: Store, dst: Store, t: string)
    requires t in schema.columns && !HasColumns(schema, src, t)
    ensures !WellPrepared(schema, order, src, dst)
  {
  }

  lemma StepFill(schema: Schema, src: Store, order: seq<string>, k: nat, j: nat)
    requires k < |order| && NoDup(order) && order[k] in schema.columns && j < |Rows(src, order[k])|
    ensures |Rows(Target(schema, src), order[k])| == |Rows(src, order[k])|
    ensures var target, t := Target(schema, src), order[k];
      var work := Filled(target, order, k, j);
      Filled(target, order, k, j + 1) == work[t := Rows(work, t) + [Coerced(Rows(src, t)[j], schema.columns[t])]]
  {
    var rows := Target(schema, src)[order[k]];
    assert order[k] !in order[..k];
    assert rows[..j + 1] == rows[..j] + [rows[j]];
  }

  lemma LastFill(schema: Schema, src: Store, order: seq<string>, k: nat)
    requires k < |order| && NoDup(order) && order[k] in schema.columns
    ensures |Rows(Target(schema, src), order[k])| == |Rows(src, order[k])|
    ensures Filled(Target(schema, src), order, k, |Rows(src, order[k])|) == Filled(Target(schema, src), order, k + 1, 0)
  {
    var rows := Target(schema, src)[order[k]];
    assert order[..k + 1] == order[..k] + [order[k]];
    assert rows[..|rows|] == rows;
    if k + 1 < |order| {
      assert order[k + 1] !in order[..k + 1];
    }
  }

  datatype TableCount = TableCount(table: string, sourceRows: nat, destRows: nat)

  datatype Report = Failed | Copied(tables: seq<TableCount>)

  /** The statements of the transaction, on its own view of the tables. */
  method Load(schema: Schema, order: seq<string>, src: Store, dst: Store, faults: nat -> bool)
    returns (ok: bool, work: Store, counts: seq<TableCount>)
    requires NoDup(order) && Elems(order) == schema.columns.Keys == dst.Keys
    ensures ok ==> work == Target(schema, src) && CountsMatch(order, src, counts)
    ensures ok ==> SameData(schema, src, work)
    ensures ok && SchemaOk(schema) ==> SelfReferencesComeAfter(schema, src)
    ensures WellPrepared(schema, order, src, dst) && SelfReferencesComeAfter(schema, src) && (forall m :: !faults(m)) ==> ok
  {
    hide WellPrepared, SelfReferencesComeAfter, BackSoFar, Filled, Cleared, SchemaOk, Target, CountsMatch, NoDup, SameData, SameTable;
    NothingFilled(schema, dst, src, order);
    counts := [];
    var n;
    ok, work, n := Clear(schema, order, src, dst, faults);
    if !ok {
      return;
    }
    for k := 0 to |order|
      invariant work == Filled(Target(schema, src), order, k, 0)
      invariant BackSoFar(schema, Target(schema, src), order, k, 0)
      invariant |counts| == k && CountsMatch(order[..k], src, counts)
    {
      var count;
      ok, work, n, count := CopyTable(schema, order, k, src, dst, work, faults, n);
      if !ok {
        return;
      }
      FilledCount(schema, src, order, k);
      CountsGrow(order, src, counts, k, TableCount(order[k], count, |Rows(work, order[k])|));
      counts := counts + [TableCount(order[k], count, |Rows(work, order[k])|)];
    }
    assert order[..|order|] == order;
    AllBack(schema, src, order);
    AllFilled(schema, src, order);
    TargetSame(schema, src);
    ok := !faults(n);
  }

  predicate CountsMatch(order: seq<string>, src: Store, counts: seq<TableCount>) {
    |counts| == |order| && forall i :: 0 <= i < |counts| ==>
      counts[i].table == order[i] && counts[i].sourceRows == counts[i].destRows == |Rows(src, order[i])|
  }

  lemma CountsGrow(order: seq<string>, src: Store, counts: seq<TableCount>, k: nat, c: TableCount)
    requires k < |order| && CountsMatch(order[..k], src, counts)
    requires c.table == order[k] && c.sourceRows == c.destRows == |Rows(src, order[k])|
    ensures CountsMatch(order[..k + 1], src, counts + [c])
  {
    assert order[..k + 1] == order[..k] + [order[k]];
  }

  lemma FilledCount(schema: Schema, src: Store, order: seq<string>, k: nat)
    requires k < |order| && NoDup(order) && Elems(order) == schema.columns.Keys
    ensures |Rows(Filled(Target(schema, src), order, k + 1, 0), order[k])| == |Rows(src, order[k])|
  {
    assert order[k] in Elems(order) && order[k] in order[..k + 1];
  }

  class Destination {
    var tables: Store

    constructor (tables: Store)
      ensures this.tables == tables
    {
      this.tables := tables;
    }

    /** CopyData: all or nothing. Between databases whose foreign keys hold, and
        without faults, it succeeds exactly when the schema versions agree, no
        tables refer to each other in a cycle, and each row that refers to its
        own table comes after the row it refers to. */
    method CopyFrom(schema: Schema, listed: seq<string>, sameVersion: bool, src: Store, faults: nat -> bool)
      returns (report: Report)
      requires NoDup(listed) && Elems(listed) == schema.columns.Keys == tables.Keys
      modifies this
      ensures report == Failed ==> tables == old(tables)
      ensures report.Copied? ==> tables == Target(schema, src)
      ensures report.Copied? ==> SameData(schema, src, tables)
      ensures report.Copied? ==> exists order ::
        IsTopological(TopoSort.KnownGraph(listed, Parents(schema)), order) && CountsMatch(order, src, report.tables)
      ensures Prepared(schema, src, old(tables)) && (forall m :: !faults(m)) ==>
        (report.Copied? <==> sameVersion && Acyclic(TopoSort.KnownGraph(listed, Parents(schema))) && SelfReferencesComeAfter(schema, src))
    {
      hide SelfReferencesComeAfter, Acyclic, Consistent, SchemaOk, SameData;
      if !sameVersion {
        return Failed;
      }
      var sorted := TopoSort.TopoSort(listed, Parents(schema));
      if sorted.None? {
        return Failed;
      }
      var order := sorted.value;
      SameGraph(schema, listed, order);
      var ok, work, counts := Load(schema, order, src, tables, faults);
      if !ok {
        return Failed;
      }
      tables := work;
      return Copied(counts);
    }
  }

  lemma AllFilled(schema: Schema, src: Store, order: seq<string>)
    requires Elems(order) == schema.columns.Keys
    ensures Filled(Target(schema, src), order, |order|, 0) == Target(schema, src)
  {
    assert order[..|order|] == order;
    forall t | t in schema.columns ensures t in order {
      assert t in Elems(order);
    }
  }

  lemma SameGraph(schema: Schema, listed: seq<string>, order: seq<string>)
    requires IsTopological(TopoSort.KnownGraph(listed, Parents(schema)), order)
    ensures Elems(order) == Elems(listed)
    ensures TopoSort.KnownGraph(order, Parents(schema)) == TopoSort.KnownGraph(listed, Parents(schema))
  {
  }

  lemma NothingFilled(schema: Schema, db: Store, src: Store, order: seq<string>)
    requires db.Keys == schema.columns.Keys == Elems(order)
    ensures Cleared(db, order, 0) == Filled(Target(schema, src), order, 0, 0)
    ensures BackSoFar(schema, Target(schema, src), order, 0, 0) && CountsMatch(order[..0], src, [])
  {
    var target := Target(schema, src);
    assert order[0..] == order;
    forall t | t in target ensures t in order {
      assert t in Elems(order);
    }
  }
}
