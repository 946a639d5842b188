/** A database whose foreign keys hold and whose copy fails. */
module CopyWitness {
  import opened Names
  import opened TopoSpec
  import opened CopyData
  import TopoSort

  /** Row 1 refers to row 2 of its own table, which comes after it. */
  const UP: ForeignKey := ForeignKey("t", ["u"], "t", ["i"])
  const FIRST: Row := map["i" := Int(1), "u" := Int(2)]
  const SECOND: Row := map["i" := Int(2), "u" := Null]
  const FORWARD_SCHEMA: Schema := Schema(map["t" := map["i" := false, "u" := false]], {UP})
  const FORWARD: Store := map["t" := [FIRST, SECOND]]

  lemma ForwardKeys()
    ensures Key(FIRST, ["u"]) == [Int(2)] && Key(FIRST, ["i"]) == [Int(1)]
    ensures Key(SECOND, ["u"]) == [Null] && Key(SECOND, ["i"]) == [Int(2)]
  {
  }

  lemma ForwardTarget()
    ensures Target(FORWARD_SCHEMA, FORWARD) == FORWARD
  {
    assert Coerced(FIRST, FORWARD_SCHEMA.columns["t"]) == FIRST;
    assert Coerced(SECOND, FORWARD_SCHEMA.columns["t"]) == SECOND;
    var rows := CoercedRows([FIRST, SECOND], FORWARD_SCHEMA.columns["t"]);
    assert rows == [rows[0], rows[1]];
  }

  lemma ForwardConsistent()
    ensures Consistent(FORWARD_SCHEMA, FORWARD)
  {
    ForwardKeys();
    var rows := [FIRST, SECOND];
    assert Key(rows[1], UP.refs) == Key(rows[0], UP.cols);
    assert Refers(rows[0], UP.cols, rows, UP.refs);
    assert Null in Key(rows[1], UP.cols);
  }

  /** Satisfied foreign keys alone do not make a copy succeed. */
  lemma ForwardSelfReference()
    ensures Consistent(FORWARD_SCHEMA, FORWARD) && !SelfReferencesComeAfter(FORWARD_SCHEMA, FORWARD)
  {
    ForwardConsistent();
    ForwardTarget();
    ForwardKeys();
    assert !RefersBack(FORWARD, UP, 0);
    assert !RefersBack(Target(FORWARD_SCHEMA, FORWARD), UP, 0);
  }

  const EMPTY: Store := map["t" := []]

  /** The witness meets every other condition of a copy. */
  lemma ForwardPrepared()
    ensures Prepared(FORWARD_SCHEMA, FORWARD, EMPTY) && Acyclic(TopoSort.KnownGraph(["t"], Parents(FORWARD_SCHEMA)))
  {
    ForwardConsistent();
    assert KeyOk(FORWARD_SCHEMA, UP);
    assert Consistent(FORWARD_SCHEMA, EMPTY);
    assert HasColumns(FORWARD_SCHEMA, FORWARD, "t");
    var g := TopoSort.KnownGraph(["t"], Parents(FORWARD_SCHEMA));
    forall c ensures !IsCycle(g, c) {
    }
  }

  /** A source whose foreign keys hold, and a destination without a fault, whose
      copy fails. */
  method ForwardCopyFails() returns (report: Report)
    ensures report == Failed
  {
    hide Prepared, SelfReferencesComeAfter, Consistent, Acyclic, IsTopological, CountsMatch, Target;
    var d := new Destination(EMPTY);
    ForwardPrepared();
    ForwardSelfReference();
    assert Elems(["t"]) == {"t"} && NoDup(["t"]);
    report := d.CopyFrom(FORWARD_SCHEMA, ["t"], true, FORWARD, (_: nat) => false);
  }
}
