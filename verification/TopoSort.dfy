/** topoSort: Kahn's algorithm over mutable in-degrees, children and a queue
    that is kept sorted. */
module TopoSort {
  import opened Options
  import opened Names
  import opened TopoSpec

  function ParentsOf(parents: map<string, set<string>>, t: string): set<string> {
    if t in parents then parents[t] else {}
  }

  /** The foreign keys among the listed tables. */
  function KnownGraph(tables: seq<string>, parents: map<string, set<string>>): Graph {
    map t | t in Elems(tables) :: ParentsOf(parents, t) * Elems(tables)
  }

  /** Missing entries of the two maps are zero and empty. */
  function Degree(indeg: map<string, int>, t: string): int {
    if t in indeg then indeg[t] else 0
  }

  function Children(children: map<string, seq<string>>, p: string): seq<string> {
    if p in children then children[p] else []
  }

  /** What the children lists hold when only the tables in done have been read. */
  ghost predicate ChildrenOf(g: Graph, done: set<string>, children: map<string, seq<string>>) {
    forall p {:trigger Children(children, p)} ::
      NoDup(Children(children, p))
      && forall t {:trigger t in Children(children, p)} :: t in Children(children, p) <==> t in done && t in g && p in g[t]
  }

  /** Each table left counts its parents that are not placed. */
  ghost predicate CountsUnplaced(g: Graph, placed: set<string>, indeg: map<string, int>) {
    forall t {:trigger Degree(indeg, t)} :: t in g && t !in placed ==> Degree(indeg, t) == |g[t] - placed|
  }

  lemma NoDupAppend(s: seq<string>, x: string)
    requires NoDup(s) && x !in s
    ensures NoDup(s + [x])
  {
  }

  lemma KnownGraphClosed(tables: seq<string>, parents: map<string, set<string>>)
    ensures Closed(KnownGraph(tables, parents))
  {
  }

  /** The known parents seen so far have t as their last child. */
  ghost predicate Extended(t: string, marked: set<string>, before: map<string, seq<string>>, after: map<string, seq<string>>) {
    forall p {:trigger Children(after, p)} ::
      Children(after, p) == if p in marked then Children(before, p) + [t] else Children(before, p)
  }

  lemma ChildAdded(t: string, p: string, known: set<string>, seen: set<string>, seen': set<string>,
                   children0: map<string, seq<string>>, before: map<string, seq<string>>, after: map<string, seq<string>>)
    requires p !in seen && seen' == seen + {p} && Extended(t, seen * known, children0, before)
    requires after == if p in known then before[p := Children(before, p) + [t]] else before
    ensures Extended(t, seen' * known, children0, after)
  {
    forall q ensures Children(after, q) == if q in seen' * known then Children(children0, q) + [t] else Children(children0, q) {
      assert Children(before, q) == if q in seen * known then Children(children0, q) + [t] else Children(children0, q);
    }
  }

  /** The loop over one table's parents. */
  method AddParents(t: string, ghost g: Graph, ghost before: set<string>, ps: set<string>, known: set<string>,
                    indeg0: map<string, int>, children0: map<string, seq<string>>)
    returns (indeg: map<string, int>, children: map<string, seq<string>>)
    requires t in g && g[t] == ps * known && t !in before && ChildrenOf(g, before, children0) && Degree(indeg0, t) == 0
    ensures Degree(indeg, t) == |g[t]| && forall u :: u != t ==> Degree(indeg, u) == Degree(indeg0, u)
    ensures ChildrenOf(g, before + {t}, children)
  {
    indeg, children := indeg0, children0;
    var rest, seen := ps, {};
    while rest != {}
      invariant rest !! seen && rest + seen == ps
      invariant Degree(indeg, t) == |seen * known|
      invariant forall u :: u != t ==> Degree(indeg, u) == Degree(indeg0, u)
      invariant Extended(t, seen * known, children0, children)
      decreases rest
    {
      var p :| p in rest;
      OneMore(seen, known, p);
      ghost var children1, seen1 := children, seen;
      rest, seen := rest - {p}, seen + {p};
      if p in known {
        indeg := indeg[t := Degree(indeg, t) + 1];
        children := children[p := Children(children, p) + [t]];
      }
      ChildAdded(t, p, known, seen1, seen, children0, children1, children);
    }
    assert seen * known == g[t];
    ChildrenExtended(g, before, t, children0, children);
  }

  lemma ChildrenExtended(g: Graph, before: set<string>, t: string, children0: map<string, seq<string>>, children: map<string, seq<string>>)
    requires t in g && t !in before && ChildrenOf(g, before, children0)
    requires forall p {:trigger Children(children, p)} ::
      Children(children, p) == if p in g[t] then Children(children0, p) + [t] else Children(children0, p)
    ensures ChildrenOf(g, before + {t}, children)
  {
    forall p ensures NoDup(Children(children, p))
      && forall u {:trigger u in Children(children, p)} :: u in Children(children, p) <==> u in before + {t} && u in g && p in g[u] {
      var old0 := Children(children0, p);
      assert t !in old0;
      NoDupAppend(old0, t);
      assert Children(children, p) == if p in g[t] then old0 + [t] else old0;
    }
  }

  lemma OneMore(seen: set<string>, known: set<string>, p: string)
    requires p !in seen
    ensures |(seen + {p}) * known| == |seen * known| + (if p in known then 1 else 0)
  {
    assert (seen + {p}) * known == if p in known then seen * known + {p} else seen * known;
  }

  method CountParents(tables: seq<string>, parents: map<string, set<string>>)
    returns (indeg: map<string, int>, children: map<string, seq<string>>)
    requires NoDup(tables)
    ensures CountsUnplaced(KnownGraph(tables, parents), {}, indeg)
    ensures ChildrenOf(KnownGraph(tables, parents), Elems(tables), children)
  {
    ghost var g := KnownGraph(tables, parents);
    var known := Elems(tables);
    indeg, children := map[], map[];
    for i := 0 to |tables|
      invariant ChildrenOf(g, Elems(tables[..i]), children)
      invariant forall t {:trigger Degree(indeg, t)} :: t in g ==> Degree(indeg, t) == if t in tables[..i] then |g[t]| else 0
    {
      var t := tables[i];
      assert t in known && t !in tables[..i];
      assert Elems(tables[..i + 1]) == Elems(tables[..i]) + {t};
      assert Degree(indeg, t) == 0;
      indeg, children := AddParents(t, g, Elems(tables[..i]), ParentsOf(parents, t), known, indeg, children);
    }
    assert tables[..|tables|] == tables;
    forall t | t in g ensures Degree(indeg, t) == |g[t] - {}| {
      assert t in tables;
      assert g[t] - {} == g[t];
    }
  }

  // ----- placing a table -----

  /** The tables of next that have become available with t placed. */
  function Freed(g: Graph, placed: set<string>, next: seq<string>): set<string> {
    set c | c in next && c in g && g[c] <= placed
  }

  lemma OneParentLess(g: Graph, placed: set<string>, t: string, c: string)
    requires c in g && t in g[c] && t !in placed
    ensures |g[c] - (placed + {t})| == |g[c] - placed| - 1
    ensures |g[c] - (placed + {t})| == 0 <==> g[c] <= placed + {t}
  {
    assert g[c] - placed == (g[c] - (placed + {t})) + {t};
    if |g[c] - (placed + {t})| == 0 {
      assert g[c] - (placed + {t}) == {};
    }
  }

  lemma AvailableAfter(g: Graph, placed: set<string>, t: string, next: seq<string>)
    requires t in Available(g, placed)
    requires forall c {:trigger c in next} :: c in next <==> c in g && t in g[c]
    requires forall c :: c in next ==> c !in placed + {t}
    ensures Available(g, placed + {t}) == (Available(g, placed) - {t}) + Freed(g, placed + {t}, next)
  {
    forall c | c in Available(g, placed + {t}) ensures c in (Available(g, placed) - {t}) + Freed(g, placed + {t}, next) {
      if c !in next { assert t !in g[c]; assert g[c] <= placed; }
    }
  }

  /** The counts while t's children are being released, those in done already. */
  ghost predicate Releasing(g: Graph, placed: set<string>, t: string, done: set<string>, indeg: map<string, int>) {
    forall u {:trigger Degree(indeg, u)} :: u in g && u !in placed + {t} ==>
      Degree(indeg, u) == |g[u] - (if u in done then placed + {t} else placed)|
  }

  lemma ReleaseOne(g: Graph, placed: set<string>, t: string, done: set<string>, c: string, indeg: map<string, int>)
    requires Releasing(g, placed, t, done, indeg) && c in g && c !in done && c !in placed + {t} && t in g[c] && t !in placed
    ensures var indeg' := indeg[c := Degree(indeg, c) - 1];
      Releasing(g, placed, t, done + {c}, indeg') && (Degree(indeg', c) == 0 <==> g[c] <= placed + {t})
  {
    OneParentLess(g, placed, t, c);
    var indeg' := indeg[c := Degree(indeg, c) - 1];
    forall u | u in g && u !in placed + {t}
      ensures Degree(indeg', u) == |g[u] - (if u in done + {c} then placed + {t} else placed)| {
      assert Degree(indeg, u) == |g[u] - (if u in done then placed + {t} else placed)|;
    }
  }

  lemma FreeOne(g: Graph, placed: set<string>, next: seq<string>, j: nat)
    requires j < |next| && next[j] in g
    ensures Elems(next[..j + 1]) == Elems(next[..j]) + {next[j]}
    ensures Freed(g, placed, next[..j + 1]) == Freed(g, placed, next[..j]) + (if g[next[j]] <= placed then {next[j]} else {})
  {
    assert next[..j + 1] == next[..j] + [next[j]];
  }

  lemma CountsAfter(g: Graph, placed: set<string>, t: string, next: seq<string>, indeg: map<string, int>)
    requires forall c {:trigger c in next} :: c in next <==> c in g && t in g[c]
    requires Releasing(g, placed, t, Elems(next), indeg)
    ensures CountsUnplaced(g, placed + {t}, indeg)
  {
    forall u | u in g && u !in placed + {t} ensures Degree(indeg, u) == |g[u] - (placed + {t})| {
      if u !in next { assert g[u] - placed == g[u] - (placed + {t}); }
    }
  }

  lemma NothingReleased(g: Graph, placed: set<string>, t: string, next: seq<string>, indeg: map<string, int>)
    requires CountsUnplaced(g, placed, indeg)
    ensures Releasing(g, placed, t, Elems(next[..0]), indeg) && Freed(g, placed + {t}, next[..0]) == {}
  {
  }

  /** next lists the children of t, none of them placed. */
  ghost predicate Lists(g: Graph, placed: set<string>, t: string, next: seq<string>) {
    && NoDup(next)
    && (forall c {:trigger c in next} :: c in next <==> c in g && t in g[c])
    && (forall c :: c in next ==> c !in placed + {t})
  }

  /** The queue with the children freed so far at its end. */
  ghost predicate Queued(g: Graph, placed: set<string>, t: string, next: seq<string>, j: nat, queue: seq<string>) {
    && j <= |next| && NoDup(queue)
    && Elems(queue) == (Available(g, placed) - {t}) + Freed(g, placed + {t}, next[..j])
  }

  lemma QueueOne(g: Graph, placed: set<string>, t: string, next: seq<string>, j: nat, queue: seq<string>)
    requires Queued(g, placed, t, next, j, queue) && Lists(g, placed, t, next) && j < |next| && t !in placed
    ensures next[j] in g
    ensures Queued(g, placed, t, next, j + 1, if g[next[j]] <= placed + {t} then queue + [next[j]] else queue)
  {
    var c := next[j];
    assert c in next && c !in next[..j];
    assert c !in Elems(queue);
    FreeOne(g, placed + {t}, next, j);
    NoDupAppend(queue, c);
    assert Elems(queue + [c]) == Elems(queue) + {c};
  }

  lemma ReleaseNext(g: Graph, placed: set<string>, t: string, next: seq<string>, j: nat, indeg: map<string, int>)
    requires j < |next| && Releasing(g, placed, t, Elems(next[..j]), indeg) && Lists(g, placed, t, next) && t !in placed
    ensures next[j] in g
    ensures var indeg' := indeg[next[j] := Degree(indeg, next[j]) - 1];
      && Releasing(g, placed, t, Elems(next[..j + 1]), indeg')
      && (Degree(indeg', next[j]) == 0 <==> g[next[j]] <= placed + {t})
  {
    var c := next[j];
    assert c in next && c !in next[..j];
    FreeOne(g, placed, next, j);
    ReleaseOne(g, placed, t, Elems(next[..j]), c, indeg);
  }

  /** The loop over the children of the table just placed. */
  method ReleaseChildren(ghost g: Graph, ghost placed: set<string>, ghost t: string, next: seq<string>,
                         indeg0: map<string, int>, queue0: seq<string>)
    returns (indeg: map<string, int>, queue: seq<string>)
    requires t in Available(g, placed) && Lists(g, placed, t, next)
    requires CountsUnplaced(g, placed, indeg0) && NoDup(queue0) && Elems(queue0) == Available(g, placed) - {t}
    ensures CountsUnplaced(g, placed + {t}, indeg)
    ensures NoDup(queue) && Elems(queue) == Available(g, placed + {t})
  {
    NothingReleased(g, placed, t, next, indeg0);
    indeg, queue := indeg0, queue0;
    for j := 0 to |next|
      invariant Releasing(g, placed, t, Elems(next[..j]), indeg)
      invariant Queued(g, placed, t, next, j, queue)
    {
      hide Releasing, Queued, Lists, NoDup;
      var c := next[j];
      ReleaseNext(g, placed, t, next, j, indeg);
      QueueOne(g, placed, t, next, j, queue);
      indeg := indeg[c := Degree(indeg, c) - 1];
      if Degree(indeg, c) == 0 {
        queue := queue + [c];
      }
    }
    assert next[..|next|] == next;
    CountsAfter(g, placed, t, next, indeg);
    AvailableAfter(g, placed, t, next);
  }

  lemma GreedyAppend(g: Graph, order: seq<string>, t: string)
    requires Greedy(g, order) && IsLeast(t, Available(g, Elems(order)))
    ensures Greedy(g, order + [t]) && Elems(order + [t]) == Elems(order) + {t}
  {
    var order' := order + [t];
    forall i | 0 <= i < |order'| ensures IsLeast(order'[i], Available(g, Elems(order'[..i]))) {
      assert order'[..i] == order[..i];
      if i < |order| {
        assert IsLeast(order[i], Available(g, Elems(order[..i])));
      } else {
        assert order[..i] == order;
      }
    }
  }

  /** A table's children are never placed before it. */
  lemma ChildrenUnplaced(g: Graph, order: seq<string>, t: string, c: string)
    requires Greedy(g, order) && t in Available(g, Elems(order)) && c in g && t in g[c]
    ensures c !in Elems(order) + {t}
  {
    forall i | 0 <= i < |order| ensures order[i] != c {
      GreedyPlaces(g, order, i);
      assert t !in Elems(order[..i]);
    }
  }

  lemma SortedChildren(g: Graph, order: seq<string>, t: string, children: map<string, seq<string>>, all: set<string>)
    requires Greedy(g, order) && t in Available(g, Elems(order)) && ChildrenOf(g, all, children) && all == g.Keys
    ensures Lists(g, Elems(order), t, Sorted(Children(children, t)))
  {
    var next := Sorted(Children(children, t));
    SortedNoDup(Children(children, t));
    forall c ensures c in next <==> c in g && t in g[c] {
      assert c in next <==> c in Elems(next);
      assert c in Children(children, t) <==> c in Elems(Children(children, t));
    }
    forall c | c in next ensures c !in Elems(order) + {t} {
      ChildrenUnplaced(g, order, t, c);
    }
  }

  method Place(ghost g: Graph, tables: seq<string>, indeg0: map<string, int>, children: map<string, seq<string>>)
    returns (order: seq<string>)
    requires Elems(tables) == g.Keys && NoDup(tables)
    requires CountsUnplaced(g, {}, indeg0) && ChildrenOf(g, Elems(tables), children)
    ensures Exhausted(g, order)
  {
    var indeg := indeg0;
    var queue := Roots(g, tables, indeg);
    order := [];
    while |queue| > 0
      invariant Greedy(g, order) && CountsUnplaced(g, Elems(order), indeg)
      invariant NoDup(queue) && Ascending(queue) && Elems(queue) == Available(g, Elems(order))
      decreases g.Keys - Elems(order)
    {
      var t := queue[0];
      LeastFirst(g, order, queue);
      ghost var placed := Elems(order);
      assert Elems(queue[1..]) == Available(g, placed) - {t} by { HeadAndRest(queue); }
      queue := queue[1..];
      GreedyAppend(g, order, t);
      var next := Sorted(Children(children, t));
      SortedChildren(g, order, t, children, Elems(tables));
      order := order + [t];
      indeg, queue := ReleaseChildren(g, placed, t, next, indeg, queue);
      SortedNoDup(queue);
      SortedAscending(queue);
      queue := Sorted(queue);
    }
    assert Elems(queue) == {};
  }

  lemma HeadAndRest(queue: seq<string>)
    requires NoDup(queue) && |queue| > 0
    ensures NoDup(queue[1..]) && Elems(queue[1..]) == Elems(queue) - {queue[0]}
  {
    assert queue == [queue[0]] + queue[1..];
  }

  lemma LeastFirst(g: Graph, order: seq<string>, queue: seq<string>)
    requires |queue| > 0 && Ascending(queue) && Elems(queue) == Available(g, Elems(order))
    ensures IsLeast(queue[0], Available(g, Elems(order)))
  {
    assert queue[0] in Elems(queue);
    forall u | u in Elems(queue) ensures Le(queue[0], u) {
      var k :| 0 <= k < |queue| && queue[k] == u;
      LeRefl(u);
    }
  }

  method Roots(ghost g: Graph, tables: seq<string>, indeg: map<string, int>) returns (queue: seq<string>)
    requires Elems(tables) == g.Keys && NoDup(tables) && CountsUnplaced(g, {}, indeg)
    ensures NoDup(queue) && Ascending(queue) && Elems(queue) == Available(g, {})
  {
    queue := [];
    for i := 0 to |tables|
      invariant NoDup(queue) && forall t {:trigger t in queue} :: t in queue <==> t in tables[..i] && Degree(indeg, t) == 0
    {
      if Degree(indeg, tables[i]) == 0 {
        NoDupAppend(queue, tables[i]);
        queue := queue + [tables[i]];
      }
      assert tables[..i + 1] == tables[..i] + [tables[i]];
    }
    assert tables[..|tables|] == tables;
    forall t ensures t in Elems(queue) <==> t in Available(g, {}) {
      if t in g {
        assert t in Elems(tables) && Degree(indeg, t) == |g[t] - {}|;
        assert g[t] - {} == g[t];
      } else {
        assert t !in Elems(tables);
      }
    }
    SortedNoDup(queue);
    SortedAscending(queue);
    queue := Sorted(queue);
  }

  /** topoSort: an order exactly when the foreign keys among the listed tables
      have no cycle; then parents come before children, and the order is the
      least such one. */
  method TopoSort(tables: seq<string>, parents: map<string, set<string>>) returns (order: Option<seq<string>>)
    requires NoDup(tables)
    ensures order.Some? <==> Acyclic(KnownGraph(tables, parents))
    ensures order.Some? ==> IsTopological(KnownGraph(tables, parents), order.value)
    ensures order.Some? ==> forall other :: IsTopological(KnownGraph(tables, parents), other) && other != order.value
                              ==> FirstDiffersLater(order.value, other)
    ensures order.Some? ==> Exhausted(KnownGraph(tables, parents), order.value)
  {
    ghost var g := KnownGraph(tables, parents);
    KnownGraphClosed(tables, parents);
    NoDupSize(tables);
    assert g.Keys == Elems(tables);
    assert |g| == |g.Keys|;
    var indeg, children := CountParents(tables, parents);
    var placed := Place(g, tables, indeg, children);
    AllPlacedExactlyWhenAcyclic(g, placed);
    if |placed| != |tables| {
      return None;
    }
    forall other | IsTopological(g, other) && other != placed ensures FirstDiffersLater(placed, other) {
      GreedyIsLeast(g, placed, other);
    }
    return Some(placed);
  }

  /** The order does not depend on how the tables are listed. */
  lemma ListingDoesNotMatter(tables: seq<string>, listed: seq<string>, parents: map<string, set<string>>,
                             a: seq<string>, b: seq<string>)
    requires Elems(tables) == Elems(listed)
    requires Exhausted(KnownGraph(tables, parents), a) && Exhausted(KnownGraph(listed, parents), b)
    ensures a == b
  {
    assert KnownGraph(tables, parents) == KnownGraph(listed, parents);
    GreedyIsUnique(KnownGraph(tables, parents), a, b);
  }
}
