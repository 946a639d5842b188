/** What a foreign-key graph's copy order is, apart from how it is computed. */
module TopoSpec {
  import opened Names

  /** Each table with the known tables it references. */
  type Graph = map<string, set<string>>

  ghost predicate Closed(g: Graph) {
    forall t :: t in g ==> g[t] <= g.Keys
  }

  /** The tables whose parents are all in place. */
  function Available(g: Graph, placed: set<string>): set<string> {
    set t | t in g && t !in placed && g[t] <= placed
  }

  /** Every parent before its children, every table exactly once. */
  ghost predicate IsTopological(g: Graph, order: seq<string>) {
    && NoDup(order) && Elems(order) == g.Keys
    && forall i {:trigger order[i]} :: 0 <= i < |order| ==> order[i] in g && g[order[i]] <= Elems(order[..i])
  }

  /** A closed walk against the foreign keys; a self-reference is one. */
  ghost predicate IsCycle(g: Graph, c: seq<string>) {
    && |c| > 0
    && (forall i {:trigger c[i]} :: 0 <= i < |c| ==> c[i] in g)
    && (forall i :: 0 <= i < |c| - 1 ==> c[i + 1] in g[c[i]])
    && c[0] in g[c[|c| - 1]]
  }

  ghost predicate Acyclic(g: Graph) {
    forall c :: !IsCycle(g, c)
  }

  ghost predicate IsLeast(t: string, s: set<string>) {
    t in s && forall u :: u in s ==> Le(t, u)
  }

  /** Each table is the least of those available when it is placed. */
  ghost predicate Greedy(g: Graph, order: seq<string>) {
    forall i {:trigger order[i]} :: 0 <= i < |order| ==> IsLeast(order[i], Available(g, Elems(order[..i])))
  }

  ghost predicate Exhausted(g: Graph, order: seq<string>) {
    Greedy(g, order) && Available(g, Elems(order)) == {}
  }

  /** other differs from order first at a place where it has a later name. */
  ghost predicate FirstDiffersLater(order: seq<string>, other: seq<string>) {
    exists i :: 0 <= i < |order| && 0 <= i < |other| && order[..i] == other[..i]
                && order[i] != other[i] && Le(order[i], other[i])
  }

  // ----- a greedy order places tables once, parents first -----

  lemma GreedyPlaces(g: Graph, order: seq<string>, i: nat)
    requires Greedy(g, order) && i < |order|
    ensures order[i] in g && order[i] !in Elems(order[..i]) && g[order[i]] <= Elems(order[..i])
  {
    assert IsLeast(order[i], Available(g, Elems(order[..i])));
  }

  lemma GreedyDistinct(g: Graph, order: seq<string>)
    requires Greedy(g, order)
    ensures NoDup(order) && Elems(order) <= g.Keys
  {
    forall i, j | 0 <= i < j < |order| ensures order[i] != order[j] {
      GreedyPlaces(g, order, j);
      assert order[..j][i] in Elems(order[..j]);
    }
    forall t | t in Elems(order) ensures t in g {
      var i :| 0 <= i < |order| && order[i] == t;
      GreedyPlaces(g, order, i);
    }
  }

  lemma FullIsTopological(g: Graph, order: seq<string>)
    requires Greedy(g, order) && |order| == |g|
    ensures IsTopological(g, order)
  {
    GreedyDistinct(g, order);
    NoDupSize(order);
    SubsetOfSameSize(Elems(order), g.Keys);
    forall i | 0 <= i < |order| ensures order[i] in g && g[order[i]] <= Elems(order[..i]) {
      GreedyPlaces(g, order, i);
    }
  }

  lemma SubsetOfSameSize<T>(a: set<T>, b: set<T>)
    requires a <= b && |a| == |b|
    ensures a == b
  {
    assert b == a + (b - a);
    assert |b - a| == 0;
  }

  // ----- an order exists exactly when there is no cycle -----

  lemma {:induction false} PlacedBefore(g: Graph, order: seq<string>, c: seq<string>, i: nat, k: nat)
    requires IsTopological(g, order) && IsCycle(g, c) && i < |c| && k < |order| && order[k] == c[i]
    ensures false
    decreases k
  {
    var j := if i + 1 < |c| then i + 1 else 0;
    assert c[j] in g[order[k]] && g[order[k]] <= Elems(order[..k]);
    var m :| 0 <= m < k && order[..k][m] == c[j];
    PlacedBefore(g, order, c, j, m);
  }

  lemma TopologicalMeansAcyclic(g: Graph, order: seq<string>)
    requires IsTopological(g, order)
    ensures Acyclic(g)
  {
    forall c ensures !IsCycle(g, c) {
      if IsCycle(g, c) {
        assert c[0] in Elems(order);
        var k :| 0 <= k < |order| && order[k] == c[0];
        PlacedBefore(g, order, c, 0, k);
      }
    }
  }

  /** A walk from parent to parent among the tables left over. */
  ghost predicate IsWalk(g: Graph, rest: set<string>, w: seq<string>) {
    && (forall i {:trigger w[i]} :: 0 <= i < |w| ==> w[i] in g && w[i] in rest)
    && (forall i :: 0 <= i < |w| - 1 ==> w[i + 1] in g[w[i]])
  }

  lemma {:induction false} WalkOf(g: Graph, rest: set<string>, n: nat) returns (w: seq<string>)
    requires rest <= g.Keys && rest != {} && forall t :: t in rest ==> g[t] * rest != {}
    ensures IsWalk(g, rest, w) && |w| == n + 1
    decreases n
  {
    if n == 0 {
      var t :| t in rest;
      w := [t];
    } else {
      var v := WalkOf(g, rest, n - 1);
      var last := v[|v| - 1];
      var p :| p in g[last] * rest;
      w := v + [p];
      forall i | 0 <= i < |w| - 1 ensures w[i + 1] in g[w[i]] {
        if i < |v| - 1 { assert w[i + 1] == v[i + 1]; }
      }
    }
  }

  lemma Repeats(rest: set<string>, w: seq<string>) returns (i: nat, j: nat)
    requires Elems(w) <= rest && |w| > |rest|
    ensures i < j < |w| && w[i] == w[j]
  {
    if NoDup(w) {
      NoDupSize(w);
      SubsetSize(Elems(w), rest);
    }
    i, j :| 0 <= i < j < |w| && w[i] == w[j];
  }

  lemma SubsetSize<T>(a: set<T>, b: set<T>)
    requires a <= b
    ensures |a| <= |b|
  {
    assert b == a + (b - a);
  }

  lemma WalkClosesCycle(g: Graph, rest: set<string>, w: seq<string>, i: nat, j: nat)
    requires IsWalk(g, rest, w) && i < j < |w| && w[i] == w[j]
    ensures IsCycle(g, w[i..j])
  {
    var c := w[i..j];
    forall k | 0 <= k < |c| - 1 ensures c[k + 1] in g[c[k]] {
      assert c[k] == w[i + k] && c[k + 1] == w[i + k + 1];
    }
    assert w[j - 1 + 1] in g[w[j - 1]];
  }

  lemma Leftover(g: Graph, order: seq<string>) returns (rest: set<string>)
    requires Exhausted(g, order) && |order| != |g|
    ensures rest == g.Keys - Elems(order) && rest != {}
  {
    GreedyDistinct(g, order);
    NoDupSize(order);
    rest := g.Keys - Elems(order);
    assert Elems(order) != g.Keys;
    assert g.Keys == Elems(order) + rest;
  }

  lemma LeftoverMeansCycle(g: Graph, order: seq<string>)
    requires Closed(g) && Exhausted(g, order) && |order| != |g|
    ensures !Acyclic(g)
  {
    var rest := Leftover(g, order);
    forall t | t in rest ensures g[t] * rest != {} {
      assert t !in Available(g, Elems(order));
      var p :| p in g[t] && p !in Elems(order);
      assert p in g[t] * rest;
    }
    var w := WalkOf(g, rest, |rest|);
    assert Elems(w) <= rest;
    var i, j := Repeats(rest, w);
    WalkClosesCycle(g, rest, w, i, j);
  }

  /** Placing the least available table until none is left places all tables
      exactly when there is no cycle. */
  lemma AllPlacedExactlyWhenAcyclic(g: Graph, order: seq<string>)
    requires Closed(g) && Exhausted(g, order)
    ensures |order| == |g| <==> Acyclic(g)
    ensures |order| == |g| ==> IsTopological(g, order)
  {
    if |order| == |g| {
      FullIsTopological(g, order);
      TopologicalMeansAcyclic(g, order);
    } else {
      LeftoverMeansCycle(g, order);
    }
  }

  // ----- it is the least order, hence the only one -----

  lemma {:induction false} FirstDifference(a: seq<string>, b: seq<string>) returns (i: nat)
    requires a != b && |a| == |b|
    ensures i < |a| && a[..i] == b[..i] && a[i] != b[i]
    decreases |a|
  {
    if a[0] != b[0] {
      i := 0;
    } else {
      assert a == [a[0]] + a[1..] && b == [b[0]] + b[1..];
      var k := FirstDifference(a[1..], b[1..]);
      i := k + 1;
      assert a[..i] == [a[0]] + a[1..][..k] && b[..i] == [b[0]] + b[1..][..k];
    }
  }

  lemma GreedyIsLeast(g: Graph, order: seq<string>, other: seq<string>)
    requires Greedy(g, order) && |order| == |g| && IsTopological(g, other) && other != order
    ensures FirstDiffersLater(order, other)
  {
    NoDupSize(other);
    var i := FirstDifference(order, other);
    assert other[i] in g && g[other[i]] <= Elems(other[..i]);
    assert other[i] !in Elems(other[..i]);
    assert other[i] in Available(g, Elems(order[..i]));
    assert IsLeast(order[i], Available(g, Elems(order[..i])));
  }

  lemma GreedyIsUnique(g: Graph, a: seq<string>, b: seq<string>)
    requires Exhausted(g, a) && Exhausted(g, b)
    ensures a == b
  {
    if |a| <= |b| { ShorterIsSame(g, a, b); } else { ShorterIsSame(g, b, a); }
  }

  lemma ShorterIsSame(g: Graph, a: seq<string>, b: seq<string>)
    requires Exhausted(g, a) && Greedy(g, b) && |a| <= |b|
    ensures a == b
  {
    SharedStart(g, a, b, |a|);
    assert a[..|a|] == a && b[..|b|] == b;
    GreedyGoesOn(g, b, |a|);
  }

  lemma GreedyGoesOn(g: Graph, b: seq<string>, n: nat)
    requires Greedy(g, b) && n <= |b|
    ensures n < |b| ==> Available(g, Elems(b[..n])) != {}
  {
    if n < |b| {
      assert IsLeast(b[n], Available(g, Elems(b[..n])));
    }
  }

  lemma {:induction false} SharedStart(g: Graph, a: seq<string>, b: seq<string>, n: nat)
    requires Greedy(g, a) && Greedy(g, b) && n <= |a| <= |b|
    ensures a[..n] == b[..n]
    decreases n
  {
    if n > 0 {
      SharedStart(g, a, b, n - 1);
      assert IsLeast(a[n - 1], Available(g, Elems(a[..n - 1])));
      assert IsLeast(b[n - 1], Available(g, Elems(b[..n - 1])));
      LeAntisymmetric(a[n - 1], b[n - 1]);
      assert a[..n] == a[..n - 1] + [a[n - 1]] && b[..n] == b[..n - 1] + [b[n - 1]];
    }
  }
}
