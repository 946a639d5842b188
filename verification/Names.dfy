/** Table names: the order sort.Strings puts them in, and sequences as sets. */
module Names {

  /** Lexicographic order. */
  predicate Le(a: string, b: string) {
    a == [] || (b != [] && (a[0] < b[0] || (a[0] == b[0] && Le(a[1..], b[1..]))))
  }

  predicate SmallerAt(a: string, b: string, i: int) {
    0 <= i < |a| && i < |b| && a[..i] == b[..i] && a[i] < b[i]
  }

  /** A prefix comes first; otherwise the first difference decides. */
  lemma {:induction false} LeAtFirstDifference(a: string, b: string)
    ensures Le(a, b) <==> a <= b || exists i :: SmallerAt(a, b, i)
  {
    if a != [] && b != [] && a[0] == b[0] {
      var a', b' := a[1..], b[1..];
      LeAtFirstDifference(a', b');
      assert a == [a[0]] + a' && b == [b[0]] + b';
      assert a' <= b' <==> a <= b;
      if i :| SmallerAt(a', b', i) {
        assert a[..i + 1] == [a[0]] + a'[..i] && b[..i + 1] == [b[0]] + b'[..i];
        assert SmallerAt(a, b, i + 1);
      }
      if i :| SmallerAt(a, b, i) {
        assert a'[..i - 1] == a[..i][1..] && b'[..i - 1] == b[..i][1..];
        assert SmallerAt(a', b', i - 1);
      }
    } else if a != [] && b != [] {
      assert SmallerAt(a, b, 0) <==> a[0] < b[0];
    }
  }

  lemma LeTotal(a: string, b: string)
    ensures Le(a, b) || Le(b, a)
  {
  }

  lemma {:induction false} LeAntisymmetric(a: string, b: string)
    requires Le(a, b) && Le(b, a)
    ensures a == b
  {
    if a != [] {
      LeAntisymmetric(a[1..], b[1..]);
      assert a == [a[0]] + a[1..] && b == [b[0]] + b[1..];
    }
  }

  lemma {:induction false} LeTransitive(a: string, b: string, c: string)
    requires Le(a, b) && Le(b, c)
    ensures Le(a, c)
  {
    if a != [] && a[0] == c[0] {
      LeTransitive(a[1..], b[1..], c[1..]);
    }
  }

  function Elems<T>(s: seq<T>): set<T> {
    set x | x in s
  }

  ghost predicate NoDup<T>(s: seq<T>) {
    forall i, j :: 0 <= i < j < |s| ==> s[i] != s[j]
  }

  ghost predicate Ascending(s: seq<string>) {
    forall i, j :: 0 <= i < j < |s| ==> Le(s[i], s[j])
  }

  lemma {:induction false} NoDupSize<T>(s: seq<T>)
    requires NoDup(s)
    ensures |Elems(s)| == |s|
  {
    if s != [] {
      var init, last := s[..|s| - 1], s[|s| - 1];
      NoDupSize(init);
      assert Elems(s) == Elems(init) + {last};
    } else {
      assert Elems(s) == {};
    }
  }

  function Insert(x: string, s: seq<string>): (r: seq<string>)
    ensures Elems(r) == Elems(s) + {x} && |r| == |s| + 1
  {
    if s == [] || Le(x, s[0]) then [x] + s
    else
      var r := [s[0]] + Insert(x, s[1..]);
      assert Elems(r) == {s[0]} + Elems(Insert(x, s[1..])) && s == [s[0]] + s[1..];
      r
  }

  /** The result of sort.Strings. */
  function Sorted(s: seq<string>): (r: seq<string>)
    ensures Elems(r) == Elems(s) && |r| == |s|
  {
    if s == [] then []
    else
      assert s == [s[0]] + s[1..];
      Insert(s[0], Sorted(s[1..]))
  }

  lemma {:induction false} InsertAscending(x: string, s: seq<string>)
    requires Ascending(s)
    ensures Ascending(Insert(x, s))
  {
    if s == [] {
    } else if Le(x, s[0]) {
      forall i | 0 <= i < |s| ensures Le(x, s[i]) {
        if i > 0 { LeTransitive(x, s[0], s[i]); }
      }
    } else {
      LeTotal(x, s[0]);
      InsertAscending(x, s[1..]);
      var r := Insert(x, s[1..]);
      forall i | 0 <= i < |r| ensures Le(s[0], r[i]) {
        assert r[i] in Elems(r);
        LeRefl(s[0]);
      }
    }
  }

  lemma LeRefl(a: string)
    ensures Le(a, a)
  {
  }

  lemma {:induction false} SortedAscending(s: seq<string>)
    ensures Ascending(Sorted(s))
  {
    if s != [] {
      SortedAscending(s[1..]);
      InsertAscending(s[0], Sorted(s[1..]));
    }
  }

  /** Sorting keeps a sequence free of duplicates: same elements, same length. */
  lemma SortedNoDup(s: seq<string>)
    requires NoDup(s)
    ensures NoDup(Sorted(s))
  {
    NoDupSize(s);
    SizeNoDup(Sorted(s));
  }

  lemma {:induction false} SizeNoDup<T>(s: seq<T>)
    requires |Elems(s)| == |s|
    ensures NoDup(s)
  {
    if s != [] {
      var init, last := s[..|s| - 1], s[|s| - 1];
      assert Elems(s) == Elems(init) + {last};
      ElemsSize(init);
      SizeNoDup(init);
      forall i | 0 <= i < |init| ensures s[i] != last {
        assert init[i] in Elems(init);
      }
    }
  }

  lemma {:induction false} ElemsSize<T>(s: seq<T>)
    ensures |Elems(s)| <= |s|
  {
    if s != [] {
      var init, last := s[..|s| - 1], s[|s| - 1];
      ElemsSize(init);
      assert Elems(s) == Elems(init) + {last};
    } else {
      assert Elems(s) == {};
    }
  }
}
