/** Scope strings and the sets they stand for: the step from the strings that
    the handlers pass around to the sets of the grant model. */
module Scopes {
  import opened Options

  predicate IsSpace(c: char) {
    c == ' ' || 9 <= c as int <= 13
  }

  function Skip(s: string): string {
    if s != [] && IsSpace(s[0]) then Skip(s[1..]) else s
  }

  function FirstWord(s: string): (w: string)
    ensures w <= s && (|w| < |s| ==> IsSpace(s[|w|])) && forall i :: 0 <= i < |w| ==> !IsSpace(w[i])
  {
    if s == [] || IsSpace(s[0]) then [] else [s[0]] + FirstWord(s[1..])
  }

  lemma {:induction false} SkipShortens(s: string)
    ensures |Skip(s)| <= |s| && (Skip(s) != [] ==> !IsSpace(Skip(s)[0]) && FirstWord(Skip(s)) != [])
  {
    if s != [] && IsSpace(s[0]) { SkipShortens(s[1..]); }
  }

  /** strings.Fields */
  function SplitScope(s: string): (words: seq<string>)
    ensures AllWords(words)
    decreases |s|
  {
    SkipShortens(s);
    var t := Skip(s);
    if t == [] then [] else [FirstWord(t)] + SplitScope(t[|FirstWord(t)|..])
  }

  predicate Word(w: string) {
    w != [] && forall i :: 0 <= i < |w| ==> !IsSpace(w[i])
  }

  predicate AllWords(words: seq<string>) {
    forall i :: 0 <= i < |words| ==> Word(words[i])
  }

  /** strings.Join with " " */
  function JoinScope(words: seq<string>): string {
    if words == [] then [] else if |words| == 1 then words[0] else words[0] + " " + JoinScope(words[1..])
  }

  lemma {:induction false} SpaceSkipped(s: string)
    ensures SplitScope(" " + s) == SplitScope(s)
  {
    assert (" " + s)[1..] == s;
    assert Skip(" " + s) == Skip(s);
  }

  lemma {:induction false} FirstWordIs(w: string, rest: string)
    requires Word(w) && (rest != [] ==> IsSpace(rest[0]))
    ensures FirstWord(w + rest) == w
  {
    if |w| == 1 {
      assert (w + rest)[1..] == rest;
    } else {
      assert (w + rest)[1..] == w[1..] + rest;
      FirstWordIs(w[1..], rest);
    }
  }

  /** Splitting undoes joining. */
  lemma {:induction false} SplitOfJoin(words: seq<string>)
    requires AllWords(words)
    ensures SplitScope(JoinScope(words)) == words
  {
    NothingToSplit();
    hide SplitScope, Word, IsSpace;
    if words != [] {
      var w := words[0];
      if |words| == 1 {
        FirstOfSplit(w, []);
        assert w + [] == w;
      } else {
        var rest := JoinScope(words[1..]);
        SpaceFirst(rest);
        FirstOfSplit(w, " " + rest);
        assert w + (" " + rest) == JoinScope(words);
        SpaceSkipped(rest);
        SplitOfJoin(words[1..]);
      }
      assert words == [w] + words[1..];
    }
  }

  lemma NothingToSplit()
    ensures SplitScope([]) == []
  {
  }

  lemma SpaceFirst(s: string)
    ensures IsSpace((" " + s)[0])
  {
  }

  lemma FirstOfSplit(w: string, rest: string)
    requires Word(w) && (rest != [] ==> IsSpace(rest[0]))
    ensures SplitScope(w + rest) == [w] + SplitScope(rest)
  {
    FirstWordIs(w, rest);
    assert Skip(w + rest) == w + rest;
    assert (w + rest)[|w|..] == rest;
  }

  predicate Blank(c: char) {
    c in {' ', '\t', '\n', 11 as char, 12 as char, '\r'}
  }

  /** Any white space ends a word, and a word alone is one. */
  lemma SplitAtBlank(w: string, c: char, rest: string)
    requires w != [] && (forall i :: 0 <= i < |w| ==> !Blank(w[i])) && Blank(c)
    ensures SplitScope(w + [c] + rest) == [w] + SplitScope(rest)
    ensures SplitScope([c] + rest) == SplitScope(rest) && SplitScope(w) == [w] && SplitScope([]) == []
  {
    assert ([c] + rest)[1..] == rest;
    assert Skip([c] + rest) == Skip(rest);
    FirstOfSplit(w, [c] + rest);
    assert w + ([c] + rest) == w + [c] + rest;
    FirstOfSplit(w, []);
    assert w + [] == w;
    NothingToSplit();
  }

  /** The set a scope string stands for. */
  function ScopeSet(s: string): set<string> {
    set w | w in SplitScope(s)
  }

  function Elements(words: seq<string>): set<string> {
    set w | w in words
  }

  method ScopesSubset(requested: seq<string>, allowed: seq<string>) returns (ok: bool)
    ensures ok <==> Elements(requested) <= Elements(allowed)
  {
    for i := 0 to |requested|
      invariant forall j :: 0 <= j < i ==> requested[j] in allowed
    {
      if requested[i] !in allowed {
        assert requested[i] in Elements(requested);
        return false;
      }
    }
    return true;
  }

  method IntersectScopes(a: seq<string>, b: seq<string>) returns (shared: seq<string>)
    ensures Elements(shared) == Elements(a) * Elements(b)
    ensures AllWords(a) ==> AllWords(shared)
  {
    var inB := Elements(b);
    shared := [];
    for i := 0 to |a|
      invariant forall w :: w in shared <==> w in a[..i] && w in inB
      invariant AllWords(a) ==> AllWords(shared)
    {
      assert a[..i + 1] == a[..i] + [a[i]];
      if a[i] in inB {
        shared := shared + [a[i]];
      }
    }
    assert a[..|a|] == a;
  }

  /** What an exchange decides of the words, if it does not refuse. */
  function ExchangedWords(requested: set<string>, granted: set<string>, allowed: set<string>): (r: Option<set<string>>)
    ensures r.Some? ==> r.value != {} && r.value <= granted * allowed
    ensures requested != {} && requested <= granted * allowed ==> r == Some(requested)
  {
    var wanted := if requested == {} then granted * allowed else requested;
    if wanted != {} && wanted <= granted && wanted <= allowed then Some(wanted) else None
  }

  /** The scope of an exchanged token: refused unless it is a non-empty part of
      both the grant and what the audience allows; without a request it is
      everything they share. */
  method ExchangeScope(requested: string, granted: string, allowed: seq<string>) returns (scope: Option<string>)
    ensures scope.Some? ==> ScopeSet(scope.value) != {} && ScopeSet(scope.value) <= ScopeSet(granted) * Elements(allowed)
    ensures ScopeSet(requested) == {} ==>
      if ScopeSet(granted) * Elements(allowed) == {} then scope.None?
      else scope.Some? && ScopeSet(scope.value) == ScopeSet(granted) * Elements(allowed)
    ensures ScopeSet(requested) != {} ==>
      if ScopeSet(requested) <= ScopeSet(granted) * Elements(allowed) then scope.Some? && ScopeSet(scope.value) == ScopeSet(requested)
      else scope.None?
    ensures var r := ExchangedWords(ScopeSet(requested), ScopeSet(granted), Elements(allowed));
      if r.None? then scope.None? else scope.Some? && ScopeSet(scope.value) == r.value
  {
    var wanted := requested;
    BlankScope(requested);
    if Skip(requested) == [] {
      var shared := IntersectScopes(SplitScope(granted), allowed);
      SplitOfJoin(shared);
      wanted := JoinScope(shared);
    }
    NoWords(SplitScope(wanted));
    if SplitScope(wanted) == [] {
      return None;
    }
    var inGrant := ScopesSubset(SplitScope(wanted), SplitScope(granted));
    var inAudience := ScopesSubset(SplitScope(wanted), allowed);
    if !inGrant || !inAudience {
      return None;
    }
    return Some(wanted);
  }

  lemma NoWords(words: seq<string>)
    ensures Elements(words) == {} <==> words == []
  {
    if words != [] { assert words[0] in Elements(words); }
  }

  /** Trimmed to nothing, the string names no scope. */
  lemma BlankScope(s: string)
    ensures Skip(s) == [] <==> ScopeSet(s) == {}
  {
    NoWords(SplitScope(s));
  }
}
