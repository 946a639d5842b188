/** The name-service reply line and its reading by the C module. Characters are
    bytes. */
module NssWire {
  import opened Options

  const NUL: char := 0 as char
  const REPLY_MAX: nat := 2048
  const ID_MOD: int := 0x1_0000_0000
  const LONG_MOD: int := 0x1_0000_0000_0000_0000

  datatype Identity = Identity(name: string, uid: int, gid: int, home: string, shell: string, gecos: string)

  // ----- numbers -----

  function Digits(n: nat): (r: string)
    ensures r != [] && AllDigits(r)
  {
    if n < 10 then [Digit(n)] else Digits(n / 10) + [Digit(n % 10)]
  }

  function Digit(d: nat): (r: char)
    requires d < 10
    ensures '0' <= r <= '9' && r as int - '0' as int == d
  {
    ('0' as int + d) as char
  }

  predicate AllDigits(s: string) {
    forall i :: 0 <= i < |s| ==> '0' <= s[i] <= '9'
  }

  /** %d */
  function Decimal(n: int): (r: string)
    ensures r != []
  {
    if n < 0 then "-" + Digits(-n) else Digits(n)
  }

  function Value(s: string): nat
    requires AllDigits(s)
  {
    if s == [] then 0 else 10 * Value(s[..|s| - 1]) + (s[|s| - 1] as int - '0' as int)
  }

  function LeadingDigits(s: string): (r: string)
    ensures AllDigits(r)
  {
    if s == [] || !('0' <= s[0] <= '9') then [] else [s[0]] + LeadingDigits(s[1..])
  }

  function SkipSpace(s: string): string {
    if s != [] && (s[0] == ' ' || 9 <= s[0] as int <= 13) then SkipSpace(s[1..]) else s
  }

  function Saturated(n: nat): nat {
    if n < LONG_MOD then n else LONG_MOD - 1
  }

  /** strtoul in base 10, with a 64-bit unsigned long. */
  function Strtoul(s: string): (r: nat) {
    var t := SkipSpace(s);
    if t != [] && t[0] == '-' then
      var v := Value(LeadingDigits(t[1..]));
      if v < LONG_MOD then (LONG_MOD - v) % LONG_MOD else LONG_MOD - 1
    else if t != [] && t[0] == '+' then Saturated(Value(LeadingDigits(t[1..])))
    else Saturated(Value(LeadingDigits(t)))
  }

  lemma {:induction false} ValueOfDigits(n: nat)
    ensures Value(Digits(n)) == n
  {
    if n >= 10 {
      ValueOfDigits(n / 10);
      assert Digits(n)[..|Digits(n)| - 1] == Digits(n / 10);
    }
  }

  lemma {:induction false} AllLeading(s: string)
    requires AllDigits(s)
    ensures LeadingDigits(s) == s
  {
    if s != [] { AllLeading(s[1..]); }
  }

  predicate Int64(n: int) {
    -0x8000_0000_0000_0000 <= n < 0x8000_0000_0000_0000
  }

  /** Read back as an unsigned long, a negative number wraps around. */
  function Wrapped(n: int): int {
    if n < 0 then LONG_MOD + n else n
  }

  lemma StrtoulOfDecimal(n: int)
    requires Int64(n)
    ensures Strtoul(Decimal(n)) == Wrapped(n)
  {
    hide Value, LeadingDigits, Digits;
    var d := Digits(if n < 0 then -n else n);
    ValueOfDigits(if n < 0 then -n else n);
    AllLeading(d);
    assert SkipSpace(Decimal(n)) == Decimal(n);
    if n < 0 {
      assert Decimal(n)[1..] == d;
      Below(LONG_MOD + n);
    }
  }

  lemma Below(m: nat)
    requires m < LONG_MOD
    ensures m % LONG_MOD == m
  {
  }

  lemma WrapsTo32(n: int)
    ensures Wrapped(n) % ID_MOD == n % ID_MOD
  {
    assert Wrapped(n) == n || Wrapped(n) == n + ID_MOD * ID_MOD;
  }

  /** Printed and read back, a 64-bit number is reduced to 32 bits. */
  lemma IdRoundTrip(n: int)
    requires Int64(n)
    ensures Strtoul(Decimal(n)) % ID_MOD == n % ID_MOD
  {
    hide Strtoul, Decimal, Wrapped;
    StrtoulOfDecimal(n);
    WrapsTo32(n);
  }

  // ----- lines -----

  /** The words, each followed by one space, then the rest. */
  function Join(words: seq<string>, rest: string): string {
    if words == [] then rest else words[0] + " " + Join(words[1..], rest)
  }

  function Words(id: Identity): seq<string> {
    [id.name, Decimal(id.uid), Decimal(id.gid), id.home, id.shell]
  }

  function PwLine(id: Identity): string {
    "PW " + Join(Words(id), id.gecos)
  }

  function GrLine(name: string, gid: int): string {
    "GR " + name + " " + Decimal(gid)
  }

  function UpTo(s: string, stop: char): (r: string)
    ensures |r| <= |s| && r == s[..|r|] && stop !in r && (|r| < |s| ==> s[|r|] == stop)
  {
    if s == [] || s[0] == stop then [] else [s[0]] + UpTo(s[1..], stop)
  }

  function Least(a: nat, b: nat): nat {
    if a < b then a else b
  }

  /** What has been read of a reply line when so many bytes of it arrive before
      the connection closes or times out. */
  function Arrived(line: string, arrived: nat): string {
    (line + "\n")[..Least(Least(arrived, REPLY_MAX - 1), |line| + 1)]
  }

  /** What the reader takes for the line: up to the first NUL or newline. */
  function Received(line: string, arrived: nat): (r: string)
    ensures Clean(r)
  {
    UpTo(UpTo(Arrived(line, arrived), NUL), '\n')
  }

  predicate Clean(s: string) {
    NUL !in s && '\n' !in s
  }

  lemma {:induction false} UpToAll(s: string, stop: char)
    requires stop !in s
    ensures UpTo(s, stop) == s
  {
    if s != [] { UpToAll(s[1..], stop); }
  }

  lemma {:induction false} UpToStop(s: string, stop: char, rest: string)
    requires stop !in s
    ensures UpTo(s + [stop] + rest, stop) == s
  {
    if s != [] {
      UpToStop(s[1..], stop, rest);
      assert (s + [stop] + rest)[1..] == s[1..] + [stop] + rest;
    }
  }

  /** How much of the line is read. */
  function Read(line: string, arrived: nat): nat {
    Least(Least(arrived, REPLY_MAX - 1), |line|)
  }

  lemma ReceivedIsCut(line: string, arrived: nat)
    requires Clean(line)
    ensures Received(line, arrived) == line[..Read(line, arrived)]
  {
    if |Arrived(line, arrived)| == |line| + 1 {
      UpToAll(line + "\n", NUL);
      UpToStop(line, '\n', []);
      assert (line + "\n")[..|line| + 1] == line + "\n" == line + "\n" + [];
    } else {
      var cut := line[..Read(line, arrived)];
      assert Arrived(line, arrived) == cut;
      UpToAll(cut, NUL);
      UpToAll(cut, '\n');
    }
  }

  // ----- tokens -----

  function Skip(s: string): string {
    if s != [] && s[0] == ' ' then Skip(s[1..]) else s
  }

  /** strtok_r with " ": the token, if any, and where the next one starts. */
  function Token(s: string): (Option<string>, string) {
    var t := Skip(s);
    if t == [] then (None, [])
    else
      var w := UpTo(t, ' ');
      (Some(w), if |w| == |t| then [] else t[|w| + 1..])
  }

  /** n tokens and what follows them. */
  function Tokens(n: nat, s: string): Option<(seq<string>, string)> {
    if n == 0 then Some(([], s))
    else if Token(s).0.None? then None
    else
      var r := Tokens(n - 1, Token(s).1);
      if r.None? then None else Some(([Token(s).0.value] + r.value.0, r.value.1))
  }

  predicate Word(w: string) {
    w != [] && ' ' !in w
  }

  lemma TokenIsWord(w: string, rest: string)
    requires Word(w)
    ensures Token(w + " " + rest) == (Some(w), rest)
  {
    var s := w + " " + rest;
    assert s[0] == w[0] && Skip(s) == s;
    UpToStop(w, ' ', rest);
    assert s[|w| + 1..] == rest;
  }

  lemma LastTokenIsWord(w: string)
    requires Word(w)
    ensures Token(w) == (Some(w), [])
  {
    assert Skip(w) == w;
    UpToAll(w, ' ');
  }

  /** Where the last word starts, and where it ends. */
  function LastStart(words: seq<string>): nat
    requires words != []
  {
    if |words| == 1 then 0 else |words[0]| + 1 + LastStart(words[1..])
  }

  function Span(words: seq<string>): nat
    requires words != []
  {
    LastStart(words) + |words[|words| - 1]|
  }

  predicate AllWords(words: seq<string>) {
    forall i :: 0 <= i < |words| ==> Word(words[i])
  }

  lemma {:induction false} SpanOfJoin(words: seq<string>, rest: string)
    requires words != []
    ensures |Join(words, rest)| == Span(words) + 1 + |rest|
  {
    var w, more := words[0], words[1..];
    if |words| == 1 {
      assert Join(more, rest) == rest;
    } else {
      SpanOfJoin(more, rest);
      assert words[|words| - 1] == more[|more| - 1];
      assert Span(words) == |w| + 1 + Span(more);
      assert |w + " " + Join(more, rest)| == |w| + 1 + |Join(more, rest)|;
    }
  }

  lemma {:induction false} TokensOfJoin(words: seq<string>, rest: string)
    requires AllWords(words)
    ensures Tokens(|words|, Join(words, rest)) == Some((words, rest))
  {
    if words != [] {
      TokenIsWord(words[0], Join(words[1..], rest));
      TokensOfJoin(words[1..], rest);
      assert [words[0]] + words[1..] == words;
    }
  }

  lemma FirstToken(n: nat, w: string, t: string)
    requires n > 0 && Word(w)
    ensures var r := Tokens(n - 1, t);
      Tokens(n, w + " " + t) == if r.None? then None else Some(([w] + r.value.0, r.value.1))
  {
    TokenIsWord(w, t);
  }

  /** A line without a space has at most one token. */
  lemma OnlyToken(n: nat, t: string)
    requires n > 0 && ' ' !in t
    ensures Tokens(n, t).Some? ==> n == 1 && Tokens(n, t).value.0 == [t]
  {
    if t != [] {
      LastTokenIsWord(t);
      assert n > 1 ==> Tokens(n - 1, []) == None;
      assert [t] + [] == [t];
    }
  }

  /** The words of a line cut after c characters, if there are as many. */
  function CutWords(words: seq<string>, c: nat): Option<seq<string>>
    requires words != [] && c <= Span(words)
  {
    var n := |words| - 1;
    if c <= LastStart(words) then None else Some(words[..n] + [words[n][..c - LastStart(words)]])
  }

  lemma CutWordsStep(words: seq<string>, c: nat)
    requires |words| > 1 && c <= Span(words)
    ensures c <= |words[0]| ==> CutWords(words, c) == None
    ensures c > |words[0]| ==>
      var r := CutWords(words[1..], c - |words[0]| - 1);
      CutWords(words, c) == if r.None? then None else Some([words[0]] + r.value)
  {
    var w, more, n := words[0], words[1..], |words| - 1;
    if c > LastStart(words) {
      var last := words[n][..c - LastStart(words)];
      assert words[..n] + [last] == [w] + (more[..n - 1] + [last]);
    }
  }

  /** Cut no later than at its end, the last word is read as far as it goes, and
      nothing is found when none of it is there. */
  lemma {:induction false} TokensOfCut(words: seq<string>, rest: string, c: nat, t: string)
    requires words != [] && AllWords(words) && c <= Span(words) && c <= |Join(words, rest)| && t == Join(words, rest)[..c]
    ensures var r := CutWords(words, c);
      Tokens(|words|, t) == if r.None? then None else Some((r.value, []))
  {
    hide Tokens, Token;
    var w, more := words[0], Join(words[1..], rest);
    if |words| == 1 {
      assert t == w[..c];
      OneToken(t);
      assert words[..0] + [w[..c]] == [w[..c]];
    } else if c <= |w| {
      assert t == w[..c];
      OnlyToken(|words|, t);
      CutWordsStep(words, c);
    } else {
      var t' := more[..c - |w| - 1];
      assert t == w + " " + t';
      FirstToken(|words|, w, t');
      TokensOfCut(words[1..], rest, c - |w| - 1, t');
      CutWordsStep(words, c);
    }
  }

  lemma OneToken(t: string)
    requires ' ' !in t
    ensures Tokens(1, t) == if t == [] then None else Some(([t], []))
  {
    if t != [] {
      LastTokenIsWord(t);
      assert Tokens(0, []) == Some(([], []));
      assert [t] + [] == [t];
    }
  }

  // ----- the PW line -----

  predicate Id32(n: int) {
    0 <= n < ID_MOD
  }

  /** Names and paths without spaces, no NUL or newline, ids of 32 bits. */
  predicate WellFormed(id: Identity) {
    && Word(id.name) && Word(id.home) && Word(id.shell)
    && Clean(id.name) && Clean(id.home) && Clean(id.shell) && Clean(id.gecos)
    && Id32(id.uid) && Id32(id.gid)
  }

  /** The reading half of fill_passwd. */
  function ParsePw(reply: string): Option<Identity> {
    if |reply| < 3 || reply[..3] != "PW " then None
    else
      var r := Tokens(5, reply[3..]);
      if r.None? || |r.value.0| != 5 then None
      else
        var w := r.value.0;
        Some(Identity(w[0], Strtoul(w[1]) % ID_MOD, Strtoul(w[2]) % ID_MOD, w[3], w[4], r.value.1))
  }

  /** The line is read, but perhaps for the space before an empty gecos. */
  predicate Fits(id: Identity, arrived: nat) {
    |PwLine(id)| - (if id.gecos == "" then 1 else 0) <= Read(PwLine(id), arrived)
  }

  lemma {:induction false} SkipKeeps(s: string, x: char)
    requires x !in s
    ensures x !in Skip(s)
  {
    if s != [] && s[0] == ' ' { SkipKeeps(s[1..], x); }
  }

  lemma {:induction false} SkipsSpaces(s: string)
    ensures Skip(s) != [] ==> Skip(s)[0] != ' '
  {
    if s != [] && s[0] == ' ' { SkipsSpaces(s[1..]); }
  }

  lemma TokenKeeps(s: string, x: char)
    requires x !in s
    ensures (Token(s).0.Some? ==> x !in Token(s).0.value) && x !in Token(s).1
  {
    SkipKeeps(s, x);
  }

  lemma {:induction false} TokensKeep(n: nat, s: string, x: char)
    requires x !in s
    ensures var r := Tokens(n, s);
      r.Some? ==> |r.value.0| == n && x !in r.value.1 && forall i :: 0 <= i < n ==> x !in r.value.0[i]
  {
    if n > 0 {
      TokenKeeps(s, x);
      TokensKeep(n - 1, Token(s).1, x);
    }
  }

  lemma {:induction false} TokensAreWords(n: nat, s: string)
    ensures Tokens(n, s).Some? ==> |Tokens(n, s).value.0| == n && AllWords(Tokens(n, s).value.0)
  {
    if n > 0 {
      SkipsSpaces(s);
      TokensAreWords(n - 1, Token(s).1);
    }
  }

  /** Nothing else can be read. */
  lemma ParsedIsWellFormed(reply: string)
    requires Clean(reply) && ParsePw(reply).Some?
    ensures WellFormed(ParsePw(reply).value)
  {
    TokensKeep(5, reply[3..], NUL);
    TokensKeep(5, reply[3..], '\n');
    TokensAreWords(5, reply[3..]);
  }

  lemma {:induction false} JoinIsClean(words: seq<string>, rest: string)
    requires Clean(rest) && forall i :: 0 <= i < |words| ==> Clean(words[i])
    ensures Clean(Join(words, rest))
  {
    if words != [] { JoinIsClean(words[1..], rest); }
  }

  lemma DecimalIsWord(n: int)
    ensures Word(Decimal(n)) && Clean(Decimal(n))
  {
    var d := Digits(if n < 0 then -n else n);
    assert forall i :: 0 <= i < |d| ==> '0' <= d[i];
  }

  lemma LineIsClean(id: Identity)
    requires WellFormed(id)
    ensures AllWords(Words(id)) && Clean(PwLine(id))
  {
    DecimalIsWord(id.uid);
    DecimalIsWord(id.gid);
    JoinIsClean(Words(id), id.gecos);
  }

  lemma ReceivedLine(id: Identity, arrived: nat)
    requires WellFormed(id) && Read(PwLine(id), arrived) >= 3
    ensures var r := Received(PwLine(id), arrived);
      |r| >= 3 && r[..3] == "PW " && r[3..] == Join(Words(id), id.gecos)[..Read(PwLine(id), arrived) - 3]
  {
    LineIsClean(id);
    ReceivedIsCut(PwLine(id), arrived);
  }

  /** Where the shell starts in the line. */
  function ShellAt(id: Identity): nat {
    3 + LastStart(Words(id))
  }

  /** The identity that a line cut after so many characters seems to name: none
      before the shell begins, then one with a part of the shell and no gecos,
      then one with a part of the gecos. */
  function Seen(id: Identity, read: nat): Option<Identity>
    requires read <= |PwLine(id)|
  {
    var shell, gecos := ShellAt(id), ShellAt(id) + |id.shell| + 1;
    LineLength(id);
    if read <= shell then None
    else if read < gecos then Some(id.(shell := id.shell[..read - shell], gecos := ""))
    else Some(id.(gecos := id.gecos[..read - gecos]))
  }

  lemma LineLength(id: Identity)
    ensures |PwLine(id)| == ShellAt(id) + |id.shell| + 1 + |id.gecos|
    ensures ShellAt(id) + |id.shell| == 3 + Span(Words(id))
  {
    SpanOfJoin(Words(id), id.gecos);
  }

  /** What the C module makes of a line that breaks off, wherever it does. */
  lemma PasswdOfCut(id: Identity, arrived: nat)
    requires WellFormed(id)
    ensures ParsePw(Received(PwLine(id), arrived)) == Seen(id, Read(PwLine(id), arrived))
  {
    hide WellFormed, Received, Tokens, Join, LastStart, Strtoul;
    var words, read := Words(id), Read(PwLine(id), arrived);
    LineIsClean(id);
    LineLength(id);
    if read < 3 {
      ReceivedIsCut(PwLine(id), arrived);
    } else {
      ReceivedLine(id, arrived);
      var c := read - 3;
      var t := Join(words, id.gecos)[..c];
      IdsReadBack(id);
      if c <= Span(words) {
        TokensOfCut(words, id.gecos, c, t);
      } else {
        KeptJoin(words, id.gecos, c);
        TokensOfJoin(words, id.gecos[..c - Span(words) - 1]);
      }
    }
  }

  lemma IdsReadBack(id: Identity)
    requires WellFormed(id)
    ensures Strtoul(Decimal(id.uid)) % ID_MOD == id.uid && Strtoul(Decimal(id.gid)) % ID_MOD == id.gid
  {
    hide Strtoul, Decimal, Word, Clean;
    IdRoundTrip(id.uid);
    IdRoundTrip(id.gid);
  }

  lemma HasShell(id: Identity)
    requires WellFormed(id)
    ensures id.shell != ""
  {
  }

  lemma SeenWhole(id: Identity, arrived: nat)
    requires id.shell != ""
    ensures Seen(id, Read(PwLine(id), arrived)) == Some(id) <==> Fits(id, arrived)
  {
    LineLength(id);
    var read, shell, gecos := Read(PwLine(id), arrived), ShellAt(id), ShellAt(id) + |id.shell| + 1;
    if shell < read < gecos {
      assert |id.shell[..read - shell]| == read - shell;
      assert read - shell == |id.shell| ==> id.shell[..read - shell] == id.shell;
    } else if gecos <= read {
      assert |id.gecos[..read - gecos]| == read - gecos;
      assert read - gecos == |id.gecos| ==> id.gecos[..read - gecos] == id.gecos;
    }
  }

  /** For all fields, and wherever the connection breaks off: the C module reads
      back exactly the printed identity if and only if it is well-formed and
      its line arrives and fits. */
  lemma PasswdRoundTrip(id: Identity, arrived: nat)
    ensures ParsePw(Received(PwLine(id), arrived)) == Some(id) <==> WellFormed(id) && Fits(id, arrived)
  {
    hide ParsePw, Received, WellFormed, Fits, PwLine, Seen;
    if WellFormed(id) {
      PasswdOfCut(id, arrived);
      assert id.shell != "" by { HasShell(id); }
      SeenWhole(id, arrived);
    } else if ParsePw(Received(PwLine(id), arrived)) == Some(id) {
      ParsedIsWellFormed(Received(PwLine(id), arrived));
    }
  }

  lemma {:induction false} KeptJoin(words: seq<string>, rest: string, c: nat)
    requires words != [] && Span(words) < c <= |Join(words, rest)| && |Join(words, rest)| == Span(words) + 1 + |rest|
    ensures Join(words, rest)[..c] == Join(words, rest[..c - Span(words) - 1])
  {
    var w, more := words[0], Join(words[1..], rest);
    if |words| == 1 {
      assert (w + " " + rest)[..c] == w + " " + rest[..c - |w| - 1];
    } else {
      SpanOfJoin(words[1..], rest);
      KeptJoin(words[1..], rest, c - |w| - 1);
      assert (w + " " + more)[..c] == w + " " + more[..c - |w| - 1];
    }
  }

  // ----- the GR line -----

  function ParseGr(reply: string): Option<(string, int)> {
    if |reply| < 3 || reply[..3] != "GR " then None
    else
      var r := Tokens(2, reply[3..]);
      if r.None? || |r.value.0| != 2 then None else Some((r.value.0[0], Strtoul(r.value.0[1]) % ID_MOD))
  }

  lemma ParsedGroupIsWellFormed(reply: string)
    requires Clean(reply) && ParseGr(reply).Some?
    ensures Word(ParseGr(reply).value.0) && Clean(ParseGr(reply).value.0) && Id32(ParseGr(reply).value.1)
  {
    TokensKeep(2, reply[3..], NUL);
    TokensKeep(2, reply[3..], '\n');
    TokensAreWords(2, reply[3..]);
  }

  /** Where the number starts in the line. */
  function NumberAt(name: string): nat {
    3 + |name| + 1
  }

  /** The group that a line cut after so many characters seems to name: the
      number is what its first digits say. */
  function SeenGroup(name: string, gid: nat, read: nat): Option<(string, int)>
    requires read <= |GrLine(name, gid)|
  {
    DecimalIsDigits(gid);
    if read <= NumberAt(name) then None else Some((name, Value(Decimal(gid)[..read - NumberAt(name)])))
  }

  lemma DecimalIsDigits(n: nat)
    ensures Decimal(n) == Digits(n) && AllDigits(Decimal(n))
  {
  }

  /** What the C module makes of a line that breaks off, wherever it does. */
  lemma GroupOfCut(name: string, gid: int, arrived: nat)
    requires Word(name) && Clean(name) && Id32(gid)
    ensures ParseGr(Received(GrLine(name, gid), arrived)) == SeenGroup(name, gid, Read(GrLine(name, gid), arrived))
  {
    hide Received, Tokens, Strtoul, Word, Clean, Decimal, Value;
    var line, number, r := GrLine(name, gid), Decimal(gid), Received(GrLine(name, gid), arrived);
    DecimalIsDigits(gid);
    GrLineIsClean(name, gid);
    ReceivedIsCut(line, arrived);
    if |r| >= 3 {
      var c := |r| - 3;
      assert r[..3] == "GR " && r[3..] == (name + " " + number)[..c];
      if c <= |name| {
        assert r[3..] == name[..c];
        NoSpace(name, c);
        OnlyToken(2, r[3..]);
      } else {
        assert r[3..] == name + " " + number[..c - |name| - 1];
        CutGroup(name, gid, c - |name| - 1);
      }
    }
  }

  lemma NoSpace(w: string, c: nat)
    requires Word(w) && c <= |w|
    ensures ' ' !in w[..c]
  {
  }

  lemma CutGroup(name: string, gid: nat, k: nat)
    requires Word(name) && gid < ID_MOD && k <= |Decimal(gid)| && AllDigits(Decimal(gid))
    ensures var r := Tokens(2, name + " " + Decimal(gid)[..k]);
      if k == 0 then r == None
      else r.Some? && |r.value.0| == 2 && r.value.0[0] == name && Strtoul(r.value.0[1]) % ID_MOD == Value(Decimal(gid)[..k])
  {
    hide Tokens, Strtoul, Decimal, Word, Value, AllDigits;
    var number := Decimal(gid)[..k];
    FirstToken(2, name, number);
    if k == 0 {
      NoToken();
    } else {
      NumberOfCut(gid, k);
      GroupTokens(name, number);
    }
  }

  lemma NumberOfCut(gid: nat, k: nat)
    requires gid < ID_MOD && 0 < k <= |Decimal(gid)| && AllDigits(Decimal(gid))
    ensures Word(Decimal(gid)[..k]) && Strtoul(Decimal(gid)[..k]) % ID_MOD == Value(Decimal(gid)[..k])
  {
    hide Strtoul, Decimal, Word, Value, AllDigits;
    CutNumber(gid, k);
    var m :| 0 <= m <= gid && Decimal(gid)[..k] == Decimal(m);
    DecimalIsWord(m);
    DecimalIsDigits(m);
    IdRoundTrip(m);
    ValueOfDigits(m);
  }

  /** For all names and ids, the C module reads back exactly the printed group
      if and only if both are well-formed and the whole line arrives and fits. */
  lemma GroupRoundTrip(name: string, gid: int, arrived: nat)
    ensures ParseGr(Received(GrLine(name, gid), arrived)) == Some((name, gid))
       <==> Word(name) && Clean(name) && Id32(gid) && Read(GrLine(name, gid), arrived) == |GrLine(name, gid)|
  {
    hide ParseGr, Received, Word, Clean, GrLine, SeenGroup;
    if Word(name) && Clean(name) && Id32(gid) {
      GroupOfCut(name, gid, arrived);
      SeenGroupWhole(name, gid, Read(GrLine(name, gid), arrived));
    } else if ParseGr(Received(GrLine(name, gid), arrived)) == Some((name, gid)) {
      ParsedGroupIsWellFormed(Received(GrLine(name, gid), arrived));
    }
  }

  lemma SeenGroupWhole(name: string, gid: nat, read: nat)
    requires read <= |GrLine(name, gid)|
    ensures SeenGroup(name, gid, read) == Some((name, gid)) <==> read == |GrLine(name, gid)|
  {
    hide Value, Decimal;
    var number := Decimal(gid);
    DecimalIsDigits(gid);
    ValueOfDigits(gid);
    if read == |GrLine(name, gid)| {
      assert number[..read - NumberAt(name)] == number;
    } else if read > NumberAt(name) {
      var k := read - NumberAt(name);
      CutNumber(gid, k);
      var m :| 0 <= m <= gid && number[..k] == Decimal(m) && (k < |number| ==> m < gid);
      DecimalIsDigits(m);
      ValueOfDigits(m);
    }
  }

  /** The eight bytes of a reply that arrive name another group. */
  lemma BrokenOffGroup()
    ensures GrLine("a", 236261) == "GR a 236261"
    ensures ParseGr(Received(GrLine("a", 236261), 8)) == Some(("a", 236))
  {
    hide ParseGr, Received, Value, Digits;
    DigitByDigit();
    DecimalIsDigits(236261);
    GroupOfCut("a", 236261, 8);
    assert Decimal(236261)[..3] == "236";
    ValueOfDigits(236);
  }

  lemma DigitByDigit()
    ensures Digits(236) == "236" && Digits(236261) == "236261"
  {
    assert Digits(23) == "23";
    assert Digits(236) == "236";
    assert Digits(2362) == "2362";
    assert Digits(23626) == "23626";
  }

  lemma NoToken()
    ensures Tokens(1, []) == None
  {
  }

  lemma {:induction false} CutNumber(n: nat, k: nat)
    requires 0 < k <= |Decimal(n)|
    ensures exists m :: 0 <= m <= n && Decimal(n)[..k] == Decimal(m) && (k < |Decimal(n)| ==> m < n)
  {
    var d := Decimal(n);
    assert d[..|d|] == d;
    if k < |d| {
      assert n >= 10 && d[..|d| - 1] == Decimal(n / 10);
      CutNumber(n / 10, k);
      var m :| 0 <= m <= n / 10 && Decimal(n / 10)[..k] == Decimal(m);
      assert d[..k] == d[..|d| - 1][..k];
    }
  }

  lemma GrLineIsClean(name: string, gid: int)
    requires Clean(name)
    ensures Clean(GrLine(name, gid))
  {
    DecimalIsWord(gid);
  }

  lemma GroupTokens(name: string, number: string)
    requires Word(name) && Word(number)
    ensures Tokens(2, name + " " + number) == Some(([name, number], []))
  {
    FirstToken(2, name, number);
    LastTokenIsWord(number);
    assert Tokens(0, []) == Some(([], []));
    assert Tokens(1, number) == Some(([number] + [], []));
    assert [number] + [] == [number] && [name] + [number] == [name, number];
  }
}
