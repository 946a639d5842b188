/** The C name-service module as a whole: reading the reply, and what a look-up
    hands to its caller. */
module NssReader {
  import opened Options
  import opened NssWire
  import opened NssBuffer

  lemma {:induction false} LaterBytesIgnored(s: string, t: string)
    requires '\n' in s
    ensures UpTo(UpTo(s + t, NUL), '\n') == UpTo(UpTo(s, NUL), '\n')
  {
    assert (s + t)[0] == s[0] && (s + t)[1..] == s[1..] + t;
    if s[0] != NUL && s[0] != '\n' {
      LaterBytesIgnored(s[1..], t);
      UpToStep(s);
      UpToStep(s + t);
    }
  }

  lemma UpToStep(s: string)
    requires s != [] && s[0] != NUL && s[0] != '\n'
    ensures UpTo(UpTo(s, NUL), '\n') == [s[0]] + UpTo(UpTo(s[1..], NUL), '\n')
  {
    assert UpTo(s, NUL)[1..] == UpTo(s[1..], NUL);
  }

  lemma ReceivedSoFar(line: string, arrived: nat, got: nat)
    requires got <= |Arrived(line, arrived)|
    requires got == |Arrived(line, arrived)| || '\n' in Arrived(line, arrived)[..got]
    ensures UpTo(UpTo(Arrived(line, arrived)[..got], NUL), '\n') == Received(line, arrived)
  {
    var full := Arrived(line, arrived);
    assert full == full[..got] + full[got..];
    if '\n' in full[..got] {
      LaterBytesIgnored(full[..got], full[got..]);
    } else {
      assert full[..got] == full;
    }
  }

  lemma TextIs(data: string, text: string)
    requires text + [NUL] <= data && NUL !in text
    ensures CString(data, 0) == Some(text)
  {
    var rest := data[|text| + 1..];
    assert data[0..] == text + [NUL] + rest;
    UpToStop(text, NUL, rest);
  }

  /** One read of at most so many bytes. */
  method ReadSome(sent: string, size: nat, reply: array<char>, got: nat) returns (now: nat)
    requires size > 0 && got < |sent| && got + 1 < reply.Length && reply[..got] == sent[..got]
    modifies reply
    ensures got < now <= |sent| && now < reply.Length && reply[..now] == sent[..now]
  {
    var n := size;
    if n > reply.Length - got - 1 { n := reply.Length - got - 1; }
    if n > |sent| - got { n := |sent| - got; }
    for k := 0 to n
      invariant reply[..got + k] == sent[..got + k]
    {
      reply[got + k] := sent[got + k];
    }
    now := got + n;
  }

  /** Ends the bytes read so far at the first newline, if there is one before
      the first NUL. */
  method Terminate(reply: array<char>, got: nat)
    requires got < reply.Length
    modifies reply
    ensures CString(reply[..], 0) == Some(UpTo(UpTo(old(reply[..got]), NUL), '\n'))
  {
    hide CString;
    var read := reply[..got];
    reply[got] := NUL;
    var text := UpTo(read, NUL);
    var end := |UpTo(text, '\n')|;
    if end < |text| {
      reply[end] := NUL;
    }
    assert reply[..end] == read[..end] == UpTo(text, '\n');
    assert reply[end] == NUL;
    TextIs(reply[..], UpTo(text, '\n'));
  }

  /** query after it has sent its line, for a reply of which so many bytes
      arrive: whatever the sizes of the reads, the buffer ends up with the
      received part, and only a reply of no bytes is an error. */
  method ReadReply(line: string, arrived: nat, sizes: nat -> nat, reply: array<char>) returns (ok: bool)
    requires reply.Length == REPLY_MAX && forall i :: sizes(i) > 0
    modifies reply
    ensures ok <==> arrived > 0
    ensures ok ==> CString(reply[..], 0) == Some(Received(line, arrived))
  {
    hide CString, UpTo, Received;
    var stream, got, i := (line + "\n")[..Least(arrived, |line| + 1)], 0, 0;
    ghost var full := Arrived(line, arrived);
    assert full == stream[..|full|];
    while got + 1 < reply.Length && '\n' !in stream[..got] && got < |stream|
      invariant got <= |full| && reply[..got] == full[..got] == stream[..got]
      decreases |stream| - got
    {
      got := ReadSome(stream, sizes(i), reply, got);
      i := i + 1;
      assert stream[..got] == full[..got];
    }
    if got == 0 {
      return false;
    }
    ReceivedSoFar(line, arrived, got);
    Terminate(reply, got);
    return true;
  }

  // ----- from the printed identity to the caller's buffer -----

  function CStringOf(reply: array<char>): string
    reads reply
  {
    UpTo(reply[..], NUL)
  }

  datatype Answer = Unavailable | Filled(status: Status)

  lemma ReadsOne(data: string, pw: Passwd, id: Identity, other: Identity)
    requires PasswdHolds(data, pw, id) && PasswdHolds(data, pw, other)
    ensures id == other
  {
  }

  /** A look-up whose reply is the line of some identity: the caller gets that
      identity if and only if it is well-formed, its line arrives and fits, and
      the caller's buffer holds its five strings. A line that breaks off is
      noticed only if no part of the shell arrives; after that the caller gets
      an identity with a shorter shell or gecos. */
  method GetPasswd(ghost id: Identity, line: string, arrived: nat, sizes: nat -> nat, buffer: array<char>)
    returns (answer: Answer, pw: Passwd)
    requires line == PwLine(id) && forall i :: sizes(i) > 0
    modifies buffer
    ensures answer.Unavailable? <==> arrived == 0
    ensures answer == Filled(Success) && PasswdHolds(buffer[..], pw, id)
       <==> WellFormed(id) && Fits(id, arrived) && |Packed(Strings(id))| <= buffer.Length
    ensures WellFormed(id) ==> (answer == Filled(NotFound) <==> 0 < arrived && Read(line, arrived) <= ShellAt(id))
    ensures WellFormed(id) && answer == Filled(Success) ==> PasswdHolds(buffer[..], pw, Seen(id, Read(line, arrived)).value)
  {
    hide PasswdHolds, Received, ParsePw, WellFormed, Fits, PwLine, Packed, CString, ShellAt, Seen;
    PasswdRoundTrip(id, arrived);
    if WellFormed(id) {
      PasswdOfCut(id, arrived);
      SeenFromShell(id, Read(line, arrived));
    }
    var reply := new char[REPLY_MAX];
    var ok := ReadReply(line, arrived, sizes, reply);
    if !ok {
      NothingArrived(id);
      return Unavailable, Passwd(0, 0, 0, 0, 0, 0, 0);
    }
    var text := CStringOf(reply);
    CStringIs(reply[..]);
    var status;
    status, pw := FillPasswd(text, buffer);
    answer := Filled(status);
    if status.Success? && PasswdHolds(buffer[..], pw, id) {
      ReadsOne(buffer[..], pw, id, ParsePw(text).value);
    }
  }

  lemma SeenFromShell(id: Identity, read: nat)
    requires read <= |PwLine(id)|
    ensures Seen(id, read).Some? <==> read > ShellAt(id)
  {
  }

  lemma CStringIs(data: string)
    requires CString(data, 0).Some?
    ensures CString(data, 0) == Some(UpTo(data, NUL))
  {
    assert data[0..] == data;
  }

  lemma NothingArrived(id: Identity)
    ensures !Fits(id, 0)
  {
    LineLength(id);
  }

  predicate GroupWellFormed(name: string, gid: int) {
    Word(name) && Clean(name) && Id32(gid)
  }

  /** The bytes that fill_group needs in a buffer at the given address. */
  function GroupRoom(base: nat, name: string): nat {
    Pad(base) + 2 * WORD_SIZE + 2 * |name| + 4
  }

  lemma ReadsOneGroup(data: string, base: nat, gr: Group, name: string, gid: int, other: string, otherGid: int)
    requires GroupHolds(data, base, gr, name, gid) && GroupHolds(data, base, gr, other, otherGid)
    ensures name == other && gid == otherGid
  {
  }

  lemma SeenFromNumber(name: string, gid: nat, read: nat)
    requires read <= |GrLine(name, gid)|
    ensures SeenGroup(name, gid, read).Some? <==> read > NumberAt(name)
    ensures SeenGroup(name, gid, read).Some? ==> SeenGroup(name, gid, read).value.0 == name
  {
  }

  /** The same for a group: a line that breaks off is noticed only if no digit of
      its number arrives; after that the caller gets another number. */
  method GetGroup(ghost name: string, ghost gid: int, line: string, arrived: nat, sizes: nat -> nat, base: nat, buffer: array<char>)
    returns (answer: Answer, gr: Group)
    requires line == GrLine(name, gid) && base + buffer.Length < ADDRESSES && forall i :: sizes(i) > 0
    modifies buffer
    ensures answer.Unavailable? <==> arrived == 0
    ensures answer == Filled(Success) && GroupHolds(buffer[..], base, gr, name, gid)
       <==> GroupWellFormed(name, gid) && Read(line, arrived) == |line| && GroupRoom(base, name) <= buffer.Length
    ensures GroupWellFormed(name, gid) ==> (answer == Filled(NotFound) <==> 0 < arrived && Read(line, arrived) <= NumberAt(name))
    ensures GroupWellFormed(name, gid) && answer == Filled(Success)
       ==> GroupHolds(buffer[..], base, gr, name, SeenGroup(name, gid, Read(line, arrived)).value.1)
  {
    hide GroupHolds, Received, ParseGr, Word, Clean, GrLine, CString, NumberAt, SeenGroup, Pad;
    GroupRoundTrip(name, gid, arrived);
    if GroupWellFormed(name, gid) {
      GroupOfCut(name, gid, arrived);
      SeenFromNumber(name, gid, Read(line, arrived));
    }
    var reply := new char[REPLY_MAX];
    var ok := ReadReply(line, arrived, sizes, reply);
    if !ok {
      NoGroupArrived(name, gid);
      return Unavailable, Group(0, 0, 0, 0, 0);
    }
    var text := CStringOf(reply);
    CStringIs(reply[..]);
    var status;
    status, gr := FillGroup(text, base, buffer);
    answer := Filled(status);
    if status.Success? && GroupHolds(buffer[..], base, gr, name, gid) {
      ReadsOneGroup(buffer[..], base, gr, name, gid, ParseGr(text).value.0, ParseGr(text).value.1);
    }
  }

  lemma NoGroupArrived(name: string, gid: int)
    ensures Read(GrLine(name, gid), 0) != |GrLine(name, gid)|
  {
  }
}
