/** How the C name-service module fills buffers: reading the reply, and packing
    the result into the caller's memory. */
module NssBuffer {
  import opened Options
  import opened NssWire

  const WORD_SIZE: nat := 8

  // ----- packing -----

  /** The strings one after the other, each with its NUL. */
  function Packed(strings: seq<string>): string {
    if strings == [] then [] else Packed(strings[..|strings| - 1]) + strings[|strings| - 1] + [NUL]
  }

  lemma PackedAppend(strings: seq<string>, k: nat)
    requires k < |strings|
    ensures Packed(strings[..k + 1]) == Packed(strings[..k]) + strings[k] + [NUL]
  {
    assert strings[..k + 1][..k] == strings[..k];
  }

  /** The C string at an offset. */
  function CString(data: string, at: nat): Option<string> {
    if at > |data| then None
    else
      var r := UpTo(data[at..], NUL);
      if |r| == |data| - at then None else Some(r)
  }

  function Offset(strings: seq<string>, k: nat): nat
    requires k <= |strings|
  {
    |Packed(strings[..k])|
  }

  lemma {:induction false} PackedPrefix(strings: seq<string>, k: nat)
    requires k <= |strings|
    ensures Packed(strings[..k]) <= Packed(strings)
    decreases |strings| - k
  {
    if k == |strings| {
      assert strings[..k] == strings;
    } else {
      PackedPrefix(strings, k + 1);
      PackedAppend(strings, k);
    }
  }

  /** Every packed string reads back from its own place. */
  lemma PackedReads(strings: seq<string>, k: nat, data: string, from: nat)
    requires k < |strings| && NUL !in strings[k] && from <= |data| && Packed(strings) <= data[from..]
    ensures CString(data, from + Offset(strings, k)) == Some(strings[k])
    ensures from + Offset(strings, k) + |strings[k]| + 1 == from + Offset(strings, k + 1) <= |data|
  {
    hide Packed;
    PackedAppend(strings, k);
    PackedPrefix(strings, k + 1);
    StringAt(data, from, Packed(strings[..k]), strings[k], Packed(strings));
  }

  lemma StringAt(data: string, from: nat, before: string, s: string, packed: string)
    requires from <= |data| && packed <= data[from..] && before + s + [NUL] <= packed && NUL !in s
    ensures CString(data, from + |before|) == Some(s) && from + |before| + |s| + 1 <= |data|
  {
    var at := from + |before|;
    var rest := data[at + |s| + 1..];
    var whole := before + s + [NUL];
    assert data[from..from + |whole|] == whole;
    assert data[at..at + |s| + 1] == whole[|before|..] == s + [NUL];
    assert data[at..] == s + [NUL] + rest;
    UpToStop(s, NUL, rest);
  }

  /** place: copy the string and its NUL if they fit. */
  method Place(s: string, buffer: array<char>, at: nat) returns (ok: bool, next: nat)
    requires at <= buffer.Length
    modifies buffer
    ensures ok <==> at + |s| + 1 <= buffer.Length
    ensures next == if ok then at + |s| + 1 else at
    ensures buffer[..next] == old(buffer[..at]) + if ok then s + [NUL] else []
    ensures buffer[next..] == old(buffer[..])[next..]
  {
    if |s| + 1 > buffer.Length - at {
      return false, at;
    }
    for i := 0 to |s|
      invariant buffer[..at] == old(buffer[..at]) && buffer[at..at + i] == s[..i]
      invariant buffer[at + i..] == old(buffer[..])[at + i..]
    {
      buffer[at + i] := s[i];
    }
    buffer[at + |s|] := NUL;
    return true, at + |s| + 1;
  }

  datatype Status = NotFound | TryAgain | Success

  /** Offsets into the buffer stand for the pointers. */
  datatype Passwd = Passwd(name: nat, passwd: nat, gecos: nat, dir: nat, shell: nat, uid: int, gid: int)

  function Strings(id: Identity): seq<string> {
    [id.name, "*", id.gecos, id.home, id.shell]
  }

  ghost predicate PasswdHolds(data: string, pw: Passwd, id: Identity) {
    && CString(data, pw.name) == Some(id.name) && CString(data, pw.passwd) == Some("*")
    && CString(data, pw.gecos) == Some(id.gecos) && CString(data, pw.dir) == Some(id.home)
    && CString(data, pw.shell) == Some(id.shell)
    && pw.uid == id.uid && pw.gid == id.gid
    && pw.name + |id.name| + 1 <= pw.passwd && pw.passwd + 2 <= pw.gecos
    && pw.gecos + |id.gecos| + 1 <= pw.dir && pw.dir + |id.home| + 1 <= pw.shell
    && pw.shell + |id.shell| + 1 <= |data|
  }

  predicate NoNul(id: Identity) {
    NUL !in id.name && NUL !in id.home && NUL !in id.shell && NUL !in id.gecos
  }

  lemma PackedHolds(data: string, id: Identity)
    requires NoNul(id) && Packed(Strings(id)) <= data
    ensures PasswdHolds(data, PasswdAt(id), id)
  {
    hide Packed, CString, Offset;
    assert data[0..] == data;
    var ss := Strings(id);
    PackedReads(ss, 0, data, 0);
    PackedReads(ss, 1, data, 0);
    PackedReads(ss, 2, data, 0);
    PackedReads(ss, 3, data, 0);
    PackedReads(ss, 4, data, 0);
  }

  function PasswdAt(id: Identity): Passwd {
    var ss := Strings(id);
    Passwd(Offset(ss, 0), Offset(ss, 1), Offset(ss, 2), Offset(ss, 3), Offset(ss, 4), id.uid, id.gid)
  }

  lemma ParsedHasNoNul(reply: string)
    requires NUL !in reply && ParsePw(reply).Some?
    ensures NoNul(ParsePw(reply).value)
  {
    TokensKeep(5, reply[3..], NUL);
  }

  /** The next string, placed right after those before it. */
  method PlaceNext(ghost strings: seq<string>, ghost k: nat, s: string, buffer: array<char>, at: nat) returns (ok: bool, next: nat)
    requires at <= buffer.Length && k < |strings| && s == strings[k]
    modifies buffer
    ensures next <= buffer.Length
    ensures ok <==> at + |s| + 1 <= buffer.Length
    ensures old(buffer[..at]) == Packed(strings[..k]) && ok ==> buffer[..next] == Packed(strings[..k + 1])
    ensures ok ==> next == at + |s| + 1
  {
    ok, next := Place(s, buffer, at);
    PackedAppend(strings, k);
    assert Packed(strings[..k]) + (s + [NUL]) == Packed(strings[..k]) + s + [NUL];
  }

  lemma {:induction false} OffsetsGrow(strings: seq<string>, k: nat)
    requires k <= |strings|
    ensures Offset(strings, k) <= |Packed(strings)|
    ensures k < |strings| ==> Offset(strings, k + 1) == Offset(strings, k) + |strings[k]| + 1
  {
    PackedPrefix(strings, k);
    if k < |strings| { PackedAppend(strings, k); }
  }

  /** fill_passwd: nothing is found in a line of another form; otherwise it
      succeeds exactly when the buffer holds all five strings, and then each of
      them reads back from its own part of the buffer. */
  method FillPasswd(reply: string, buffer: array<char>) returns (status: Status, pw: Passwd)
    requires NUL !in reply
    modifies buffer
    ensures status.NotFound? <==> ParsePw(reply).None?
    ensures status.NotFound? ==> buffer[..] == old(buffer[..])
    ensures status.Success? <==> ParsePw(reply).Some? && |Packed(Strings(ParsePw(reply).value))| <= buffer.Length
    ensures status.Success? ==> PasswdHolds(buffer[..], pw, ParsePw(reply).value)
  {
    hide Packed, PasswdHolds, ParsePw, Offset;
    pw := Passwd(0, 0, 0, 0, 0, 0, 0);
    var parsed := ParsePw(reply);
    if parsed.None? {
      return NotFound, pw;
    }
    var id := parsed.value;
    ghost var ss := Strings(id);
    Offsets(id);
    var ok1, at1 := PlaceNext(ss, 0, id.name, buffer, 0);
    var ok2, at2 := PlaceNext(ss, 1, "*", buffer, at1);
    var ok3, at3 := PlaceNext(ss, 2, id.gecos, buffer, at2);
    var ok4, at4 := PlaceNext(ss, 3, id.home, buffer, at3);
    var ok5, at5 := PlaceNext(ss, 4, id.shell, buffer, at4);
    if !(ok1 && ok2 && ok3 && ok4 && ok5) {
      return TryAgain, pw;
    }
    pw := Passwd(0, at1, at2, at3, at4, id.uid, id.gid);
    ParsedHasNoNul(reply);
    assert ss[..5] == ss && buffer[..at5] <= buffer[..];
    PackedHolds(buffer[..], id);
    return Success, pw;
  }

  lemma Offsets(id: Identity)
    ensures var ss := Strings(id);
      && Packed(ss[..0]) == [] && |Packed(ss)| == |id.name| + |id.gecos| + |id.home| + |id.shell| + 6
      && PasswdAt(id) == Passwd(0, |id.name| + 1, |id.name| + 3, |id.name| + |id.gecos| + 4, |id.name| + |id.gecos| + |id.home| + 5, id.uid, id.gid)
  {
    var ss := Strings(id);
    hide Packed;
    assert ss[..0] == [] && Packed([]) == [] by { PackedNothing(); }
    assert ss[..5] == ss;
    OffsetsGrow(ss, 0);
    OffsetsGrow(ss, 1);
    OffsetsGrow(ss, 2);
    OffsetsGrow(ss, 3);
    OffsetsGrow(ss, 4);
  }

  lemma PackedNothing()
    ensures Packed([]) == []
  {
  }

  // ----- the group buffer -----

  const ADDRESSES: nat := 0x1_0000_0000_0000_0000

  /** The bytes of a machine word, least significant first. */
  function Bytes(v: nat, k: nat): (r: string)
    ensures |r| == k
  {
    if k == 0 then [] else [(v % 256) as char] + Bytes(v / 256, k - 1)
  }

  function Number(bytes: string): nat {
    if bytes == [] then 0 else bytes[0] as int + 256 * Number(bytes[1..])
  }

  function Values(k: nat): nat {
    if k == 0 then 1 else 256 * Values(k - 1)
  }

  lemma {:induction false} NumberOfBytes(v: nat, k: nat)
    requires v < Values(k)
    ensures Number(Bytes(v, k)) == v
  {
    if k > 0 {
      NumberOfBytes(v / 256, k - 1);
      assert Bytes(v, k)[1..] == Bytes(v / 256, k - 1);
    }
  }

  /** The pointer stored at an offset. */
  function PointerAt(data: string, at: nat): nat
    requires at + WORD_SIZE <= |data|
  {
    Number(data[at..at + WORD_SIZE])
  }

  lemma PointerIs(data: string, at: nat, v: nat)
    requires at + WORD_SIZE <= |data| && data[at..at + WORD_SIZE] == Bytes(v, WORD_SIZE) && v < ADDRESSES
    ensures PointerAt(data, at) == v
  {
    assert Values(4) == 0x1_0000_0000;
    assert Values(WORD_SIZE) == ADDRESSES;
    NumberOfBytes(v, WORD_SIZE);
  }

  lemma {:induction false} BytesSplit(v: nat, rest: nat, i: nat, k: nat)
    requires i < k && rest == Shifted(v, i)
    ensures Bytes(v, k)[i] == (rest % 256) as char
    decreases i
  {
    if i > 0 { BytesSplit(v / 256, rest, i - 1, k - 1); }
  }

  function Shifted(v: nat, i: nat): nat {
    if i == 0 then v else Shifted(v / 256, i - 1)
  }

  lemma {:induction false} ShiftOnce(v: nat, i: nat)
    ensures Shifted(v, i + 1) == Shifted(v, i) / 256
  {
    if i > 0 { ShiftOnce(v / 256, i - 1); }
  }

  method WritePointer(buffer: array<char>, at: nat, v: nat)
    requires at + WORD_SIZE <= buffer.Length
    modifies buffer
    ensures buffer[at..at + WORD_SIZE] == Bytes(v, WORD_SIZE)
    ensures buffer[..at] == old(buffer[..at]) && buffer[at + WORD_SIZE..] == old(buffer[..])[at + WORD_SIZE..]
  {
    hide Bytes, Shifted;
    var rest := v;
    assert rest == Shifted(v, 0) by { ShiftedNone(v); }
    for i := 0 to WORD_SIZE
      invariant rest == Shifted(v, i)
      invariant buffer[at..at + i] == Bytes(v, WORD_SIZE)[..i]
      invariant buffer[..at] == old(buffer[..at]) && buffer[at + WORD_SIZE..] == old(buffer[..])[at + WORD_SIZE..]
    {
      BytesSplit(v, rest, i, WORD_SIZE);
      ShiftOnce(v, i);
      buffer[at + i] := (rest % 256) as char;
      rest := rest / 256;
    }
  }

  lemma ShiftedNone(v: nat)
    ensures Shifted(v, 0) == v
  {
  }

  /** Offsets into the buffer; members is the array of two pointers, the first
      to member, the second NULL. */
  datatype Group = Group(name: nat, passwd: nat, members: nat, member: nat, gid: int)

  /** Bytes before the next multiple of the pointer size. */
  function Pad(base: nat): (r: nat)
    ensures r < WORD_SIZE && (base + r) % WORD_SIZE == 0
  {
    (WORD_SIZE - base % WORD_SIZE) % WORD_SIZE
  }

  function GroupStrings(name: string): seq<string> {
    [name, "*", name]
  }

  ghost predicate GroupHolds(data: string, base: nat, gr: Group, name: string, gid: int) {
    && CString(data, gr.name) == Some(name) && CString(data, gr.passwd) == Some("*")
    && CString(data, gr.member) == Some(name) && gr.gid == gid
    && (base + gr.members) % WORD_SIZE == 0
    && gr.members + 2 * WORD_SIZE <= gr.name && gr.name + |name| + 1 <= gr.passwd
    && gr.passwd + 2 <= gr.member && gr.member + |name| + 1 <= |data|
    && PointerAt(data, gr.members) == base + gr.member && PointerAt(data, gr.members + WORD_SIZE) == 0
  }

  function GroupAt(from: nat, name: string, gid: int): Group
    requires from >= 2 * WORD_SIZE
  {
    var ss := GroupStrings(name);
    Group(from + Offset(ss, 0), from + Offset(ss, 1), from - 2 * WORD_SIZE, from + Offset(ss, 2), gid)
  }

  lemma PackedGroupHolds(data: string, base: nat, from: nat, name: string, gid: int)
    requires from == Pad(base) + 2 * WORD_SIZE && from <= |data| && NUL !in name
    requires Packed(GroupStrings(name)) <= data[from..] && base + |data| < ADDRESSES
    requires data[from - 2 * WORD_SIZE..from - WORD_SIZE] == Bytes(base + GroupAt(from, name, gid).member, WORD_SIZE)
    requires data[from - WORD_SIZE..from] == Bytes(0, WORD_SIZE)
    ensures GroupHolds(data, base, GroupAt(from, name, gid), name, gid)
  {
    hide Packed, CString, Offset, Bytes, PointerAt;
    var ss := GroupStrings(name);
    PackedReads(ss, 0, data, from);
    PackedReads(ss, 1, data, from);
    PackedReads(ss, 2, data, from);
    PointerIs(data, from - 2 * WORD_SIZE, base + GroupAt(from, name, gid).member);
    PointerIs(data, from - WORD_SIZE, 0);
  }

  lemma GroupOffsets(from: nat, name: string, gid: int)
    requires from >= 2 * WORD_SIZE
    ensures var ss := GroupStrings(name);
      && Packed(ss[..0]) == [] && |Packed(ss)| == 2 * |name| + 4
      && GroupAt(from, name, gid) == Group(from, from + |name| + 1, from - 2 * WORD_SIZE, from + |name| + 3, gid)
  {
    hide Packed;
    var ss := GroupStrings(name);
    assert ss[..0] == [] && Packed([]) == [] by { PackedNothing(); }
    assert ss[..3] == ss;
    OffsetsGrow(ss, 0);
    OffsetsGrow(ss, 1);
    OffsetsGrow(ss, 2);
  }

  /** As PlaceNext, after the pointers. */
  method PlaceAfter(ghost from: nat, ghost strings: seq<string>, ghost k: nat, s: string, buffer: array<char>, at: nat)
    returns (ok: bool, next: nat)
    requires from <= at <= buffer.Length && k < |strings| && s == strings[k]
    modifies buffer
    ensures at <= next <= buffer.Length
    ensures ok <==> at + |s| + 1 <= buffer.Length
    ensures old(buffer[from..at]) == Packed(strings[..k]) && ok ==> buffer[from..next] == Packed(strings[..k + 1])
    ensures ok ==> next == at + |s| + 1
  {
    ok, next := Place(s, buffer, at);
    PackedAppend(strings, k);
    assert Packed(strings[..k]) + (s + [NUL]) == Packed(strings[..k]) + s + [NUL];
    assert buffer[from..next] == buffer[..next][from..];
    assert old(buffer[from..at]) == old(buffer[..at])[from..];
  }

  lemma GroupNameHasNoNul(reply: string)
    requires NUL !in reply && ParseGr(reply).Some?
    ensures NUL !in ParseGr(reply).value.0
  {
    TokensKeep(2, reply[3..], NUL);
  }

  /** members[0] and members[1]. */
  method WriteMembers(buffer: array<char>, at: nat, member: nat)
    requires at + 2 * WORD_SIZE <= buffer.Length
    modifies buffer
    ensures buffer[at..at + WORD_SIZE] == Bytes(member, WORD_SIZE)
    ensures buffer[at + WORD_SIZE..at + 2 * WORD_SIZE] == Bytes(0, WORD_SIZE)
    ensures buffer[at + 2 * WORD_SIZE..] == old(buffer[..])[at + 2 * WORD_SIZE..]
  {
    hide Bytes;
    WritePointer(buffer, at, member);
    ghost var first := buffer[..at + WORD_SIZE];
    WritePointer(buffer, at + WORD_SIZE, 0);
    assert buffer[at..at + WORD_SIZE] == buffer[..at + WORD_SIZE][at..] == first[at..];
  }

  /** The strings and the member array, after the padding. */
  method PlaceGroup(name: string, gid: int, base: nat, pad: nat, buffer: array<char>) returns (status: Status, gr: Group)
    requires pad == Pad(base) && pad + 2 * WORD_SIZE <= buffer.Length && base + buffer.Length < ADDRESSES
    modifies buffer
    ensures status == if pad + 2 * WORD_SIZE + 2 * |name| + 4 <= buffer.Length then Success else TryAgain
    ensures status.Success? && NUL !in name ==> GroupHolds(buffer[..], base, gr, name, gid)
  {
    hide Packed, GroupHolds, Offset, Pad, GroupAt, Bytes;
    var from := pad + 2 * WORD_SIZE;
    ghost var ss := GroupStrings(name);
    GroupOffsets(from, name, gid);
    assert buffer[from..from] == [];
    var ok1, at1 := PlaceAfter(from, ss, 0, name, buffer, from);
    var ok2, at2 := PlaceAfter(from, ss, 1, "*", buffer, at1);
    var ok3, at3 := PlaceAfter(from, ss, 2, name, buffer, at2);
    ghost var strings := buffer[from..at3];
    WriteMembers(buffer, pad, if ok3 then base + at2 else 0);
    assert buffer[from..at3] == buffer[from..][..at3 - from] == strings;
    gr := Group(from, at1, pad, at2, gid);
    if !(ok1 && ok2 && ok3) {
      return TryAgain, gr;
    }
    assert ss[..3] == ss && buffer[from..at3] <= buffer[..][from..];
    if NUL !in name { PackedGroupHolds(buffer[..], base, from, name, gid); }
    return Success, gr;
  }

  /** fill_group, for a buffer at the given address: it succeeds exactly when
      alignment, pointers and strings fit, and the member array then points to
      the member and ends. */
  method FillGroup(reply: string, base: nat, buffer: array<char>) returns (status: Status, gr: Group)
    requires NUL !in reply && base + buffer.Length < ADDRESSES
    modifies buffer
    ensures status.NotFound? <==> ParseGr(reply).None?
    ensures status.NotFound? ==> buffer[..] == old(buffer[..])
    ensures status.Success? <==> ParseGr(reply).Some? && Pad(base) + 2 * WORD_SIZE + 2 * |ParseGr(reply).value.0| + 4 <= buffer.Length
    ensures status.Success? ==> GroupHolds(buffer[..], base, gr, ParseGr(reply).value.0, ParseGr(reply).value.1)
  {
    hide Packed, GroupHolds, ParseGr, Offset, Pad, GroupAt, Bytes;
    gr := Group(0, 0, 0, 0, 0);
    var parsed := ParseGr(reply);
    if parsed.None? {
      return NotFound, gr;
    }
    var name, left := parsed.value.0, buffer.Length;
    var pad := base % WORD_SIZE;
    if pad != 0 {
      pad := WORD_SIZE - pad;
      if pad > left {
        PadIs(base, pad);
        return TryAgain, gr;
      }
      left := left - pad;
    }
    PadIs(base, pad);
    if left < 2 * WORD_SIZE {
      return TryAgain, gr;
    }
    status, gr := PlaceGroup(name, parsed.value.1, base, pad, buffer);
    GroupNameHasNoNul(reply);
  }

  lemma PadIs(base: nat, pad: nat)
    requires pad == if base % WORD_SIZE == 0 then 0 else WORD_SIZE - base % WORD_SIZE
    ensures Pad(base) == pad
  {
  }
}
