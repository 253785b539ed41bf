/** Well-formed archives: what they are, that the encoder of cpio(5) makes them, and that
    parsing one leaves exactly its regular files. */
module Cpio {
  import opened Bits
  import opened Ctype
  import opened RamfsFiles
  import opened Initramfs

  datatype Member = Member(mode: nat, name: Name, body: seq<byte>)

  predicate Fits(m: Member) {
    && m.mode < 0x1_0000_0000 && |m.body| < 0x1_0000_0000 && |m.name| < 256
    && (forall i :: 0 <= i < |m.name| ==> m.name[i] != NUL) && m.name != TRAILER
  }

  /** Where a member's body and the next member start. */
  function BodyAt(pos: nat, m: Member): nat {
    Align4(pos + HEADER + |m.name| + 1)
  }

  function NextAt(pos: nat, m: Member): nat {
    Align4(BodyAt(pos, m) + |m.body|)
  }

  /** A header, the name with its end, padding, and the body stand at `pos`. */
  predicate MemberAt(data: seq<byte>, pos: nat, m: Member) {
    && Fits(m) && BodyAt(pos, m) + |m.body| <= |data|
    && pos + HEADER + |m.name| + 1 <= |data|
    && HexAt(data, pos + MODE) == Some(m.mode) && HexAt(data, pos + NAME_SIZE) == Some(|m.name| + 1)
    && HexAt(data, pos + FILE_SIZE) == Some(|m.body|)
    && data[pos + HEADER..pos + HEADER + |m.name|] == m.name && data[pos + HEADER + |m.name|] == NUL
    && data[BodyAt(pos, m)..BodyAt(pos, m) + |m.body|] == m.body
  }

  /** The closing member. */
  predicate TrailerAt(data: seq<byte>, pos: nat) {
    && pos + HEADER + |TRAILER| + 1 <= |data| && Align4(pos + HEADER + |TRAILER| + 1) <= |data|
    && HexAt(data, pos + MODE).Some? && HexAt(data, pos + NAME_SIZE) == Some(|TRAILER| + 1)
    && HexAt(data, pos + FILE_SIZE).Some?
    && data[pos + HEADER..pos + HEADER + |TRAILER|] == TRAILER && data[pos + HEADER + |TRAILER|] == NUL
  }

  /** `data` from `pos` on is an archive of these members; the bytes between and after them,
      and the header fields that are not read, are free. */
  predicate Archive(data: seq<byte>, pos: nat, members: seq<Member>)
    decreases |members|
  {
    if members == [] then TrailerAt(data, pos)
    else MemberAt(data, pos, members[0]) && Archive(data, NextAt(pos, members[0]), members[1..])
  }

  /** The regular members, as the calls that create them. */
  function Regular(members: seq<Member>): seq<Call> {
    if members == [] then []
    else (if IsRegular(members[0].mode) then [Call(members[0].name, members[0].body)] else []) + Regular(members[1..])
  }

  // ---- parsing an archive ----

  lemma EndOfName(data: seq<byte>, at: nat, name: Name)
    requires at + |name| < |data| && data[at..at + |name|] == name && data[at + |name|] == NUL
    requires forall i :: 0 <= i < |name| ==> name[i] != NUL
    ensures StringEnd(data, at) == at + |name|
  {
    hide StringEnd;
    forall i | at <= i < at + |name| ensures data[i] != NUL {
      assert data[at..at + |name|][i - at] == data[i];
    }
  }

  lemma StepMember(data: seq<byte>, pos: nat, m: Member)
    requires MemberAt(data, pos, m)
    ensures StepAt(data, pos) == Next(NextAt(pos, m), if IsRegular(m.mode) then [Call(m.name, m.body)] else [])
  {
    EndOfName(data, pos + HEADER, m.name);
    hide Hex, StringEnd, Digit;
  }

  lemma StepTrailer(data: seq<byte>, pos: nat)
    requires TrailerAt(data, pos)
    ensures StepAt(data, pos) == Stop
  {
    EndOfName(data, pos + HEADER, TRAILER);
    hide Hex, StringEnd, Digit;
  }

  /** Parsing an archive creates exactly its regular members, in order, up to the trailer. */
  lemma {:induction false} ParseArchive(data: seq<byte>, pos: nat, members: seq<Member>)
    requires Archive(data, pos, members)
    ensures Calls(data, pos) == Some(Regular(members))
    decreases |members|
  {
    hide StepAt, MemberAt, TrailerAt;
    if members == [] {
      StepTrailer(data, pos);
      TrailerRoom(data, pos);
    } else {
      MemberRoom(data, pos, members[0]);
      StepMember(data, pos, members[0]);
      ParseArchive(data, NextAt(pos, members[0]), members[1..]);
    }
  }

  lemma TrailerRoom(data: seq<byte>, pos: nat)
    requires TrailerAt(data, pos)
    ensures pos + HEADER <= |data|
  {}

  lemma MemberRoom(data: seq<byte>, pos: nat, m: Member)
    requires MemberAt(data, pos, m)
    ensures pos + HEADER <= |data|
  {}

  /** Members stand from `pos` to `end`. */
  predicate MembersTo(data: seq<byte>, pos: nat, members: seq<Member>, end: nat)
    decreases |members|
  {
    if members == [] then pos == end
    else MemberAt(data, pos, members[0]) && MembersTo(data, NextAt(pos, members[0]), members[1..], end)
  }

  /** The bytes end before a header, a name field or a body that would start there does. */
  predicate CutAt(data: seq<byte>, pos: nat) {
    || pos + HEADER > |data|
    || (&& HexAt(data, pos + MODE).Some? && HexAt(data, pos + NAME_SIZE).Some? && HexAt(data, pos + FILE_SIZE).Some?
        && var body := Align4(pos + HEADER + HexAt(data, pos + NAME_SIZE).value);
        || body > |data|
        || (&& body + HexAt(data, pos + FILE_SIZE).value > |data|
            && exists e :: pos + HEADER <= e < |data| && data[e] == NUL))
  }

  /** An archive that breaks off creates the regular members that are complete. */
  lemma {:induction false} ParseCut(data: seq<byte>, pos: nat, members: seq<Member>, end: nat)
    requires MembersTo(data, pos, members, end) && CutAt(data, end)
    ensures Calls(data, pos) == Some(Regular(members))
    decreases |members|
  {
    hide StepAt, MemberAt, CutAt;
    if members == [] {
      StepCut(data, pos);
    } else {
      MemberRoom(data, pos, members[0]);
      StepMember(data, pos, members[0]);
      ParseCut(data, NextAt(pos, members[0]), members[1..], end);
    }
  }

  lemma StepCut(data: seq<byte>, pos: nat)
    requires CutAt(data, pos)
    ensures pos + HEADER <= |data| ==> StepAt(data, pos) == Stop
  {
    hide Hex, Digit;
  }

  // ---- the files an archive leaves ----

  predicate DistinctNames(calls: seq<Call>) {
    forall i, j :: 0 <= i < j < |calls| ==> calls[i].name != calls[j].name
  }

  predicate Lists(l: Listing, name: Name, body: seq<byte>) {
    exists i :: 0 <= i < |l| && l[i] == (name, body)
  }

  predicate CallFor(calls: seq<Call>, name: Name, body: seq<byte>) {
    exists i :: 0 <= i < |calls| && calls[i] == Call(name, body)
  }

  predicate Absent(l: Listing, name: Name) {
    forall i :: 0 <= i < |l| ==> l[i].0 != name
  }

  lemma PutNew(l: Listing, c: Call)
    requires Absent(l, c.name)
    ensures Put(l, c.name, c.body) == [(c.name, c.body)] + l
  {
    FindIs(l, c.name, |l|);
  }

  lemma {:induction false} PutDistinct(l: Listing, calls: seq<Call>, name: Name, body: seq<byte>)
    requires DistinctNames(calls) && forall i :: 0 <= i < |calls| ==> Absent(l, calls[i].name)
    ensures Lists(PutAll(l, calls), name, body) <==> Lists(l, name, body) || CallFor(calls, name, body)
    decreases |calls|
  {
    hide Put, Absent;
    if calls != [] {
      var c := calls[0];
      var m := [(c.name, c.body)] + l;
      PutNew(l, c);
      forall i | 0 <= i < |calls| - 1 ensures Absent(m, calls[1..][i].name) { AbsentCons(l, c, calls[i + 1].name); }
      PutDistinct(m, calls[1..], name, body);
      ListsCons(l, c, name, body);
      CallForCons(calls, name, body);
    }
  }

  lemma AbsentCons(l: Listing, c: Call, name: Name)
    requires Absent(l, name) && c.name != name
    ensures Absent([(c.name, c.body)] + l, name)
  {}

  lemma ListsCons(l: Listing, c: Call, name: Name, body: seq<byte>)
    ensures Lists([(c.name, c.body)] + l, name, body) <==> Lists(l, name, body) || c == Call(name, body)
  {
    var m := [(c.name, c.body)] + l;
    if i :| 0 <= i < |l| && l[i] == (name, body) { assert m[i + 1] == l[i]; }
    if i :| 0 <= i < |m| && m[i] == (name, body) { if i > 0 { assert l[i - 1] == m[i]; } }
    assert m[0] == (c.name, c.body);
  }

  lemma CallForCons(calls: seq<Call>, name: Name, body: seq<byte>)
    requires calls != []
    ensures CallFor(calls, name, body) <==> calls[0] == Call(name, body) || CallFor(calls[1..], name, body)
  {
    if i :| 0 <= i < |calls| && calls[i] == Call(name, body) { if i > 0 { assert calls[1..][i - 1] == calls[i]; } }
    if i :| 0 <= i < |calls| - 1 && calls[1..][i] == Call(name, body) { assert calls[i + 1] == calls[1..][i]; }
  }

  /** initramfs_setup on an archive whose regular members have distinct names: afterwards the
      file system holds exactly those members, each with its exact bytes; enough pages for the bodies suffice. */
  method LoadArchive(fs: FileSystem, data: seq<byte>, ghost members: seq<Member>, room: nat)
    returns (r: Outcome, left: nat)
    requires fs.Ok() && fs.List() == [] && Archive(data, 0, members) && DistinctNames(Regular(members))
    modifies fs, fs.Objects()
    ensures Total(Regular(members)) <= room ==> r.Done?
    ensures !r.Bad?
    ensures r.Done? ==> fs.Ok() && forall name, body :: Lists(fs.List(), name, body) <==>
                                                        CallFor(Regular(members), name, body)
  {
    hide Calls, PutAll, Archive, Regular, Lists, CallFor, Total;
    ParseArchive(data, 0, members);
    r, left := ParseCpio(fs, data, room);
    if r.Done? {
      forall name, body ensures Lists(fs.List(), name, body) <==> CallFor(Regular(members), name, body) {
        PutDistinct([], Regular(members), name, body);
        NothingListed(name, body);
      }
    }
  }

  lemma NothingListed(name: Name, body: seq<byte>)
    ensures !Lists([], name, body)
  {}

  // ---- an encoder ----

  /** `n` as eight hexadecimal digits. */
  function Hex8(n: nat, width: nat): (s: seq<byte>)
    ensures |s| == width
  {
    if width == 0 then [] else Hex8(n / 16, width - 1) + [DigitChar(n % 16)]
  }

  lemma DigitOfChar(d: nat)
    requires d < 16
    ensures Digit(DigitChar(d)) == Some(d)
  {}

  lemma {:induction false} HexLast(s: seq<byte>, c: byte, acc: nat)
    requires (forall i :: 0 <= i < |s| ==> s[i] != NUL) && c != NUL
    ensures Hex(s + [c], acc)
         == if Hex(s, acc).None? || Digit(c).None? then None else Some(Hex(s, acc).value * 16 + Digit(c).value)
    decreases |s|
  {
    hide Digit;
    if s == [] {
      assert ([c])[1..] == [];
      assert s + [c] == [c];
    } else {
      assert (s + [c])[1..] == s[1..] + [c] && (s + [c])[0] == s[0];
      if Digit(s[0]).Some? { HexLast(s[1..], c, acc * 16 + Digit(s[0]).value); }
    }
  }

  lemma {:induction false} HexRoundTrip(n: nat, width: nat)
    requires n < Pow16(width)
    ensures Hex(Hex8(n, width), 0) == Some(n) && forall i :: 0 <= i < width ==> Hex8(n, width)[i] != NUL
  {
    if width > 0 {
      HexRoundTrip(n / 16, width - 1);
      DigitOfChar(n % 16);
      HexLast(Hex8(n / 16, width - 1), DigitChar(n % 16), 0);
    }
  }

  function Pow16(k: nat): nat {
    if k == 0 then 1 else 16 * Pow16(k - 1)
  }

  /** `c` writes the digit `d`, a letter in either case. */
  predicate Writes(c: byte, d: nat) {
    if d < 10 then c as nat == 48 + d else d < 16 && (c as nat == 55 + d || c as nat == 87 + d)
  }

  /** The text writes `n` in base 16, whatever the case of its letters. */
  predicate Spells(s: seq<byte>, n: nat) {
    if s == [] then n == 0 else Writes(s[|s| - 1], n % 16) && Spells(s[..|s| - 1], n / 16)
  }

  lemma DigitWritten(c: byte, d: nat)
    requires d < 16
    ensures Digit(c) == Some(d) <==> Writes(c, d)
  {}

  /** parse_hex reads a text as `n` exactly when the text writes `n`. */
  lemma {:induction false} HexSpelled(s: seq<byte>, n: nat)
    requires forall i :: 0 <= i < |s| ==> s[i] != NUL
    ensures Hex(s, 0) == Some(n) <==> Spells(s, n)
    decreases |s|
  {
    hide Digit, Writes;
    if s != [] {
      var r, c := s[..|s| - 1], s[|s| - 1];
      assert r + [c] == s;
      HexSpelled(r, n / 16);
      HexLast(r, c, 0);
      DigitWritten(c, n % 16);
      DigitBelow(c);
      if Hex(r, 0).Some? && Digit(c).Some? {
        var h, d := Hex(r, 0).value, Digit(c).value;
        DivUnique(h * 16 + d, 16, h, d);
      }
    }
  }

  lemma DigitBelow(c: byte)
    ensures Digit(c).Some? ==> Digit(c).value < 16
  {}

  lemma HexField(n: nat)
    requires n < 0x1_0000_0000
    ensures Hex(Hex8(n, 8), 0) == Some(n)
  {
    assert Pow16(8) == 0x1_0000_0000;
    HexRoundTrip(n, 8);
  }

  /** A header with the given fields; the magic number and every other field as `rest` says. */
  function Header(mode: nat, fileSize: nat, nameSize: nat): (h: seq<byte>)
    ensures |h| == HEADER
    ensures h[MODE..MODE + 8] == Hex8(mode, 8) && h[FILE_SIZE..FILE_SIZE + 8] == Hex8(fileSize, 8)
    ensures h[NAME_SIZE..NAME_SIZE + 8] == Hex8(nameSize, 8)
  {
    var zero := Hex8(0, 8);
    var magic: seq<byte> := [ZERO, 55, ZERO, 55, ZERO, 49];
    var a := magic + zero + Hex8(mode, 8);
    var b := a + (zero + zero + zero + zero) + Hex8(fileSize, 8);
    var c := b + (zero + zero + zero + zero) + Hex8(nameSize, 8);
    assert |a| == 22 && |b| == 62 && |c| == 102;
    assert c[MODE..MODE + 8] == Hex8(mode, 8);
    assert c[FILE_SIZE..FILE_SIZE + 8] == Hex8(fileSize, 8);
    c + zero
  }

  function Padding(n: nat): (p: seq<byte>)
    ensures (n + |p|) == Align4(n)
  {
    Align4Facts(n);
    seq(Align4(n) - n, _ => NUL)
  }

  /** One member after `n` bytes of archive. */
  function Encode(n: nat, m: Member): seq<byte> {
    var start := Header(m.mode, |m.body|, |m.name| + 1) + m.name + [NUL];
    var full := start + Padding(n + |start|) + m.body;
    full + Padding(n + |full|)
  }

  function EncodeAll(prefix: seq<byte>, members: seq<Member>): seq<byte>
    decreases |members|
  {
    if members == [] then prefix + Encode(|prefix|, Member(0, TRAILER, []))
    else EncodeAll(prefix + Encode(|prefix|, members[0]), members[1..])
  }

  lemma {:induction false} EncodePrefix(prefix: seq<byte>, members: seq<Member>)
    ensures |prefix| <= |EncodeAll(prefix, members)| && EncodeAll(prefix, members)[..|prefix|] == prefix
    decreases |members|
  {
    if members != [] {
      var p := prefix + Encode(|prefix|, members[0]);
      EncodePrefix(p, members[1..]);
      assert EncodeAll(p, members[1..])[..|p|][..|prefix|] == prefix;
    }
  }

  /** Where the parts of an encoded member stand. */
  lemma EncodeParts(prefix: seq<byte>, m: Member)
    ensures var d, pos := prefix + Encode(|prefix|, m), |prefix|;
            && |d| == NextAt(pos, m) && pos + HEADER + |m.name| + 1 <= |d| && BodyAt(pos, m) + |m.body| <= |d|
            && d[pos..pos + HEADER] == Header(m.mode, |m.body|, |m.name| + 1)
            && d[pos + HEADER..pos + HEADER + |m.name|] == m.name && d[pos + HEADER + |m.name|] == NUL
            && d[BodyAt(pos, m)..BodyAt(pos, m) + |m.body|] == m.body
  {
    hide Header, Align4, Encode, Padding;
    var pos, h := |prefix|, Header(m.mode, |m.body|, |m.name| + 1);
    EncodeIs(pos, m);
    Layout(prefix, h, m.name, Padding(pos + HEADER + |m.name| + 1), m.body, Padding(BodyAt(pos, m) + |m.body|));
  }

  lemma EncodeIs(n: nat, m: Member)
    ensures Encode(n, m) == Header(m.mode, |m.body|, |m.name| + 1) + m.name + [NUL]
                            + Padding(n + HEADER + |m.name| + 1) + m.body
                            + Padding(BodyAt(n, m) + |m.body|)
  {
    hide Header, Align4, Padding;
  }

  lemma Layout(prefix: seq<byte>, h: seq<byte>, name: seq<byte>, pad: seq<byte>, body: seq<byte>, tail: seq<byte>)
    ensures var d := prefix + (h + name + [NUL] + pad + body + tail);
            var n, b := |prefix| + |h|, |prefix| + |h| + |name| + 1 + |pad|;
            && |d| == b + |body| + |tail| && d[|prefix|..n] == h && d[n..n + |name|] == name && d[n + |name|] == NUL
            && d[b..b + |body|] == body
  {
    var d := prefix + (h + name + [NUL] + pad + body + tail);
    assert d == (prefix + h) + name + ([NUL] + pad + body + tail);
    assert d == (prefix + h + name + [NUL] + pad) + body + tail;
  }

  /** The fields of a header standing at `pos`. */
  lemma FieldsAt(data: seq<byte>, pos: nat, mode: nat, fileSize: nat, nameSize: nat)
    requires pos + HEADER <= |data| && data[pos..pos + HEADER] == Header(mode, fileSize, nameSize)
    requires mode < 0x1_0000_0000 && fileSize < 0x1_0000_0000 && nameSize < 0x1_0000_0000
    ensures HexAt(data, pos + MODE) == Some(mode) && HexAt(data, pos + FILE_SIZE) == Some(fileSize)
    ensures HexAt(data, pos + NAME_SIZE) == Some(nameSize)
  {
    hide Header, Hex, Hex8;
    HexField(mode);
    HexField(fileSize);
    HexField(nameSize);
    Slice(data, pos, HEADER, MODE, MODE + 8);
    Slice(data, pos, HEADER, FILE_SIZE, FILE_SIZE + 8);
    Slice(data, pos, HEADER, NAME_SIZE, NAME_SIZE + 8);
  }

  lemma Slice(data: seq<byte>, pos: nat, n: nat, i: nat, j: nat)
    requires pos + n <= |data| && i <= j <= n
    ensures data[pos + i..pos + j] == data[pos..pos + n][i..j]
  {
    var a, b := data[pos + i..pos + j], data[pos..pos + n][i..j];
    forall k | 0 <= k < |a| ensures a[k] == b[k] {
      assert data[pos..pos + n][i + k] == data[pos + i + k];
    }
  }

  lemma SamePart(d: seq<byte>, data: seq<byte>, i: nat, j: nat)
    requires |d| <= |data| && data[..|d|] == d && i <= j <= |d|
    ensures data[i..j] == d[i..j]
  {
    assert data[..|d|][i..j] == data[i..j];
  }

  lemma EncodedMember(prefix: seq<byte>, m: Member, data: seq<byte>)
    requires Fits(m) && var d := prefix + Encode(|prefix|, m); |d| <= |data| && data[..|d|] == d
    ensures MemberAt(data, |prefix|, m) && NextAt(|prefix|, m) == |prefix + Encode(|prefix|, m)|
  {
    hide Encode, Header, Hex, Align4, HexAt;
    var d, pos := prefix + Encode(|prefix|, m), |prefix|;
    EncodeParts(prefix, m);
    SamePart(d, data, pos, pos + HEADER);
    SamePart(d, data, pos + HEADER, pos + HEADER + |m.name|);
    SamePart(d, data, BodyAt(pos, m), BodyAt(pos, m) + |m.body|);
    assert data[pos + HEADER + |m.name|] == data[..|d|][pos + HEADER + |m.name|];
    FieldsAt(data, pos, m.mode, |m.body|, |m.name| + 1);
  }

  /** The encoder makes archives, so archives of every member list exist. */
  lemma {:induction false} EncodeIsArchive(prefix: seq<byte>, members: seq<Member>)
    requires forall i :: 0 <= i < |members| ==> Fits(members[i])
    ensures Archive(EncodeAll(prefix, members), |prefix|, members)
    decreases |members|
  {
    hide Encode, MemberAt, TrailerAt, NextAt;
    if members == [] {
      EncodedTrailer(prefix);
    } else {
      var p := prefix + Encode(|prefix|, members[0]);
      EncodePrefix(p, members[1..]);
      EncodedMember(prefix, members[0], EncodeAll(p, members[1..]));
      EncodeIsArchive(p, members[1..]);
    }
  }

  lemma EncodedTrailer(prefix: seq<byte>)
    ensures TrailerAt(prefix + Encode(|prefix|, Member(0, TRAILER, [])), |prefix|)
  {
    hide Encode, Header, Hex, Align4, HexAt;
    var m, pos := Member(0, TRAILER, []), |prefix|;
    EncodeParts(prefix, m);
    FieldsAt(prefix + Encode(pos, m), pos, 0, 0, |TRAILER| + 1);
    Align4Facts(BodyAt(pos, m));
  }

  /** Reading back what the encoder wrote. */
  lemma RoundTrip(members: seq<Member>)
    requires forall i :: 0 <= i < |members| ==> Fits(members[i])
    ensures Calls(EncodeAll([], members), 0) == Some(Regular(members))
  {
    EncodeIsArchive([], members);
    ParseArchive(EncodeAll([], members), 0, members);
  }

  /** A member is listed exactly when its type bits say regular file: `-rw-r--r--` is, `drwxr-xr-x` is not. */
  lemma RegularListed(m: Member)
    requires Fits(m)
    ensures Calls(EncodeAll([], [m]), 0) == Some(if And(m.mode, 0xF000) == 0x8000 then [Call(m.name, m.body)] else [])
    ensures And(0x81A4, 0xF000) == 0x8000 && And(0x41ED, 0xF000) != 0x8000
  {
    hide And, Calls, EncodeAll, Regular;
    RoundTrip([m]);
    RegularMode(m.mode);
    RegularMode(0x81A4);
    RegularMode(0x41ED);
    RegularOne(m);
  }

  lemma RegularOne(m: Member)
    ensures Regular([m]) == if IsRegular(m.mode) then [Call(m.name, m.body)] else []
  {
    assert [m][1..] == [];
  }
}
