/** The initial ramdisk reader (initramfs.c) for the "New ASCII Format" of cpio(5): parsing an
    archive creates exactly its regular files, with their exact bytes. */
module Initramfs {
  import opened Bits
  import opened Ctype
  import Ramfs
  import opened RamfsFiles

  datatype Option<T> = None | Some(value: T)

  /** sizeof(struct cpio_header), and where the fields that are read start. */
  const HEADER: nat := 110
  const MODE: nat := 14
  const FILE_SIZE: nat := 54
  const NAME_SIZE: nat := 94

  /** "TRAILER!!!" */
  const TRAILER: Name := [84, 82, 65, 73, 76, 69, 82, 33, 33, 33]

  /** S_ISREG. */
  predicate IsRegular(mode: nat) {
    mode / 0x1000 % 16 == 8
  }

  /** The four type bits, masked out as stat.h does, are those of a regular file. */
  lemma RegularMode(mode: nat)
    ensures IsRegular(mode) <==> And(mode, 0xF000) == 0x8000
  {
    var a := mode / 2 / 2 / 2 / 2 / 2 / 2 / 2 / 2 / 2 / 2 / 2 / 2;
    AndTwelve(mode);
    AndLow(a, 4);
    assert Pow2(4) == 16;
    assert a == mode / 0x1000;
  }

  /** Twelve even steps of the mask. */
  lemma AndTwelve(mode: nat)
    ensures And(mode, 0xF000) == 0x1000 * And(mode / 2 / 2 / 2 / 2 / 2 / 2 / 2 / 2 / 2 / 2 / 2 / 2, 15)
  {
    hide And;
    AndThree(mode, 0xF000, 0x1E00);
    AndThree(mode / 2 / 2 / 2, 0x1E00, 0x3C0);
    AndThree(mode / 2 / 2 / 2 / 2 / 2 / 2, 0x3C0, 0x78);
    AndThree(mode / 2 / 2 / 2 / 2 / 2 / 2 / 2 / 2 / 2, 0x78, 15);
  }

  lemma AndThree(a: nat, m: nat, n: nat)
    requires m == 8 * n
    ensures And(a, m) == 8 * And(a / 2 / 2 / 2, n)
  {
    hide And;
    AndTwice(a, m, 4 * n);
    AndTwice(a / 2, 4 * n, 2 * n);
    AndTwice(a / 2 / 2, 2 * n, n);
  }

  lemma AndTwice(a: nat, m: nat, n: nat)
    requires m == 2 * n
    ensures And(a, m) == 2 * And(a / 2, n)
  {
    AndEven(a, m);
  }

  // ---- parse_hex ----

  /** `strchr(digits, tolower(c)) - digits`, where the character is a hexadecimal digit. */
  function Digit(c: byte): Option<nat> {
    var l := ToLower(c);
    if IsDigit(l) then Some((l - ZERO) as nat)
    else if LETTER_A <= l <= LETTER_A + 5 then Some((l - LETTER_A) as nat + 10)
    else None
  }

  /** The value of a field; none where a character is no digit and C leaves it undefined. */
  function Hex(s: seq<byte>, acc: nat): Option<nat>
    decreases |s|
  {
    if s == [] || s[0] == NUL then Some(acc)
    else if Digit(s[0]).None? then None
    else Hex(s[1..], acc * 16 + Digit(s[0]).value)
  }

  function HexAt(data: seq<byte>, at: nat): Option<nat>
    requires at + 8 <= |data|
  {
    Hex(data[at..at + 8], 0)
  }

  /** parse_hex. */
  method ParseHex(data: seq<byte>, at: nat) returns (r: Option<nat>)
    requires at + 8 <= |data|
    ensures r == HexAt(data, at)
  {
    var ans := 0;
    var i := 0;
    ghost var s := data[at..at + 8];
    assert s[0..] == s;
    while i < 8 && data[at + i] != NUL
      invariant 0 <= i <= 8 && ans >= 0 && Hex(s, 0) == Hex(s[i..], ans)
    {
      assert s[i..][0] == data[at + i] && s[i..][1..] == s[i + 1..];
      var d := Digit(data[at + i]);
      if d.None? { return None; }
      ans := ans * 16 + d.value;
      i := i + 1;
    }
    if i < 8 { assert s[i..][0] == data[at + i]; }
    r := Some(ans);
  }

  // ---- one archive member ----

  /** Where the C string at `at` ends. */
  function StringEnd(data: seq<byte>, at: nat): (e: nat)
    requires at <= |data|
    ensures at <= e <= |data| && (e < |data| ==> data[e] == NUL) && forall i :: at <= i < e ==> data[i] != NUL
    decreases |data| - at
  {
    if at == |data| || data[at] == NUL then at else StringEnd(data, at + 1)
  }

  /** `(x + 3) & ~3`. */
  function Align4(x: nat): nat {
    AlignUp(x, 4)
  }

  lemma Align4Facts(x: nat)
    ensures x <= Align4(x) < x + 4 && Align4(x) % 4 == 0
    ensures x % 4 == 0 ==> Align4(x) == x
  {}

  datatype Call = Call(name: Name, body: seq<byte>)

  /** What one pass of the loop does: stop, go on, or read a field C gives no value to. */
  datatype Step = Stop | Undefined | Next(pos: nat, calls: seq<Call>)

  function StepAt(data: seq<byte>, pos: nat): Step
    requires pos + HEADER <= |data|
  {
    var mode, nameSize, fileSize := HexAt(data, pos + MODE), HexAt(data, pos + NAME_SIZE), HexAt(data, pos + FILE_SIZE);
    if mode.None? || nameSize.None? || fileSize.None? then Undefined
    else
      var body := Align4(pos + HEADER + nameSize.value);
      if body > |data| then Stop
      else
        var e := StringEnd(data, pos + HEADER);
        if e == |data| then Undefined
        else if data[pos + HEADER..e] == TRAILER then Stop
        else if body + fileSize.value > |data| then Stop
        else
          Next(Align4(body + fileSize.value),
               if IsRegular(mode.value) then [Call(data[pos + HEADER..e], data[body..body + fileSize.value])] else [])
  }

  lemma StepAdvances(data: seq<byte>, pos: nat)
    requires pos + HEADER <= |data| && StepAt(data, pos).Next?
    ensures StepAt(data, pos).pos >= pos + HEADER
  {}

  /** The files the loop creates from `pos` on; none where it runs into an undefined read. */
  function Calls(data: seq<byte>, pos: nat): Option<seq<Call>>
    decreases |data| - pos
  {
    if pos + HEADER > |data| then Some([])
    else
      match StepAt(data, pos)
      case Stop => Some([])
      case Undefined => None
      case Next(next, calls) =>
        StepAdvances(data, pos);
        Prepend(calls, Calls(data, next))
  }

  function Prepend(calls: seq<Call>, rest: Option<seq<Call>>): Option<seq<Call>> {
    if rest.None? then None else Some(calls + rest.value)
  }

  lemma PrependTwice(a: seq<Call>, b: seq<Call>, rest: Option<seq<Call>>)
    ensures Prepend(a, Prepend(b, rest)) == Prepend(a + b, rest) && Prepend([], rest) == rest
  {
    if rest.Some? {
      assert a + (b + rest.value) == (a + b) + rest.value;
      assert [] + rest.value == rest.value;
    }
  }

  function PutAll(l: Listing, calls: seq<Call>): Listing
    decreases |calls|
  {
    if calls == [] then l else PutAll(Put(l, calls[0].name, calls[0].body), calls[1..])
  }

  lemma {:induction false} PutAllConcat(l: Listing, a: seq<Call>, b: seq<Call>)
    ensures PutAll(l, a + b) == PutAll(PutAll(l, a), b)
    decreases |a|
  {
    if a == [] {
      assert a + b == b;
    } else {
      assert (a + b)[1..] == a[1..] + b;
      PutAllConcat(Put(l, a[0].name, a[0].body), a[1..], b);
    }
  }

  /** Returned; hung in create_file; or met a field C gives no value to. */
  datatype Outcome = Done | Hung | Bad

  /** The bytes of the C string at `at`. */
  method ReadName(data: seq<byte>, at: nat) returns (e: nat)
    requires at <= |data|
    ensures e == StringEnd(data, at)
  {
    e := at;
    while e < |data| && data[e] != NUL
      invariant at <= e <= |data| && StringEnd(data, at) == StringEnd(data, e)
    {
      e := e + 1;
    }
  }

  /** One pass of the loop of parse_cpio. */
  method ParseMember(data: seq<byte>, pos0: nat) returns (s: Step)
    requires pos0 + HEADER <= |data|
    ensures s == StepAt(data, pos0)
  {
    hide Hex, Digit, StringEnd, AlignUp;
    var pos := pos0;
    var mode := ParseHex(data, pos + MODE);
    var nameSize := ParseHex(data, pos + NAME_SIZE);
    var fileSize := ParseHex(data, pos + FILE_SIZE);
    if mode.None? || nameSize.None? || fileSize.None? { return Undefined; }
    pos := pos + HEADER;
    var name := pos;
    pos := AlignUp(pos + nameSize.value, 4);
    if pos > |data| { return Stop; }
    var e := ReadName(data, name);
    if e == |data| { return Undefined; }
    if data[name..e] == TRAILER { return Stop; }
    var body := pos;
    pos := pos + fileSize.value;
    if pos > |data| { return Stop; }
    var calls := [];
    if IsRegular(mode.value) { calls := [Call(data[name..e], data[body..body + fileSize.value])]; }
    pos := AlignUp(pos, 4);
    s := Next(pos, calls);
  }

  /** The pages that the bodies take when every file is new. */
  function Total(calls: seq<Call>): nat
    decreases |calls|
  {
    if calls == [] then 0 else Ramfs.PagesIn(0, |calls[0].body|) + Total(calls[1..])
  }

  lemma {:induction false} TotalConcat(a: seq<Call>, b: seq<Call>)
    ensures Total(a + b) == Total(a) + Total(b)
    decreases |a|
  {
    if a == [] {
      assert a + b == b;
    } else {
      assert (a + b)[1..] == a[1..] + b;
      TotalConcat(a[1..], b);
    }
  }

  /** parse_cpio: it terminates and reads every header in bounds, whatever the bytes are; it hangs
      only where `room` pages are too few for the bodies. */
  method ParseCpio(fs: FileSystem, data: seq<byte>, room: nat) returns (r: Outcome, left: nat)
    requires fs.Ok()
    modifies fs, fs.Objects()
    ensures r.Bad? ==> Calls(data, 0).None?
    ensures r.Done? ==> fs.Ok() && Calls(data, 0).Some? && fs.List() == PutAll(old(fs.List()), Calls(data, 0).value)
    ensures r.Done? ==> 0 <= room - left <= Total(Calls(data, 0).value)
    ensures r.Hung? && Calls(data, 0).Some? ==> room < Total(Calls(data, 0).value)
  {
    hide StepAt, Put, Ramfs.PagesIn, Total;
    var pos := 0;
    ghost var l0, done: seq<Call> := fs.List(), [];
    left := room;
    PrependTwice([], [], Calls(data, 0));
    while pos < |data| && |data| - pos >= HEADER
      invariant pos >= 0 && fs.Ok() && fresh(fs.Objects() - old(fs.Objects()))
      invariant fs.List() == PutAll(l0, done)
      invariant Calls(data, 0) == Prepend(done, Calls(data, pos))
      invariant 0 <= room - left <= Total(done)
      decreases |data| - pos
    {
      var s := ParseMember(data, pos);
      match s
      case Stop => break;
      case Undefined => return Bad, left;
      case Next(next, calls) =>
        StepAdvances(data, pos);
        StepCalls(data, pos);
        PrependTwice(done, calls, Calls(data, next));
        StepTotal(done, calls, Calls(data, next));
        if calls != [] {
          var hung;
          hung, left := fs.CreateFile(calls[0].name, calls[0].body, left);
          if hung { return Hung, left; }
        }
        PutAllConcat(l0, done, calls);
        done := done + calls;
        pos := next;
    }
    assert Calls(data, pos) == Some([]);
    assert done + [] == done;
    r := Done;
  }

  /** What one pass adds, and that later passes only add to it. */
  lemma StepTotal(done: seq<Call>, calls: seq<Call>, rest: Option<seq<Call>>)
    requires |calls| <= 1
    ensures Total(done + calls) == Total(done) + if calls == [] then 0 else Ramfs.PagesIn(0, |calls[0].body|)
    ensures rest.Some? ==> Total(done + calls) <= Total(Prepend(done + calls, rest).value)
  {
    hide Ramfs.PagesIn;
    TotalConcat(done, calls);
    if rest.Some? { TotalConcat(done + calls, rest.value); }
  }

  lemma StepCalls(data: seq<byte>, pos: nat)
    requires pos + HEADER <= |data| && StepAt(data, pos).Next?
    ensures |StepAt(data, pos).calls| <= 1
    ensures StepAt(data, pos).calls != [] ==>
              forall l :: PutAll(l, StepAt(data, pos).calls)
                          == Put(l, StepAt(data, pos).calls[0].name, StepAt(data, pos).calls[0].body)
  {}
}
