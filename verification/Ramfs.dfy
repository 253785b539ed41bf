/** Files of ramfs.c: a sorted list of pages behaves like one flat, sparse array of bytes. */
module Ramfs {
  import opened Bits

  /** struct ramfs_page with the content of its page. */
  datatype FilePage = FilePage(offs: nat, data: seq<byte>)

  predicate Holds(p: FilePage, x: nat) {
    p.offs <= x < p.offs + PAGE
  }

  /** Page-aligned, in order, no two at one offset. */
  ghost predicate PagesOk(pages: seq<FilePage>) {
    && (forall i :: 0 <= i < |pages| ==> |pages[i].data| == PAGE && pages[i].offs % PAGE == 0)
    && (forall i, j :: 0 <= i < j < |pages| ==> pages[i].offs < pages[j].offs)
  }

  /** Byte `x` of the file is stored as `b`. */
  ghost predicate Stores(pages: seq<FilePage>, x: nat, b: byte) {
    exists i :: 0 <= i < |pages| && Holds(pages[i], x) && |pages[i].data| == PAGE
                && pages[i].data[x - pages[i].offs] == b
  }

  ghost predicate Covered(pages: seq<FilePage>, x: nat) {
    exists i :: 0 <= i < |pages| && Holds(pages[i], x)
  }

  /** The pages store every byte ever written, and there is a page only where one was. */
  ghost predicate Agrees(pages: seq<FilePage>, flat: map<nat, byte>) {
    && (forall x :: x in flat ==> Stores(pages, x, flat[x]))
    && (forall i :: 0 <= i < |pages| ==> exists x :: x in flat && Holds(pages[i], x))
  }

  lemma PagesApart(pages: seq<FilePage>, i: nat, j: nat)
    requires PagesOk(pages) && i < j < |pages|
    ensures pages[i].offs + PAGE <= pages[j].offs
  {
    AlignedApart(pages[i].offs, pages[j].offs);
  }

  lemma AlignedApart(a: nat, b: nat)
    requires a % PAGE == 0 && b % PAGE == 0 && a < b
    ensures a + PAGE <= b
  {}

  lemma OnePage(pages: seq<FilePage>, i: nat, j: nat, x: nat)
    requires PagesOk(pages) && i < |pages| && j < |pages| && Holds(pages[i], x) && Holds(pages[j], x)
    ensures i == j
  {
    if i < j { PagesApart(pages, i, j); }
    if j < i { PagesApart(pages, j, i); }
  }

  // ---- reading ----

  /** What a read of `size` bytes at `offs` shows: the stored bytes, zero elsewhere. */
  ghost predicate Shown(pages: seq<FilePage>, offs: nat, out: seq<byte>) {
    forall i :: 0 <= i < |out| ==> ShownByte(pages, offs + i, out[i])
  }

  ghost predicate ShownByte(pages: seq<FilePage>, x: nat, b: byte) {
    if Covered(pages, x) then Stores(pages, x, b) else b == 0
  }

  /** After the pages before `k` have been copied. */
  ghost predicate Reading(pages: seq<FilePage>, k: nat, offs: nat, out: seq<byte>)
    requires k <= |pages|
  {
    forall i :: 0 <= i < |out| ==> ShownByte(pages[..k], offs + i, out[i])
  }

  lemma ReadPage(pages: seq<FilePage>, k: nat, offs: nat, out: seq<byte>, out1: seq<byte>)
    requires PagesOk(pages) && k < |pages| && Reading(pages, k, offs, out) && |out1| == |out|
    requires forall i :: 0 <= i < |out| ==> out1[i] == if Holds(pages[k], offs + i)
                                                       then pages[k].data[offs + i - pages[k].offs] else out[i]
    ensures Reading(pages, k + 1, offs, out1)
  {
    forall i | 0 <= i < |out| ensures ShownByte(pages[..k + 1], offs + i, out1[i]) {
      ReadByte(pages, k, offs + i, out[i], out1[i]);
    }
  }

  lemma ReadByte(pages: seq<FilePage>, k: nat, x: nat, b: byte, b1: byte)
    requires PagesOk(pages) && k < |pages| && ShownByte(pages[..k], x, b)
    requires b1 == if Holds(pages[k], x) then pages[k].data[x - pages[k].offs] else b
    ensures ShownByte(pages[..k + 1], x, b1)
  {
    var p, q := pages[..k], pages[..k + 1];
    assert forall i :: 0 <= i < k ==> q[i] == p[i];
    assert q[k] == pages[k];
    if Holds(pages[k], x) {
      assert Holds(q[k], x) && q[k].data[x - q[k].offs] == b1;
    } else {
      assert Covered(q, x) == Covered(p, x) by {
        if i :| 0 <= i < |p| && Holds(p[i], x) { assert Holds(q[i], x); }
        if i :| 0 <= i < |q| && Holds(q[i], x) { assert i < k && Holds(p[i], x); }
      }
      if Covered(p, x) {
        var i :| 0 <= i < |p| && Holds(p[i], x) && |p[i].data| == PAGE && p[i].data[x - p[i].offs] == b;
        assert Holds(q[i], x) && q[i].data[x - q[i].offs] == b;
      }
    }
  }

  /** A page the range does not reach adds nothing. */
  lemma ReadSkip(pages: seq<FilePage>, k: nat, offs: nat, out: seq<byte>)
    requires PagesOk(pages) && k < |pages| && Reading(pages, k, offs, out)
    requires pages[k].offs + PAGE <= offs || offs + |out| <= pages[k].offs
    ensures Reading(pages, k + 1, offs, out)
  {
    ReadPage(pages, k, offs, out, out);
  }

  lemma {:induction false} ReadRest(pages: seq<FilePage>, k: nat, offs: nat, out: seq<byte>)
    requires PagesOk(pages) && k <= |pages| && Reading(pages, k, offs, out)
    requires k < |pages| ==> offs + |out| <= pages[k].offs
    ensures Shown(pages, offs, out)
    decreases |pages| - k
  {
    if k < |pages| {
      ReadSkip(pages, k, offs, out);
      ReadRest(pages, k + 1, offs, out);
    } else {
      assert pages[..k] == pages;
    }
  }

  // ---- writing ----

  /** memcpy into the page; only used where the chunk fits. */
  function Store(p: FilePage, at: int, chunk: seq<byte>): FilePage {
    if 0 <= at && at + |chunk| <= |p.data| then p.(data := p.data[..at] + chunk + p.data[at + |chunk|..]) else p
  }

  predicate InSpan(x: nat, offs: nat, n: nat) {
    offs <= x < offs + n
  }

  function Span(offs: nat, n: nat): (s: set<nat>)
    ensures forall x :: x in s <==> InSpan(x, offs, n)
  {
    set x: nat | offs <= x < offs + n && InSpan(x, offs, n)
  }

  function Written(flat: map<nat, byte>, offs: nat, chunk: seq<byte>): map<nat, byte> {
    flat + map x | x in Span(offs, |chunk|) :: chunk[x - offs]
  }

  lemma WrittenIs(flat: map<nat, byte>, offs: nat, chunk: seq<byte>, x: nat)
    ensures x in Written(flat, offs, chunk) <==> x in flat || InSpan(x, offs, |chunk|)
    ensures InSpan(x, offs, |chunk|) ==> Written(flat, offs, chunk)[x] == chunk[x - offs]
    ensures !InSpan(x, offs, |chunk|) && x in flat ==> Written(flat, offs, chunk)[x] == flat[x]
  {}

  /** The pages once page `k` has been inserted if `fill` is given, and then stored into. */
  function Placed(pages: seq<FilePage>, k: nat, p: FilePage, isNew: bool): seq<FilePage> {
    if isNew && k <= |pages| then pages[..k] + [p] + pages[k..]
    else if k < |pages| then pages[k := p]
    else pages
  }

  lemma PlacedOk(pages: seq<FilePage>, k: nat, p: FilePage, isNew: bool)
    requires PagesOk(pages) && k <= |pages| && |p.data| == PAGE && p.offs % PAGE == 0
    requires if isNew then (forall i :: 0 <= i < k ==> pages[i].offs + PAGE <= p.offs)
                           && (forall i :: k <= i < |pages| ==> p.offs < pages[i].offs)
             else k < |pages| && pages[k].offs == p.offs
    ensures PagesOk(Placed(pages, k, p, isNew))
  {}

  /** Where a page of the old list stands in the new one. */
  function Shifted(k: nat, isNew: bool, i: nat): nat {
    if isNew && i >= k then i + 1 else i
  }

  lemma PlacedAt(pages: seq<FilePage>, k: nat, p: FilePage, isNew: bool)
    requires k <= |pages| && (!isNew ==> k < |pages|)
    ensures |Placed(pages, k, p, isNew)| == |pages| + if isNew then 1 else 0
    ensures Placed(pages, k, p, isNew)[k] == p
    ensures forall i :: 0 <= i < |pages| && (isNew || i != k) ==>
                          Placed(pages, k, p, isNew)[Shifted(k, isNew, i)] == pages[i]
    ensures forall j :: 0 <= j < |Placed(pages, k, p, isNew)| && j != k ==>
                          Placed(pages, k, p, isNew)[j] == pages[if isNew && j > k then j - 1 else j]
  {
    var t := Placed(pages, k, p, isNew);
    PlacedCount(pages, k, p, isNew);
    forall j | 0 <= j < |t| ensures t[j] == if j == k then p else pages[if isNew && j > k then j - 1 else j] {
      if isNew { Inserted(pages, k, p, j); } else { Updated(pages, k, p, j); }
    }
    hide Placed;
    forall i | 0 <= i < |pages| && (isNew || i != k) ensures t[Shifted(k, isNew, i)] == pages[i] {}
  }

  lemma PlacedCount(pages: seq<FilePage>, k: nat, p: FilePage, isNew: bool)
    requires k <= |pages| && (!isNew ==> k < |pages|)
    ensures |Placed(pages, k, p, isNew)| == |pages| + if isNew then 1 else 0
  {}

  lemma Inserted<T>(a: seq<T>, k: nat, x: T, j: nat)
    requires k <= |a| && j <= |a|
    ensures (a[..k] + [x] + a[k..])[j] == if j < k then a[j] else if j == k then x else a[j - 1]
  {
    if j > k { assert a[k..][j - k - 1] == a[j - 1]; }
  }

  lemma Updated<T>(a: seq<T>, k: nat, x: T, j: nat)
    requires k < |a| && j < |a|
    ensures a[k := x][j] == if j == k then x else a[j]
  {}

  /** A stretch of `a` replaced by `b`. */
  lemma Patched<T>(a: seq<T>, at: nat, b: seq<T>, j: nat)
    requires at + |b| <= |a| && j < |a|
    ensures var t := a[..at] + b + a[at + |b|..];
            |t| == |a| && t[j] == if at <= j < at + |b| then b[j - at] else a[j]
  {
    if j >= at + |b| { assert a[at + |b|..][j - at - |b|] == a[j]; }
  }

  /** The first `j` pages end at or below `offs`. */
  predicate Before(pages: seq<FilePage>, j: nat, offs: nat) {
    j <= |pages| && forall i :: 0 <= i < j ==> pages[i].offs + PAGE <= offs
  }

  /** A chunk that fits page `p`, which is page `k` or a new one to go there. */
  ghost predicate Fits(pages: seq<FilePage>, k: nat, p: FilePage, isNew: bool, offs: nat, n: nat) {
    && k <= |pages| && |p.data| == PAGE && (isNew || (k < |pages| && pages[k] == p))
    && p.offs <= offs && offs + n <= p.offs + PAGE && n > 0
  }

  /** One chunk written into page `k`, new or old: the flat view gains exactly those bytes. */
  lemma ChunkAgrees(pages: seq<FilePage>, flat: map<nat, byte>, k: nat, p: FilePage, isNew: bool, offs: nat,
                    chunk: seq<byte>)
    requires Agrees(pages, flat) && Fits(pages, k, p, isNew, offs, |chunk|) && PagesOk(Placed(pages, k, p, isNew))
    ensures Agrees(Placed(pages, k, Store(p, offs - p.offs, chunk), isNew), Written(flat, offs, chunk))
  {
    hide Placed, Store, Written, PagesOk, Stores, Holds;
    var t, w := Placed(pages, k, Store(p, offs - p.offs, chunk), isNew), Written(flat, offs, chunk);
    forall x | x in w ensures Stores(t, x, w[x]) {
      StoredByte(pages, flat, k, p, isNew, offs, chunk, x);
    }
    PlacedAt(pages, k, Store(p, offs - p.offs, chunk), isNew);
    forall i | 0 <= i < |t| ensures exists x :: x in w && Holds(t[i], x) {
      StoredPage(pages, flat, k, p, isNew, offs, chunk, i);
    }
  }

  lemma StoredPage(pages: seq<FilePage>, flat: map<nat, byte>, k: nat, p: FilePage, isNew: bool, offs: nat,
                   chunk: seq<byte>, i: nat)
    requires Agrees(pages, flat) && Fits(pages, k, p, isNew, offs, |chunk|)
    requires i < |Placed(pages, k, Store(p, offs - p.offs, chunk), isNew)|
    ensures exists x :: x in Written(flat, offs, chunk)
                        && Holds(Placed(pages, k, Store(p, offs - p.offs, chunk), isNew)[i], x)
  {
    hide Placed, Written, Stores;
    var t, w := Placed(pages, k, Store(p, offs - p.offs, chunk), isNew), Written(flat, offs, chunk);
    PlacedAt(pages, k, Store(p, offs - p.offs, chunk), isNew);
    if i == k {
      WrittenIs(flat, offs, chunk, offs);
      assert offs in w && Holds(t[i], offs);
    } else {
      var j := if isNew && i > k then i - 1 else i;
      var x :| x in flat && Holds(pages[j], x);
      WrittenIs(flat, offs, chunk, x);
      assert x in w && Holds(t[i], x);
    }
  }

  lemma StoreAt(p: FilePage, at: int, chunk: seq<byte>, i: int)
    requires 0 <= at && 0 <= i && at + |chunk| <= |p.data| && i < |p.data|
    ensures |Store(p, at, chunk).data| == |p.data| && Store(p, at, chunk).offs == p.offs
    ensures Store(p, at, chunk).data[i] == if at <= i < at + |chunk| then chunk[i - at] else p.data[i]
  {
    Patched(p.data, at, chunk, i);
  }

  lemma StoredByte(pages: seq<FilePage>, flat: map<nat, byte>, k: nat, p: FilePage, isNew: bool, offs: nat,
                   chunk: seq<byte>, x: nat)
    requires Agrees(pages, flat) && Fits(pages, k, p, isNew, offs, |chunk|) && PagesOk(Placed(pages, k, p, isNew))
    requires x in Written(flat, offs, chunk)
    ensures Stores(Placed(pages, k, Store(p, offs - p.offs, chunk), isNew), x, Written(flat, offs, chunk)[x])
  {
    hide Placed, Written, PagesOk, Store, Agrees, Stores, Holds;
    var q, at := Store(p, offs - p.offs, chunk), offs - p.offs;
    PlacedAt(pages, k, q, isNew);
    WrittenIs(flat, offs, chunk, x);
    if InSpan(x, offs, |chunk|) {
      StoreAt(p, at, chunk, x - p.offs);
      StoresAt(Placed(pages, k, q, isNew), k, x);
    } else {
      OldStored(pages, flat, x);
      var i := StoreIndex(pages, x, flat[x]);
      if !isNew && i == k {
        StoreAt(p, at, chunk, x - p.offs);
        StoresAt(Placed(pages, k, q, isNew), k, x);
      } else {
        StoresAt(Placed(pages, k, q, isNew), Shifted(k, isNew, i), x);
      }
    }
  }

  lemma StoresAt(pages: seq<FilePage>, i: nat, x: nat)
    requires i < |pages| && pages[i].offs <= x < pages[i].offs + PAGE && |pages[i].data| == PAGE
    ensures Stores(pages, x, pages[i].data[x - pages[i].offs])
  {
    assert Holds(pages[i], x);
  }

  lemma StoreIndex(pages: seq<FilePage>, x: nat, b: byte) returns (i: nat)
    requires Stores(pages, x, b)
    ensures i < |pages| && pages[i].offs <= x < pages[i].offs + PAGE && |pages[i].data| == PAGE
    ensures pages[i].data[x - pages[i].offs] == b
  {
    i :| 0 <= i < |pages| && Holds(pages[i], x) && |pages[i].data| == PAGE && pages[i].data[x - pages[i].offs] == b;
  }

  lemma OldStored(pages: seq<FilePage>, flat: map<nat, byte>, x: nat)
    requires Agrees(pages, flat) && x in flat
    ensures Stores(pages, x, flat[x])
  {}

  /** What lies where nothing was ever written. */
  lemma UnwrittenPage(pages: seq<FilePage>, flat: map<nat, byte>, x: nat)
    requires PagesOk(pages) && Agrees(pages, flat) && !Touched(flat, x)
    ensures !Covered(pages, x)
  {
    hide PagesOk, Agrees, Touched;
    if i :| 0 <= i < |pages| && Holds(pages[i], x) { SomeWritten(pages, flat, i, x); }
  }

  /** Some byte of the page of `x` was written. */
  predicate Touched(flat: map<nat, byte>, x: nat) {
    exists y :: y in flat && y / PAGE == x / PAGE
  }

  lemma SomeWritten(pages: seq<FilePage>, flat: map<nat, byte>, i: nat, x: nat)
    requires PagesOk(pages) && Agrees(pages, flat) && i < |pages| && Holds(pages[i], x)
    ensures Touched(flat, x)
  {
    hide Stores;
    var y :| y in flat && Holds(pages[i], y);
    SamePageIndex(pages[i].offs, x, y);
  }

  lemma SamePageIndex(o: nat, x: nat, y: nat)
    requires o % PAGE == 0 && o <= x < o + PAGE && o <= y < o + PAGE
    ensures x / PAGE == y / PAGE
  {}

  lemma StoresOne(pages: seq<FilePage>, x: nat, a: byte, b: byte)
    requires PagesOk(pages) && Stores(pages, x, a) && Stores(pages, x, b)
    ensures a == b
  {
    var i :| 0 <= i < |pages| && Holds(pages[i], x) && |pages[i].data| == PAGE && pages[i].data[x - pages[i].offs] == a;
    var j :| 0 <= j < |pages| && Holds(pages[j], x) && |pages[j].data| == PAGE && pages[j].data[x - pages[j].offs] == b;
    OnePage(pages, i, j, x);
  }

  // ---- the two operations ----

  function Min(a: int, b: int): int {
    if a < b then a else b
  }

  function Max(a: int, b: int): int {
    if a < b then b else a
  }

  /** How many pages the bytes [from, to) touch. */
  function PagesIn(from: nat, to: nat): nat {
    if to <= from then 0 else (to - 1) / PAGE - from / PAGE + 1
  }

  /** These are the pages that some byte of the range lies in. */
  lemma PagesTouched(from: nat, to: nat, p: nat)
    requires from < to
    ensures (exists x: nat :: from <= x < to && PageOf(x) == p) <==>
            from / PAGE <= p < from / PAGE + PagesIn(from, to)
  {
    if from / PAGE <= p <= (to - 1) / PAGE {
      var x := if p == from / PAGE then from else p * PAGE;
      assert from <= x < to && PageOf(x) == p;
    }
  }

  function PageOf(x: nat): nat {
    x / PAGE
  }

  lemma PagesNext(from: nat, offs: nat, o: nat, m: nat)
    requires o % PAGE == 0 && o <= offs < o + PAGE && from <= offs && (offs == from || offs == o)
    requires 0 < m && offs + m <= o + PAGE
    ensures PagesIn(from, offs + m) == PagesIn(from, offs) + 1
  {}

  lemma PagesMonotone(from: nat, offs: nat, to: nat)
    requires offs <= to
    ensures PagesIn(from, offs) <= PagesIn(from, to)
  {}

  /** struct file without its name; `flat` holds every byte written so far. */
  class File {
    var size: nat
    var pages: seq<FilePage>
    ghost var flat: map<nat, byte>

    ghost predicate Ok()
      reads this
    {
      PagesOk(pages) && Agrees(pages, flat) && forall x :: x in flat ==> x < size
    }

    constructor ()
      ensures Ok() && size == 0 && flat == map[]
    {
      size, pages, flat := 0, [], map[];
    }

    /** memcpy into the caller's buffer. */
    static method CopyOut(p: FilePage, at: nat, buf: array<byte>, to: nat, n: nat)
      requires at + n <= |p.data| && to + n <= buf.Length
      modifies buf
      ensures forall k :: 0 <= k < buf.Length ==> buf[k] == if to <= k < to + n then p.data[at + k - to]
                                                            else old(buf[k])
    {
      var i := 0;
      while i < n
        invariant 0 <= i <= n
        invariant forall k :: 0 <= k < buf.Length ==> buf[k] == if to <= k < to + i then p.data[at + k - to]
                                                                else old(buf[k])
      {
        buf[to + i] := p.data[at + i];
        i := i + 1;
      }
    }

    /** ramfs_readat, with the buffer cleared first. */
    method ReadAt(buf: array<byte>, size0: nat, offs: nat) returns (r: nat)
      requires Ok() && buf.Length == size0
      modifies buf
      ensures r == if offs >= size then 0 else Min(size0, size - offs)
      ensures forall i :: 0 <= i < size0 ==>
                            (offs < size && offs + i in flat ==> buf[i] == flat[offs + i])
                            && (offs >= size || !Touched(flat, offs + i) ==> buf[i] == 0)
    {
      hide PagesOk, Agrees, Touched;
      Clear(buf);
      if offs >= size { return 0; }
      var from, to := offs, offs + size0;
      var k := 0;
      ReadStarts(pages, offs, buf[..]);
      while k < |pages|
        invariant 0 <= k <= |pages| && Reading(pages, k, offs, buf[..])
      {
        var rp := pages[k];
        PageIs(pages, k);
        if rp.offs + PAGE <= from {
          ReadSkip(pages, k, offs, buf[..]);
          k := k + 1;
          continue;
        }
        if rp.offs >= to { break; }
        var dataOffs := Max(rp.offs - from, 0);
        var pageOffs := Max(offs - rp.offs, 0);
        var toCopy := Min(PAGE - pageOffs, to - (from + dataOffs));
        ghost var out := buf[..];
        CopyOut(rp, pageOffs, buf, dataOffs, toCopy);
        CopiedPage(rp, offs, out, buf[..], dataOffs, pageOffs, toCopy);
        ReadPage(pages, k, offs, out, buf[..]);
        k := k + 1;
      }
      ReadRest(pages, k, offs, buf[..]);
      ShownFlat(pages, flat, offs, buf[..]);
      r := if to >= size then size - offs else size0;
    }

    /** memset(data, 0, size). */
    static method Clear(buf: array<byte>)
      modifies buf
      ensures forall i :: 0 <= i < buf.Length ==> buf[i] == 0
    {
      var i := 0;
      while i < buf.Length
        invariant 0 <= i <= buf.Length && forall k :: 0 <= k < i ==> buf[k] == 0
      {
        buf[i] := 0;
        i := i + 1;
      }
    }

    /** A page for `offs`, holding whatever its frame held. */
    static method NewPage(offs: nat) returns (p: FilePage)
      ensures p.offs == offs - offs % PAGE && |p.data| == PAGE
    {
      assert |seq(PAGE, _ => 0 as byte)| == PAGE;
      var fill: seq<byte> :| |fill| == PAGE;
      p := FilePage(offs - offs % PAGE, fill);
    }

    /** Inserts the page if it is new and copies the chunk into it. */
    method Put(j: nat, p: FilePage, isNew: bool, offs: nat, chunk: seq<byte>)
      requires Fits(pages, j, p, isNew, offs, |chunk|) && Before(pages, j, offs)
      requires PagesOk(pages) && Agrees(pages, flat) && PagesOk(Placed(pages, j, p, isNew))
      modifies this`pages, this`flat
      ensures j < |pages| && |pages| - (j + 1) <= |old(pages)| - j && pages[j].offs == p.offs && Before(pages, j, offs)
      ensures PagesOk(pages) && Agrees(pages, flat) && flat == Written(old(flat), offs, chunk)
      ensures |pages| == |old(pages)| + if isNew then 1 else 0
    {
      hide PagesOk, Agrees, Written, Placed, Store;
      ChunkAgrees(pages, flat, j, p, isNew, offs, chunk);
      StoreAt(p, offs - p.offs, chunk, 0);
      SamePlaces(pages, j, p, Store(p, offs - p.offs, chunk), isNew);
      pages := Placed(pages, j, Store(p, offs - p.offs, chunk), isNew);
      flat := Written(flat, offs, chunk);
    }

    /** ramfs_writeat: the count written, or -1 where not even one page could be had. `room` is how
        many pages, with their list nodes, the allocators can still give, `left` what remains. */
    method WriteAt(data: seq<byte>, offs0: nat, room: nat) returns (r: int, left: nat)
      requires Ok()
      modifies this
      ensures Ok() && size == Max(old(size), offs0 + |data|)
      ensures r == -1 || 0 < r <= |data| || (r == 0 && data == [])
      ensures flat == Written(old(flat), offs0, data[..Max(r, 0)])
      ensures r != |data| ==> left == 0 && room < PagesIn(offs0, offs0 + |data|)
      ensures |pages| - |old(pages)| == room - left && 0 <= room - left <= PagesIn(offs0, offs0 + |data|)
    {
      hide PagesOk, Agrees, Written, Placed, Store, Fits, PagesIn;
      var from, to := offs0, offs0 + |data|;
      var offs := offs0;
      if to > size { size := to; }
      var j := 0;
      left := room;
      ghost var flat0, count := flat, |pages|;
      WriteStarts(flat, from, data);
      while offs != to
        invariant from <= offs <= to && 0 <= j <= |pages| && PagesOk(pages) && Agrees(pages, flat)
        invariant offs == from || offs == to || offs % PAGE == 0
        invariant offs != to ==> Before(pages, j, offs)
        invariant flat == Written(flat0, from, data[..offs - from]) && size == Max(old(size), to)
        invariant |pages| - count == room - left && 0 <= room - left <= PagesIn(from, offs)
        decreases (to - offs), |pages| - j
      {
        if j < |pages| && pages[j].offs + PAGE <= offs {
          j := j + 1;
          continue;
        }
        var isNew := j == |pages| || pages[j].offs > offs;
        var rp;
        if isNew {
          if left == 0 {
            WriteSize(flat0, from, data, offs - from, size);
            PagesNext(from, offs, offs - offs % PAGE, 1);
            PagesMonotone(from, offs + 1, to);
            r := if offs == from then -1 else offs - from;
            return;
          }
          rp := NewPage(offs);
          left := left - 1;
        } else {
          rp := pages[j];
        }
        NewPageFits(pages, j, rp, isNew, offs);
        var dataOffs := Max(rp.offs - from, 0);
        var pageOffs := Max(offs - rp.offs, 0);
        var toCopy := Min(PAGE - pageOffs, to - (from + dataOffs));
        DataOffset(rp.offs, from, offs);
        ChunkEnd(rp.offs, offs, to, toCopy);
        var chunk := data[dataOffs..dataOffs + toCopy];
        ChunkFits(pages, j, rp, isNew, offs, chunk);
        Put(j, rp, isNew, offs, chunk);
        WriteMore(flat0, from, data, offs - from, toCopy);
        PagesNext(from, offs, rp.offs, toCopy);
        offs := offs + toCopy;
        j := j + 1;
      }
      WriteSize(flat0, from, data, offs - from, size);
      r := offs - from;
    }
  }

  lemma ReadStarts(pages: seq<FilePage>, offs: nat, out: seq<byte>)
    requires forall i :: 0 <= i < |out| ==> out[i] == 0
    ensures Reading(pages, 0, offs, out)
  {}

  lemma PageIs(pages: seq<FilePage>, k: nat)
    requires PagesOk(pages) && k < |pages|
    ensures |pages[k].data| == PAGE && pages[k].offs % PAGE == 0
  {}

  /** The copy puts every byte of the page that the range reaches where it belongs. */
  lemma CopiedPage(p: FilePage, offs: nat, out: seq<byte>, out1: seq<byte>, dataOffs: nat, pageOffs: nat, n: nat)
    requires |p.data| == PAGE && dataOffs == Max(p.offs - offs, 0) && pageOffs == Max(offs - p.offs, 0)
    requires n == Min(PAGE - pageOffs, |out| - dataOffs) && dataOffs + n <= |out| && pageOffs + n <= PAGE
    requires |out1| == |out|
    requires forall k :: 0 <= k < |out| ==> out1[k] == if dataOffs <= k < dataOffs + n
                                                       then p.data[pageOffs + k - dataOffs] else out[k]
    ensures forall i :: 0 <= i < |out| ==> out1[i] == if Holds(p, offs + i) then p.data[offs + i - p.offs] else out[i]
  {
    forall i | 0 <= i < |out| ensures out1[i] == if Holds(p, offs + i) then p.data[offs + i - p.offs] else out[i] {
      CopiedByte(p, offs, dataOffs, pageOffs, n, |out|, i);
    }
  }

  /** The stretch that is copied is what the page holds of the range. */
  lemma CopiedByte(p: FilePage, offs: nat, dataOffs: nat, pageOffs: nat, n: nat, size: nat, i: nat)
    requires dataOffs == Max(p.offs - offs, 0) && pageOffs == Max(offs - p.offs, 0)
    requires n == Min(PAGE - pageOffs, size - dataOffs) && i < size
    ensures Holds(p, offs + i) <==> dataOffs <= i < dataOffs + n
    ensures Holds(p, offs + i) ==> offs + i - p.offs == pageOffs + i - dataOffs
  {}

  lemma ShownFlat(pages: seq<FilePage>, flat: map<nat, byte>, offs: nat, out: seq<byte>)
    requires PagesOk(pages) && Agrees(pages, flat) && Shown(pages, offs, out)
    ensures forall i :: 0 <= i < |out| ==>
                          (offs + i in flat ==> out[i] == flat[offs + i]) && (!Touched(flat, offs + i) ==> out[i] == 0)
  {
    hide PagesOk, Agrees, Touched, Stores, Covered;
    forall i | 0 <= i < |out|
      ensures (offs + i in flat ==> out[i] == flat[offs + i]) && (!Touched(flat, offs + i) ==> out[i] == 0)
    {
      assert ShownByte(pages, offs + i, out[i]);
      if offs + i in flat {
        OldStored(pages, flat, offs + i);
        StoredCovered(pages, offs + i, flat[offs + i]);
        StoresOne(pages, offs + i, out[i], flat[offs + i]);
      }
      if !Touched(flat, offs + i) { UnwrittenPage(pages, flat, offs + i); }
    }
  }

  lemma StoredCovered(pages: seq<FilePage>, x: nat, b: byte)
    requires Stores(pages, x, b)
    ensures Covered(pages, x)
  {}

  lemma WriteStarts(flat: map<nat, byte>, from: nat, data: seq<byte>)
    ensures flat == Written(flat, from, data[..0])
  {}

  lemma WriteMore(flat: map<nat, byte>, from: nat, data: seq<byte>, n: nat, m: nat)
    requires n + m <= |data|
    ensures Written(Written(flat, from, data[..n]), from + n, data[n..n + m]) == Written(flat, from, data[..n + m])
  {
    hide Written;
    var one := Written(flat, from, data[..n]);
    var a, b := Written(one, from + n, data[n..n + m]), Written(flat, from, data[..n + m]);
    forall x ensures (x in a <==> x in b) && (x in a ==> a[x] == b[x]) {
      WrittenIs(flat, from, data[..n], x);
      WrittenIs(one, from + n, data[n..n + m], x);
      WrittenIs(flat, from, data[..n + m], x);
    }
    assert a.Keys == b.Keys;
  }

  lemma WriteSize(flat: map<nat, byte>, from: nat, data: seq<byte>, n: nat, size: nat)
    requires n <= |data| && from + |data| <= size && forall x :: x in flat ==> x < size
    ensures forall x :: x in Written(flat, from, data[..n]) ==> x < size
  {}

  lemma DataOffset(o: nat, from: nat, offs: nat)
    requires o <= offs && from <= offs && (offs == from || offs == o)
    ensures from + Max(o - from, 0) == offs && Max(offs - o, 0) == offs - o
  {}

  /** The page chosen for `offs`, old or new, holds it and keeps the list in order. */
  lemma NewPageFits(pages: seq<FilePage>, j: nat, p: FilePage, isNew: bool, offs: nat)
    requires PagesOk(pages) && Before(pages, j, offs)
    requires isNew == (j == |pages| || pages[j].offs > offs)
    requires if isNew then p.offs == offs - offs % PAGE && |p.data| == PAGE else pages[j] == p && offs < p.offs + PAGE
    ensures p.offs <= offs < p.offs + PAGE && |p.data| == PAGE && p.offs % PAGE == 0
    ensures (offs % PAGE == 0 ==> p.offs == offs)
    ensures PagesOk(Placed(pages, j, p, isNew))
  {
    if isNew {
      forall i | 0 <= i < j ensures pages[i].offs + PAGE <= p.offs { RoundedBelow(pages[i].offs, offs); }
      if j < |pages| {
        RoundedAbove(pages[j].offs, offs);
        forall i | j <= i < |pages| ensures p.offs < pages[i].offs {}
      }
    } else {
      SameBlock(p.offs, offs);
    }
    PlacedOk(pages, j, p, isNew);
  }

  lemma RoundedBelow(o: nat, offs: nat)
    requires o % PAGE == 0 && o + PAGE <= offs
    ensures o + PAGE <= offs - offs % PAGE
  {}

  lemma RoundedAbove(o: nat, offs: nat)
    requires o > offs
    ensures offs - offs % PAGE < o
  {}

  lemma SameBlock(o: nat, offs: nat)
    requires o % PAGE == 0 && o <= offs < o + PAGE
    ensures offs % PAGE == 0 ==> o == offs
  {}

  lemma ChunkEnd(o: nat, offs: nat, to: nat, n: int)
    requires o % PAGE == 0 && o <= offs < o + PAGE && offs < to && n == Min(PAGE - (offs - o), to - offs)
    ensures 0 < n <= to - offs && offs + n <= o + PAGE
    ensures (offs + n == to || ((offs + n) % PAGE == 0 && offs + n == o + PAGE))
  {}

  lemma ChunkFits(pages: seq<FilePage>, j: nat, p: FilePage, isNew: bool, offs: nat, chunk: seq<byte>)
    requires j <= |pages| && |p.data| == PAGE && (isNew || (j < |pages| && pages[j] == p))
    requires p.offs <= offs && offs + |chunk| <= p.offs + PAGE && |chunk| > 0
    ensures Fits(pages, j, p, isNew, offs, |chunk|)
  {}

  lemma SamePlaces(pages: seq<FilePage>, j: nat, p: FilePage, q: FilePage, isNew: bool)
    requires j <= |pages| && (isNew || j < |pages|) && PagesOk(Placed(pages, j, p, isNew)) && q.offs == p.offs
    requires |q.data| == |p.data|
    ensures PagesOk(Placed(pages, j, q, isNew)) && j < |Placed(pages, j, q, isNew)|
    ensures Placed(pages, j, q, isNew)[j] == q
    ensures forall i :: 0 <= i < j ==> Placed(pages, j, q, isNew)[i] == pages[i]
    ensures |Placed(pages, j, q, isNew)| - (j + 1) <= |pages| - j
    ensures |Placed(pages, j, q, isNew)| == |pages| + if isNew then 1 else 0
  {
    var s, t := Placed(pages, j, p, isNew), Placed(pages, j, q, isNew);
    assert forall i :: 0 <= i < |t| ==> t[i].offs == s[i].offs && |t[i].data| == |s[i].data|;
  }
}
