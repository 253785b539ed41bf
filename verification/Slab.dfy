/** The object caches of slab.c: naturally aligned buddy blocks cut into objects, with the
    slab's header in the last 40 bytes and its free objects threaded through their own memory. */
module Slab {
  import opened Bits
  import opened BuddyZone
  import BuddyClient
  import opened Paging

  /** sizeof(struct slab). */
  const HEADER: nat := 40

  /** struct slab, by the head page of its block; `free` is the first free object, 0 for none. */
  datatype Header = Header(page: nat, free: nat, size: nat)

  /** A cache: block order, objects per slab and object size; the headers by address; the link
      word in each free object; the three lists of headers; and, for the proofs only, the
      free objects of each slab in list order. */
  datatype Cache = Cache(order: nat, count: nat, size: nat, slabs: map<nat, Header>, next: map<nat, nat>,
                         full: seq<nat>, partial: seq<nat>, empty: seq<nat>, chain: map<nat, seq<nat>>)

  function Bytes(order: nat): (n: nat)
    ensures n >= PAGE
  {
    assert Pow2(order) * PAGE >= PAGE by { MulNonNeg(Pow2(order) - 1, PAGE); }
    Pow2(order) * PAGE
  }

  /** va(page_addr(page)). */
  function Virtual(page: nat): nat {
    page * PAGE + HIGHER_BASE
  }

  /** slab_get_meta. */
  function Meta(order: nat, virt: nat): nat {
    virt + Bytes(order) - HEADER
  }

  function Base(c: Cache, m: nat): nat
    requires m in c.slabs
  {
    Virtual(c.slabs[m].page)
  }

  /** Object `i` of slab `m`. */
  function Slot(c: Cache, m: nat, i: nat): nat
    requires m in c.slabs
  {
    Base(c, m) + i * c.size
  }

  predicate IsSlot(c: Cache, m: nat, p: nat) {
    m in c.slabs && exists i :: 0 <= i < c.count && p == Slot(c, m, i)
  }

  /** Following the links from `free` visits exactly the objects of `chain`. */
  predicate Linked(next: map<nat, nat>, free: nat, chain: seq<nat>)
    decreases |chain|
  {
    if chain == [] then free == 0
    else free == chain[0] && free != 0 && free in next && Linked(next, next[free], chain[1..])
  }

  ghost predicate SlabOk(c: Cache, busy: set<Block>, m: nat) {
    && m in c.slabs && m in c.chain
    && Block(c.slabs[m].page, c.order) in busy && m == Meta(c.order, Base(c, m))
    && |c.chain[m]| == c.slabs[m].size <= c.count
    && NoDuplicates(c.chain[m]) && (forall p :: p in c.chain[m] ==> IsSlot(c, m, p))
    && Linked(c.next, c.slabs[m].free, c.chain[m])
  }

  predicate Sizes(c: Cache) {
    c.size > 0 && (c.order <= MAX_ORDER ==> c.count > 0 && c.count * c.size + HEADER <= Bytes(c.order))
  }

  /** Every slab that is not being moved is on exactly the list its free count says. */
  ghost predicate Lists(c: Cache, pending: set<nat>) {
    && NoDuplicates(c.full) && NoDuplicates(c.partial) && NoDuplicates(c.empty)
    && (forall m :: m in c.full <==> m in c.slabs && m !in pending && c.slabs[m].size == 0)
    && (forall m :: m in c.partial <==> m in c.slabs && m !in pending && 0 < c.slabs[m].size < c.count)
    && (forall m :: m in c.empty <==> m in c.slabs && m !in pending && 0 < c.slabs[m].size == c.count)
  }

  ghost predicate CacheInv(c: Cache, busy: set<Block>, pending: set<nat>) {
    Sizes(c) && Lists(c, pending) && c.chain.Keys == c.slabs.Keys && forall m :: m in c.slabs ==> SlabOk(c, busy, m)
  }

  /** Object `p` of slab `m` is in use. */
  predicate LiveIn(c: Cache, m: nat, p: nat) {
    m in c.slabs && m in c.chain && IsSlot(c, m, p) && p !in c.chain[m]
  }

  ghost function Live(c: Cache): iset<nat> {
    iset p | IsLive(c, p)
  }

  ghost predicate IsLive(c: Cache, p: nat) {
    exists m :: LiveIn(c, m, p)
  }

  // ---- where objects lie ----

  lemma SlotEnd(c: Cache, m: nat, i: nat)
    requires m in c.slabs && Sizes(c) && c.order <= MAX_ORDER && i < c.count
    ensures Base(c, m) <= Slot(c, m, i) && Slot(c, m, i) + c.size + HEADER <= Base(c, m) + Bytes(c.order)
  {
    hide Bytes;
    MulNonNeg(i, c.size);
    MulNonNeg(c.count - 1 - i, c.size);
    assert (c.count - 1 - i) * c.size == c.count * c.size - c.size - i * c.size;
  }

  lemma SlotApart(c: Cache, m: nat, i: nat, j: nat)
    requires m in c.slabs && i < j
    ensures Slot(c, m, i) + c.size <= Slot(c, m, j)
  {
    MulNonNeg(j - i - 1, c.size);
    assert (j - i - 1) * c.size == j * c.size - i * c.size - c.size;
  }

  /** Any byte of a block lies in one of its pages. */
  lemma ByteInBlock(c: Cache, m: nat, a: nat)
    requires m in c.slabs && Base(c, m) <= a < Base(c, m) + Bytes(c.order)
    ensures InBlock((a - HIGHER_BASE) / PAGE, Block(c.slabs[m].page, c.order))
  {
    hide Pow2;
    var o := a - Base(c, m);
    DivUnique(a - HIGHER_BASE, PAGE, c.slabs[m].page + o / PAGE, o % PAGE);
  }

  /** Two slabs share no byte. */
  lemma SlabsApart(z: Zone, c: Cache, m: nat, n: nat, a: nat)
    requires Valid(z) && SlabOk(c, z.busy, m) && SlabOk(c, z.busy, n) && m != n
    requires Base(c, m) <= a < Base(c, m) + Bytes(c.order)
    ensures !(Base(c, n) <= a < Base(c, n) + Bytes(c.order))
  {
    hide Valid, Linked, IsSlot, NoDuplicates, Bytes, InBlock;
    if Base(c, n) <= a < Base(c, n) + Bytes(c.order) {
      ByteInBlock(c, m, a);
      ByteInBlock(c, n, a);
      BuddyClient.NoPageTwice(z, Block(c.slabs[m].page, c.order), Block(c.slabs[n].page, c.order),
                              (a - HIGHER_BASE) / PAGE);
    }
  }

  lemma SlabOrder(z: Zone, c: Cache, m: nat)
    requires Valid(z) && SlabOk(c, z.busy, m)
    ensures c.order <= MAX_ORDER && Aligned(c.slabs[m].page, c.order) && c.slabs[m].page + Pow2(c.order) <= z.end
    ensures c.slabs[m].page in z.owner
  {
    hide Linked, IsSlot, NoDuplicates, Bytes, Pow2;
    var b := Block(c.slabs[m].page, c.order);
    assert Whole(z, b);
    BlockEnd(z, b);
  }

  lemma BlockEnd(z: Zone, b: Block)
    requires Shape(z) && Whole(z, b)
    ensures b.head + Pow2(b.order) <= z.end
  {
    assert InBlock(b.head + Pow2(b.order) - 1, b);
  }

  ghost predicate Within(a: nat, p: nat, n: nat) {
    p <= a < p + n
  }

  /** A live object overlaps neither another live object nor any slab header. */
  lemma ObjectsApart(z: Zone, c: Cache, pending: set<nat>, p: nat, a: nat)
    requires Valid(z) && CacheInv(c, z.busy, pending) && p in Live(c) && Within(a, p, c.size)
    ensures forall q :: q in Live(c) && q != p ==> !Within(a, q, c.size)
    ensures forall m :: m in c.slabs ==> !Within(a, m, HEADER)
  {
    hide Valid, Linked, NoDuplicates, Bytes, Lists, Sizes, SlabOk;
    var m :| LiveIn(c, m, p);
    SlotBytes(z, c, pending, m, p, a);
    forall q | q in Live(c) && q != p ensures !Within(a, q, c.size) {
      var n :| LiveIn(c, n, q);
      if Within(a, q, c.size) {
        SlotBytes(z, c, pending, n, q, a);
        if m == n { SlotsApart(c, m, p, q, a); } else { SlabsApart(z, c, m, n, a); }
      }
    }
    forall n | n in c.slabs ensures !Within(a, n, HEADER) {
      if Within(a, n, HEADER) {
        HeaderBytes(c, z.busy, n, a);
        if n != m { SlabsApart(z, c, m, n, a); }
      }
    }
  }

  lemma SlotsApart(c: Cache, m: nat, p: nat, q: nat, a: nat)
    requires IsSlot(c, m, p) && IsSlot(c, m, q) && p != q && Within(a, p, c.size)
    ensures !Within(a, q, c.size)
  {
    hide Slot;
    var i :| 0 <= i < c.count && p == Slot(c, m, i);
    var j :| 0 <= j < c.count && q == Slot(c, m, j);
    if i < j { SlotApart(c, m, i, j); }
    if j < i { SlotApart(c, m, j, i); }
  }

  lemma SlotBytes(z: Zone, c: Cache, pending: set<nat>, m: nat, p: nat, a: nat)
    requires Valid(z) && CacheInv(c, z.busy, pending) && LiveIn(c, m, p) && Within(a, p, c.size)
    ensures SlabOk(c, z.busy, m) && Base(c, m) <= a && a + HEADER < Base(c, m) + Bytes(c.order)
    ensures m == Meta(c.order, Base(c, m))
  {
    hide Valid, Linked, NoDuplicates, Bytes, Lists, Slot;
    SlabOrder(z, c, m);
    var i :| 0 <= i < c.count && p == Slot(c, m, i);
    SlotEnd(c, m, i);
  }

  lemma HeaderBytes(c: Cache, busy: set<Block>, m: nat, a: nat)
    requires SlabOk(c, busy, m) && Within(a, m, HEADER)
    ensures Base(c, m) <= a < Base(c, m) + Bytes(c.order) && Base(c, m) + Bytes(c.order) <= a + HEADER
  {}

  // ---- finding the slab of an object ----

  /** `~(bytes - 1) & ptr` of a 64-bit pointer. */
  function Mask(order: nat, ptr: nat): nat
    requires Bytes(order) <= W
  {
    And(ptr, W - Bytes(order))
  }

  lemma WordIsPow2()
    ensures W == Pow2(64) && HIGHER_BASE == 0x1ffff * Pow2(47)
  {
    hide Pow2;
    SizeIsPow2(5);
    Pow2Even(48);
    Pow2Add(48, 16);
    Pow2Add(8, 8);
    Pow2Byte();
  }

  lemma Pow2Byte()
    ensures Pow2(8) == 0x100
  {}

  lemma BytesIsPow2(order: nat)
    ensures Bytes(order) == Pow2(order + 12)
  {
    Pow2Add(order, 12);
    assert Pow2(12) == PAGE;
  }

  lemma BytesInWord(order: nat)
    requires order <= MAX_ORDER
    ensures Bytes(order) <= W && HIGHER_BASE % Bytes(order) == 0
  {
    hide Bytes, Pow2;
    BytesIsPow2(order);
    WordIsPow2();
    Pow2Monotone(order + 12, 64);
    AlignedDown(Pow2(47), order + 12, 47) by { Multiple(Pow2(47), 1); }
    var q := Pow2(47) / Bytes(order);
    assert Pow2(47) == Bytes(order) * q;
    assert HIGHER_BASE == Bytes(order) * (0x1ffff * q)
    by { assert Bytes(order) * (0x1ffff * q) == 0x1ffff * (Bytes(order) * q); }
    Multiple(Bytes(order), 0x1ffff * q);
  }

  lemma BaseAligned(page: nat, order: nat)
    requires order <= MAX_ORDER && Aligned(page, order)
    ensures Virtual(page) % Bytes(order) == 0
  {
    hide Pow2;
    BytesInWord(order);
    PagesMultiple(page, Pow2(order));
    MultipleSum(Bytes(order), page * PAGE, HIGHER_BASE);
  }

  lemma PagesMultiple(page: nat, d: nat)
    requires d > 0 && page % d == 0
    ensures page * PAGE % (d * PAGE) == 0
  {
    var q := page / d;
    assert page == d * q;
    ScaleMultiple(d, q);
    Multiple(d * PAGE, q);
  }

  lemma ScaleMultiple(d: nat, q: nat)
    ensures (d * q) * PAGE == (d * PAGE) * q
  {}

  lemma MaskBase(page: nat, order: nat, a: nat)
    requires order <= MAX_ORDER && Aligned(page, order)
    requires Virtual(page) <= a < Virtual(page) + Bytes(order) && a < W
    ensures Bytes(order) <= W && Mask(order, a) == Virtual(page)
  {
    hide Bytes, Pow2, Aligned;
    BytesInWord(order);
    BaseAligned(page, order);
    BytesIsPow2(order);
    WordIsPow2();
    Pow2Monotone(order + 12, 64);
    AndHigh(a, order + 12, 64);
    var d := Bytes(order);
    DivUnique(a, d, Virtual(page) / d, a - Virtual(page));
  }

  /** Masking any address inside a live object leads to the header of its slab: buddy blocks
      are naturally aligned. */
  lemma MaskFinds(z: Zone, c: Cache, pending: set<nat>, m: nat, p: nat, a: nat)
    requires Valid(z) && CacheInv(c, z.busy, pending) && z.end * PAGE <= W - HIGHER_BASE
    requires LiveIn(c, m, p) && Within(a, p, c.size)
    ensures c.order <= MAX_ORDER && Bytes(c.order) <= W && Meta(c.order, Mask(c.order, a)) == m
  {
    hide Valid, Linked, NoDuplicates, Bytes, Lists, Sizes, IsSlot, Pow2, Mask;
    SlotBytes(z, c, pending, m, p, a);
    SlabOrder(z, c, m);
    EndInWord(c.slabs[m].page, c.order, z.end);
    MaskBase(c.slabs[m].page, c.order, a);
  }

  lemma EndInWord(page: nat, order: nat, end: nat)
    requires page + Pow2(order) <= end && end * PAGE <= W - HIGHER_BASE
    ensures Virtual(page) + Bytes(order) <= W
  {}

  // ---- links ----

  /** Writes elsewhere leave a chain alone. */
  lemma {:induction false} LinkedSame(a: map<nat, nat>, b: map<nat, nat>, free: nat, chain: seq<nat>)
    requires Linked(a, free, chain) && forall p :: p in chain && p in a ==> p in b && b[p] == a[p]
    ensures Linked(b, free, chain)
    decreases |chain|
  {
    if chain != [] {
      assert chain[0] in chain;
      LinkedSame(a, b, a[free], chain[1..]);
    }
  }

  /** Whatever clients write into live objects, the allocator's state stands. */
  lemma ClientWrites(c: Cache, busy: set<Block>, pending: set<nat>, next: map<nat, nat>)
    requires CacheInv(c, busy, pending)
    requires forall p, m :: m in c.slabs && p in c.chain[m] && p in c.next ==> p in next && next[p] == c.next[p]
    ensures CacheInv(c.(next := next), busy, pending) && Live(c.(next := next)) == Live(c)
  {
    hide NoDuplicates;
    var d := c.(next := next);
    forall m | m in d.slabs ensures SlabOk(d, busy, m) {
      assert SlabOk(c, busy, m);
      LinkedSame(c.next, next, c.slabs[m].free, c.chain[m]);
      forall p | p in d.chain[m] ensures IsSlot(d, m, p) {
        assert IsSlot(c, m, p);
        SlotSame(c, d, m, p);
      }
    }
    forall p ensures p in Live(d) <==> p in Live(c) {
      if m :| LiveIn(c, m, p) { SlotSame(c, d, m, p); assert LiveIn(d, m, p); }
      if m :| LiveIn(d, m, p) { SlotSame(c, d, m, p); assert LiveIn(c, m, p); }
    }
  }

  lemma SlotSame(c: Cache, d: Cache, m: nat, p: nat)
    requires d.count == c.count && d.size == c.size && m in c.slabs && m in d.slabs
    requires d.slabs[m].page == c.slabs[m].page
    ensures IsSlot(c, m, p) == IsSlot(d, m, p)
  {
    if IsSlot(c, m, p) {
      var i :| 0 <= i < c.count && p == Slot(c, m, i);
      assert p == Slot(d, m, i);
    }
    if IsSlot(d, m, p) {
      var i :| 0 <= i < d.count && p == Slot(d, m, i);
      assert p == Slot(c, m, i);
    }
  }

  /** Objects keep the alignment of their size, up to that of a page. */
  lemma ObjectAligned(c: Cache, m: nat, p: nat, align: nat)
    requires LiveIn(c, m, p) && align > 0 && c.size % align == 0 && PAGE % align == 0
    ensures p % align == 0
  {
    var i :| 0 <= i < c.count && p == Slot(c, m, i);
    var q, r := c.size / align, PAGE / align;
    assert c.size == align * q && PAGE == align * r;
    assert HIGHER_BASE == 0xf_fff8_0000_0000 * PAGE;
    var page := c.slabs[m].page + 0xf_fff8_0000_0000;
    assert p == align * (page * r + i * q) by {
      assert Base(c, m) == page * PAGE;
      Regroup(align, r, page);
      Regroup(align, q, i);
      assert align * (page * r + i * q) == align * (page * r) + align * (i * q);
    }
    Multiple(align, page * r + i * q);
  }

  lemma Regroup(a: nat, b: nat, n: nat)
    ensures n * (a * b) == a * (n * b)
  {}
}
