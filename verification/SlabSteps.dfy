/** What each step of slab.c does to a cache: detaching a slab from its list, taking and
    returning an object, attaching it again, creating and destroying slabs. */
module SlabSteps {
  import opened Bits
  import opened BuddyZone
  import BuddyClient
  import opened Slab

  // ---- counting ----

  function SlotSet(c: Cache, m: nat, n: nat): (s: set<nat>)
    requires m in c.slabs
  {
    if n == 0 then {} else SlotSet(c, m, n - 1) + {Slot(c, m, n - 1)}
  }

  lemma {:induction false} SlotSetIs(c: Cache, m: nat, n: nat)
    requires m in c.slabs
    ensures |SlotSet(c, m, n)| <= n
    ensures forall p :: p in SlotSet(c, m, n) <==> exists i :: 0 <= i < n && p == Slot(c, m, i)
  {
    hide Slot;
    if n > 0 { SlotSetIs(c, m, n - 1); }
  }

  function Elements(s: seq<nat>): set<nat> {
    set x | x in s
  }

  lemma {:induction false} DistinctCount(s: seq<nat>)
    requires NoDuplicates(s)
    ensures |Elements(s)| == |s|
  {
    if s != [] {
      DistinctCount(s[1..]);
      assert Elements(s) == Elements(s[1..]) + {s[0]};
      assert s[0] !in s[1..];
    }
  }

  /** Distinct objects of one slab are at most `count`, and `count` of them are all. */
  lemma SlotsCounted(c: Cache, m: nat, s: seq<nat>)
    requires m in c.slabs && NoDuplicates(s) && forall p :: p in s ==> IsSlot(c, m, p)
    ensures |s| <= c.count
    ensures |s| == c.count ==> forall p :: IsSlot(c, m, p) ==> p in s
  {
    hide Slot, NoDuplicates;
    var all := SlotSet(c, m, c.count);
    SlotSetIs(c, m, c.count);
    DistinctCount(s);
    assert Elements(s) <= all;
    BuddyClient.SubsetSize(Elements(s), all);
    if |s| == c.count {
      SameSize(Elements(s), all);
      forall p | IsSlot(c, m, p) ensures p in s { assert p in all; }
    }
  }

  lemma SameSize(a: set<nat>, b: set<nat>)
    requires a <= b && |a| >= |b|
    ensures a == b
  {
    if x :| x in b && x !in a { BuddyClient.SubsetSize(a, b - {x}); }
  }

  // ---- lists ----

  lemma {:induction false} RemoveAbsent(s: seq<nat>, x: nat)
    requires x !in s
    ensures Remove(s, x) == s
  {
    if s != [] { RemoveAbsent(s[1..], x); }
  }

  /** list_del: the slab leaves whichever list it is on. */
  function Detach(c: Cache, m: nat): Cache {
    c.(full := Remove(c.full, m), partial := Remove(c.partial, m), empty := Remove(c.empty, m))
  }

  /** The two caches have the same slabs and objects. */
  predicate SameObjects(c: Cache, d: Cache) {
    d == c.(full := d.full, partial := d.partial, empty := d.empty)
  }

  lemma ListsOnly(c: Cache, d: Cache, busy: set<Block>, pending: set<nat>, more: set<nat>)
    requires CacheInv(c, busy, pending) && SameObjects(c, d) && Lists(d, more)
    ensures CacheInv(d, busy, more) && Live(d) == Live(c)
  {
    hide NoDuplicates, Linked, Lists, Slot;
    forall m | m in d.slabs ensures SlabOk(d, busy, m) {
      assert SlabOk(c, busy, m);
      forall p | p in d.chain[m] ensures IsSlot(d, m, p) { assert IsSlot(c, m, p); SlotSame(c, d, m, p); }
    }
    forall p, m ensures LiveIn(d, m, p) == LiveIn(c, m, p) {
      if m in c.slabs { SlotSame(c, d, m, p); }
    }
    forall p ensures p in Live(d) <==> p in Live(c) {
      if m :| LiveIn(c, m, p) { assert LiveIn(d, m, p); }
      if m :| LiveIn(d, m, p) { assert LiveIn(c, m, p); }
    }
  }

  lemma DetachKeeps(c: Cache, busy: set<Block>, pending: set<nat>, m: nat)
    requires CacheInv(c, busy, pending)
    ensures CacheInv(Detach(c, m), busy, pending + {m}) && Live(Detach(c, m)) == Live(c)
  {
    hide NoDuplicates, SlabOk, Sizes;
    RemoveFacts(c.full, m);
    RemoveFacts(c.partial, m);
    RemoveFacts(c.empty, m);
    ListsOnly(c, Detach(c, m), busy, pending, pending + {m});
  }

  /** Taking the head of a list detaches it. */
  lemma DetachHead(c: Cache, busy: set<Block>)
    requires CacheInv(c, busy, {})
    ensures c.partial != [] ==> c.partial[0] in c.slabs && Detach(c, c.partial[0]) == c.(partial := c.partial[1..])
    ensures c.empty != [] ==> c.empty[0] in c.slabs && Detach(c, c.empty[0]) == c.(empty := c.empty[1..])
  {
    hide NoDuplicates, SlabOk, Sizes;
    if c.partial != [] {
      var m := c.partial[0];
      assert m in c.partial;
      RemoveAbsent(c.full, m);
      RemoveAbsent(c.empty, m);
    }
    if c.empty != [] {
      var m := c.empty[0];
      assert m in c.empty;
      RemoveAbsent(c.full, m);
      RemoveAbsent(c.partial, m);
    }
  }

  /** list_add to the list that the free count names. */
  function Attach(c: Cache, m: nat): Cache
    requires m in c.slabs
  {
    if c.slabs[m].size == 0 then c.(full := [m] + c.full)
    else if c.slabs[m].size == c.count then c.(empty := [m] + c.empty)
    else c.(partial := [m] + c.partial)
  }

  lemma AddFront(s: seq<nat>, x: nat)
    requires NoDuplicates(s) && x !in s
    ensures NoDuplicates([x] + s) && forall y :: y in [x] + s <==> y == x || y in s
  {}

  lemma AttachKeeps(c: Cache, busy: set<Block>, m: nat)
    requires CacheInv(c, busy, {m}) && m in c.slabs
    ensures CacheInv(Attach(c, m), busy, {}) && Live(Attach(c, m)) == Live(c)
  {
    hide NoDuplicates, Sizes, Linked, IsSlot;
    assert SlabOk(c, busy, m);
    if c.slabs[m].size == 0 { AddFront(c.full, m); } else if c.slabs[m].size == c.count { AddFront(c.empty, m); }
    else { AddFront(c.partial, m); }
    AttachLists(c, m);
    ListsOnly(c, Attach(c, m), busy, {m}, {});
  }

  lemma AttachLists(c: Cache, m: nat)
    requires Lists(c, {m}) && m in c.slabs && c.slabs[m].size <= c.count
    requires c.slabs[m].size == 0 ==> NoDuplicates([m] + c.full)
    requires 0 < c.slabs[m].size < c.count ==> NoDuplicates([m] + c.partial)
    requires 0 < c.slabs[m].size == c.count ==> NoDuplicates([m] + c.empty)
    ensures Lists(Attach(c, m), {})
  {
    hide NoDuplicates;
    var d := Attach(c, m);
    assert forall x :: x in [m] + c.full <==> x == m || x in c.full;
    assert forall x :: x in [m] + c.partial <==> x == m || x in c.partial;
    assert forall x :: x in [m] + c.empty <==> x == m || x in c.empty;
  }

  // ---- objects ----

  /** slab_alloc: the head of the free list. */
  function Pop(c: Cache, m: nat): Cache
    requires m in c.slabs && m in c.chain && c.chain[m] != [] && c.slabs[m].free in c.next && c.slabs[m].size > 0
  {
    var h := c.slabs[m];
    c.(slabs := c.slabs[m := Header(h.page, c.next[h.free], h.size - 1)], chain := c.chain[m := c.chain[m][1..]])
  }

  /** slab_free. */
  function Push(c: Cache, m: nat, p: nat): Cache
    requires m in c.slabs && m in c.chain
  {
    var h := c.slabs[m];
    c.(next := c.next[p := h.free], slabs := c.slabs[m := Header(h.page, p, h.size + 1)],
    chain := c.chain[m := [p] + c.chain[m]])
  }

  lemma PopReady(c: Cache, busy: set<Block>, m: nat)
    requires SlabOk(c, busy, m) && c.slabs[m].size > 0
    ensures c.chain[m] != [] && c.slabs[m].free == c.chain[m][0] && c.slabs[m].free in c.next
    ensures IsSlot(c, m, c.slabs[m].free) && Linked(c.next, c.next[c.slabs[m].free], c.chain[m][1..])
  {}

  /** A slab whose chain changed, next to slabs that did not. */
  lemma OthersOk(c: Cache, d: Cache, busy: set<Block>, m: nat, n: nat)
    requires SlabOk(c, busy, n) && n != m && n in d.slabs && n in d.chain && d.slabs[n] == c.slabs[n]
    requires d.chain[n] == c.chain[n]
    requires d.order == c.order && d.count == c.count && d.size == c.size
    requires forall p :: p in c.chain[n] && p in c.next ==> p in d.next && d.next[p] == c.next[p]
    ensures SlabOk(d, busy, n)
  {
    hide NoDuplicates, Slot;
    LinkedSame(c.next, d.next, c.slabs[n].free, c.chain[n]);
    forall p | p in d.chain[n] ensures IsSlot(d, n, p) { assert IsSlot(c, n, p); SlotSame(c, d, n, p); }
  }

  lemma PopSlab(c: Cache, busy: set<Block>, m: nat)
    requires SlabOk(c, busy, m) && c.slabs[m].size > 0
    ensures c.chain[m] != [] && c.slabs[m].free in c.next && SlabOk(Pop(c, m), busy, m)
  {
    hide Slot;
    PopReady(c, busy, m);
    var d := Pop(c, m);
    forall p | p in d.chain[m]
      ensures IsSlot(d, m, p) { assert p in c.chain[m]; assert IsSlot(c, m, p); SlotSame(c, d, m, p); }
  }

  lemma PopKeeps(c: Cache, busy: set<Block>, m: nat)
    requires CacheInv(c, busy, {m}) && m in c.slabs && c.slabs[m].size > 0
    ensures c.chain[m] != [] && c.slabs[m].free in c.next
    ensures CacheInv(Pop(c, m), busy, {m})
  {
    hide NoDuplicates, Slot, Linked, IsSlot;
    PopReady(c, busy, m);
    PopSlab(c, busy, m);
    var d := Pop(c, m);
    forall n | n in d.slabs ensures SlabOk(d, busy, n) {
      if n != m { OthersOk(c, d, busy, m, n); }
    }
    PendingLists(c, d, m);
  }

  lemma PendingLists(c: Cache, d: Cache, m: nat)
    requires Lists(c, {m}) && d.full == c.full && d.partial == c.partial && d.empty == c.empty && d.count == c.count
    requires d.slabs.Keys == c.slabs.Keys && forall n :: n in c.slabs && n != m ==> d.slabs[n] == c.slabs[n]
    ensures Lists(d, {m})
  {
    hide NoDuplicates;
  }

  /** An object belongs to one slab only. */
  lemma OneSlab(z: Zone, c: Cache, m: nat, n: nat, p: nat)
    requires Valid(z) && Sizes(c) && SlabOk(c, z.busy, m) && SlabOk(c, z.busy, n) && IsSlot(c, m, p) && IsSlot(c, n, p)
    ensures m == n
  {
    hide Valid, NoDuplicates, Linked, Bytes, Slot, SlabOk;
    SlabOrder(z, c, m);
    var i :| 0 <= i < c.count && p == Slot(c, m, i);
    var j :| 0 <= j < c.count && p == Slot(c, n, j);
    SlotEnd(c, m, i);
    SlotEnd(c, n, j);
    if m != n { SlabsApart(z, c, m, n, p); }
  }

  lemma PopLive(z: Zone, c: Cache, m: nat)
    requires Valid(z) && CacheInv(c, z.busy, {m}) && m in c.slabs && c.slabs[m].size > 0
    requires c.chain[m] != [] && c.slabs[m].free in c.next
    ensures c.slabs[m].free !in Live(c) && Live(Pop(c, m)) == Live(c) + iset{c.slabs[m].free}
    ensures LiveIn(Pop(c, m), m, c.slabs[m].free)
  {
    hide Valid, NoDuplicates, Linked, Slot, Lists, IsSlot;
    PopReady(c, z.busy, m);
    var d, p0 := Pop(c, m), c.slabs[m].free;
    if n :| LiveIn(c, n, p0) { OneSlab(z, c, m, n, p0); }
    HeadOnce(c.chain[m]);
    forall n, p ensures LiveIn(d, n, p) <==> LiveIn(c, n, p) || (n == m && p == p0) {
      if n in c.slabs { SlotSame(c, d, n, p); }
      ChainParts(c.chain[m], p);
    }
    forall p ensures p in Live(d) <==> p in Live(c) || p == p0 {
      if n :| LiveIn(c, n, p) { assert LiveIn(d, n, p); }
      if n :| LiveIn(d, n, p) { assert LiveIn(c, n, p) || p == p0; }
      assert LiveIn(d, m, p0);
    }
  }

  lemma HeadOnce(s: seq<nat>)
    requires NoDuplicates(s) && s != []
    ensures s[0] !in s[1..]
  {}

  lemma ChainParts(s: seq<nat>, p: nat)
    requires s != []
    ensures p in s <==> p == s[0] || p in s[1..]
  {}

  lemma PushSlab(c: Cache, busy: set<Block>, m: nat, p: nat)
    requires SlabOk(c, busy, m) && LiveIn(c, m, p) && p > 0
    ensures SlabOk(Push(c, m, p), busy, m)
  {
    hide Slot;
    var d := Push(c, m, p);
    LinkedSame(c.next, d.next, c.slabs[m].free, c.chain[m]);
    AddFront(c.chain[m], p);
    assert d.chain[m][1..] == c.chain[m];
    forall q | q in d.chain[m] ensures IsSlot(d, m, q) { assert IsSlot(c, m, q); SlotSame(c, d, m, q); }
    SlotsCounted(d, m, d.chain[m]);
  }

  lemma LivePositive(c: Cache, m: nat, p: nat)
    requires LiveIn(c, m, p)
    ensures p > 0
  {
    var i :| 0 <= i < c.count && p == Slot(c, m, i);
    MulNonNeg(i, c.size);
  }

  lemma PushKeeps(z: Zone, c: Cache, m: nat, p: nat)
    requires Valid(z) && CacheInv(c, z.busy, {m}) && LiveIn(c, m, p)
    ensures CacheInv(Push(c, m, p), z.busy, {m})
  {
    hide NoDuplicates, Slot, Linked, IsSlot, Valid;
    LivePositive(c, m, p);
    PushSlab(c, z.busy, m, p);
    var d := Push(c, m, p);
    forall n | n in d.slabs ensures SlabOk(d, z.busy, n) {
      if n != m {
        if p in c.chain[n] { OneSlab(z, c, m, n, p); }
        OthersOk(c, d, z.busy, m, n);
      }
    }
    PendingLists(c, d, m);
  }

  lemma PushLive(z: Zone, c: Cache, m: nat, p0: nat)
    requires Valid(z) && CacheInv(c, z.busy, {m}) && LiveIn(c, m, p0)
    ensures Live(Push(c, m, p0)) == Live(c) - iset{p0}
  {
    hide Valid, NoDuplicates, Linked, Slot, Lists, IsSlot;
    var d := Push(c, m, p0);
    forall n, p ensures LiveIn(d, n, p) <==> LiveIn(c, n, p) && p != p0 {
      if n in c.slabs { SlotSame(c, d, n, p); }
      if LiveIn(c, n, p0) { OneSlab(z, c, m, n, p0); }
    }
    forall p ensures p in Live(d) <==> p in Live(c) && p != p0 {
      if n :| LiveIn(c, n, p) { if p != p0 { assert LiveIn(d, n, p); } }
      if n :| LiveIn(d, n, p) { assert LiveIn(c, n, p); }
    }
  }

  // ---- creating and destroying slabs ----

  function Head(base: nat, size: nat, n: nat): nat {
    if n == 0 then 0 else base + (n - 1) * size
  }

  /** The links after the first `n` objects of a new slab have been threaded. */
  function Thread(next: map<nat, nat>, base: nat, size: nat, n: nat): map<nat, nat> {
    if n == 0 then next else Thread(next, base, size, n - 1)[base + (n - 1) * size := Head(base, size, n - 1)]
  }

  function ChainTo(base: nat, size: nat, n: nat): seq<nat> {
    if n == 0 then [] else [base + (n - 1) * size] + ChainTo(base, size, n - 1)
  }

  lemma {:induction false} ChainFacts(base: nat, size: nat, n: nat)
    ensures |ChainTo(base, size, n)| == n
    ensures forall p :: p in ChainTo(base, size, n) <==> exists i :: 0 <= i < n && p == base + i * size
    ensures size > 0 ==> NoDuplicates(ChainTo(base, size, n))
  {
    if n > 0 {
      ChainFacts(base, size, n - 1);
      var p := base + (n - 1) * size;
      if size > 0 {
        forall i | 0 <= i < n - 1 ensures base + i * size < p {
          MulNonNeg(n - 2 - i, size);
          assert (n - 2 - i) * size == (n - 1) * size - size - i * size;
        }
        AddFront(ChainTo(base, size, n - 1), p);
      }
    }
  }

  lemma {:induction false} ThreadElsewhere(next: map<nat, nat>, base: nat, size: nat, n: nat, p: nat)
    requires p !in ChainTo(base, size, n)
    ensures p in next <==> p in Thread(next, base, size, n)
    ensures p in next ==> Thread(next, base, size, n)[p] == next[p]
  {
    if n > 0 { ThreadElsewhere(next, base, size, n - 1, p); }
  }

  lemma {:induction false} ThreadLinked(next: map<nat, nat>, base: nat, size: nat, n: nat)
    requires base > 0 && size > 0
    ensures Linked(Thread(next, base, size, n), Head(base, size, n), ChainTo(base, size, n))
  {
    if n > 0 {
      ThreadLinked(next, base, size, n - 1);
      MulNonNeg(n - 1, size);
      ChainFacts(base, size, n);
      var t, p := Thread(next, base, size, n - 1), base + (n - 1) * size;
      var chain := ChainTo(base, size, n - 1);
      assert ChainTo(base, size, n)[1..] == chain;
      NotLater(ChainTo(base, size, n));
      LinkedSame(t, t[p := Head(base, size, n - 1)], Head(base, size, n - 1), chain);
    }
  }

  lemma NotLater(s: seq<nat>)
    requires s != [] && NoDuplicates(s)
    ensures s[0] !in s[1..]
  {}

  /** slab_create: the header and the threaded objects of a new block. */
  function Create(c: Cache, page: nat): Cache {
    var base := Virtual(page);
    c.(next := Thread(c.next, base, c.size, c.count),
    slabs := c.slabs[Meta(c.order, base) := Header(page, Head(base, c.size, c.count), c.count)],
    chain := c.chain[Meta(c.order, base) := ChainTo(base, c.size, c.count)])
  }

  lemma CreateNew(c: Cache, busy: set<Block>, pending: set<nat>, page: nat)
    requires CacheInv(c, busy, pending) && Block(page, c.order) !in busy
    ensures Meta(c.order, Virtual(page)) !in c.slabs
  {
    hide CacheInv, Bytes;
    var m := Meta(c.order, Virtual(page));
    if m in c.slabs { SlabBlock(c, busy, pending, m); }
  }

  lemma SlabBlock(c: Cache, busy: set<Block>, pending: set<nat>, m: nat)
    requires CacheInv(c, busy, pending) && m in c.slabs
    ensures Block(c.slabs[m].page, c.order) in busy && m == Meta(c.order, Virtual(c.slabs[m].page))
  {
    hide NoDuplicates, Linked, IsSlot, Lists, Bytes;
    assert SlabOk(c, busy, m);
  }

  /** The new slab with nothing threaded yet: enough to tell its bytes from all others. */
  function Blank(c: Cache, page: nat): Cache {
    var m := Meta(c.order, Virtual(page));
    c.(slabs := c.slabs[m := Header(page, 0, 0)], chain := c.chain[m := []])
  }

  lemma NewElsewhere(z: Zone, c: Cache, busy: set<Block>, pending: set<nat>, page: nat, n: nat, p: nat)
    requires Valid(z) && CacheInv(c, busy, pending) && Block(page, c.order) !in busy && busy <= z.busy
    requires Block(page, c.order) in z.busy
    requires n in c.slabs && p in c.chain[n]
    ensures p !in ChainTo(Virtual(page), c.size, c.count)
  {
    hide Valid, NoDuplicates, Linked, Bytes, Lists, Slot;
    CreateNew(c, busy, pending, page);
    var m, d := Meta(c.order, Virtual(page)), Blank(c, page);
    assert SlabOk(c, busy, n);
    BlankOk(z, c, page);
    OthersOk(c, d, z.busy, m, n) by { SlabMore(c, busy, z.busy, n); }
    assert IsSlot(c, n, p);
    SlotSame(c, d, n, p);
    ChainFacts(Virtual(page), c.size, c.count);
    if p in ChainTo(Virtual(page), c.size, c.count) {
      var i :| 0 <= i < c.count && p == Virtual(page) + i * c.size;
      assert p == Slot(d, m, i) by { BaseIs(d, m, i); }
      assert IsSlot(d, m, p);
      OneSlab(z, d, m, n, p);
    }
  }

  lemma BaseIs(c: Cache, m: nat, i: nat)
    requires m in c.slabs
    ensures Slot(c, m, i) == Virtual(c.slabs[m].page) + i * c.size && Base(c, m) == Virtual(c.slabs[m].page)
  {}

  lemma BlankOk(z: Zone, c: Cache, page: nat)
    requires Block(page, c.order) in z.busy
    ensures SlabOk(Blank(c, page), z.busy, Meta(c.order, Virtual(page)))
  {
    hide Bytes;
  }

  lemma SlabMore(c: Cache, busy: set<Block>, more: set<Block>, n: nat)
    requires SlabOk(c, busy, n) && busy <= more
    ensures SlabOk(c, more, n)
  {
    hide NoDuplicates, Linked, IsSlot;
  }

  lemma CreateSlab(z: Zone, c: Cache, page: nat)
    requires Sizes(c) && Block(page, c.order) in z.busy
    ensures SlabOk(Create(c, page), z.busy, Meta(c.order, Virtual(page)))
  {
    hide Bytes, NoDuplicates;
    var m, d := Meta(c.order, Virtual(page)), Create(c, page);
    ThreadLinked(c.next, Virtual(page), c.size, c.count);
    ChainFacts(Virtual(page), c.size, c.count);
    forall p | p in d.chain[m] ensures IsSlot(d, m, p) {
      var i :| 0 <= i < c.count && p == Virtual(page) + i * c.size;
      BaseIs(d, m, i);
      assert p == Slot(d, m, i);
    }
  }

  lemma CreateKeeps(z: Zone, c: Cache, busy: set<Block>, page: nat)
    requires Valid(z) && CacheInv(c, busy, {}) && Block(page, c.order) !in busy
    requires z.busy == busy + {Block(page, c.order)}
    ensures var m := Meta(c.order, Virtual(page));
            m !in c.slabs && CacheInv(Create(c, page), z.busy, {m}) && Live(Create(c, page)) == Live(c)
  {
    hide Valid, NoDuplicates, Linked, Bytes, Slot, IsSlot, Lists;
    var m, d := Meta(c.order, Virtual(page)), Create(c, page);
    CreateNew(c, busy, {}, page);
    CreateSlab(z, c, page);
    forall n | n in d.slabs ensures SlabOk(d, z.busy, n) {
      if n != m {
        SlabMore(c, busy, z.busy, n);
        forall p | p in c.chain[n] ensures p in c.next ==> p in d.next && d.next[p] == c.next[p] {
          NewElsewhere(z, c, busy, {}, page, n, p);
          ThreadElsewhere(c.next, Virtual(page), c.size, c.count, p);
        }
        OthersOk(c, d, z.busy, m, n);
      }
    }
    CreateLists(c, d, m);
    CreateLive(c, d, m, page);
  }

  lemma CreateLists(c: Cache, d: Cache, m: nat)
    requires Lists(c, {}) && d.full == c.full && d.partial == c.partial && d.empty == c.empty && d.count == c.count
    requires m !in c.slabs && d.slabs.Keys == c.slabs.Keys + {m}
    requires forall n :: n in c.slabs ==> d.slabs[n] == c.slabs[n]
    ensures Lists(d, {m})
  {
    hide NoDuplicates;
  }

  lemma CreateLive(c: Cache, d: Cache, m: nat, page: nat)
    requires m !in c.slabs && c.chain.Keys == c.slabs.Keys && d == Create(c, page) && m == Meta(c.order, Virtual(page))
    ensures Live(d) == Live(c)
  {
    hide NoDuplicates, Linked, Bytes, Slot, IsSlot;
    forall n, p ensures LiveIn(d, n, p) <==> LiveIn(c, n, p) {
      if n in c.slabs { SlotSame(c, d, n, p); }
      if n == m { AllFree(c, d, m, page, p); }
    }
    forall p ensures p in Live(d) <==> p in Live(c) {
      if n :| LiveIn(c, n, p) { assert LiveIn(d, n, p); }
      if n :| LiveIn(d, n, p) { assert LiveIn(c, n, p); }
    }
  }

  lemma AllFree(c: Cache, d: Cache, m: nat, page: nat, p: nat)
    requires d == Create(c, page) && m == Meta(c.order, Virtual(page))
    ensures !LiveIn(d, m, p)
  {
    hide Bytes, NoDuplicates, Slot;
    if IsSlot(d, m, p) {
      var i :| 0 <= i < d.count && p == Slot(d, m, i);
      BaseIs(d, m, i);
      ChainFacts(Virtual(page), c.size, c.count);
      assert exists j :: 0 <= j < c.count && p == Virtual(page) + j * c.size;
    }
  }

  /** slab_destroy: the block goes back to the zone and the slab is gone. */
  function Destroy(c: Cache, m: nat): Cache {
    c.(slabs := c.slabs - {m}, chain := c.chain - {m})
  }

  lemma OtherBlock(c: Cache, busy: set<Block>, m: nat, n: nat)
    requires SlabOk(c, busy, m) && SlabOk(c, busy, n) && m != n
    ensures Block(c.slabs[m].page, c.order) != Block(c.slabs[n].page, c.order)
  {
    hide Linked, NoDuplicates, IsSlot;
  }

  lemma DestroyKeeps(c: Cache, busy: set<Block>, pending: set<nat>, m: nat)
    requires CacheInv(c, busy, pending) && m in pending && m in c.slabs && c.slabs[m].size == c.count
    ensures Block(c.slabs[m].page, c.order) in busy
    ensures CacheInv(Destroy(c, m), busy - {Block(c.slabs[m].page, c.order)}, pending - {m})
    ensures Live(Destroy(c, m)) == Live(c)
  {
    hide NoDuplicates, Linked, Bytes, Slot, IsSlot, Lists;
    var d, b := Destroy(c, m), Block(c.slabs[m].page, c.order);
    assert SlabOk(c, busy, m);
    forall n | n in d.slabs ensures SlabOk(d, busy - {b}, n) {
      assert SlabOk(c, busy, n);
      OtherBlock(c, busy, m, n);
      SlabLess(c, busy, busy - {b}, n);
      OthersOk(c, d, busy - {b}, m, n);
    }
    DestroyLists(c, d, pending, m);
    SlotsCounted(c, m, c.chain[m]);
    forall n, p ensures LiveIn(d, n, p) <==> LiveIn(c, n, p) {
      if n in d.slabs { SlotSame(c, d, n, p); }
    }
    forall p ensures p in Live(d) <==> p in Live(c) {
      if n :| LiveIn(c, n, p) { assert LiveIn(d, n, p); }
      if n :| LiveIn(d, n, p) { assert LiveIn(c, n, p); }
    }
  }

  lemma SlabLess(c: Cache, busy: set<Block>, less: set<Block>, n: nat)
    requires SlabOk(c, busy, n) && Block(c.slabs[n].page, c.order) in less
    ensures SlabOk(c, less, n)
  {
    hide NoDuplicates, Linked, IsSlot;
  }

  lemma DestroyLists(c: Cache, d: Cache, pending: set<nat>, m: nat)
    requires Lists(c, pending) && m in pending && d == Destroy(c, m)
    ensures Lists(d, pending - {m})
  {
    hide NoDuplicates;
  }
}
