/** The object cache of slab.c over a buddy zone. */
module SlabCache {
  import opened Bits
  import opened BuddyZone
  import BuddyAllocator
  import BuddyClient
  import opened Paging
  import opened Slab
  import opened SlabSteps

  /** Objects of `size` bytes that fit a slab of the given order beside its header. */
  function Fits(order: nat, size: nat): nat
    requires size > 0
  {
    (Bytes(order) - HEADER) / size
  }

  class ObjectCache {
    const zone: BuddyAllocator.ZoneAllocator
    const slabOrder: nat
    const slabSize: nat
    const objSize: nat
    var slabs: map<nat, Header>
    var next: map<nat, nat>
    var full: seq<nat>
    var partial: seq<nat>
    var empty: seq<nat>
    ghost var chain: map<nat, seq<nat>>

    ghost function View(): Cache
      reads this
    {
      Cache(slabOrder, slabSize, objSize, slabs, next, full, partial, empty, chain)
    }

    /** Between calls: no slab is off its list, and the zone's pages are within reach of the
        kernel's linear mapping. */
    ghost predicate Ok()
      reads this, zone, zone.page
    {
      zone.Ok() && zone.end * PAGE <= W - HIGHER_BASE && CacheInv(View(), zone.busy, {})
    }

    /** The objects handed out and not yet returned. */
    ghost function Objects(): iset<nat>
      reads this
    {
      Live(View())
    }

    /** __slab_cache_setup (larger sizes hang it): the smallest order whose slabs hold
        MAX_ORDER objects, or one order too many when none does. */
    constructor (zone: BuddyAllocator.ZoneAllocator, size0: nat, align: nat)
      requires zone.Ok() && zone.end * PAGE <= W - HIGHER_BASE && align > 0 && size0 <= Bytes(MAX_ORDER)
      ensures Ok() && Objects() == iset{} && this.zone == zone && slabs == map[]
      ensures objSize == AlignUp(if size0 < 8 then 8 else size0, align)
      ensures objSize > 0 && slabOrder <= MAX_ORDER + 1
      ensures slabOrder <= MAX_ORDER ==> slabSize == Fits(slabOrder, objSize) >= MAX_ORDER
      ensures forall k :: 0 <= k < slabOrder ==> Fits(k, objSize) < MAX_ORDER
    {
      hide Bytes, Valid, Linked, IsSlot, Pow2, CacheInv, Live, AlignUp, Fits;
      var size := if size0 < 8 then 8 else size0;
      AlignUpFacts(size, align);
      var obj := AlignUp(size, align);
      var k, count := ChooseOrder(obj);
      this.zone := zone;
      slabOrder := k;
      slabSize := count;
      objSize := obj;
      slabs := map[];
      next := map[];
      full, partial, empty := [], [], [];
      chain := map[];
      new;
      EmptyCache(View(), zone.busy);
    }

    /** The sizing loop of __slab_cache_setup. */
    static method ChooseOrder(obj: nat) returns (k: nat, count: nat)
      requires obj > 0
      ensures k <= MAX_ORDER + 1 && forall j :: 0 <= j < k ==> Fits(j, obj) < MAX_ORDER
      ensures k <= MAX_ORDER ==> count == Fits(k, obj) >= MAX_ORDER && count * obj + HEADER <= Bytes(k)
    {
      hide Bytes;
      k := 0;
      var bytes := 0;
      while k <= MAX_ORDER
        invariant k <= MAX_ORDER + 1 && bytes >= 0 && forall j :: 0 <= j < k ==> Fits(j, obj) < MAX_ORDER
      {
        bytes := Bytes(k) - HEADER;
        if bytes / obj >= MAX_ORDER { break; }
        k := k + 1;
      }
      FitsBelow(bytes, obj);
      count := bytes / obj;
    }

    /** slab_create, the new slab not yet on a list; none when the zone has no such block. */
    method SlabCreate() returns (m: nat)
      requires Ok()
      modifies this, zone, zone.page
      ensures zone.Ok() && zone.owner.Keys == old(zone.owner.Keys) && Objects() == old(Objects())
      ensures m == 0 ==> Ok() && View() == old(View()) && zone.busy == old(zone.busy)
      ensures m == 0 <==> !(slabOrder <= MAX_ORDER
                            && exists h :: BuddyAllocator.FreeRun(old(zone.Free()), h, slabOrder))
      ensures m != 0 ==>
                && m !in old(slabs) && slabs.Keys == old(slabs).Keys + {m} && slabs[m].size == slabSize
                && CacheInv(View(), zone.busy, {m}) && slabOrder <= MAX_ORDER && empty == old(empty)
    {
      hide CacheInv, Valid, FreePages, Bytes, Live, Pow2;
      ghost var c, busy := View(), zone.busy;
      var r := zone.Alloc(slabOrder);
      if r.None? { return 0; }
      var base := Virtual(r.value);
      m := Meta(slabOrder, base);
      var i := 0;
      var ptr, head := base, 0;
      while i != slabSize
        invariant i <= slabSize && ptr == base + i * objSize && head == Head(base, objSize, i)
        invariant next == Thread(old(next), base, objSize, i)
        invariant View() == c.(next := next) && zone.Ok() && zone.owner.Keys == old(zone.owner.Keys)
        invariant Block(r.value, slabOrder) !in busy && zone.busy == busy + {Block(r.value, slabOrder)}
      {
        assert (i + 1) * objSize == i * objSize + objSize;
        next := next[ptr := head];
        head := ptr;
        ptr := ptr + objSize;
        i := i + 1;
      }
      slabs := slabs[m := Header(r.value, head, slabSize)];
      chain := chain[m := ChainTo(base, objSize, slabSize)];
      CreateKeeps(zone.View(), c, busy, r.value);
      assert View() == Create(c, r.value);
    }

    /** __slab_cache_alloc. */
    method Alloc() returns (ptr: nat)
      requires Ok()
      modifies this, zone, zone.page
      ensures Ok() && zone.owner.Keys == old(zone.owner.Keys)
      ensures ptr == 0 ==> Objects() == old(Objects()) && View() == old(View()) && zone.busy == old(zone.busy)
      ensures ptr == 0 <==> old(partial) == [] && old(empty) == []
                            && !(slabOrder <= MAX_ORDER
                                 && exists h :: BuddyAllocator.FreeRun(old(zone.Free()), h, slabOrder))
      ensures ptr != 0 ==> ptr !in old(Objects()) && Objects() == old(Objects()) + iset{ptr}
      ensures old(partial) != [] || old(empty) != [] ==> slabs.Keys == old(slabs).Keys && zone.busy == old(zone.busy)
      ensures ptr != 0 && old(partial) == [] && old(empty) == [] ==> |slabs.Keys| == |old(slabs).Keys| + 1
      ensures empty == if old(partial) == [] && old(empty) != [] then old(empty)[1..] else old(empty)
    {
      hide CacheInv, Valid, FreePages, Live, Pow2, Bytes;
      var found, m := Pick();
      ptr := 0;
      if found { ptr := Take(m); }
    }

    /** The choice of the slab, off its list: a partly used one before an unused one before a new one. */
    method Pick() returns (found: bool, m: nat)
      requires Ok()
      modifies this, zone, zone.page
      ensures zone.Ok() && zone.owner.Keys == old(zone.owner.Keys) && Objects() == old(Objects())
      ensures !found ==> Ok() && View() == old(View()) && zone.busy == old(zone.busy)
      ensures !found <==>
              old(partial) == [] && old(empty) == []
              && !(slabOrder <= MAX_ORDER
                   && exists h :: BuddyAllocator.FreeRun(old(zone.Free()), h, slabOrder))
      ensures found ==> CacheInv(View(), zone.busy, {m}) && m in slabs && slabs[m].size > 0
      ensures old(partial) != [] || old(empty) != [] ==> slabs.Keys == old(slabs).Keys && zone.busy == old(zone.busy)
      ensures found && old(partial) == [] && old(empty) == [] ==>
                m !in old(slabs) && slabs.Keys == old(slabs).Keys + {m}
      ensures empty == if old(partial) == [] && old(empty) != [] then old(empty)[1..] else old(empty)
    {
      hide CacheInv, Valid, FreePages, Live, Pow2, Bytes;
      ghost var c := View();
      found := true;
      CacheParts(c, zone.busy, {});
      DetachHead(c, zone.busy);
      if partial != [] {
        m := partial[0];
        DetachKeeps(c, zone.busy, {}, m);
        partial := partial[1..];
        assert View() == Detach(c, m);
        PendingOnly(View(), zone.busy, m);
      } else if empty != [] {
        m := empty[0];
        DetachKeeps(c, zone.busy, {}, m);
        empty := empty[1..];
        assert View() == Detach(c, m);
        PendingOnly(View(), zone.busy, m);
      } else {
        m := SlabCreate();
        found := m != 0;
        if found {
          CacheParts(View(), zone.busy, {m});
          PendingOnly(View(), zone.busy, m);
        }
      }
    }

    /** slab_alloc and the list_add that follows it. */
    method Take(m: nat) returns (ptr: nat)
      requires zone.Ok() && zone.end * PAGE <= W - HIGHER_BASE && CacheInv(View(), zone.busy, {m})
      requires m in slabs && slabs[m].size > 0
      modifies this
      ensures Ok() && ptr != 0 && ptr !in old(Objects()) && Objects() == old(Objects()) + iset{ptr}
      ensures slabs.Keys == old(slabs).Keys && empty == old(empty)
    {
      hide CacheInv, Valid, FreePages, Live;
      ghost var c := View();
      PopReadyAt(c, zone.busy, m);
      PopKeeps(c, zone.busy, m);
      PopLive(zone.View(), c, m);
      var slab := slabs[m];
      ptr := slab.free;
      LivePositive(Pop(c, m), m, ptr);
      slabs := slabs[m := Header(slab.page, next[ptr], slab.size - 1)];
      chain := chain[m := chain[m][1..]];
      assert View() == Pop(c, m);
      PopBelow(c, zone.busy, m);
      AttachKeeps(View(), zone.busy, m);
      ghost var d := View();
      if slabs[m].size != 0 {
        partial := [m] + partial;
      } else {
        full := [m] + full;
      }
      assert View() == Attach(d, m);
    }

    /** __slab_cache_free: the slab is found by masking the object's address. */
    method Free(ptr: nat)
      requires Ok() && ptr in Objects()
      modifies this
      ensures Ok() && Objects() == old(Objects()) - iset{ptr} && zone.busy == old(zone.busy)
      ensures slabs.Keys == old(slabs).Keys
    {
      hide CacheInv, Valid, FreePages, Live, Mask, Bytes, LiveIn;
      ghost var c := View();
      ghost var n := LiveSlab(c, ptr);
      FindSlab(zone.View(), c, n, ptr);
      var m := Meta(slabOrder, Mask(slabOrder, ptr));
      DetachKeeps(c, zone.busy, {}, m);
      full, partial, empty := Remove(full, m), Remove(partial, m), Remove(empty, m);
      assert View() == Detach(c, m);
      DetachLive(c, m, ptr);
      PendingOnly(View(), zone.busy, m);
      GiveBack(m, ptr);
    }

    /** slab_free and the list_add that follows it. */
    method GiveBack(m: nat, ptr: nat)
      requires zone.Ok() && zone.end * PAGE <= W - HIGHER_BASE && CacheInv(View(), zone.busy, {m})
      requires LiveIn(View(), m, ptr)
      modifies this
      ensures Ok() && Objects() == old(Objects()) - iset{ptr} && slabs.Keys == old(slabs).Keys
    {
      hide CacheInv, Valid, FreePages, Live, LiveIn, Lists, Sizes;
      ghost var e := View();
      LiveInSlab(e, m, ptr);
      PushKeeps(zone.View(), e, m, ptr);
      PushLive(zone.View(), e, m, ptr);
      var slab := slabs[m];
      next := next[ptr := slab.free];
      slabs := slabs[m := Header(slab.page, ptr, slab.size + 1)];
      chain := chain[m := [ptr] + chain[m]];
      assert View() == Push(e, m, ptr);
      ghost var d := View();
      AttachKeeps(d, zone.busy, m);
      CacheParts(d, zone.busy, {m});
      if slabs[m].size == slabSize {
        empty := [m] + empty;
      } else {
        partial := [m] + partial;
      }
      assert View() == Attach(d, m);
    }

    /** slab_cache_shrink: every slab without live objects goes back to the zone, once. */
    method Shrink()
      requires Ok()
      modifies this, zone, zone.page
      ensures Ok() && zone.owner.Keys == old(zone.owner.Keys) && Objects() == old(Objects())
      ensures empty == [] && full == old(full) && partial == old(partial)
      ensures slabs.Keys == old(slabs).Keys - Elements(old(empty))
      ensures zone.busy == old(zone.busy) - SlabBlocks(old(View()), old(empty))
    {
      hide CacheInv, Valid, FreePages, Live, Pow2, Bytes, SlabBlocks, NoDuplicates, BuddyAllocator.FreeLists;
      ghost var c, busy := View(), zone.busy;
      var list := empty;
      empty := [];
      DetachAll(c, busy);
      assert View() == c.(empty := []);
      var i := 0;
      assert list[0..] == list && list[..0] == [];
      NoBlocks(c);
      while i < |list|
        invariant 0 <= i <= |list| && zone.Ok() && zone.owner.Keys == old(zone.owner.Keys)
        invariant CacheInv(View(), zone.busy, Elements(list[i..])) && Objects() == old(Objects())
        invariant empty == [] && full == old(full) && partial == old(partial)
        invariant forall m :: m in list[i..] ==> m in slabs && slabs[m] == c.slabs[m] && slabs[m].size == slabSize
        invariant slabs.Keys == c.slabs.Keys - Elements(list[..i])
        invariant zone.busy == busy - SlabBlocks(c, list[..i])
      {
        ghost var d, rest := View(), list[i..];
        var m := list[i];
        RestOf(list, i);
        BlocksGrow(c, list, i);
        SlabDestroy(m, Elements(rest));
        i := i + 1;
      }
      assert list[i..] == [] && list[..i] == list;
      assert Elements(list[i..]) == {};
    }

    /** slab_destroy of a slab that is off its list and has no live object. */
    method SlabDestroy(m: nat, ghost pending: set<nat>)
      requires zone.Ok() && CacheInv(View(), zone.busy, pending) && m in pending && m in slabs
      requires slabs[m].size == slabSize
      modifies this, zone, zone.page
      ensures zone.Ok() && zone.owner.Keys == old(zone.owner.Keys)
      ensures View() == Destroy(old(View()), m) && Objects() == old(Objects())
      ensures CacheInv(View(), zone.busy, pending - {m})
      ensures zone.busy == old(zone.busy) - {Block(old(slabs)[m].page, slabOrder)}
    {
      hide CacheInv, Valid, FreePages, Live, Pow2, BuddyAllocator.FreeLists;
      DestroyKeeps(View(), zone.busy, pending, m);
      zone.FreeBlock(slabs[m].page, slabOrder);
      slabs := slabs - {m};
      chain := chain - {m};
    }

    /** slab_cache_release: hangs while objects are out, otherwise gives every slab back. */
    method Release() returns (hung: bool)
      requires Ok()
      modifies this, zone, zone.page
      ensures hung <==> old(Objects()) != iset{}
      ensures Ok() && zone.owner.Keys == old(zone.owner.Keys)
      ensures !hung ==> slabs == map[] && zone.busy == old(zone.busy) - SlabBlocks(old(View()), old(empty))
    {
      hide CacheInv, Valid, FreePages, Live, Bytes, Pow2;
      ghost var c := View();
      NoneOut(zone.View(), c);
      hung := full != [] || partial != [];
      if !hung { Shrink(); }
    }
  }

  lemma EmptyCache(c: Cache, busy: set<Block>)
    requires Sizes(c) && c.slabs == map[] && c.chain == map[] && c.full == [] && c.partial == [] && c.empty == []
    ensures CacheInv(c, busy, {}) && Live(c) == iset{}
  {
    assert forall m, p :: !LiveIn(c, m, p);
  }

  lemma FitsBelow(bytes: nat, size: nat)
    requires size > 0
    ensures bytes / size * size <= bytes
  {
    assert bytes == size * (bytes / size) + bytes % size;
  }

  lemma CacheParts(c: Cache, busy: set<Block>, pending: set<nat>)
    requires CacheInv(c, busy, pending)
    ensures Sizes(c) && Lists(c, pending) && c.chain.Keys == c.slabs.Keys
    ensures forall m :: m in c.slabs ==>
                          c.slabs[m].size <= c.count && (c.slabs[m].size > 0 ==> c.slabs[m].free in c.next)
    ensures c.partial != [] ==> c.partial[0] in c.partial
    ensures c.empty != [] ==> c.empty[0] in c.empty
  {
    forall m | m in c.slabs ensures c.slabs[m].size <= c.count && (c.slabs[m].size > 0 ==> c.slabs[m].free in c.next) {
      assert SlabOk(c, busy, m);
      if c.slabs[m].size > 0 { PopReady(c, busy, m); }
    }
  }

  lemma PendingOnly(c: Cache, busy: set<Block>, m: nat)
    requires CacheInv(c, busy, {m}) || CacheInv(c, busy, {} + {m})
    ensures CacheInv(c, busy, {m})
  {
    hide CacheInv;
    assert {} + {m} == {m};
  }

  lemma PopReadyAt(c: Cache, busy: set<Block>, m: nat)
    requires CacheInv(c, busy, {m}) && m in c.slabs && c.slabs[m].size > 0
    ensures m in c.chain && c.chain[m] != [] && c.slabs[m].free in c.next
  {
    assert SlabOk(c, busy, m);
    PopReady(c, busy, m);
  }

  lemma PopBelow(c: Cache, busy: set<Block>, m: nat)
    requires CacheInv(c, busy, {m}) && m in c.slabs && m in c.chain && c.slabs[m].size > 0 && c.chain[m] != []
    requires c.slabs[m].free in c.next
    ensures Pop(c, m).slabs[m].size < c.count
  {
    assert SlabOk(c, busy, m);
  }

  lemma LiveSlab(c: Cache, p: nat) returns (m: nat)
    requires p in Live(c)
    ensures LiveIn(c, m, p)
  {
    m :| LiveIn(c, m, p);
  }

  lemma FindSlab(z: Zone, c: Cache, m: nat, p: nat)
    requires Valid(z) && CacheInv(c, z.busy, {}) && z.end * PAGE <= W - HIGHER_BASE && LiveIn(c, m, p)
    ensures c.order <= MAX_ORDER && Bytes(c.order) <= W && Meta(c.order, Mask(c.order, p)) == m && m in c.slabs
  {
    hide CacheInv, Valid, Bytes, Mask;
    CacheParts(c, z.busy, {});
    MaskFinds(z, c, {}, m, p, p);
  }

  lemma LiveInSlab(c: Cache, m: nat, p: nat)
    requires LiveIn(c, m, p)
    ensures m in c.slabs && m in c.chain
  {}

  lemma DetachLive(c: Cache, m: nat, p: nat)
    requires LiveIn(c, m, p)
    ensures LiveIn(Detach(c, m), m, p)
  {
    SlotSame(c, Detach(c, m), m, p);
  }

  function SlabBlocks(c: Cache, list: seq<nat>): set<Block> {
    set m | m in list && m in c.slabs :: Block(c.slabs[m].page, c.order)
  }

  lemma NoBlocks(c: Cache)
    ensures SlabBlocks(c, []) == {} && Elements([]) == {}
  {}

  lemma DetachAll(c: Cache, busy: set<Block>)
    requires CacheInv(c, busy, {})
    ensures CacheInv(c.(empty := []), busy, Elements(c.empty)) && Live(c.(empty := [])) == Live(c)
    ensures forall m :: m in c.empty ==> m in c.slabs && c.slabs[m].size == c.count
    ensures NoDuplicates(c.empty)
  {
    ListsOnly(c, c.(empty := []), busy, {}, Elements(c.empty));
  }

  lemma RestOf(list: seq<nat>, i: nat)
    requires i < |list| && NoDuplicates(list)
    ensures list[i] in list[i..] && Elements(list[i..]) - {list[i]} == Elements(list[i + 1..])
    ensures Elements(list[..i + 1]) == Elements(list[..i]) + {list[i]}
    ensures forall m :: m in list[i + 1..] ==> m in list[i..] && m != list[i]
  {
    assert list[i..] == [list[i]] + list[i + 1..];
    assert list[..i + 1] == list[..i] + [list[i]];
  }

  lemma BlocksGrow(c: Cache, list: seq<nat>, i: nat)
    requires i < |list| && list[i] in c.slabs
    ensures SlabBlocks(c, list[..i + 1]) == SlabBlocks(c, list[..i]) + {Block(c.slabs[list[i]].page, c.order)}
  {
    assert list[..i + 1] == list[..i] + [list[i]];
  }

  /** No object is out exactly when the full and partial lists are empty, and then the empty
      list holds every slab. */
  lemma NoneOut(z: Zone, c: Cache)
    requires Valid(z) && CacheInv(c, z.busy, {})
    ensures Live(c) == iset{} <==> c.full == [] && c.partial == []
    ensures c.full == [] && c.partial == [] ==> c.slabs.Keys == Elements(c.empty)
  {
    hide NoDuplicates, Linked, Slot, Bytes, Valid;
    if c.full == [] && c.partial == [] {
      forall m | m in c.slabs ensures m in c.empty && forall p :: !LiveIn(c, m, p) {
        assert SlabOk(c, z.busy, m);
        SlotsCounted(c, m, c.chain[m]);
      }
    } else {
      var m := if c.full != [] then c.full[0] else c.partial[0];
      assert (c.full != [] ==> m in c.full) && (c.full == [] ==> m in c.partial);
      assert SlabOk(c, z.busy, m);
      SlabOrder(z, c, m);
      SomeLive(c, z.busy, m);
      var p :| LiveIn(c, m, p);
      assert p in Live(c);
    }
  }

  /** A slab with fewer than `count` free objects has a live one. */
  lemma SomeLive(c: Cache, busy: set<Block>, m: nat)
    requires SlabOk(c, busy, m) && c.slabs[m].size < c.count && c.size > 0
    ensures exists p :: LiveIn(c, m, p)
  {
    hide Linked, Slot, Bytes, NoDuplicates;
    if forall i :: 0 <= i < c.count ==> Slot(c, m, i) in c.chain[m] {
      SlotsDistinct(c, m, c.count);
      assert SlotSet(c, m, c.count) <= Elements(c.chain[m]) by { SlotSetIs(c, m, c.count); }
      BuddyClientSize(SlotSet(c, m, c.count), c.chain[m]);
      assert false;
    }
    var i :| 0 <= i < c.count && Slot(c, m, i) !in c.chain[m];
    assert LiveIn(c, m, Slot(c, m, i));
  }

  lemma {:induction false} SlotsDistinct(c: Cache, m: nat, n: nat)
    requires m in c.slabs && c.size > 0
    ensures |SlotSet(c, m, n)| == n
  {
    hide Slot;
    if n > 0 {
      SlotsDistinct(c, m, n - 1);
      SlotSetIs(c, m, n - 1);
      forall i | 0 <= i < n - 1 ensures Slot(c, m, i) != Slot(c, m, n - 1) { SlotApart(c, m, i, n - 1); }
    }
  }

  lemma BuddyClientSize(a: set<nat>, s: seq<nat>)
    requires a <= Elements(s)
    ensures |a| <= |s|
  {
    ElementsCount(s);
    BuddyClient.SubsetSize(a, Elements(s));
  }

  lemma {:induction false} ElementsCount(s: seq<nat>)
    ensures |Elements(s)| <= |s|
  {
    if s != [] {
      ElementsCount(s[1..]);
      assert Elements(s) == Elements(s[1..]) + {s[0]};
    }
  }
}
