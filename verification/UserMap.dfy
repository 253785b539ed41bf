/** User mappings of paging.c on top of the buddy zone: __pt_map with its fallback from
    large to small leaves, and __pt_unmap over any range. */
module UserMap {
  import opened Bits
  import BuddyAllocator
  import opened BuddyZone
  import opened Paging
  import opened MapLoop
  import opened LargeLeaves
  import opened EntryFlags
  import opened UserTree
  import opened UserSweep
  import opened UnmapRange

  /** Returned 0, returned -1, or hung in the failure loop of pt_alloc. */
  datatype Outcome = Done | Fail | Hang

  lemma Widen(s: Space, t: Space, root: nat, f: nat, v: nat, n: nat, m: nat)
    requires f in s.info && Changed(s, t, root, LO, HI, f, v, n) && n <= m
    ensures Changed(s, t, root, LO, HI, f, v, m)
  {
    hide Walk, Under, Tree, Covers, RootEntry;
  }

  /** The physical address of a block is aligned to what a leaf of that order covers. */
  lemma LeafAddress(h: nat, lvl: nat)
    requires 1 <= lvl <= 4 && Aligned(h, LeafOrder(lvl))
    ensures h * PAGE % Size(lvl) == 0 && LeafBlock(Pte(true, false, 0, h * PAGE), lvl) == Block(h, LeafOrder(lvl))
  {
    var d := Pow2(LeafOrder(lvl));
    SizeIsPow2(lvl);
    Pow2Add(LeafOrder(lvl), 12);
    var q := h / d;
    assert h == d * q;
    PagePow2();
    assert h * PAGE == Size(lvl) * q by {
      assert Size(lvl) == d * PAGE;
      assert (d * PAGE) * q == (d * q) * PAGE;
    }
    Multiple(Size(lvl), q);
    Multiple(PAGE, h);
  }

  lemma PagePow2()
    ensures Pow2(12) == PAGE
  {}

  /** The tables over address `v` are all there. */
  predicate Tabled(mem: Tables, f: nat, v: nat, lvl: nat)
    decreases lvl
  {
    || lvl <= 1
    || (f in mem && |mem[f]| == 512 && Link(mem[f][PtIndex(v, lvl)], lvl)
        && Tabled(mem, mem[f][PtIndex(v, lvl)].phys, v, lvl - 1))
  }

  lemma TabledBelow(mem: Tables, f: nat, v: nat, lvl: nat)
    ensures Tabled(mem, f, v, lvl) && lvl > 1 ==>
              && f in mem && |mem[f]| == 512 && mem[f][PtIndex(v, lvl)].present
              && Tabled(mem, mem[f][PtIndex(v, lvl)].phys, v, lvl - 1)
  {
    hide PtIndex;
  }

  /** The levels of large leaf that no free run of pages is long enough for. */
  ghost function UsedUp(free: set<nat>): set<nat> {
    set lvl: nat | lvl in {2, 3} && !NaturalRun(free, LeafOrder(lvl))
  }

  ghost predicate NaturalRun(free: set<nat>, k: nat) {
    k <= MAX_ORDER && exists h :: BuddyAllocator.FreeRun(free, h, k)
  }

  lemma UsedNow(free: set<nat>, lvl: nat)
    requires !(LeafOrder(lvl) <= MAX_ORDER && exists h :: BuddyAllocator.FreeRun(free, h, LeafOrder(lvl)))
    ensures lvl in {2, 3} ==> lvl in UsedUp(free)
  {}

  lemma UsedMore(free: set<nat>, less: set<nat>)
    requires less <= free
    ensures UsedUp(free) <= UsedUp(less)
  {
    hide LeafOrder, Aligned;
    forall lvl | lvl in UsedUp(free) ensures lvl in UsedUp(less) {
      if h :| BuddyAllocator.FreeRun(less, h, LeafOrder(lvl)) {
        assert BuddyAllocator.FreeRun(free, h, LeafOrder(lvl));
      }
    }
  }

  class UserTables {
    const zone: BuddyAllocator.ZoneAllocator
    var mem: Tables

    /** Every table in memory is a page held from the zone; page 0 was never given to it. */
    ghost predicate Ok()
      reads this, zone, zone.page
    {
      zone.Ok() && 0 !in zone.owner && TablesBusy(mem, zone.busy)
    }

    constructor (zone: BuddyAllocator.ZoneAllocator)
      requires zone.Ok() && 0 !in zone.owner
      ensures Ok() && this.zone == zone && mem == map[]
    {
      this.zone := zone;
      mem := map[];
    }

    /** buddy_alloc: zero for failure, a physical address otherwise. */
    method BuddyAlloc(k: nat) returns (phys: nat)
      requires Ok()
      modifies zone, zone.page
      ensures Ok() && zone.owner.Keys == old(zone.owner.Keys)
      ensures phys == 0 <==> !(k <= MAX_ORDER && exists h :: BuddyAllocator.FreeRun(old(zone.Free()), h, k))
      ensures phys == 0 ==> zone.busy == old(zone.busy) && zone.Free() == old(zone.Free())
      ensures zone.Free() <= old(zone.Free())
      ensures phys != 0 ==> phys % PAGE == 0 && Aligned(phys / PAGE, k) && Block(phys / PAGE, k) !in old(zone.busy)
      ensures phys != 0 ==> zone.busy == old(zone.busy) + {Block(phys / PAGE, k)}
      ensures phys != 0 ==> phys / PAGE in old(zone.Free())
    {
      hide Aligned, Pow2, Valid, FreePages;
      var r := zone.Alloc(k);
      if r.None? {
        return 0;
      }
      phys := r.value * PAGE;
      NotPageZero(old(zone.View()), r.value, k);
      TablesStay(mem, old(zone.busy), zone.busy);
    }

    ghost function View(info: map<nat, Info>): Space
      reads this
    {
      Space(mem, info)
    }

    /** pt_alloc and `pt[i] = pte`: a zeroed page hung under entry `i`, or the failure hang. */
    method HangTable(ghost info: map<nat, Info>, f: nat, i: nat) returns (hung: bool, pte: Pte)
      requires Ok() && f in mem && i < |mem[f]| && f in info && info[f].lvl >= 1
      modifies this, zone, zone.page
      ensures Ok() && zone.owner.Keys == old(zone.owner.Keys)
      ensures zone.Free() <= old(zone.Free()) && (hung ==> old(zone.Free()) == {})
      ensures !hung ==> pte == Pte(true, false, PDE_FLAGS, pte.phys) && pte.phys % PAGE == 0 && pte.phys !in old(mem)
      ensures !hung ==> TableBlock(pte.phys) !in old(zone.busy) && zone.busy == old(zone.busy) + {TableBlock(pte.phys)}
      ensures !hung ==>
                var t := AddTable(old(View(info)), f, i, PDE_FLAGS, pte.phys);
                View(t.info) == t
      ensures !hung ==> Entry(View(info), f, i) == pte
    {
      hide Pow2, Aligned, Valid, FreePages, Child, AddTable;
      ghost var s := View(info);
      ghost var busy, free := zone.busy, zone.Free();
      var phys := BuddyAlloc(0);
      hung := phys == 0;
      pte := Pte(true, false, PDE_FLAGS, phys);
      if !hung {
        FreshTable(mem, busy, phys);
        mem := mem[phys := seq(512, _ => ABSENT)];
        mem := mem[f := mem[f][i := pte]];
        AddTableIs(s, Space(mem, info[phys := Child(info[f], i)]), f, i, PDE_FLAGS, phys);
        TablesMore(s.mem, mem, busy, phys);
      } else {
        NoPageLeft(free);
      }
    }

    /** __pt_map: any free frames, large leaves first and smaller ones where those fail. */
    method MapRange(ghost info: map<nat, Info>, ghost root: nat, f: nat, virt0: nat, size0: nat, flags: nat, lvl: nat)
      returns (r: Outcome, ghost info1: map<nat, Info>)
      requires Ok() && User(View(info), root, LO, HI, zone.busy) && f in info && info[f].lvl == lvl
      requires virt0 < W && 0 < size0 && PageAligned(virt0 % TOP) && PageAligned(size0)
      requires InTable(View(info), LO, HI, f, virt0 % TOP, size0) && Unmapped(View(info), f, virt0 % TOP, size0)
      modifies this, zone, zone.page
      ensures Ok() && zone.owner.Keys == old(zone.owner.Keys)
      ensures !r.Hang? ==>
                && User(View(info1), root, LO, HI, zone.busy)
                && SameRest(old(View(info)), old(zone.busy), View(info1), zone.busy)
                && Changed(old(View(info)), View(info1), root, LO, HI, f, virt0 % TOP, size0)
                && Untouched(old(View(info)), View(info1), root) && Grown(old(View(info)), View(info1))
      ensures !r.Done? ==> zone.Free() == {}
      ensures old(zone.Free()) == {} && Tabled(old(mem), f, virt0, lvl) ==>
                r.Fail? && mem == old(mem) && info1 == info && zone.busy == old(zone.busy)
      ensures r.Done? ==> MapState(old(View(info)), View(info1), root, LO, HI, f, virt0 % TOP, size0, Anywhere)
      ensures !r.Hang? ==> Written(old(View(info)), View(info1), flags)
      ensures zone.Free() <= old(zone.Free())
      ensures r.Done? ==> Sparing(info, info1, info[f], virt0 % TOP, size0, Anywhere, UsedUp(zone.Free()))
      decreases lvl, 1
    {
      hide Tabled, Loop, MapState, Chunk, PtIndex, Size, Tree, InTable, Unmapped, Words, PageAligned, Walk, Child;
      hide AtEntry, Mine, Link, EntryBase, Min, Plus, Last, Grown, User, SameRest, Untouched, Valid, FreePages;
      hide Changed, TablesBusy, Sparing, OnBorder, UsedUp, Written;
      ghost var s0, busy0, v := View(info), zone.busy, virt0 % TOP;
      ghost var n: nat := 0;
      var virt: nat, size: nat := virt0, size0;
      info1 := info;
      var i := PtIndex(virt, lvl);
      var to := PtIndex(Last(virt, size), lvl) + 1;
      UserStarts(s0, root, f, virt0, size0, busy0);
      SparingStarts(info, info[f], v, size0, Anywhere, UsedUp(zone.Free()));
      UntouchedSelf(s0, root);
      GrownSelf(s0);
      WrittenSelf(s0, flags);
      while i != to
        invariant i <= to && Ok() && zone.owner.Keys == old(zone.owner.Keys)
        invariant Loop(s0, View(info1), root, LO, HI, f, v, size0, Anywhere, n, i)
        invariant Words(virt0, size0, n, virt, size)
        invariant User(View(info1), root, LO, HI, zone.busy) && SameRest(s0, busy0, View(info1), zone.busy)
        invariant Untouched(s0, View(info1), root) && Grown(s0, View(info1)) && Written(s0, View(info1), flags)
        invariant zone.Free() <= old(zone.Free()) && OnBorder(v, n, size0, lvl)
        invariant Sparing(info, info1, info[f], v, size0, Anywhere, UsedUp(zone.Free()))
        invariant old(zone.Free()) == {} && Tabled(old(mem), f, virt0, lvl) ==>
                    && n == 0 && virt == virt0 && i == PtIndex(virt0, lvl)
                    && mem == old(mem) && info1 == info && zone.busy == busy0 && zone.Free() == {}
      {
        ghost var s := View(info1);
        LoopWords(s0, View(info1), root, LO, HI, f, virt0, size0, Anywhere, n, i, virt, size);
        var tomap := Chunk(virt, size, lvl);
        LoopChunk(s0, View(info1), root, LO, HI, f, v, size0, Anywhere, n, i, tomap);
        r, info1 := MapEntry(info1, root, f, i, virt, tomap, flags, lvl, s0, busy0, v, size0, n);
        if !r.Hang? {
          UntouchedTrans(s0, s, View(info1), root);
          GrownTrans(s0, s, View(info1));
          WrittenTrans(s0, s, View(info1), flags);
        }
        if !r.Done? { return; }
        WordsNext(virt0, size0, n, virt, size, tomap);
        BorderNext(v, n, size0, lvl, tomap);
        n := n + tomap;
        virt := Plus(virt, tomap);
        size := size - tomap;
        i := i + 1;
      }
      LoopWords(s0, View(info1), root, LO, HI, f, virt0, size0, Anywhere, n, i, virt, size);
      LoopDone(s0, View(info1), root, LO, HI, f, v, size0, Anywhere, n, i);
      MapStateParts(s0, View(info1), root, LO, HI, f, v, size0, Anywhere);
      r := Done;
    }

    /** The body of that loop: `tomap` bytes through entry `i`. */
    method MapEntry(ghost info: map<nat, Info>, ghost root: nat, f: nat, i: nat, virt: nat, tomap: nat, flags: nat,
                    lvl: nat,
                    ghost s0: Space, ghost busy0: set<Block>, ghost v: nat, ghost size: nat, ghost n: nat)
      returns (r: Outcome, ghost info1: map<nat, Info>)
      requires Ok() && f in s0.info && s0.info[f].lvl == lvl && n < size
      requires Loop(s0, View(info), root, LO, HI, f, v, size, Anywhere, n, i)
      requires tomap == Min(size - n, Size(lvl) - (v + n) % Size(lvl))
      requires virt < W && virt % TOP == v + n && virt % Size(lvl) == (v + n) % Size(lvl)
      requires User(View(info), root, LO, HI, zone.busy) && SameRest(s0, busy0, View(info), zone.busy)
      requires Sparing(s0.info, info, s0.info[f], v, size, Anywhere, UsedUp(zone.Free())) && OnBorder(v, n, size, lvl)
      modifies this, zone, zone.page
      ensures Ok() && zone.owner.Keys == old(zone.owner.Keys) && zone.Free() <= old(zone.Free())
      ensures r.Done? ==> Sparing(s0.info, info1, s0.info[f], v, size, Anywhere, UsedUp(zone.Free()))
      ensures !r.Hang? ==>
                && User(View(info1), root, LO, HI, zone.busy) && SameRest(s0, busy0, View(info1), zone.busy)
                && Changed(s0, View(info1), root, LO, HI, f, v, size) && Untouched(old(View(info)), View(info1), root)
                && Grown(old(View(info)), View(info1)) && Written(old(View(info)), View(info1), flags)
      ensures !r.Done? ==> zone.Free() == {}
      ensures old(zone.Free()) == {} && i == PtIndex(virt, lvl) && Tabled(old(mem), f, virt, lvl) ==>
                r.Fail? && mem == old(mem) && info1 == info && zone.busy == old(zone.busy)
      ensures r.Done? ==> Loop(s0, View(info1), root, LO, HI, f, v, size, Anywhere, n + tomap, i + 1)
      decreases lvl, 0
    {
      hide Tabled, Loop, MapState, Chunk, PtIndex, Size, Tree, InTable, Unmapped, Words, PageAligned, Walk, AddTable;
      hide SetEntry, Child, AtEntry, Mine, Link, EntryBase, Min, Grown, User, SameRest, Untouched, Valid, FreePages;
      hide Changed, TablesBusy, Aligned, Pow2, LeafOrder, Sparing, OnBorder, UsedUp, Written;
      ghost var s, free := View(info), zone.Free();
      info1 := info;
      LoopChunk(s0, s, root, LO, HI, f, v, size, Anywhere, n, i, tomap);
      LoopWide(s0, s, root, f, v, size, n, i);
      WrittenSelf(s, flags);
      MineIndex(s, f, i, LO, HI);
      TabledBelow(mem, f, virt, lvl);
      var pte := mem[f][i];
      var large := lvl == 3 || lvl == 2;
      var notaligned := virt % Size(lvl) != 0;
      var leaf := lvl == 1 || (large && tomap == Size(lvl) && !notaligned);
      if !pte.present {
        if leaf {
          ghost var busy := zone.busy;
          var phys := BuddyAlloc(LeafOrder(lvl));
          if phys != 0 {
            pte := Pte(true, large, flags, phys);
            EntryLeaf(s0, busy0, s, busy, root, f, v, size, n, i, tomap, pte);
            mem := mem[f := mem[f][i := pte]];
            SetEntryIs(s, View(info), f, i, pte);
            TablesSame(s.mem, mem, zone.busy);
            UntouchedSet(s, root, f, i, pte);
            GrownSet(s, f, i, pte);
            WrittenLeaf(s, f, i, pte);
            UsedMore(free, zone.Free());
            SparingMore(s0.info, info, s0.info[f], v, size, Anywhere, UsedUp(free), UsedUp(zone.Free()));
            return Done, info;
          }
          UsedNow(zone.Free(), lvl);
          if lvl == 1 {
            NoLeafLeft(zone.Free());
            UntouchedSelf(s, root);
            GrownSelf(s);
            return Fail, info;
          }
        }
        ghost var busy := zone.busy;
        var hung;
        hung, pte := HangTable(info, f, i);
        if hung { return Hang, info; }
        WrittenTable(s, root, LO, HI, f, i, pte.phys, flags);
        UsedMore(free, zone.Free());
        PastAnywhere(n);
        SpareTable(s0, s, root, LO, HI, f, v, size, Anywhere, n, i, tomap, PDE_FLAGS, pte.phys, UsedUp(free),
                   UsedUp(zone.Free()));
        EntryTable(s0, busy0, s, busy, root, f, v, size, n, i, pte.phys);
        info1 := AddTable(s, f, i, PDE_FLAGS, pte.phys).info;
      }
      ghost var t, busy := View(info1), zone.busy;
      if t != s {
        UntouchedAdd(s, root, f, i, PDE_FLAGS, pte.phys);
        GrownAdd(s, f, i, PDE_FLAGS, pte.phys);
      } else {
        UntouchedSelf(s, root);
        GrownSelf(s);
      }
      LoopDown(s0, t, root, LO, HI, f, v, size, Anywhere, n, i, tomap);
      ghost var mid := zone.Free();
      r, info1 := MapRange(info1, root, pte.phys, virt, tomap, flags, lvl - 1);
      if !r.Hang? {
        UntouchedTrans(s, t, View(info1), root);
        GrownTrans(s, t, View(info1));
        WrittenTrans(s, t, View(info1), flags);
        EntryChild(s0, busy0, t, busy, View(info1), zone.busy, root, f, v, size, n, i, tomap);
        if r.Done? {
          LoopChild(s0, t, View(info1), root, LO, HI, f, v, size, Anywhere, n, i, tomap);
          UsedMore(mid, zone.Free());
          PastAnywhere(n);
          SpareChild(s0, t, info1, root, LO, HI, f, v, size, Anywhere, n, i, tomap, UsedUp(mid), UsedUp(zone.Free()));
        }
      }
    }

    /** The `continue` branch for a leaf: its block goes back at the order it came with. */
    method FreeLeaf(ghost info: map<nat, Info>, ghost root: nat, f: nat, i: nat, lvl: nat)
      requires Ok() && User(View(info), root, LO, HI, zone.busy) && Others(View(info), zone.busy)
      requires Mine(View(info), f, i, LO, HI) && f in info && info[f].lvl == lvl && f in mem && i < |mem[f]|
      requires Leaf(mem[f][i], lvl)
      modifies this, zone, zone.page
      ensures Ok() && zone.owner.Keys == old(zone.owner.Keys)
      ensures zone.busy == old(zone.busy) - {LeafBlock(old(mem)[f][i], lvl)} && mem == Cleared(old(mem), f, i)
      ensures Swept(old(View(info)), old(zone.busy), View(info), zone.busy, root, f)
      ensures EmptiedFrom(old(View(info)), View(info), f, i, i + 1)
    {
      hide Swept, EmptiedFrom, Mine, Leaf, Valid, FreePages, TablesBusy, LeafOrder, SetEntry, User, Others;
      ghost var s, busy := View(info), zone.busy;
      SweptLeaf(s, busy, root, f, i);
      var phys := mem[f][i].phys;
      zone.FreeBlock(phys / PAGE, LeafOrder(lvl));
      mem := mem[f := mem[f][i := ABSENT]];
      SetEntryIs(s, View(info), f, i, ABSENT);
    }

    /** pt_free and `pt[i] = 0` once the child has been swept. */
    method FreeTable(ghost info: map<nat, Info>, ghost root: nat, f: nat, i: nat, child: nat, ghost s: Space,
                     ghost busy: set<Block>)
      returns (ghost info1: map<nat, Info>)
      requires Ok() && User(s, root, LO, HI, busy) && Others(s, busy)
      requires Mine(s, f, i, LO, HI) && f in s.info && Link(Entry(s, f, i), s.info[f].lvl)
      requires child == Entry(s, f, i).phys
      requires child in s.info && Swept(s, busy, View(info), zone.busy, root, child)
      requires EmptiedFrom(s, View(info), child, 0, 512)
      modifies this, zone, zone.page
      ensures Ok() && zone.owner.Keys == old(zone.owner.Keys) && zone.busy == old(zone.busy) - {TableBlock(child)}
      ensures mem == Cleared(old(mem), f, i) - {child}
      ensures Swept(s, busy, View(info1), zone.busy, root, f) && EmptiedFrom(s, View(info1), f, i, i + 1)
    {
      hide Swept, EmptiedFrom, Mine, Leaf, Link, Entry, Valid, FreePages, TablesBusy, LeafOrder, DropTable, User;
      hide Others;
      ghost var t, busy1 := View(info), zone.busy;
      SweptTable(s, busy, t, busy1, root, f, i, child);
      zone.FreeBlock(child / PAGE, 0);
      mem := mem[f := mem[f][i := ABSENT]];
      mem := mem - {child};
      info1 := info - {child};
      DropTableIs(t, View(info1), f, i, child);
    }

    /** __pt_unmap: absent entries and leaves do not advance `vaddr` and `size`. */
    method Unmap(ghost info: map<nat, Info>, ghost root: nat, f: nat, vaddr0: nat, size0: nat, lvl: nat)
      returns (ghost info1: map<nat, Info>)
      requires Ok() && User(View(info), root, LO, HI, zone.busy) && Others(View(info), zone.busy)
      requires f in info && info[f].lvl == lvl && InOne(vaddr0, size0, lvl)
      modifies this, zone, zone.page
      ensures Ok() && zone.owner.Keys == old(zone.owner.Keys)
      ensures Swept(old(View(info)), old(zone.busy), View(info1), zone.busy, root, f)
      ensures mem == UnmapFrom(old(mem), f, vaddr0, size0, lvl)
      ensures Even(vaddr0, size0, lvl) ==>
                size0 > 0 && EmptiedFrom(old(View(info)), View(info1), f, PtIndex(vaddr0, lvl),
                                         PtIndex(Last(vaddr0, size0), lvl) + 1)
      decreases lvl, 1
    {
      hide UserTables.Ok, Sweeping, Swept, EmptiedFrom, Counters, Due, InOne, Even, UnmapLoop, UnmapFrom, User;
      hide Others, Mine, Leaf, Link, Valid, FreePages, TablesBusy, LeafOrder, Size, PtIndex, Chunk, Last, Plus;
      hide Cleared, Entry;
      ghost var s0, busy0 := View(info), zone.busy;
      var vaddr: nat, size: nat := vaddr0, size0;
      info1 := info;
      SweepingStarts(s0, busy0, root, f, vaddr, size, lvl);
      var i := PtIndex(vaddr, lvl);
      var to := PtIndex(Last(vaddr, size), lvl) + 1;
      while i != to
        invariant i <= to && Ok() && zone.owner.Keys == old(zone.owner.Keys)
        invariant Sweeping(s0, busy0, View(info1), zone.busy, root, f, i, to, vaddr0, size0, vaddr, size, lvl)
      {
        ghost var s, busy := View(info1), zone.busy;
        SweepingFacts(s0, busy0, s, busy, root, f, i, to, vaddr0, size0, vaddr, size, lvl);
        var advance;
        advance, info1 := UnmapEntry(info1, root, f, i, to, vaddr, size, lvl);
        SweepingStep(s0, busy0, s, busy, View(info1), zone.busy, root, f, i, to, vaddr0, size0, vaddr, size, lvl,
                     advance);
        vaddr := Plus(vaddr, advance);
        size := size - advance;
        i := i + 1;
      }
      SweepingDone(s0, busy0, View(info1), zone.busy, root, f, to, vaddr0, size0, vaddr, size, lvl);
    }

    /** The body of that loop, and by how much the counters advance. */
    method UnmapEntry(ghost info: map<nat, Info>, ghost root: nat, f: nat, i: nat, ghost to: nat, vaddr: nat,
                      size: nat, lvl: nat)
      returns (advance: nat, ghost info1: map<nat, Info>)
      requires Ok() && User(View(info), root, LO, HI, zone.busy) && Others(View(info), zone.busy)
      requires f in info && info[f].lvl == lvl && Mine(View(info), f, i, LO, HI) && i < to
      requires Due(vaddr, size, i, to, lvl)
      modifies this, zone, zone.page
      ensures Ok() && zone.owner.Keys == old(zone.owner.Keys)
      ensures Swept(old(View(info)), old(zone.busy), View(info1), zone.busy, root, f)
      ensures advance <= size && Due(Plus(vaddr, advance), size - advance, i + 1, to, lvl)
      ensures UnmapLoop(old(mem), f, i, to, vaddr, size, lvl)
           == UnmapLoop(mem, f, i + 1, to, Plus(vaddr, advance), size - advance, lvl)
      ensures Counters(vaddr, size, to - i, lvl) ==>
                Counters(Plus(vaddr, advance), size - advance, to - i - 1, lvl)
                && EmptiedFrom(old(View(info)), View(info1), f, i, i + 1)
      decreases lvl, 0
    {
      hide UserTables.Ok, Sweeping, Swept, EmptiedFrom, Counters, Due, InOne, Even, UnmapLoop, UnmapFrom, User;
      hide Others, Mine, Leaf, Link, Valid, FreePages, TablesBusy, LeafOrder, Size, PtIndex, Chunk, Last, Plus;
      hide Cleared, Entry;
      ghost var s, busy := View(info), zone.busy;
      EntryStart(s, root, busy, f, i, to, vaddr, size, lvl);
      var tounmap := Chunk(vaddr, size, lvl);
      var pte := mem[f][i];
      advance, info1 := 0, info;
      if !pte.present {
        SweptStarts(s, busy, root, f);
        NoneEmptied(s, f, i);
      } else if lvl == 1 || pte.large {
        PresentLeaf(pte, lvl);
        FreeLeaf(info, root, f, i, lvl);
      } else {
        PresentLink(pte, lvl);
        ghost var c, child := TableStart(s, root, busy, f, i, to, vaddr, size, lvl);
        info1 := Unmap(info, root, pte.phys, vaddr, tounmap, lvl - 1);
        UnmappedTable(s.mem, f, i, to, vaddr, size, lvl, tounmap, mem);
        if tounmap == Size(lvl) {
          info1 := FreeTable(info1, root, f, i, pte.phys, s, busy);
        } else {
          SweptBelow(s, busy, View(info1), zone.busy, root, f, i, pte.phys);
        }
        advance := tounmap;
      }
    }

    /** The page-table half of mm_create: an empty user half below the kernel's entries. */
    method CreateRoot(kernel: seq<Pte>) returns (root: nat, ghost info: map<nat, Info>)
      requires Ok() && |kernel| == 512
      modifies this, zone, zone.page
      ensures Ok() && zone.owner.Keys == old(zone.owner.Keys)
      ensures root == 0 <==> old(zone.Free()) == {}
      ensures root == 0 ==> zone.busy == old(zone.busy) && mem == old(mem)
      ensures root != 0 ==>
                && root !in old(mem) && info == map[root := Info(4, 0)]
                && mem == old(mem)[root := seq(256, _ => ABSENT) + kernel[256..]]
                && TableBlock(root) !in old(zone.busy) && zone.busy == old(zone.busy) + {TableBlock(root)}
                && User(View(info), root, LO, HI, zone.busy) && Others(View(info), zone.busy)
                && Emptied(View(info), root, LO, HI) && Holds(View(info), LO, HI) == {TableBlock(root)}
    {
      hide Valid, FreePages, Aligned, Pow2, TablesBusy, User, Others, Emptied, Holds;
      ghost var busy, free := zone.busy, zone.Free();
      root := BuddyAlloc(0);
      info := map[root := Info(4, 0)];
      PageIsFree(free);
      if root != 0 {
        FreshTable(mem, busy, root);
        mem := mem[root := seq(512, _ => ABSENT)];
        var offs := PtIndex(HIGHER_BASE, 4);
        HigherIndex();
        assert seq(512, _ => ABSENT)[..256] == seq(256, _ => ABSENT);
        mem := mem[root := mem[root][..offs] + kernel[offs..]];
        TablesMore(old(mem), mem, busy, root);
        RootUser(old(mem), mem, root, busy, info);
      }
    }

    /** `__buddy_free(mm->pt, 0)` of an emptied root. */
    method FreeRoot(ghost info: map<nat, Info>, root: nat)
      requires Ok() && User(View(info), root, LO, HI, zone.busy) && Others(View(info), zone.busy)
      requires Emptied(View(info), root, LO, HI)
      modifies this, zone, zone.page
      ensures Ok() && zone.owner.Keys == old(zone.owner.Keys)
      ensures info.Keys == {root} && Holds(old(View(info)), LO, HI) == {TableBlock(root)}
      ensures zone.busy == old(zone.busy) - {TableBlock(root)} && mem == old(mem) - {root}
    {
      hide Valid, FreePages, Aligned, Pow2, TablesBusy, User, Others, Emptied, Holds;
      ghost var busy := zone.busy;
      RootAlone(View(info), busy, root);
      zone.FreeBlock(root / PAGE, 0);
      mem := mem - {root};
    }
  }

  lemma HigherIndex()
    ensures PtIndex(HIGHER_BASE, 4) == 256
  {}

  lemma PageIsFree(ps: set<nat>)
    ensures (exists h :: BuddyAllocator.FreeRun(ps, h, 0)) <==> ps != {}
  {
    if p: nat :| p in ps { assert BuddyAllocator.FreeRun(ps, p, 0); }
    if h :| BuddyAllocator.FreeRun(ps, h, 0) { HeadInBlock(Block(h, 0)); }
  }

  /** A fresh root is a space that holds one page and maps nothing. */
  lemma RootUser(before: Tables, mem: Tables, root: nat, busy: set<Block>, info: map<nat, Info>)
    requires TablesBusy(before, busy) && root !in before && root % PAGE == 0 && TableBlock(root) !in busy
    requires info == map[root := Info(4, 0)]
    requires mem.Keys == before.Keys + {root} && |mem[root]| == 512 && mem[root][..256] == seq(256, _ => ABSENT)
    ensures var s, busy1 := Space(mem, info), busy + {TableBlock(root)};
            && User(s, root, LO, HI, busy1) && Others(s, busy1) && Emptied(s, root, LO, HI)
            && Holds(s, LO, HI) == {TableBlock(root)}
  {
    hide TableBlock, LeafBlock, LeafOf;
    var s := Space(mem, info);
    forall f: nat, i: nat | Mine(s, f, i, LO, HI) ensures Entry(s, f, i) == ABSENT {
      assert mem[root][i] == mem[root][..256][i];
    }
    forall b ensures b in Holds(s, LO, HI) <==> b == TableBlock(root) { HoldsIn(s, LO, HI, b); }
  }

  /** An emptied root is the only table left, and only its page is still held. */
  lemma RootAlone(s: Space, busy: set<Block>, root: nat)
    requires User(s, root, LO, HI, busy) && Others(s, busy) && Emptied(s, root, LO, HI)
    ensures s.info.Keys == {root} && Holds(s, LO, HI) == {TableBlock(root)} && TableBlock(root) in busy
    ensures TablesBusy(s.mem - {root}, busy - {TableBlock(root)})
  {
    hide TableBlock, LeafBlock, LeafOf, Placed, Entry, Holds, Tree, LeavesHeld, HeldOnce, Size, Hung;
    forall g | g in s.info ensures g == root { NothingLeft(s, root, LO, HI, g); }
    RootIn(s, root);
    assert s.info.Keys == {root};
    forall b ensures b in Holds(s, LO, HI) <==> b == TableBlock(root) { OnlyRoot(s, root, b); }
  }

  lemma RootIn(s: Space, root: nat)
    requires Tree(s, root, LO, HI)
    ensures root in s.info
  {}

  lemma OnlyRoot(s: Space, root: nat, b: Block)
    requires s.info.Keys == {root} && Emptied(s, root, LO, HI)
    ensures b in Holds(s, LO, HI) <==> b == TableBlock(root)
  {
    hide TableBlock, LeafOf;
    HoldsIn(s, LO, HI, b);
  }

  lemma DropTableIs(s: Space, t: Space, f: nat, i: nat, child: nat)
    requires f in s.mem && i < |s.mem[f]|
    requires t == Space(s.mem[f := s.mem[f][i := ABSENT]] - {child}, s.info - {child})
    ensures t == DropTable(s, f, i, child)
  {}

  lemma PresentLeaf(pte: Pte, lvl: nat)
    requires pte.present && (lvl == 1 || pte.large)
    ensures Leaf(pte, lvl)
  {}

  lemma PresentLink(pte: Pte, lvl: nat)
    requires pte.present && !(lvl == 1 || pte.large)
    ensures Link(pte, lvl)
  {}

  // ---- what mapping leaves in place ----

  /** Every entry that was present is as it was. */
  ghost predicate Grown(s: Space, t: Space) {
    forall g, i :: Entry(s, g, i).present ==> Entry(t, g, i) == Entry(s, g, i)
  }

  lemma GrownSelf(s: Space)
    ensures Grown(s, s)
  {}

  lemma GrownTrans(s: Space, t: Space, u: Space)
    requires Grown(s, t) && Grown(t, u)
    ensures Grown(s, u)
  {
    hide Entry;
  }

  lemma GrownSet(s: Space, f: nat, i: nat, pte: Pte)
    requires f in s.mem && i < |s.mem[f]| && !s.mem[f][i].present
    ensures Grown(s, SetEntry(s, f, i, pte))
  {}

  lemma GrownAdd(s: Space, f: nat, i: nat, flags: nat, child: nat)
    requires f in s.info && f in s.mem && i < |s.mem[f]| && s.info[f].lvl >= 1 && !s.mem[f][i].present
    requires child !in s.mem
    ensures Grown(s, AddTable(s, f, i, flags, child))
  {
    hide Child;
  }

  // ---- the loop of __pt_unmap ----

  /** Where the loop over table `f` stands: entries before `i` are done, the counters are `v` and `n`. */
  ghost predicate Sweeping(s0: Space, busy0: set<Block>, s: Space, busy: set<Block>, root: nat, f: nat, i: nat, to: nat,
                           v0: nat, n0: nat, v: nat, n: nat, lvl: nat)
    requires f in s0.info
  {
    && PtIndex(v0, lvl) <= i <= to && Swept(s0, busy0, s, busy, root, f)
    && UnmapFrom(s0.mem, f, v0, n0, lvl) == UnmapLoop(s.mem, f, i, to, v, n, lvl)
    && (Even(v0, n0, lvl) ==> Counters(v, n, to - i, lvl) && EmptiedFrom(s0, s, f, PtIndex(v0, lvl), i))
    && Due(v, n, i, to, lvl) && s0.info[f].lvl == lvl && to <= 512 && (lvl == 4 ==> to <= HI)
  }

  lemma SweepingStarts(s: Space, busy: set<Block>, root: nat, f: nat, v: nat, n: nat, lvl: nat)
    requires User(s, root, LO, HI, busy) && Others(s, busy) && f in s.info && s.info[f].lvl == lvl && InOne(v, n, lvl)
    ensures n > 0 && PtIndex(v, lvl) <= PtIndex(Last(v, n), lvl)
    ensures Sweeping(s, busy, s, busy, root, f, PtIndex(v, lvl), PtIndex(Last(v, n), lvl) + 1, v, n, v, n, lvl)
  {
    TreeOf(s, root, busy);
    hide Swept, User, Others, Even, Counters, Due, InOne, UnmapLoop, UnmapFrom, EmptiedFrom, PtIndex, Last;
    DueStarts(v, n, lvl);
    UnmapFromIs(s.mem, f, v, n, lvl);
    SweptStarts(s, busy, root, f);
    EmptiedNone(s, f, PtIndex(v, lvl));
  }

  lemma SweepingFacts(s0: Space, busy0: set<Block>, s: Space, busy: set<Block>, root: nat, f: nat, i: nat, to: nat,
                      v0: nat, n0: nat, v: nat, n: nat, lvl: nat)
    requires f in s0.info && Sweeping(s0, busy0, s, busy, root, f, i, to, v0, n0, v, n, lvl) && i != to
    ensures User(s, root, LO, HI, busy) && Others(s, busy) && f in s.info && s.info[f].lvl == lvl
    ensures Mine(s, f, i, LO, HI) && i < to
    ensures Due(v, n, i, to, lvl)
  {
    hide Swept, User, Others, Even, Counters, Due, UnmapLoop, UnmapFrom, EmptiedFrom, PtIndex, SameRest, Kept, Mine;
    SweptParts(s0, busy0, s, busy, root, f);
    MineFrom(s, f, i, to);
  }

  lemma SweepingStep(s0: Space, busy0: set<Block>, s: Space, busy: set<Block>, t: Space, busy1: set<Block>,
                     root: nat, f: nat, i: nat, to: nat,
                     v0: nat, n0: nat, v: nat, n: nat, lvl: nat, m: nat)
    requires f in s0.info && Sweeping(s0, busy0, s, busy, root, f, i, to, v0, n0, v, n, lvl) && i != to && m <= n
    requires Due(Plus(v, m), n - m, i + 1, to, lvl) && f in s.info && Swept(s, busy, t, busy1, root, f)
    requires UnmapLoop(s.mem, f, i, to, v, n, lvl) == UnmapLoop(t.mem, f, i + 1, to, Plus(v, m), n - m, lvl)
    requires Counters(v, n, to - i, lvl) ==>
               Counters(Plus(v, m), n - m, to - i - 1, lvl) && EmptiedFrom(s, t, f, i, i + 1)
    ensures Sweeping(s0, busy0, t, busy1, root, f, i + 1, to, v0, n0, Plus(v, m), n - m, lvl)
  {
    hide Swept, User, Others, Even, Counters, Due, UnmapLoop, UnmapFrom, EmptiedFrom, PtIndex, SameRest, Kept, Mine;
    hide Plus;
    SweptTrans(s0, busy0, s, busy, t, busy1, root, f);
    if Even(v0, n0, lvl) { EmptiedMore(s0, s, t, f, PtIndex(v0, lvl), i, i + 1); }
  }

  lemma SweepingDone(s0: Space, busy0: set<Block>, s: Space, busy: set<Block>, root: nat, f: nat, to: nat,
                     v0: nat, n0: nat, v: nat, n: nat, lvl: nat)
    requires f in s0.info && Sweeping(s0, busy0, s, busy, root, f, to, to, v0, n0, v, n, lvl)
    ensures Swept(s0, busy0, s, busy, root, f) && s.mem == UnmapFrom(s0.mem, f, v0, n0, lvl)
    ensures Even(v0, n0, lvl) ==> EmptiedFrom(s0, s, f, PtIndex(v0, lvl), to)
  {
    hide Swept, Even, Counters, Due, UnmapLoop, UnmapFrom, EmptiedFrom, PtIndex;
    LastEntry(s.mem, f, to, v, n, lvl);
  }

  lemma TreeOf(s: Space, root: nat, busy: set<Block>)
    requires User(s, root, LO, HI, busy)
    ensures Tree(s, root, LO, HI)
  {}

  lemma EmptiedNone(s: Space, f: nat, i: nat)
    ensures EmptiedFrom(s, s, f, i, i)
  {}

  lemma NoneEmptied(s: Space, f: nat, i: nat)
    requires !Entry(s, f, i).present
    ensures EmptiedFrom(s, s, f, i, i + 1)
  {}

  /** What the loop body knows of its entry. */
  lemma EntryStart(s: Space, root: nat, busy: set<Block>, f: nat, i: nat, to: nat, v: nat, n: nat, lvl: nat)
    requires User(s, root, LO, HI, busy) && f in s.info && s.info[f].lvl == lvl && Mine(s, f, i, LO, HI) && i < to
    requires Due(v, n, i, to, lvl)
    ensures f in s.mem && |s.mem[f]| == 512 && i < 512 && 1 <= lvl <= 4 && n > 0 && v + n <= HALF && Plus(v, 0) == v
    ensures Entry(s, f, i) == s.mem[f][i]
    ensures Counters(v, n, to - i, lvl) ==> Counters(v, n, to - i - 1, lvl)
    ensures !s.mem[f][i].present ==> UnmapLoop(s.mem, f, i, to, v, n, lvl) == UnmapLoop(s.mem, f, i + 1, to, v, n, lvl)
    ensures Leaf(s.mem[f][i], lvl) ==>
              UnmapLoop(s.mem, f, i, to, v, n, lvl) == UnmapLoop(Cleared(s.mem, f, i), f, i + 1, to, v, n, lvl)
    ensures Due(v, n, i + 1, to, lvl)
  {
    hide *;
    TreeOf(s, root, busy);
    MineIndex(s, f, i, LO, HI);
    TreeRow(s, root, f);
    EntryCases(s, root, f, i);
    DueFacts(v, n, i, to, lvl);
    if Counters(v, n, to - i, lvl) { CountersNext(v, n, to - i, lvl); }
    UnmappedEntry(s.mem, f, i, to, v, n, lvl);
  }

  /** What it knows of the table under the entry. */
  lemma TableStart(s: Space, root: nat, busy: set<Block>, f: nat, i: nat, to: nat, v: nat, n: nat, lvl: nat)
    returns (c: nat, child: nat)
    requires User(s, root, LO, HI, busy) && f in s.info && s.info[f].lvl == lvl && Mine(s, f, i, LO, HI) && i < to
    requires Due(v, n, i, to, lvl)
    requires Link(Entry(s, f, i), lvl)
    ensures c == Chunk(v, n, lvl) && 0 < c <= n && child == Entry(s, f, i).phys
    ensures lvl > 1 && child in s.info && s.info[child].lvl == lvl - 1 && InOne(v, c, lvl - 1)
    ensures Due(Plus(v, c), n - c, i + 1, to, lvl)
    ensures c == Size(lvl) ==>
              Even(v, c, lvl - 1) && PtIndex(v, lvl - 1) == 0 && PtIndex(Last(v, c), lvl - 1) + 1 == 512
    ensures Counters(v, n, to - i, lvl) ==> c == Size(lvl) && Counters(Plus(v, c), n - c, to - i - 1, lvl)
  {
    hide *;
    child := Entry(s, f, i).phys;
    TreeOf(s, root, busy);
    MineIndex(s, f, i, LO, HI);
    TreeRow(s, root, f);
    EntryCases(s, root, f, i);
    LinkLeaf(Entry(s, f, i), lvl);
    RowPlaced(s, root, f);
    ChildLevel(s.info[f], i);
    DueFacts(v, n, i, to, lvl);
    c := DueNext(v, n, i, to, lvl);
    if Counters(v, n, to - i, lvl) {
      CountersNext(v, n, to - i, lvl);
      WholeChunk(v, n, lvl);
    }
    if c == Size(lvl) {
      WholeChunk(v, n, lvl);
      WholeEven(v, n, lvl);
    }
  }

  lemma TablesStay(mem: Tables, busy: set<Block>, more: set<Block>)
    requires TablesBusy(mem, busy) && busy <= more
    ensures TablesBusy(mem, more)
  {}

  lemma NotPageZero(z: Zone, h: nat, k: nat)
    requires BuddyAllocator.FreeRun(FreePages(z), h, k) && 0 !in z.owner
    ensures h > 0 && Aligned(h, k) && h * PAGE % PAGE == 0 && h * PAGE / PAGE == h && h in FreePages(z)
  {
    HeadInBlock(Block(h, k));
  }

  lemma FreshTable(mem: Tables, busy: set<Block>, phys: nat)
    requires TablesBusy(mem, busy) && phys % PAGE == 0 && TableBlock(phys) !in busy
    ensures phys !in mem
  {}

  lemma TablesMore(mem: Tables, more: Tables, busy: set<Block>, phys: nat)
    requires TablesBusy(mem, busy) && phys % PAGE == 0 && more.Keys == mem.Keys + {phys}
    ensures TablesBusy(more, busy + {TableBlock(phys)})
  {}

  lemma NoLeafLeft(ps: set<nat>)
    requires !(LeafOrder(1) <= MAX_ORDER && exists h :: BuddyAllocator.FreeRun(ps, h, LeafOrder(1)))
    ensures ps == {}
  {
    NoPageLeft(ps);
  }

  lemma NoPageLeft(ps: set<nat>)
    requires !exists h :: BuddyAllocator.FreeRun(ps, h, 0)
    ensures ps == {}
  {
    assert forall p: nat :: p in ps ==> BuddyAllocator.FreeRun(ps, p, 0);
  }

  lemma UserStarts(s: Space, root: nat, f: nat, virt: nat, size: nat, busy: set<Block>)
    requires User(s, root, LO, HI, busy) && f in s.info
    requires virt < W && 0 < size && PageAligned(virt % TOP) && PageAligned(size)
    requires InTable(s, LO, HI, f, virt % TOP, size) && Unmapped(s, f, virt % TOP, size)
    ensures var i, to := PtIndex(virt, s.info[f].lvl), PtIndex(Last(virt, size), s.info[f].lvl) + 1;
            i <= to && Loop(s, s, root, LO, HI, f, virt % TOP, size, Anywhere, 0, i)
    ensures Words(virt, size, 0, virt, size) && virt % TOP + size <= TOP && SameRest(s, busy, s, busy)
  {
    hide PtIndex, Loop, InTable, Unmapped, Words, Tree, Hung, TablesHeld, LeavesHeld, HeldOnce;
    LoopStarts(s, root, LO, HI, f, virt, size, Anywhere);
  }

  lemma TablesSame(mem: Tables, more: Tables, busy: set<Block>)
    requires TablesBusy(mem, busy) && more.Keys == mem.Keys
    ensures TablesBusy(more, busy)
  {}

  lemma LoopWide(s0: Space, s: Space, root: nat, f: nat, v: nat, size: nat, n: nat, i: nat)
    requires f in s0.info && Loop(s0, s, root, LO, HI, f, v, size, Anywhere, n, i)
    ensures Changed(s0, s, root, LO, HI, f, v, size)
  {
    hide *;
    LoopParts(s0, s, root, LO, HI, f, v, size, Anywhere, n, i);
    MapStateParts(s0, s, root, LO, HI, f, v, n, Anywhere);
    Widen(s0, s, root, f, v, n, size);
  }

  lemma LeafEntryOk(s: Space, f: nat, i: nat, pte: Pte)
    requires f in s.info && f in s.mem && i < |s.mem[f]| && 1 <= s.info[f].lvl <= 4
    requires pte.present && (pte.large <==> s.info[f].lvl in {2, 3}) && pte.phys % Size(s.info[f].lvl) == 0
    requires Leaf(pte, s.info[f].lvl)
    ensures EntryOk(SetEntry(s, f, i, pte), f, i)
  {}

  lemma LeafBlockIs(lvl: nat, pte: Pte)
    requires 1 <= lvl <= 4 && Aligned(pte.phys / PAGE, LeafOrder(lvl)) && pte.phys % PAGE == 0
    ensures pte.phys % Size(lvl) == 0 && LeafBlock(pte, lvl) == Block(pte.phys / PAGE, LeafOrder(lvl))
  {
    hide Size, Aligned;
    LeafAddress(pte.phys / PAGE, lvl);
  }

  /** The leaf branch of the loop body. */
  lemma EntryLeaf(s0: Space, busy0: set<Block>, s: Space, busy: set<Block>, root: nat, f: nat, v: nat, size: nat,
                  n: nat, i: nat, m: nat, pte: Pte)
    requires f in s0.info && Loop(s0, s, root, LO, HI, f, v, size, Anywhere, n, i) && n < size
    requires m == Min(size - n, Size(s0.info[f].lvl) - (v + n) % Size(s0.info[f].lvl))
    requires User(s, root, LO, HI, busy) && SameRest(s0, busy0, s, busy) && !Entry(s, f, i).present
    requires s0.info[f].lvl == 1 || (m == Size(s0.info[f].lvl) && s0.info[f].lvl in {2, 3})
    requires pte.present && (pte.large <==> s0.info[f].lvl in {2, 3}) && pte.phys % PAGE == 0
    requires Aligned(pte.phys / PAGE, LeafOrder(s0.info[f].lvl))
    requires Block(pte.phys / PAGE, LeafOrder(s0.info[f].lvl)) !in busy
    ensures f in s.mem && i < |s.mem[f]|
    ensures Loop(s0, SetEntry(s, f, i, pte), root, LO, HI, f, v, size, Anywhere, n + m, i + 1)
    ensures var b := Block(pte.phys / PAGE, LeafOrder(s0.info[f].lvl));
            User(SetEntry(s, f, i, pte), root, LO, HI, busy + {b})
            && SameRest(s0, busy0, SetEntry(s, f, i, pte), busy + {b})
    ensures Changed(s0, SetEntry(s, f, i, pte), root, LO, HI, f, v, size)
  {
    hide *;
    LoopChunk(s0, s, root, LO, HI, f, v, size, Anywhere, n, i, m);
    MineIndex(s, f, i, LO, HI);
    LeafBlockIs(s0.info[f].lvl, pte);
    LeafSize(s0.info[f].lvl, m, pte);
    LoopLeaf(s0, s, root, LO, HI, f, v, size, Anywhere, n, i, m, pte);
    LoopWide(s0, SetEntry(s, f, i, pte), root, f, v, size, n + m, i + 1);
    LeafEntryOk(s, f, i, pte);
    HoldsBusy(s, root, LO, HI, busy);
    AddLeaf(s, root, LO, HI, busy, f, i, pte);
    RestGrows(s0, busy0, s, busy, SetEntry(s, f, i, pte), LeafBlock(pte, s.info[f].lvl));
  }

  /** The table branch of the loop body. */
  lemma EntryTable(s0: Space, busy0: set<Block>, s: Space, busy: set<Block>, root: nat, f: nat, v: nat, size: nat,
                   n: nat, i: nat, child: nat)
    requires f in s0.info && Loop(s0, s, root, LO, HI, f, v, size, Anywhere, n, i) && n < size && s0.info[f].lvl > 1
    requires User(s, root, LO, HI, busy) && SameRest(s0, busy0, s, busy) && !Entry(s, f, i).present
    requires child % PAGE == 0 && child !in s.mem && TableBlock(child) !in busy
    ensures f in s.info && f in s.mem && i < |s.mem[f]| && s.info[f].lvl >= 1
    ensures var t := AddTable(s, f, i, PDE_FLAGS, child);
            && Loop(s0, t, root, LO, HI, f, v, size, Anywhere, n, i) && child in t.info
            && User(t, root, LO, HI, busy + {TableBlock(child)}) && SameRest(s0, busy0, t, busy + {TableBlock(child)})
  {
    hide *;
    IsPageAligned(child);
    LoopTable(s0, s, root, LO, HI, f, v, size, Anywhere, n, i, PDE_FLAGS, child);
    LoopParts(s0, s, root, LO, HI, f, v, size, Anywhere, n, i);
    MapStateParts(s0, s, root, LO, HI, f, v, n, Anywhere);
    MineHere(s, s0, LO, HI, f, v, size, n, i);
    HoldsBusy(s, root, LO, HI, busy);
    AddTableUser(s, root, LO, HI, busy, f, i, PDE_FLAGS, child);
    RestGrows(s0, busy0, s, busy, AddTable(s, f, i, PDE_FLAGS, child), TableBlock(child));
  }

  lemma IsPageAligned(x: nat)
    requires x % PAGE == 0
    ensures PageAligned(x)
  {}

  /** What the recursive call leaves, whether it succeeded or ran out of frames. */
  lemma EntryChild(s0: Space, busy0: set<Block>, s: Space, busy: set<Block>, t: Space, busy1: set<Block>, root: nat,
                   f: nat, v: nat, size: nat, n: nat, i: nat, m: nat)
    requires f in s0.info && Loop(s0, s, root, LO, HI, f, v, size, Anywhere, n, i) && n < size
    requires m == Min(size - n, Size(s0.info[f].lvl) - (v + n) % Size(s0.info[f].lvl))
    requires Entry(s, f, i).present && Entry(s, f, i).phys in s.info
    requires Changed(s, t, root, LO, HI, Entry(s, f, i).phys, v + n, m)
    requires SameRest(s0, busy0, s, busy) && SameRest(s, busy, t, busy1)
    ensures SameRest(s0, busy0, t, busy1) && Changed(s0, t, root, LO, HI, f, v, size)
  {
    hide *;
    LoopDown(s0, s, root, LO, HI, f, v, size, Anywhere, n, i, m);
    LoopChunk(s0, s, root, LO, HI, f, v, size, Anywhere, n, i, m);
    LoopParts(s0, s, root, LO, HI, f, v, size, Anywhere, n, i);
    MapStateParts(s0, s, root, LO, HI, f, v, n, Anywhere);
    ChildStep(s, t, root, LO, HI, f, i, Entry(s, f, i).phys, v + n, m);
    ChangedTrans(s0, s, t, root, LO, HI, f, v, n, m);
    Widen(s0, t, root, f, v, n + m, size);
    RestTrans(s0, busy0, s, busy, t, busy1);
  }
}
