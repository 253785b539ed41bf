/** The life of a process address space: created, mapped into and released, it gives back
    to the zone exactly the pages and the blocks it found. */
module MmRun {
  import opened Bits
  import opened BuddyZone
  import BuddyAllocator
  import opened Paging
  import opened MapLoop
  import opened UserTree
  import opened UserSweep
  import opened UserMap
  import opened UnmapRange
  import opened UnmapFilled
  import opened Regions
  import opened Rollback
  import opened Mm
  import opened Vmas

  /** The held blocks and the pages ever given to a zone determine its free pages. */
  lemma BusyDecides(y: Zone, z: Zone)
    requires Valid(y) && Valid(z) && y.owner.Keys == z.owner.Keys && y.busy == z.busy
    ensures FreePages(y) == FreePages(z)
  {
    hide Pow2, Aligned, Xor, Coalesced, HolesClean;
    forall p ensures p in FreePages(y) <==> p in FreePages(z) {
      if p in y.owner && y.owner[p] in y.busy { assert Whole(z, y.owner[p]) && InBlock(p, y.owner[p]); }
      if p in z.owner && z.owner[p] in z.busy { assert Whole(y, z.owner[p]) && InBlock(p, z.owner[p]); }
    }
  }

  /** An mmap call, before its own checks, or a munmap call. */
  datatype Request = Map(from: nat, to: nat, perm: nat, node: bool) | Cut(from: nat, to: nat)

  predicate WellFormed(q: Request) {
    match q
    case Map(from, to, _, _) =>
      from < W && to < W && (to <= HIGHER_BASE ==> PageAligned(from % TOP) && PageAligned(to % TOP) && to % TOP <= HALF)
    case Cut(from, to) => from < to <= HALF
  }

  /** Between creation and release: outside the space nothing has changed. */
  ghost predicate Living(mm: Mm, mem: Tables, busy: set<Block>)
    reads mm, mm.tables, mm.tables.zone, mm.tables.zone.page
  {
    && mm.Held() && mm.Busy() - Holds(mm.View(), LO, HI) == busy
    && mm.tables.mem.Keys - mm.info.Keys == mem.Keys
    && forall f :: f in mem ==> f in mm.tables.mem && f !in mm.info && mm.tables.mem[f] == mem[f]
  }

  lemma StillLiving(mm: Mm, mem: Tables, busy: set<Block>, s: Space, busy0: set<Block>)
    requires mm.Held() && Untouched(s, mm.View(), mm.root) && SameRest(s, busy0, mm.View(), mm.Busy())
    requires busy0 - Holds(s, LO, HI) == busy && s.mem.Keys - s.info.Keys == mem.Keys
    requires forall f :: f in mem ==> f in s.mem && f !in s.info && s.mem[f] == mem[f]
    ensures Living(mm, mem, busy)
  {
    hide Mm.Held, Holds, Entry;
  }

  /** One call; `ok` says whether regions and tables still agree. */
  method Serve(mm: Mm, q: Request) returns (ok: bool, hung: bool)
    requires mm.Ok() && WellFormed(q)
    modifies mm`vmas, mm`info, mm.tables, mm.tables.zone, mm.tables.zone.page
    ensures hung ==> mm.tables.zone.Free() == {}
    ensures mm.tables.zone.owner.Keys == old(mm.tables.zone.owner.Keys)
    ensures !hung ==> mm.Held() && (ok <==> mm.Ok())
    ensures !hung ==> Untouched(old(mm.View()), mm.View(), mm.root)
                      && SameRest(old(mm.View()), old(mm.Busy()), mm.View(), mm.Busy())
  {
    hide Mm.Held, Mm.Ok, Holds, Untouched, SameRest, OnlyWithin, Overlaps, Valid, FreePages, UserTables.Ok, Insert;
    hide PageAligned, Straddled, Without, Gap, Filled, Spent, Tabled, UnmapFrom, BackFrom, EndsAbove, User, Emptied;
    LivingHeld(mm);
    match q {
      case Map(from, to, perm, node) =>
        ghost var mid, peak;
        var r;
        r, mid, peak := mm.Mmap(from, to, perm, node);
        ok, hung := !(r.NoMemory? && node && EndsAbove(mm.vmas, from % TOP) < |mm.vmas|), r.Halted?;
        if !hung { LivingHeld(mm); }
      case Cut(from, to) =>
        var (low, high) := Gap(mm.vmas, from, to);
        ok, hung := Straddled(mm.vmas, from, to) || Filled(mm.tables.mem, mm.root, low, high, 4), false;
        var cut := mm.Munmap(from, to);
    }
  }

  /** mm_create, any number of mmap and munmap calls, refused and failed ones among them, as long
      as regions and tables agree, mm_release. */
  method CreateMapRelease(tables: UserTables, ram: array<byte>, kernel: seq<Pte>, requests: seq<Request>)
    returns (hung: bool)
    requires tables.Ok() && tables.zone.end * PAGE <= ram.Length && |kernel| == 512
    requires forall i :: 0 <= i < |requests| ==> WellFormed(requests[i])
    modifies tables, tables.zone, tables.zone.page
    ensures hung ==> tables.zone.Free() == {}
    ensures !hung ==> tables.Ok() && tables.mem == old(tables.mem)
    ensures !hung ==> tables.zone.busy == old(tables.zone.busy) && tables.zone.Free() == old(tables.zone.Free())
    ensures !hung ==> |tables.zone.order| == MAX_ORDER + 1 == |old(tables.zone.order)|
    ensures !hung ==> forall k, h :: 0 <= k <= MAX_ORDER ==>
                                       (h in tables.zone.order[k] <==> h in old(tables.zone.order)[k])
  {
    hide Mm.Held, Mm.Ok, Holds, Untouched, SameRest, OnlyWithin, Overlaps, Valid, FreePages, UserTables.Ok, Insert;
    hide WellFormed;
    ghost var z, mem, busy := tables.zone.View(), tables.mem, tables.zone.busy;
    TablesZone(tables);
    var mm := Create(tables, ram, kernel);
    TablesZone(tables);
    hung := false;
    if mm != null {
      FreshLiving(mm, mem, busy);
      var i := 0;
      while i < |requests|
        invariant 0 <= i <= |requests| && mm.Ok() && Living(mm, mem, busy)
        invariant mm.tables == tables && tables.zone.owner.Keys == old(tables.zone.owner.Keys)
      {
        var q := requests[i];
        ghost var s, busy0 := mm.View(), mm.Busy();
        var ok;
        ok, hung := Serve(mm, q);
        if hung { return; }
        LivingHeld(mm);
        StillLiving(mm, mem, busy, s, busy0);
        if !ok { break; }
        i := i + 1;
      }
      LivingIs(mm, mem, busy);
      mm.Release();
      assert tables.mem == mem;
    }
    TablesZone(tables);
    BusyDecides(z, tables.zone.View());
    BuddyAllocator.Confluence(z, tables.zone.View());
  }

  lemma TablesZone(tables: UserTables)
    requires tables.Ok()
    ensures Valid(tables.zone.View()) && |tables.zone.order| == MAX_ORDER + 1
    ensures FreePages(tables.zone.View()) == tables.zone.Free()
  {}

  lemma FreshLiving(mm: Mm, mem: Tables, busy: set<Block>)
    requires mm.Ok() && mm.info == map[mm.root := Info(4, 0)] && mm.root !in mem
    requires mm.tables.mem.Keys == mem.Keys + {mm.root}
    requires forall f :: f in mem ==> mm.tables.mem[f] == mem[f]
    requires mm.Busy() - Holds(mm.View(), LO, HI) == busy
    ensures Living(mm, mem, busy)
  {
    hide Mm.Held, Holds;
  }

  lemma LivingHeld(mm: Mm)
    requires mm.Ok() || mm.Held()
    ensures mm.Held()
  {
    hide User, Others, Sorted, UserTables.Ok, Backed, LeavesIn;
  }

  lemma LivingIs(mm: Mm, mem: Tables, busy: set<Block>)
    requires Living(mm, mem, busy)
    ensures mm.Held() && mm.Busy() - Holds(mm.View(), LO, HI) == busy && mm.tables.mem.Keys - mm.info.Keys == mem.Keys
    ensures forall f :: f in mem ==> f in mm.tables.mem && f !in mm.info && mm.tables.mem[f] == mem[f]
  {
    hide Mm.Held, Holds;
  }
}
