/** A failed mmap that takes a region away: the call, and a space it can meet. */
module MmFails {
  import opened BuddyZone
  import opened Paging
  import opened MapLoop
  import opened UserTree
  import opened UserSweep
  import opened UnmapRange
  import opened UnmapPair
  import opened UserFrames
  import opened UserMap
  import opened Vmas
  import opened Regions
  import opened Rollback
  import opened Mm

  /** With no page free, the tables over `from` all there and a region above, mmap fails and
      regions and tables no longer agree. */
  method FailedMmap(mm: Mm, from: nat, to: nat, perm: nat) returns (r: Result)
    requires mm.Ok() && mm.tables.zone.Free() == {} && Tabled(mm.tables.mem, mm.root, from, 4)
    requires from < to <= HALF && PageAligned(from) && PageAligned(to) && EndsAbove(mm.vmas, from) < |mm.vmas|
    requires forall i :: 0 <= i < |mm.vmas| ==> !Overlaps(mm.vmas[i], from, to)
    modifies mm`vmas, mm`info, mm.tables, mm.tables.zone, mm.tables.zone.page
    ensures r.NoMemory? && mm.Held() && mm.vmas == old(mm.vmas) && !mm.Ok()
  {
    hide Mm.Held, Mm.Ok, Valid, FreePages, UserTables.Ok, Tabled, EndsAbove, BackFrom, Overlaps, Spent, PageAligned;
    hide OnlyWithin, Untouched, SameRest, User, UnmapFrom, Insert;
    UserRange(from, to);
    ghost var mid, peak;
    r, mid, peak := mm.Mmap(from, to, perm, true);
  }

  lemma UserRange(from: nat, to: nat)
    requires from < to <= HALF
    ensures from % TOP == from && to % TOP == to && to < W && to <= HIGHER_BASE
  {}

  /** A space with one page at 8K, and no page free. */
  lemma MmapBreaks()
    ensures var s, list := Pair(0x2000, 0x2000), [Vma(0x2000, 0x3000, 3)];
            && Lives(Ten(), s, ROOT, list) && FreePages(Ten()) == {} && Tabled(s.mem, ROOT, 0x1000, 4)
            && !Overlaps(list[0], 0x1000, 0x2000) && EndsAbove(list, 0x1000) < |list|
            && BackFrom(list, 0x1000) == 0x2000
            && var t := Space(UnmapFrom(s.mem, ROOT, 0x2000, HALF - 0x2000, 4), s.info);
            Mapped(list, 0x2000) && Translate(t, ROOT, 0x2000) == None && !Backed(t, ROOT, list)
  {
    hide Pair, Ten, Lives, FreePages, Tabled, UnmapFrom, Mapped, Translate, Backed;
    var s, list := Pair(0x2000, 0x2000), [Vma(0x2000, 0x3000, 3)];
    PairLives(0x2000, 0x2000);
    TenValid();
    PairTabled();
    RollbackLoses(Ten(), s, ROOT, list, 0, 0x1000, 0x2000,
                  Space(UnmapFrom(s.mem, ROOT, 0x2000, HALF - 0x2000, 4), s.info));
  }

  lemma PairTabled()
    ensures Tabled(Pair(0x2000, 0x2000).mem, ROOT, 0x1000, 4)
  {
    var a: nat := 0x2000;
    PairLink(a, a, 4, a);
    PairLink(a, a, 3, a);
    PairLink(a, a, 2, a);
    FramePlace(a, a, 4, a);
    assert forall l :: 2 <= l <= 4 ==> PtIndex(a, l) == PtIndex(0x1000, l);
    hide Pair, Frame, Place, PtIndex;
  }
}
