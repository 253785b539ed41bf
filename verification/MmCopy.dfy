/** mm_copy: the copy has the same regions and, at every mapped address, the same byte, on
    frames of its own; and the run of a process gives back every block it took. */
module MmCopy {
  import opened Bits
  import opened BuddyZone
  import opened Paging
  import opened MapLoop
  import opened UserTree
  import opened UserSweep
  import opened UserFrames
  import opened ByteCopy
  import opened Vmas
  import opened Regions
  import opened UnmapRange
  import opened UnmapFilled
  import opened Rollback
  import opened Mm
  import opened Access

  ghost predicate Image(t: Space, top: nat, p: nat) {
    exists a: nat :: a < HALF && Translate(t, top, a) == Some(p)
  }

  /** In the regions of `list` space `t` now shows the bytes `s` showed, and no byte outside
      the frames of `t` changed. */
  ghost predicate Mirror(ram0: seq<byte>, ram: seq<byte>, t: Space, top: nat, s: Space, root: nat, list: seq<Vma>) {
    && |ram| == |ram0|
    && (forall a: nat :: a < HALF && Mapped(list, a) ==>
                           CopiedByte(ram0, ram, Translate(t, top, a), Translate(s, root, a)))
    && (forall p: nat :: p < |ram| && !Image(t, top, p) ==> ram[p] == ram0[p])
  }

  ghost predicate SameTranslation(s: Space, t: Space, root: nat) {
    forall a: nat :: a < HALF ==> Translate(t, root, a) == Translate(s, root, a)
  }

  lemma MirrorStarts(ram: seq<byte>, t: Space, top: nat, s: Space, root: nat)
    ensures Mirror(ram, ram, t, top, s, root, [])
  {
    hide Translate;
  }

  ghost predicate Clear(list: seq<Vma>, v: Vma) {
    forall a: nat :: Mapped(list, a) ==> !(v.begin <= a < v.end)
  }

  /** Mapping a further region leaves the mirror of the earlier ones alone. */
  lemma MirrorMap(ram0: seq<byte>, ram: seq<byte>, t: Space, t1: Space, top: nat, s: Space, s1: Space, root: nat,
                  list: seq<Vma>, v: Vma)
    requires Mirror(ram0, ram, t, top, s, root, list) && OnlyWithin(t, t1, top, v.begin, v.end) && Backed(t, top, list)
    requires Clear(list, v) && SameTranslation(s, s1, root)
    ensures Mirror(ram0, ram, t1, top, s1, root, list)
  {
    hide Translate, Mapped;
    forall a: nat | a < HALF && Mapped(list, a)
      ensures CopiedByte(ram0, ram, Translate(t1, top, a), Translate(s1, root, a)) {
      assert CopiedByte(ram0, ram, Translate(t, top, a), Translate(s, root, a));
    }
    forall p: nat | p < |ram| && !Image(t1, top, p) ensures ram[p] == ram0[p] {
      if Image(t, top, p) { ImageStays(t, t1, top, list, v, p); }
    }
  }

  lemma ImageStays(t: Space, t1: Space, top: nat, list: seq<Vma>, v: Vma, p: nat)
    requires OnlyWithin(t, t1, top, v.begin, v.end) && Backed(t, top, list) && Clear(list, v)
    requires Image(t, top, p)
    ensures Image(t1, top, p)
  {
    hide Translate, Mapped;
    var a: nat :| a < HALF && Translate(t, top, a) == Some(p);
    assert Mapped(list, a);
    assert Translate(t1, top, a) == Some(p);
  }

  /** Copying the bytes of a region extends the mirror to it. */
  lemma MirrorCopy(ram0: seq<byte>, ram: seq<byte>, ram1: seq<byte>, t: Space, top: nat, s: Space, root: nat,
                   list: seq<Vma>, v: Vma)
    requires Mirror(ram0, ram, t, top, s, root, list) && v.begin <= v.end <= HALF && Clear(list, v)
    requires Copied(ram, ram1, t, top, v.begin, s, root, v.begin, v.end - v.begin)
    requires OneToOne(t, top) && NoShare(t, top, s, root)
    ensures Mirror(ram0, ram1, t, top, s, root, list + [v])
  {
    hide Translate, Mapped, OneToOne, NoShare, Image, Target, CopiedByte;
    forall a: nat | a < HALF && Mapped(list + [v], a)
      ensures CopiedByte(ram0, ram1, Translate(t, top, a), Translate(s, root, a)) {
      MappedLast(list, v, a);
      if Mapped(list, a) {
        MirrorOld(ram0, ram, ram1, t, top, s, root, v, a);
      } else {
        MirrorNew(ram0, ram, ram1, t, top, s, root, v, a);
      }
    }
    forall p: nat | p < |ram| && !Image(t, top, p) ensures ram1[p] == ram0[p] {
      assert ram[p] == ram0[p];
      NotTarget(t, top, v.begin, v.end - v.begin, p);
    }
  }

  lemma MappedLast(list: seq<Vma>, v: Vma, a: nat)
    ensures Mapped(list + [v], a) <==> Mapped(list, a) || v.begin <= a < v.end
  {
    var t := list + [v];
    if Mapped(list, a) {
      var i :| 0 <= i < |list| && list[i].begin <= a < list[i].end;
      assert t[i] == list[i];
    }
    assert t[|list|] == v;
  }

  lemma NotTarget(t: Space, top: nat, to: nat, n: nat, p: nat)
    requires !Image(t, top, p) && to + n <= HALF
    ensures !Target(t, top, to, n, p)
  {
    hide Translate;
    forall k: nat | k < n ensures At(t, top, to, k) != Some(p) {
      assert Translate(t, top, to + k) != Some(p);
    }
  }

  lemma MirrorOld(ram0: seq<byte>, ram: seq<byte>, ram1: seq<byte>, t: Space, top: nat, s: Space, root: nat, v: Vma,
                  a: nat)
    requires CopiedByte(ram0, ram, Translate(t, top, a), Translate(s, root, a)) && OneToOne(t, top)
    requires a < HALF && v.begin <= v.end <= HALF && !(v.begin <= a < v.end)
    requires Copied(ram, ram1, t, top, v.begin, s, root, v.begin, v.end - v.begin)
    ensures CopiedByte(ram0, ram1, Translate(t, top, a), Translate(s, root, a))
  {
    hide Translate, OneToOne;
    var p := Translate(t, top, a).value;
    forall k: nat | k < v.end - v.begin ensures At(t, top, v.begin, k) != Some(p) {
      Differ(t, top, a, v.begin + k);
    }
    assert !Target(t, top, v.begin, v.end - v.begin, p);
  }

  lemma MirrorNew(ram0: seq<byte>, ram: seq<byte>, ram1: seq<byte>, t: Space, top: nat, s: Space, root: nat, v: Vma,
                  a: nat)
    requires |ram| == |ram0| && (forall p: nat :: p < |ram| && !Image(t, top, p) ==> ram[p] == ram0[p])
    requires v.begin <= a < v.end <= HALF && NoShare(t, top, s, root)
    requires Copied(ram, ram1, t, top, v.begin, s, root, v.begin, v.end - v.begin)
    ensures CopiedByte(ram0, ram1, Translate(t, top, a), Translate(s, root, a))
  {
    hide Translate, NoShare;
    var k := a - v.begin;
    assert CopiedByte(ram, ram1, At(t, top, v.begin, k), At(s, root, v.begin, k));
    NotImage(t, top, s, root, a);
  }

  lemma NotImage(t: Space, top: nat, s: Space, root: nat, a: nat)
    requires NoShare(t, top, s, root) && a < HALF && Translate(s, root, a).Some?
    ensures !Image(t, top, Translate(s, root, a).value)
  {
    hide Translate, NoShare;
    var p := Translate(s, root, a).value;
    forall b: nat | b < HALF ensures Translate(t, top, b) != Some(p) {
      if Translate(t, top, b).Some? { DifferAcross(t, top, s, root, b, a); }
    }
  }

  /** The mirrored space still shows its own bytes. */
  lemma SourceBytes(ram0: seq<byte>, ram: seq<byte>, t: Space, top: nat, s: Space, root: nat, list: seq<Vma>, a: nat)
    requires Mirror(ram0, ram, t, top, s, root, list) && NoShare(t, top, s, root) && a < HALF
    ensures SourceByte(ram0, ram, Translate(s, root, a))
  {
    hide Translate, NoShare, Image;
    if Translate(s, root, a).Some? { NotImage(t, top, s, root, a); }
  }

  predicate SourceByte(ram0: seq<byte>, ram: seq<byte>, q: Option<nat>) {
    |ram| == |ram0| && (q.Some? && q.value < |ram| ==> ram[q.value] == ram0[q.value])
  }

  // ---- one space while its neighbour changes ----

  /** What a change confined to space `t` leaves of a space `s` that holds other blocks. */
  lemma NeighbourStays(s: Space, root: nat, t: Space, top: nat, s1: Space, t1: Space, busy: set<Block>,
                       busy1: set<Block>)
    requires s.mem == t.mem && s1.mem == t1.mem && s1.info == s.info
    requires User(s, root, LO, HI, busy) && Others(s, busy) && User(t, top, LO, HI, busy)
    requires Holds(s, LO, HI) !! Holds(t, LO, HI)
    requires User(t1, top, LO, HI, busy1) && Others(t1, busy1) && Untouched(t, t1, top) && SameRest(t, busy, t1, busy1)
    ensures User(s1, root, LO, HI, busy1) && Others(s1, busy1) && SameTranslation(s, s1, root)
    ensures Holds(s1, LO, HI) == Holds(s, LO, HI) && Holds(s1, LO, HI) !! Holds(t1, LO, HI)
    ensures forall g :: g in s.info ==> g in s1.mem && g in s.mem && s1.mem[g] == s.mem[g]
  {
    hide Translate, TableBlock, Tree, Hung, LeavesHeld, HeldOnce, Entry, Holds;
    HoldsBusy(s, root, LO, HI, busy);
    forall b | b in Holds(s, LO, HI) ensures b in busy1 - Holds(t1, LO, HI) { assert b in busy - Holds(t, LO, HI); }
    forall g | g in s.info ensures g in s1.mem && g in s.mem && s1.mem[g] == s.mem[g] && g !in t.info && g !in t1.info {
      TableOf(s, root, busy, g);
      if g in t.info { TableOf(t, top, busy, g); }
    }
    SpaceSame(s, s1, root, busy, busy1);
    forall g | g in s1.mem && g !in s1.info ensures g % PAGE == 0 && TableBlock(g) in busy1 - Holds(s1, LO, HI) {
      if g in t1.info { TableOf(t1, top, busy1, g); } else { assert g in t.mem.Keys - t.info.Keys; }
    }
  }

  lemma TableOf(s: Space, root: nat, busy: set<Block>, g: nat)
    requires User(s, root, LO, HI, busy) && g in s.info
    ensures g in s.mem && g % PAGE == 0 && TableBlock(g) in Holds(s, LO, HI) && TableBlock(g) in busy
  {
    hide TableBlock, Hung, LeavesHeld, HeldOnce, EntriesOk, Holds;
    HoldsIn(s, LO, HI, TableBlock(g));
  }

  // ---- mm_copy ----

  /** Where the loop over the source's regions stands after the regions of `list`. */
  ghost predicate Copying(dst: Mm, src: Mm, s0: Space, ram0: seq<byte>, list: seq<Vma>)
    reads dst, src, dst.tables, dst.tables.zone, dst.tables.zone.page, src.tables, src.tables.zone,
          src.tables.zone.page, dst.ram
  {
    && dst.Ok() && src.Ok() && Apart(dst, src) && dst.vmas == list
    && SameTranslation(s0, src.View(), src.root)
    && Mirror(ram0, dst.ram[..], dst.View(), dst.root, src.View(), src.root, list)
  }

  lemma NextRegion(list: seq<Vma>, i: nat)
    requires Sorted(list) && i < |list|
    ensures var v := list[i];
            && v.begin < v.end <= HALF < HIGHER_BASE < W && v.begin % TOP == v.begin && v.end % TOP == v.end
            && PageAligned(v.begin) && PageAligned(v.end)
            && Clear(list[..i], v) && (forall j :: 0 <= j < i ==> !Overlaps(list[..i][j], v.begin, v.end))
            && (forall k :: 0 <= k <= i && Sorted(Insert(list[..i], k, v)) ==> k == i)
            && list[..i + 1] == list[..i] + [v] && Insert(list[..i], i, v) == list[..i] + [v]
  {
    hide PageAligned;
    var v, done := list[i], list[..i];
    assert PageAligned(v.begin) && PageAligned(v.end);
    forall k | 0 <= k <= i && Sorted(Insert(done, k, v)) ensures k == i {
      if k < i {
        InsertBefore(done, k, v);
      }
    }
  }

  lemma NoneFollows(list: seq<Vma>, i: nat)
    requires Sorted(list) && i < |list|
    ensures EndsAbove(list[..i], list[i].begin) == |list[..i]|
  {
    hide PageAligned;
    PlaceAbove(list[..i], list[i].begin, i);
  }

  lemma SpentParts(s: Space, busy: set<Block>, mid: Space, peak: set<Block>, root: nat, from: nat, to: nat,
                   pages: set<nat>)
    ensures Spent(s, busy, mid, peak, root, from, to, pages) ==> User(mid, root, LO, HI, peak) && AllHeld(pages, peak)
  {
    hide User, SameRest, OnlyWithin, AllHeld;
  }

  lemma Narrower(s: Space, t: Space, root: nat, from: nat, to: nat)
    ensures OnlyWithin(s, t, root, from, from) ==> OnlyWithin(s, t, root, from, to)
  {
    hide Translate;
  }

  lemma InsertBefore(list: seq<Vma>, k: nat, v: Vma)
    requires k < |list| && Sorted(list) && Sorted(Insert(list, k, v))
    ensures v.end <= list[k].begin < list[k].end
  {
    hide PageAligned;
    var t := Insert(list, k, v);
    assert t[k] == v && t[k + 1] == list[k];
  }

  /** The values of `Copying` before a call. */
  ghost predicate Pair(s0: Space, ram0: seq<byte>, ram: seq<byte>, s: Space, root: nat, regions: seq<Vma>,
                       t: Space, top: nat, list: seq<Vma>, busy: set<Block>) {
    && s.mem == t.mem && User(s, root, LO, HI, busy) && Others(s, busy) && User(t, top, LO, HI, busy)
    && Holds(s, LO, HI) !! Holds(t, LO, HI)
    && Backed(s, root, regions) && LeavesIn(s, regions) && LinksOpen(s) && Sorted(regions) && Backed(t, top, list)
    && SameTranslation(s0, s, root)
    && Mirror(ram0, ram, t, top, s, root, list)
  }

  lemma CopyingPair(dst: Mm, src: Mm, s0: Space, ram0: seq<byte>, list: seq<Vma>)
    requires Copying(dst, src, s0, ram0, list)
    ensures Pair(s0, ram0, dst.ram[..], src.View(), src.root, src.vmas, dst.View(), dst.root, list, dst.Busy())
  {
    hide User, Others, Sorted, Holds, Mirror, Backed, LeavesIn, LinksOpen, Valid, TablesBusy, SameTranslation;
  }

  /** What a successful mmap in the copy keeps for both spaces. */
  lemma RegionMapped(dst: Mm, src: Mm, s0: Space, ram0: seq<byte>, s: Space, t: Space, list: seq<Vma>,
                     busy: set<Block>, v: Vma)
    requires Pair(s0, ram0, dst.ram[..], s, src.root, src.vmas, t, dst.root, list, busy) && Clear(list, v)
    requires dst.Held() && src.info == s.info && dst != src && dst.tables == src.tables && dst.ram == src.ram
    requires OnlyWithin(t, dst.View(), dst.root, v.begin, v.end)
    requires Untouched(t, dst.View(), dst.root) && SameRest(t, busy, dst.View(), dst.Busy())
    ensures src.Ok() && Apart(dst, src) && SameTranslation(s0, src.View(), src.root)
    ensures Mirror(ram0, dst.ram[..], dst.View(), dst.root, src.View(), src.root, list)
  {
    hide User, Others, Sorted, Holds, Translate, Mirror, OnlyWithin, Untouched, SameRest, Backed, LeavesIn, LinksOpen;
    hide Valid;
    hide TablesBusy, Clear, SameTranslation;
    NeighbourStays(s, src.root, t, dst.root, src.View(), dst.View(), busy, dst.Busy());
    MirrorMap(ram0, dst.ram[..], t, dst.View(), dst.root, s, src.View(), src.root, list, v);
    BackedSame(s, src.View(), src.root, src.vmas);
    SameLeaves(s, src.View(), src.vmas);
    OpenSame(s, src.View());
    TranslationTrans(s0, s, src.View(), src.root);
  }

  lemma BackedSame(s: Space, t: Space, root: nat, list: seq<Vma>)
    requires Backed(s, root, list) && SameTranslation(s, t, root)
    ensures Backed(t, root, list)
  {
    hide Translate, Mapped;
  }

  lemma TranslationTrans(s: Space, t: Space, u: Space, root: nat)
    requires SameTranslation(s, t, root) && SameTranslation(t, u, root)
    ensures SameTranslation(s, u, root)
  {
    hide Translate;
  }

  /** mm_copy into a fresh space, `nodes` being how many region nodes can be had. */
  method CopyMm(dst: Mm, src: Mm, nodes: nat) returns (r: Result)
    requires dst.Ok() && src.Ok() && Apart(dst, src) && dst.vmas == []
    modifies dst`vmas, dst`info, dst.tables, dst.tables.zone, dst.tables.zone.page, dst.ram
    ensures !r.Refused? && (r.Halted? ==> dst.tables.zone.Free() == {})
    ensures !r.Halted? ==>
              dst.Ok() && src.Ok() && Apart(dst, src) && SameTranslation(old(src.View()), src.View(), src.root)
    ensures r.Success? ==> dst.vmas == src.vmas
    ensures r.Success? ==> Mirror(old(dst.ram[..]), dst.ram[..], dst.View(), dst.root, src.View(), src.root, src.vmas)
    ensures r.Success? ==> NoShare(dst.View(), dst.root, src.View(), src.root)
    ensures r.NoMemory? ==> dst.vmas == [] && Emptied(dst.View(), dst.root, LO, HI)
  {
    hide Mm.Ok, Mm.Held, Holds, Translate, Mirror, SameTranslation, Sorted, NoShare, Emptied;
    ghost var s0 := src.View();
    ghost var mid, peak;
    r, mid, peak := CopyRegions(dst, src, nodes);
    if r.NoMemory? {
      OkHeld(dst);
      r := Undo(dst, src, s0);
    }
  }

  /** The loop of mm_copy: region by region, up to the first that no memory is left for. */
  method CopyRegions(dst: Mm, src: Mm, nodes: nat) returns (r: Result, ghost mid: Space, ghost peak: set<Block>)
    requires dst.Ok() && src.Ok() && Apart(dst, src) && dst.vmas == []
    modifies dst`vmas, dst`info, dst.tables, dst.tables.zone, dst.tables.zone.page, dst.ram
    ensures !r.Refused? && (r.Halted? ==> dst.tables.zone.Free() == {})
    ensures r.NoMemory? ==>
              nodes < |src.vmas| || (User(mid, dst.root, LO, HI, peak) && AllHeld(dst.tables.zone.owner.Keys, peak))
    ensures !r.Halted? ==>
              dst.Ok() && src.Ok() && Apart(dst, src) && SameTranslation(old(src.View()), src.View(), src.root)
    ensures r.Success? ==> dst.vmas == src.vmas
    ensures r.Success? ==> Mirror(old(dst.ram[..]), dst.ram[..], dst.View(), dst.root, src.View(), src.root, src.vmas)
    ensures r.Success? ==> NoShare(dst.View(), dst.root, src.View(), src.root)
  {
    hide Mm.Ok, Mm.Held, Holds, Translate, Mirror, SameTranslation, OnlyWithin, Untouched, SameRest, Sorted, Overlaps;
    hide PageAligned, Copied, Clear, Insert, NoShare, OneToOne, Pair, FreePages;
    ghost var s0, ram0 := src.View(), dst.ram[..];
    MirrorStarts(ram0, dst.View(), dst.root, s0, src.root);
    SameSelf(s0, src.root);
    mid, peak := dst.View(), dst.Busy();
    var i := 0;
    while i < |src.vmas|
      invariant 0 <= i <= |src.vmas| && src.vmas == old(src.vmas) && src.info == old(src.info)
      invariant Copying(dst, src, s0, ram0, src.vmas[..i])
    {
      var v := src.vmas[i];
      OkSorted(src);
      NextRegion(src.vmas, i);
      ghost var s, t, busy := src.View(), dst.View(), dst.Busy();
      CopyingPair(dst, src, s0, ram0, src.vmas[..i]);
      ghost var ram := dst.ram[..];
      r, mid, peak := dst.Mmap(v.begin, v.end, v.perm, i < nodes);
      if r.Halted? { return; }
      assert dst.ram[..] == ram;
      if r.NoMemory? {
        NoneFollows(src.vmas, i);
        SpentParts(t, busy, mid, peak, dst.root, v.begin, v.end, dst.tables.zone.owner.Keys);
        Narrower(t, dst.View(), dst.root, v.begin, v.end);
        OkHeld(dst);
        RegionMapped(dst, src, s0, ram0, s, t, src.vmas[..i], busy, v);
        return;
      }
      OkHeld(dst);
      OkSorted(dst);
      RegionMapped(dst, src, s0, ram0, s, t, src.vmas[..i], busy, v);
      OkHeld(src);
      HeldFacts(dst, src);
      ghost var n;
      var ok;
      ok, n := MCopy(dst, v.begin, src, v.begin, v.end - v.begin);
      BothMapped(dst, src, src.vmas, i, v, n, ok);
      MirrorCopy(ram0, ram, dst.ram[..], dst.View(), dst.root, src.View(), src.root, src.vmas[..i], v);
      i := i + 1;
    }
    assert src.vmas[..i] == src.vmas;
    OkHeld(dst);
    OkHeld(src);
    HeldFacts(dst, src);
    r := Success;
  }

  /** `munmap(dst, 0, HIGHER_BASE & USER_MASK)` after a failed mmap. */
  method Undo(dst: Mm, src: Mm, ghost s0: Space) returns (r: Result)
    requires dst.Held() && src.Ok() && Apart(dst, src) && SameTranslation(s0, src.View(), src.root)
    modifies dst`vmas, dst`info, dst.tables, dst.tables.zone, dst.tables.zone.page
    ensures r.NoMemory? && dst.Ok() && src.Ok() && Apart(dst, src) && SameTranslation(s0, src.View(), src.root)
    ensures dst.vmas == [] && Emptied(dst.View(), dst.root, LO, HI)
  {
    hide User, Others, Sorted, Holds, Translate, SameTranslation, Untouched, SameRest, Backed, LeavesIn, LinksOpen;
    hide Valid;
    hide TablesBusy, Straddled, Without, Gap, UnmapFrom, Filled, Emptied;
    ghost var s, t, busy := src.View(), dst.View(), dst.Busy();
    CutAll(dst.vmas);
    var ok := dst.Munmap(0, HALF);
    NeighbourStays(s, src.root, t, dst.root, src.View(), dst.View(), busy, dst.Busy());
    BackedSame(s, src.View(), src.root, src.vmas);
    SameLeaves(s, src.View(), src.vmas);
    OpenSame(s, src.View());
    TranslationTrans(s0, s, src.View(), src.root);
    r := NoMemory;
  }

  lemma SameSelf(s: Space, root: nat)
    ensures SameTranslation(s, s, root)
  {}

  lemma OkSorted(mm: Mm)
    requires mm.Ok()
    ensures Sorted(mm.vmas)
  {}

  lemma OkHeld(mm: Mm)
    requires mm.Ok()
    ensures mm.Held()
  {}

  /** mcopy cannot fail inside a region that both spaces map. */
  lemma BothMapped(dst: Mm, src: Mm, list: seq<Vma>, i: nat, v: Vma, n: nat, ok: bool)
    requires dst.Ok() && src.Ok() && src.vmas == list && i < |list| && list[i] == v && v in dst.vmas
    requires v.begin < v.end <= HALF && n <= v.end - v.begin && (ok <==> n == v.end - v.begin)
    requires !ok ==> At(dst.View(), dst.root, v.begin, n).None? || At(src.View(), src.root, v.begin, n).None?
    ensures ok
  {
    hide Mm.Ok, Translate;
    if !ok {
      InsideMapped(dst, v, v.begin + n);
      InsideMapped(src, v, v.begin + n);
    }
  }

  lemma InsideMapped(mm: Mm, v: Vma, a: nat)
    requires mm.Ok() && v in mm.vmas && v.begin <= a < v.end <= HALF
    ensures Translate(mm.View(), mm.root, a).Some?
  {
    hide Mm.Held, Translate;
    assert Mapped(mm.vmas, a);
  }
}
