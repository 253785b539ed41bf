/** Process address spaces (mm.c): creation, mapping, copying and release, on top of the
    page tables, the buddy zone and the bytes of physical memory. */
module Mm {
  import opened Bits
  import opened BuddyZone
  import opened Paging
  import opened MapLoop
  import opened EntryFlags
  import opened Access
  import opened UserTree
  import opened UserSweep
  import opened UserFrames
  import opened UserMap
  import opened ByteCopy
  import opened Vmas
  import opened UnmapRange
  import opened UnmapBorder
  import opened UnmapFilled
  import opened Regions
  import opened Rollback

  /** Returned 0; refused (-1); out of memory (-1); or hung in a failure loop. */
  datatype Result = Success | Refused | NoMemory | Halted

  lemma RangeInRoot(s: Space, root: nat, from: nat, to: nat)
    requires Tree(s, root, LO, HI) && from < to <= HALF
    ensures root in s.info && s.info[root].lvl == 4 && InTable(s, LO, HI, root, from, to - from)
    ensures from < W && from % TOP == from && to - from > 0
  {}

  lemma GapUnmapped(s: Space, root: nat, list: seq<Vma>, k: nat, v: Vma)
    requires Tree(s, root, LO, HI) && Backed(s, root, list) && k <= |list| && v.begin < v.end <= HALF
    requires forall i :: 0 <= i < k ==> list[i].end <= v.begin
    requires forall i :: k <= i < |list| ==> v.end <= list[i].begin
    ensures root in s.info && Unmapped(s, root, v.begin, v.end - v.begin)
  {
    hide Tree, Walk, Mapped;
    RangeInRoot(s, root, v.begin, v.end);
    forall a: nat | v.begin <= a < v.end ensures Walk(s.mem, root, s.info[root].lvl, a) == None {
      InsertMapped(list, k, v, a);
      TranslateIs(s, root, a);
    }
  }

  lemma ChangedWithin(s: Space, t: Space, root: nat, from: nat, to: nat)
    requires Tree(s, root, LO, HI) && from < to <= HALF && root in s.info
    requires Changed(s, t, root, LO, HI, root, from, to - from)
    ensures OnlyWithin(s, t, root, from, to)
  {
    hide Tree, Walk, Covers, RootEntry, Under;
    forall a: nat | a < HALF && !(from <= a < to) ensures Translate(t, root, a) == Translate(s, root, a) {
      UserCovers(s, root, a);
      TranslateIs(s, root, a);
      TranslateIs(t, root, a);
    }
  }

  lemma RangeBacked(s: Space, t: Space, root: nat, list: seq<Vma>, k: nat, v: Vma)
    requires Tree(s, root, LO, HI) && Backed(s, root, list) && k <= |list| && v.begin < v.end <= HALF
    requires forall i :: 0 <= i < k ==> list[i].end <= v.begin
    requires forall i :: k <= i < |list| ==> v.end <= list[i].begin
    requires root in s.info && MapState(s, t, root, LO, HI, root, v.begin, v.end - v.begin, Anywhere)
    ensures Backed(t, root, Insert(list, k, v)) && OnlyWithin(s, t, root, v.begin, v.end)
  {
    hide Tree, Walk, Mapped, Changed, Translate;
    RangeInRoot(s, root, v.begin, v.end);
    ChangedWithin(s, t, root, v.begin, v.end);
    forall a: nat | a < HALF ensures Translate(t, root, a).Some? <==> Mapped(Insert(list, k, v), a) {
      InsertMapped(list, k, v, a);
      TranslateIs(t, root, a);
    }
  }

  lemma UserOneToOne(z: Zone, s: Space, root: nat)
    requires Valid(z) && User(s, root, LO, HI, z.busy)
    ensures OneToOne(s, root)
  {
    hide Valid, Translate, Tree, Hung, TablesHeld, LeavesHeld, HeldOnce;
    forall a: nat, b: nat | a < HALF && b < HALF && a != b && Translate(s, root, a).Some?
      ensures Translate(s, root, a) != Translate(s, root, b)
    {
      if a / PAGE == b / PAGE {
        PageOffset(s, root, a, b);
      } else if Translate(s, root, b).Some? {
        FramesApart(z, s, root, a, b);
      }
    }
  }

  lemma UserNoShare(z: Zone, s: Space, root: nat, t: Space, top: nat)
    requires Valid(z) && User(s, root, LO, HI, z.busy) && User(t, top, LO, HI, z.busy)
    requires Holds(s, LO, HI) !! Holds(t, LO, HI)
    ensures NoShare(s, root, t, top)
  {
    hide Valid, Translate, User, Holds;
    forall a: nat, b: nat | a < HALF && b < HALF && Translate(s, root, a).Some?
      ensures Translate(s, root, a) != Translate(t, top, b)
    {
      if Translate(t, top, b).Some? { SpacesApart(z, s, root, t, top, a, b); }
    }
  }

  /** User frames are in memory and never at address zero. */
  lemma UserInRam(z: Zone, s: Space, root: nat, n: nat)
    requires Valid(z) && User(s, root, LO, HI, z.busy) && z.end * PAGE <= n && 0 !in z.owner
    ensures InRam(s, root, n)
    ensures forall a: nat :: a < HALF && Translate(s, root, a).Some? ==> Translate(s, root, a).value != 0
  {
    hide Valid, Translate, User, FreePages;
    forall a: nat | a < HALF && Translate(s, root, a).Some?
      ensures Translate(s, root, a).value < n && Translate(s, root, a).value != 0
    {
      FrameHeld(z, s, root, a);
      BelowEnd(Translate(s, root, a).value, z.end);
    }
  }

  lemma BelowEnd(p: nat, end: nat)
    requires p / PAGE < end
    ensures p < end * PAGE && (p == 0 ==> p / PAGE == 0)
  {}

  class Mm {
    const tables: UserTables
    const ram: array<byte>
    const root: nat
    var vmas: seq<Vma>
    ghost var info: map<nat, Info>

    ghost function View(): Space
      reads this, tables
    {
      Space(tables.mem, info)
    }

    ghost function Busy(): set<Block>
      reads tables, tables.zone
    {
      tables.zone.busy
    }

    ghost predicate Held()
      reads this, tables, tables.zone, tables.zone.page
    {
      && tables.Ok() && tables.zone.end * PAGE <= ram.Length
      && User(View(), root, LO, HI, Busy()) && Others(View(), Busy()) && Sorted(vmas)
      && LinksOpen(View())
    }

    /** An address is translated exactly when a region holds it, and every leaf lies in a region. */
    ghost predicate Ok()
      reads this, tables, tables.zone, tables.zone.page
    {
      Held() && Backed(View(), root, vmas) && LeavesIn(View(), vmas)
    }

    /** mm_create, once its root table is there. */
    constructor (tables: UserTables, ram: array<byte>, root: nat, ghost info: map<nat, Info>)
      requires tables.Ok() && tables.zone.end * PAGE <= ram.Length
      requires User(tables.View(info), root, LO, HI, tables.zone.busy) && Others(tables.View(info), tables.zone.busy)
      requires Emptied(tables.View(info), root, LO, HI)
      ensures Ok() && vmas == [] && this.tables == tables && this.ram == ram && this.root == root && this.info == info
    {
      hide User, Others, Backed, LeavesIn, Valid, Emptied, TablesBusy, Sorted, UserTables.Ok, LinksOpen;
      EmptyBacked(tables.View(info), root, tables.zone.busy);
      OpenEmpty(tables.View(info), root, tables.zone.busy);
      this.tables := tables;
      this.ram := ram;
      this.root := root;
      this.info := info;
      vmas := [];
      new;
    }

    /** mmap; `node` says whether the region's node can be had. Where pt_map gives up, `mid` and
        `peak` are the space and the held blocks before the rollback. */
    method Mmap(from0: nat, to0: nat, perm: nat, node: bool)
      returns (r: Result, ghost mid: Space, ghost peak: set<Block>)
      requires Ok() && from0 < W && to0 < W
      requires to0 <= HIGHER_BASE ==> PageAligned(from0 % TOP) && PageAligned(to0 % TOP) && to0 % TOP <= HALF
      modifies this`vmas, this`info, tables, tables.zone, tables.zone.page
      ensures r.Refused? <==>
              || to0 > HIGHER_BASE || from0 % TOP > to0 % TOP
              || (from0 % TOP < to0 % TOP && exists i :: 0 <= i < |old(vmas)|
                                                         && Overlaps(old(vmas)[i], from0 % TOP, to0 % TOP))
      ensures r.Refused? || (r.NoMemory? && !node) ==>
                Ok() && vmas == old(vmas) && View() == old(View()) && Busy() == old(Busy())
      ensures r.Success? ==> Ok()
      ensures r.Success? && from0 % TOP == to0 % TOP ==>
                vmas == old(vmas) && View() == old(View()) && Busy() == old(Busy())
      ensures r.Success? && from0 % TOP != to0 % TOP ==>
                exists k :: 0 <= k <= |old(vmas)| && vmas == Insert(old(vmas), k, Vma(from0 % TOP, to0 % TOP, perm))
      ensures r.Success? ==> OnlyWithin(old(View()), View(), root, from0 % TOP, to0 % TOP)
      ensures r.NoMemory? ==> Held() && vmas == old(vmas)
      ensures r.NoMemory? && node ==>
                Spent(old(View()), old(Busy()), mid, peak, root, from0 % TOP, to0 % TOP, tables.zone.owner.Keys)
      ensures !r.Refused? && node && from0 % TOP < to0 % TOP && old(tables.zone.Free()) == {}
              && Tabled(old(tables.mem), root, from0 % TOP, 4) ==>
                r.NoMemory? && mid == old(View()) && peak == old(Busy())
      ensures r.NoMemory? && node ==> BackFrom(vmas, from0 % TOP) < HALF
      ensures r.NoMemory? && node ==>
                tables.mem == UnmapFrom(mid.mem, root, BackFrom(vmas, from0 % TOP),
                                        HALF - BackFrom(vmas, from0 % TOP), 4)
      ensures r.NoMemory? && node ==> OnlyWithin(old(View()), View(), root, from0 % TOP, HALF)
      ensures r.NoMemory? && node ==> (Ok() <==> EndsAbove(vmas, from0 % TOP) == |vmas|)
      ensures r.NoMemory? && Ok() ==> OnlyWithin(old(View()), View(), root, from0 % TOP, from0 % TOP)
      ensures r.Halted? ==> tables.zone.Free() == {}
      ensures !r.Halted? ==> Untouched(old(View()), View(), root) && SameRest(old(View()), old(Busy()), View(), Busy())
      ensures tables.zone.owner.Keys == old(tables.zone.owner.Keys)
    {
      hide Tabled, Backed, LeavesIn, Grown, User, Others, Untouched, SameRest, Sorted, Mapped, OnlyWithin, Valid;
      hide FreePages, TablesBusy, MapState, Changed, Overlaps, PageAligned, Spent, EndsAbove, BackFrom, UnmapFrom;
      hide Swept, Kept, InOne, Even, EmptiedFrom, InTable, Unmapped, Tree, LinksOpen, Written, UserFlags;
      ghost var s, busy, z := View(), Busy(), tables.zone.View();
      mid, peak := s, busy;
      Unchanged(s, busy, root, from0 % TOP, to0 % TOP);
      if to0 > HIGHER_BASE { return Refused, mid, peak; }
      var from, to := from0 % TOP, to0 % TOP;
      if from == to { return Success, mid, peak; }
      if from > to { return Refused, mid, peak; }
      var flags := UserFlags(perm);
      var next := FindGap(vmas, from, to);
      if next.None? { return Refused, mid, peak; }
      Unchanged(s, busy, root, from, from);
      if !node { return NoMemory, mid, peak; }
      var v := Vma(from, to, perm);
      UserIsTree(s, root, busy);
      RangeInRoot(s, root, from, to);
      GapUnmapped(s, root, vmas, next.value, v);
      DifferenceAligned(from, to);
      var done;
      done, info := tables.MapRange(info, root, root, from, to - from, flags, 4);
      if done.Hang? { return Halted, mid, peak; }
      mid, peak, z := View(), Busy(), tables.zone.View();
      ChangedWithin(s, mid, root, from, to);
      OthersAfter(s, busy, mid, peak, root);
      OpenWritten(s, mid, flags);
      WrittenInfo(s, mid, flags);
      if done.Fail? {
        TakeBack(next.value, from, to, s, busy);
        return NoMemory, mid, peak;
      }
      RangeBacked(s, View(), root, vmas, next.value, v);
      MappedLeaves(z, s, View(), root, vmas, next.value, v);
      InsertSorted(vmas, next.value, v);
      vmas := Insert(vmas, next.value, v);
      r := Success;
    }

    /** The rollback, once pt_map has given up with no page left: `s` and `busy` are from before it. */
    method TakeBack(k: nat, from: nat, to: nat, ghost s: Space, ghost busy: set<Block>)
      requires Held() && tables.zone.Free() == {} && k <= |vmas| && from < to <= HALF
      requires forall i :: 0 <= i < k ==> vmas[i].end <= from
      requires forall i :: k <= i < |vmas| ==> to <= vmas[i].begin
      requires Tree(s, root, LO, HI) && Backed(s, root, vmas) && LeavesIn(s, vmas)
      requires SameRest(s, busy, View(), Busy()) && Untouched(s, View(), root)
      requires OnlyWithin(s, View(), root, from, to) && Grown(s, View())
      requires forall g :: g in s.info ==> g in info && info[g] == s.info[g]
      modifies this`info, tables, tables.zone, tables.zone.page
      ensures Held() && vmas == old(vmas) && tables.zone.owner.Keys == old(tables.zone.owner.Keys)
      ensures Untouched(s, View(), root) && SameRest(s, busy, View(), Busy()) && OnlyWithin(s, View(), root, from, HALF)
      ensures Spent(s, busy, old(View()), old(Busy()), root, from, to, tables.zone.owner.Keys)
      ensures BackFrom(vmas, from) < HALF
      ensures tables.mem == UnmapFrom(old(tables.mem), root, BackFrom(vmas, from), HALF - BackFrom(vmas, from), 4)
      ensures Ok() <==> EndsAbove(vmas, from) == |vmas|
      ensures Ok() ==> OnlyWithin(s, View(), root, from, from)
    {
      hide Backed, LeavesIn, Grown, User, Others, Untouched, SameRest, Sorted, OnlyWithin, Valid, FreePages;
      hide TablesBusy, Spent, EndsAbove, BackFrom, UnmapFrom, Swept, Kept, InOne, Even, EmptiedFrom, Tree, LinksOpen;
      ghost var mid, peak, z := View(), Busy(), tables.zone.View();
      var begin := 0;
      if k > 0 { begin := vmas[k - 1].end; }
      if k < |vmas| { begin := vmas[k].begin; }
      RollbackStart(mid, root, peak, vmas, k, from, to);
      info := tables.Unmap(info, root, root, begin, HALF - begin, 4);
      RollbackDone(z, s, busy, mid, peak, View(), Busy(), root, vmas, k, from, to);
      OpenUnmapped(mid, peak, View(), Busy(), root, begin, HALF - begin);
    }

    /** The list half of munmap: refused where a region straddles, else the regions inside go;
        [low, high) is the gap for pt_unmap. */
    method CutRegions(from: nat, to: nat) returns (ok: bool, low: nat, high: nat)
      requires Sorted(vmas) && from < to <= HALF
      modifies this`vmas
      ensures ok <==> !Straddled(old(vmas), from, to)
      ensures !ok ==> vmas == old(vmas)
      ensures ok ==> vmas == Without(old(vmas), from, to) && (low, high) == Gap(old(vmas), from, to) && Sorted(vmas)
      ensures ok ==> forall v :: v in vmas <==> v in old(vmas) && !Inside(v, from, to)
    {
      hide Sorted, Straddled, EndsAbove, BeginsAt, Inside;
      ok, low, high := false, 0, HALF;
      var cut := FindCut(vmas, from, to);
      if cut.Some? {
        var (p, n) := cut.value;
        Vmas.CutKeeps(vmas, from, to);
        if p > 0 { low := vmas[p - 1].end; }
        if n < |vmas| { high := vmas[n].begin; }
        vmas := vmas[..p] + vmas[n..];
        ok := true;
      }
    }

    /** munmap: the regions are cut and pt_unmap runs over the gap; regions and tables agree
        afterwards if and only if the tables were filled up to the end of the gap. */
    method Munmap(from: nat, to: nat) returns (ok: bool)
      requires Held() && from < to <= HALF
      modifies this`vmas, this`info, tables, tables.zone, tables.zone.page
      ensures ok <==> !Straddled(old(vmas), from, to)
      ensures !ok ==> vmas == old(vmas) && View() == old(View()) && Busy() == old(Busy())
      ensures ok ==> vmas == Without(old(vmas), from, to)
      ensures ok ==>
                var (low, high) := Gap(old(vmas), from, to);
                low < high && tables.mem == UnmapFrom(old(tables.mem), root, low, high - low, 4)
      ensures Held()
      ensures old(Ok()) ==>
                (Ok() <==> (ok ==> Filled(old(tables.mem), root, Gap(old(vmas), from, to).0,
                                          Gap(old(vmas), from, to).1, 4)))
      ensures old(Ok()) && Ok() ==> OnlyWithin(old(View()), View(), root, from, to)
      ensures ok && from == 0 && to == HALF ==> Ok() && vmas == [] && Emptied(View(), root, LO, HI)
      ensures Untouched(old(View()), View(), root) && SameRest(old(View()), old(Busy()), View(), Busy())
      ensures tables.zone.owner.Keys == old(tables.zone.owner.Keys)
    {
      hide Backed, LeavesIn, OnlyWithin, User, Others, Untouched, SameRest, Sorted, Valid, FreePages, TablesBusy;
      hide Emptied, Kept, Swept, Straddled, Without, Gap, InOne, Even, EmptiedFrom, UnmapFrom, Inside, Filled;
      hide LinksOpen;
      ghost var s, busy, list := View(), Busy(), vmas;
      Unchanged(s, busy, root, from, to);
      var low, high;
      ok, low, high := CutRegions(from, to);
      if !ok { return; }
      GapReady(s, busy, root, list, from, to);
      info := tables.Unmap(info, root, root, low, high - low, 4);
      OpenUnmapped(s, busy, View(), Busy(), root, low, high - low);
      GapDone(s, busy, View(), Busy(), root, list, from, to, Backed(s, root, list) && LeavesIn(s, list));
    }

    /** mm_release: afterwards no block of the space is held and none of its tables is left. */
    method Release()
      requires Held()
      modifies this`vmas, this`info, tables, tables.zone, tables.zone.page
      ensures tables.Ok() && tables.zone.owner.Keys == old(tables.zone.owner.Keys)
      ensures Busy() == old(Busy()) - Holds(old(View()), LO, HI)
      ensures tables.mem.Keys == old(tables.mem).Keys - old(info).Keys
      ensures forall f :: f in tables.mem ==> tables.mem[f] == old(tables.mem)[f]
    {
      hide Backed, LeavesIn, User, Others, Sorted, Valid, FreePages, TablesBusy, Emptied, Holds, Straddled, Without;
      hide Gap, UnmapFrom, Filled, LinksOpen;
      ghost var s, busy := View(), Busy();
      CutAll(vmas);
      var ok := Munmap(0, HALF);
      tables.FreeRoot(info, root);
    }
  }

  lemma DifferenceAligned(from: nat, to: nat)
    requires PageAligned(from) && PageAligned(to) && from < to
    ensures PageAligned(to - from)
  {}

  lemma Unchanged(s: Space, busy: set<Block>, root: nat, from: nat, to: nat)
    ensures OnlyWithin(s, s, root, from, to) && Untouched(s, s, root) && SameRest(s, busy, s, busy)
  {}

  lemma OthersAfter(s: Space, busy: set<Block>, t: Space, busy1: set<Block>, root: nat)
    requires Others(s, busy) && SameRest(s, busy, t, busy1) && Untouched(s, t, root)
    ensures Others(t, busy1)
  {
    hide Others, SameRest;
    OthersKept(s, busy, t, busy1);
  }

  lemma EmptyBacked(s: Space, root: nat, busy: set<Block>)
    requires User(s, root, LO, HI, busy) && Emptied(s, root, LO, HI)
    ensures Backed(s, root, []) && LeavesIn(s, []) && Sorted([])
  {
    EmptyLeaves(s, root);
    hide Size, Placed, EntryBase, EntryOk;
    forall a: nat | a < HALF ensures Translate(s, root, a).None? {
      UserCovers(s, root, a);
      assert Mine(s, root, PtIndex(a, 4), LO, HI);
    }
  }

  lemma OpenUnmapped(s: Space, busy: set<Block>, t: Space, busy1: set<Block>, root: nat, v: nat, n: nat)
    requires LinksOpen(s) && root in s.info && Swept(s, busy, t, busy1, root, root)
    requires t.mem == UnmapFrom(s.mem, root, v, n, 4)
    ensures LinksOpen(t)
  {
    hide *;
    SweptParts(s, busy, t, busy1, root, root);
    KeptInfo(s, t, root);
    FromFades(s.mem, root, v, n, 4);
    OpenFades(s, t);
  }

  lemma OkLives(mm: Mm)
    requires mm.Ok()
    ensures Lives(mm.tables.zone.View(), mm.View(), mm.root, mm.vmas)
  {
    hide User, Others, Sorted, Backed, LeavesIn, TablesBusy, Valid, LinksOpen;
  }

  // ---- munmap ----

  /** What pt_unmap needs of the gap. */
  lemma GapReady(s: Space, busy: set<Block>, root: nat, list: seq<Vma>, from: nat, to: nat)
    requires User(s, root, LO, HI, busy) && Sorted(list) && from < to <= HALF && !Straddled(list, from, to)
    ensures var (low, high) := Gap(list, from, to);
            low < high && root in s.info && s.info[root].lvl == 4 && InOne(low, high - low, 4)
  {
    CutPlaces(list, from, to);
    hide *;
    UserIsTree(s, root, busy);
    RootIs(s, root);
    TopFits(Gap(list, from, to).0, Gap(list, from, to).1 - Gap(list, from, to).0);
  }

  /** What it leaves; `ok` where regions and tables agreed. */
  lemma GapDone(s: Space, busy: set<Block>, t: Space, busy1: set<Block>, root: nat, list: seq<Vma>, from: nat,
                to: nat, ok: bool)
    requires User(s, root, LO, HI, busy) && Sorted(list) && from < to <= HALF && !Straddled(list, from, to)
    requires ok ==> LeavesIn(s, list) && Backed(s, root, list)
    requires root in s.info && Swept(s, busy, t, busy1, root, root)
    requires var (low, high) := Gap(list, from, to);
             && low < high && t.mem == UnmapFrom(s.mem, root, low, high - low, 4)
             && (Even(low, high - low, 4) ==>
                   EmptiedFrom(s, t, root, PtIndex(low, 4), PtIndex(Last(low, high - low), 4) + 1))
    ensures User(t, root, LO, HI, busy1) && Others(t, busy1) && Untouched(s, t, root) && SameRest(s, busy, t, busy1)
    ensures ok ==> (Backed(t, root, Without(list, from, to)) && LeavesIn(t, Without(list, from, to)) <==>
                    Filled(s.mem, root, Gap(list, from, to).0, Gap(list, from, to).1, 4))
    ensures ok && Backed(t, root, Without(list, from, to)) ==> OnlyWithin(s, t, root, from, to)
    ensures from == 0 && to == HALF ==>
              Emptied(t, root, LO, HI) && Without(list, from, to) == [] && Backed(t, root, []) && LeavesIn(t, [])
  {
    hide *;
    var (low, high) := Gap(list, from, to);
    UserIsTree(s, root, busy);
    UserHung(s, root, busy);
    SweptParts(s, busy, t, busy1, root, root);
    TreeTables(s, root);
    UntouchedKept(s, t, root);
    if ok {
      CutBacked(s, t, root, list, from, to);
      if Backed(t, root, Without(list, from, to)) {
        FromFades(s.mem, root, low, high - low, 4);
        KeptInfo(s, t, root);
        CutLeaves(s, t, root, list, from, to);
      }
    }
    if from == 0 && to == HALF {
      CutAll(list);
      WholeEven4();
      HalfEmptied(s, t, root);
      EmptyBacked(t, root, busy1);
    }
  }

  lemma WholeEven4()
    ensures Even(0, HALF, 4)
  {}

  lemma HalfEmptied(s: Space, t: Space, root: nat)
    requires Tree(t, root, LO, HI) && EmptiedFrom(s, t, root, PtIndex(0, 4), PtIndex(Last(0, HALF), 4) + 1)
    ensures Emptied(t, root, LO, HI)
  {
    assert PtIndex(0, 4) == 0 && PtIndex(Last(0, HALF), 4) + 1 == HI;
    hide EntriesOk, Placed, PtIndex, Last;
  }

  /** mm_create: none when no page is left for the root. */
  method Create(tables: UserTables, ram: array<byte>, kernel: seq<Pte>) returns (mm: Mm?)
    requires tables.Ok() && tables.zone.end * PAGE <= ram.Length && |kernel| == 512
    modifies tables, tables.zone, tables.zone.page
    ensures tables.Ok() && tables.zone.owner.Keys == old(tables.zone.owner.Keys)
    ensures mm == null <==> old(tables.zone.Free()) == {}
    ensures mm == null ==> tables.zone.busy == old(tables.zone.busy) && tables.mem == old(tables.mem)
    ensures mm != null ==>
              && fresh(mm) && mm.Ok() && mm.vmas == [] && mm.tables == tables && mm.ram == ram
              && mm.info == map[mm.root := Info(4, 0)] && mm.root !in old(tables.mem)
              && tables.mem == old(tables.mem)[mm.root := seq(256, _ => ABSENT) + kernel[256..]]
              && mm.Busy() - Holds(mm.View(), LO, HI) == old(tables.zone.busy)
  {
    hide User, Others, Backed, Valid, FreePages, Emptied, TablesBusy, Holds, UserTables.Ok, Sorted;
    var root;
    ghost var info;
    root, info := tables.CreateRoot(kernel);
    if root == 0 { return null; }
    mm := new Mm(tables, ram, root, info);
  }

  /** The two spaces share the page tables and memory but hold different blocks. */
  ghost predicate Apart(dst: Mm, src: Mm)
    reads dst, src, dst.tables, src.tables
  {
    && dst != src && dst.tables == src.tables && dst.ram == src.ram
    && Holds(dst.View(), LO, HI) !! Holds(src.View(), LO, HI)
  }

  lemma CopyFacts(z: Zone, t: Space, top: nat, s: Space, root: nat, n: nat)
    requires Valid(z) && z.end * PAGE <= n && 0 !in z.owner
    requires User(t, top, LO, HI, z.busy) && User(s, root, LO, HI, z.busy) && Holds(t, LO, HI) !! Holds(s, LO, HI)
    ensures OneToOne(t, top) && NoShare(t, top, s, root) && Tree(t, top, LO, HI) && Tree(s, root, LO, HI)
    ensures forall a: nat :: a < HALF ==> Addressed(t, top, a, n) && Addressed(s, root, a, n)
  {
    hide Valid, User, Holds, Translate;
    UserOneToOne(z, t, top);
    UserNoShare(z, t, top, s, root);
    UserInRam(z, t, top, n);
    UserInRam(z, s, root, n);
    UserIsTree(t, top, z.busy);
    UserIsTree(s, root, z.busy);
    forall a: nat | a < HALF ensures Addressed(t, top, a, n) && Addressed(s, root, a, n) {}
  }

  /** A translated address is a nonzero address in memory. */
  ghost predicate Addressed(s: Space, root: nat, a: nat, n: nat) {
    Translate(s, root, a).Some? ==> 0 < Translate(s, root, a).value < n
  }

  lemma ChunkInRam(s: Space, root: nat, from: nat, n: nat, m: nat, d: nat, len: nat)
    requires Run(s, root, from, n, m, d) && m > 0 && from + n + m <= HALF
    requires forall a: nat :: a < HALF ==> Addressed(s, root, a, len)
    ensures d + m <= len
  {
    hide Translate;
    RunAt(s, root, from, n, m, d, n + m - 1);
    assert Addressed(s, root, from + (n + m - 1), len);
  }

  lemma UserIndex(a: nat)
    requires a < HALF
    ensures RootEntry(a, LO, HI)
  {}

  /** One pass of the copy loop, once both ends of the chunk have been found. */
  lemma CopyChunk(t: Space, top: nat, to: nat, s: Space, root: nat, from: nat, n: nat, size: nat, m: nat, d: nat,
                  q: nat, len: nat)
    requires Tree(t, top, LO, HI) && Tree(s, root, LO, HI) && NoShare(t, top, s, root)
    requires forall a: nat :: a < HALF ==> Addressed(t, top, a, len) && Addressed(s, root, a, len)
    requires n < size && to + size <= HALF && from + size <= HALF
    requires m == Min(Min(ToPageEnd(to + n), ToPageEnd(from + n)), size - n)
    requires At(t, top, to, n) == Some(d) && At(s, root, from, n) == Some(q)
    ensures 0 < m <= size - n && Run(t, top, to, n, m, d) && Run(s, root, from, n, m, q)
    ensures d + m <= len && q + m <= len && (d + m <= q || q + m <= d)
  {
    hide Tree, NoShare, At, Run, Addressed, ToPageEnd, SamePage, Min;
    ChunkPages(to, from, n, size, m);
    ChunkFrames(t, top, to, n, m);
    ChunkFrames(s, root, from, n, m);
    ChunkInRam(t, top, to, n, m, d, len);
    ChunkInRam(s, root, from, n, m, q, len);
    ChunksApart(t, top, to, s, root, from, n, m, d, q);
  }

  lemma HeldFacts(dst: Mm, src: Mm)
    requires dst.Held() && src.Held() && Apart(dst, src)
    ensures OneToOne(dst.View(), dst.root) && NoShare(dst.View(), dst.root, src.View(), src.root)
    ensures Tree(dst.View(), dst.root, LO, HI) && Tree(src.View(), src.root, LO, HI)
    ensures forall a: nat :: a < HALF ==>
                               Addressed(dst.View(), dst.root, a, dst.ram.Length)
                               && Addressed(src.View(), src.root, a, dst.ram.Length)
  {
    hide User, Others, Sorted, Valid, Holds, TablesBusy, Tree, OneToOne, NoShare, Addressed;
    CopyFacts(dst.tables.zone.View(), dst.View(), dst.root, src.View(), src.root, dst.ram.Length);
  }

  /** mcopy: copies the bytes up to the first one that either side does not map. */
  method MCopy(dst: Mm, to: nat, src: Mm, from: nat, size: nat) returns (ok: bool, ghost n: nat)
    requires dst.Held() && src.Held() && Apart(dst, src) && to + size <= HALF && from + size <= HALF
    modifies dst.ram
    ensures n <= size && (ok <==> n == size)
    ensures !ok ==> At(dst.View(), dst.root, to, n).None? || At(src.View(), src.root, from, n).None?
    ensures Copied(old(dst.ram[..]), dst.ram[..], dst.View(), dst.root, to, src.View(), src.root, from, n)
  {
    hide Mm.Held, Holds, Tree, OneToOne, NoShare, Addressed, Translate, Copied, Min, ToPageEnd, RootEntry, Run, At;
    hide Moved;
    ghost var t, s, ram0 := dst.View(), src.View(), dst.ram[..];
    HeldFacts(dst, src);
    var dstPtr: nat, srcPtr: nat, left: nat := to, from, size;
    n := 0;
    CopyStarts(ram0, t, dst.root, to, s, src.root, from);
    while left != 0
      invariant n <= size && left == size - n && dstPtr == to + n && srcPtr == from + n
      invariant Copied(ram0, dst.ram[..], t, dst.root, to, s, src.root, from, n)
    {
      var tocopy := Min(Min(ToPageEnd(dstPtr), ToPageEnd(srcPtr)), left);
      var d := Lookup(dst, dstPtr, to, n);
      var q := Lookup(src, srcPtr, from, n);
      if q == 0 || d == 0 {
        return false, n;
      }
      CopyChunk(t, dst.root, to, s, src.root, from, n, size, tocopy, d, q, dst.ram.Length);
      ghost var ram := dst.ram[..];
      Memcpy(dst.ram, d, q, tocopy);
      CopyStep(ram0, ram, dst.ram[..], t, dst.root, to, s, src.root, from, n, tocopy, d, q);
      dstPtr := dstPtr + tocopy;
      srcPtr := srcPtr + tocopy;
      left := left - tocopy;
      n := n + tocopy;
    }
    ok := true;
  }

  /** pt_addr on a space's own tables. */
  method Lookup(mm: Mm, a: nat, ghost from: nat, ghost n: nat) returns (r: nat)
    requires mm.Held() && a == from + n < HALF
    ensures r == 0 <==> At(mm.View(), mm.root, from, n).None?
    ensures r != 0 ==> At(mm.View(), mm.root, from, n) == Some(r)
  {
    hide Holds, Translate, RootEntry, At, UserTables.Ok, Sorted, Others, Addressed, Valid, TablesBusy;
    UserIndex(a);
    UserIsTree(mm.View(), mm.root, mm.Busy());
    r := PtAddr(mm.tables.mem, mm.root, a, mm.info, LO, HI);
    UserAddressed(mm, a);
    AddressFound(mm.View(), mm.root, from, n, r, mm.ram.Length);
  }

  lemma UserAddressed(mm: Mm, a: nat)
    requires mm.Held() && a < HALF
    ensures Addressed(mm.View(), mm.root, a, mm.ram.Length)
  {
    hide Holds, Translate, RootEntry, Sorted, Others, TablesBusy, Valid;
    UserInRam(mm.tables.zone.View(), mm.View(), mm.root, mm.ram.Length);
  }

  /** pt_addr yields zero exactly where nothing is mapped. */
  lemma AddressFound(s: Space, root: nat, from: nat, n: nat, r: nat, len: nat)
    requires r == match Walk(s.mem, root, 4, from + n) case None => 0 case Some(p) => p
    requires Addressed(s, root, from + n, len)
    ensures r == 0 <==> At(s, root, from, n).None?
    ensures r != 0 ==> At(s, root, from, n) == Some(r)
  {}
}
