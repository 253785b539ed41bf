/** Every leaf of a user address space lies inside one of its regions: what mmap and munmap of
    mm.c keep, and why the gap of a munmap never cuts a leaf and tables lead to it. */
module Regions {
  import opened Bits
  import opened BuddyZone
  import BuddyClient
  import opened Paging
  import opened MapLoop
  import opened EntryFlags
  import opened UserTree
  import opened UserSweep
  import opened UnmapRange
  import opened UnmapBorder
  import opened UnmapFilled
  import opened UnmapLost
  import opened UserFrames
  import opened UserMap
  import opened Vmas

  /** An address is translated exactly when a region holds it. */
  ghost predicate Backed(s: Space, root: nat, list: seq<Vma>) {
    forall a: nat :: a < HALF ==> (Translate(s, root, a).Some? <==> Mapped(list, a))
  }

  /** Outside [from, to) every user address translates as before. */
  ghost predicate OnlyWithin(s: Space, t: Space, root: nat, from: nat, to: nat) {
    forall a: nat :: a < HALF && !(from <= a < to) ==> Translate(t, root, a) == Translate(s, root, a)
  }

  /** The entry lies inside the region and has the flags that the region's permissions give. */
  ghost predicate InRegion(s: Space, g: nat, i: nat, v: Vma) {
    && g in s.info && Entry(s, g, i).flags == UserFlags(v.perm)
    && v.begin <= EntryBase(s.info[g].base, s.info[g].lvl, i)
    && EntryBase(s.info[g].base, s.info[g].lvl, i) + Size(s.info[g].lvl) <= v.end
  }

  ghost predicate LeavesIn(s: Space, list: seq<Vma>) {
    forall g, i :: HasLeaf(s, g, i, LO, HI) ==> exists k :: 0 <= k < |list| && InRegion(s, g, i, list[k])
  }

  /** An address space as it can be: its tables and pages are blocks held from a zone that never
      had page 0, and an address is translated exactly when a region holds it. */
  ghost predicate Lives(z: Zone, s: Space, root: nat, list: seq<Vma>) {
    && Valid(z) && 0 !in z.owner && TablesBusy(s.mem, z.busy) && User(s, root, LO, HI, z.busy) && Others(s, z.busy)
    && Sorted(list) && Backed(s, root, list) && LeavesIn(s, list)
  }

  // ---- a leaf and the walk ----

  /** The walk to an address of a table goes through that table. */
  lemma {:induction false} Reach(s: Space, root: nat, g: nat, a: nat)
    requires Tree(s, root, LO, HI) && Hung(s, root, LO, HI) && g in s.info && g != root && Covers(s.info[g], a)
    ensures a < HALF && Walk(s.mem, root, 4, a) == Walk(s.mem, g, s.info[g].lvl, a)
    decreases 4 - s.info[g].lvl
  {
    hide Size, EntryBase, Placed, Covers, Child, PtIndex, Walk, Entry, Link;
    var e: nat, j: nat :| UserTree.Parent(s, e, j, g, LO, HI);
    ParentPlace(s, root, e, j, g, a);
    WalkThrough(s.mem, e, s.info[e].lvl, a);
    if e == root { RootHalf(s, root, a); } else { Reach(s, root, e, a); }
  }

  lemma ParentPlace(s: Space, root: nat, e: nat, j: nat, g: nat, a: nat)
    requires Tree(s, root, LO, HI) && UserTree.Parent(s, e, j, g, LO, HI) && g in s.info && Covers(s.info[g], a)
    ensures e in s.info && 1 < s.info[e].lvl <= 4 && s.info[g].lvl == s.info[e].lvl - 1 && Covers(s.info[e], a)
    ensures PtIndex(a, s.info[e].lvl) == j && e in s.mem && |s.mem[e]| == 512 && Link(s.mem[e][j], s.info[e].lvl)
    ensures s.mem[e][j].phys == g
    ensures e == root ==> RootEntry(a, LO, HI) && s.info[e].lvl == 4
  {
    hide Size, EntryBase, Covers, PtIndex;
    assert Mine(s, e, j, LO, HI) && EntryOk(s, e, j) && Placed(s.info[e]);
    PlacedLevel(s.info[e]);
    ChildCovers(s.info[e], j, a);
  }

  lemma RootHalf(s: Space, root: nat, a: nat)
    requires Tree(s, root, LO, HI) && Covers(s.info[root], a) && RootEntry(a, LO, HI)
    ensures a < HALF
  {
    hide EntriesOk;
    assert Placed(s.info[root]);
    HasEntry(s.info[root], a);
  }

  /** Every address of a leaf is translated through it. */
  lemma LeafThrough(s: Space, root: nat, g: nat, i: nat, a: nat)
    requires Tree(s, root, LO, HI) && Hung(s, root, LO, HI) && HasLeaf(s, g, i, LO, HI) && InLeaf(s, g, i, a)
    ensures a < HALF && root in s.info && Through(s, root, a, g, i) && Translate(s, root, a).Some?
  {
    hide *;
    LeafPlace(s, root, g, i, a);
    Reach(s, root, g, a);
    LeafFound(s, g, i, a);
    ThroughIs(s, root, g, i, a);
  }

  lemma ThroughIs(s: Space, root: nat, g: nat, i: nat, a: nat)
    requires HasLeaf(s, g, i, LO, HI) && InLeaf(s, g, i, a) && root in s.info && s.info[root].lvl == 4
    requires Walk(s.mem, root, 4, a) == Some(Entry(s, g, i).phys + (a - EntryBase(s.info[g].base, s.info[g].lvl, i)))
    ensures Through(s, root, a, g, i) && Translate(s, root, a).Some?
  {
    hide Walk, Size, EntryBase;
  }

  lemma LeafPlace(s: Space, root: nat, g: nat, i: nat, a: nat)
    requires Tree(s, root, LO, HI) && HasLeaf(s, g, i, LO, HI) && InLeaf(s, g, i, a)
    ensures g in s.info && g != root && Placed(s.info[g]) && Covers(s.info[g], a) && i < 512 && g in s.mem
    ensures |s.mem[g]| == 512
    ensures 1 <= s.info[g].lvl <= 4 && root in s.info && s.info[root].lvl == 4
  {
    hide Size, EntryBase, PtIndex;
    assert EntryOk(s, g, i);
    PlacedLevel(s.info[g]);
    InEntry(s.info[g], a, i);
  }

  lemma LeafFound(s: Space, g: nat, i: nat, a: nat)
    requires HasLeaf(s, g, i, LO, HI) && InLeaf(s, g, i, a) && Placed(s.info[g]) && i < 512 && g in s.mem
    requires |s.mem[g]| == 512
    requires 1 <= s.info[g].lvl <= 4
    ensures Walk(s.mem, g, s.info[g].lvl, a)
         == Some(Entry(s, g, i).phys + (a - EntryBase(s.info[g].base, s.info[g].lvl, i)))
  {
    hide Size, EntryBase, PtIndex, Placed;
    InEntry(s.info[g], a, i);
  }

  /** No address has two leaves. */
  lemma LeafUnique(z: Zone, s: Space, root: nat, g: nat, i: nat, h: nat, j: nat, a: nat)
    requires Valid(z) && User(s, root, LO, HI, z.busy)
    requires HasLeaf(s, g, i, LO, HI) && InLeaf(s, g, i, a) && HasLeaf(s, h, j, LO, HI) && InLeaf(s, h, j, a)
    ensures g == h && i == j
  {
    LeafThrough(s, root, g, i, a);
    LeafThrough(s, root, h, j, a);
    hide Valid, FreePages, InBlock, Tree, Hung, HasLeaf, LeafOf, Walk, Translate, TableBlock, Through, InLeaf;
    hide TablesHeld;
    UserCovers(s, root, a);
    FrameInBlock(s, root, a, g, i);
    FrameInBlock(s, root, a, h, j);
    BuddyClient.NoPageTwice(z, LeafOf(s, g, i), LeafOf(s, h, j), Translate(s, root, a).value / PAGE);
  }

  // ---- mmap ----

  /** After a region has been mapped every leaf lies in a region. */
  lemma MappedLeaves(z: Zone, s: Space, t: Space, root: nat, list: seq<Vma>, k: nat, v: Vma)
    requires Valid(z) && Tree(s, root, LO, HI) && User(t, root, LO, HI, z.busy) && LeavesIn(s, list) && k <= |list|
    requires OnlyWithin(s, t, root, v.begin, v.end) && Grown(s, t)
    requires Written(s, t, UserFlags(v.perm))
    ensures LeavesIn(t, Insert(list, k, v))
  {
    hide Valid, User, HasLeaf, InRegion, OnlyWithin, Grown, Tree, Written;
    forall g, i | HasLeaf(t, g, i, LO, HI)
      ensures exists n :: 0 <= n < |Insert(list, k, v)| && InRegion(t, g, i, Insert(list, k, v)[n]) {
      LeafMapped(z, s, t, root, list, k, v, g, i);
    }
  }

  lemma LeafMapped(z: Zone, s: Space, t: Space, root: nat, list: seq<Vma>, k: nat, v: Vma, g: nat, i: nat)
    requires Valid(z) && Tree(s, root, LO, HI) && User(t, root, LO, HI, z.busy) && LeavesIn(s, list) && k <= |list|
    requires OnlyWithin(s, t, root, v.begin, v.end) && Grown(s, t)
    requires Written(s, t, UserFlags(v.perm))
    requires HasLeaf(t, g, i, LO, HI)
    ensures exists n :: 0 <= n < |Insert(list, k, v)| && InRegion(t, g, i, Insert(list, k, v)[n])
  {
    hide *;
    LeafNoLink(t, g, i, LO, HI);
    LeafEnds(t, g, i);
    WrittenInfo(s, t, UserFlags(v.perm));
    var b, e := EntryBase(t.info[g].base, t.info[g].lvl, i), Size(t.info[g].lvl);
    var a := if v.begin <= b < v.end then b + e - 1 else b;
    InRegionIs(t, g, i, v);
    if !(v.begin <= a < v.end) { OldLeafAt(z, s, t, root, v, g, i, a); }
    if g in s.info && Entry(t, g, i) == Entry(s, g, i) {
      SameEntryLeaf(s, t, g, i);
      var n := RegionOf(s, list, g, i);
      InRegionSame(s, t, g, i, list[n]);
    } else {
      NewLeafFlags(s, t, g, i, UserFlags(v.perm));
    }
    InsertHas(t, g, i, list, k, v);
  }

  lemma WrittenInfo(s: Space, t: Space, flags: nat)
    requires Written(s, t, flags)
    ensures forall g :: g in s.info ==> g in t.info && t.info[g] == s.info[g]
  {}

  lemma SameEntryLeaf(s: Space, t: Space, g: nat, i: nat)
    requires HasLeaf(t, g, i, LO, HI) && g in s.info && t.info[g] == s.info[g] && Entry(t, g, i) == Entry(s, g, i)
    ensures HasLeaf(s, g, i, LO, HI)
  {}

  lemma NewLeafFlags(s: Space, t: Space, g: nat, i: nat, flags: nat)
    requires HasLeaf(t, g, i, LO, HI) && Written(s, t, flags) && !(g in s.info && Entry(t, g, i) == Entry(s, g, i))
    ensures Entry(t, g, i).flags == flags
  {}

  lemma LeafEnds(s: Space, g: nat, i: nat)
    requires g in s.info
    ensures var b, e := EntryBase(s.info[g].base, s.info[g].lvl, i), Size(s.info[g].lvl);
            e > 0 && InLeaf(s, g, i, b) && InLeaf(s, g, i, b + e - 1)
  {}

  lemma InRegionIs(s: Space, g: nat, i: nat, v: Vma)
    requires g in s.info
    ensures InRegion(s, g, i, v) <==>
            Entry(s, g, i).flags == UserFlags(v.perm) && v.begin <= EntryBase(s.info[g].base, s.info[g].lvl, i)
            && EntryBase(s.info[g].base, s.info[g].lvl, i) + Size(s.info[g].lvl) <= v.end
  {}

  lemma InRegionSame(s: Space, t: Space, g: nat, i: nat, v: Vma)
    requires g in s.info && g in t.info && t.info[g] == s.info[g] && Entry(t, g, i) == Entry(s, g, i)
    ensures InRegion(t, g, i, v) == InRegion(s, g, i, v)
  {}

  lemma RegionOf(s: Space, list: seq<Vma>, g: nat, i: nat) returns (k: nat)
    requires LeavesIn(s, list) && HasLeaf(s, g, i, LO, HI)
    ensures k < |list| && InRegion(s, g, i, list[k])
  {
    hide HasLeaf, InRegion;
    k :| 0 <= k < |list| && InRegion(s, g, i, list[k]);
  }

  lemma InsertHas(t: Space, g: nat, i: nat, list: seq<Vma>, k: nat, v: Vma)
    requires k <= |list| && (InRegion(t, g, i, v) || exists n :: 0 <= n < |list| && InRegion(t, g, i, list[n]))
    ensures exists n :: 0 <= n < |Insert(list, k, v)| && InRegion(t, g, i, Insert(list, k, v)[n])
  {
    hide InRegion;
    var u := Insert(list, k, v);
    assert u[k] == v;
    if n :| 0 <= n < |list| && InRegion(t, g, i, list[n]) {
      assert u[if n < k then n else n + 1] == list[n];
    }
  }

  /** A leaf that holds an address outside the new region was there before. */
  lemma OldLeafAt(z: Zone, s: Space, t: Space, root: nat, v: Vma, g: nat, i: nat, a: nat)
    requires Valid(z) && Tree(s, root, LO, HI) && User(t, root, LO, HI, z.busy)
    requires OnlyWithin(s, t, root, v.begin, v.end) && Grown(s, t)
    requires forall g :: g in s.info ==> g in t.info && t.info[g] == s.info[g]
    requires HasLeaf(t, g, i, LO, HI) && InLeaf(t, g, i, a) && !(v.begin <= a < v.end)
    ensures HasLeaf(s, g, i, LO, HI) && g in s.info && t.info[g] == s.info[g] && Entry(t, g, i) == Entry(s, g, i)
  {
    hide Valid, HasLeaf, Grown, Tree, Hung, TablesHeld, LeavesHeld, HeldOnce, EntryBase, Size, Translate;
    LeafThrough(t, root, g, i, a);
    var h, j := LeafIn(s, root, a);
    LeafInSpace(s, h, j);
    OldLeaf(s, t, h, j);
    LeafUnique(z, t, root, g, i, h, j, a);
  }

  lemma LeafInSpace(s: Space, h: nat, j: nat)
    requires HasLeaf(s, h, j, LO, HI)
    ensures h in s.info
  {}

  lemma OldLeaf(s: Space, t: Space, h: nat, j: nat)
    requires Grown(s, t) && HasLeaf(s, h, j, LO, HI) && h in t.info && t.info[h] == s.info[h]
    ensures HasLeaf(t, h, j, LO, HI) && Entry(t, h, j) == Entry(s, h, j)
  {}

  // ---- munmap ----

  /** The gap of a munmap starts where no leaf lies across. */
  lemma GapCutsNone(s: Space, list: seq<Vma>, from: nat, to: nat)
    requires Sorted(list) && from < to <= HALF && !Straddled(list, from, to) && LeavesIn(s, list)
    ensures NoneAcross(s, Gap(list, from, to).0) && NoneAcross(s, Gap(list, from, to).1)
  {
    CutPlaces(list, from, to);
    var (low, high) := Gap(list, from, to);
    var p, n := EndsAbove(list, from), BeginsAt(list, to);
    GapSides(list, p, n);
    hide Sorted, Straddled, EndsAbove, BeginsAt, HasLeaf, EntryBase, Size;
    forall g, i | HasLeaf(s, g, i, LO, HI) ensures Beside(s, g, i, low) && Beside(s, g, i, high) {
      var k :| 0 <= k < |list| && InRegion(s, g, i, list[k]);
      if p <= k < n { InsideGap(list, from, to, k); }
    }
  }

  /** Both its ends are page borders, and it starts at 0 or after a translated address, so tables
      lead to its start. */
  lemma GapLed(s: Space, root: nat, list: seq<Vma>, from: nat, to: nat)
    requires root in s.info && s.info[root].lvl == 4 && Sorted(list) && from < to <= HALF
    requires !Straddled(list, from, to) && Backed(s, root, list)
    ensures var (low, high) := Gap(list, from, to);
            low < high <= HALF && OnPages(low, high - low) && Led(s.mem, root, low, 4)
  {
    hide *;
    CutPlaces(list, from, to);
    GapAligned(list, from, to);
    AlignedPages(Gap(list, from, to).0, Gap(list, from, to).1);
    LowEnd(list, from, to);
    var p := EndsAbove(list, from);
    if p > 0 {
      EndLed(s, root, list, p - 1);
    } else {
      LedHere(s.mem, root, 0, 4) by { ZeroBorder(); }
    }
  }

  lemma ZeroBorder()
    ensures 0 % Size(4) == 0
  {}

  lemma AlignedPages(low: nat, high: nat)
    requires low % 0x1000 == 0 && high % 0x1000 == 0 && low <= high
    ensures OnPages(low, high - low)
  {}

  lemma LowEnd(list: seq<Vma>, from: nat, to: nat)
    ensures var p := EndsAbove(list, from); p <= |list| && Gap(list, from, to).0 == if p > 0 then list[p - 1].end else 0
  {
    hide EndsAbove, BeginsAt;
  }

  lemma GapAligned(list: seq<Vma>, from: nat, to: nat)
    requires Sorted(list)
    ensures Gap(list, from, to).0 % 0x1000 == 0 && Gap(list, from, to).1 % 0x1000 == 0
    ensures forall i :: 0 <= i < |list| ==> list[i].begin < list[i].end <= HALF
  {}

  /** A region is translated up to its end, and from its start. */
  lemma EndLed(s: Space, root: nat, list: seq<Vma>, k: nat)
    requires root in s.info && s.info[root].lvl == 4 && Backed(s, root, list) && k < |list|
    requires list[k].begin < list[k].end <= HALF
    ensures Led(s.mem, root, list[k].end, 4) && Led(s.mem, root, list[k].begin, 4)
  {
    var a, b := list[k].end - 1, list[k].begin;
    assert Mapped(list, a) && Mapped(list, b);
    TranslateIs(s, root, a);
    TranslateIs(s, root, b);
    hide Walk;
  }

  lemma InsideGap(list: seq<Vma>, from: nat, to: nat, k: nat)
    requires Sorted(list) && from < to <= HALF && !Straddled(list, from, to)
    requires EndsAbove(list, from) <= k < BeginsAt(list, to)
    ensures Gap(list, from, to).0 <= list[k].begin && list[k].end <= Gap(list, from, to).1
  {
    CutPlaces(list, from, to);
    hide Sorted, Straddled, EndsAbove, BeginsAt, Gap;
  }

  /** Tables lead to the start of the gap. */
  lemma GapAnchored(s: Space, root: nat, list: seq<Vma>, from: nat, to: nat)
    requires Tree(s, root, LO, HI) && Sorted(list) && from < to <= HALF && !Straddled(list, from, to)
    requires Backed(s, root, list) && LeavesIn(s, list)
    ensures var (low, high) := Gap(list, from, to);
            low < high <= HALF && OnPages(low, high - low) && Anchored(s.mem, root, low, 4)
  {
    hide *;
    RootIs(s, root);
    GapLed(s, root, list, from, to);
    GapCutsNone(s, list, from, to);
    var (low, high) := Gap(list, from, to);
    OnPagesParts(low, high - low);
    InHalf(s, root, low);
    LedAnchored(s, root, root, low, 4);
  }

  /** After the gap has been unmapped exactly the regions that stay are translated if and only if
      the tables were filled up to its end. */
  lemma CutBacked(s: Space, t: Space, root: nat, list: seq<Vma>, from: nat, to: nat)
    requires Tree(s, root, LO, HI) && Hung(s, root, LO, HI) && Backed(s, root, list) && LeavesIn(s, list)
    requires Sorted(list) && from < to <= HALF && !Straddled(list, from, to)
    requires var (low, high) := Gap(list, from, to); low < high && t.mem == UnmapFrom(s.mem, root, low, high - low, 4)
    ensures Backed(t, root, Without(list, from, to)) <==>
            Filled(s.mem, root, Gap(list, from, to).0, Gap(list, from, to).1, 4)
    ensures Backed(t, root, Without(list, from, to)) ==> OnlyWithin(s, t, root, from, to)
  {
    hide *;
    var (low, high) := Gap(list, from, to);
    GapAnchored(s, root, list, from, to);
    if Filled(s.mem, root, low, high, 4) {
      FilledIsExact(s, root, low, high - low);
      CutExact(s, t, root, list, from, to);
    } else {
      OnPagesParts(low, high - low);
      TopFits(low, high - low);
      LostEnd(s.mem, root, low, high - low, 4);
      CutLost(s, t, root, list, from, to);
    }
  }

  lemma CutExact(s: Space, t: Space, root: nat, list: seq<Vma>, from: nat, to: nat)
    requires Backed(s, root, list) && Sorted(list) && from < to <= HALF && !Straddled(list, from, to)
    requires var (low, high) := Gap(list, from, to);
             low < high && t.mem == UnmapFrom(s.mem, root, low, high - low, 4) && ExactOn(s, root, low, high - low)
    ensures Backed(t, root, Without(list, from, to)) && OnlyWithin(s, t, root, from, to)
  {
    hide Sorted, Straddled, UnmapFrom, Walk, Mapped, Gap, Without;
    Vmas.CutKeeps(list, from, to);
  }

  lemma CutLost(s: Space, t: Space, root: nat, list: seq<Vma>, from: nat, to: nat)
    requires Sorted(list) && from < to <= HALF && !Straddled(list, from, to)
    requires var (low, high) := Gap(list, from, to);
             && low < high && t.mem == UnmapFrom(s.mem, root, low, high - low, 4) && !Filled(s.mem, root, low, high, 4)
             && Walk(UnmapFrom(s.mem, root, low, high - low, 4), root, 4, high) == None
    ensures !Backed(t, root, Without(list, from, to))
  {
    hide *;
    var (low, high) := Gap(list, from, to);
    FilledBorderNot(s.mem, root, low, high, 4);
    NotHalf(high, 4);
    HighMapped(list, from, to);
    Vmas.CutKeeps(list, from, to);
    TranslateIs(t, root, high);
    NotBacked(t, root, Without(list, from, to), high);
  }

  /** The address after the gap is a region's that stays. */
  lemma HighMapped(list: seq<Vma>, from: nat, to: nat)
    requires Sorted(list) && from < to <= HALF && !Straddled(list, from, to) && Gap(list, from, to).1 != HALF
    ensures Gap(list, from, to).1 < HALF && Mapped(list, Gap(list, from, to).1) && Gap(list, from, to).1 >= to
  {
    CutPlaces(list, from, to);
    Bounds(list);
    hide Sorted, Straddled, EndsAbove, BeginsAt;
    var n := BeginsAt(list, to);
    assert list[n].begin <= Gap(list, from, to).1 < list[n].end;
  }

  lemma NotBacked(s: Space, root: nat, list: seq<Vma>, a: nat)
    requires a < HALF && Mapped(list, a) && Translate(s, root, a) == None
    ensures !Backed(s, root, list)
  {
    hide Translate, Mapped;
  }

  lemma RootIs(s: Space, root: nat)
    requires Tree(s, root, LO, HI)
    ensures root in s.info && s.info[root] == Info(4, 0) && s.info[root].lvl == 4
  {
    hide EntriesOk;
  }

  /** A leaf that is left is an old one, in a region that stays. */
  lemma CutLeaves(s: Space, t: Space, root: nat, list: seq<Vma>, from: nat, to: nat)
    requires Tree(t, root, LO, HI) && Hung(t, root, LO, HI) && LeavesIn(s, list)
    requires Backed(t, root, Without(list, from, to))
    requires Sorted(list) && from < to <= HALF && !Straddled(list, from, to) && Fades(s.mem, t.mem)
    requires forall g :: g in t.info ==> g in s.info && t.info[g] == s.info[g]
    ensures LeavesIn(t, Without(list, from, to))
  {
    hide Sorted, Straddled, Tree, Hung, HasLeaf, InRegion, Without, Backed, Fades;
    forall g, i | HasLeaf(t, g, i, LO, HI)
      ensures exists n :: 0 <= n < |Without(list, from, to)| && InRegion(t, g, i, Without(list, from, to)[n]) {
      LeafLeft(s, t, root, list, from, to, g, i);
    }
  }

  lemma LeafLeft(s: Space, t: Space, root: nat, list: seq<Vma>, from: nat, to: nat, g: nat, i: nat)
    requires Tree(t, root, LO, HI) && Hung(t, root, LO, HI) && LeavesIn(s, list)
    requires Backed(t, root, Without(list, from, to))
    requires Sorted(list) && from < to <= HALF && !Straddled(list, from, to) && Fades(s.mem, t.mem)
    requires forall g :: g in t.info ==> g in s.info && t.info[g] == s.info[g]
    requires HasLeaf(t, g, i, LO, HI)
    ensures exists n :: 0 <= n < |Without(list, from, to)| && InRegion(t, g, i, Without(list, from, to)[n])
  {
    hide *;
    LeafNoLink(t, g, i, LO, HI);
    StillLeaf(s, t, g, i);
    LeafEnds(t, g, i);
    var b := EntryBase(t.info[g].base, t.info[g].lvl, i);
    LeafThrough(t, root, g, i, b);
    var k := RegionOf(s, list, g, i);
    InRegionSame(s, t, g, i, list[k]);
    InRegionIs(t, g, i, list[k]);
    var n := RegionAt(t, root, Without(list, from, to), b);
    SameRegion(list, from, to, k, n, b);
  }

  lemma RegionAt(s: Space, root: nat, list: seq<Vma>, a: nat) returns (n: nat)
    requires Backed(s, root, list) && a < HALF && Translate(s, root, a).Some?
    ensures n < |list| && list[n].begin <= a < list[n].end
  {
    hide Translate;
    n :| 0 <= n < |list| && list[n].begin <= a < list[n].end;
  }

  lemma StillLeaf(s: Space, t: Space, g: nat, i: nat)
    requires Fades(s.mem, t.mem) && HasLeaf(t, g, i, LO, HI) && g in s.info && t.info[g] == s.info[g]
    ensures HasLeaf(s, g, i, LO, HI) && Entry(t, g, i) == Entry(s, g, i)
  {}

  lemma SameRegion(list: seq<Vma>, from: nat, to: nat, k: nat, n: nat, b: nat)
    requires Sorted(list) && from < to <= HALF && !Straddled(list, from, to) && k < |list|
    requires n < |Without(list, from, to)|
    requires list[k].begin <= b < list[k].end && Without(list, from, to)[n].begin <= b < Without(list, from, to)[n].end
    ensures list[k] == Without(list, from, to)[n]
  {
    hide Straddled, Without, PageAligned;
    var v := Without(list, from, to)[n];
    Vmas.CutKeeps(list, from, to);
    assert v in Without(list, from, to);
    var j :| 0 <= j < |list| && list[j] == v;
    OneRegion(list, j, k, b);
  }

  lemma OneRegion(list: seq<Vma>, j: nat, k: nat, b: nat)
    requires Sorted(list) && j < |list| && k < |list| && list[j].begin <= b < list[j].end
    requires list[k].begin <= b < list[k].end
    ensures j == k
  {
    hide PageAligned;
  }

  // ---- nothing mapped ----

  lemma EmptyLeaves(s: Space, root: nat)
    requires Tree(s, root, LO, HI) && Hung(s, root, LO, HI) && Emptied(s, root, LO, HI)
    ensures LeavesIn(s, [])
  {
    hide Tree, Hung, Entry, EntryBase, Size;
    forall g, i ensures !HasLeaf(s, g, i, LO, HI) {
      if g in s.info { NothingLeft(s, root, LO, HI, g); }
    }
  }

  /** The same tables hold the same leaves. */
  lemma SameLeaves(s: Space, t: Space, list: seq<Vma>)
    requires LeavesIn(s, list) && t.info == s.info
    requires forall g :: g in s.info ==> g in t.mem && g in s.mem && t.mem[g] == s.mem[g]
    ensures LeavesIn(t, list)
  {
    hide EntryBase, Size;
    forall g, i | HasLeaf(t, g, i, LO, HI) ensures exists k :: 0 <= k < |list| && InRegion(t, g, i, list[k]) {
      assert HasLeaf(s, g, i, LO, HI);
      var k :| 0 <= k < |list| && InRegion(s, g, i, list[k]);
      assert InRegion(t, g, i, list[k]);
    }
  }

  // ---- what a space is ----

  lemma UserIsTree(s: Space, root: nat, busy: set<Block>)
    requires User(s, root, LO, HI, busy)
    ensures Tree(s, root, LO, HI)
  {}

  lemma UserHung(s: Space, root: nat, busy: set<Block>)
    requires User(s, root, LO, HI, busy)
    ensures Hung(s, root, LO, HI)
  {}

  lemma TreeTables(s: Space, root: nat)
    requires Tree(s, root, LO, HI)
    ensures TablesOk(s, root)
  {}

  lemma KeptInfo(s: Space, t: Space, f: nat)
    requires f in s.info && Kept(s, t, f)
    ensures forall g :: g in t.info ==> g in s.info && t.info[g] == s.info[g]
  {}

  lemma LivesFrom(z: Zone, s: Space, root: nat, list: seq<Vma>)
    requires Valid(z) && 0 !in z.owner && TablesBusy(s.mem, z.busy) && User(s, root, LO, HI, z.busy)
    requires Others(s, z.busy)
    requires Sorted(list) && Backed(s, root, list) && LeavesIn(s, list)
    ensures Lives(z, s, root, list)
  {}

  lemma LivesTree(z: Zone, s: Space, root: nat, list: seq<Vma>)
    requires Lives(z, s, root, list)
    ensures Tree(s, root, LO, HI) && Hung(s, root, LO, HI) && Sorted(list) && Backed(s, root, list) && LeavesIn(s, list)
  {}
}
