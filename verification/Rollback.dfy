/** The rollback of mmap after a failed pt_map: what it unmaps, and exactly when regions and
    tables agree again. */
module Rollback {
  import opened Bits
  import opened BuddyZone
  import opened Paging
  import opened MapLoop
  import opened UserTree
  import opened UserSweep
  import opened UnmapRange
  import opened UnmapBorder
  import opened UserFrames
  import opened UserMap
  import opened Vmas
  import opened Regions

  /** Where the rollback starts: at the region after the range, or where there is none at the end
      of the region before it. */
  function BackFrom(list: seq<Vma>, from: nat): nat {
    var k := EndsAbove(list, from);
    if k < |list| then list[k].begin else if k > 0 then list[k - 1].end else 0
  }

  /** When pt_map gave up it had mapped only inside the range, and every page of the zone was held. */
  ghost predicate Spent(s: Space, busy: set<Block>, mid: Space, peak: set<Block>, root: nat, from: nat, to: nat,
                        pages: set<nat>) {
    && User(mid, root, LO, HI, peak) && SameRest(s, busy, mid, peak) && OnlyWithin(s, mid, root, from, to)
    && AllHeld(pages, peak)
  }

  /** Every page is in a held block. */
  ghost predicate AllHeld(pages: set<nat>, busy: set<Block>) {
    forall p :: p in pages ==> exists b :: b in busy && InBlock(p, b)
  }

  lemma NothingFree(z: Zone)
    requires Valid(z) && FreePages(z) == {}
    ensures AllHeld(z.owner.Keys, z.busy)
  {
    hide Pow2, Aligned, Xor, Coalesced, HolesClean, FreeWhole, BusyWhole, InBlock;
    forall p | p in z.owner.Keys ensures exists b :: b in z.busy && InBlock(p, b) {
      assert p !in FreePages(z);
      assert InBlock(p, z.owner[p]);
    }
  }

  lemma BackFromIs(list: seq<Vma>, k: nat, from: nat, to: nat)
    requires Sorted(list) && k <= |list| && from < to <= HALF
    requires forall i :: 0 <= i < k ==> list[i].end <= from
    requires forall i :: k <= i < |list| ==> to <= list[i].begin
    ensures k == EndsAbove(list, from) && BackFrom(list, from) < HALF && BackFrom(list, from) % 0x1000 == 0
    ensures BackFrom(list, from) == if k < |list| then list[k].begin else if k > 0 then list[k - 1].end else 0
    ensures k < |list| ==> to <= BackFrom(list, from)
    ensures k == |list| ==> BackFrom(list, from) <= from
  {
    PlaceAbove(list, from, k);
  }

  lemma {:induction false} PlaceAbove(list: seq<Vma>, from: nat, k: nat)
    requires k <= |list| && (forall i :: 0 <= i < k ==> list[i].end <= from) && (k < |list| ==> list[k].end > from)
    ensures k == EndsAbove(list, from)
  {}

  lemma RollbackStart(mid: Space, root: nat, peak: set<Block>, list: seq<Vma>, k: nat, from: nat, to: nat)
    requires User(mid, root, LO, HI, peak) && Sorted(list) && k <= |list| && from < to <= HALF
    requires forall i :: 0 <= i < k ==> list[i].end <= from
    requires forall i :: k <= i < |list| ==> to <= list[i].begin
    ensures root in mid.info && mid.info[root].lvl == 4
    ensures k == EndsAbove(list, from) && BackFrom(list, from) < HALF
    ensures InOne(BackFrom(list, from), HALF - BackFrom(list, from), 4)
    ensures BackFrom(list, from) == if k < |list| then list[k].begin else if k > 0 then list[k - 1].end else 0
  {
    BackFromIs(list, k, from, to);
    hide *;
    UserIsTree(mid, root, peak);
    RootIs(mid, root);
    TopFits(BackFrom(list, from), HALF - BackFrom(list, from));
  }

  /** Regions and tables agree again exactly where no region follows. */
  lemma RollbackDone(z: Zone, s: Space, busy: set<Block>, mid: Space, peak: set<Block>, t: Space, busy1: set<Block>,
                     root: nat, list: seq<Vma>, k: nat, from: nat, to: nat)
    requires Valid(z) && z.busy == peak && FreePages(z) == {}
    requires Tree(s, root, LO, HI) && Backed(s, root, list) && LeavesIn(s, list) && Sorted(list)
    requires User(mid, root, LO, HI, peak) && SameRest(s, busy, mid, peak) && Untouched(s, mid, root)
    requires OnlyWithin(s, mid, root, from, to) && Grown(s, mid)
    requires forall g :: g in s.info ==> g in mid.info && mid.info[g] == s.info[g]
    requires k <= |list| && from < to <= HALF
    requires forall i :: 0 <= i < k ==> list[i].end <= from
    requires forall i :: k <= i < |list| ==> to <= list[i].begin
    requires root in mid.info && Swept(mid, peak, t, busy1, root, root)
    requires BackFrom(list, from) < HALF
    requires t.mem == UnmapFrom(mid.mem, root, BackFrom(list, from), HALF - BackFrom(list, from), 4)
    ensures User(t, root, LO, HI, busy1) && Others(t, busy1) && Untouched(s, t, root) && SameRest(s, busy, t, busy1)
    ensures Spent(s, busy, mid, peak, root, from, to, z.owner.Keys)
    ensures OnlyWithin(s, t, root, from, HALF)
    ensures Backed(t, root, list) && LeavesIn(t, list) <==> EndsAbove(list, from) == |list|
    ensures EndsAbove(list, from) == |list| ==> OnlyWithin(s, t, root, from, from)
  {
    hide *;
    NothingFree(z);
    SpentFrom(s, busy, mid, peak, root, from, to, z.owner.Keys);
    UserIsTree(mid, root, peak);
    UserHung(mid, root, peak);
    SweptParts(mid, peak, t, busy1, root, root);
    TreeTables(mid, root);
    UntouchedKept(mid, t, root);
    UntouchedTrans(s, mid, t, root);
    RestTrans(s, busy, mid, peak, t, busy1);
    BackFromIs(list, k, from, to);
    RollbackNone(z, s, mid, root, list, k, from, to);
    RollbackLed(s, mid, root, list, k, from, to);
    EndIsExact(mid, root, BackFrom(list, from));
    RollbackTranslates(s, mid, t, root, list, k, from, to);
    if k == |list| {
      FromFades(mid.mem, root, BackFrom(list, from), HALF - BackFrom(list, from), 4);
      KeptInfo(mid, t, root);
      RollbackLeaves(z, s, mid, t, root, list, from, to);
    }
  }

  lemma SpentFrom(s: Space, busy: set<Block>, mid: Space, peak: set<Block>, root: nat, from: nat, to: nat,
                  pages: set<nat>)
    requires User(mid, root, LO, HI, peak) && SameRest(s, busy, mid, peak) && OnlyWithin(s, mid, root, from, to)
    requires AllHeld(pages, peak)
    ensures Spent(s, busy, mid, peak, root, from, to, pages)
  {
    hide User, SameRest, OnlyWithin, AllHeld;
  }

  /** No leaf, old or new, reaches over the start of the rollback. */
  lemma RollbackNone(z: Zone, s: Space, mid: Space, root: nat, list: seq<Vma>, k: nat, from: nat, to: nat)
    requires Valid(z) && Tree(s, root, LO, HI) && User(mid, root, LO, HI, z.busy) && LeavesIn(s, list) && Sorted(list)
    requires OnlyWithin(s, mid, root, from, to) && Grown(s, mid)
    requires forall g :: g in s.info ==> g in mid.info && mid.info[g] == s.info[g]
    requires k == EndsAbove(list, from) && from < to
    requires BackFrom(list, from) == if k < |list| then list[k].begin else if k > 0 then list[k - 1].end else 0
    requires if k < |list| then to <= BackFrom(list, from) else BackFrom(list, from) <= from
    ensures NoneAcross(mid, BackFrom(list, from))
  {
    hide Valid, User, InRegion, OnlyWithin, Grown, Tree, EntryBase, Size, EndsAbove, BackFrom, Sorted;
    forall g, i | HasLeaf(mid, g, i, LO, HI) ensures Beside(mid, g, i, BackFrom(list, from)) {
      RollbackBeside(z, s, mid, root, list, k, from, to, g, i);
    }
  }

  lemma RollbackBeside(z: Zone, s: Space, mid: Space, root: nat, list: seq<Vma>, k: nat, from: nat, to: nat, g: nat,
                       i: nat)
    requires Valid(z) && Tree(s, root, LO, HI) && User(mid, root, LO, HI, z.busy) && LeavesIn(s, list) && Sorted(list)
    requires OnlyWithin(s, mid, root, from, to) && Grown(s, mid)
    requires forall g :: g in s.info ==> g in mid.info && mid.info[g] == s.info[g]
    requires k == EndsAbove(list, from) && from < to
    requires BackFrom(list, from) == if k < |list| then list[k].begin else if k > 0 then list[k - 1].end else 0
    requires if k < |list| then to <= BackFrom(list, from) else BackFrom(list, from) <= from
    requires HasLeaf(mid, g, i, LO, HI)
    ensures g in mid.info && Beside(mid, g, i, BackFrom(list, from))
  {
    hide *;
    LeafNoLink(mid, g, i, LO, HI);
    LeafEnds(mid, g, i);
    var x, b, e := BackFrom(list, from), EntryBase(mid.info[g].base, mid.info[g].lvl, i), Size(mid.info[g].lvl);
    BesideIs(mid, g, i, x);
    if b < x < b + e {
      var a := if k < |list| then x else x - 1;
      InLeafIs(mid, g, i, a);
      OldLeafAt(z, s, mid, root, Vma(from, to, 0), g, i, a);
      var n := RegionOf(s, list, g, i);
      InRegionIs(s, g, i, list[n]);
      CutByNone(list, k, n, x);
    }
  }

  lemma BesideIs(s: Space, g: nat, i: nat, x: nat)
    requires g in s.info
    ensures Beside(s, g, i, x) <==>
            !(EntryBase(s.info[g].base, s.info[g].lvl, i) < x < EntryBase(s.info[g].base, s.info[g].lvl, i)
              + Size(s.info[g].lvl))
  {}

  lemma InLeafIs(s: Space, g: nat, i: nat, a: nat)
    requires g in s.info
    requires EntryBase(s.info[g].base, s.info[g].lvl, i) <= a < EntryBase(s.info[g].base, s.info[g].lvl, i)
             + Size(s.info[g].lvl)
    ensures InLeaf(s, g, i, a)
  {}

  /** No region reaches over the start of another, or over the end of the last. */
  lemma CutByNone(list: seq<Vma>, k: nat, n: nat, x: nat)
    requires Sorted(list) && n < |list| && k <= |list|
    requires x == if k < |list| then list[k].begin else if k > 0 then list[k - 1].end else 0
    ensures !(list[n].begin < x < list[n].end)
  {
    hide PageAligned;
  }

  /** Tables lead to the start of the rollback. */
  lemma RollbackLed(s: Space, mid: Space, root: nat, list: seq<Vma>, k: nat, from: nat, to: nat)
    requires Tree(s, root, LO, HI) && Tree(mid, root, LO, HI) && Backed(s, root, list) && Sorted(list)
    requires OnlyWithin(s, mid, root, from, to)
    requires k == EndsAbove(list, from) && from < to <= HALF
    requires BackFrom(list, from) == if k < |list| then list[k].begin else if k > 0 then list[k - 1].end else 0
    requires if k < |list| then to <= BackFrom(list, from) else BackFrom(list, from) <= from
    ensures Led(mid.mem, root, BackFrom(list, from), 4)
  {
    hide *;
    RootIs(s, root);
    RootIs(mid, root);
    if k > 0 || k < |list| {
      Bounds(list);
      var a := if k < |list| then list[k].begin else list[k - 1].end - 1;
      StillLed(s, mid, root, list, if k < |list| then k else k - 1, from, to, a);
      LedBy(mid, root, BackFrom(list, from), a);
    } else {
      LedHere(mid.mem, root, 0, 4) by { ZeroBorder(); }
    }
  }

  lemma StillLed(s: Space, mid: Space, root: nat, list: seq<Vma>, k: nat, from: nat, to: nat, a: nat)
    requires Backed(s, root, list) && OnlyWithin(s, mid, root, from, to) && k < |list|
    requires list[k].begin <= a < list[k].end <= HALF && !(from <= a < to)
    ensures Translate(mid, root, a).Some?
  {
    hide Translate;
    assert Mapped(list, a);
  }

  lemma LedBy(s: Space, root: nat, v: nat, a: nat)
    requires root in s.info && s.info[root].lvl == 4 && Translate(s, root, a).Some? && (a == v || a + 1 == v)
    ensures Led(s.mem, root, v, 4)
  {
    TranslateIs(s, root, a);
    hide Walk;
  }

  /** From there on nothing is translated afterwards, below it all is as it was. */
  lemma RollbackTranslates(s: Space, mid: Space, t: Space, root: nat, list: seq<Vma>, k: nat, from: nat, to: nat)
    requires Tree(mid, root, LO, HI) && Tree(t, root, LO, HI) && Backed(s, root, list) && Sorted(list)
    requires OnlyWithin(s, mid, root, from, to)
    requires k == EndsAbove(list, from) && from < to <= HALF && BackFrom(list, from) < HALF
    requires BackFrom(list, from) == if k < |list| then list[k].begin else if k > 0 then list[k - 1].end else 0
    requires if k < |list| then to <= BackFrom(list, from) else BackFrom(list, from) <= from
    requires t.mem == UnmapFrom(mid.mem, root, BackFrom(list, from), HALF - BackFrom(list, from), 4)
    requires ExactOn(mid, root, BackFrom(list, from), HALF - BackFrom(list, from))
    ensures OnlyWithin(s, t, root, from, HALF)
    ensures k == |list| ==> Backed(t, root, list) && OnlyWithin(s, t, root, from, from)
    ensures k < |list| ==> !Backed(t, root, list)
  {
    var x := BackFrom(list, from);
    RootIs(mid, root);
    RootIs(t, root);
    Bounds(list);
    NoneAbove(list, k);
    hide Walk, Tree, UnmapFrom, Sorted, EndsAbove, BackFrom;
    forall a: nat | a < HALF
      ensures Translate(t, root, a) == if x <= a then None else Translate(mid, root, a)
    {
      TranslateIs(t, root, a);
      TranslateIs(mid, root, a);
    }
    hide Translate;
    if k < |list| {
      assert Mapped(list, list[k].begin);
    }
  }

  lemma NoneAbove(list: seq<Vma>, k: nat)
    requires Sorted(list) && k <= |list|
    ensures k == |list| && k > 0 ==> forall a: nat :: list[k - 1].end <= a ==> !Mapped(list, a)
    ensures list == [] ==> forall a: nat :: !Mapped(list, a)
  {
    GapSides(list, |list|, |list|);
    hide PageAligned;
  }

  /** A leaf that is left was there before the range was mapped. */
  lemma RollbackLeaves(z: Zone, s: Space, mid: Space, t: Space, root: nat, list: seq<Vma>, from: nat, to: nat)
    requires Valid(z) && Tree(s, root, LO, HI) && User(mid, root, LO, HI, z.busy) && LeavesIn(s, list)
    requires OnlyWithin(s, mid, root, from, to) && Grown(s, mid)
    requires forall g :: g in s.info ==> g in mid.info && mid.info[g] == s.info[g]
    requires Tree(t, root, LO, HI) && Hung(t, root, LO, HI) && Fades(mid.mem, t.mem)
    requires forall g :: g in t.info ==> g in mid.info && t.info[g] == mid.info[g]
    requires Backed(t, root, list) && forall i :: 0 <= i < |list| ==> list[i].end <= from
    ensures LeavesIn(t, list)
  {
    hide Valid, User, HasLeaf, InRegion, OnlyWithin, Grown, Tree, Hung, Fades, Backed;
    forall g, i | HasLeaf(t, g, i, LO, HI) ensures exists n :: 0 <= n < |list| && InRegion(t, g, i, list[n]) {
      var n := LeftLeaf(z, s, mid, t, root, list, from, to, g, i);
    }
  }

  lemma LeftLeaf(z: Zone, s: Space, mid: Space, t: Space, root: nat, list: seq<Vma>, from: nat, to: nat, g: nat,
                 i: nat) returns (n: nat)
    requires Valid(z) && Tree(s, root, LO, HI) && User(mid, root, LO, HI, z.busy) && LeavesIn(s, list)
    requires OnlyWithin(s, mid, root, from, to) && Grown(s, mid)
    requires forall g :: g in s.info ==> g in mid.info && mid.info[g] == s.info[g]
    requires Tree(t, root, LO, HI) && Hung(t, root, LO, HI) && Fades(mid.mem, t.mem)
    requires forall g :: g in t.info ==> g in mid.info && t.info[g] == mid.info[g]
    requires Backed(t, root, list) && forall i :: 0 <= i < |list| ==> list[i].end <= from
    requires HasLeaf(t, g, i, LO, HI)
    ensures n < |list| && InRegion(t, g, i, list[n])
  {
    hide *;
    LeafNoLink(t, g, i, LO, HI);
    LeafEnds(t, g, i);
    StillLeaf(mid, t, g, i);
    var b := EntryBase(t.info[g].base, t.info[g].lvl, i);
    LeafThrough(t, root, g, i, b);
    var m := RegionAt(t, root, list, b);
    LeafEnds(mid, g, i);
    OldLeafAt(z, s, mid, root, Vma(from, to, 0), g, i, b);
    n := RegionOf(s, list, g, i);
    InRegionSame(s, t, g, i, list[n]);
  }

  // ---- a failed mmap that loses a region ----

  /** With no page free pt_map fails at once where all its tables are there; then the rollback
      takes the pages of the regions that follow. */
  lemma RollbackLoses(z: Zone, s: Space, root: nat, list: seq<Vma>, k: nat, from: nat, to: nat, t: Space)
    requires Lives(z, s, root, list) && k < |list| && from < to <= HALF
    requires forall i :: 0 <= i < k ==> list[i].end <= from
    requires forall i :: k <= i < |list| ==> to <= list[i].begin
    requires t.info == s.info && t.mem == UnmapFrom(s.mem, root, list[k].begin, HALF - list[k].begin, 4)
    ensures Mapped(list, list[k].begin) && Translate(t, root, list[k].begin) == None && !Backed(t, root, list)
  {
    hide *;
    LivesTree(z, s, root, list);
    BackFromIs(list, k, from, to);
    SameWithin(s, root, from, to);
    SameGrown(s);
    LivesUser(z, s, root, list);
    RollbackNone(z, s, s, root, list, k, from, to);
    RollbackLed(s, s, root, list, k, from, to);
    EndIsExact(s, root, list[k].begin);
    Bounds(list);
    StartLost(s, t, root, list, k);
  }

  lemma SameWithin(s: Space, root: nat, from: nat, to: nat)
    ensures OnlyWithin(s, s, root, from, to)
  {}

  lemma SameGrown(s: Space)
    ensures Grown(s, s)
  {}

  lemma LivesUser(z: Zone, s: Space, root: nat, list: seq<Vma>)
    requires Lives(z, s, root, list)
    ensures Valid(z) && User(s, root, LO, HI, z.busy)
  {}

  lemma StartLost(s: Space, t: Space, root: nat, list: seq<Vma>, k: nat)
    requires k < |list| && list[k].begin < list[k].end <= HALF && ExactOn(s, root, list[k].begin, HALF - list[k].begin)
    requires t.mem == UnmapFrom(s.mem, root, list[k].begin, HALF - list[k].begin, 4)
    ensures Mapped(list, list[k].begin) && Translate(t, root, list[k].begin) == None && !Backed(t, root, list)
  {
    hide Walk, UnmapFrom;
    TranslateIs(t, root, list[k].begin);
    assert Mapped(list, list[k].begin);
    NotBacked(t, root, list, list[k].begin);
  }
}
