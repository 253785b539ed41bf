/** Which frames a user address space translates to: every frame lies in a block the space
    holds, no two pages share one, and no frame is free or belongs to another space. */
module UserFrames {
  import opened Bits
  import opened BuddyZone
  import BuddyClient
  import opened Paging
  import opened MapLoop
  import opened UserTree
  import opened UserSweep

  /** The frame address behind user address `a`. */
  function Translate(s: Space, root: nat, a: nat): Option<nat> {
    Walk(s.mem, root, 4, a)
  }

  ghost predicate InLeaf(s: Space, g: nat, i: nat, a: nat) {
    g in s.info && EntryBase(s.info[g].base, s.info[g].lvl, i) <= a < EntryBase(s.info[g].base, s.info[g].lvl, i)
                   + Size(s.info[g].lvl)
  }

  /** Address `a` is translated by the leaf in entry `i` of table `g`. */
  ghost predicate Through(s: Space, f: nat, a: nat, g: nat, i: nat) {
    && f in s.info && HasLeaf(s, g, i, LO, HI) && InLeaf(s, g, i, a)
    && Walk(s.mem, f, s.info[f].lvl, a) == Some(Entry(s, g, i).phys + (a - EntryBase(s.info[g].base, s.info[g].lvl, i)))
  }

  /** The leaf that translates `a` translates every address of its entry. */
  lemma {:induction false} WalkLeaf(s: Space, root: nat, f: nat, a: nat) returns (g: nat, i: nat)
    requires Tree(s, root, LO, HI) && f in s.info && Covers(s.info[f], a)
    requires s.info[f].lvl == 4 ==> RootEntry(a, LO, HI)
    requires Walk(s.mem, f, s.info[f].lvl, a).Some?
    ensures InLeaf(s, g, i, a)
    ensures forall b: nat :: InLeaf(s, g, i, b) ==> Covers(s.info[f], b) && Through(s, f, b, g, i)
    decreases s.info[f].lvl
  {
    hide PtIndex, Size, Placed, EntryBase, Covers;
    var n := s.info[f];
    g, i := f, PtIndex(a, n.lvl);
    assert Placed(n) && |s.mem[f]| == 512;
    PlacedLevel(n);
    assert Mine(s, f, i, LO, HI) && EntryOk(s, f, i);
    var pte := s.mem[f][i];
    if Link(pte, n.lvl) {
      ChildCovers(n, i, a);
      g, i := WalkLeaf(s, root, pte.phys, a);
      forall b: nat | InLeaf(s, g, i, b) ensures Covers(n, b) && Through(s, f, b, g, i) {
        ChildCovers(n, PtIndex(a, n.lvl), b);
        WalkThrough(s.mem, f, n.lvl, b);
      }
    } else {
      HasEntry(n, a);
      forall b: nat | InLeaf(s, g, i, b) ensures Covers(n, b) && Through(s, f, b, g, i) {
        InEntry(n, b, i);
      }
    }
  }

  lemma UserCovers(s: Space, root: nat, a: nat)
    requires Tree(s, root, LO, HI) && a < HALF
    ensures root in s.info && s.info[root].lvl == 4 && Covers(s.info[root], a) && RootEntry(a, LO, HI)
  {}

  lemma LeafIn(s: Space, root: nat, a: nat) returns (g: nat, i: nat)
    requires Tree(s, root, LO, HI) && a < HALF && Translate(s, root, a).Some?
    ensures Through(s, root, a, g, i) && forall b: nat :: InLeaf(s, g, i, b) ==> Through(s, root, b, g, i)
  {
    hide *;
    UserCovers(s, root, a);
    TranslateIs(s, root, a);
    g, i := WalkLeaf(s, root, root, a);
  }

  lemma TranslateIs(s: Space, root: nat, a: nat)
    ensures Translate(s, root, a) == Walk(s.mem, root, 4, a)
  {}

  lemma LeafPages(lvl: nat)
    requires 1 <= lvl <= 4
    ensures Size(lvl) == Pow2(LeafOrder(lvl)) * PAGE
  {
    SizeIsPow2(lvl);
    Pow2Add(LeafOrder(lvl), 12);
    assert Pow2(12) == PAGE;
  }

  lemma OffsetInBlock(phys: nat, o: nat, n: nat)
    requires phys % PAGE == 0 && o < n * PAGE
    ensures phys / PAGE <= (phys + o) / PAGE < phys / PAGE + n
  {
    var q, r := o / PAGE, o % PAGE;
    DivUnique(phys + o, PAGE, phys / PAGE + q, r);
  }

  /** The frame lies in the leaf's block. */
  lemma FrameInBlock(s: Space, root: nat, a: nat, g: nat, i: nat)
    requires Tree(s, root, LO, HI) && Through(s, root, a, g, i) && s.info[root].lvl == 4
    ensures Translate(s, root, a).Some? && InBlock(Translate(s, root, a).value / PAGE, LeafOf(s, g, i))
    ensures Entry(s, g, i).phys % PAGE == 0 && EntryBase(s.info[g].base, s.info[g].lvl, i) % PAGE == 0
  {
    hide Size, Placed, EntryBase, Pow2, LeafOrder;
    var n, pte := s.info[g], Entry(s, g, i);
    assert Placed(n) && EntryOk(s, g, i);
    PlacedLevel(n);
    LeafPages(n.lvl);
    SizeDivides(1, n.lvl, pte.phys);
    SizeDivides(1, n.lvl, 0);
    SizePage();
    OffsetInBlock(pte.phys, a - EntryBase(n.base, n.lvl, i), Pow2(LeafOrder(n.lvl)));
    BaseAligned(n, i);
  }

  lemma BaseAligned(n: Info, i: nat)
    requires Placed(n) && i < 512
    ensures EntryBase(n.base, n.lvl, i) % PAGE == 0
  {
    hide Size;
    PlacedLevel(n);
    SizeUp(n.lvl);
    SizePage();
    Multiple(Size(n.lvl), i);
    SizeDivides(1, n.lvl, i * Size(n.lvl));
    SizeDivides(1, n.lvl + 1, n.base);
    MultipleSum(PAGE, n.base, i * Size(n.lvl));
  }

  /** The frame of a user page is never free, and never one of the space's own tables. */
  lemma FrameHeld(z: Zone, s: Space, root: nat, a: nat)
    requires Valid(z) && User(s, root, LO, HI, z.busy) && a < HALF && Translate(s, root, a).Some?
    ensures var p := Translate(s, root, a).value;
            && p / PAGE !in FreePages(z) && p / PAGE in z.owner && p / PAGE < z.end
            && forall f :: f in s.info ==> p / PAGE != f / PAGE
  {
    hide Valid, FreePages, InBlock, Tree, Hung, HasLeaf, LeafOf, Walk, Translate, TableBlock, EntryOk, Entry;
    UserCovers(s, root, a);
    var g, i := LeafIn(s, root, a);
    FrameInBlock(s, root, a, g, i);
    var p, b := Translate(s, root, a).value, LeafOf(s, g, i);
    assert b in z.busy;
    BusyPage(z, b, p / PAGE);
    forall f | f in s.info ensures p / PAGE != f / PAGE {
      HeadInBlock(TableBlock(f));
      TableHead(f);
      if p / PAGE == f / PAGE { BuddyClient.NoPageTwice(z, b, TableBlock(f), p / PAGE); }
    }
  }

  lemma TableHead(f: nat)
    ensures TableBlock(f).head == f / PAGE
  {}

  lemma BusyPage(z: Zone, b: Block, p: nat)
    requires Valid(z) && b in z.busy && InBlock(p, b)
    ensures p !in FreePages(z) && p in z.owner && p < z.end
  {
    assert Whole(z, b);
  }

  /** Translation is one to one: two user pages never share a frame. */
  lemma FramesApart(z: Zone, s: Space, root: nat, a: nat, b: nat)
    requires Valid(z) && User(s, root, LO, HI, z.busy) && a < HALF && b < HALF && a / PAGE != b / PAGE
    requires Translate(s, root, a).Some? && Translate(s, root, b).Some?
    ensures Translate(s, root, a).value / PAGE != Translate(s, root, b).value / PAGE
  {
    hide Valid, FreePages, InBlock, Tree, Hung, HasLeaf, LeafOf, Walk, Translate, TableBlock, EntryOk, Entry, Size;
    hide Placed, EntryBase;
    UserCovers(s, root, a);
    var g, i := LeafIn(s, root, a);
    var h, j := LeafIn(s, root, b);
    FrameInBlock(s, root, a, g, i);
    FrameInBlock(s, root, b, h, j);
    TranslateIs(s, root, a);
    TranslateIs(s, root, b);
    var p, q := Translate(s, root, a).value, Translate(s, root, b).value;
    if p / PAGE == q / PAGE {
      BuddyClient.NoPageTwice(z, LeafOf(s, g, i), LeafOf(s, h, j), p / PAGE);
      assert g == h && i == j;
      SameOffset(Entry(s, g, i).phys, EntryBase(s.info[g].base, s.info[g].lvl, i), a, b);
    }
  }

  lemma SameOffset(phys: nat, base: nat, a: nat, b: nat)
    requires phys % PAGE == 0 && base % PAGE == 0 && base <= a && base <= b
    ensures (phys + (a - base)) / PAGE == (phys + (b - base)) / PAGE ==> a / PAGE == b / PAGE
  {}

  /** Spaces that hold disjoint blocks translate to disjoint frames. */
  lemma SpacesApart(z: Zone, s: Space, root: nat, t: Space, top: nat, a: nat, b: nat)
    requires Valid(z) && User(s, root, LO, HI, z.busy) && User(t, top, LO, HI, z.busy)
    requires Holds(s, LO, HI) !! Holds(t, LO, HI)
    requires a < HALF && b < HALF && Translate(s, root, a).Some? && Translate(t, top, b).Some?
    ensures Translate(s, root, a).value / PAGE != Translate(t, top, b).value / PAGE
  {
    hide Valid, FreePages, InBlock, Tree, Hung, HasLeaf, LeafOf, Walk, Translate, TableBlock, EntryOk, Entry, Size;
    hide Placed, EntryBase, Holds;
    UserCovers(s, root, a);
    UserCovers(t, top, b);
    var g, i := LeafIn(s, root, a);
    var h, j := LeafIn(t, top, b);
    FrameInBlock(s, root, a, g, i);
    FrameInBlock(t, top, b, h, j);
    LeafInHolds(s, LO, HI, g, i);
    LeafInHolds(t, LO, HI, h, j);
    var p := Translate(s, root, a).value / PAGE;
    if p == Translate(t, top, b).value / PAGE {
      BuddyClient.NoPageTwice(z, LeafOf(s, g, i), LeafOf(t, h, j), p);
    }
  }

  /** Inside one page translation is by offset. */
  lemma PageOffset(s: Space, root: nat, a: nat, b: nat)
    requires Tree(s, root, LO, HI) && a < HALF && b < HALF && a / PAGE == b / PAGE && Translate(s, root, a).Some?
    ensures Translate(s, root, b).Some? && Translate(s, root, b).value == Translate(s, root, a).value + b - a
    ensures Translate(s, root, a).value % PAGE == a % PAGE
  {
    hide Tree, HasLeaf, LeafOf, Walk, EntryOk, Entry, Size, Placed, EntryBase;
    UserCovers(s, root, a);
    UserCovers(s, root, b);
    var g, i := LeafIn(s, root, a);
    FrameInBlock(s, root, a, g, i);
    LeafSpan(s, root, g, i, a, b);
    TranslateIs(s, root, a);
    TranslateIs(s, root, b);
    SameRemainder(Entry(s, g, i).phys, EntryBase(s.info[g].base, s.info[g].lvl, i), a);
  }

  lemma SameRemainder(phys: nat, base: nat, a: nat)
    requires phys % PAGE == 0 && base % PAGE == 0 && base <= a
    ensures (phys + (a - base)) % PAGE == a % PAGE
  {}

  lemma LeafSpan(s: Space, root: nat, g: nat, i: nat, a: nat, b: nat)
    requires Tree(s, root, LO, HI) && HasLeaf(s, g, i, LO, HI) && InLeaf(s, g, i, a) && a / PAGE == b / PAGE
    ensures InLeaf(s, g, i, b)
  {
    hide Size, EntryBase, Placed;
    assert Placed(s.info[g]) && i < 512;
    var e, base := Size(s.info[g].lvl), EntryBase(s.info[g].base, s.info[g].lvl, i);
    PlacedLevel(s.info[g]);
    BaseAligned(s.info[g], i);
    SizePage();
    SizeDivides(1, s.info[g].lvl, 0);
    SpanPage(base, e, a, b);
  }

  lemma SpanPage(base: nat, e: nat, a: nat, b: nat)
    requires base % PAGE == 0 && e % PAGE == 0 && base <= a < base + e && a / PAGE == b / PAGE
    ensures base <= b < base + e
  {}

  // ---- one space while others change ----

  /** A space whose tables did not change and whose blocks are still held is as it was. */
  lemma SpaceSame(s: Space, t: Space, root: nat, busy: set<Block>, busy1: set<Block>)
    requires User(s, root, LO, HI, busy) && t.info == s.info && Holds(s, LO, HI) <= busy1
    requires forall g :: g in s.info ==> g in t.mem && g in s.mem && t.mem[g] == s.mem[g]
    ensures User(t, root, LO, HI, busy1) && Holds(t, LO, HI) == Holds(s, LO, HI)
    ensures forall a: nat :: a < HALF ==> Translate(t, root, a) == Translate(s, root, a)
  {
    hide TableBlock, LeafBlock, Size, EntryBase, Placed, Pow2;
    forall f, i ensures Mine(t, f, i, LO, HI) == Mine(s, f, i, LO, HI)
                        && (Mine(s, f, i, LO, HI) ==> Entry(t, f, i) == Entry(s, f, i)) {}
    SameHolds(s, t, root);
    SameTree(s, t, root);
    SameHeld(s, t, root, busy, busy1);
    forall a: nat | a < HALF ensures Translate(t, root, a) == Translate(s, root, a) {
      UserCovers(s, root, a);
      WalkLocal(s, t.mem, root, LO, HI, root, a);
    }
  }

  lemma SameTree(s: Space, t: Space, root: nat)
    requires Tree(s, root, LO, HI) && Hung(s, root, LO, HI) && t.info == s.info
    requires forall g :: g in s.info ==> g in t.mem && g in s.mem && t.mem[g] == s.mem[g]
    ensures Tree(t, root, LO, HI) && Hung(t, root, LO, HI)
  {
    hide Size, EntryBase, Placed;
    forall f: nat, i: nat | Mine(t, f, i, LO, HI)
      ensures EntryOk(t, f, i) { assert Mine(s, f, i, LO, HI) && EntryOk(s, f, i); }
    forall g | g in t.info && g != root ensures exists f, i :: UserTree.Parent(t, f, i, g, LO, HI) {
      var f: nat, i: nat :| UserTree.Parent(s, f, i, g, LO, HI);
      assert UserTree.Parent(t, f, i, g, LO, HI);
    }
  }

  lemma SameLeaf(s: Space, t: Space, f: nat, i: nat)
    requires t.info == s.info && forall g :: g in s.info ==> g in t.mem && g in s.mem && t.mem[g] == s.mem[g]
    ensures HasLeaf(t, f, i, LO, HI) == HasLeaf(s, f, i, LO, HI)
    ensures HasLeaf(s, f, i, LO, HI) ==> LeafOf(t, f, i) == LeafOf(s, f, i)
  {}

  lemma SameHolds(s: Space, t: Space, root: nat)
    requires t.info == s.info && forall g :: g in s.info ==> g in t.mem && g in s.mem && t.mem[g] == s.mem[g]
    ensures Holds(t, LO, HI) == Holds(s, LO, HI)
  {
    hide TableBlock, LeafOf, HasLeaf, Holds;
    forall f: nat, i: nat
      ensures HasLeaf(t, f, i, LO, HI) == HasLeaf(s, f, i, LO, HI)
      ensures HasLeaf(s, f, i, LO, HI) ==> LeafOf(t, f, i) == LeafOf(s, f, i) { SameLeaf(s, t, f, i); }
    forall b ensures b in Holds(t, LO, HI) <==> b in Holds(s, LO, HI) {
      HoldsIn(s, LO, HI, b);
      HoldsIn(t, LO, HI, b);
    }
  }

  lemma SameHeld(s: Space, t: Space, root: nat, busy: set<Block>, busy1: set<Block>)
    requires User(s, root, LO, HI, busy) && t.info == s.info && Holds(s, LO, HI) <= busy1
    requires forall g :: g in s.info ==> g in t.mem && g in s.mem && t.mem[g] == s.mem[g]
    ensures TablesHeld(t, busy1) && LeavesHeld(t, LO, HI, busy1) && HeldOnce(t, LO, HI)
  {
    hide TableBlock, LeafOf, HasLeaf, Holds, Tree, Hung;
    forall f: nat, i: nat
      ensures HasLeaf(t, f, i, LO, HI) == HasLeaf(s, f, i, LO, HI)
      ensures HasLeaf(s, f, i, LO, HI) ==> LeafOf(t, f, i) == LeafOf(s, f, i) { SameLeaf(s, t, f, i); }
    forall f | f in s.info ensures TableBlock(f) in busy1 { HoldsIn(s, LO, HI, TableBlock(f)); }
    forall f: nat, i: nat | HasLeaf(t, f, i, LO, HI)
      ensures LeafOf(t, f, i) in busy1 { HoldsIn(s, LO, HI, LeafOf(s, f, i)); }
  }
}
