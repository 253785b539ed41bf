/** An address space of two single pages: the smallest that has a region on both sides of a gap. */
module UnmapPair {
  import opened Bits
  import opened Paging
  import opened EntryFlags
  import opened UserTree
  import opened UserSweep
  import opened UnmapRange
  import opened UnmapBorder
  import opened UnmapFilled
  import opened BuddyZone
  import opened UserFrames
  import opened Vmas
  import opened Regions

  const ROOT: nat := 0x5000

  /** The frame under entry level `lvl` + 1 over address `x`: pages 1 to 5 on the way to `a`, and
      where the way to `b` is another, pages 6 to 9; level 0 is the mapped page itself. */
  function Frame(a: nat, lvl: nat, x: nat): nat {
    PAGE * if x / Size(lvl + 1) == a / Size(lvl + 1) then lvl + 1 else lvl + 6
  }

  function Place(a: nat, b: nat, g: nat): Info {
    var p := g / PAGE;
    if 1 <= p <= 5 then Info(p - 1, a - a % Size(p)) else if p > 5 then Info(p - 6, b - b % Size(p - 5)) else Info(0, 0)
  }

  predicate Has(a: nat, x: nat, e: nat) {
    x <= a < x + e
  }

  /** The entry over the addresses from `x` on. */
  function PairEntry(a: nat, b: nat, lvl: nat, x: nat): Pte {
    if (Has(a, x, Size(lvl)) || Has(b, x, Size(lvl))) && lvl > 0 then Pte(true, false, 7, Frame(a, lvl - 1, x))
    else ABSENT
  }

  function PairRow(a: nat, b: nat, g: nat): seq<Pte> {
    seq(512, j requires 0 <= j => PairEntry(a, b, Place(a, b, g).lvl,
                                            EntryBase(Place(a, b, g).base, Place(a, b, g).lvl, j)))
  }

  function Frames(a: nat, b: nat): set<nat> {
    (set l: nat | 1 <= l <= 4 :: Frame(a, l, a)) + (set l: nat | 1 <= l <= 4 :: Frame(a, l, b))
  }

  /** The pages at `a` and `b` and the tables over them. */
  function Pair(a: nat, b: nat): Space {
    Space(map g | g in Frames(a, b) :: PairRow(a, b, g), map g | g in Frames(a, b) :: Place(a, b, g))
  }

  /** Their regions, `b` before `a` or the same. */
  function Two(a: nat, b: nat): seq<Vma> {
    if b < a then [Vma(b, b + PAGE, 3), Vma(a, a + PAGE, 3)] else [Vma(a, a + PAGE, 3)]
  }

  predicate PairOf(a: nat, b: nat) {
    a % PAGE == 0 && b % PAGE == 0 && a < HALF && b <= a
  }

  // ---- places ----

  lemma FramePlace(a: nat, b: nat, lvl: nat, x: nat)
    requires PairOf(a, b) && 1 <= lvl <= 4 && (x == a || x == b)
    ensures Place(a, b, Frame(a, lvl, x)) == Info(lvl, x - x % Size(lvl + 1))
    ensures Placed(Place(a, b, Frame(a, lvl, x))) && Covers(Place(a, b, Frame(a, lvl, x)), x)
    ensures lvl == 4 ==> Frame(a, 4, x) == ROOT && Place(a, b, ROOT) == Info(4, 0)
  {
    FramePage(a, lvl, x);
    TopSize();
    ModBelow(x, Size(lvl + 1));
    var d := TableOf(x, 1, lvl);
    if lvl == 4 { TopDiv(a); TopDiv(x); }
    SameStart(a, x, Size(lvl + 1));
    hide Size, Placed, Covers;
  }

  lemma SameStart(a: nat, x: nat, e: nat)
    requires e > 0
    ensures a / e == x / e <==> a - a % e == x - x % e
  {
    assert a - a % e == e * (a / e) && x - x % e == e * (x / e);
    Multiple(e, a / e);
    Multiple(e, x / e);
  }

  /** A frame is a page of its own. */
  lemma FramePage(a: nat, lvl: nat, x: nat)
    ensures var p := if x / Size(lvl + 1) == a / Size(lvl + 1) then lvl + 1 else lvl + 6;
            Frame(a, lvl, x) == PAGE * p && Frame(a, lvl, x) / PAGE == p && Frame(a, lvl, x) % PAGE == 0
  {
    hide Size;
    Multiple(PAGE, if x / Size(lvl + 1) == a / Size(lvl + 1) then lvl + 1 else lvl + 6);
  }

  lemma TopDiv(x: nat)
    requires x < HALF
    ensures x / Size(5) == 0 && x % Size(5) == x
  {}

  lemma ModBelow(a: nat, e: nat)
    requires e > 0
    ensures a % e + 1 <= e
  {}

  /** The addresses of a table share its frame. */
  lemma SameFrame(a: nat, d: Info, x: nat, y: nat)
    requires Placed(d) && Covers(d, x) && Covers(d, y)
    ensures Frame(a, d.lvl, x) == Frame(a, d.lvl, y)
  {
    var e := Size(d.lvl + 1);
    hide Size;
    var q := d.base / e;
    assert d.base == e * q;
    DivUnique(x, e, q, x - d.base);
    DivUnique(y, e, q, y - d.base);
  }

  lemma PlaceOver(a: nat, b: nat, d: Info, x: nat)
    requires PairOf(a, b) && (x == a || x == b) && Placed(d) && Covers(d, x)
    ensures Place(a, b, Frame(a, d.lvl, x)) == d
  {
    PlacedLevel(d);
    FramePlace(a, b, d.lvl, x);
    hide Frame, Place;
    var e := Size(d.lvl + 1);
    hide Size;
    var q := d.base / e;
    assert d.base == e * q;
    DivUnique(x, e, q, x - d.base);
  }

  // ---- tables and entries ----

  lemma PairTable(a: nat, b: nat, lvl: nat, x: nat)
    requires PairOf(a, b) && 1 <= lvl <= 4 && (x == a || x == b)
    ensures var s, f := Pair(a, b), Frame(a, lvl, x);
            && f in s.info && s.info[f] == Place(a, b, f) && s.info[f].lvl == lvl && Placed(s.info[f])
            && Covers(s.info[f], x)
            && f in s.mem && |s.mem[f]| == 512 && s.mem[f] == PairRow(a, b, f)
  {
    FramePlace(a, b, lvl, x);
    hide Frame, Place, PairRow, Size;
    assert Frame(a, lvl, x) in Frames(a, b);
    RowLength(a, b, Frame(a, lvl, x));
  }

  lemma RowLength(a: nat, b: nat, g: nat)
    ensures |PairRow(a, b, g)| == 512
  {}

  lemma RowAt(a: nat, b: nat, g: nat, j: nat)
    requires j < 512
    ensures |PairRow(a, b, g)| == 512
    ensures PairRow(a, b, g)[j]
         == PairEntry(a, b, Place(a, b, g).lvl, EntryBase(Place(a, b, g).base, Place(a, b, g).lvl, j))
  {
    hide Place, PairEntry, EntryBase;
  }

  lemma EntryIsPair(a: nat, b: nat, lvl: nat, x: nat, j: nat)
    requires PairOf(a, b) && 1 <= lvl <= 4 && (x == a || x == b) && j < 512
    ensures var s, f := Pair(a, b), Frame(a, lvl, x);
            && f in s.mem && |s.mem[f]| == 512 && f in s.info && s.info[f].lvl == lvl
            && s.mem[f][j] == PairEntry(a, b, lvl, EntryBase(s.info[f].base, lvl, j))
  {
    hide *;
    PairTable(a, b, lvl, x);
    RowAt(a, b, Frame(a, lvl, x), j);
  }

  /** An entry over neither page is absent. */
  lemma PairAbsent(a: nat, b: nat, lvl: nat, x: nat, j: nat)
    requires PairOf(a, b) && 1 <= lvl <= 4 && (x == a || x == b) && j < 512
    requires var y := EntryBase(Place(a, b, Frame(a, lvl, x)).base, lvl, j);
             !Has(a, y, Size(lvl)) && !Has(b, y, Size(lvl))
    ensures var mem, f := Pair(a, b).mem, Frame(a, lvl, x); f in mem && |mem[f]| == 512 && !mem[f][j].present
  {
    PairTable(a, b, lvl, x);
    EntryIsPair(a, b, lvl, x, j);
    hide Pair, Frame, Place, EntryBase, Size, Has;
  }

  /** The entry over a page holds the table over it, and on the last level the page. */
  lemma PairLink(a: nat, b: nat, lvl: nat, x: nat)
    requires PairOf(a, b) && 1 <= lvl <= 4 && (x == a || x == b)
    ensures var mem, f := Pair(a, b).mem, Frame(a, lvl, x);
            && f in mem && |mem[f]| == 512 && mem[f][PtIndex(x, lvl)].present && !mem[f][PtIndex(x, lvl)].large
            && mem[f][PtIndex(x, lvl)].phys == Frame(a, lvl - 1, x) && mem[f][PtIndex(x, lvl)].flags == 7
            && (lvl > 1 ==> Link(mem[f][PtIndex(x, lvl)], lvl))
  {
    PairTable(a, b, lvl, x);
    var d, j := Pair(a, b).info[Frame(a, lvl, x)], PtIndex(x, lvl);
    EntryIsPair(a, b, lvl, x, j);
    hide Pair, Frame, Place, EntryBase, Size, PtIndex, Placed;
    HasEntry(d, x);
    ChildFrame(a, d, j, x);
  }

  lemma ChildFrame(a: nat, d: Info, j: nat, x: nat)
    requires Placed(d) && j < 512 && EntryBase(d.base, d.lvl, j) <= x < EntryBase(d.base, d.lvl, j) + Size(d.lvl)
    ensures Frame(a, d.lvl - 1, EntryBase(d.base, d.lvl, j)) == Frame(a, d.lvl - 1, x)
  {
    EntryBorder(d, j);
    hide EntryBase, Placed;
    var e, y := Size(d.lvl), EntryBase(d.base, d.lvl, j);
    hide Size;
    var q := y / e;
    assert y == e * q;
    DivUnique(x, e, q, x - y);
  }

  lemma PairKey(a: nat, b: nat, g: nat) returns (lvl: nat, x: nat)
    requires g in Pair(a, b).info
    ensures 1 <= lvl <= 4 && (x == a || x == b) && g == Frame(a, lvl, x)
  {
    hide Frame, Place;
    if l: nat :| 1 <= l <= 4 && g == Frame(a, l, a) {
      lvl, x := l, a;
    } else {
      var l: nat :| 1 <= l <= 4 && g == Frame(a, l, b);
      lvl, x := l, b;
    }
  }

  // ---- the space ----

  lemma PairTree(a: nat, b: nat)
    requires PairOf(a, b)
    ensures Tree(Pair(a, b), ROOT, LO, HI) && Hung(Pair(a, b), ROOT, LO, HI)
  {
    hide *;
    PairTables(a, b);
    PairEntries(a, b);
    PairHung(a, b);
    TreeFrom(Pair(a, b), ROOT);
  }

  lemma TreeFrom(s: Space, root: nat)
    requires TablesOk(s, root) && EntriesOk(s, LO, HI)
    ensures Tree(s, root, LO, HI)
  {}

  lemma PairTables(a: nat, b: nat)
    requires PairOf(a, b)
    ensures TablesOk(Pair(a, b), ROOT)
  {
    var s := Pair(a, b);
    FramePlace(a, b, 4, a);
    FramePlace(a, b, 4, b);
    PairTable(a, b, 4, a);
    hide Pair, PairOf, Frame, Place, Size, Placed;
    forall f | f in s.info
      ensures f in s.mem && |s.mem[f]| == 512 && Placed(s.info[f]) && (s.info[f].lvl == 4 ==> f == ROOT) {
      var lvl, x := PairKey(a, b, f);
      PairTable(a, b, lvl, x);
    }
  }

  lemma PairEntries(a: nat, b: nat)
    requires PairOf(a, b)
    ensures EntriesOk(Pair(a, b), LO, HI)
  {
    var s := Pair(a, b);
    hide Pair, PairOf, EntryOk;
    forall f, i | Mine(s, f, i, LO, HI) ensures EntryOk(s, f, i) {
      var lvl, x := PairKey(a, b, f);
      PairEntryOk(a, b, lvl, x, i);
    }
  }

  lemma PairEntryOk(a: nat, b: nat, lvl: nat, x: nat, i: nat)
    requires PairOf(a, b) && 1 <= lvl <= 4 && (x == a || x == b) && i < 512
    ensures Frame(a, lvl, x) in Pair(a, b).info && EntryOk(Pair(a, b), Frame(a, lvl, x), i)
  {
    var s, f := Pair(a, b), Frame(a, lvl, x);
    hide *;
    PairTable(a, b, lvl, x);
    RowEntry(s, f, i);
    if Has(a, EntryBase(s.info[f].base, lvl, i), Size(lvl)) {
      EntryOver(a, b, lvl, x, i, a);
    } else if Has(b, EntryBase(s.info[f].base, lvl, i), Size(lvl)) {
      EntryOver(a, b, lvl, x, i, b);
    } else {
      PairAbsent(a, b, lvl, x, i);
      AbsentOk(s, f, i);
    }
  }

  lemma AbsentOk(s: Space, f: nat, i: nat)
    requires f in s.info && !Entry(s, f, i).present
    ensures EntryOk(s, f, i)
  {
    hide Entry;
  }

  /** An entry over the page at `y`. */
  lemma EntryOver(a: nat, b: nat, lvl: nat, x: nat, i: nat, y: nat)
    requires PairOf(a, b) && 1 <= lvl <= 4 && (x == a || x == b) && (y == a || y == b) && i < 512
    requires Frame(a, lvl, x) in Pair(a, b).info
    requires Has(y, EntryBase(Pair(a, b).info[Frame(a, lvl, x)].base, lvl, i), Size(lvl))
    ensures Frame(a, lvl, y) == Frame(a, lvl, x) && PtIndex(y, lvl) == i && EntryOk(Pair(a, b), Frame(a, lvl, x), i)
  {
    var s, f := Pair(a, b), Frame(a, lvl, x);
    PairTable(a, b, lvl, x);
    var d := s.info[f];
    hide Pair, Frame, Place, EntryBase, Size, PtIndex, Placed, Covers, PairEntry;
    InEntry(d, y, i);
    SameFrame(a, d, x, y);
    PairLink(a, b, lvl, y);
    if lvl > 1 {
      PairTable(a, b, lvl - 1, y);
      ChildLevel(d, i);
      ChildCovers(d, i, y);
      ChildPlaced(d, i, y);
      PlaceOver(a, b, Child(d, i), y);
    } else {
      FramePage(a, 0, y);
      PageSize();
    }
  }

  lemma PageSize()
    ensures Size(1) == PAGE && LeafOrder(1) == 0
  {}

  lemma ChildPlaced(d: Info, i: nat, y: nat)
    requires Placed(d) && d.lvl > 1 && i < 512
    ensures Placed(Child(d, i))
  {
    EntryBorder(d, i);
    EntryInside(d, i);
  }

  lemma PairHung(a: nat, b: nat)
    requires PairOf(a, b)
    ensures Hung(Pair(a, b), ROOT, LO, HI)
  {
    var s := Pair(a, b);
    hide Pair, PairOf, Frame, Place, UserTree.Parent;
    forall g | g in s.info && g != ROOT ensures exists f, i :: UserTree.Parent(s, f, i, g, LO, HI) {
      var lvl, x := PairKey(a, b, g);
      PairParent(a, b, lvl, x);
    }
    forall g, h | g in s.info && h in s.info && s.info[g] == s.info[h] ensures g == h {
      var lvl, x := PairKey(a, b, g);
      var k, y := PairKey(a, b, h);
      PairTable(a, b, lvl, x);
      PairTable(a, b, k, y);
      OnePlace(a, b, lvl, x, k, y);
    }
  }

  lemma OnePlace(a: nat, b: nat, lvl: nat, x: nat, k: nat, y: nat)
    requires PairOf(a, b) && 1 <= lvl <= 4 && 1 <= k <= 4 && (x == a || x == b) && (y == a || y == b)
    requires Place(a, b, Frame(a, lvl, x)) == Place(a, b, Frame(a, k, y))
    ensures Frame(a, lvl, x) == Frame(a, k, y)
  {
    FramePlace(a, b, lvl, x);
    FramePlace(a, b, k, y);
    SameStart(x, y, Size(lvl + 1));
    hide Size, Place;
  }

  lemma PairParent(a: nat, b: nat, lvl: nat, x: nat)
    requires PairOf(a, b) && 1 <= lvl <= 4 && (x == a || x == b) && Frame(a, lvl, x) != ROOT
    ensures UserTree.Parent(Pair(a, b), Frame(a, lvl + 1, x), PtIndex(x, lvl + 1), Frame(a, lvl, x), LO, HI)
  {
    hide *;
    PairSmall(a, b, x);
    FramePlace(a, b, lvl, x);
    PairTable(a, b, lvl + 1, x);
    PairLink(a, b, lvl + 1, x);
    RootIndex(x);
    IndexBound(x, lvl + 1);
    ParentFrom(Pair(a, b), Frame(a, lvl + 1, x), PtIndex(x, lvl + 1), Frame(a, lvl, x), lvl + 1);
  }

  lemma ParentFrom(s: Space, f: nat, i: nat, g: nat, lvl: nat)
    requires f in s.info && s.info[f].lvl == lvl && f in s.mem && |s.mem[f]| == 512 && i < 512 && (lvl == 4 ==> i < HI)
    requires Link(s.mem[f][i], lvl) && s.mem[f][i].phys == g
    ensures UserTree.Parent(s, f, i, g, LO, HI)
  {}

  // ---- what it translates ----

  /** Exactly the two pages. */
  lemma {:induction false} PairWalk(a: nat, b: nat, lvl: nat, x: nat, y: nat)
    requires PairOf(a, b) && 1 <= lvl <= 4 && (x == a || x == b) && Covers(Place(a, b, Frame(a, lvl, x)), y)
    ensures Walk(Pair(a, b).mem, Frame(a, lvl, x), lvl, y).Some? <==> Has(y, a, PAGE) || Has(y, b, PAGE)
    decreases lvl
  {
    hide *;
    PairTable(a, b, lvl, x);
    var s, f := Pair(a, b), Frame(a, lvl, x);
    var d, i := s.info[f], PtIndex(y, lvl);
    IndexBound(y, lvl);
    HasEntry(d, y);
    EntryBorder(d, i);
    PageInside(a, b, y, EntryBase(d.base, lvl, i), lvl);
    if Has(a, EntryBase(d.base, lvl, i), Size(lvl)) {
      PairWalkOver(a, b, lvl, x, y, a);
    } else if Has(b, EntryBase(d.base, lvl, i), Size(lvl)) {
      PairWalkOver(a, b, lvl, x, y, b);
    } else {
      PairAbsent(a, b, lvl, x, i);
      AbsentNone(s.mem, f, lvl, y);
    }
  }

  lemma PairWalkOver(a: nat, b: nat, lvl: nat, x: nat, y: nat, p: nat)
    requires PairOf(a, b) && 1 <= lvl <= 4 && (x == a || x == b) && (p == a || p == b)
    requires Covers(Place(a, b, Frame(a, lvl, x)), y)
    requires Has(p, EntryBase(Place(a, b, Frame(a, lvl, x)).base, lvl, PtIndex(y, lvl)), Size(lvl))
    requires lvl == 1 ==> Has(y, p, PAGE)
    ensures Walk(Pair(a, b).mem, Frame(a, lvl, x), lvl, y).Some? <==> Has(y, a, PAGE) || Has(y, b, PAGE)
    decreases lvl, 0
  {
    hide *;
    PairTable(a, b, lvl, x);
    var s, f := Pair(a, b), Frame(a, lvl, x);
    var d, i := s.info[f], PtIndex(y, lvl);
    IndexBound(y, lvl);
    EntryOver(a, b, lvl, x, i, p);
    PairLink(a, b, lvl, p);
    PairTable(a, b, lvl, p);
    if lvl == 1 {
      LeafSome(s.mem, f, y);
    } else {
      WalkThrough(s.mem, f, lvl, y);
      ChildLevel(d, i);
      ChildCovers(d, i, y);
      ChildCovers(d, i, p);
      ChildPlaced(d, i, y);
      PairSmall(a, b, p);
      PlaceOver(a, b, Child(d, i), p);
      PairWalk(a, b, lvl - 1, p, y);
    }
  }

  lemma PairSmall(a: nat, b: nat, p: nat)
    requires PairOf(a, b) && (p == a || p == b)
    ensures p < HALF && p % PAGE == 0
  {}

  lemma LeafSome(mem: Tables, f: nat, y: nat)
    requires f in mem && |mem[f]| == 512 && mem[f][PtIndex(y, 1)].present
    ensures Walk(mem, f, 1, y).Some?
  {
    hide PtIndex;
  }

  lemma AbsentNone(mem: Tables, f: nat, lvl: nat, y: nat)
    requires f in mem && |mem[f]| == 512 && !mem[f][PtIndex(y, lvl)].present
    ensures Walk(mem, f, lvl, y).None?
  {
    hide PtIndex;
  }

  /** A page lies inside the entry over any of its addresses, and on the last level is it. */
  lemma PageInside(a: nat, b: nat, y: nat, z: nat, lvl: nat)
    requires PairOf(a, b) && 1 <= lvl <= 4 && z % Size(lvl) == 0 && z <= y < z + Size(lvl)
    ensures Has(y, a, PAGE) ==> Has(a, z, Size(lvl))
    ensures Has(y, b, PAGE) ==> Has(b, z, Size(lvl))
    ensures lvl == 1 && Has(a, z, Size(lvl)) ==> Has(y, a, PAGE)
    ensures lvl == 1 && Has(b, z, Size(lvl)) ==> Has(y, b, PAGE)
  {
    SizeDivides(1, lvl, z);
    assert Size(1) == PAGE;
    hide Size;
    if Has(y, a, PAGE) && a < z { MultiplesApart(PAGE, a, z); }
    if Has(y, b, PAGE) && b < z { MultiplesApart(PAGE, b, z); }
    if lvl == 1 && Has(a, z, PAGE) && z < a { MultiplesApart(PAGE, z, a); }
    if lvl == 1 && Has(b, z, PAGE) && z < b { MultiplesApart(PAGE, z, b); }
  }

  lemma PairBacked(a: nat, b: nat)
    requires PairOf(a, b)
    ensures Backed(Pair(a, b), ROOT, Two(a, b))
  {
    FramePlace(a, b, 4, a);
    hide Pair, Frame, Place, Two, Walk, Mapped, PairOf;
    forall y: nat | y < HALF ensures Translate(Pair(a, b), ROOT, y).Some? <==> Mapped(Two(a, b), y) {
      RootCovers(y);
      PairWalk(a, b, 4, a, y);
      TranslateIs(Pair(a, b), ROOT, y);
      TwoMapped(a, b, y);
    }
  }

  lemma RootCovers(y: nat)
    requires y < HALF
    ensures Covers(Info(4, 0), y)
  {}

  lemma TwoMapped(a: nat, b: nat, y: nat)
    requires PairOf(a, b)
    ensures Mapped(Two(a, b), y) <==> Has(y, a, PAGE) || Has(y, b, PAGE)
  {
    var l := Two(a, b);
    if Has(y, b, PAGE) { assert l[0].begin <= y < l[0].end; }
    if Has(y, a, PAGE) { assert l[|l| - 1].begin <= y < l[|l| - 1].end; }
  }

  lemma PairLeaves(a: nat, b: nat)
    requires PairOf(a, b)
    ensures LeavesIn(Pair(a, b), Two(a, b))
  {
    var s, l := Pair(a, b), Two(a, b);
    hide Pair, PairOf, HasLeaf, InRegion, Two;
    forall g, i | HasLeaf(s, g, i, LO, HI) ensures exists k :: 0 <= k < |l| && InRegion(s, g, i, l[k]) {
      var k := PairLeaf(a, b, g, i);
    }
  }

  lemma PairLeaf(a: nat, b: nat, g: nat, i: nat) returns (k: nat)
    requires PairOf(a, b) && HasLeaf(Pair(a, b), g, i, LO, HI)
    ensures k < |Two(a, b)| && InRegion(Pair(a, b), g, i, Two(a, b)[k])
  {
    var s := Pair(a, b);
    hide *;
    LeafNoLink(s, g, i, LO, HI);
    var lvl, x := PairKey(a, b, g);
    PairTable(a, b, lvl, x);
    LeafPresent(s, g, i);
    var y := LeafPage(a, b, lvl, x, i);
    k := LeafOver(a, b, lvl, x, i, y);
  }

  lemma LeafPresent(s: Space, g: nat, i: nat)
    requires HasLeaf(s, g, i, LO, HI)
    ensures g in s.info && i < 512 && Entry(s, g, i).present && Leaf(Entry(s, g, i), s.info[g].lvl)
  {}

  lemma LeafOver(a: nat, b: nat, lvl: nat, x: nat, i: nat, y: nat) returns (k: nat)
    requires PairOf(a, b) && 1 <= lvl <= 4 && (x == a || x == b) && (y == a || y == b) && i < 512
    requires Frame(a, lvl, x) in Pair(a, b).info && Pair(a, b).info[Frame(a, lvl, x)].lvl == lvl
    requires Leaf(Entry(Pair(a, b), Frame(a, lvl, x), i), lvl)
    requires Has(y, EntryBase(Pair(a, b).info[Frame(a, lvl, x)].base, lvl, i), Size(lvl))
    ensures k < |Two(a, b)| && InRegion(Pair(a, b), Frame(a, lvl, x), i, Two(a, b)[k])
  {
    ReadWrite();
    hide And;
    var s, f := Pair(a, b), Frame(a, lvl, x);
    EntryOver(a, b, lvl, x, i, y);
    PairLink(a, b, lvl, y);
    PairTable(a, b, lvl, x);
    hide Pair, Frame, Place, PtIndex;
    assert lvl == 1;
    EntryBorder(s.info[f], i);
    hide Placed, EntryBase;
    var z := EntryBase(s.info[f].base, 1, i);
    if z < y { MultiplesApart(PAGE, z, y); }
    k := if y == b then 0 else 1;
  }

  lemma ReadWrite()
    ensures UserFlags(3) == 7
  {}

  lemma TwoSorted(a: nat, b: nat)
    requires PairOf(a, b)
    ensures Sorted(Two(a, b))
  {
    if b < a { MultiplesApart(PAGE, b, a); }
    assert HALF % PAGE == 0;
    MultiplesApart(PAGE, a, HALF);
  }

  // ---- the blocks it holds ----

  /** A zone of ten pages, each held on its own. */
  function Ten(): Zone {
    Zone(1, 11, seq(10, _ => Page(false, 0)), seq(MAX_ORDER + 1, _ => []),
         map p: nat | 1 <= p < 11 :: Block(p, 0), set p: nat | 1 <= p < 11 :: Block(p, 0))
  }

  lemma TenValid()
    ensures Valid(Ten()) && 0 !in Ten().owner && FreePages(Ten()) == {}
    ensures forall b :: b in Ten().busy <==> 1 <= b.head < 11 && b.order == 0
  {
    var z := Ten();
    assert Pow2(0) == 1;
    forall b: Block | 1 <= b.head < 11 && b.order == 0 ensures b in z.busy { assert b == Block(b.head, 0); }
    forall b: Block ensures !Listed(z, b) {}
  }

  /** The leaves are the two pages. */
  lemma PairLeafIs(a: nat, b: nat, g: nat, i: nat) returns (y: nat)
    requires PairOf(a, b) && HasLeaf(Pair(a, b), g, i, LO, HI)
    ensures (y == a || y == b) && g == Frame(a, 1, y) && i == PtIndex(y, 1)
    ensures LeafOf(Pair(a, b), g, i) == Block(Frame(a, 0, y) / PAGE, 0)
  {
    var s := Pair(a, b);
    hide *;
    LeafNoLink(s, g, i, LO, HI);
    var lvl, x := PairKey(a, b, g);
    PairTable(a, b, lvl, x);
    LeafPresent(s, g, i);
    y := LeafPage(a, b, lvl, x, i);
    EntryOver(a, b, lvl, x, i, y);
    PairLink(a, b, lvl, y);
    RowEntry(s, g, i);
    LinkLeaf(s.mem[g][i], lvl);
    LeafOfIs(s, g, i);
  }

  lemma LeafOfIs(s: Space, g: nat, i: nat)
    requires g in s.info && s.info[g].lvl == 1
    ensures LeafOf(s, g, i) == Block(Entry(s, g, i).phys / PAGE, 0)
  {
    PageSize();
    hide Entry;
  }

  lemma LeafPage(a: nat, b: nat, lvl: nat, x: nat, i: nat) returns (y: nat)
    requires PairOf(a, b) && 1 <= lvl <= 4 && (x == a || x == b) && i < 512 && Frame(a, lvl, x) in Pair(a, b).info
    requires Entry(Pair(a, b), Frame(a, lvl, x), i).present
    ensures (y == a || y == b) && Has(y, EntryBase(Pair(a, b).info[Frame(a, lvl, x)].base, lvl, i), Size(lvl))
  {
    hide *;
    var s, f := Pair(a, b), Frame(a, lvl, x);
    PairTable(a, b, lvl, x);
    if Has(a, EntryBase(s.info[f].base, lvl, i), Size(lvl)) {
      y := a;
    } else {
      y := b;
      if !Has(b, EntryBase(s.info[f].base, lvl, i), Size(lvl)) {
        PairAbsent(a, b, lvl, x, i);
        RowEntry(s, f, i);
      }
    }
  }

  /** Its tables and pages are blocks of the zone, each held once. */
  lemma PairUser(a: nat, b: nat)
    requires PairOf(a, b)
    ensures User(Pair(a, b), ROOT, LO, HI, Ten().busy) && Others(Pair(a, b), Ten().busy)
    ensures TablesBusy(Pair(a, b).mem, Ten().busy)
  {
    hide *;
    PairTree(a, b);
    PairTablesHeld(a, b);
    PairLeavesHeld(a, b);
    PairOnce(a, b);
    UserFrom(Pair(a, b), ROOT, Ten().busy);
    PairAll(a, b);
  }

  lemma UserFrom(s: Space, root: nat, busy: set<Block>)
    requires Tree(s, root, LO, HI) && Hung(s, root, LO, HI) && TablesHeld(s, busy) && LeavesHeld(s, LO, HI, busy)
    requires HeldOnce(s, LO, HI)
    ensures User(s, root, LO, HI, busy)
  {}

  lemma PairTablesHeld(a: nat, b: nat)
    requires PairOf(a, b)
    ensures TablesHeld(Pair(a, b), Ten().busy)
  {
    TenValid();
    hide Pair, PairOf, Frame, Ten;
    forall f | f in Pair(a, b).info ensures f % PAGE == 0 && TableBlock(f) in Ten().busy {
      var lvl, x := PairKey(a, b, f);
      FramePage(a, lvl, x);
    }
  }

  lemma PairLeavesHeld(a: nat, b: nat)
    requires PairOf(a, b)
    ensures LeavesHeld(Pair(a, b), LO, HI, Ten().busy)
  {
    TenValid();
    hide Pair, PairOf, Frame, Ten, HasLeaf, LeafOf;
    forall f, i | HasLeaf(Pair(a, b), f, i, LO, HI) ensures LeafOf(Pair(a, b), f, i) in Ten().busy {
      var y := PairLeafIs(a, b, f, i);
      FramePage(a, 0, y);
    }
  }

  lemma PairOnce(a: nat, b: nat)
    requires PairOf(a, b)
    ensures HeldOnce(Pair(a, b), LO, HI)
  {
    var s := Pair(a, b);
    hide Pair, PairOf, Frame, HasLeaf, LeafOf;
    forall f, i, g, j | HasLeaf(s, f, i, LO, HI) && HasLeaf(s, g, j, LO, HI) && LeafOf(s, f, i) == LeafOf(s, g, j)
      ensures f == g && i == j {
      var x := PairLeafIs(a, b, f, i);
      var y := PairLeafIs(a, b, g, j);
      PagesApart(a, b, x, y);
    }
    forall f, i, g | HasLeaf(s, f, i, LO, HI) && g in s.info ensures LeafOf(s, f, i) != TableBlock(g) {
      var x := PairLeafIs(a, b, f, i);
      var lvl, y := PairKey(a, b, g);
      FramePage(a, 0, x);
      FramePage(a, lvl, y);
    }
  }

  /** The two pages have different frames. */
  lemma PagesApart(a: nat, b: nat, x: nat, y: nat)
    requires PairOf(a, b) && (x == a || x == b) && (y == a || y == b) && Frame(a, 0, x) / PAGE == Frame(a, 0, y) / PAGE
    ensures x == y
  {
    FramePage(a, 0, x);
    FramePage(a, 0, y);
    assert Size(1) == PAGE;
  }

  lemma PairAll(a: nat, b: nat)
    requires TablesHeld(Pair(a, b), Ten().busy)
    ensures Others(Pair(a, b), Ten().busy) && TablesBusy(Pair(a, b).mem, Ten().busy)
  {
    hide Ten, PairRow, Place, Frames, Holds;
  }

  lemma PairLives(a: nat, b: nat)
    requires PairOf(a, b)
    ensures Lives(Ten(), Pair(a, b), ROOT, Two(a, b))
  {
    hide *;
    TenValid();
    PairUser(a, b);
    TwoSorted(a, b);
    PairBacked(a, b);
    PairLeaves(a, b);
    LivesFrom(Ten(), Pair(a, b), ROOT, Two(a, b));
  }
}
