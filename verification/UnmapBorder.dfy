/** __pt_unmap up to an entry border, from a start that tables lead to. */
module UnmapBorder {
  import opened Bits
  import opened Paging
  import opened MapLoop
  import opened UserTree
  import opened UserSweep
  import opened UnmapRange

  /** The range lies in one table of level `lvl` and its end is an entry border. */
  predicate ToBorder(v: nat, n: nat, lvl: nat) {
    InOne(v, n, lvl) && v % 0x1000 == 0 && (v + n) % Size(lvl) == 0
  }

  /** Down to the level where `v` is an entry border, the entry it cuts holds a table. */
  predicate Anchored(mem: Tables, f: nat, v: nat, lvl: nat)
    decreases lvl
  {
    || v % Size(lvl) == 0
    || (lvl > 1 && f in mem && |mem[f]| == 512 && Link(mem[f][PtIndex(v, lvl)], lvl)
        && Anchored(mem, mem[f][PtIndex(v, lvl)].phys, v, lvl - 1))
  }

  /** `v` is an entry border, or it or the address before it is translated. */
  predicate Led(mem: Tables, f: nat, v: nat, lvl: nat) {
    v % Size(lvl) == 0 || Walk(mem, f, lvl, v).Some? || (v > 0 && Walk(mem, f, lvl, v - 1).Some?)
  }

  /** No leaf reaches over `x`. */
  ghost predicate NoneAcross(s: Space, x: nat) {
    forall g, i :: HasLeaf(s, g, i, LO, HI) ==> Beside(s, g, i, x)
  }

  ghost predicate Beside(s: Space, g: nat, i: nat, x: nat)
    requires g in s.info
  {
    x <= EntryBase(s.info[g].base, s.info[g].lvl, i)
    || EntryBase(s.info[g].base, s.info[g].lvl, i) + Size(s.info[g].lvl) <= x
  }

  // ---- up to a border ----

  /** What the first chunk of such a range is when it starts inside an entry, and what is left. */
  lemma CutFirst(v: nat, n: nat, lvl: nat) returns (c: nat)
    requires ToBorder(v, n, lvl) && v % Size(lvl) != 0
    ensures c == Chunk(v, n, lvl) && lvl > 1 && 0 < c <= n && c < Size(lvl) && v % Size(lvl) + c == Size(lvl)
    ensures Plus(v, c) == v + c
    ensures ToBorder(v, c, lvl - 1)
    ensures PtIndex(v, lvl) <= PtIndex(Last(v, n), lvl) < 512 && (lvl == 4 ==> PtIndex(Last(v, n), lvl) < HI)
    ensures var k := PtIndex(Last(v, n), lvl) - PtIndex(v, lvl); Counters(v + c, n - c, k, lvl) && Span(k, lvl) == n - c
  {
    hide *;
    BorderParts(v, n, lvl);
    HalfSize();
    ChunkIs(v, n, lvl);
    c := CutSize(v, n, lvl);
    CutBorder(v, c, lvl);
    IndexOrder(v, n, lvl);
    if lvl == 4 { RootIndex(Last(v, n)); }
    if c == n {
      NoneLeft(v + c, lvl);
    } else {
      RestEven(v, n, lvl, c);
      NextIndex(v, n, lvl, c);
      EvenStart(v + c, n - c, lvl);
      EvenSpan(v + c, n - c, lvl);
      LastIs(v, n);
      LastIs(v + c, n - c);
    }
  }

  lemma BorderParts(v: nat, n: nat, lvl: nat)
    requires ToBorder(v, n, lvl)
    ensures 1 <= lvl <= 4 && n > 0 && v % 0x1000 == 0 && (v + n) % Size(lvl) == 0
    ensures v % Size(lvl + 1) + n <= Size(lvl + 1) && v + n <= HALF
    ensures v % Size(lvl) != 0 ==> lvl > 1
  {}

  lemma CutSize(v: nat, n: nat, lvl: nat) returns (c: nat)
    requires n > 0 && (v + n) % Size(lvl) == 0 && v % Size(lvl) != 0 && v + n <= HALF
    ensures c == Min(n, Size(lvl) - v % Size(lvl)) && 0 < c <= n && c < Size(lvl) && v % Size(lvl) + c == Size(lvl)
    ensures (v + c) % Size(lvl) == 0 && Plus(v, c) == v + c
  {
    hide Size;
    var e := Size(lvl);
    c := e - v % e;
    assert v + c == e * (v / e + 1) by { assert v == e * (v / e) + v % e; assert e * (v / e + 1) == e * (v / e) + e; }
    Multiple(e, v / e + 1);
    if n < c { SmallEnd(v, n, e); }
    HalfSize();
  }

  lemma SmallEnd(v: nat, n: nat, e: nat)
    requires e > 0 && v % e != 0 && n > 0 && n < e - v % e
    ensures (v + n) % e != 0
  {
    DivUnique(v + n, e, v / e, v % e + n);
  }

  lemma CutBorder(v: nat, c: nat, lvl: nat)
    requires 1 < lvl <= 4 && c > 0 && v % 0x1000 == 0 && (v + c) % Size(lvl) == 0 && v % Size(lvl) + c == Size(lvl)
    requires v + c <= HALF
    ensures ToBorder(v, c, lvl - 1)
  {
    SizeUp(lvl - 1);
    hide Size;
    MultipleFactor(v + c, Size(lvl - 1), 512);
  }

  lemma NoneLeft(v: nat, lvl: nat)
    requires v % Size(lvl) == 0 && v <= HALF
    ensures Counters(v, 0, 0, lvl) && Span(0, lvl) == 0
  {
    hide Size;
  }

  lemma RestEven(v: nat, n: nat, lvl: nat, c: nat)
    requires 1 <= lvl <= 4 && c < n && (v + c) % Size(lvl) == 0 && (v + n) % Size(lvl) == 0
    requires v % Size(lvl + 1) + n <= Size(lvl + 1) && v + n <= HALF
    ensures Even(v + c, n - c, lvl)
  {
    hide Size;
    MultipleSum(Size(lvl), v + n, v + c);
    TableRest(v, c, Size(lvl + 1));
  }

  lemma EvenSpan(v: nat, n: nat, lvl: nat)
    requires Even(v, n, lvl)
    ensures var k := PtIndex(Last(v, n), lvl) + 1 - PtIndex(v, lvl); k >= 0 && Span(k, lvl) == n
  {
    hide *;
    EvenParts(v, n, lvl);
    var d := TableOf(v, n, lvl);
    EvenBounds(d, v, n);
    EvenCounters(v, n, lvl, PtIndex(Last(v, n), lvl) + 1 - PtIndex(v, lvl));
  }

  lemma EvenParts(v: nat, n: nat, lvl: nat)
    requires Even(v, n, lvl)
    ensures 1 <= lvl <= 4 && n > 0 && v % Size(lvl + 1) + n <= Size(lvl + 1) && v + n <= HALF
  {}

  /** Up to a border, from an address that every table it cuts leads to. */
  lemma {:induction false} BorderExact(s: Space, root: nat, f: nat, v: nat, n: nat, lvl: nat) returns (t: Space)
    requires Tree(s, root, LO, HI) && Hung(s, root, LO, HI) && f in s.info && s.info[f].lvl == lvl
    requires Within(s.info[f], v, n) && ToBorder(v, n, lvl) && Anchored(s.mem, f, v, lvl)
    ensures Shrunk(s, t, root, f, v, n) && t.mem == UnmapFrom(s.mem, f, v, n, lvl)
    decreases lvl
  {
    hide *;
    BorderParts(v, n, lvl);
    if v % Size(lvl) == 0 {
      BorderEven(v, n, lvl);
      t := EvenExact(s, root, f, v, n, lvl);
    } else {
      var c := CutFirst(v, n, lvl);
      var i, to := PtIndex(v, lvl), PtIndex(Last(v, n), lvl) + 1;
      InsideCovers(s.info[f], v, n);
      var child := CutTable(s, root, f, i, v, c, lvl);
      var below := BorderExact(s, root, child, v, c, lvl - 1);
      CutStep(s, below, root, f, i, to, v, n, lvl, c, child);
      UnmapFromIs(s.mem, f, v, n, lvl);
      t := LoopExact(below, root, f, i + 1, to, v + c, n - c, lvl);
      RowPlaced(s, root, f);
      CutPlace(s.info[f], v, c, i);
      ShrunkTrans(s, below, t, root, f, v, c, n - c);
    }
  }

  /** The table under the entry that the start cuts. */
  lemma CutTable(s: Space, root: nat, f: nat, i: nat, v: nat, c: nat, lvl: nat) returns (child: nat)
    requires Tree(s, root, LO, HI) && f in s.info && s.info[f].lvl == lvl && Anchored(s.mem, f, v, lvl)
    requires Covers(s.info[f], v)
    requires i == PtIndex(v, lvl) && v < HALF && v % Size(lvl) != 0 && v % Size(lvl) + c == Size(lvl)
    ensures f in s.mem && |s.mem[f]| == 512 && i < 512 && Mine(s, f, i, LO, HI) && Link(s.mem[f][i], lvl)
    ensures child == s.mem[f][i].phys
    ensures lvl > 1 && child in s.info && s.info[child].lvl == lvl - 1 && Within(s.info[child], v, c)
    ensures Anchored(s.mem, child, v, lvl - 1)
  {
    hide *;
    TreeRow(s, root, f);
    RowPlaced(s, root, f);
    if lvl == 4 { RootIndex(v); }
    AnchoredBelow(s.mem, f, v, lvl);
    MineFrom(s, f, i, i + 1);
    child := s.mem[f][i].phys;
    ChildFacts(s, root, f, i, child);
    CutPlace(s.info[f], v, c, i);
    EntryCases(s, root, f, i);
    LinkLeaf(s.mem[f][i], lvl);
    ChildWithin(s.info[f], i, v, c);
  }

  /** Its part of the range done. */
  lemma CutStep(s: Space, below: Space, root: nat, f: nat, i: nat, to: nat, v: nat, n: nat, lvl: nat, c: nat,
                child: nat)
    requires Tree(s, root, LO, HI) && Mine(s, f, i, LO, HI) && f in s.info && s.info[f].lvl == lvl > 1
    requires Covers(s.info[f], v)
    requires f in s.mem && |s.mem[f]| == 512 && i == PtIndex(v, lvl) && i < 512 && i < to && Link(s.mem[f][i], lvl)
    requires child == s.mem[f][i].phys
    requires v % Size(lvl) + c == Size(lvl) && 0 < c == Chunk(v, n, lvl) && c != Size(lvl) && n > 0
    requires Plus(v, c) == v + c
    requires child in s.info && Shrunk(s, below, root, child, v, c)
    requires below.mem == UnmapFrom(s.mem, child, v, c, lvl - 1)
    ensures Shrunk(s, below, root, f, v, c) && f in below.info && below.info[f] == s.info[f]
    ensures f in below.mem && below.mem[f] == s.mem[f]
    ensures Tree(below, root, LO, HI) && Hung(below, root, LO, HI)
    ensures c <= n && UnmapLoop(s.mem, f, i, to, v, n, lvl) == UnmapLoop(below.mem, f, i + 1, to, v + c, n - c, lvl)
  {
    hide *;
    RowPlaced(s, root, f);
    CutPlace(s.info[f], v, c, i);
    RowEntry(s, f, i);
    ShrunkChild(s, below, root, f, i, child, v, c);
    ShrunkFacts(s, below, root, f);
    UnmappedTable(s.mem, f, i, to, v, n, lvl, c, below.mem);
    ChunkBound(v, n, lvl);
  }

  lemma RowEntry(s: Space, f: nat, i: nat)
    requires f in s.mem && i < |s.mem[f]|
    ensures Entry(s, f, i) == s.mem[f][i]
  {}

  lemma BorderEven(v: nat, n: nat, lvl: nat)
    requires ToBorder(v, n, lvl) && v % Size(lvl) == 0
    ensures Even(v, n, lvl)
  {
    hide Size;
    MultipleSum(Size(lvl), v + n, v);
  }

  lemma AnchoredBelow(mem: Tables, f: nat, v: nat, lvl: nat)
    requires Anchored(mem, f, v, lvl) && v % Size(lvl) != 0
    ensures lvl > 1 && f in mem && |mem[f]| == 512 && PtIndex(v, lvl) < 512
    ensures Link(mem[f][PtIndex(v, lvl)], lvl) && Anchored(mem, mem[f][PtIndex(v, lvl)].phys, v, lvl - 1)
  {}

  /** The first chunk fills its entry to the end. */
  lemma CutPlace(d: Info, v: nat, c: nat, i: nat)
    requires Placed(d) && Covers(d, v) && i == PtIndex(v, d.lvl) && v % Size(d.lvl) + c == Size(d.lvl)
    ensures EntryBase(d.base, d.lvl, i) <= v
    ensures v + c == EntryBase(d.base, d.lvl, i) + Size(d.lvl) == EntryBase(d.base, d.lvl, i + 1)
  {
    hide Size, PtIndex, EntryBase;
    EntryIs(d, v);
    EntryNext(d, i);
  }

  // ---- where tables lead to the start ----

  /** Where the start or the address before it is translated and no leaf reaches over it, tables
      lead to it. */
  lemma {:induction false} LedAnchored(s: Space, root: nat, f: nat, v: nat, lvl: nat)
    requires Tree(s, root, LO, HI) && f in s.info && s.info[f].lvl == lvl && Covers(s.info[f], v) && v < HALF
    requires v % 0x1000 == 0
    requires Led(s.mem, f, v, lvl) && (v % Size(lvl) == 0 || NoneAcross(s, v))
    ensures Anchored(s.mem, f, v, lvl)
    decreases lvl
  {
    hide *;
    TreeRow(s, root, f);
    RowPlaced(s, root, f);
    if v % Size(lvl) == 0 {
      AnchoredHere(s.mem, f, v, lvl);
    } else {
      var i := PtIndex(v, lvl);
      PageBorder(v, lvl);
      if lvl == 4 { RootIndex(v); }
      IndexBound(v, lvl);
      MineFrom(s, f, i, i + 1);
      EntryCases(s, root, f, i);
      LeafCuts(s, f, i, v);
      LedEntry(s.mem, f, v, lvl, s.info[f]);
      LinkLeaf(s.mem[f][i], lvl);
      var child := s.mem[f][i].phys;
      ChildFacts(s, root, f, i, child);
      ChildCovers(s.info[f], i, v);
      LedAnchored(s, root, child, v, lvl - 1);
      AnchoredAbove(s.mem, f, v, lvl);
    }
  }

  lemma AnchoredHere(mem: Tables, f: nat, v: nat, lvl: nat)
    requires v % Size(lvl) == 0
    ensures Anchored(mem, f, v, lvl)
  {}

  lemma AnchoredAbove(mem: Tables, f: nat, v: nat, lvl: nat)
    requires lvl > 1 && f in mem && |mem[f]| == 512 && Link(mem[f][PtIndex(v, lvl)], lvl)
    requires Anchored(mem, mem[f][PtIndex(v, lvl)].phys, v, lvl - 1)
    ensures Anchored(mem, f, v, lvl)
  {}

  lemma PageBorder(v: nat, lvl: nat)
    requires lvl >= 1 && v % 0x1000 == 0 && v % Size(lvl) != 0
    ensures lvl > 1
  {}

  lemma IndexBound(v: nat, lvl: nat)
    ensures PtIndex(v, lvl) < 512
  {}

  /** The address before lies in the same entry, and in the same table. */
  lemma BeforeStart(d: Info, v: nat)
    requires Placed(d) && Covers(d, v) && v % Size(d.lvl) != 0
    ensures v > 0 && Covers(d, v - 1) && PtIndex(v - 1, d.lvl) == PtIndex(v, d.lvl)
    ensures EntryBase(d.base, d.lvl, PtIndex(v, d.lvl)) < v < EntryBase(d.base, d.lvl, PtIndex(v, d.lvl)) + Size(d.lvl)
  {
    hide *;
    var i := PtIndex(v, d.lvl);
    IndexBound(v, d.lvl);
    EntryIs(d, v);
    HasEntry(d, v);
    InEntry(d, v - 1, i);
  }

  lemma LeafCuts(s: Space, f: nat, i: nat, v: nat)
    requires f in s.info && NoneAcross(s, v) && Placed(s.info[f]) && Covers(s.info[f], v)
    requires i == PtIndex(v, s.info[f].lvl) && v % Size(s.info[f].lvl) != 0
    ensures !HasLeaf(s, f, i, LO, HI)
  {
    BeforeStart(s.info[f], v);
    hide HasLeaf, EntryBase, Size, Placed;
    assert HasLeaf(s, f, i, LO, HI) ==> Beside(s, f, i, v);
  }

  lemma LedEntry(mem: Tables, f: nat, v: nat, lvl: nat, d: Info)
    requires Led(mem, f, v, lvl) && lvl > 0 && d.lvl == lvl && Placed(d) && Covers(d, v) && v % Size(lvl) != 0
    ensures f in mem && |mem[f]| == 512 && PtIndex(v, lvl) < 512 && mem[f][PtIndex(v, lvl)].present
    ensures !Leaf(mem[f][PtIndex(v, lvl)], lvl) ==> Led(mem, mem[f][PtIndex(v, lvl)].phys, v, lvl - 1)
  {
    BeforeStart(d, v);
    hide PtIndex, Size, Placed;
  }

  lemma LedHere(mem: Tables, f: nat, v: nat, lvl: nat)
    requires v % Size(lvl) == 0
    ensures Led(mem, f, v, lvl)
  {}

  lemma BorderBelow(v: nat, lvl: nat)
    requires 1 < lvl <= 4 && v % Size(lvl) == 0
    ensures v % Size(lvl - 1) == 0
  {
    SizeDivides(lvl - 1, lvl, v);
  }

  // ---- parts of a range ----

  lemma PartMin(v: nat, n: nat, lvl: nat)
    requires v % Size(lvl) + n <= Size(lvl)
    ensures Min(n, Size(lvl) - v % Size(lvl)) == n && (n == Size(lvl) ==> v % Size(lvl) == 0)
  {
    hide Size;
  }

  /** Both ends are page borders. */
  predicate OnPages(v: nat, n: nat) {
    v % 0x1000 == 0 && (v + n) % 0x1000 == 0
  }

  lemma OnPagesParts(v: nat, n: nat)
    requires OnPages(v, n)
    ensures v % 0x1000 == 0 && (v + n) % Size(1) == 0 && (v + n) % 0x1000 == 0
  {}

  lemma BorderFrom(v: nat, n: nat, lvl: nat)
    requires InOne(v, n, lvl) && OnPages(v, n) && (v + n) % Size(lvl) == 0
    ensures ToBorder(v, n, lvl)
  {}

  lemma BorderAfter(v: nat, c: nat, e: nat)
    requires e > 0 && v % e + c == e
    ensures (v + c) % e == 0
  {
    assert v + c == e * (v / e + 1) by { assert v == e * (v / e) + v % e; assert e * (v / e + 1) == e * (v / e) + e; }
    Multiple(e, v / e + 1);
  }

  lemma BorderBefore(x: nat, e: nat)
    requires e > 0
    ensures (x - x % e) % e == 0 && x - x % e >= 0
  {
    assert x - x % e == e * (x / e);
    Multiple(e, x / e);
  }

  // ---- the whole space ----

  /** Afterwards exactly the addresses of the range are no longer translated. */
  ghost predicate ExactOn(s: Space, root: nat, v: nat, n: nat) {
    forall a: nat :: a < HALF ==>
                       Walk(UnmapFrom(s.mem, root, v, n, 4), root, 4, a) == if v <= a < v + n then None
                       else Walk(s.mem, root, 4, a)
  }

  /** Up to the end of the user half every start will do that tables lead to. */
  lemma EndIsExact(s: Space, root: nat, v: nat)
    requires Tree(s, root, LO, HI) && Hung(s, root, LO, HI) && NoneAcross(s, v) && v < HALF && v % 0x1000 == 0
    requires Led(s.mem, root, v, 4)
    ensures ExactOn(s, root, v, HALF - v)
  {
    hide *;
    EndBorder(v);
    RootWithin(s, root, v, HALF - v);
    InHalf(s, root, v);
    LedAnchored(s, root, root, v, 4);
    var t := BorderExact(s, root, root, v, HALF - v, 4);
    RootExact(s, t, root, v, HALF - v);
  }

  lemma EndBorder(v: nat)
    requires v < HALF && v % 0x1000 == 0
    ensures ToBorder(v, HALF - v, 4)
  {
    TopFits(v, HALF - v);
  }

  lemma RootExact(s: Space, t: Space, root: nat, v: nat, n: nat)
    requires Tree(s, root, LO, HI) && root in s.info && s.info[root] == Info(4, 0)
    requires Shrunk(s, t, root, root, v, n) && t.mem == UnmapFrom(s.mem, root, v, n, 4)
    ensures ExactOn(s, root, v, n)
  {
    hide Walk, Tree, Hung, Covers, RootEntry, Under, UnmapFrom;
    forall a: nat | a < HALF ensures Covers(s.info[root], a) && RootEntry(a, LO, HI) { InHalf(s, root, a); }
  }

  lemma TopFits(v: nat, n: nat)
    requires n > 0 && v + n <= HALF
    ensures InOne(v, n, 4)
  {}

  lemma RootWithin(s: Space, root: nat, v: nat, n: nat)
    requires Tree(s, root, LO, HI) && v + n <= HALF
    ensures root in s.info && s.info[root] == Info(4, 0) && Within(s.info[root], v, n)
  {
    hide EntriesOk;
  }

  lemma InHalf(s: Space, root: nat, a: nat)
    requires Tree(s, root, LO, HI) && a < HALF
    ensures root in s.info && Covers(s.info[root], a) && RootEntry(a, LO, HI)
  {
    hide EntriesOk;
  }
}
