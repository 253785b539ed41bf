/** Over which tables __pt_unmap unmaps exactly a range whose end is translated: those where every
    whole entry before one that the end cuts holds a table. */
module UnmapFilled {
  import opened Bits
  import opened Paging
  import opened MapLoop
  import opened UserTree
  import opened UserSweep
  import opened UnmapRange
  import opened UnmapBorder

  /** The first entry that lies in the range from its start on. */
  function FirstWhole(v: nat, lvl: nat): nat {
    PtIndex(v, lvl) + if v % Size(lvl) == 0 then 0 else 1
  }

  /** Where the range starts in the entry that its end cuts. */
  function Later(v: nat, e: nat, lvl: nat): nat {
    if v < e - e % Size(lvl) then e - e % Size(lvl) else v
  }

  /** Down to the level where the end `e` is an entry border, the entry it cuts and the whole
      entries of the range before that one hold tables. */
  predicate Filled(mem: Tables, f: nat, v: nat, e: nat, lvl: nat)
    decreases lvl
  {
    || e % Size(lvl) == 0
    || (&& lvl > 1 && f in mem && |mem[f]| == 512 && Link(mem[f][PtIndex(e, lvl)], lvl)
        && Linked(mem, f, FirstWhole(v, lvl), PtIndex(e, lvl), lvl)
        && Filled(mem, mem[f][PtIndex(e, lvl)].phys, Later(v, e, lvl), e, lvl - 1))
  }

  predicate Linked(mem: Tables, f: nat, i: nat, j: nat, lvl: nat) {
    f in mem && forall k :: i <= k < j && k < |mem[f]| ==> Link(mem[f][k], lvl)
  }

  lemma FilledParts(mem: Tables, f: nat, v: nat, e: nat, lvl: nat)
    requires e % Size(lvl) != 0
    ensures Filled(mem, f, v, e, lvl) <==>
            && lvl > 1 && f in mem && |mem[f]| == 512 && Link(mem[f][PtIndex(e, lvl)], lvl)
            && Linked(mem, f, FirstWhole(v, lvl), PtIndex(e, lvl), lvl)
            && Filled(mem, mem[f][PtIndex(e, lvl)].phys, Later(v, e, lvl), e, lvl - 1)
  {
    hide Size, PtIndex, Later, FirstWhole, Linked;
  }

  // ---- places of the range ----

  /** The entry that the end cuts. */
  lemma EndPlace(d: Info, v: nat, n: nat)
    requires Placed(d) && Within(d, v, n) && n > 0 && v + n <= HALF && (v + n) % Size(d.lvl) != 0
    ensures Covers(d, v) && Covers(d, v + n)
    ensures PtIndex(v, d.lvl) <= PtIndex(v + n, d.lvl) == PtIndex(Last(v, n), d.lvl) < 512
    ensures v + n < HALF && (d.lvl == 4 && d.base == 0 ==> PtIndex(v + n, d.lvl) < HI)
    ensures var y := EntryBase(d.base, d.lvl, PtIndex(v + n, d.lvl));
            && y == v + n - (v + n) % Size(d.lvl) && y < v + n < y + Size(d.lvl)
            && (PtIndex(v, d.lvl) < PtIndex(v + n, d.lvl) <==> v < y)
            && Later(v, v + n, d.lvl) == if v < y then y else v
  {
    hide *;
    WithinEnds(d, v, n);
    LastIs(v, n);
    EndInTable(d, v, n);
    BeforeStart(d, v + n);
    EntryIs(d, v + n);
    IndexBound(v + n, d.lvl);
    IndexUpTo(d, v, v + n);
    IndexBelow(d, v, v + n);
    LaterIs(v, v + n, d.lvl);
    PlacedLevel(d);
    NotHalf(v + n, d.lvl);
    if d.lvl == 4 { RootIndex(v + n); }
  }

  lemma WithinEnds(d: Info, v: nat, n: nat)
    requires Within(d, v, n) && n > 0
    ensures Covers(d, v)
  {}

  lemma EndInTable(d: Info, v: nat, n: nat)
    requires Placed(d) && Within(d, v, n) && n > 0 && (v + n) % Size(d.lvl) != 0
    ensures Covers(d, v + n)
  {
    EntryBorder(d, 512);
    PlacedLevel(d);
    SizeUp(d.lvl);
    hide Size, Placed;
  }

  lemma EntryBorder(d: Info, j: nat)
    requires Placed(d)
    ensures EntryBase(d.base, d.lvl, j) % Size(d.lvl) == 0
  {
    PlacedLevel(d);
    SizeUp(d.lvl);
    hide Size;
    MultipleFactor(d.base, Size(d.lvl), 512);
    Multiple(Size(d.lvl), j);
    MultipleSum(Size(d.lvl), d.base, j * Size(d.lvl));
  }

  lemma NotHalf(e: nat, lvl: nat)
    requires 1 <= lvl <= 4 && e % Size(lvl) != 0
    ensures e != HALF
  {
    if e == HALF { SizeDivides(lvl, 4, e); }
  }

  lemma IndexUpTo(d: Info, x: nat, y: nat)
    requires Placed(d) && Covers(d, x) && Covers(d, y) && x <= y
    ensures PtIndex(x, d.lvl) <= PtIndex(y, d.lvl)
  {
    var i, j := PtIndex(x, d.lvl), PtIndex(y, d.lvl);
    hide Size, PtIndex, EntryBase, Placed, Covers;
    HasEntry(d, x);
    HasEntry(d, y);
    if j < i { EntriesBetween(d, j, j, i); }
  }

  lemma IndexBelow(d: Info, x: nat, y: nat)
    requires Placed(d) && Covers(d, x) && Covers(d, y) && x <= y
    ensures PtIndex(x, d.lvl) < PtIndex(y, d.lvl) <==> x < EntryBase(d.base, d.lvl, PtIndex(y, d.lvl))
  {
    IndexUpTo(d, x, y);
    var i, j := PtIndex(x, d.lvl), PtIndex(y, d.lvl);
    hide Size, PtIndex, EntryBase, Placed, Covers;
    HasEntry(d, x);
    HasEntry(d, y);
    if i < j { EntriesBetween(d, i, i, j); }
  }

  lemma EntriesBetween(d: Info, i: nat, j: nat, to: nat)
    requires i <= j < to
    ensures EntryBase(d.base, d.lvl, i) <= EntryBase(d.base, d.lvl, j)
    ensures EntryBase(d.base, d.lvl, j) + Size(d.lvl) <= EntryBase(d.base, d.lvl, to)
  {
    hide Size;
    if i < j { EntryOrder(Size(d.lvl), i, j); }
    EntryOrder(Size(d.lvl), j, to);
  }

  lemma LaterIs(v: nat, e: nat, lvl: nat)
    ensures e - e % Size(lvl) >= 0 && Later(v, e, lvl) == if v < e - e % Size(lvl) then e - e % Size(lvl) else v
  {
    BorderBefore(e, Size(lvl));
  }

  lemma SpanTo(d: Info, i: nat, j: nat)
    requires i <= j
    ensures EntryBase(d.base, d.lvl, j) == EntryBase(d.base, d.lvl, i) + Span(j - i, d.lvl)
  {
    hide Size;
    assert (j - i) * Size(d.lvl) == j * Size(d.lvl) - i * Size(d.lvl);
  }

  lemma SpanMore(k: nat, lvl: nat)
    ensures Span(k + 1, lvl) == Span(k, lvl) + Size(lvl) && Span(0, lvl) == 0 && Size(lvl) > 0
  {
    hide Size;
  }

  // ---- tables that are filled ----

  /** Whole entries that all hold tables: the counters keep up. */
  lemma {:induction false} WholeTables(s: Space, root: nat, f: nat, i: nat, j: nat, to: nat, v: nat, n: nat,
                                       lvl: nat) returns (t: Space)
    requires Tree(s, root, LO, HI) && Hung(s, root, LO, HI) && f in s.info && s.info[f].lvl == lvl > 1
    requires i <= j < to && j <= 512 && (lvl == 4 ==> j <= HI) && Counters(v, n, j - i, lvl)
    requires Linked(s.mem, f, i, j, lvl)
    ensures Shrunk(s, t, root, f, EntryBase(s.info[f].base, lvl, i), Span(j - i, lvl)) && f in t.info
    ensures EmptiedFrom(s, t, f, i, j)
    ensures Span(j - i, lvl) <= n
    ensures UnmapLoop(s.mem, f, i, to, v, n, lvl)
         == UnmapLoop(t.mem, f, j, to, v + Span(j - i, lvl), n - Span(j - i, lvl), lvl)
    decreases j - i
  {
    hide *;
    TreeRow(s, root, f);
    SpanMore(0, lvl);
    if i == j {
      t := s;
      NothingExact(s, root, f, EntryBase(s.info[f].base, lvl, i), i, v, n, lvl);
    } else {
      MineFrom(s, f, i, j);
      CountersNext(v, n, j - i, lvl);
      LinkedAt(s.mem, f, i, j, lvl, i);
      var child := s.mem[f][i].phys;
      ChildFacts(s, root, f, i, child);
      ChildCounters(v, n, lvl);
      var below := LoopExact(s, root, child, 0, 512, v, Size(lvl), lvl - 1);
      var u := TableEntry(s, below, root, f, i, to, v, n, lvl, child);
      GoneFacts(s, u, root, f, i);
      NextEntry(s.info[f].base, lvl, i);
      LinkedAfter(s, u, root, f, i, j, lvl);
      t := WholeTables(u, root, f, i + 1, j, to, v + Size(lvl), n - Size(lvl), lvl);
      ShrunkTrans(s, u, t, root, f, EntryBase(s.info[f].base, lvl, i), Size(lvl), Span(j - i - 1, lvl));
      EmptiedMore(s, u, t, f, i, i + 1, j);
    }
  }

  lemma LinkedAt(mem: Tables, f: nat, i: nat, j: nat, lvl: nat, k: nat)
    requires Linked(mem, f, i, j, lvl) && i <= k < j && f in mem && j <= |mem[f]|
    ensures Link(mem[f][k], lvl)
  {
    hide Link;
  }

  lemma LinkedAfter(s: Space, u: Space, root: nat, f: nat, i: nat, j: nat, lvl: nat)
    requires Tree(u, root, LO, HI) && f in u.info && f in s.mem && |s.mem[f]| == 512 && j <= 512
    requires Linked(s.mem, f, i, j, lvl) && EmptiedFrom(s, u, f, i, i + 1)
    ensures Linked(u.mem, f, i + 1, j, lvl)
  {
    TreeRow(u, root, f);
    hide Tree, Link;
    forall k | i + 1 <= k < j && k < |u.mem[f]| ensures Link(u.mem[f][k], lvl) {
      assert Entry(u, f, k) == Entry(s, f, k);
    }
  }

  /** Up to the entry that the end cuts. */
  lemma Approach(s: Space, root: nat, f: nat, v: nat, n: nat, lvl: nat) returns (t: Space, y: nat)
    requires Tree(s, root, LO, HI) && Hung(s, root, LO, HI) && f in s.info && s.info[f].lvl == lvl > 1
    requires Within(s.info[f], v, n) && InOne(v, n, lvl) && OnPages(v, n) && Anchored(s.mem, f, v, lvl)
    requires (v + n) % Size(lvl) != 0
    requires PtIndex(v, lvl) < PtIndex(v + n, lvl) && Linked(s.mem, f, FirstWhole(v, lvl), PtIndex(v + n, lvl), lvl)
    ensures y == EntryBase(s.info[f].base, lvl, PtIndex(v + n, lvl)) && v <= y < v + n
    ensures Shrunk(s, t, root, f, v, y - v) && f in t.info && t.info[f] == s.info[f] && Tree(t, root, LO, HI)
    ensures Hung(t, root, LO, HI)
    ensures Entry(t, f, PtIndex(v + n, lvl)) == Entry(s, f, PtIndex(v + n, lvl))
    ensures var j := PtIndex(v + n, lvl);
            UnmapLoop(s.mem, f, PtIndex(v, lvl), j + 1, v, n, lvl) == UnmapLoop(t.mem, f, j, j + 1, y, v + n - y, lvl)
  {
    hide *;
    InOneParts(v, n, lvl);
    RowPlaced(s, root, f);
    if lvl == 4 { RootBase(s, root, f); }
    var d := s.info[f];
    EndPlace(d, v, n);
    var i, j := PtIndex(v, lvl), PtIndex(v + n, lvl);
    y := EntryBase(d.base, lvl, j);
    FirstIs(v, lvl);
    if v % Size(lvl) == 0 {
      EntryIs(d, v);
      SpanTo(d, i, j);
      CountersFrom(v, n, j - i, lvl);
      t := WholeTables(s, root, f, i, j, j + 1, v, n, lvl);
      EntryKept(s, t, f, i, j);
    } else {
      var c := FirstCut(d, v, n);
      var child := CutTable(s, root, f, i, v, c, lvl);
      var below := BorderExact(s, root, child, v, c, lvl - 1);
      CutStep(s, below, root, f, i, j + 1, v, n, lvl, c, child);
      SpanTo(d, i + 1, j);
      CountersFrom(v + c, n - c, j - (i + 1), lvl);
      LinkedRow(s.mem, below.mem, f, i + 1, j, lvl);
      t := WholeTables(below, root, f, i + 1, j, j + 1, v + c, n - c, lvl);
      ShrunkTrans(s, below, t, root, f, v, c, y - (v + c));
      EntryKept(below, t, f, i + 1, j);
      SameRow(s, below, f, j);
    }
    ShrunkFacts(s, t, root, f);
  }

  lemma FirstIs(v: nat, lvl: nat)
    ensures FirstWhole(v, lvl) == if v % Size(lvl) == 0 then PtIndex(v, lvl) else PtIndex(v, lvl) + 1
  {
    hide Size, PtIndex;
  }

  lemma CountersFrom(v: nat, n: nat, k: nat, lvl: nat)
    requires v % Size(lvl) == 0 && Span(k, lvl) <= n && v + n <= HALF
    ensures Counters(v, n, k, lvl)
  {}

  lemma EntryKept(s: Space, t: Space, f: nat, i: nat, j: nat)
    requires EmptiedFrom(s, t, f, i, j)
    ensures Entry(t, f, j) == Entry(s, f, j)
  {
    hide Entry;
  }

  lemma SameRow(s: Space, t: Space, f: nat, j: nat)
    requires f in s.mem && f in t.mem && t.mem[f] == s.mem[f]
    ensures Entry(t, f, j) == Entry(s, f, j)
  {}

  lemma LinkedRow(mem: Tables, m: Tables, f: nat, i: nat, j: nat, lvl: nat)
    requires Linked(mem, f, i, j, lvl) && f in mem && f in m && m[f] == mem[f]
    ensures Linked(m, f, i, j, lvl)
  {
    hide Link;
  }

  /** The first chunk where the start cuts an entry and the end lies beyond it. */
  lemma FirstCut(d: Info, v: nat, n: nat) returns (c: nat)
    requires Placed(d) && Within(d, v, n) && InOne(v, n, d.lvl) && OnPages(v, n) && d.lvl > 1
    requires v % Size(d.lvl) != 0 && (v + n) % Size(d.lvl) != 0 && PtIndex(v, d.lvl) < PtIndex(v + n, d.lvl)
    ensures c == Chunk(v, n, d.lvl) && 0 < c < n && c != Size(d.lvl) && v % Size(d.lvl) + c == Size(d.lvl)
    ensures Plus(v, c) == v + c
    ensures (v + c) % Size(d.lvl) == 0 && ToBorder(v, c, d.lvl - 1) && Within(d, v, c) && v + c < HALF
    ensures EntryBase(d.base, d.lvl, PtIndex(v, d.lvl) + 1) == v + c <= EntryBase(d.base, d.lvl, PtIndex(v + n, d.lvl))
  {
    hide *;
    InOneParts(v, n, d.lvl);
    EndPlace(d, v, n);
    HalfSize();
    ChunkIs(v, n, d.lvl);
    FirstBeyond(d, v, v + n);
    c := ChunkSize(v, n, d.lvl);
    BorderAfter(v, c, Size(d.lvl));
    OnPagesParts(v, n);
    CutBorder(v, c, d.lvl);
    CutPlace(d, v, c, PtIndex(v, d.lvl));
    WithinLess(d, v, n, c);
  }

  /** The rest of the first entry lies before the end. */
  lemma FirstBeyond(d: Info, v: nat, e: nat)
    requires Placed(d) && Covers(d, v) && Covers(d, e) && PtIndex(v, d.lvl) < PtIndex(e, d.lvl) && e % Size(d.lvl) != 0
    ensures v - v % Size(d.lvl) + Size(d.lvl) == EntryBase(d.base, d.lvl, PtIndex(v, d.lvl) + 1)
    ensures EntryBase(d.base, d.lvl, PtIndex(v, d.lvl) + 1) <= EntryBase(d.base, d.lvl, PtIndex(e, d.lvl)) < e
  {
    hide *;
    var i, j := PtIndex(v, d.lvl), PtIndex(e, d.lvl);
    EntryIs(d, v);
    EntryIs(d, e);
    HasEntry(d, e);
    EntryNext(d, i);
    EntriesBetween(d, i, i, j);
  }

  lemma WithinLess(d: Info, v: nat, n: nat, c: nat)
    requires Within(d, v, n) && c <= n
    ensures Within(d, v, c)
  {}

  /** Beside what went, tables are filled as before. */
  lemma {:induction false} FilledSame(s: Space, t: Space, root: nat, f: nat, v: nat, e: nat, lvl: nat, x: nat, n: nat)
    requires Tree(s, root, LO, HI) && f in s.info && s.info[f].lvl == lvl && Covers(s.info[f], e) && e < HALF
    requires Spared(s, t, x, n) && x + n <= s.info[f].base && Filled(s.mem, f, v, e, lvl)
    ensures Filled(t.mem, f, v, e, lvl)
    decreases lvl
  {
    hide *;
    if e % Size(lvl) == 0 {
      FilledBorder(t.mem, f, v, e, lvl);
    } else {
      TreeRow(s, root, f);
      RowPlaced(s, root, f);
      FilledParts(s.mem, f, v, e, lvl);
      var j := PtIndex(e, lvl);
      IndexBound(e, lvl);
      if lvl == 4 { RootIndex(e); }
      MineFrom(s, f, j, j + 1);
      var child := s.mem[f][j].phys;
      ChildFacts(s, root, f, j, child);
      ChildPlace(s, root, f, j, child, e);
      SparedAt(s, t, f, x, n);
      FilledSame(s, t, root, child, Later(v, e, lvl), e, lvl - 1, x, n);
      LinkedRow(s.mem, t.mem, f, FirstWhole(v, lvl), j, lvl);
      FilledParts(t.mem, f, v, e, lvl);
    }
  }

  lemma FilledBorder(mem: Tables, f: nat, v: nat, e: nat, lvl: nat)
    requires e % Size(lvl) == 0
    ensures Filled(mem, f, v, e, lvl)
  {}

  lemma SparedAt(s: Space, t: Space, f: nat, x: nat, n: nat)
    requires Spared(s, t, x, n) && f in s.info && x + n <= s.info[f].base
    ensures f in s.mem && f in t.mem && t.mem[f] == s.mem[f]
  {}

  /** The table under the entry over `e`. */
  lemma ChildPlace(s: Space, root: nat, f: nat, j: nat, child: nat, e: nat)
    requires Tree(s, root, LO, HI) && Mine(s, f, j, LO, HI) && f in s.info && f in s.mem && |s.mem[f]| == 512
    requires j == PtIndex(e, s.info[f].lvl) < 512
    requires Covers(s.info[f], e) && Link(s.mem[f][j], s.info[f].lvl) && child == s.mem[f][j].phys
    ensures child in s.info && s.info[child].base == EntryBase(s.info[f].base, s.info[f].lvl, j) >= s.info[f].base
    ensures Covers(s.info[child], e)
    ensures s.info[child].lvl == s.info[f].lvl - 1 && s.info[f].lvl > 1 && s.info[child] == Child(s.info[f], j)
  {
    hide *;
    RowPlaced(s, root, f);
    EntryCases(s, root, f, j);
    LinkLeaf(s.mem[f][j], s.info[f].lvl);
    ChildLevel(s.info[f], j);
    ChildCovers(s.info[f], j, e);
    BaseBelow(s.info[f].base, s.info[f].lvl, j);
  }

  lemma BaseBelow(base: nat, lvl: nat, j: nat)
    ensures base <= EntryBase(base, lvl, j)
  {}

  /** The last entry: what happens below it is all that happens. */
  lemma LastPart(s: Space, t: Space, root: nat, f: nat, j: nat, y: nat, m: nat, lvl: nat, child: nat)
    requires Tree(s, root, LO, HI) && f in s.info && s.info[f].lvl == lvl > 1 && Mine(s, f, j, LO, HI) && f in s.mem
    requires |s.mem[f]| == 512 && j < 512
    requires Link(s.mem[f][j], lvl) && child == s.mem[f][j].phys && child in s.info && m > 0 && y + m <= HALF
    requires EntryBase(s.info[f].base, lvl, j) <= y && y + m < EntryBase(s.info[f].base, lvl, j) + Size(lvl)
    requires Shrunk(s, t, root, child, y, m) && t.mem == UnmapFrom(s.mem, child, y, m, lvl - 1)
    ensures Shrunk(s, t, root, f, y, m) && t.mem == UnmapLoop(s.mem, f, j, j + 1, y, m, lvl)
  {
    hide *;
    RowPlaced(s, root, f);
    PlacedLevel(s.info[f]);
    RowEntry(s, f, j);
    ShrunkChild(s, t, root, f, j, child, y, m);
    InsideChunk(s.info[f], j, y, m);
    UnmappedTable(s.mem, f, j, j + 1, y, m, lvl, m, t.mem);
    LastEntry(t.mem, f, j + 1, Plus(y, m), 0, lvl);
  }

  lemma InsideChunk(d: Info, j: nat, y: nat, m: nat)
    requires Placed(d) && j < 512 && m > 0 && y + m <= HALF
    requires EntryBase(d.base, d.lvl, j) <= y && y + m < EntryBase(d.base, d.lvl, j) + Size(d.lvl)
    ensures Chunk(y, m, d.lvl) == m != Size(d.lvl) && y % Size(d.lvl) + m <= Size(d.lvl)
  {
    hide *;
    PlacedLevel(d);
    InEntry(d, y, j);
    HalfSize();
    ChunkIs(y, m, d.lvl);
    PartMin(y, m, d.lvl);
    BaseBelow(d.base, d.lvl, j);
  }

  /** Where tables lead to the start and are filled, exactly the range is unmapped. */
  lemma {:induction false} FilledExact(s: Space, root: nat, f: nat, v: nat, n: nat, lvl: nat) returns (t: Space)
    requires Tree(s, root, LO, HI) && Hung(s, root, LO, HI) && f in s.info && s.info[f].lvl == lvl
    requires Within(s.info[f], v, n) && InOne(v, n, lvl) && OnPages(v, n) && Anchored(s.mem, f, v, lvl)
    requires Filled(s.mem, f, v, v + n, lvl)
    ensures Shrunk(s, t, root, f, v, n) && t.mem == UnmapFrom(s.mem, f, v, n, lvl)
    decreases lvl
  {
    hide *;
    InOneParts(v, n, lvl);
    if (v + n) % Size(lvl) == 0 {
      BorderFrom(v, n, lvl);
      t := BorderExact(s, root, f, v, n, lvl);
    } else {
      var j, child := EndTable(s, root, f, v, n, lvl);
      UnmapFromIs(s.mem, f, v, n, lvl);
      if PtIndex(v, lvl) < j {
        var u, y := Approach(s, root, f, v, n, lvl);
        var m := v + n - y;
        FarTable(s, u, root, f, j, child, v, n, y, m, lvl);
        t := FilledExact(u, root, child, y, m, lvl - 1);
        LastPart(u, t, root, f, j, y, m, lvl, child);
        ShrunkTrans(s, u, t, root, f, v, y - v, m);
      } else {
        NearTable(s, root, f, j, child, v, n, lvl);
        t := FilledExact(s, root, child, v, n, lvl - 1);
        LastPart(s, t, root, f, j, v, n, lvl, child);
      }
    }
  }

  /** The table under the entry that the end cuts. */
  lemma EndTable(s: Space, root: nat, f: nat, v: nat, n: nat, lvl: nat) returns (j: nat, child: nat)
    requires Tree(s, root, LO, HI) && f in s.info && s.info[f].lvl == lvl && Within(s.info[f], v, n) && InOne(v, n, lvl)
    requires Filled(s.mem, f, v, v + n, lvl) && (v + n) % Size(lvl) != 0
    ensures j == PtIndex(v + n, lvl) == PtIndex(Last(v, n), lvl) && PtIndex(v, lvl) <= j < 512 && lvl > 1
    ensures Mine(s, f, j, LO, HI)
    ensures f in s.mem && |s.mem[f]| == 512 && Link(s.mem[f][j], lvl) && child == s.mem[f][j].phys
    ensures Linked(s.mem, f, FirstWhole(v, lvl), j, lvl) && Filled(s.mem, child, Later(v, v + n, lvl), v + n, lvl - 1)
    ensures child in s.info && s.info[child] == Child(s.info[f], j) && Placed(s.info[f]) && Covers(s.info[child], v + n)
  {
    hide *;
    InOneParts(v, n, lvl);
    TreeRow(s, root, f);
    RowPlaced(s, root, f);
    if lvl == 4 { RootBase(s, root, f); }
    j := PtIndex(v + n, lvl);
    EndPlace(s.info[f], v, n);
    FilledParts(s.mem, f, v, v + n, lvl);
    MineFrom(s, f, j, j + 1);
    child := s.mem[f][j].phys;
    ChildPlace(s, root, f, j, child, v + n);
  }

  /** Where the range starts before that entry. */
  lemma FarTable(s: Space, u: Space, root: nat, f: nat, j: nat, child: nat, v: nat, n: nat, y: nat, m: nat, lvl: nat)
    requires Tree(s, root, LO, HI) && Tree(u, root, LO, HI) && f in s.info && f in u.info && u.info[f] == s.info[f]
    requires s.info[f].lvl == lvl > 1
    requires Within(s.info[f], v, n) && InOne(v, n, lvl) && OnPages(v, n) && (v + n) % Size(lvl) != 0
    requires y + m == v + n && v <= y && m > 0
    requires j == PtIndex(v + n, lvl) && PtIndex(v, lvl) < j < 512 && y == EntryBase(s.info[f].base, lvl, j)
    requires Mine(s, f, j, LO, HI) && f in s.mem && |s.mem[f]| == 512 && Link(s.mem[f][j], lvl)
    requires child == s.mem[f][j].phys
    requires child in s.info && s.info[child] == Child(s.info[f], j) && Covers(s.info[child], v + n)
    requires Filled(s.mem, child, Later(v, v + n, lvl), v + n, lvl - 1)
    requires Shrunk(s, u, root, f, v, y - v) && Entry(u, f, j) == Entry(s, f, j)
    ensures f in u.mem && |u.mem[f]| == 512 && Mine(u, f, j, LO, HI) && Link(u.mem[f][j], lvl)
    ensures u.mem[f][j].phys == child
    ensures child in u.info && u.info[child].lvl == lvl - 1 && Within(u.info[child], y, m)
    ensures InOne(y, m, lvl - 1) && OnPages(y, m) && Anchored(u.mem, child, y, lvl - 1)
    ensures Filled(u.mem, child, y, y + m, lvl - 1)
    ensures y + m < EntryBase(u.info[f].base, lvl, j) + Size(lvl) && y + m <= HALF
  {
    hide *;
    RowPlaced(s, root, f);
    if lvl == 4 { RootBase(s, root, f); }
    EndPlace(s.info[f], v, n) by { InOneParts(v, n, lvl); }
    OnPagesParts(v, n);
    TreeRow(u, root, f);
    RowEntry(s, f, j);
    RowEntry(u, f, j);
    InOneParts(v, n, lvl);
    if lvl == 4 { RootIndex(v + n); }
    MineFrom(u, f, j, j + 1);
    ChildPlace(u, root, f, j, child, v + n) by { EndPlace(s.info[f], v, n); }
    ChildLevel(s.info[f], j);
    ShrunkSpared(s, u, root, f, v, y - v);
    FilledSame(s, u, root, child, y, v + n, lvl - 1, v, y - v);
    LastInside(s.info[f], j, y, m);
    AnchoredHere(u.mem, child, y, lvl - 1);
    SameChild(s, u, root, f, v, y - v, child);
  }

  lemma SameChild(s: Space, u: Space, root: nat, f: nat, v: nat, n: nat, child: nat)
    requires f in s.info && Shrunk(s, u, root, f, v, n) && child in u.info
    ensures child in s.info && u.info[child] == s.info[child]
  {
    hide Tree, Hung, Walk, Under, Covers, Spared;
  }

  /** Where it starts inside it. */
  lemma NearTable(s: Space, root: nat, f: nat, j: nat, child: nat, v: nat, n: nat, lvl: nat)
    requires Tree(s, root, LO, HI) && f in s.info && s.info[f].lvl == lvl > 1 && Within(s.info[f], v, n)
    requires InOne(v, n, lvl)
    requires (v + n) % Size(lvl) != 0 && j == PtIndex(v + n, lvl) == PtIndex(v, lvl) < 512 && Anchored(s.mem, f, v, lvl)
    requires f in s.mem && |s.mem[f]| == 512 && Link(s.mem[f][j], lvl) && child == s.mem[f][j].phys
    requires child in s.info && s.info[child] == Child(s.info[f], j)
    requires Filled(s.mem, child, Later(v, v + n, lvl), v + n, lvl - 1)
    ensures s.info[child].lvl == lvl - 1 && Within(s.info[child], v, n) && InOne(v, n, lvl - 1)
    ensures Anchored(s.mem, child, v, lvl - 1) && Filled(s.mem, child, v, v + n, lvl - 1)
    ensures EntryBase(s.info[f].base, lvl, j) <= v && v + n < EntryBase(s.info[f].base, lvl, j) + Size(lvl)
  {
    hide *;
    InOneParts(v, n, lvl);
    RowPlaced(s, root, f);
    EndPlace(s.info[f], v, n);
    ChildLevel(s.info[f], j);
    StartInside(s.info[f], j, v, n);
    AnchoredChild(s.mem, f, v, lvl);
    HasEntry(s.info[f], v);
  }

  lemma ShrunkSpared(s: Space, t: Space, root: nat, f: nat, v: nat, n: nat)
    requires f in s.info && Shrunk(s, t, root, f, v, n)
    ensures Spared(s, t, v, n)
  {
    hide Tree, Hung, Walk, Under, Covers, Spared;
  }

  /** The part of the range in the entry that its end cuts. */
  lemma LastInside(d: Info, j: nat, y: nat, m: nat)
    requires Placed(d) && j < 512 && d.lvl > 1 && y == EntryBase(d.base, d.lvl, j) && 0 < m < Size(d.lvl)
    requires y + m <= HALF && (y + m) % 0x1000 == 0
    ensures y % Size(d.lvl) == 0 && y % Size(d.lvl - 1) == 0 && InOne(y, m, d.lvl - 1) && OnPages(y, m)
    ensures Within(Child(d, j), y, m)
  {
    EntryBorder(d, j);
    PlacedLevel(d);
    BorderBelow(y, d.lvl);
    SizeDivides(1, d.lvl, y);
    ChildWithin(d, j, y, m);
    hide Size, EntryBase, Placed;
  }

  lemma StartInside(d: Info, j: nat, v: nat, n: nat)
    requires Placed(d) && d.lvl > 1 && j == PtIndex(v, d.lvl) < 512 && InOne(v, n, d.lvl) && Covers(d, v)
    requires v + n < EntryBase(d.base, d.lvl, j) + Size(d.lvl)
    ensures InOne(v, n, d.lvl - 1) && Within(Child(d, j), v, n)
  {
    EntryIs(d, v);
    HasEntry(d, v);
    hide Size, EntryBase, Placed;
    ChildWithin(d, j, v, n);
  }

  lemma AnchoredChild(mem: Tables, f: nat, v: nat, lvl: nat)
    requires 1 < lvl <= 4 && f in mem && |mem[f]| == 512 && PtIndex(v, lvl) < 512 && Anchored(mem, f, v, lvl)
    ensures Anchored(mem, mem[f][PtIndex(v, lvl)].phys, v, lvl - 1)
  {
    hide *;
    if v % Size(lvl) == 0 {
      BorderBelow(v, lvl);
      AnchoredHere(mem, mem[f][PtIndex(v, lvl)].phys, v, lvl - 1);
    } else {
      AnchoredBelow(mem, f, v, lvl);
    }
  }

  lemma FilledIsExact(s: Space, root: nat, v: nat, n: nat)
    requires Tree(s, root, LO, HI) && Hung(s, root, LO, HI) && n > 0 && v + n <= HALF && OnPages(v, n)
    requires Anchored(s.mem, root, v, 4) && Filled(s.mem, root, v, v + n, 4)
    ensures ExactOn(s, root, v, n)
  {
    hide *;
    TopFits(v, n);
    RootWithin(s, root, v, n);
    var t := FilledExact(s, root, root, v, n, 4);
    RootExact(s, t, root, v, n);
  }
}
