/** The loop that __pt_map_to and __pt_map share: what one table's pass over a range has
    mapped so far, and what a leaf, a new table or a recursive call adds to it. */
module MapLoop {
  import opened Bits
  import opened Paging

  /** Where a range is to be mapped: to frames in address order from `phys`, or to any frames. */
  datatype Goal = Anywhere | Linearly(phys: nat)

  /** The goal of the part of a range that starts `n` bytes in. */
  function Past(g: Goal, n: nat): Goal {
    match g case Anywhere => Anywhere case Linearly(p) => Linearly(p + n)
  }

  predicate GoalAligned(g: Goal) {
    g.Linearly? ==> PageAligned(g.phys)
  }

  predicate Meets(r: Option<nat>, g: Goal, n: nat) {
    r.Some? && (g.Linearly? ==> r.value == g.phys + n)
  }

  /** [v, v + n) is mapped as `g` asks. */
  ghost predicate Reaches(s: Space, f: nat, v: nat, n: nat, g: Goal)
    requires f in s.info
  {
    forall a: nat :: v <= a < v + n ==> Meets(Walk(s.mem, f, s.info[f].lvl, a), g, a - v)
  }

  ghost predicate Unmapped(s: Space, f: nat, v: nat, n: nat)
    requires f in s.info
  {
    forall a: nat :: v <= a < v + n ==> Walk(s.mem, f, s.info[f].lvl, a) == None
  }

  /** [v, v + n) lies under table `f`, in the part of the root this space owns. */
  ghost predicate InTable(s: Space, lo: nat, hi: nat, f: nat, v: nat, n: nat)
    requires f in s.info
  {
    && Placed(s.info[f])
    && s.info[f].base <= v && v + n <= s.info[f].base + Size(s.info[f].lvl + 1)
    && (s.info[f].lvl == 4 ==> forall a :: v <= a < v + n ==> RootEntry(a, lo, hi))
  }

  ghost predicate MapState(s0: Space, s: Space, root: nat, lo: nat, hi: nat, f: nat, v: nat, n: nat, phys: Goal)
    requires f in s0.info
  {
    && Changed(s0, s, root, lo, hi, f, v, n)
    && f in s.info && s.info[f] == s0.info[f] && Reaches(s, f, v, n, phys)
  }

  lemma MapStarts(s: Space, root: nat, lo: nat, hi: nat, f: nat, v: nat, phys: Goal)
    requires Tree(s, root, lo, hi) && f in s.info
    ensures MapState(s, s, root, lo, hi, f, v, 0, phys)
  {
    hide Walk, Under, Tree;
  }

  lemma MapTrans(s0: Space, s: Space, t: Space, root: nat, lo: nat, hi: nat, f: nat, v: nat, n: nat, m: nat, phys: Goal)
    requires f in s0.info && MapState(s0, s, root, lo, hi, f, v, n, phys)
    requires MapState(s, t, root, lo, hi, f, v + n, m, Past(phys, n))
    requires InTable(s0, lo, hi, f, v, n + m)
    ensures MapState(s0, t, root, lo, hi, f, v, n + m, phys)
  {
    hide Walk, Under, Tree, Size, PtIndex, Placed;
    ChangedTrans(s0, s, t, root, lo, hi, f, v, n, m);
    forall a: nat | v <= a < v + n ensures Meets(Walk(t.mem, f, t.info[f].lvl, a), phys, a - v) {
      assert Covers(s.info[f], a);
      assert Walk(t.mem, f, s.info[f].lvl, a) == Walk(s.mem, f, s.info[f].lvl, a);
    }
  }

  lemma StillUnmapped(s0: Space, s: Space, root: nat, lo: nat, hi: nat, f: nat, v: nat, n: nat, m: nat)
    requires f in s0.info && f in s.info && s.info[f] == s0.info[f]
    requires Changed(s0, s, root, lo, hi, f, v, n) && Unmapped(s0, f, v, n + m) && InTable(s0, lo, hi, f, v, n + m)
    ensures Unmapped(s, f, v + n, m)
  {
    hide Walk, Under, Tree, Size, PtIndex, Placed;
    forall a: nat | v + n <= a < v + n + m ensures Walk(s.mem, f, s.info[f].lvl, a) == None {
      assert Covers(s0.info[f], a);
    }
  }

  /** A leaf that covers exactly the next chunk. */
  lemma MapLeaf(s: Space, root: nat, lo: nat, hi: nat, f: nat, i: nat, pte: Pte)
    requires Tree(s, root, lo, hi) && Mine(s, f, i, lo, hi)
    requires Leaf(pte, s.info[f].lvl) && pte.phys % Size(s.info[f].lvl) == 0
    requires pte.large <==> (s.info[f].lvl == 2 || s.info[f].lvl == 3)
    ensures f in s.mem && i < |s.mem[f]|
    ensures MapState(s, SetEntry(s, f, i, pte), root, lo, hi, f,
                     EntryBase(s.info[f].base, s.info[f].lvl, i), Size(s.info[f].lvl), Linearly(pte.phys))
    ensures MapState(s, SetEntry(s, f, i, pte), root, lo, hi, f,
                     EntryBase(s.info[f].base, s.info[f].lvl, i), Size(s.info[f].lvl), Anywhere)
  {
    hide Walk, Under, Size, PtIndex, Placed, EntryBase, EntriesOk;
    LeafStep(s, root, lo, hi, f, i, pte);
    var base, n := EntryBase(s.info[f].base, s.info[f].lvl, i), Size(s.info[f].lvl);
    forall a: nat | base <= a < base + n
      ensures Walk(SetEntry(s, f, i, pte).mem, f, s.info[f].lvl, a) == Some(pte.phys + (a - base))
    {
      LeafWalk(s, f, i, pte, a);
    }
  }

  /** A chunk mapped by the table under entry `i` is mapped by `f`. */
  lemma MapChild(s: Space, t: Space, root: nat, lo: nat, hi: nat, f: nat, i: nat, child: nat, v: nat, n: nat,
                 phys: Goal)
    requires Tree(s, root, lo, hi) && Mine(s, f, i, lo, hi) && s.info[f].lvl > 1
    requires Link(Entry(s, f, i), s.info[f].lvl) && Entry(s, f, i).phys == child
    requires child in s.info && MapState(s, t, root, lo, hi, child, v, n, phys)
    requires forall a :: v <= a < v + n ==> PtIndex(a, s.info[f].lvl) == i
    ensures MapState(s, t, root, lo, hi, f, v, n, phys)
  {
    hide Walk, Under, Size, PtIndex, Placed, EntryBase, EntriesOk, Child;
    ChildStep(s, t, root, lo, hi, f, i, child, v, n);
    LinkChild(s, root, lo, hi, f, i);
    forall a: nat | v <= a < v + n ensures Meets(Walk(t.mem, f, s.info[f].lvl, a), phys, a - v) {
      WalkThrough(t.mem, f, s.info[f].lvl, a);
    }
  }

  lemma LinkChild(s: Space, root: nat, lo: nat, hi: nat, f: nat, i: nat)
    requires Tree(s, root, lo, hi) && Mine(s, f, i, lo, hi) && Link(Entry(s, f, i), s.info[f].lvl)
    ensures s.info[f].lvl > 1 && Placed(s.info[f]) && i < 512
    ensures Entry(s, f, i).phys in s.info && s.info[Entry(s, f, i).phys] == Child(s.info[f], i)
    ensures s.info[Entry(s, f, i).phys].lvl == s.info[f].lvl - 1
    ensures Placed(s.info[Entry(s, f, i).phys])
  {
    hide PtIndex, Size, EntryBase, Placed;
    assert EntryOk(s, f, i);
    ChildPlaced(s.info[f], i);
  }

  /** Where the loop over the entries stands: `n` bytes from `v` are done, entry `i` is next. */
  ghost predicate AtEntry(d: Info, v: nat, size: nat, n: nat, i: nat) {
    && n <= size && d.lvl >= 1
    && (n < size ==> i == PtIndex(v + n, d.lvl) && i < PtIndex(v + size - 1, d.lvl) + 1)
    && (n == size ==> size > 0 && i == PtIndex(v + size - 1, d.lvl) + 1)
  }

  /** The words the loop holds: `virt` and `size` after `n` of `size0` bytes from `virt0`. */
  predicate Words(virt0: nat, size0: nat, n: nat, virt: nat, size: nat) {
    virt < W && n <= size0 && size == size0 - n && virt == (virt0 + n) % W
  }

  lemma WordsFacts(virt0: nat, size0: nat, n: nat, virt: nat, size: nat, lvl: nat)
    requires Words(virt0, size0, n, virt, size) && virt0 < W && 1 <= lvl <= 4
    requires virt0 % TOP + size0 <= TOP && size > 0
    ensures virt % TOP == virt0 % TOP + n
    ensures PtIndex(virt, lvl) == PtIndex(virt0 % TOP + n, lvl)
    ensures PtIndex((virt + size - 1) % W, lvl) == PtIndex(virt0 % TOP + size0 - 1, lvl)
  {
    hide PtIndex;
    WordsAre(virt0, size0, n, virt, size);
    LowWord(virt0, n);
    LowWord(virt0, n + size - 1);
    hide Words;
    IndexLow(virt, lvl);
    IndexLow((virt + size - 1) % W, lvl);
  }

  lemma WordsAre(virt0: nat, size0: nat, n: nat, virt: nat, size: nat)
    requires Words(virt0, size0, n, virt, size) && size > 0
    ensures virt == (virt0 + n) % W && size == size0 - n && (virt + size - 1) % W == (virt0 + (n + size - 1)) % W
  {}

  lemma LowWord(a: nat, n: nat)
    requires a < W && a % TOP + n < TOP
    ensures (a + n) % W % TOP == a % TOP + n
  {
    var q := a / TOP;
    assert a == TOP * q + a % TOP && q < 0x1_0000;
    assert a + n < W;
    DivUnique(a + n, TOP, q, a % TOP + n);
  }

  /** 64-bit addition. */
  function Plus(a: nat, b: nat): nat {
    (a + b) % W
  }

  /** `virt + size - 1` on 64-bit words. */
  function Last(virt: nat, size: nat): nat
    requires size > 0
  {
    (virt + size - 1) % W
  }

  predicate PageAligned(x: nat) {
    x % 0x1000 == 0
  }

  /** The loop of __pt_map_to over table `f`, `n` bytes into the range. */
  ghost predicate Loop(s0: Space, s: Space, root: nat, lo: nat, hi: nat, f: nat, v: nat, size: nat, phys: Goal,
                       n: nat, i: nat)
    requires f in s0.info
  {
    && MapState(s0, s, root, lo, hi, f, v, n, phys)
    && AtEntry(s0.info[f], v, size, n, i)
    && InTable(s0, lo, hi, f, v, size) && Unmapped(s0, f, v, size)
    && PageAligned(v) && PageAligned(size) && PageAligned(n) && GoalAligned(phys) && size > 0
  }

  /** How far the next chunk goes and what the entry under it can be. */
  lemma LoopChunk(s0: Space, s: Space, root: nat, lo: nat, hi: nat, f: nat, v: nat, size: nat, phys: Goal, n: nat,
                  i: nat, m: nat)
    requires f in s0.info && Loop(s0, s, root, lo, hi, f, v, size, phys, n, i) && n < size
    requires m == Min(size - n, Size(s0.info[f].lvl) - (v + n) % Size(s0.info[f].lvl))
    ensures 0 < m <= size - n && PageAligned(m) && PageAligned(n + m) && (s0.info[f].lvl == 1 ==> m == 0x1000)
    ensures Tree(s, root, lo, hi) && f in s.info && s.info[f] == s0.info[f] && Mine(s, f, i, lo, hi)
    ensures f in s.mem && |s.mem[f]| == 512 && 1 <= s0.info[f].lvl <= 4
    ensures EntryBase(s.info[f].base, s.info[f].lvl, i) <= v + n
    ensures v + n + m <= EntryBase(s.info[f].base, s.info[f].lvl, i) + Size(s.info[f].lvl)
    ensures m == Size(s.info[f].lvl) ==> v + n == EntryBase(s.info[f].base, s.info[f].lvl, i)
    ensures forall a :: v + n <= a < v + n + m ==> PtIndex(a, s.info[f].lvl) == i
    ensures AtEntry(s0.info[f], v, size, n + m, i + 1)
    ensures Unmapped(s, f, v + n, m) && InTable(s0, lo, hi, f, v, n + m)
  {
    hide *;
    LoopParts(s0, s, root, lo, hi, f, v, size, phys, n, i);
    var d := s0.info[f];
    ChunkGeometry(s0, lo, hi, f, v, size, n, i, m);
    MapStateParts(s0, s, root, lo, hi, f, v, n, phys);
    StillUnmapped(s0, s, root, lo, hi, f, v, n, size - n);
    PartUnmapped(s, f, v + n, size - n, m);
    TreeTable(s, root, lo, hi, f);
    PlacedLevel(s.info[f]);
    MineHere(s, s0, lo, hi, f, v, size, n, i);
  }

  lemma LoopParts(s0: Space, s: Space, root: nat, lo: nat, hi: nat, f: nat, v: nat, size: nat, phys: Goal, n: nat,
                  i: nat)
    requires f in s0.info && Loop(s0, s, root, lo, hi, f, v, size, phys, n, i)
    ensures MapState(s0, s, root, lo, hi, f, v, n, phys)
    ensures AtEntry(s0.info[f], v, size, n, i)
    ensures InTable(s0, lo, hi, f, v, size) && Unmapped(s0, f, v, size)
    ensures PageAligned(v) && PageAligned(size) && PageAligned(n) && GoalAligned(phys) && size > 0 && n <= size
    ensures n + (size - n) == size
  {}

  lemma MapStateParts(s0: Space, s: Space, root: nat, lo: nat, hi: nat, f: nat, v: nat, n: nat, phys: Goal)
    requires f in s0.info && MapState(s0, s, root, lo, hi, f, v, n, phys)
    ensures Changed(s0, s, root, lo, hi, f, v, n) && Tree(s, root, lo, hi)
    ensures f in s.info && s.info[f] == s0.info[f] && Reaches(s, f, v, n, phys)
  {
    hide Tree, Walk, Under;
  }

  lemma PartUnmapped(s: Space, f: nat, v: nat, n: nat, m: nat)
    requires f in s.info && Unmapped(s, f, v, n) && m <= n
    ensures Unmapped(s, f, v, m)
  {}

  lemma TreeTable(s: Space, root: nat, lo: nat, hi: nat, f: nat)
    requires Tree(s, root, lo, hi) && f in s.info
    ensures f in s.mem && |s.mem[f]| == 512 && Placed(s.info[f])
  {}

  lemma MineHere(s: Space, s0: Space, lo: nat, hi: nat, f: nat, v: nat, size: nat, n: nat, i: nat)
    requires f in s0.info && f in s.info && s.info[f] == s0.info[f]
    requires InTable(s0, lo, hi, f, v, size) && AtEntry(s0.info[f], v, size, n, i) && n < size
    ensures Mine(s, f, i, lo, hi)
  {
    hide PtIndex, Size, Placed;
    assert s0.info[f].lvl == 4 ==> RootEntry(v + n, lo, hi);
  }

  lemma ChunkGeometry(s0: Space, lo: nat, hi: nat, f: nat, v: nat, size: nat, n: nat, i: nat, m: nat)
    requires f in s0.info && InTable(s0, lo, hi, f, v, size) && AtEntry(s0.info[f], v, size, n, i) && n < size
    requires PageAligned(v) && PageAligned(size) && PageAligned(n)
    requires m == Min(size - n, Size(s0.info[f].lvl) - (v + n) % Size(s0.info[f].lvl))
    ensures 0 < m <= size - n && PageAligned(m) && PageAligned(n + m) && (s0.info[f].lvl == 1 ==> m == 0x1000)
    ensures EntryBase(s0.info[f].base, s0.info[f].lvl, i) <= v + n
    ensures v + n + m <= EntryBase(s0.info[f].base, s0.info[f].lvl, i) + Size(s0.info[f].lvl)
    ensures m == Size(s0.info[f].lvl) ==> v + n == EntryBase(s0.info[f].base, s0.info[f].lvl, i)
    ensures forall a :: v + n <= a < v + n + m ==> PtIndex(a, s0.info[f].lvl) == i
    ensures AtEntry(s0.info[f], v, size, n + m, i + 1)
    ensures InTable(s0, lo, hi, f, v, n + m)
  {
    hide *;
    var d := s0.info[f];
    InTableParts(s0, lo, hi, f, v, size, n + m);
    AtEntryParts(d, v, size, n, i);
    PlacedLevel(d);
    AlignedSum(v, n, size);
    ChunkAligned(d.lvl, v + n, size - n, m);
    AlignedSum(v, n, n + m);
    Advance(d, v + n, size - n, m);
    assert v + n + (size - n) - 1 == v + size - 1;
    AtEntryFrom(d, v, size, n + m, i + 1);
    AlignedSum(n, m, n + m);
  }

  lemma AlignedSum(a: nat, b: nat, c: nat)
    requires PageAligned(a) && PageAligned(b)
    ensures PageAligned(a + b) && (PageAligned(c) && b <= c ==> PageAligned(c - b))
  {}

  lemma InTableParts(s: Space, lo: nat, hi: nat, f: nat, v: nat, n: nat, m: nat)
    requires f in s.info && InTable(s, lo, hi, f, v, n)
    ensures Placed(s.info[f]) && s.info[f].base <= v && v + n <= s.info[f].base + Size(s.info[f].lvl + 1)
    ensures m <= n ==> InTable(s, lo, hi, f, v, m)
  {}

  lemma AtEntryParts(d: Info, v: nat, size: nat, n: nat, i: nat)
    requires AtEntry(d, v, size, n, i) && n < size
    ensures i == PtIndex(v + n, d.lvl)
  {}

  lemma AtEntryFrom(d: Info, v: nat, size: nat, n: nat, i: nat)
    requires n <= size && d.lvl >= 1 && size > 0
    requires n < size ==> i == PtIndex(v + n, d.lvl) && i < PtIndex(v + size - 1, d.lvl) + 1
    requires n == size ==> i == PtIndex(v + size - 1, d.lvl) + 1
    ensures AtEntry(d, v, size, n, i)
  {}

  lemma ChunkAligned(lvl: nat, v: nat, size: nat, m: nat)
    requires 1 <= lvl <= 4 && PageAligned(v) && PageAligned(size) && size > 0
    requires m == Min(size, Size(lvl) - v % Size(lvl))
    ensures PageAligned(m) && (lvl == 1 ==> m == 0x1000)
  {
    hide Size;
    SizeDivides(1, lvl, 0);
    SizePage();
    RestAligned(v, Size(lvl));
  }

  lemma SizePage()
    ensures Size(1) == 0x1000
  {}

  lemma RestAligned(v: nat, e: nat)
    requires e > 0 && e % 0x1000 == 0 && v % 0x1000 == 0
    ensures (e - v % e) % 0x1000 == 0
  {
    var q := v / e;
    assert v % e == v - e * q;
    Multiple(0x1000, e / 0x1000 * q);
    assert e * q == 0x1000 * (e / 0x1000 * q) by { assert e == 0x1000 * (e / 0x1000); }
    MultipleSum(0x1000, v, e * q);
    MultipleSum(0x1000, e, v - e * q);
  }

  lemma LoopNext(s0: Space, s: Space, root: nat, lo: nat, hi: nat, f: nat, v: nat, size: nat, phys: Goal, n: nat,
                 i: nat, m: nat, t: Space)
    requires f in s0.info && Loop(s0, s, root, lo, hi, f, v, size, phys, n, i) && n < size
    requires m == Min(size - n, Size(s0.info[f].lvl) - (v + n) % Size(s0.info[f].lvl))
    requires f in s.info && MapState(s, t, root, lo, hi, f, v + n, m, Past(phys, n))
    ensures Loop(s0, t, root, lo, hi, f, v, size, phys, n + m, i + 1)
  {
    hide *;
    LoopChunk(s0, s, root, lo, hi, f, v, size, phys, n, i, m);
    LoopParts(s0, s, root, lo, hi, f, v, size, phys, n, i);
    MapTrans(s0, s, t, root, lo, hi, f, v, n, m, phys);
    LoopFrom(s0, t, root, lo, hi, f, v, size, phys, n + m, i + 1);
  }

  lemma LoopFrom(s0: Space, s: Space, root: nat, lo: nat, hi: nat, f: nat, v: nat, size: nat, phys: Goal, n: nat,
                 i: nat)
    requires f in s0.info && MapState(s0, s, root, lo, hi, f, v, n, phys)
    requires AtEntry(s0.info[f], v, size, n, i)
    requires InTable(s0, lo, hi, f, v, size) && Unmapped(s0, f, v, size)
    requires PageAligned(v) && PageAligned(size) && PageAligned(n) && GoalAligned(phys) && size > 0
    ensures Loop(s0, s, root, lo, hi, f, v, size, phys, n, i)
  {}

  /** The leaf branch: the chunk is the whole entry and the frame is aligned to it. */
  lemma LoopLeaf(s0: Space, s: Space, root: nat, lo: nat, hi: nat, f: nat, v: nat, size: nat, phys: Goal, n: nat,
                 i: nat, m: nat, pte: Pte)
    requires f in s0.info && Loop(s0, s, root, lo, hi, f, v, size, phys, n, i) && n < size
    requires m == Min(size - n, Size(s0.info[f].lvl) - (v + n) % Size(s0.info[f].lvl))
    requires s0.info[f].lvl == 1 || (m == Size(s0.info[f].lvl) && s0.info[f].lvl in {2, 3})
    requires pte.present && (pte.large <==> s0.info[f].lvl in {2, 3}) && pte.phys % Size(s0.info[f].lvl) == 0
    requires phys == Anywhere || Past(phys, n) == Linearly(pte.phys)
    ensures f in s.mem && i < |s.mem[f]|
    ensures Loop(s0, SetEntry(s, f, i, pte), root, lo, hi, f, v, size, phys, n + m, i + 1)
  {
    hide *;
    LoopChunk(s0, s, root, lo, hi, f, v, size, phys, n, i, m);
    LoopParts(s0, s, root, lo, hi, f, v, size, phys, n, i);
    LeafSize(s0.info[f].lvl, m, pte);
    PastAnywhere(n);
    MapLeaf(s, root, lo, hi, f, i, pte);
    LoopNext(s0, s, root, lo, hi, f, v, size, phys, n, i, m, SetEntry(s, f, i, pte));
  }

  lemma PastAnywhere(n: nat)
    ensures Past(Anywhere, n) == Anywhere
  {}

  lemma PastAligned(g: Goal, n: nat)
    requires GoalAligned(g) && PageAligned(n)
    ensures GoalAligned(Past(g, n))
  {}

  lemma LeafSize(lvl: nat, m: nat, pte: Pte)
    requires pte.present && (pte.large <==> lvl in {2, 3})
    requires (lvl == 1 && m == 0x1000) || (m == Size(lvl) && lvl in {2, 3})
    ensures Leaf(pte, lvl) && m == Size(lvl)
    ensures pte.large <==> (lvl == 2 || lvl == 3)
  {}

  /** The table branch: hanging a new table changes no translation. */
  lemma LoopTable(s0: Space, s: Space, root: nat, lo: nat, hi: nat, f: nat, v: nat, size: nat, phys: Goal, n: nat,
                  i: nat, flags: nat, child: nat)
    requires f in s0.info && Loop(s0, s, root, lo, hi, f, v, size, phys, n, i) && n < size && s0.info[f].lvl > 1
    requires child !in s.mem && PageAligned(child) && !Entry(s, f, i).present
    ensures f in s.info && f in s.mem && i < |s.mem[f]|
    ensures s.info[f].lvl >= 1 && Loop(s0, AddTable(s, f, i, flags, child), root, lo, hi, f, v, size, phys, n, i)
    ensures child in AddTable(s, f, i, flags, child).info
  {
    hide *;
    LoopParts(s0, s, root, lo, hi, f, v, size, phys, n, i);
    MapStateParts(s0, s, root, lo, hi, f, v, n, phys);
    TreeTable(s, root, lo, hi, f);
    MineHere(s, s0, lo, hi, f, v, size, n, i);
    MineIndex(s, f, i, lo, hi);
    PageAlignedIs(child);
    AddTableStep(s, root, lo, hi, f, i, flags, child, v + n);
    var t := AddTable(s, f, i, flags, child);
    TableState(s, t, root, lo, hi, f, i, flags, child, v + n, Past(phys, n));
    InTableParts(s0, lo, hi, f, v, size, n);
    MapTrans(s0, s, t, root, lo, hi, f, v, n, 0, phys);
    LoopFrom(s0, t, root, lo, hi, f, v, size, phys, n, i);
  }

  lemma PageAlignedIs(x: nat)
    requires PageAligned(x)
    ensures x % 0x1000 == 0
  {}

  lemma TableState(s: Space, t: Space, root: nat, lo: nat, hi: nat, f: nat, i: nat, flags: nat, child: nat, v: nat,
                   phys: Goal)
    requires f in s.info && f in s.mem && i < |s.mem[f]| && s.info[f].lvl >= 1 && child !in s.mem
    requires Tree(s, root, lo, hi)
    requires t == AddTable(s, f, i, flags, child) && Changed(s, t, root, lo, hi, f, v, 0)
    ensures child in t.info && MapState(s, t, root, lo, hi, f, v, 0, phys)
  {
    hide Walk, Under, EntriesOk, Child;
  }

  /** What the recursive call may assume about the table under the entry. */
  lemma LoopDown(s0: Space, s: Space, root: nat, lo: nat, hi: nat, f: nat, v: nat, size: nat, phys: Goal, n: nat,
                 i: nat, m: nat)
    requires f in s0.info && Loop(s0, s, root, lo, hi, f, v, size, phys, n, i) && n < size
    requires m == Min(size - n, Size(s0.info[f].lvl) - (v + n) % Size(s0.info[f].lvl))
    requires Entry(s, f, i).present
    ensures f in s.info && s0.info[f].lvl > 1 && Tree(s, root, lo, hi) && Mine(s, f, i, lo, hi)
    ensures Link(Entry(s, f, i), s.info[f].lvl)
    ensures var child := Entry(s, f, i).phys;
            && child in s.info && s.info[child].lvl == s0.info[f].lvl - 1
            && InTable(s, lo, hi, child, v + n, m) && Unmapped(s, child, v + n, m)
    ensures PageAligned(v + n) && PageAligned(m) && m > 0 && GoalAligned(Past(phys, n))
  {
    hide *;
    LoopChunk(s0, s, root, lo, hi, f, v, size, phys, n, i, m);
    LoopParts(s0, s, root, lo, hi, f, v, size, phys, n, i);
    AlignedSum(v, n, n);
    PastAligned(phys, n);
    NoLeafHere(s, f, v + n, m, i);
    LinkChild(s, root, lo, hi, f, i);
    DownRange(s, lo, hi, f, i, v + n, m);
  }

  lemma NoLeafHere(s: Space, f: nat, v: nat, m: nat, i: nat)
    requires f in s.info && f in s.mem && |s.mem[f]| == 512 && i < 512
    requires Unmapped(s, f, v, m) && m > 0 && PtIndex(v, s.info[f].lvl) == i && Entry(s, f, i).present
    requires s.info[f].lvl > 0
    ensures Link(Entry(s, f, i), s.info[f].lvl)
  {
    hide PtIndex, Size;
    assert Walk(s.mem, f, s.info[f].lvl, v) == None;
  }

  lemma DownRange(s: Space, lo: nat, hi: nat, f: nat, i: nat, v: nat, m: nat)
    requires f in s.info && f in s.mem && |s.mem[f]| == 512 && i < 512 && Placed(s.info[f]) && s.info[f].lvl > 1
    requires Link(Entry(s, f, i), s.info[f].lvl) && Unmapped(s, f, v, m)
    requires forall a :: v <= a < v + m ==> PtIndex(a, s.info[f].lvl) == i
    requires EntryBase(s.info[f].base, s.info[f].lvl, i) <= v
    requires v + m <= EntryBase(s.info[f].base, s.info[f].lvl, i) + Size(s.info[f].lvl)
    requires Entry(s, f, i).phys in s.info && s.info[Entry(s, f, i).phys] == Child(s.info[f], i)
    ensures InTable(s, lo, hi, Entry(s, f, i).phys, v, m) && Unmapped(s, Entry(s, f, i).phys, v, m)
  {
    hide PtIndex, Size, Walk, EntryBase, Placed;
    ChildPlaced(s.info[f], i);
    ChildLevel(s.info[f], i);
    PlacedLevel(s.info[f]);
    var child, down := Entry(s, f, i).phys, s.info[f].lvl - 1;
    forall a: nat | v <= a < v + m ensures Walk(s.mem, child, down, a) == None {
      WalkThrough(s.mem, f, s.info[f].lvl, a);
    }
  }

  /** The recursive call has mapped the chunk. */
  lemma LoopChild(s0: Space, s: Space, t: Space, root: nat, lo: nat, hi: nat, f: nat, v: nat, size: nat, phys: Goal,
                  n: nat, i: nat, m: nat)
    requires f in s0.info && Loop(s0, s, root, lo, hi, f, v, size, phys, n, i) && n < size
    requires m == Min(size - n, Size(s0.info[f].lvl) - (v + n) % Size(s0.info[f].lvl))
    requires Entry(s, f, i).present && Entry(s, f, i).phys in s.info
    requires MapState(s, t, root, lo, hi, Entry(s, f, i).phys, v + n, m, Past(phys, n))
    ensures Loop(s0, t, root, lo, hi, f, v, size, phys, n + m, i + 1)
  {
    hide *;
    LoopDown(s0, s, root, lo, hi, f, v, size, phys, n, i, m);
    LoopChunk(s0, s, root, lo, hi, f, v, size, phys, n, i, m);
    MapChild(s, t, root, lo, hi, f, i, Entry(s, f, i).phys, v + n, m, Past(phys, n));
    LoopNext(s0, s, root, lo, hi, f, v, size, phys, n, i, m, t);
  }

  lemma LoopStarts(s: Space, root: nat, lo: nat, hi: nat, f: nat, virt: nat, size: nat, phys: Goal)
    requires Tree(s, root, lo, hi) && f in s.info
    requires virt < W && 0 < size && PageAligned(virt % TOP) && PageAligned(size) && GoalAligned(phys)
    requires InTable(s, lo, hi, f, virt % TOP, size) && Unmapped(s, f, virt % TOP, size)
    ensures var i, to := PtIndex(virt, s.info[f].lvl), PtIndex(Last(virt, size), s.info[f].lvl) + 1;
            i <= to && Loop(s, s, root, lo, hi, f, virt % TOP, size, phys, 0, i)
    ensures Words(virt, size, 0, virt, size) && virt % TOP + size <= TOP
  {
    StartParts(s, lo, hi, f, virt, size);
    hide *;
    var d, v := s.info[f], virt % TOP;
    PlacedLevel(d);
    WordsStart(virt, size);
    WordsFacts(virt, size, 0, virt, size, d.lvl);
    LastWord(virt, size);
    Advance(d, v, size, Min(size, Size(d.lvl) - v % Size(d.lvl)));
    AtEntryFrom(d, v, size, 0, PtIndex(v, d.lvl));
    MapStarts(s, root, lo, hi, f, v, phys);
    LoopFrom(s, s, root, lo, hi, f, v, size, phys, 0, PtIndex(v, d.lvl));
  }

  lemma StartParts(s: Space, lo: nat, hi: nat, f: nat, virt: nat, size: nat)
    requires f in s.info && InTable(s, lo, hi, f, virt % TOP, size) && size > 0
    ensures Placed(s.info[f]) && s.info[f].base <= virt % TOP
    ensures virt % TOP + size <= s.info[f].base + Size(s.info[f].lvl + 1)
    ensures virt % TOP + size <= TOP
  {
    hide Size, PtIndex;
  }

  lemma WordsStart(virt: nat, size: nat)
    requires virt < W
    ensures Words(virt, size, 0, virt, size)
  {}

  lemma LastWord(virt: nat, size: nat)
    requires size > 0
    ensures Last(virt, size) == (virt + size - 1) % W
  {}

  /** The loop guard `i != to` says exactly that the range is not exhausted. */
  lemma LoopWords(s0: Space, s: Space, root: nat, lo: nat, hi: nat, f: nat, virt0: nat, size0: nat, phys: Goal,
                  n: nat, i: nat, virt: nat, size: nat)
    requires f in s0.info && Loop(s0, s, root, lo, hi, f, virt0 % TOP, size0, phys, n, i)
    requires Words(virt0, size0, n, virt, size) && virt0 < W && size0 > 0 && virt0 % TOP + size0 <= TOP
    ensures 1 <= s0.info[f].lvl <= 4
    ensures var to := PtIndex(Last(virt0, size0), s0.info[f].lvl) + 1;
            n <= size0 && i <= to && (i != to <==> n < size0)
    ensures n < size0 ==>
              Chunk(virt, size, s0.info[f].lvl)
              == Min(size0 - n, Size(s0.info[f].lvl) - (virt0 % TOP + n) % Size(s0.info[f].lvl))
    ensures n < size0 ==> virt % TOP == virt0 % TOP + n && virt < W && size == size0 - n
    ensures n < size0 ==> virt % Size(s0.info[f].lvl) == (virt0 % TOP + n) % Size(s0.info[f].lvl)
  {
    LoopEntry(s0, s, root, lo, hi, f, virt0 % TOP, size0, phys, n, i);
    hide *;
    var d := s0.info[f];
    PlacedLevel(d);
    WordsStart(virt0, size0);
    WordsFacts(virt0, size0, 0, virt0, size0, d.lvl);
    LastWord(virt0, size0);
    WordsBound(virt0, size0, n, virt, size);
    if n < size0 {
      WordsFacts(virt0, size0, n, virt, size, d.lvl);
      ChunkIs(virt, size, d.lvl);
    }
  }

  lemma WordsBound(virt0: nat, size0: nat, n: nat, virt: nat, size: nat)
    requires Words(virt0, size0, n, virt, size)
    ensures n <= size0 && virt < W && size == size0 - n
  {}

  lemma LoopEntry(s0: Space, s: Space, root: nat, lo: nat, hi: nat, f: nat, v: nat, size: nat, phys: Goal, n: nat,
                  i: nat)
    requires f in s0.info && Loop(s0, s, root, lo, hi, f, v, size, phys, n, i)
    ensures Placed(s0.info[f]) && n <= size
    ensures var to := PtIndex(v + size - 1, s0.info[f].lvl) + 1; i <= to && (i != to <==> n < size)
  {
    hide PtIndex, Size, Tree, Unmapped, Walk, MapState;
  }

  lemma WordsNext(virt0: nat, size0: nat, n: nat, virt: nat, size: nat, m: nat)
    requires Words(virt0, size0, n, virt, size) && m <= size
    ensures Words(virt0, size0, n + m, Plus(virt, m), size - m)
  {}

  lemma SetEntryIs(s: Space, t: Space, f: nat, i: nat, pte: Pte)
    requires f in s.mem && i < |s.mem[f]| && t == s.(mem := s.mem[f := s.mem[f][i := pte]])
    ensures t == SetEntry(s, f, i, pte)
  {}

  lemma AddTableIs(s: Space, t: Space, f: nat, i: nat, flags: nat, child: nat)
    requires f in s.info && f in s.mem && i < |s.mem[f]| && s.info[f].lvl >= 1 && child !in s.mem
    requires t == Space(s.mem[child := seq(512, _ => ABSENT)][f := s.mem[f][i := Pte(true, false, flags, child)]],
                        s.info[child := Child(s.info[f], i)])
    ensures t == AddTable(s, f, i, flags, child)
  {}

  lemma LoopDone(s0: Space, s: Space, root: nat, lo: nat, hi: nat, f: nat, v: nat, size: nat, phys: Goal, n: nat,
                 i: nat)
    requires f in s0.info && Loop(s0, s, root, lo, hi, f, v, size, phys, n, i) && n == size
    ensures MapState(s0, s, root, lo, hi, f, v, size, phys)
  {}
}
