/** The loop of __pt_unmap on the tables alone, what it does over whole entries, and how its
    counters run over any range. */
module UnmapRange {
  import opened Bits
  import opened Paging
  import opened MapLoop
  import opened UserTree
  import opened UserSweep

  // ---- the loop, on the tables alone ----

  function Cleared(mem: Tables, f: nat, i: nat): Tables {
    if f in mem && i < |mem[f]| then mem[f := mem[f][i := ABSENT]] else mem
  }

  /** The loop of __pt_unmap over table `f` from entry `i` on; absent entries and leaves do not
      advance `v` and `n`. */
  function UnmapLoop(mem: Tables, f: nat, i: nat, to: nat, v: nat, n: nat, lvl: nat): Tables
    decreases lvl, to - i
  {
    if i >= to || lvl == 0 || n == 0 || f !in mem || i >= |mem[f]| then mem
    else
      var pte := mem[f][i];
      if !pte.present then UnmapLoop(mem, f, i + 1, to, v, n, lvl)
      else if lvl == 1 || pte.large then UnmapLoop(Cleared(mem, f, i), f, i + 1, to, v, n, lvl)
      else
        var c := Chunk(v, n, lvl);
        var below := if c == 0 then mem
                     else UnmapLoop(mem, pte.phys, PtIndex(v, lvl - 1), PtIndex(Last(v, c), lvl - 1) + 1, v, c,
                                    lvl - 1);
        var after := if c == Size(lvl) then Cleared(below, f, i) - {pte.phys} else below;
        UnmapLoop(after, f, i + 1, to, Plus(v, c), n - c, lvl)
  }

  /** __pt_unmap. */
  function UnmapFrom(mem: Tables, f: nat, v: nat, n: nat, lvl: nat): Tables {
    if n == 0 then mem else UnmapLoop(mem, f, PtIndex(v, lvl), PtIndex(Last(v, n), lvl) + 1, v, n, lvl)
  }

  // ---- ranges ----

  /** The range lies in one table of level `lvl`. */
  predicate InOne(v: nat, n: nat, lvl: nat) {
    1 <= lvl <= 4 && n > 0 && v % Size(lvl + 1) + n <= Size(lvl + 1) && v + n <= HALF
  }

  /** It ends on entry borders on both sides. */
  predicate Even(v: nat, n: nat, lvl: nat) {
    InOne(v, n, lvl) && v % Size(lvl) == 0 && n % Size(lvl) == 0
  }

  // ---- one step ----

  /** The table lies beside the range. */
  predicate Aside(d: Info, v: nat, n: nat) {
    d.base + Size(d.lvl + 1) <= v || v + n <= d.base
  }

  /** Tables beside the range stay as they are. */
  ghost predicate Spared(s: Space, t: Space, v: nat, n: nat) {
    forall g :: g in s.info && Aside(s.info[g], v, n) ==>
                  g in t.info && g in t.mem && g in s.mem && t.mem[g] == s.mem[g]
  }

  /** From `s` to `t` only tables under `f` went away or lost entries, none of them beside the
      range, and of the addresses of `f` exactly those in [v, v + n) are no longer translated. */
  ghost predicate Shrunk(s: Space, t: Space, root: nat, f: nat, v: nat, n: nat)
    requires f in s.info
  {
    && Tree(t, root, LO, HI) && Hung(t, root, LO, HI)
    && (forall g :: g in t.info ==> g in s.info && t.info[g] == s.info[g])
    && (forall g :: g in s.info && (g == f || !Under(s, f, g)) ==> g in t.info)
    && (forall g :: g in s.mem && !Under(s, f, g) ==> g in t.mem && t.mem[g] == s.mem[g])
    && Spared(s, t, v, n)
    && (forall a: nat :: Covers(s.info[f], a) && (s.info[f].lvl == 4 ==> RootEntry(a, LO, HI)) ==>
                           Walk(t.mem, f, s.info[f].lvl, a) == if v <= a < v + n then None
                           else Walk(s.mem, f, s.info[f].lvl, a))
  }

  lemma ShrunkTrans(s: Space, t: Space, u: Space, root: nat, f: nat, v: nat, m: nat, n: nat)
    requires f in s.info && f in t.info && Shrunk(s, t, root, f, v, m) && Shrunk(t, u, root, f, v + m, n)
    ensures Shrunk(s, u, root, f, v, m + n)
  {
    hide PtIndex, Size, EntryBase, Placed, Covers, Walk, Tree, Hung, RootEntry, Spared;
    SparedTrans(s, t, u, v, m, n);
    assert t.info[f] == s.info[f];
  }

  lemma SparedTrans(s: Space, t: Space, u: Space, v: nat, m: nat, n: nat)
    requires Spared(s, t, v, m) && Spared(t, u, v + m, n)
    requires forall g :: g in t.info ==> g in s.info && t.info[g] == s.info[g]
    ensures Spared(s, u, v, m + n)
  {
    hide Size;
  }

  lemma SparedTwice(s: Space, t: Space, u: Space, v: nat, n: nat)
    requires Spared(s, t, v, n) && Spared(t, u, v, n)
    requires forall g :: g in t.info ==> g in s.info && t.info[g] == s.info[g]
    ensures Spared(s, u, v, n)
  {
    hide Aside;
  }

  lemma ShrunkNone(s: Space, root: nat, f: nat, v: nat, n: nat)
    requires Tree(s, root, LO, HI) && Hung(s, root, LO, HI) && f in s.info
    requires forall a: nat :: Covers(s.info[f], a) && v <= a < v + n ==> Walk(s.mem, f, s.info[f].lvl, a) == None
    ensures Shrunk(s, s, root, f, v, n)
  {
    SparedSame(s, root, v, n);
    hide PtIndex, Size, EntryBase, Placed, Covers, Walk, Tree, Hung, RootEntry, Spared;
  }

  lemma SparedSame(s: Space, root: nat, v: nat, n: nat)
    requires Tree(s, root, LO, HI)
    ensures Spared(s, s, v, n)
  {
    hide EntriesOk, Placed, Aside;
  }

  /** Changes in table `f` and below its entry `i` spare what lies beside that entry. */
  lemma SparedEntry(s: Space, t: Space, root: nat, f: nat, i: nat, child: nat)
    requires Tree(s, root, LO, HI) && f in s.info && i < 512
    requires child != f ==> child in s.info && s.info[f].lvl > 1 && s.info[child] == Child(s.info[f], i)
    requires forall g :: g in s.info && g != f && g != child ==>
                           g in t.info && g in t.mem && (g in s.mem ==> t.mem[g] == s.mem[g])
    ensures Spared(s, t, EntryBase(s.info[f].base, s.info[f].lvl, i), Size(s.info[f].lvl))
  {
    var d := s.info[f];
    RowPlaced(s, root, f);
    EntryInside(d, i);
    SparedSame(s, root, 0, 0);
    assert EntryBase(d.base, d.lvl, i) >= d.base;
    if child != f { ChildLevel(d, i); }
    hide Size, EntryBase, Placed, Child, Tree;
    forall g | g in s.info && Aside(s.info[g], EntryBase(d.base, d.lvl, i), Size(d.lvl))
      ensures g in t.info && g in t.mem && g in s.mem && t.mem[g] == s.mem[g]
    {
      TreeRow(s, root, g);
    }
  }

  lemma EntryInside(d: Info, i: nat)
    requires Placed(d) && i < 512
    ensures EntryBase(d.base, d.lvl, i) + Size(d.lvl) <= d.base + Size(d.lvl + 1)
  {
    SizeUp(d.lvl);
    hide Size;
    if i < 511 { EntryOrder(Size(d.lvl), i, 511); }
  }

  /** An absent entry translates nothing. */
  lemma AbsentWalk(s: Space, root: nat, f: nat, i: nat, a: nat)
    requires Tree(s, root, LO, HI) && f in s.info && i < 512 && !Entry(s, f, i).present
    requires EntryBase(s.info[f].base, s.info[f].lvl, i) <= a < EntryBase(s.info[f].base, s.info[f].lvl, i)
             + Size(s.info[f].lvl)
    ensures Walk(s.mem, f, s.info[f].lvl, a) == None
  {
    hide Size, PtIndex, EntryBase, Placed;
    assert Placed(s.info[f]);
    PlacedLevel(s.info[f]);
    InEntry(s.info[f], a, i);
  }

  lemma ShrunkAbsent(s: Space, root: nat, f: nat, i: nat)
    requires Tree(s, root, LO, HI) && Hung(s, root, LO, HI) && f in s.info && i < 512 && !Entry(s, f, i).present
    ensures Shrunk(s, s, root, f, EntryBase(s.info[f].base, s.info[f].lvl, i), Size(s.info[f].lvl))
  {
    hide Size, EntryBase, Walk, Covers, Tree, Hung;
    var b, e := EntryBase(s.info[f].base, s.info[f].lvl, i), Size(s.info[f].lvl);
    forall a: nat | Covers(s.info[f], a) && b <= a < b + e ensures Walk(s.mem, f, s.info[f].lvl, a) == None {
      AbsentWalk(s, root, f, i, a);
    }
    ShrunkNone(s, root, f, b, e);
  }

  lemma ChangedShrunk(s: Space, t: Space, root: nat, f: nat, v: nat, n: nat)
    requires f in s.info && t.info == s.info && Changed(s, t, root, LO, HI, f, v, n) && Hung(t, root, LO, HI)
    requires forall a: nat :: Covers(s.info[f], a) && v <= a < v + n ==> Walk(t.mem, f, s.info[f].lvl, a) == None
    requires Spared(s, t, v, n)
    ensures Shrunk(s, t, root, f, v, n)
  {
    hide PtIndex, Size, EntryBase, Placed, Covers, Walk, Tree, Hung, RootEntry, Under, Spared;
  }

  lemma ShrunkLeaf(s: Space, root: nat, f: nat, i: nat)
    requires Tree(s, root, LO, HI) && Hung(s, root, LO, HI) && HasLeaf(s, f, i, LO, HI) && f in s.mem && i < |s.mem[f]|
    ensures f in s.info
    ensures Shrunk(s, SetEntry(s, f, i, ABSENT), root, f, EntryBase(s.info[f].base, s.info[f].lvl, i),
                   Size(s.info[f].lvl))
  {
    LeafNoLink(s, f, i, LO, HI);
    hide *;
    var t, n := SetEntry(s, f, i, ABSENT), s.info[f];
    ClearTree(s, root, LO, HI, f, i);
    ClearOk(s, LO, HI, f, i);
    AbsentFacts(n.lvl);
    LeafStep(s, root, LO, HI, f, i, ABSENT);
    SetInfo(s, f, i, ABSENT);
    SetAbsent(s, f, i);
    var b, e := EntryBase(n.base, n.lvl, i), Size(n.lvl);
    forall a: nat | Covers(n, a) && b <= a < b + e ensures Walk(t.mem, f, n.lvl, a) == None {
      AbsentWalk(t, root, f, i, a);
    }
    SetElsewhere(s, f, i);
    TablesIn(s, root);
    LeafIndex(s, f, i);
    SparedEntry(s, t, root, f, i, f);
    ChangedShrunk(s, t, root, f, b, e);
  }

  lemma LeafIndex(s: Space, f: nat, i: nat)
    requires HasLeaf(s, f, i, LO, HI)
    ensures f in s.info && i < 512
  {}

  lemma SetElsewhere(s: Space, f: nat, i: nat)
    requires f in s.mem && i < |s.mem[f]|
    ensures var t := SetEntry(s, f, i, ABSENT);
            forall g :: (g in t.mem <==> g in s.mem) && (g in s.mem && g != f ==> t.mem[g] == s.mem[g])
  {}

  lemma AbsentFacts(lvl: nat)
    ensures !Link(ABSENT, lvl) && !Leaf(ABSENT, lvl) && !ABSENT.present
  {}

  lemma SetAbsent(s: Space, f: nat, i: nat)
    requires f in s.mem && i < |s.mem[f]|
    ensures !Entry(SetEntry(s, f, i, ABSENT), f, i).present
    ensures forall g, j :: !(g == f && j == i) ==> Entry(SetEntry(s, f, i, ABSENT), g, j) == Entry(s, g, j)
  {}

  lemma ShrunkTwice(s: Space, t: Space, u: Space, root: nat, f: nat, v: nat, n: nat)
    requires f in s.info && f in t.info && Shrunk(s, t, root, f, v, n) && Shrunk(t, u, root, f, v, n)
    ensures Shrunk(s, u, root, f, v, n)
  {
    hide PtIndex, Size, EntryBase, Placed, Covers, Walk, Tree, Hung, RootEntry, Spared;
    SparedTwice(s, t, u, v, n);
    assert t.info[f] == s.info[f];
  }

  /** Unhanging an emptied table. */
  lemma ShrunkDrop(s: Space, root: nat, f: nat, i: nat, child: nat)
    requires Tree(s, root, LO, HI) && Hung(s, root, LO, HI) && Parent(s, f, i, child, LO, HI)
    requires child in s.info && Emptied(s, child, LO, HI) && child != f && child != root && f in s.mem && i < |s.mem[f]|
    ensures f in s.info
    ensures Shrunk(s, DropTable(s, f, i, child), root, f, EntryBase(s.info[f].base, s.info[f].lvl, i),
                   Size(s.info[f].lvl))
  {
    DropFacts(s, root, f, i, child);
    hide *;
    var u, n := DropTable(s, f, i, child), s.info[f];
    DropTree(s, root, LO, HI, f, i, child);
    var b, e := EntryBase(n.base, n.lvl, i), Size(n.lvl);
    forall a: nat | Covers(n, a) && (n.lvl == 4 ==> RootEntry(a, LO, HI))
      ensures Walk(u.mem, f, n.lvl, a) == if b <= a < b + e then None else Walk(s.mem, f, n.lvl, a)
    {
      if b <= a < b + e { AbsentWalk(u, root, f, i, a); } else { DropWalk(s, root, f, i, child, a); }
    }
    DropSpared(s, u, root, f, i, child);
    DropParts(s, u, root, f, child, b, e);
  }

  lemma DropSpared(s: Space, u: Space, root: nat, f: nat, i: nat, child: nat)
    requires Tree(s, root, LO, HI) && f in s.info && i < 512 && child != f
    requires child in s.info && s.info[f].lvl > 1 && s.info[child] == Child(s.info[f], i)
    requires u.info.Keys == s.info.Keys - {child} && u.mem.Keys == s.mem.Keys - {child}
    requires forall g :: g in u.mem && g != f ==> u.mem[g] == s.mem[g]
    ensures Spared(s, u, EntryBase(s.info[f].base, s.info[f].lvl, i), Size(s.info[f].lvl))
  {
    hide *;
    TablesIn(s, root);
    SparedEntry(s, u, root, f, i, child);
  }

  lemma DropParts(s: Space, u: Space, root: nat, f: nat, child: nat, b: nat, e: nat)
    requires f in s.info && child in s.info && Under(s, f, child) && Under(s, f, f) && Tree(u, root, LO, HI)
    requires Hung(u, root, LO, HI)
    requires u.info.Keys == s.info.Keys - {child} && u.mem.Keys == s.mem.Keys - {child} && f in u.info
    requires forall g :: g in u.info ==> u.info[g] == s.info[g]
    requires forall g :: g in u.mem && g != f ==> u.mem[g] == s.mem[g]
    requires forall a: nat :: Covers(s.info[f], a) && (s.info[f].lvl == 4 ==> RootEntry(a, LO, HI)) ==>
                                Walk(u.mem, f, s.info[f].lvl, a) == if b <= a < b + e then None
                                else Walk(s.mem, f, s.info[f].lvl, a)
    requires Spared(s, u, b, e)
    ensures Shrunk(s, u, root, f, b, e)
  {
    hide Walk, Covers, RootEntry, Tree, Hung, Under, Spared;
  }

  lemma DropFacts(s: Space, root: nat, f: nat, i: nat, child: nat)
    requires Tree(s, root, LO, HI) && Parent(s, f, i, child, LO, HI) && child in s.info && child != f && f in s.mem
    requires i < |s.mem[f]|
    ensures f in s.info && i < 512 && s.info[f].lvl > 1 && s.info[child] == Child(s.info[f], i) && Under(s, f, child)
    ensures Under(s, f, f)
    ensures var u := DropTable(s, f, i, child);
            && f in u.info && !Entry(u, f, i).present && u.info.Keys == s.info.Keys - {child}
            && u.mem.Keys == s.mem.Keys - {child}
            && (forall g :: g in u.info ==> u.info[g] == s.info[g])
            && (forall g :: g in u.mem && g != f ==> u.mem[g] == s.mem[g])
  {
    hide Size, Child, EntryBase, Placed;
    assert EntryOk(s, f, i) && Placed(s.info[f]);
    ChildUnder(s, f, i, child);
    SelfUnder(s, f);
  }

  /** Beside the entry that is cleared the walk is the same, and it never reaches the child. */
  lemma DropWalk(s: Space, root: nat, f: nat, i: nat, child: nat, a: nat)
    requires Tree(s, root, LO, HI) && Parent(s, f, i, child, LO, HI) && child in s.info && child != f && f in s.mem
    requires i < |s.mem[f]|
    requires f in s.info && Covers(s.info[f], a) && (s.info[f].lvl == 4 ==> RootEntry(a, LO, HI))
    requires !(EntryBase(s.info[f].base, s.info[f].lvl, i) <= a < EntryBase(s.info[f].base, s.info[f].lvl, i)
               + Size(s.info[f].lvl))
    ensures Walk(DropTable(s, f, i, child).mem, f, s.info[f].lvl, a) == Walk(s.mem, f, s.info[f].lvl, a)
  {
    DropFacts(s, root, f, i, child);
    var t, n := SetEntry(s, f, i, ABSENT), s.info[f];
    assert DropTable(s, f, i, child).mem == t.mem - {child};
    assert Mine(s, f, i, LO, HI) && Placed(n);
    hide Size, EntryBase, Walk, Covers, Tree, EntryOk, Mine, Link, Leaf, DropTable, Child, Parent, Placed, PtIndex;
    hide Under;
    ClearOk(s, LO, HI, f, i);
    AbsentFacts(n.lvl);
    LeafStep(s, root, LO, HI, f, i, ABSENT);
    SetInfo(s, f, i, ABSENT);
    HasEntry(n, a);
    ChildCovers(n, i, a);
    WalkLocal(t, t.mem - {child}, root, LO, HI, f, a) by {
      TablesIn(t, root);
    }
  }

  lemma TablesIn(s: Space, root: nat)
    requires Tree(s, root, LO, HI)
    ensures forall g :: g in s.info ==> g in s.mem
  {}

  /** What a child lost, its parent lost. */
  lemma ShrunkChild(s: Space, t: Space, root: nat, f: nat, i: nat, child: nat, v: nat, n: nat)
    requires Tree(s, root, LO, HI) && Mine(s, f, i, LO, HI) && s.info[f].lvl > 1
    requires Link(Entry(s, f, i), s.info[f].lvl) && Entry(s, f, i).phys == child
    requires child in s.info && Shrunk(s, t, root, child, v, n)
    requires EntryBase(s.info[f].base, s.info[f].lvl, i) <= v
    requires v + n <= EntryBase(s.info[f].base, s.info[f].lvl, i) + Size(s.info[f].lvl)
    ensures Shrunk(s, t, root, f, v, n)
    ensures Entry(t, f, i) == Entry(s, f, i) && f in t.info && child in t.info && f in s.mem && f in t.mem
    ensures t.mem[f] == s.mem[f]
  {
    hide PtIndex, Size, EntryBase, Placed, Covers, Child, Walk, Under, Hung;
    var m := s.info[f];
    assert Placed(m) && Mine(s, f, i, LO, HI) && EntryOk(s, f, i);
    assert s.info[child] == Child(m, i);
    PlacedLevel(m);
    ChildLevel(m, i);
    ChildUnder(s, f, i, child);
    NotUnder(s, child, f);
    assert t.mem[f] == s.mem[f];
    forall a: nat | Covers(m, a) && (m.lvl == 4 ==> RootEntry(a, LO, HI))
      ensures Walk(t.mem, f, m.lvl, a) == if v <= a < v + n then None else Walk(s.mem, f, m.lvl, a)
    {
      ChildCovers(m, i, a);
      if PtIndex(a, m.lvl) == i {
        WalkThrough(s.mem, f, m.lvl, a);
        WalkThrough(t.mem, f, m.lvl, a);
      } else {
        WalkAside(s, t, root, LO, HI, f, i, child, a);
        if v <= a < v + n { InEntry(m, a, i); }
      }
    }
  }

  // ---- the loop over whole entries ----

  /** One entry: absent, a leaf, or a table that is swept and dropped. */
  ghost predicate EntryGone(s: Space, t: Space, root: nat, f: nat, i: nat)
    requires f in s.info
  {
    && Shrunk(s, t, root, f, EntryBase(s.info[f].base, s.info[f].lvl, i), Size(s.info[f].lvl))
    && f in t.info && EmptiedFrom(s, t, f, i, i + 1)
  }

  lemma AbsentGone(s: Space, root: nat, f: nat, i: nat)
    requires Tree(s, root, LO, HI) && Hung(s, root, LO, HI) && f in s.info && i < 512 && !Entry(s, f, i).present
    ensures EntryGone(s, s, root, f, i)
  {
    hide Shrunk, Tree, Hung;
    ShrunkAbsent(s, root, f, i);
  }

  lemma LeafGone(s: Space, root: nat, f: nat, i: nat)
    requires Tree(s, root, LO, HI) && Hung(s, root, LO, HI) && HasLeaf(s, f, i, LO, HI) && f in s.mem && i < |s.mem[f]|
    ensures f in s.info && EntryGone(s, SetEntry(s, f, i, ABSENT), root, f, i)
  {
    hide Shrunk, Tree, Hung, HasLeaf, Entry, SetEntry;
    ShrunkLeaf(s, root, f, i);
    SetAbsent(s, f, i);
    SetInfo(s, f, i, ABSENT);
  }

  lemma TableGone(s: Space, t: Space, root: nat, f: nat, i: nat, child: nat)
    requires Tree(s, root, LO, HI) && Parent(s, f, i, child, LO, HI) && child in s.info && s.info[f].lvl > 1
    requires s.info[child] == Child(s.info[f], i)
    requires Shrunk(s, t, root, child, s.info[child].base, Size(s.info[f].lvl)) && EmptiedFrom(s, t, child, 0, 512)
    ensures f in t.mem && i < |t.mem[f]| && EntryGone(s, DropTable(t, f, i, child), root, f, i)
  {
    hide Size, EntryBase, Tree, Hung, EntryOk, Mine, Link, Leaf, DropTable, Under, Child, Parent, Emptied;
    hide EmptiedFrom, Entry;
    TableKept(s, root, f, i, child);
    assert f in t.mem && t.mem[f] == s.mem[f];
    hide Shrunk;
    ShrunkChild(s, t, root, f, i, child, s.info[child].base, Size(s.info[f].lvl));
    ShrunkFacts(s, t, root, child);
    ShrunkFacts(s, t, root, f);
    TableStill(s, t, root, f, i, child);
    ShrunkDrop(t, root, f, i, child);
    var u := DropTable(t, f, i, child);
    ShrunkTwice(s, t, u, root, f, EntryBase(s.info[f].base, s.info[f].lvl, i), Size(s.info[f].lvl));
    DropFacts(t, root, f, i, child);
    DropEntries(t, f, i, child);
    AbsentFacts(0);
    GoneEntries(s, t, u, f, i);
  }

  lemma GoneEntries(s: Space, t: Space, u: Space, f: nat, i: nat)
    requires forall j: nat :: Entry(t, f, j) == Entry(s, f, j)
    requires forall j: nat :: Entry(u, f, j) == if j == i then ABSENT else Entry(t, f, j)
    ensures EmptiedFrom(s, u, f, i, i + 1)
  {
    hide Entry;
  }

  lemma ShrunkFacts(s: Space, t: Space, root: nat, f: nat)
    requires f in s.info && exists v, n :: Shrunk(s, t, root, f, v, n)
    ensures f in t.info && Tree(t, root, LO, HI) && Hung(t, root, LO, HI)
    ensures forall g :: g in t.info ==> g in s.info && t.info[g] == s.info[g]
  {
    hide Tree, Hung, Walk, Under, Covers;
  }

  lemma TableKept(s: Space, root: nat, f: nat, i: nat, child: nat)
    requires Tree(s, root, LO, HI) && Parent(s, f, i, child, LO, HI) && child in s.info && s.info[f].lvl > 1
    requires s.info[child] == Child(s.info[f], i)
    ensures f in s.info && Mine(s, f, i, LO, HI) && Link(Entry(s, f, i), s.info[f].lvl) && Entry(s, f, i).phys == child
    ensures s.info[child].base == EntryBase(s.info[f].base, s.info[f].lvl, i) && s.info[child].lvl == s.info[f].lvl - 1
    ensures child != f && child != root && f in s.mem && |s.mem[f]| == 512 && i < 512 && !Under(s, child, f)
  {
    hide Size, EntryBase, Placed;
    NotUnder(s, child, f);
    PlacedLevel(s.info[f]);
  }

  lemma TableStill(s: Space, t: Space, root: nat, f: nat, i: nat, child: nat)
    requires Tree(s, root, LO, HI) && Parent(s, f, i, child, LO, HI) && child in s.info && s.info[f].lvl > 1
    requires s.info[child] == Child(s.info[f], i)
    requires f in t.info && child in t.info && t.info[f] == s.info[f]
    requires f in t.mem && t.mem[f] == s.mem[f] && EmptiedFrom(s, t, child, 0, 512)
    ensures Parent(t, f, i, child, LO, HI) && Emptied(t, child, LO, HI)
    ensures forall j: nat :: Entry(t, f, j) == Entry(s, f, j)
  {
    hide Size, EntryBase, Placed;
  }

  lemma DropEntries(t: Space, f: nat, i: nat, child: nat)
    requires f in t.mem && i < |t.mem[f]| && child != f
    ensures forall j: nat :: Entry(DropTable(t, f, i, child), f, j) == if j == i then ABSENT else Entry(t, f, j)
  {}

  lemma UnmappedEntry(mem: Tables, f: nat, i: nat, to: nat, v: nat, n: nat, lvl: nat)
    requires i < to && lvl > 0 && n > 0 && f in mem && i < |mem[f]|
    ensures !mem[f][i].present ==> UnmapLoop(mem, f, i, to, v, n, lvl) == UnmapLoop(mem, f, i + 1, to, v, n, lvl)
    ensures Leaf(mem[f][i], lvl) ==>
              UnmapLoop(mem, f, i, to, v, n, lvl) == UnmapLoop(Cleared(mem, f, i), f, i + 1, to, v, n, lvl)
  {}

  lemma UnmappedTable(mem: Tables, f: nat, i: nat, to: nat, v: nat, n: nat, lvl: nat, c: nat, below: Tables)
    requires i < to && lvl > 0 && n > 0 && f in mem && i < |mem[f]| && Link(mem[f][i], lvl)
    requires 0 < c == Chunk(v, n, lvl) && below == UnmapFrom(mem, mem[f][i].phys, v, c, lvl - 1)
    ensures UnmapLoop(mem, f, i, to, v, n, lvl)
         == UnmapLoop(if c == Size(lvl) then Cleared(below, f, i) - {mem[f][i].phys}
                      else below, f, i + 1, to, Plus(v, c), n - c, lvl)
  {
    hide Chunk, Size, PtIndex, Last, Plus;
  }

  /** A chunk that starts on an entry border is the whole entry, and the child is swept from end to end. */
  lemma WholeChunk(v: nat, n: nat, lvl: nat)
    requires 1 <= lvl <= 4 && v % Size(lvl) == 0 && Size(lvl) <= n && v + n <= HALF
    ensures Chunk(v, n, lvl) == Size(lvl) && Plus(v, Size(lvl)) == v + Size(lvl)
    ensures lvl > 1 ==> PtIndex(v, lvl - 1) == 0 && PtIndex(Last(v, Size(lvl)), lvl - 1) + 1 == 512
    ensures lvl > 1 ==> v % Size(lvl - 1) == 0 && Size(lvl) == 512 * Size(lvl - 1) && (v + Size(lvl)) % Size(lvl) == 0
  {
    hide *;
    HalfSize();
    ChunkIs(v, n, lvl);
    WholeMin(v, n, lvl);
    if lvl > 1 {
      SizeUp(lvl - 1);
      LastIs(v, Size(lvl));
      WholeChild(v, Size(lvl - 1), lvl);
    }
  }

  lemma WholeMin(v: nat, n: nat, lvl: nat)
    requires v % Size(lvl) == 0 && Size(lvl) <= n && v + n <= HALF
    ensures Min(n, Size(lvl) - v % Size(lvl)) == Size(lvl) && Plus(v, Size(lvl)) == v + Size(lvl)
    ensures (v + Size(lvl)) % Size(lvl) == 0
  {
    hide Size;
    Multiple(Size(lvl), 1);
    MultipleSum(Size(lvl), v, Size(lvl));
  }

  lemma WholeChild(v: nat, e: nat, lvl: nat)
    requires lvl > 1 && e == Size(lvl - 1) && e > 0 && Size(lvl) == 512 * e && v % Size(lvl) == 0
    ensures PtIndex(v, lvl - 1) == 0 && PtIndex(v + 512 * e - 1, lvl - 1) == 511 && v % e == 0
  {
    hide Size;
    var q := v / Size(lvl);
    assert v == (512 * e) * q;
    IndexParts(e, q, 0, 0, v);
    IndexParts(e, q, 511, e - 1, v + 512 * e - 1);
  }

  lemma TreeRow(s: Space, root: nat, f: nat)
    requires Tree(s, root, LO, HI) && f in s.info
    ensures f in s.mem && |s.mem[f]| == 512 && 1 <= s.info[f].lvl <= 4 && (s.info[f].lvl == 4 <==> f == root)
  {
    hide EntriesOk;
    PlacedLevel(s.info[f]);
  }

  lemma EntryCases(s: Space, root: nat, f: nat, i: nat)
    requires Tree(s, root, LO, HI) && Mine(s, f, i, LO, HI) && f in s.mem && i < |s.mem[f]|
    ensures f in s.info && Entry(s, f, i) == s.mem[f][i]
    ensures Leaf(s.mem[f][i], s.info[f].lvl) ==> HasLeaf(s, f, i, LO, HI)
    ensures s.mem[f][i].present && !Leaf(s.mem[f][i], s.info[f].lvl) ==>
              var child := s.mem[f][i].phys;
              Link(s.mem[f][i], s.info[f].lvl) && Parent(s, f, i, child, LO, HI) && child in s.info && s.info[f].lvl > 1
              && s.info[child] == Child(s.info[f], i)
  {
    hide Size, EntryBase, Placed, Child;
    assert EntryOk(s, f, i);
  }

  /** `k` entries. */
  function Span(k: nat, lvl: nat): nat {
    k * Size(lvl)
  }

  /** The counters stand on an entry border, with bytes for `k` entries left. */
  predicate Counters(v: nat, n: nat, k: nat, lvl: nat) {
    v % Size(lvl) == 0 && Span(k, lvl) <= n && v + n <= HALF
  }

  lemma NothingExact(s: Space, root: nat, f: nat, b: nat, i: nat, v: nat, n: nat, lvl: nat)
    requires Tree(s, root, LO, HI) && Hung(s, root, LO, HI) && f in s.info
    ensures Shrunk(s, s, root, f, b, Span(0, lvl)) && EmptiedFrom(s, s, f, i, i)
    ensures s.mem == UnmapLoop(s.mem, f, i, i, v, n, lvl)
  {
    hide Tree, Hung, Entry, Shrunk;
    ShrunkNone(s, root, f, b, 0);
  }

  lemma MineFrom(s: Space, f: nat, i: nat, to: nat)
    requires f in s.info && i < to <= 512 && (s.info[f].lvl == 4 ==> to <= HI)
    ensures Mine(s, f, i, LO, HI)
  {}

  lemma CountersNext(v: nat, n: nat, k: nat, lvl: nat)
    requires 1 <= lvl <= 4 && k > 0 && Counters(v, n, k, lvl)
    ensures Size(lvl) <= n && v % Size(lvl) == 0 && v + n <= HALF
    ensures Counters(v, n, k - 1, lvl) && Counters(v + Size(lvl), n - Size(lvl), k - 1, lvl)
    ensures Size(lvl) + Span(k - 1, lvl) == Span(k, lvl)
  {
    hide Size;
    var e := Size(lvl);
    assert (k - 1) * e == k * e - e;
    MulNonNeg(k - 1, e);
    Multiple(e, 1);
    MultipleSum(e, v, e);
  }

  lemma SetCleared(s: Space, f: nat, i: nat)
    requires f in s.mem && i < |s.mem[f]|
    ensures SetEntry(s, f, i, ABSENT).mem == Cleared(s.mem, f, i)
  {}

  lemma RowPlaced(s: Space, root: nat, f: nat)
    requires Tree(s, root, LO, HI) && f in s.info
    ensures Placed(s.info[f])
  {
    hide EntriesOk;
  }

  lemma UnmapFromIs(mem: Tables, f: nat, v: nat, n: nat, lvl: nat)
    requires n > 0
    ensures UnmapFrom(mem, f, v, n, lvl) == UnmapLoop(mem, f, PtIndex(v, lvl), PtIndex(Last(v, n), lvl) + 1, v, n, lvl)
  {}

  lemma ChildCounters(v: nat, n: nat, lvl: nat)
    requires 1 < lvl <= 4 && v % Size(lvl) == 0 && Size(lvl) <= n && v + n <= HALF
    ensures Counters(v, Size(lvl), 512, lvl - 1) && Span(512, lvl - 1) == Size(lvl)
  {
    SizeUp(lvl - 1);
    hide Size;
    MultipleFactor(v, Size(lvl - 1), 512);
  }

  lemma ChildRange(s: Space, f: nat, i: nat, child: nat)
    requires f in s.info && child in s.info && s.info[f].lvl > 1 && s.info[child].lvl == s.info[f].lvl - 1
    ensures EntryBase(s.info[child].base, s.info[child].lvl, 0) == s.info[child].base
  {}

  lemma DropCleared(t: Space, f: nat, i: nat, child: nat)
    requires f in t.mem && i < |t.mem[f]|
    ensures DropTable(t, f, i, child).mem == Cleared(t.mem, f, i) - {child}
  {}

  lemma GoneFacts(s: Space, u: Space, root: nat, f: nat, i: nat)
    requires f in s.info && EntryGone(s, u, root, f, i)
    ensures Shrunk(s, u, root, f, EntryBase(s.info[f].base, s.info[f].lvl, i), Size(s.info[f].lvl))
    ensures EmptiedFrom(s, u, f, i, i + 1)
    ensures f in u.info && u.info[f] == s.info[f] && Tree(u, root, LO, HI) && Hung(u, root, LO, HI)
  {
    hide Tree, Hung, Walk, Under, Covers, EmptiedFrom, Size, EntryBase;
  }

  lemma NextEntry(base: nat, lvl: nat, i: nat)
    ensures EntryBase(base, lvl, i + 1) == EntryBase(base, lvl, i) + Size(lvl)
  {
    EntryNext(Info(lvl, base), i);
  }

  /** An entry that holds no table: the counters stay. */
  lemma PlainEntry(s: Space, root: nat, f: nat, i: nat, to: nat, v: nat, n: nat, lvl: nat) returns (u: Space)
    requires Tree(s, root, LO, HI) && Hung(s, root, LO, HI) && Mine(s, f, i, LO, HI) && f in s.mem && |s.mem[f]| == 512
    requires f in s.info && s.info[f].lvl == lvl >= 1 && i < to && i < 512 && n > 0
    requires !Link(s.mem[f][i], lvl)
    ensures EntryGone(s, u, root, f, i)
    ensures UnmapLoop(s.mem, f, i, to, v, n, lvl) == UnmapLoop(u.mem, f, i + 1, to, v, n, lvl)
  {
    hide *;
    EntryCases(s, root, f, i);
    LinkLeaf(s.mem[f][i], lvl);
    UnmappedEntry(s.mem, f, i, to, v, n, lvl);
    if !s.mem[f][i].present {
      u := s;
      AbsentGone(s, root, f, i);
    } else {
      u := SetEntry(s, f, i, ABSENT);
      LeafGone(s, root, f, i);
      SetCleared(s, f, i);
    }
  }

  /** An entry that holds a table: once swept the table is dropped, and the counters advance. */
  lemma TableEntry(s: Space, below: Space, root: nat, f: nat, i: nat, to: nat, v: nat, n: nat, lvl: nat, child: nat)
    returns (u: Space)
    requires Tree(s, root, LO, HI) && Hung(s, root, LO, HI) && Mine(s, f, i, LO, HI) && f in s.mem && |s.mem[f]| == 512
    requires f in s.info && s.info[f].lvl == lvl > 1 && lvl <= 4 && i < to && i < 512 && Link(s.mem[f][i], lvl)
    requires child == s.mem[f][i].phys
    requires v % Size(lvl) == 0 && Size(lvl) <= n && v + n <= HALF
    requires child in s.info && Shrunk(s, below, root, child, EntryBase(s.info[child].base, lvl - 1, 0), Size(lvl))
    requires EmptiedFrom(s, below, child, 0, 512)
    requires below.mem == UnmapLoop(s.mem, child, 0, 512, v, Size(lvl), lvl - 1)
    ensures EntryGone(s, u, root, f, i)
    ensures UnmapLoop(s.mem, f, i, to, v, n, lvl) == UnmapLoop(u.mem, f, i + 1, to, v + Size(lvl), n - Size(lvl), lvl)
  {
    hide *;
    EntryCases(s, root, f, i);
    LinkLeaf(s.mem[f][i], lvl);
    WholeChunk(v, n, lvl);
    RowPlaced(s, root, f);
    ChildLevel(s.info[f], i);
    UnmapFromIs(s.mem, child, v, Size(lvl), lvl - 1);
    ChildRange(s, f, i, child);
    TableGone(s, below, root, f, i, child);
    UnmappedTable(s.mem, f, i, to, v, n, lvl, Size(lvl), below.mem);
    u := DropTable(below, f, i, child);
    DropCleared(below, f, i, child);
  }

  /** Entries `i` to `to` - 1 are all emptied, however far the counters lag behind, so long as
      they stand on an entry border with enough bytes left. */
  lemma {:induction false} LoopExact(s: Space, root: nat, f: nat, i: nat, to: nat, v: nat, n: nat, lvl: nat)
    returns (t: Space)
    requires Tree(s, root, LO, HI) && Hung(s, root, LO, HI) && f in s.info && s.info[f].lvl == lvl
    requires i <= to <= 512 && (lvl == 4 ==> to <= HI) && Counters(v, n, to - i, lvl)
    ensures Shrunk(s, t, root, f, EntryBase(s.info[f].base, lvl, i), Span(to - i, lvl))
    ensures f in t.info && EmptiedFrom(s, t, f, i, to)
    ensures t.mem == UnmapLoop(s.mem, f, i, to, v, n, lvl)
    decreases lvl, to - i
  {
    hide *;
    TreeRow(s, root, f);
    if i == to {
      t := s;
      NothingExact(s, root, f, EntryBase(s.info[f].base, lvl, i), i, v, n, lvl);
    } else {
      MineFrom(s, f, i, to);
      CountersNext(v, n, to - i, lvl);
      var u, v1, n1 := s, v, n;
      if Link(s.mem[f][i], lvl) {
        var child := s.mem[f][i].phys;
        ChildFacts(s, root, f, i, child);
        ChildCounters(v, n, lvl);
        var below := LoopExact(s, root, child, 0, 512, v, Size(lvl), lvl - 1);
        u := TableEntry(s, below, root, f, i, to, v, n, lvl, child);
        v1, n1 := v + Size(lvl), n - Size(lvl);
      } else {
        u := PlainEntry(s, root, f, i, to, v, n, lvl);
      }
      GoneFacts(s, u, root, f, i);
      NextEntry(s.info[f].base, lvl, i);
      t := LoopExact(u, root, f, i + 1, to, v1, n1, lvl);
      ShrunkTrans(s, u, t, root, f, EntryBase(s.info[f].base, lvl, i), Size(lvl), Span(to - i - 1, lvl));
      EmptiedMore(s, u, t, f, i, i + 1, to);
    }
  }

  lemma ChildFacts(s: Space, root: nat, f: nat, i: nat, child: nat)
    requires Tree(s, root, LO, HI) && Mine(s, f, i, LO, HI) && f in s.mem && |s.mem[f]| == 512 && i < 512
    requires f in s.info && Link(s.mem[f][i], s.info[f].lvl) && child == s.mem[f][i].phys
    ensures child in s.info && s.info[f].lvl > 1 && s.info[child].lvl == s.info[f].lvl - 1
  {
    hide *;
    EntryCases(s, root, f, i);
    LinkLeaf(s.mem[f][i], s.info[f].lvl);
    RowPlaced(s, root, f);
    ChildLevel(s.info[f], i);
  }

  lemma LinkLeaf(pte: Pte, lvl: nat)
    ensures Link(pte, lvl) ==> pte.present && !Leaf(pte, lvl)
    ensures !Link(pte, lvl) && pte.present ==> Leaf(pte, lvl)
  {}

  // ---- places ----

  predicate Within(d: Info, v: nat, n: nat) {
    d.base <= v && v + n <= d.base + Size(d.lvl + 1)
  }

  /** An even range is the entries the loop runs over. */
  lemma EvenBounds(d: Info, v: nat, n: nat)
    requires Placed(d) && Within(d, v, n) && Even(v, n, d.lvl)
    ensures var i, to := PtIndex(v, d.lvl), PtIndex(Last(v, n), d.lvl) + 1;
            i < to <= 512 && (d.lvl == 4 && d.base == 0 ==> to <= HI) && EntryBase(d.base, d.lvl, i) == v
            && (to - i) * Size(d.lvl) == n
  {
    hide *;
    EvenFacts(d, v, n);
    HalfSize();
    var e, i := Size(d.lvl), PtIndex(v, d.lvl);
    var j := PtIndex(v + n - 1, d.lvl);
    LastIs(v, n);
    HasEntry(d, v);
    HasEntry(d, v + n - 1);
    InEntry(d, v, i);
    InEntry(d, v + n - 1, j);
    EntryBaseIs(d, i);
    EntryBaseIs(d, j);
    if j < i { EntryOrder(e, j, i); }
    var k := n / e;
    DivBack(n, e);
    EndsApart(d.base, e, i, j, k, v);
    if d.lvl == 4 && d.base == 0 && j >= HI { EntryOrder(e, HI - 1, j); }
  }

  lemma DivBack(n: nat, e: nat)
    requires e > 0 && n > 0 && n % e == 0
    ensures n == e * (n / e) && n / e > 0
  {}

  lemma EvenFacts(d: Info, v: nat, n: nat)
    requires Placed(d) && Within(d, v, n) && Even(v, n, d.lvl)
    ensures v % Size(d.lvl) == 0 && n % Size(d.lvl) == 0 && n > 0 && v + n <= HALF && Covers(d, v)
    ensures Covers(d, v + n - 1)
  {
    hide Size;
  }

  lemma LastIs(v: nat, n: nat)
    requires n > 0 && v + n <= HALF
    ensures Last(v, n) == v + n - 1
  {}

  lemma EntryBaseIs(d: Info, i: nat)
    ensures EntryBase(d.base, d.lvl, i) == d.base + i * Size(d.lvl)
  {}

  lemma HalfSize()
    ensures HI * Size(4) == HALF && (HI - 1) * Size(4) + Size(4) == HALF && HALF < W
  {}

  lemma EndsApart(base: nat, e: nat, i: nat, j: nat, k: nat, v: nat)
    requires e > 0 && k > 0 && i <= j && v == base + i * e && base + j * e <= v + e * k - 1 < base + j * e + e
    ensures (j + 1 - i) * e == e * k
  {
    var m := j + 1 - i;
    assert m * e == j * e + e - i * e;
    assert e * k == k * e;
    if m < k { EntryOrder(e, m, k); }
    if m > k { EntryOrder(e, k, m); }
  }

  lemma InsideCovers(d: Info, v: nat, n: nat)
    requires Within(d, v, n) && n > 0
    ensures Covers(d, v)
  {}

  lemma LastEntry(mem: Tables, f: nat, i: nat, v: nat, n: nat, lvl: nat)
    ensures UnmapLoop(mem, f, i, i, v, n, lvl) == mem
  {}

  lemma EvenExact(s: Space, root: nat, f: nat, v: nat, n: nat, lvl: nat) returns (t: Space)
    requires Tree(s, root, LO, HI) && Hung(s, root, LO, HI) && f in s.info && s.info[f].lvl == lvl
    requires Within(s.info[f], v, n) && Even(v, n, lvl)
    ensures Shrunk(s, t, root, f, v, n) && t.mem == UnmapFrom(s.mem, f, v, n, lvl)
  {
    hide *;
    TreeRow(s, root, f);
    RowPlaced(s, root, f);
    if lvl == 4 { RootBase(s, root, f); }
    EvenPositive(v, n, lvl);
    UnmapFromIs(s.mem, f, v, n, lvl);
    var i := PtIndex(v, lvl);
    EvenBounds(s.info[f], v, n);
    EvenCounters(v, n, lvl, PtIndex(Last(v, n), lvl) + 1 - i);
    t := LoopExact(s, root, f, i, PtIndex(Last(v, n), lvl) + 1, v, n, lvl);
  }

  lemma EvenPositive(v: nat, n: nat, lvl: nat)
    requires Even(v, n, lvl)
    ensures n > 0 && v + n <= HALF
  {}

  lemma RootIndex(a: nat)
    requires a < HALF
    ensures PtIndex(a, 4) < HI
  {}

  lemma TableRest(v: nat, c: nat, e: nat)
    requires e > 0 && v % e + c < e
    ensures (v + c) % e == v % e + c
  {
    DivUnique(v + c, e, v / e, v % e + c);
  }

  lemma NextIndex(v: nat, n: nat, lvl: nat, c: nat)
    requires 1 <= lvl <= 4 && v % Size(lvl + 1) + n <= Size(lvl + 1) && v + n <= HALF
    requires c == Min(n, Size(lvl) - v % Size(lvl)) && 0 < c < n
    ensures PtIndex(v + c, lvl) == PtIndex(v, lvl) + 1
  {
    hide *;
    var d := TableOf(v, n, lvl);
    WithinParts(d, v, n);
    Advance(d, v, n, c);
  }

  lemma WithinParts(d: Info, v: nat, n: nat)
    requires Within(d, v, n)
    ensures d.base <= v && v + n <= d.base + Size(d.lvl + 1)
  {}

  lemma RootBase(s: Space, root: nat, f: nat)
    requires Tree(s, root, LO, HI) && f in s.info && s.info[f].lvl == 4
    ensures s.info[f].base == 0
  {
    hide EntriesOk, Placed;
  }

  lemma EvenCounters(v: nat, n: nat, lvl: nat, k: nat)
    requires Even(v, n, lvl) && k * Size(lvl) == n
    ensures Counters(v, n, k, lvl) && Span(k, lvl) == n
  {}

  lemma ChildWithin(d: Info, i: nat, v: nat, n: nat)
    requires Placed(d) && EntryBase(d.base, d.lvl, i) <= v && v + n <= EntryBase(d.base, d.lvl, i) + Size(d.lvl)
    ensures Within(Child(d, i), v, n) && Child(d, i).lvl == d.lvl - 1
  {}

  lemma EntryIs(d: Info, v: nat)
    requires Placed(d) && Covers(d, v)
    ensures v % Size(d.lvl) == v - EntryBase(d.base, d.lvl, PtIndex(v, d.lvl))
  {
    hide Size, PtIndex;
    HasEntry(d, v);
    InEntry(d, v, PtIndex(v, d.lvl));
  }

  /** The place of the table that the range lies in. */
  lemma TableOf(v: nat, n: nat, lvl: nat) returns (d: Info)
    requires 1 <= lvl <= 4 && n > 0 && v % Size(lvl + 1) + n <= Size(lvl + 1) && v + n <= HALF
    ensures d.lvl == lvl && Placed(d) && Within(d, v, n) && Covers(d, v) && d.base == v - v % Size(lvl + 1)
  {
    var e, q := Size(lvl + 1), v / Size(lvl + 1);
    d := Info(lvl, v - v % e);
    SizeDivides(lvl + 1, 5, TOP) by { SizeTop(); }
    TopSize();
    hide Size;
    assert v - v % e == e * q;
    Multiple(e, q);
    MultiplesApart(e, e * q, TOP);
  }

  lemma TopSize()
    ensures Size(5) == TOP && HALF < TOP && TOP % TOP == 0
  {}

  /** The entries of a range inside one table. */
  lemma IndexOrder(v: nat, n: nat, lvl: nat)
    requires 1 <= lvl <= 4 && n > 0 && v % Size(lvl + 1) + n <= Size(lvl + 1) && v + n <= HALF
    ensures PtIndex(v, lvl) < PtIndex(Last(v, n), lvl) + 1 <= 512 && Last(v, n) == v + n - 1
    ensures v % Size(lvl) + n <= Size(lvl) ==> PtIndex(Last(v, n), lvl) == PtIndex(v, lvl)
    ensures v % Size(lvl) + n > Size(lvl) ==> PtIndex(Last(v, n), lvl) > PtIndex(v, lvl)
  {
    LastIs(v, n);
    var d := TableOf(v, n, lvl);
    hide *;
    Advance(d, v, n, if n < Size(lvl) - v % Size(lvl) then n else Size(lvl) - v % Size(lvl)) by { MinIs(n, v, lvl); }
    EntryIs(d, v);
  }

  lemma MinIs(n: nat, v: nat, lvl: nat)
    ensures v % Size(lvl) < Size(lvl)
    ensures (if n < Size(lvl) - v % Size(lvl) then n else Size(lvl) - v % Size(lvl))
         == Min(n, Size(lvl) - v % Size(lvl))
  {}

  // ---- any range, entry by entry ----

  /** What is left of a range when the loop stands at entry `i`: the counters may lag behind. */
  predicate Due(v: nat, n: nat, i: nat, to: nat, lvl: nat) {
    v + n <= HALF && (i < to ==> InOne(v, n, lvl) && PtIndex(v, lvl) <= i && PtIndex(Last(v, n), lvl) + 1 == to)
  }

  lemma DueStarts(v: nat, n: nat, lvl: nat)
    requires InOne(v, n, lvl)
    ensures n > 0
    ensures var i, to := PtIndex(v, lvl), PtIndex(Last(v, n), lvl) + 1;
            i < to <= 512 && (lvl == 4 ==> to <= HI) && Due(v, n, i, to, lvl)
            && (Even(v, n, lvl) ==> Counters(v, n, to - i, lvl))
  {
    InOneParts(v, n, lvl);
    IndexOrder(v, n, lvl);
    if lvl == 4 { RootIndex(Last(v, n)); }
    if Even(v, n, lvl) { EvenStart(v, n, lvl); }
  }

  lemma InOneParts(v: nat, n: nat, lvl: nat)
    requires InOne(v, n, lvl)
    ensures 1 <= lvl <= 4 && n > 0 && v % Size(lvl + 1) + n <= Size(lvl + 1) && v + n <= HALF
  {}

  lemma DueFacts(v: nat, n: nat, i: nat, to: nat, lvl: nat)
    requires Due(v, n, i, to, lvl) && i < to
    ensures 1 <= lvl <= 4 && n > 0 && v + n <= HALF && Plus(v, 0) == v && Due(v, n, i + 1, to, lvl)
  {
    hide Size, PtIndex, Last;
  }

  /** A chunk lies in one table of the level below, and with it taken off the counters still
      reach into the last entry; a chunk of a whole entry starts at its border. */
  lemma DueNext(v: nat, n: nat, i: nat, to: nat, lvl: nat) returns (c: nat)
    requires Due(v, n, i, to, lvl) && i < to && lvl > 1
    ensures c == Chunk(v, n, lvl) && 0 < c <= n && InOne(v, c, lvl - 1) && Due(Plus(v, c), n - c, i + 1, to, lvl)
    ensures c == Size(lvl) ==> v % Size(lvl) == 0
  {
    hide *;
    DueParts(v, n, i, to, lvl);
    InOneParts(v, n, lvl);
    HalfSize();
    ChunkIs(v, n, lvl);
    c := ChunkSize(v, n, lvl);
    IndexOrder(v, n, lvl);
    if i + 1 < to {
      ChunkRest(v, n, lvl, c);
      NextIndex(v, n, lvl, c);
      LastIs(v, n);
      LastIs(v + c, n - c);
    }
    DueFrom(v + c, n - c, i + 1, to, lvl);
  }

  lemma DueParts(v: nat, n: nat, i: nat, to: nat, lvl: nat)
    requires Due(v, n, i, to, lvl) && i < to
    ensures InOne(v, n, lvl) && PtIndex(v, lvl) <= i && PtIndex(Last(v, n), lvl) + 1 == to
  {
    hide InOne, Size, PtIndex, Last;
  }

  lemma DueFrom(v: nat, n: nat, i: nat, to: nat, lvl: nat)
    requires v + n <= HALF
    requires (i < to ==> InOne(v, n, lvl) && PtIndex(v, lvl) <= i && PtIndex(Last(v, n), lvl) + 1 == to)
    ensures Due(v, n, i, to, lvl)
  {
    hide InOne, Size, PtIndex, Last;
  }

  lemma ChunkSize(v: nat, n: nat, lvl: nat) returns (c: nat)
    requires 1 < lvl <= 4 && n > 0 && v + n <= HALF
    ensures c == Min(n, Size(lvl) - v % Size(lvl)) && 0 < c <= n && Plus(v, c) == v + c && InOne(v, c, lvl - 1)
    ensures c == Size(lvl) ==> v % Size(lvl) == 0
    ensures v % Size(lvl) + n > Size(lvl) ==> c < n && v % Size(lvl) + c == Size(lvl)
  {
    HalfSize();
    hide Size;
    c := Min(n, Size(lvl) - v % Size(lvl));
  }

  lemma ChunkRest(v: nat, n: nat, lvl: nat, c: nat)
    requires InOne(v, n, lvl) && c < n
    ensures InOne(v + c, n - c, lvl)
  {
    hide Size;
    TableRest(v, c, Size(lvl + 1));
  }

  lemma EvenStart(v: nat, n: nat, lvl: nat)
    requires Even(v, n, lvl)
    ensures n > 0 && v + n <= HALF
    ensures var i, to := PtIndex(v, lvl), PtIndex(Last(v, n), lvl) + 1;
            i < to <= 512 && (lvl == 4 ==> to <= HI) && Counters(v, n, to - i, lvl)
  {
    var d := TableOf(v, n, lvl);
    assert lvl == 4 ==> d.base == 0 by { TopSize(); }
    EvenBounds(d, v, n);
    EvenCounters(v, n, lvl, PtIndex(Last(v, n), lvl) + 1 - PtIndex(v, lvl));
  }

  /** One whole entry is an even range of the table below. */
  lemma WholeEven(v: nat, n: nat, lvl: nat)
    requires 1 < lvl <= 4 && v % Size(lvl) == 0 && Size(lvl) <= n && v + n <= HALF
    ensures Even(v, Size(lvl), lvl - 1)
  {
    SizeUp(lvl - 1);
    hide Size;
    MultipleFactor(v, Size(lvl - 1), 512);
    Multiple(Size(lvl - 1), 512);
  }

  // ---- what the loop never does ----

  /** Tables and entries only go away. */
  ghost predicate Fades(mem: Tables, m: Tables) {
    forall g :: g in m ==>
                  && g in mem && |m[g]| == |mem[g]|
                  && forall j :: 0 <= j < |m[g]| ==> m[g][j] == mem[g][j] || m[g][j] == ABSENT
  }

  lemma FadesTrans(a: Tables, b: Tables, c: Tables)
    requires Fades(a, b) && Fades(b, c)
    ensures Fades(a, c)
  {}

  lemma ClearedFades(mem: Tables, f: nat, i: nat, drop: set<nat>)
    ensures Fades(mem, mem) && Fades(mem, Cleared(mem, f, i)) && Fades(mem, Cleared(mem, f, i) - drop)
  {}

  lemma ChunkBound(v: nat, n: nat, lvl: nat)
    ensures Chunk(v, n, lvl) <= n
  {}

  lemma {:induction false} LoopFades(mem: Tables, f: nat, i: nat, to: nat, v: nat, n: nat, lvl: nat)
    ensures Fades(mem, UnmapLoop(mem, f, i, to, v, n, lvl))
    decreases lvl, to - i
  {
    hide Fades, Chunk, Size, PtIndex, Last, Plus, Cleared;
    ClearedFades(mem, f, i, {});
    if !(i >= to || lvl == 0 || n == 0 || f !in mem || i >= |mem[f]|) {
      var pte := mem[f][i];
      if !pte.present {
        LoopFades(mem, f, i + 1, to, v, n, lvl);
      } else if lvl == 1 || pte.large {
        LoopFades(Cleared(mem, f, i), f, i + 1, to, v, n, lvl);
        FadesTrans(mem, Cleared(mem, f, i), UnmapLoop(mem, f, i, to, v, n, lvl));
      } else {
        var c := Chunk(v, n, lvl);
        assert c <= n by { ChunkBound(v, n, lvl); }
        var below := if c == 0 then mem
        else UnmapLoop(mem, pte.phys, PtIndex(v, lvl - 1), PtIndex(Last(v, c), lvl - 1) + 1, v, c, lvl - 1);
        if c != 0 { LoopFades(mem, pte.phys, PtIndex(v, lvl - 1), PtIndex(Last(v, c), lvl - 1) + 1, v, c, lvl - 1); }
        ClearedFades(below, f, i, {pte.phys});
        var after := if c == Size(lvl) then Cleared(below, f, i) - {pte.phys} else below;
        FadesTrans(mem, below, after);
        LoopFades(after, f, i + 1, to, Plus(v, c), n - c, lvl);
        FadesTrans(mem, after, UnmapLoop(mem, f, i, to, v, n, lvl));
      }
    }
  }

  lemma FromFades(mem: Tables, f: nat, v: nat, n: nat, lvl: nat)
    ensures Fades(mem, UnmapFrom(mem, f, v, n, lvl))
  {
    hide UnmapLoop, PtIndex, Last, Size, Fades;
    if n == 0 { ClearedFades(mem, f, 0, {}); }
    else { LoopFades(mem, f, PtIndex(v, lvl), PtIndex(Last(v, n), lvl) + 1, v, n, lvl); }
  }

  lemma FadedWalk(mem: Tables, m: Tables, f: nat, lvl: nat, a: nat)
    requires Fades(mem, m) && lvl > 1 && f in mem && |mem[f]| == 512 && Link(mem[f][PtIndex(a, lvl)], lvl)
    requires Walk(m, mem[f][PtIndex(a, lvl)].phys, lvl - 1, a) == None
    ensures Walk(m, f, lvl, a) == None
  {
    hide PtIndex;
  }

  lemma ClearedWalk(mem: Tables, f: nat, j: nat, child: nat, lvl: nat, a: nat)
    requires lvl > 0 && PtIndex(a, lvl) == j
    ensures Walk(Cleared(mem, f, j) - {child}, f, lvl, a) == None
  {
    hide PtIndex;
  }
}
