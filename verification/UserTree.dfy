/** Which buddy blocks a user address space holds: one page per table and one block per
    leaf, each held once. */
module UserTree {
  import opened Bits
  import opened BuddyZone
  import opened Paging

  /** pt_order. */
  function LeafOrder(lvl: nat): nat {
    if lvl == 0 then 0 else 9 * (lvl - 1)
  }

  function TableBlock(f: nat): Block {
    Block(f / PAGE, 0)
  }

  function LeafBlock(pte: Pte, lvl: nat): Block {
    Block(pte.phys / PAGE, LeafOrder(lvl))
  }

  /** Entry `i` of table `f` is a leaf of this space. */
  predicate HasLeaf(s: Space, f: nat, i: nat, lo: nat, hi: nat) {
    Mine(s, f, i, lo, hi) && Leaf(Entry(s, f, i), s.info[f].lvl)
  }

  function LeafOf(s: Space, f: nat, i: nat): Block {
    LeafBlock(Entry(s, f, i), if f in s.info then s.info[f].lvl else 0)
  }

  function TableBlocks(s: Space): set<Block> {
    set f | f in s.info :: TableBlock(f)
  }

  function LeafBlocks(s: Space, lo: nat, hi: nat): set<Block> {
    set f, i | f in s.info && 0 <= i < 512 && HasLeaf(s, f, i, lo, hi) :: LeafOf(s, f, i)
  }

  function Holds(s: Space, lo: nat, hi: nat): set<Block> {
    TableBlocks(s) + LeafBlocks(s, lo, hi)
  }

  /** The link in entry `i` of `f` leads to `g`. */
  predicate Parent(s: Space, f: nat, i: nat, g: nat, lo: nat, hi: nat) {
    Mine(s, f, i, lo, hi) && Link(Entry(s, f, i), s.info[f].lvl) && Entry(s, f, i).phys == g
  }

  ghost predicate TablesHeld(s: Space, busy: set<Block>) {
    forall f :: f in s.info ==> f % PAGE == 0 && TableBlock(f) in busy
  }

  ghost predicate LeavesHeld(s: Space, lo: nat, hi: nat, busy: set<Block>) {
    forall f, i :: HasLeaf(s, f, i, lo, hi) ==> LeafOf(s, f, i) in busy
  }

  /** No block backs two leaves, or a leaf and a table. */
  ghost predicate HeldOnce(s: Space, lo: nat, hi: nat) {
    && (forall f, i, g, j :: HasLeaf(s, f, i, lo, hi) && HasLeaf(s, g, j, lo, hi)
                             && LeafOf(s, f, i) == LeafOf(s, g, j) ==>
                               f == g && i == j)
    && (forall f, i, g :: HasLeaf(s, f, i, lo, hi) && g in s.info ==> LeafOf(s, f, i) != TableBlock(g))
  }

  /** Every table but the root hangs from an entry, and no two sit at the same place. */
  ghost predicate Hung(s: Space, root: nat, lo: nat, hi: nat) {
    && (forall g :: g in s.info && g != root ==> exists f, i :: Parent(s, f, i, g, lo, hi))
    && (forall g, h :: g in s.info && h in s.info && s.info[g] == s.info[h] ==> g == h)
  }

  ghost predicate User(s: Space, root: nat, lo: nat, hi: nat, busy: set<Block>) {
    && Tree(s, root, lo, hi) && Hung(s, root, lo, hi)
    && TablesHeld(s, busy) && LeavesHeld(s, lo, hi, busy) && HeldOnce(s, lo, hi)
  }

  lemma HoldsIn(s: Space, lo: nat, hi: nat, b: Block)
    ensures b in Holds(s, lo, hi) <==>
            (exists f :: f in s.info && b == TableBlock(f))
            || (exists f, i :: HasLeaf(s, f, i, lo, hi) && b == LeafOf(s, f, i))
  {
    hide LeafBlock, Leaf, Entry;
    if f: nat, i: nat :| HasLeaf(s, f, i, lo, hi) && b == LeafOf(s, f, i) {
      MineIndex(s, f, i, lo, hi);
    }
  }

  lemma HoldsBusy(s: Space, root: nat, lo: nat, hi: nat, busy: set<Block>)
    requires User(s, root, lo, hi, busy)
    ensures Holds(s, lo, hi) <= busy
  {
    hide Tree, Hung, HeldOnce, TableBlock, LeafOf, HasLeaf;
  }

  lemma TableBlockUnique(f: nat, g: nat)
    requires f % PAGE == 0 && g % PAGE == 0 && TableBlock(f) == TableBlock(g)
    ensures f == g
  {}

  // ---- adding a leaf ----

  lemma SetLeafHas(s: Space, lo: nat, hi: nat, f: nat, i: nat, pte: Pte, g: nat, j: nat)
    requires Mine(s, f, i, lo, hi) && f in s.mem && i < |s.mem[f]|
    ensures var t := SetEntry(s, f, i, pte);
            && Mine(t, g, j, lo, hi) == Mine(s, g, j, lo, hi)
            && (g == f && j == i ==> Entry(t, g, j) == pte)
            && (!(g == f && j == i) ==> Entry(t, g, j) == Entry(s, g, j))
  {}

  lemma AddLeafHolds(s: Space, lo: nat, hi: nat, f: nat, i: nat, pte: Pte)
    requires Mine(s, f, i, lo, hi) && f in s.mem && i < |s.mem[f]|
    requires !Entry(s, f, i).present && Leaf(pte, s.info[f].lvl)
    ensures Holds(SetEntry(s, f, i, pte), lo, hi) == Holds(s, lo, hi) + {LeafBlock(pte, s.info[f].lvl)}
  {
    MineIndex(s, f, i, lo, hi);
    hide LeafBlock, Mine, SetEntry, Holds, LeafOf;
    var t, n := SetEntry(s, f, i, pte), LeafBlock(pte, s.info[f].lvl);
    SetInfo(s, f, i, pte);
    forall g: nat, j: nat
      ensures HasLeaf(t, g, j, lo, hi) <==> HasLeaf(s, g, j, lo, hi) || (g == f && j == i)
      ensures g in s.info && !(g == f && j == i) ==> LeafOf(t, g, j) == LeafOf(s, g, j)
      ensures g == f && j == i ==> LeafOf(t, g, j) == n && !HasLeaf(s, g, j, lo, hi)
    {
      SetLeafOf(s, lo, hi, f, i, pte, g, j);
    }
    forall b ensures b in Holds(t, lo, hi) <==> b in Holds(s, lo, hi) || b == n {
      OneLeafMore(s, t, lo, hi, f, i, n, b);
    }
  }

  lemma SetLeafOf(s: Space, lo: nat, hi: nat, f: nat, i: nat, pte: Pte, g: nat, j: nat)
    requires Mine(s, f, i, lo, hi) && f in s.mem && i < |s.mem[f]|
    requires !Entry(s, f, i).present && Leaf(pte, s.info[f].lvl)
    ensures var t := SetEntry(s, f, i, pte);
            && (HasLeaf(t, g, j, lo, hi) <==> HasLeaf(s, g, j, lo, hi) || (g == f && j == i))
            && (g in s.info && !(g == f && j == i) ==> LeafOf(t, g, j) == LeafOf(s, g, j))
            && (g == f && j == i ==> LeafOf(t, g, j) == LeafBlock(pte, s.info[f].lvl) && !HasLeaf(s, g, j, lo, hi))
  {
    SetLeafHas(s, lo, hi, f, i, pte, g, j);
  }

  lemma OneLeafMore(s: Space, t: Space, lo: nat, hi: nat, f: nat, i: nat, n: Block, b: Block)
    requires t.info == s.info
    requires forall g, j :: HasLeaf(t, g, j, lo, hi) <==> HasLeaf(s, g, j, lo, hi) || (g == f && j == i)
    requires forall g, j :: HasLeaf(s, g, j, lo, hi) ==> LeafOf(t, g, j) == LeafOf(s, g, j)
    requires HasLeaf(t, f, i, lo, hi) && LeafOf(t, f, i) == n && !HasLeaf(s, f, i, lo, hi)
    ensures b in Holds(t, lo, hi) <==> b in Holds(s, lo, hi) || b == n
  {
    hide LeafOf, Holds;
    HoldsIn(s, lo, hi, b);
    HoldsIn(t, lo, hi, b);
  }

  lemma SetInfo(s: Space, f: nat, i: nat, pte: Pte)
    requires f in s.info && f in s.mem && i < |s.mem[f]|
    ensures SetEntry(s, f, i, pte).info == s.info
  {}

  lemma SetEntryHung(s: Space, root: nat, lo: nat, hi: nat, f: nat, i: nat, pte: Pte)
    requires Hung(s, root, lo, hi) && Mine(s, f, i, lo, hi) && f in s.mem && i < |s.mem[f]|
    requires !Link(Entry(s, f, i), s.info[f].lvl)
    ensures Hung(SetEntry(s, f, i, pte), root, lo, hi)
  {
    hide Mine, Entry, Link;
    var t := SetEntry(s, f, i, pte);
    forall g | g in t.info && g != root ensures exists e, j :: Parent(t, e, j, g, lo, hi) {
      var e, j :| Parent(s, e, j, g, lo, hi);
      SetLeafHas(s, lo, hi, f, i, pte, e, j);
      assert Parent(t, e, j, g, lo, hi);
    }
  }

  /** A free block becomes the leaf of an absent entry. */
  lemma AddLeaf(s: Space, root: nat, lo: nat, hi: nat, busy: set<Block>, f: nat, i: nat, pte: Pte)
    requires User(s, root, lo, hi, busy) && Mine(s, f, i, lo, hi) && f in s.mem && i < |s.mem[f]|
    requires !Entry(s, f, i).present && Leaf(pte, s.info[f].lvl) && EntryOk(SetEntry(s, f, i, pte), f, i)
    requires LeafBlock(pte, s.info[f].lvl) !in busy
    ensures User(SetEntry(s, f, i, pte), root, lo, hi, busy + {LeafBlock(pte, s.info[f].lvl)})
    ensures Holds(SetEntry(s, f, i, pte), lo, hi) == Holds(s, lo, hi) + {LeafBlock(pte, s.info[f].lvl)}
  {
    MineIndex(s, f, i, lo, hi);
    hide Tree, Hung, LeafBlock, LeafOf, HasLeaf, Leaf, Holds, TableBlock, EntryOk;
    var t, n := SetEntry(s, f, i, pte), LeafBlock(pte, s.info[f].lvl);
    AddLeafHolds(s, lo, hi, f, i, pte);
    SetEntryTree(s, root, lo, hi, f, i, pte);
    AbsentNoLink(s, f, i);
    SetEntryHung(s, root, lo, hi, f, i, pte);
    SetInfo(s, f, i, pte);
    forall g: nat, j: nat
      ensures HasLeaf(t, g, j, lo, hi) <==> HasLeaf(s, g, j, lo, hi) || (g == f && j == i)
      ensures g in s.info && !(g == f && j == i) ==> LeafOf(t, g, j) == LeafOf(s, g, j)
      ensures g == f && j == i ==> LeafOf(t, g, j) == n && !HasLeaf(s, g, j, lo, hi)
    {
      SetLeafOf(s, lo, hi, f, i, pte, g, j);
    }
    OneLeafMoreHeld(s, t, lo, hi, busy, f, i, n);
  }

  lemma AbsentNoLink(s: Space, f: nat, i: nat)
    requires f in s.info && !Entry(s, f, i).present
    ensures !Link(Entry(s, f, i), s.info[f].lvl)
  {}

  lemma OneLeafMoreHeld(s: Space, t: Space, lo: nat, hi: nat, busy: set<Block>, f: nat, i: nat, n: Block)
    requires TablesHeld(s, busy) && LeavesHeld(s, lo, hi, busy) && HeldOnce(s, lo, hi) && n !in busy && t.info == s.info
    requires forall g, j :: HasLeaf(t, g, j, lo, hi) <==> HasLeaf(s, g, j, lo, hi) || (g == f && j == i)
    requires forall g, j :: HasLeaf(s, g, j, lo, hi) ==> LeafOf(t, g, j) == LeafOf(s, g, j)
    requires HasLeaf(t, f, i, lo, hi) && LeafOf(t, f, i) == n && !HasLeaf(s, f, i, lo, hi)
    ensures TablesHeld(t, busy + {n}) && LeavesHeld(t, lo, hi, busy + {n}) && HeldOnce(t, lo, hi)
  {
    hide LeafOf, TableBlock;
    assert forall g, j :: HasLeaf(t, g, j, lo, hi) && !(g == f && j == i) ==> LeafOf(t, g, j) in busy;
  }

  // ---- adding a table ----

  lemma AddTableEntry(s: Space, lo: nat, hi: nat, f: nat, i: nat, flags: nat, child: nat, g: nat, j: nat)
    requires Mine(s, f, i, lo, hi) && f in s.mem && i < |s.mem[f]| && s.info[f].lvl > 1
    requires child !in s.mem && child !in s.info && Placed(s.info[f])
    ensures var t := AddTable(s, f, i, flags, child);
            && (g != child ==> Mine(t, g, j, lo, hi) == Mine(s, g, j, lo, hi))
            && (g == f && j == i ==> Entry(t, g, j) == Pte(true, false, flags, child))
            && (g == child ==> Entry(t, g, j) == ABSENT && (j < 512 ==> Mine(t, g, j, lo, hi)))
            && (g != child && !(g == f && j == i) ==> Entry(t, g, j) == Entry(s, g, j))
            && (g in s.info ==> g in t.info && t.info[g] == s.info[g])
            && t.info.Keys == s.info.Keys + {child} && t.info[child] == Child(s.info[f], i)
  {
    hide Size, EntryBase;
    PlacedLevel(s.info[f]);
    ChildLevel(s.info[f], i);
  }

  lemma AddTableLeaf(s: Space, lo: nat, hi: nat, f: nat, i: nat, flags: nat, child: nat, g: nat, j: nat)
    requires Mine(s, f, i, lo, hi) && f in s.mem && i < |s.mem[f]| && s.info[f].lvl > 1
    requires child !in s.mem && child !in s.info && Placed(s.info[f]) && !Entry(s, f, i).present
    ensures var t := AddTable(s, f, i, flags, child);
            && HasLeaf(t, g, j, lo, hi) == HasLeaf(s, g, j, lo, hi)
            && (HasLeaf(s, g, j, lo, hi) ==> LeafOf(t, g, j) == LeafOf(s, g, j))
  {
    hide AddTable, Child, Placed;
    MineIndex(s, f, i, lo, hi);
    AddTableEntry(s, lo, hi, f, i, flags, child, g, j);
  }

  lemma AddTableParent(s: Space, lo: nat, hi: nat, f: nat, i: nat, flags: nat, child: nat, g: nat, j: nat, h: nat)
    requires Mine(s, f, i, lo, hi) && f in s.mem && i < |s.mem[f]| && s.info[f].lvl > 1
    requires child !in s.mem && child !in s.info && Placed(s.info[f]) && !Entry(s, f, i).present
    requires g in s.info
    ensures var t := AddTable(s, f, i, flags, child);
            && (Parent(s, g, j, h, lo, hi) ==> Parent(t, g, j, h, lo, hi))
            && Parent(t, f, i, child, lo, hi)
  {
    hide AddTable, Child, Placed;
    MineIndex(s, f, i, lo, hi);
    AddTableEntry(s, lo, hi, f, i, flags, child, g, j);
    AddTableEntry(s, lo, hi, f, i, flags, child, f, i);
  }

  /** No table sits yet where the table under an absent entry would. */
  lemma PlaceFree(s: Space, root: nat, lo: nat, hi: nat, f: nat, i: nat, g: nat)
    requires Tree(s, root, lo, hi) && Hung(s, root, lo, hi) && Mine(s, f, i, lo, hi) && s.info[f].lvl > 1
    requires !Entry(s, f, i).present && g in s.info
    ensures s.info[g] != Child(s.info[f], i)
  {
    hide Size, Entry, EntryBase, Placed;
    MineIndex(s, f, i, lo, hi);
    assert Placed(s.info[f]) && Placed(s.info[g]);
    PlacedLevel(s.info[f]);
    ChildLevel(s.info[f], i);
    if s.info[g] == Child(s.info[f], i) {
      assert g != root;
      var e, j :| Parent(s, e, j, g, lo, hi);
      MineIndex(s, e, j, lo, hi);
      assert EntryOk(s, e, j);
      assert Placed(s.info[e]);
      SamePlace(s.info[f], i, s.info[e], j);
    }
  }

  lemma SamePlace(m: Info, i: nat, n: Info, j: nat)
    requires Placed(m) && Placed(n) && i < 512 && j < 512 && m.lvl > 1 && n.lvl > 1 && Child(m, i) == Child(n, j)
    ensures m == n && i == j
  {
    hide Size;
    ChildLevel(m, i);
    ChildLevel(n, j);
    var e, a := Size(m.lvl), EntryBase(m.base, m.lvl, i);
    SizeUp(m.lvl);
    SizeSome(m.lvl);
    InEntry(m, a, i);
    InEntry(n, a, j);
    var d: nat := 512 * e;
    if m.base < n.base { MultiplesApart(d, m.base, n.base); }
    if n.base < m.base { MultiplesApart(d, n.base, m.base); }
  }

  lemma SizeSome(lvl: nat)
    ensures Size(lvl) > 0
  {}

  lemma AddTableHung(s: Space, root: nat, lo: nat, hi: nat, f: nat, i: nat, flags: nat, child: nat)
    requires Tree(s, root, lo, hi) && Hung(s, root, lo, hi) && Mine(s, f, i, lo, hi) && s.info[f].lvl > 1
    requires f in s.mem && i < |s.mem[f]| && child !in s.mem && !Entry(s, f, i).present
    ensures Hung(AddTable(s, f, i, flags, child), root, lo, hi)
  {
    hide Size, Entry, EntryBase, Placed, Mine, AddTable, Child, Parent, EntriesOk;
    MineIndex(s, f, i, lo, hi);
    assert Placed(s.info[f]);
    var t := AddTable(s, f, i, flags, child);
    AddTableEntry(s, lo, hi, f, i, flags, child, f, i);
    forall g | g in t.info && g != root ensures exists e, j :: Parent(t, e, j, g, lo, hi) {
      if g == child {
        AddTableParent(s, lo, hi, f, i, flags, child, f, i, g);
        assert Parent(t, f, i, g, lo, hi);
      } else {
        var e, j :| Parent(s, e, j, g, lo, hi);
        ParentIn(s, e, j, g, lo, hi);
        AddTableParent(s, lo, hi, f, i, flags, child, e, j, g);
        assert Parent(t, e, j, g, lo, hi);
      }
    }
    forall g, h | g in t.info && h in t.info && t.info[g] == t.info[h] ensures g == h {
      AddTableEntry(s, lo, hi, f, i, flags, child, g, 0);
      AddTableEntry(s, lo, hi, f, i, flags, child, h, 0);
      if g in s.info { PlaceFree(s, root, lo, hi, f, i, g); }
      if h in s.info { PlaceFree(s, root, lo, hi, f, i, h); }
    }
  }

  lemma ParentIn(s: Space, f: nat, i: nat, g: nat, lo: nat, hi: nat)
    requires Parent(s, f, i, g, lo, hi)
    ensures f in s.info && i < 512
  {}

  /** A free page becomes the table under an absent entry. */
  lemma AddTableUser(s: Space, root: nat, lo: nat, hi: nat, busy: set<Block>, f: nat, i: nat, flags: nat, child: nat)
    requires User(s, root, lo, hi, busy) && Mine(s, f, i, lo, hi) && s.info[f].lvl > 1
    requires f in s.mem && i < |s.mem[f]| && child !in s.mem && !Entry(s, f, i).present
    requires child % PAGE == 0 && TableBlock(child) !in busy
    ensures User(AddTable(s, f, i, flags, child), root, lo, hi, busy + {TableBlock(child)})
    ensures Holds(AddTable(s, f, i, flags, child), lo, hi) == Holds(s, lo, hi) + {TableBlock(child)}
  {
    hide Size, Entry, EntryBase, Placed, Mine, AddTable, Child, Parent, EntriesOk, LeafOf, HasLeaf, Holds, TableBlock;
    hide Hung;
    MineIndex(s, f, i, lo, hi);
    assert Placed(s.info[f]);
    var t, n := AddTable(s, f, i, flags, child), TableBlock(child);
    AddTableHung(s, root, lo, hi, f, i, flags, child);
    AddTableTree(s, root, lo, hi, f, i, flags, child);
    AddTableEntry(s, lo, hi, f, i, flags, child, f, i);
    forall g: nat, j: nat
      ensures HasLeaf(t, g, j, lo, hi) == HasLeaf(s, g, j, lo, hi)
      ensures HasLeaf(s, g, j, lo, hi) ==> LeafOf(t, g, j) == LeafOf(s, g, j)
    {
      AddTableLeaf(s, lo, hi, f, i, flags, child, g, j);
    }
    assert t.info.Keys == s.info.Keys + {child};
    forall b ensures b in Holds(t, lo, hi) <==> b in Holds(s, lo, hi) || b == n {
      OneTableMore(s, t, lo, hi, child, b);
    }
    OneTableMoreHeld(s, t, lo, hi, busy, child);
  }

  lemma OneTableMore(s: Space, t: Space, lo: nat, hi: nat, child: nat, b: Block)
    requires t.info.Keys == s.info.Keys + {child}
    requires forall g, j :: HasLeaf(t, g, j, lo, hi) == HasLeaf(s, g, j, lo, hi)
    requires forall g, j :: HasLeaf(s, g, j, lo, hi) ==> LeafOf(t, g, j) == LeafOf(s, g, j)
    ensures b in Holds(t, lo, hi) <==> b in Holds(s, lo, hi) || b == TableBlock(child)
  {
    hide LeafOf, Holds, TableBlock;
    HoldsIn(s, lo, hi, b);
    HoldsIn(t, lo, hi, b);
    assert child in t.info;
  }

  lemma OneTableMoreHeld(s: Space, t: Space, lo: nat, hi: nat, busy: set<Block>, child: nat)
    requires TablesHeld(s, busy) && LeavesHeld(s, lo, hi, busy) && HeldOnce(s, lo, hi)
    requires child % PAGE == 0 && TableBlock(child) !in busy && t.info.Keys == s.info.Keys + {child}
    requires forall g, j :: HasLeaf(t, g, j, lo, hi) == HasLeaf(s, g, j, lo, hi)
    requires forall g, j :: HasLeaf(s, g, j, lo, hi) ==> LeafOf(t, g, j) == LeafOf(s, g, j)
    ensures TablesHeld(t, busy + {TableBlock(child)}) && LeavesHeld(t, lo, hi, busy + {TableBlock(child)})
    ensures HeldOnce(t, lo, hi)
  {
    hide LeafOf, TableBlock, HasLeaf;
  }

  // ---- taking a leaf or a table away ----

  lemma ClearLeafOf(s: Space, lo: nat, hi: nat, f: nat, i: nat, g: nat, j: nat)
    requires HasLeaf(s, f, i, lo, hi) && f in s.mem && i < |s.mem[f]|
    ensures var t := SetEntry(s, f, i, ABSENT);
            && (HasLeaf(t, g, j, lo, hi) <==> HasLeaf(s, g, j, lo, hi) && !(g == f && j == i))
            && (HasLeaf(t, g, j, lo, hi) ==> LeafOf(t, g, j) == LeafOf(s, g, j))
  {
    SetLeafHas(s, lo, hi, f, i, ABSENT, g, j);
  }

  lemma ClearOk(s: Space, lo: nat, hi: nat, f: nat, i: nat)
    requires Mine(s, f, i, lo, hi) && f in s.mem && i < |s.mem[f]|
    ensures EntryOk(SetEntry(s, f, i, ABSENT), f, i)
  {}

  lemma LeafNoLink(s: Space, f: nat, i: nat, lo: nat, hi: nat)
    requires HasLeaf(s, f, i, lo, hi)
    ensures f in s.info && i < 512 && Mine(s, f, i, lo, hi) && !Link(Entry(s, f, i), s.info[f].lvl)
  {}

  lemma LeafInHolds(s: Space, lo: nat, hi: nat, f: nat, i: nat)
    requires HasLeaf(s, f, i, lo, hi)
    ensures LeafOf(s, f, i) in Holds(s, lo, hi)
  {
    hide LeafOf, HasLeaf, Holds;
    HoldsIn(s, lo, hi, LeafOf(s, f, i));
  }

  lemma ClearTree(s: Space, root: nat, lo: nat, hi: nat, f: nat, i: nat)
    requires Tree(s, root, lo, hi) && Hung(s, root, lo, hi) && HasLeaf(s, f, i, lo, hi) && f in s.mem && i < |s.mem[f]|
    ensures Tree(SetEntry(s, f, i, ABSENT), root, lo, hi) && Hung(SetEntry(s, f, i, ABSENT), root, lo, hi)
  {
    hide Tree, Hung, EntryOk, Entry, Leaf, Link, Mine, SetEntry;
    LeafNoLink(s, f, i, lo, hi);
    ClearOk(s, lo, hi, f, i);
    SetEntryTree(s, root, lo, hi, f, i, ABSENT);
    SetEntryHung(s, root, lo, hi, f, i, ABSENT);
  }

  /** A leaf is cleared and its block given up. */
  lemma ClearLeaf(s: Space, root: nat, lo: nat, hi: nat, busy: set<Block>, f: nat, i: nat)
    requires User(s, root, lo, hi, busy) && HasLeaf(s, f, i, lo, hi) && f in s.mem && i < |s.mem[f]|
    ensures LeafOf(s, f, i) in Holds(s, lo, hi)
    ensures User(SetEntry(s, f, i, ABSENT), root, lo, hi, busy - {LeafOf(s, f, i)})
    ensures Holds(SetEntry(s, f, i, ABSENT), lo, hi) == Holds(s, lo, hi) - {LeafOf(s, f, i)}
  {
    LeafNoLink(s, f, i, lo, hi);
    hide Tree, Hung, LeafOf, HasLeaf, Leaf, Link, Holds, TableBlock, EntryOk, Mine, Entry, HeldOnce, LeavesHeld;
    hide TablesHeld, SetEntry;
    var t, n := SetEntry(s, f, i, ABSENT), LeafOf(s, f, i);
    ClearTree(s, root, lo, hi, f, i);
    SetInfo(s, f, i, ABSENT);
    LeafInHolds(s, lo, hi, f, i);
    forall g: nat, j: nat
      ensures HasLeaf(t, g, j, lo, hi) <==> HasLeaf(s, g, j, lo, hi) && !(g == f && j == i)
      ensures HasLeaf(t, g, j, lo, hi) ==> LeafOf(t, g, j) == LeafOf(s, g, j)
    {
      ClearLeafOf(s, lo, hi, f, i, g, j);
    }
    forall b ensures b in Holds(t, lo, hi) <==> b in Holds(s, lo, hi) && b != n {
      OneLeafLess(s, t, lo, hi, f, i, b);
    }
    OneLeafLessHeld(s, t, lo, hi, busy, f, i);
  }

  lemma OneLeafLess(s: Space, t: Space, lo: nat, hi: nat, f: nat, i: nat, b: Block)
    requires t.info == s.info && HeldOnce(s, lo, hi) && HasLeaf(s, f, i, lo, hi)
    requires forall g, j :: HasLeaf(t, g, j, lo, hi) <==> HasLeaf(s, g, j, lo, hi) && !(g == f && j == i)
    requires forall g, j :: HasLeaf(t, g, j, lo, hi) ==> LeafOf(t, g, j) == LeafOf(s, g, j)
    ensures b in Holds(t, lo, hi) <==> b in Holds(s, lo, hi) && b != LeafOf(s, f, i)
  {
    hide LeafOf, Holds, TableBlock, HasLeaf;
    HoldsIn(s, lo, hi, b);
    HoldsIn(t, lo, hi, b);
    if b in Holds(s, lo, hi) && b != LeafOf(s, f, i) {
      if !(exists g :: g in s.info && b == TableBlock(g)) {
        var g, j :| HasLeaf(s, g, j, lo, hi) && b == LeafOf(s, g, j);
        assert HasLeaf(t, g, j, lo, hi) && b == LeafOf(t, g, j);
      }
    }
  }

  lemma OneLeafLessHeld(s: Space, t: Space, lo: nat, hi: nat, busy: set<Block>, f: nat, i: nat)
    requires t.info == s.info && TablesHeld(s, busy) && LeavesHeld(s, lo, hi, busy) && HeldOnce(s, lo, hi)
    requires HasLeaf(s, f, i, lo, hi)
    requires forall g, j :: HasLeaf(t, g, j, lo, hi) <==> HasLeaf(s, g, j, lo, hi) && !(g == f && j == i)
    requires forall g, j :: HasLeaf(t, g, j, lo, hi) ==> LeafOf(t, g, j) == LeafOf(s, g, j)
    ensures var n := LeafOf(s, f, i);
            TablesHeld(t, busy - {n}) && LeavesHeld(t, lo, hi, busy - {n}) && HeldOnce(t, lo, hi)
  {
    hide LeafOf, TableBlock, HasLeaf;
  }

  /** Unhangs an emptied table and forgets it. */
  function DropTable(s: Space, f: nat, i: nat, child: nat): Space
    requires f in s.mem && i < |s.mem[f]|
  {
    Space(s.mem[f := s.mem[f][i := ABSENT]] - {child}, s.info - {child})
  }

  ghost predicate Emptied(s: Space, f: nat, lo: nat, hi: nat) {
    forall i :: Mine(s, f, i, lo, hi) ==> !Entry(s, f, i).present
  }

  lemma DropEntry(s: Space, lo: nat, hi: nat, f: nat, i: nat, child: nat, g: nat, j: nat)
    requires Parent(s, f, i, child, lo, hi) && f in s.mem && i < |s.mem[f]| && child != f
    requires child in s.info && Emptied(s, child, lo, hi)
    ensures var t := DropTable(s, f, i, child);
            && t.info.Keys == s.info.Keys - {child} && (g in t.info ==> t.info[g] == s.info[g])
            && (g != child ==> Mine(t, g, j, lo, hi) == Mine(s, g, j, lo, hi))
            && (g == f && j == i ==> Entry(t, g, j) == ABSENT)
            && (g != child && !(g == f && j == i) ==> Entry(t, g, j) == Entry(s, g, j))
            && !Mine(t, child, j, lo, hi)
  {}

  lemma DropLeaf(s: Space, lo: nat, hi: nat, f: nat, i: nat, child: nat, g: nat, j: nat)
    requires Parent(s, f, i, child, lo, hi) && f in s.mem && i < |s.mem[f]| && child != f
    requires child in s.info && Emptied(s, child, lo, hi)
    ensures var t := DropTable(s, f, i, child);
            && HasLeaf(t, g, j, lo, hi) == HasLeaf(s, g, j, lo, hi)
            && (HasLeaf(s, g, j, lo, hi) ==> LeafOf(t, g, j) == LeafOf(s, g, j))
  {
    hide DropTable;
    DropEntry(s, lo, hi, f, i, child, g, j);
  }

  /** Only entry `i` of `f` led to the dropped table, and it led nowhere else. */
  lemma OnlyParent(s: Space, root: nat, lo: nat, hi: nat, f: nat, i: nat, e: nat, j: nat, child: nat)
    requires Tree(s, root, lo, hi) && Hung(s, root, lo, hi)
    requires Parent(s, f, i, child, lo, hi) && Parent(s, e, j, child, lo, hi)
    ensures e == f && j == i
  {
    hide Size, Entry, EntryBase, Placed, Child, Link;
    ParentIn(s, f, i, child, lo, hi);
    ParentIn(s, e, j, child, lo, hi);
    assert EntryOk(s, f, i) && EntryOk(s, e, j);
    assert Placed(s.info[f]) && Placed(s.info[e]);
    SamePlace(s.info[f], i, s.info[e], j);
  }

  lemma DropEntryOk(s: Space, root: nat, lo: nat, hi: nat, f: nat, i: nat, child: nat, g: nat, j: nat)
    requires Tree(s, root, lo, hi) && Hung(s, root, lo, hi) && Parent(s, f, i, child, lo, hi)
    requires child in s.info && Emptied(s, child, lo, hi) && child != f && f in s.mem && i < |s.mem[f]|
    requires Mine(DropTable(s, f, i, child), g, j, lo, hi)
    ensures EntryOk(DropTable(s, f, i, child), g, j)
  {
    MineIndex(DropTable(s, f, i, child), g, j, lo, hi);
    hide Size, Entry, EntryBase, Placed, Child, Mine, DropTable, Emptied, Hung, EntriesOk, TablesOk, EntryOk, Parent;
    ParentIn(s, f, i, child, lo, hi);
    DropEntry(s, lo, hi, f, i, child, g, j);
    if g == f && j == i {
      AbsentOk(DropTable(s, f, i, child), g, j);
    } else {
      if Parent(s, g, j, child, lo, hi) {
        OnlyParent(s, root, lo, hi, f, i, g, j, child);
      }
      forall h ensures h != child && h in s.info ==>
                         h in DropTable(s, f, i, child).info && DropTable(s, f, i, child).info[h] == s.info[h] {
        DropEntry(s, lo, hi, f, i, child, h, 0);
      }
      SameEntryOk(s, DropTable(s, f, i, child), root, lo, hi, child, g, j);
    }
  }

  lemma SameEntryOk(s: Space, t: Space, root: nat, lo: nat, hi: nat, child: nat, g: nat, j: nat)
    requires Tree(s, root, lo, hi) && Mine(s, g, j, lo, hi) && g in t.info && t.info[g] == s.info[g]
    requires Entry(t, g, j) == Entry(s, g, j) && !Parent(s, g, j, child, lo, hi)
    requires forall h :: h != child && h in s.info ==> h in t.info && t.info[h] == s.info[h]
    ensures EntryOk(t, g, j)
  {
    hide Size, Entry, EntryBase, Placed, Child;
    assert EntryOk(s, g, j);
  }

  lemma DropTree(s: Space, root: nat, lo: nat, hi: nat, f: nat, i: nat, child: nat)
    requires Tree(s, root, lo, hi) && Hung(s, root, lo, hi) && Parent(s, f, i, child, lo, hi)
    requires child in s.info && Emptied(s, child, lo, hi) && child != f && child != root && f in s.mem && i < |s.mem[f]|
    ensures Tree(DropTable(s, f, i, child), root, lo, hi) && Hung(DropTable(s, f, i, child), root, lo, hi)
  {
    hide Size, Entry, EntryBase, Placed, Child, Link, DropTable, Leaf, EntryOk, Emptied;
    var t := DropTable(s, f, i, child);
    DropEntry(s, lo, hi, f, i, child, root, 0);
    DropTables(s, root, f, i, child);
    forall g, j | Mine(t, g, j, lo, hi) ensures EntryOk(t, g, j) {
      DropEntryOk(s, root, lo, hi, f, i, child, g, j);
    }
    DropHung(s, root, lo, hi, f, i, child);
  }

  lemma DropHung(s: Space, root: nat, lo: nat, hi: nat, f: nat, i: nat, child: nat)
    requires Hung(s, root, lo, hi) && Parent(s, f, i, child, lo, hi)
    requires child in s.info && Emptied(s, child, lo, hi) && child != f && child != root && f in s.mem && i < |s.mem[f]|
    ensures Hung(DropTable(s, f, i, child), root, lo, hi)
  {
    hide Entry, Link, Mine, DropTable, Emptied;
    var t := DropTable(s, f, i, child);
    DropEntry(s, lo, hi, f, i, child, root, 0);
    forall g | g in t.info && g != root ensures exists e, j :: Parent(t, e, j, g, lo, hi) {
      var e: nat, j: nat :| Parent(s, e, j, g, lo, hi);
      ParentIn(s, e, j, g, lo, hi);
      if e == child { EmptyNoParent(s, child, j, g, lo, hi); }
      DropEntry(s, lo, hi, f, i, child, e, j);
      assert Parent(t, e, j, g, lo, hi);
    }
    forall g | g in t.info ensures t.info[g] == s.info[g] { DropEntry(s, lo, hi, f, i, child, g, 0); }
  }

  lemma DropTables(s: Space, root: nat, f: nat, i: nat, child: nat)
    requires TablesOk(s, root) && child != root && child != f && f in s.mem && i < |s.mem[f]|
    ensures TablesOk(DropTable(s, f, i, child), root)
  {
    hide Placed;
  }

  lemma AbsentOk(s: Space, f: nat, i: nat)
    requires f in s.info && Entry(s, f, i) == ABSENT
    ensures EntryOk(s, f, i)
  {}

  lemma EmptyNoParent(s: Space, f: nat, i: nat, g: nat, lo: nat, hi: nat)
    requires Emptied(s, f, lo, hi)
    ensures !Parent(s, f, i, g, lo, hi)
  {}

  /** An emptied table is unhung and its page given up. */
  lemma DropUser(s: Space, root: nat, lo: nat, hi: nat, busy: set<Block>, f: nat, i: nat, child: nat)
    requires User(s, root, lo, hi, busy) && Parent(s, f, i, child, lo, hi)
    requires child in s.info && Emptied(s, child, lo, hi) && child != f && child != root && f in s.mem && i < |s.mem[f]|
    ensures TableBlock(child) in Holds(s, lo, hi)
    ensures User(DropTable(s, f, i, child), root, lo, hi, busy - {TableBlock(child)})
    ensures Holds(DropTable(s, f, i, child), lo, hi) == Holds(s, lo, hi) - {TableBlock(child)}
  {
    hide Tree, Hung, DropTable, Parent, LeafOf, HasLeaf, Holds, TableBlock, Emptied, HeldOnce, LeavesHeld, TablesHeld;
    DropTree(s, root, lo, hi, f, i, child);
    var t := DropTable(s, f, i, child);
    DropEntry(s, lo, hi, f, i, child, root, 0);
    forall g: nat, j: nat
      ensures HasLeaf(t, g, j, lo, hi) == HasLeaf(s, g, j, lo, hi)
      ensures HasLeaf(s, g, j, lo, hi) ==> LeafOf(t, g, j) == LeafOf(s, g, j)
    {
      DropLeaf(s, lo, hi, f, i, child, g, j);
    }
    HoldsIn(s, lo, hi, TableBlock(child));
    forall b ensures b in Holds(t, lo, hi) <==> b in Holds(s, lo, hi) && b != TableBlock(child) {
      OneTableLess(s, t, lo, hi, busy, child, b);
    }
    OneTableLessHeld(s, t, lo, hi, busy, child);
  }

  lemma OneTableLess(s: Space, t: Space, lo: nat, hi: nat, busy: set<Block>, child: nat, b: Block)
    requires TablesHeld(s, busy) && HeldOnce(s, lo, hi) && child in s.info && t.info.Keys == s.info.Keys - {child}
    requires forall g, j :: HasLeaf(t, g, j, lo, hi) == HasLeaf(s, g, j, lo, hi)
    requires forall g, j :: HasLeaf(s, g, j, lo, hi) ==> LeafOf(t, g, j) == LeafOf(s, g, j)
    ensures b in Holds(t, lo, hi) <==> b in Holds(s, lo, hi) && b != TableBlock(child)
  {
    hide LeafOf, Holds, TableBlock, HasLeaf;
    HoldsIn(s, lo, hi, b);
    HoldsIn(t, lo, hi, b);
    forall g | g in s.info && TableBlock(g) == TableBlock(child) ensures g == child { TableBlockUnique(g, child); }
  }

  lemma OneTableLessHeld(s: Space, t: Space, lo: nat, hi: nat, busy: set<Block>, child: nat)
    requires TablesHeld(s, busy) && LeavesHeld(s, lo, hi, busy) && HeldOnce(s, lo, hi) && child in s.info
    requires t.info.Keys == s.info.Keys - {child}
    requires forall g, j :: HasLeaf(t, g, j, lo, hi) == HasLeaf(s, g, j, lo, hi)
    requires forall g, j :: HasLeaf(s, g, j, lo, hi) ==> LeafOf(t, g, j) == LeafOf(s, g, j)
    ensures var n := TableBlock(child);
            TablesHeld(t, busy - {n}) && LeavesHeld(t, lo, hi, busy - {n}) && HeldOnce(t, lo, hi)
  {
    hide LeafOf, TableBlock, HasLeaf;
    forall g | g in t.info ensures TableBlock(g) != TableBlock(child) {
      if TableBlock(g) == TableBlock(child) { TableBlockUnique(g, child); }
    }
  }

  /** Once the root's entries are gone, the root is the only table left and no leaf remains. */
  lemma {:induction false} NothingLeft(s: Space, root: nat, lo: nat, hi: nat, g: nat)
    requires Tree(s, root, lo, hi) && Hung(s, root, lo, hi) && Emptied(s, root, lo, hi) && g in s.info
    ensures g == root
    decreases 4 - s.info[g].lvl
  {
    hide Size, Entry, EntryBase, Placed, Link, Mine, Emptied;
    if g != root {
      var e: nat, j: nat :| Parent(s, e, j, g, lo, hi);
      ParentIn(s, e, j, g, lo, hi);
      assert Mine(s, e, j, lo, hi) && EntryOk(s, e, j) && Placed(s.info[e]);
      PlacedLevel(s.info[e]);
      NothingLeft(s, root, lo, hi, e);
      EmptyNoParent(s, root, j, g, lo, hi);
    }
  }
}
