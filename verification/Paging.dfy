/** Four-level page tables (paging.c): the tables as 512-entry sequences owned by physical
    frames, the walk of pt_addr, and what one table update does to every translation. */
module Paging {
  import opened Bits

  const W: nat := 0x1_0000_0000_0000_0000
  const TOP: nat := 0x1_0000_0000_0000
  const HIGHER_BASE: nat := 0xffff_8000_0000_0000

  datatype Option<T> = None | Some(value: T)

  /** A table entry with its fields apart; `phys` is the entry under PTE_PHYS_MASK. */
  datatype Pte = Pte(present: bool, large: bool, flags: nat, phys: nat)

  const ABSENT: Pte := Pte(false, false, 0, 0)

  type Tables = map<nat, seq<Pte>>

  /** The packing `phys | flags` under PTE_PHYS_MASK keeps address and flags apart. */
  lemma PtePacking(phys: bv64, flags: bv64)
    requires phys & 0xfff == 0 && phys & 0xf_ffff_ffff_f000 == phys && flags & 0xfff == flags
    ensures (phys | flags) & 0xf_ffff_ffff_f000 == phys && (phys | flags) & 0xfff == flags
  {}

  /** Where a table sits: its level and the first address it translates. */
  datatype Info = Info(lvl: nat, base: nat)

  datatype Space = Space(mem: Tables, info: map<nat, Info>)

  /** pt_size: what one entry of a level-`lvl` table covers (level 5 stands for the root). */
  function Size(lvl: nat): (n: nat)
    ensures n > 0
  {
    if lvl == 0 then 1
    else if lvl == 1 then 0x1000
    else if lvl == 2 then 0x20_0000
    else if lvl == 3 then 0x4000_0000
    else if lvl == 4 then 0x80_0000_0000
    else 0x1_0000_0000_0000
  }

  /** pt_index. */
  function PtIndex(addr: nat, lvl: nat): (i: nat)
    ensures i < 512
  {
    addr / Size(lvl) % 512
  }

  predicate Leaf(pte: Pte, lvl: nat) {
    pte.present && (lvl == 1 || pte.large)
  }

  predicate Link(pte: Pte, lvl: nat) {
    pte.present && !(lvl == 1 || pte.large)
  }

  /** The walk from a table of level `lvl`. */
  function Walk(mem: Tables, f: nat, lvl: nat, a: nat): Option<nat>
    decreases lvl
  {
    if lvl == 0 || f !in mem || |mem[f]| != 512 then None
    else
      var pte := mem[f][PtIndex(a, lvl)];
      if !pte.present then None
      else if Leaf(pte, lvl) then Some(pte.phys + a % Size(lvl))
      else Walk(mem, pte.phys, lvl - 1, a)
  }

  // ---- address arithmetic ----

  /** The first address of entry `i` of the table at `base`. */
  function EntryBase(base: nat, lvl: nat, i: nat): nat {
    base + i * Size(lvl)
  }

  predicate Covers(n: Info, a: nat) {
    n.base <= a < n.base + Size(n.lvl + 1)
  }

  predicate Placed(n: Info) {
    1 <= n.lvl <= 4 && n.base % Size(n.lvl + 1) == 0 && n.base + Size(n.lvl + 1) <= TOP
  }

  function Child(n: Info, i: nat): Info
    requires n.lvl >= 1
  {
    Info(n.lvl - 1, EntryBase(n.base, n.lvl, i))
  }

  lemma SizeUp(lvl: nat)
    requires 1 <= lvl <= 4
    ensures Size(lvl + 1) == 512 * Size(lvl)
  {}

  lemma IndexParts(e: nat, q: nat, i: nat, r: nat, a: nat)
    requires e > 0 && i < 512 && r < e && a == (512 * e) * q + i * e + r
    ensures a / e % 512 == i && a % e == r
  {
    assert a == e * (512 * q + i) + r by {
      assert (512 * e) * q == e * (512 * q);
      assert e * (512 * q + i) == e * (512 * q) + e * i;
    }
    DivUnique(a, e, 512 * q + i, r);
  }

  lemma EntryEnd(e: nat, i: nat)
    requires i < 512
    ensures i * e + e <= 512 * e
  {
    MulNonNeg(511 - i, e);
    assert (511 - i) * e == 511 * e - i * e;
  }

  lemma EntryOrder(e: nat, i: nat, j: nat)
    requires i < j
    ensures i * e + e <= j * e
  {
    MulNonNeg(j - i - 1, e);
    assert (j - i - 1) * e == j * e - i * e - e;
  }

  lemma EntryOf(o: nat, e: nat) returns (i: nat)
    requires e > 0 && o < 512 * e
    ensures i < 512 && i * e <= o < i * e + e
  {
    i := o / e;
    var r := o % e;
    assert o == e * i + r;
    assert e * (i - 512) == e * i - 512 * e;
    if i >= 512 { MulNonNeg(e, i - 512); }
  }

  /** An address inside entry `i` of a table indexes entry `i` and lies in the table. */
  lemma InEntry(n: Info, a: nat, i: nat)
    requires Placed(n) && i < 512
    requires EntryBase(n.base, n.lvl, i) <= a < EntryBase(n.base, n.lvl, i) + Size(n.lvl)
    ensures Covers(n, a) && PtIndex(a, n.lvl) == i && a % Size(n.lvl) == a - EntryBase(n.base, n.lvl, i)
  {
    hide Size;
    SizeUp(n.lvl);
    var e := Size(n.lvl);
    EntryEnd(e, i);
    MulNonNeg(i, e);
    IndexParts(e, n.base / (512 * e), i, a - EntryBase(n.base, n.lvl, i), a);
  }

  /** Every address of a table lies in the entry it indexes. */
  lemma HasEntry(n: Info, a: nat)
    requires Placed(n) && Covers(n, a)
    ensures var i := PtIndex(a, n.lvl);
            EntryBase(n.base, n.lvl, i) <= a < EntryBase(n.base, n.lvl, i) + Size(n.lvl)
  {
    hide Size;
    SizeUp(n.lvl);
    var e := Size(n.lvl);
    var i := EntryOf(a - n.base, e);
    InEntry(n, a, i);
  }

  lemma ChildPlaced(n: Info, i: nat)
    requires Placed(n) && i < 512 && n.lvl > 1
    ensures Placed(Child(n, i))
  {
    hide Size;
    SizeUp(n.lvl);
    EntryEnd(Size(n.lvl), i);
    Multiple(Size(n.lvl), i);
    MultipleFactor(n.base, Size(n.lvl), 512);
    MultipleSum(Size(n.lvl), n.base, i * Size(n.lvl));
  }

  lemma ChildCovers(n: Info, i: nat, a: nat)
    requires Placed(n) && i < 512 && n.lvl > 1
    ensures Covers(Child(n, i), a) <==> Covers(n, a) && PtIndex(a, n.lvl) == i
  {
    hide Size;
    if Covers(Child(n, i), a) { InEntry(n, a, i); }
    if Covers(n, a) { HasEntry(n, a); }
  }

  // ---- tree ownership ----

  /** Entry `i` of table `f` belongs to this space; of the root only entries [lo, hi) do. */
  predicate Mine(s: Space, f: nat, i: nat, lo: nat, hi: nat) {
    f in s.info && i < 512 && (s.info[f].lvl == 4 ==> lo <= i < hi)
  }

  function Entry(s: Space, f: nat, i: nat): Pte {
    if f in s.mem && i < |s.mem[f]| then s.mem[f][i] else ABSENT
  }

  /** Every table of the space is a placed 512-entry frame, and the root is its only top. */
  ghost predicate TablesOk(s: Space, root: nat) {
    && root in s.info && s.info[root] == Info(4, 0)
    && forall f :: f in s.info ==>
                     && f in s.mem && |s.mem[f]| == 512 && Placed(s.info[f])
                     && (s.info[f].lvl == 4 ==> f == root)
  }

  /** A link leads to the table placed at exactly the addresses the entry covers; large
      leaves occur at levels 2 and 3 only, and every leaf is aligned to its size. */
  ghost predicate EntriesOk(s: Space, lo: nat, hi: nat) {
    forall f, i :: Mine(s, f, i, lo, hi) ==> EntryOk(s, f, i)
  }

  ghost predicate EntryOk(s: Space, f: nat, i: nat)
    requires f in s.info
  {
    var pte, n := Entry(s, f, i), s.info[f];
    && (Link(pte, n.lvl) ==> n.lvl > 1 && pte.phys in s.info && s.info[pte.phys] == Child(n, i))
    && (Leaf(pte, n.lvl) ==> pte.phys % Size(n.lvl) == 0)
    && (pte.present && pte.large ==> n.lvl == 2 || n.lvl == 3)
  }

  ghost predicate Tree(s: Space, root: nat, lo: nat, hi: nat) {
    TablesOk(s, root) && EntriesOk(s, lo, hi)
  }

  predicate RootEntry(a: nat, lo: nat, hi: nat) {
    lo <= PtIndex(a, 4) < hi
  }

  /** A walk depends only on the tables placed over its address. */
  lemma {:induction false} WalkLocal(s: Space, t: Tables, root: nat, lo: nat, hi: nat, f: nat, a: nat)
    requires Tree(s, root, lo, hi) && f in s.info && Covers(s.info[f], a)
    requires s.info[f].lvl == 4 ==> RootEntry(a, lo, hi)
    requires forall g :: g in s.info && s.info[g].lvl <= s.info[f].lvl && Covers(s.info[g], a) ==>
                           g in t && t[g] == s.mem[g]
    ensures Walk(t, f, s.info[f].lvl, a) == Walk(s.mem, f, s.info[f].lvl, a)
    decreases s.info[f].lvl
  {
    hide PtIndex, Size, Placed, EntryBase, Covers;
    var n, i := s.info[f], PtIndex(a, s.info[f].lvl);
    assert Placed(n) && |s.mem[f]| == 512;
    PlacedLevel(n);
    assert Mine(s, f, i, lo, hi) && EntryOk(s, f, i);
    var pte := s.mem[f][i];
    if Link(pte, n.lvl) {
      ChildCovers(n, i, a);
      WalkLocal(s, t, root, lo, hi, pte.phys, a);
    }
  }

  lemma PlacedLevel(n: Info)
    requires Placed(n)
    ensures 1 <= n.lvl <= 4
  {}

  /** `g` is `f` or a table placed under it. */
  predicate Under(s: Space, f: nat, g: nat) {
    f in s.info && g in s.info && s.info[g].lvl <= s.info[f].lvl && s.info[f].lvl < 5
    && s.info[f].base <= s.info[g].base < s.info[f].base + Size(s.info[f].lvl + 1)
  }

  /** From `s` to `t` only tables under `f` changed, new tables were added under it, and no
      address outside [v, v + n) translates differently. */
  ghost predicate Changed(s: Space, t: Space, root: nat, lo: nat, hi: nat, f: nat, v: nat, n: nat)
    requires f in s.info
  {
    && Tree(t, root, lo, hi)
    && (forall g :: g in s.info ==> g in t.info && t.info[g] == s.info[g])
    && (forall g :: g in s.mem && !Under(s, f, g) ==> g in t.mem && t.mem[g] == s.mem[g])
    && (forall g :: g in s.mem ==> g in t.mem)
    && (forall g :: g in t.info && g !in s.info ==> g !in s.mem && t.info[g].lvl < s.info[f].lvl && Under(t, f, g))
    && (forall a: nat :: Covers(s.info[f], a) && !(v <= a < v + n) && (s.info[f].lvl == 4 ==> RootEntry(a, lo, hi)) ==>
                           Walk(t.mem, f, s.info[f].lvl, a) == Walk(s.mem, f, s.info[f].lvl, a))
  }

  lemma ChangedTrans(s: Space, t: Space, u: Space, root: nat, lo: nat, hi: nat, f: nat, v: nat, m: nat, n: nat)
    requires f in s.info && f in t.info
    requires Changed(s, t, root, lo, hi, f, v, m) && Changed(t, u, root, lo, hi, f, v + m, n)
    ensures Changed(s, u, root, lo, hi, f, v, m + n)
  {
    hide PtIndex, Size, EntryBase, Placed, Covers, Walk, TablesOk, EntriesOk, RootEntry;
  }

  // ---- single updates ----

  function SetEntry(s: Space, f: nat, i: nat, pte: Pte): Space
    requires f in s.mem && i < |s.mem[f]|
  {
    s.(mem := s.mem[f := s.mem[f][i := pte]])
  }

  /** Hangs a new zeroed table under entry `i` of `f`. */
  function AddTable(s: Space, f: nat, i: nat, flags: nat, child: nat): Space
    requires f in s.info && f in s.mem && i < |s.mem[f]| && s.info[f].lvl >= 1
  {
    var mem := s.mem[f := s.mem[f][i := Pte(true, false, flags, child)]];
    s.(mem := mem[child := seq(512, _ => ABSENT)], info := s.info[child := Child(s.info[f], i)])
  }

  lemma SetEntryTree(s: Space, root: nat, lo: nat, hi: nat, f: nat, i: nat, pte: Pte)
    requires Tree(s, root, lo, hi) && Mine(s, f, i, lo, hi)
    requires EntryOk(SetEntry(s, f, i, pte), f, i)
    ensures Tree(SetEntry(s, f, i, pte), root, lo, hi)
  {
    hide PtIndex, Size, EntryBase, Placed, Leaf, Link;
    var t := SetEntry(s, f, i, pte);
    assert TablesOk(t, root);
    forall g, j | Mine(t, g, j, lo, hi) ensures EntryOk(t, g, j) {
      assert Mine(s, g, j, lo, hi);
      assert EntryOk(s, g, j);
    }
  }

  /** Writing a leaf (or clearing an entry): only the addresses of that entry change. */
  lemma LeafStep(s: Space, root: nat, lo: nat, hi: nat, f: nat, i: nat, pte: Pte)
    requires Tree(s, root, lo, hi) && Mine(s, f, i, lo, hi)
    requires EntryOk(SetEntry(s, f, i, pte), f, i) && !Link(pte, s.info[f].lvl)
    ensures Changed(s, SetEntry(s, f, i, pte), root, lo, hi, f,
                    EntryBase(s.info[f].base, s.info[f].lvl, i), Size(s.info[f].lvl))
  {
    hide PtIndex, Size, EntryBase, Placed, Covers, Mine, Walk;
    MineIndex(s, f, i, lo, hi);
    var t, n := SetEntry(s, f, i, pte), s.info[f];
    SetEntryTree(s, root, lo, hi, f, i, pte);
    SelfUnder(s, f);
    assert Placed(n);
    forall a: nat | Covers(n, a) && !(EntryBase(n.base, n.lvl, i) <= a < EntryBase(n.base, n.lvl, i) + Size(n.lvl))
                    && (n.lvl == 4 ==> RootEntry(a, lo, hi))
      ensures Walk(t.mem, f, n.lvl, a) == Walk(s.mem, f, n.lvl, a)
    {
      HasEntry(n, a);
      WalkSibling(s, t, root, lo, hi, f, i, a);
    }
  }

  /** What a walk through the written entry finds. */
  lemma LeafWalk(s: Space, f: nat, i: nat, pte: Pte, a: nat)
    requires f in s.info && f in s.mem && |s.mem[f]| == 512 && i < 512 && Placed(s.info[f]) && !Link(pte, s.info[f].lvl)
    requires EntryBase(s.info[f].base, s.info[f].lvl, i) <= a < EntryBase(s.info[f].base, s.info[f].lvl, i)
             + Size(s.info[f].lvl)
    ensures Walk(SetEntry(s, f, i, pte).mem, f, s.info[f].lvl, a)
         == if pte.present then Some(pte.phys + (a - EntryBase(s.info[f].base, s.info[f].lvl, i))) else None
  {
    hide PtIndex, Size, EntryBase;
    PlacedLevel(s.info[f]);
    InEntry(s.info[f], a, i);
  }

  lemma MineIndex(s: Space, f: nat, i: nat, lo: nat, hi: nat)
    requires Mine(s, f, i, lo, hi)
    ensures f in s.info && i < 512
  {}

  lemma SelfUnder(s: Space, f: nat)
    requires f in s.info && Placed(s.info[f])
    ensures Under(s, f, f)
  {}

  /** Changing one entry leaves the walks through the other entries alone. */
  lemma WalkSibling(s: Space, t: Space, root: nat, lo: nat, hi: nat, f: nat, i: nat, a: nat)
    requires Tree(s, root, lo, hi) && f in s.info && Covers(s.info[f], a) && PtIndex(a, s.info[f].lvl) != i
    requires s.info[f].lvl == 4 ==> RootEntry(a, lo, hi)
    requires f in t.mem && |t.mem[f]| == 512 && forall j :: 0 <= j < 512 && j != i ==> t.mem[f][j] == s.mem[f][j]
    requires forall g :: g in s.info && g != f ==> g in t.mem && t.mem[g] == s.mem[g]
    ensures Walk(t.mem, f, s.info[f].lvl, a) == Walk(s.mem, f, s.info[f].lvl, a)
  {
    hide PtIndex, Size, EntryBase, Placed, Covers;
    var n, j := s.info[f], PtIndex(a, s.info[f].lvl);
    assert Placed(n);
    PlacedLevel(n);
    assert Mine(s, f, j, lo, hi) && EntryOk(s, f, j);
    var pte := s.mem[f][j];
    if Link(pte, n.lvl) {
      ChildCovers(n, j, a);
      WalkLocal(s, t.mem, root, lo, hi, pte.phys, a);
    }
  }

  lemma AddTableTree(s: Space, root: nat, lo: nat, hi: nat, f: nat, i: nat, flags: nat, child: nat)
    requires Tree(s, root, lo, hi) && Mine(s, f, i, lo, hi) && s.info[f].lvl > 1
    requires child !in s.mem && child % 0x1000 == 0
    ensures Tree(AddTable(s, f, i, flags, child), root, lo, hi)
  {
    hide PtIndex, Size, EntryBase, Placed, Child;
    var t, n := AddTable(s, f, i, flags, child), s.info[f];
    assert Placed(n);
    PlacedLevel(n);
    ChildPlaced(n, i);
    assert Child(n, i).lvl < 4 by { ChildLevel(n, i); }
    assert TablesOk(t, root);
    forall g, j | Mine(t, g, j, lo, hi) ensures EntryOk(t, g, j) {
      if g != child {
        assert Mine(s, g, j, lo, hi);
        assert EntryOk(s, g, j);
        assert !(g == f && j == i) ==> Entry(t, g, j) == Entry(s, g, j);
      }
    }
  }

  lemma ChildLevel(n: Info, i: nat)
    requires Placed(n)
    ensures Child(n, i).lvl == n.lvl - 1 && Child(n, i).base == EntryBase(n.base, n.lvl, i)
  {}

  lemma ChildUnder(t: Space, f: nat, i: nat, child: nat)
    requires f in t.info && child in t.info && Placed(t.info[f]) && i < 512 && t.info[f].lvl > 1
    requires t.info[child] == Child(t.info[f], i)
    ensures Under(t, f, child)
    ensures forall g :: Under(t, child, g) ==> Under(t, f, g)
  {
    hide Size;
    var n := t.info[f];
    SizeUp(n.lvl);
    EntryEnd(Size(n.lvl), i);
    MulNonNeg(i, Size(n.lvl));
  }

  /** A new empty table changes no translation. */
  lemma AddTableStep(s: Space, root: nat, lo: nat, hi: nat, f: nat, i: nat, flags: nat, child: nat, v: nat)
    requires Tree(s, root, lo, hi) && Mine(s, f, i, lo, hi) && s.info[f].lvl > 1
    requires child !in s.mem && child % 0x1000 == 0 && !Entry(s, f, i).present
    ensures Changed(s, AddTable(s, f, i, flags, child), root, lo, hi, f, v, 0)
  {
    hide PtIndex, Size, EntryBase, Placed, Covers, Mine, Child, Under;
    MineIndex(s, f, i, lo, hi);
    var t, n := AddTable(s, f, i, flags, child), s.info[f];
    AddTableTree(s, root, lo, hi, f, i, flags, child);
    assert Placed(n);
    PlacedLevel(n);
    SelfUnder(s, f);
    ChildUnder(t, f, i, child);
    ChildLevel(n, i);
    forall a: nat | Covers(n, a) && (n.lvl == 4 ==> RootEntry(a, lo, hi))
      ensures Walk(t.mem, f, n.lvl, a) == Walk(s.mem, f, n.lvl, a)
    {
      if PtIndex(a, n.lvl) == i {
        WalkEmpty(t.mem, child, n.lvl - 1, a);
      } else {
        WalkSibling(s, t, root, lo, hi, f, i, a);
      }
    }
  }

  lemma WalkEmpty(mem: Tables, f: nat, lvl: nat, a: nat)
    requires f in mem && mem[f] == seq(512, _ => ABSENT)
    ensures Walk(mem, f, lvl, a) == None
  {}

  /** What changed under a child changed under its parent. */
  lemma ChildStep(s: Space, t: Space, root: nat, lo: nat, hi: nat, f: nat, i: nat, child: nat, v: nat, n: nat)
    requires Tree(s, root, lo, hi) && Mine(s, f, i, lo, hi) && s.info[f].lvl > 1
    requires Link(Entry(s, f, i), s.info[f].lvl) && Entry(s, f, i).phys == child
    requires child in s.info && Changed(s, t, root, lo, hi, child, v, n)
    ensures Changed(s, t, root, lo, hi, f, v, n)
    ensures Entry(t, f, i) == Entry(s, f, i)
  {
    hide PtIndex, Size, EntryBase, Placed, Covers, Child, Walk, Under;
    var m := s.info[f];
    assert Placed(m) && Mine(s, f, i, lo, hi) && EntryOk(s, f, i);
    assert s.info[child] == Child(m, i);
    PlacedLevel(m);
    ChildLevel(m, i);
    ChildUnder(s, f, i, child);
    ChildUnder(t, f, i, child);
    NotUnder(s, child, f);
    assert t.mem[f] == s.mem[f];
    forall a: nat | Covers(m, a) && !(v <= a < v + n) && (m.lvl == 4 ==> RootEntry(a, lo, hi))
      ensures Walk(t.mem, f, m.lvl, a) == Walk(s.mem, f, m.lvl, a)
    {
      ChildCovers(m, i, a);
      if PtIndex(a, m.lvl) == i {
        WalkThrough(s.mem, f, m.lvl, a);
        WalkThrough(t.mem, f, m.lvl, a);
      } else {
        WalkAside(s, t, root, lo, hi, f, i, child, a);
      }
    }
  }

  lemma NotUnder(s: Space, f: nat, g: nat)
    requires f in s.info && g in s.info && s.info[f].lvl < s.info[g].lvl
    ensures !Under(s, f, g)
  {}

  lemma WalkThrough(mem: Tables, f: nat, lvl: nat, a: nat)
    requires lvl > 0 && f in mem && |mem[f]| == 512 && Link(mem[f][PtIndex(a, lvl)], lvl)
    ensures Walk(mem, f, lvl, a) == Walk(mem, mem[f][PtIndex(a, lvl)].phys, lvl - 1, a)
  {}

  lemma WalkAside(s: Space, t: Space, root: nat, lo: nat, hi: nat, f: nat, i: nat, child: nat, a: nat)
    requires Tree(s, root, lo, hi) && f in s.info && i < 512 && Covers(s.info[f], a) && PtIndex(a, s.info[f].lvl) != i
    requires s.info[f].lvl == 4 ==> RootEntry(a, lo, hi)
    requires s.info[f].lvl > 1 && child in s.info && s.info[child] == Child(s.info[f], i)
    requires forall g :: g in s.mem && !Under(s, child, g) ==> g in t.mem && t.mem[g] == s.mem[g]
    ensures Walk(t.mem, f, s.info[f].lvl, a) == Walk(s.mem, f, s.info[f].lvl, a)
  {
    hide PtIndex, Size, EntryBase, Placed, Covers, Child, Under;
    var n := s.info[f];
    assert Placed(n);
    ChildCovers(n, i, a);
    forall g | g in s.info && Covers(s.info[g], a) && s.info[g].lvl <= n.lvl
      ensures g in t.mem && t.mem[g] == s.mem[g]
    {
      if Under(s, child, g) { UnderCovers(s, child, g, a); }
    }
    WalkLocal(s, t.mem, root, lo, hi, f, a);
  }

  /** A table under `f` covers only addresses that `f` covers. */
  lemma UnderCovers(s: Space, f: nat, g: nat, a: nat)
    requires f in s.info && g in s.info && Placed(s.info[f]) && Placed(s.info[g])
    requires Under(s, f, g) && Covers(s.info[g], a)
    ensures Covers(s.info[f], a)
  {
    hide Size;
    var j, k := s.info[g].lvl + 1, s.info[f].lvl + 1;
    SizeDivides(j, k, s.info[f].base);
    MultipleSum(Size(j), s.info[f].base, Size(k));
    MultiplesApart(Size(j), s.info[g].base, s.info[f].base + Size(k));
  }

  lemma SizeDivides(j: nat, k: nat, x: nat)
    requires 1 <= j <= k <= 5 && x % Size(k) == 0
    ensures x % Size(j) == 0 && Size(k) % Size(j) == 0
    decreases k - j
  {
    if j < k {
      SizeUp(k - 1);
      MultipleFactor(x, Size(k - 1), 512);
      SizeDivides(j, k - 1, x);
      Multiple(Size(k - 1), 512);
      MultipleFactor(Size(k), Size(k - 1), 512);
      SizeDivides(j, k - 1, Size(k));
    }
  }

  // ---- the loop arithmetic, on 64-bit words ----

  function Min(a: nat, b: nat): nat {
    if a < b then a else b
  }

  /** `MIN(size, eend - virt)` with `eend = (virt + esize) & ~emask`, every step modulo 2^64. */
  function Chunk(virt: nat, size: nat, lvl: nat): nat {
    var next := (virt + Size(lvl)) % W;
    var eend := next - next % Size(lvl);
    Min(size, (eend - virt) % W)
  }

  /** The chunk runs to the end of the entry, also where `virt + esize` wraps to zero. */
  lemma ChunkIs(virt: nat, size: nat, lvl: nat)
    requires virt < W && 1 <= lvl <= 4
    ensures Chunk(virt, size, lvl) == Min(size, Size(lvl) - virt % Size(lvl))
    ensures virt % TOP % Size(lvl) == virt % Size(lvl)
  {
    hide Size;
    SizeDivides(lvl, 5, 0);
    SizeTop();
    Multiple(Size(lvl), 0x1_0000);
    WordParts(virt, Size(lvl), TOP / Size(lvl), 0x1_0000, (virt + Size(lvl)) % W);
    LowPart(virt, Size(lvl), TOP / Size(lvl));
  }

  lemma LowPart(virt: nat, e: nat, c: nat)
    requires e > 0 && c > 0 && e * c == TOP
    ensures virt % TOP % e == virt % e
  {
    var q := virt / TOP;
    assert virt - virt % TOP == e * (c * q) by { assert (e * c) * q == e * (c * q); }
    Multiple(e, c * q);
    ModStep(virt, virt % TOP, e);
  }

  lemma SizeTop()
    ensures Size(5) == TOP && forall lvl :: 1 <= lvl <= 4 ==> Size(lvl) < TOP
  {}

  lemma ModStep(a: nat, b: nat, e: nat)
    requires e > 0 && b <= a && (a - b) % e == 0
    ensures a % e == b % e
  {
    var q, r, p := b / e, b % e, (a - b) / e;
    assert a == e * (q + p) + r by { assert e * (q + p) == e * q + e * p; }
    DivUnique(a, e, q + p, r);
  }

  lemma WordParts(virt: nat, e: nat, c: nat, k: nat, next: nat)
    requires e > 0 && virt < W && e * c * k == W && e < W && next < W
    requires next == virt + e || next == virt + e - W
    ensures (next - next % e - virt) % W == e - virt % e
  {
    var q, r := virt / e, virt % e;
    var p := e * (q + 1);
    assert virt + e == p + r;
    NextPart(e, c, k, q, r, next);
    WordSum(next - r, r, e, next, virt);
  }

  lemma NextPart(e: nat, c: nat, k: nat, q: nat, r: nat, next: nat)
    requires e > 0 && r < e && e * c * k == W
    requires next == e * (q + 1) + r || next == e * (q + 1) + r - W
    ensures next % e == r
  {
    if next == e * (q + 1) + r { DivUnique(next, e, q + 1, r); } else { WrapParts(e, c, k, q, r); }
  }

  lemma WordSum(p: int, r: nat, e: nat, next: nat, virt: nat)
    requires next == p + r && r < e < W && virt < W && (virt + e == next || virt + e == next + W)
    ensures (next - r - virt) % W == e - r
  {}

  lemma WrapParts(e: nat, c: nat, k: nat, q: nat, r: nat)
    requires e > 0 && r < e && e * c * k == W
    ensures (e * (q + 1) + r - W) % e == r
  {
    var n := c * k;
    assert e * n == W by { assert e * c * k == e * (c * k); }
    assert e * (q + 1 - n) == e * (q + 1) - e * n;
    DivUnique(e * (q + 1) + r - W, e, q + 1 - n, r);
  }

  /** Advancing by one chunk stays in entry `i`, and the loop bound `to` is met exactly when
      the range is exhausted. */
  lemma Advance(n: Info, v: nat, size: nat, m: nat)
    requires Placed(n) && size > 0 && n.base <= v && v + size <= n.base + Size(n.lvl + 1)
    requires m == Min(size, Size(n.lvl) - v % Size(n.lvl))
    ensures Covers(n, v) && Covers(n, v + size - 1) && 0 < m <= size
    ensures var i, to := PtIndex(v, n.lvl), PtIndex(v + size - 1, n.lvl) + 1;
            && i < to <= 512
            && EntryBase(n.base, n.lvl, i) <= v && v + m <= EntryBase(n.base, n.lvl, i) + Size(n.lvl)
            && (m == Size(n.lvl) ==> v == EntryBase(n.base, n.lvl, i))
            && (m == size ==> i + 1 == to)
            && (m < size ==> PtIndex(v + m, n.lvl) == i + 1 < to)
            && (forall a :: v <= a < v + m ==> Covers(n, a) && PtIndex(a, n.lvl) == i)
            && v % Size(n.lvl) == v - EntryBase(n.base, n.lvl, i)
  {
    hide PtIndex, Size;
    var e, i := Size(n.lvl), PtIndex(v, n.lvl);
    var j := PtIndex(v + size - 1, n.lvl);
    HasEntry(n, v);
    HasEntry(n, v + size - 1);
    InEntry(n, v, i);
    if j < i { EntryOrder(e, j, i); }
    if m < size {
      EntryNext(n, i);
      InEntry(n, v + m, i + 1);
    } else if i < j {
      EntryOrder(e, i, j);
    }
    forall a | v <= a < v + m ensures Covers(n, a) && PtIndex(a, n.lvl) == i {
      InEntry(n, a, i);
    }
  }

  lemma EntryNext(n: Info, i: nat)
    ensures EntryBase(n.base, n.lvl, i + 1) == EntryBase(n.base, n.lvl, i) + Size(n.lvl)
  {
    hide Size;
    assert (i + 1) * Size(n.lvl) == i * Size(n.lvl) + Size(n.lvl);
  }

  lemma IndexLow(a: nat, lvl: nat)
    requires 1 <= lvl <= 4
    ensures PtIndex(a, lvl) == PtIndex(a % TOP, lvl)
  {
    hide Size;
    SizeDivides(lvl + 1, 5, 0);
    SizeUp(lvl);
    SizeTop();
    IndexParts512(Size(lvl), TOP / Size(lvl + 1), a / TOP, a % TOP, a);
  }

  lemma IndexParts512(e: nat, c: nat, q: nat, b: nat, a: nat)
    requires e > 0 && a == (512 * e) * c * q + b
    ensures a / e % 512 == b / e % 512
  {
    var u, w := b / e, c * q;
    assert a == e * (512 * w + u) + b % e by {
      assert (512 * e) * c * q == (512 * e) * w;
      assert (512 * e) * w == e * (512 * w);
      assert e * (512 * w + u) == e * (512 * w) + e * u;
    }
    DivUnique(a, e, 512 * w + u, b % e);
  }

  // ---- pt_addr ----

  function Shift(lvl: nat): nat {
    if lvl == 0 then 0
    else if lvl == 1 then 12
    else if lvl == 2 then 21
    else if lvl == 3 then 30
    else if lvl == 4 then 39
    else 48
  }

  lemma SizeIsPow2(lvl: nat)
    requires lvl <= 5
    ensures Size(lvl) == Pow2(Shift(lvl))
  {
    assert Pow2(12) == 0x1000;
    assert Pow2(21) == 0x20_0000;
    assert Pow2(30) == 0x4000_0000;
    assert Pow2(39) == 0x80_0000_0000;
    assert Pow2(48) == 0x1_0000_0000_0000;
  }

  lemma WalkAligned(s: Space, root: nat, lo: nat, hi: nat, f: nat, a: nat)
    requires Tree(s, root, lo, hi) && f in s.info && Covers(s.info[f], a % TOP) && 1 <= s.info[f].lvl <= 4
    requires s.info[f].lvl == 4 ==> RootEntry(a, lo, hi)
    ensures f in s.mem && |s.mem[f]| == 512
    ensures var n, pte := s.info[f], s.mem[f][PtIndex(a, s.info[f].lvl)];
            && (Leaf(pte, n.lvl) ==> pte.phys % Size(n.lvl) == 0 && (pte.large ==> n.lvl != 1))
            && (Link(pte, n.lvl) ==> n.lvl > 1 && pte.phys in s.info && s.info[pte.phys].lvl == n.lvl - 1
                                     && Covers(s.info[pte.phys], a % TOP))
  {
    hide Size, EntryBase, Placed, Covers;
    var n, i := s.info[f], PtIndex(a, s.info[f].lvl);
    assert Placed(n);
    assert Mine(s, f, i, lo, hi) && EntryOk(s, f, i);
    IndexLow(a, n.lvl);
    if Link(s.mem[f][i], n.lvl) { ChildCovers(n, i, a % TOP); }
  }

  lemma AddrParts(phys: nat, addr: nat, lvl: nat)
    requires 1 <= lvl <= 4 && phys % Size(lvl) == 0
    ensures Or(phys, And(addr, Size(lvl) - 1)) == phys + addr % Size(lvl)
  {
    SizeIsPow2(lvl);
    AndLow(addr, Shift(lvl));
    OrLow(phys, addr % Size(lvl), Shift(lvl));
  }

  /** pt_addr: zero where nothing is mapped, otherwise the frame with the page offset or-ed in. */
  method PtAddr(mem: Tables, pml4: nat, addr: nat, ghost info: map<nat, Info>, ghost lo: nat, ghost hi: nat)
    returns (r: nat)
    requires Tree(Space(mem, info), pml4, lo, hi) && RootEntry(addr, lo, hi)
    ensures r == match Walk(mem, pml4, 4, addr) case None => 0 case Some(p) => p
  {
    hide Size, PtIndex, Tree, EntryBase, Placed, Covers, Or, And;
    ghost var s := Space(mem, info);
    var mask := TOP - 1;
    var phys, pt := pml4, pml4;
    var i: nat := 4;
    PtAddrStarts(s, pml4, lo, hi, addr);
    while i != 0
      invariant i <= 4 && mask >= 0
      invariant i != 0 ==> pt in info && info[pt].lvl == i && Covers(info[pt], addr % TOP)
      invariant i != 0 ==> mask == Size(i + 1) - 1 && Walk(mem, pml4, 4, addr) == Walk(mem, pt, i, addr)
      invariant i == 0 ==> Walk(mem, pml4, 4, addr) == Some(Or(phys, And(addr, mask)))
    {
      WalkAligned(s, pml4, lo, hi, pt, addr);
      var pte := mem[pt][PtIndex(addr, i)];
      if !pte.present {
        return 0;
      }
      phys := pte.phys;
      pt := phys;
      SizeUp(i);
      mask := mask / 512;
      if pte.large || i == 1 { AddrParts(phys, addr, i); }
      if pte.large { break; }
      i := i - 1;
    }
    r := Or(phys, And(addr, mask));
  }

  lemma PtAddrStarts(s: Space, root: nat, lo: nat, hi: nat, addr: nat)
    requires Tree(s, root, lo, hi)
    ensures root in s.info && s.info[root].lvl == 4 && Covers(s.info[root], addr % TOP) && Size(5) == TOP
  {}
}
