/** What a user program may do with an address (section 4.6 of the Intel SDM, Volume 3A): every entry
    of the walk must allow it. */
module Access {
  import opened Bits
  import opened BuddyZone
  import opened Paging
  import opened EntryFlags
  import opened UserTree
  import opened UserSweep
  import opened UnmapRange
  import opened UserFrames
  import opened Vmas
  import opened Regions

  /** Every entry of the walk is there and has the flag. */
  predicate Allows(mem: Tables, f: nat, lvl: nat, a: nat, bit: nat)
    decreases lvl
  {
    f in mem && |mem[f]| == 512 && lvl > 0
    && var pte := mem[f][PtIndex(a, lvl)];
    && pte.present && And(pte.flags, bit) != 0
    && (Leaf(pte, lvl) || Allows(mem, pte.phys, lvl - 1, a, bit))
  }

  /** The entries that lead to tables of the user half allow everything; what is allowed rests with the leaves. */
  ghost predicate LinksOpen(s: Space) {
    forall g, i :: Mine(s, g, i, LO, HI) && Link(Entry(s, g, i), s.info[g].lvl) ==> Entry(s, g, i).flags == PDE_FLAGS
  }

  lemma OpenWritten(s: Space, t: Space, flags: nat)
    requires LinksOpen(s) && Written(s, t, flags)
    ensures LinksOpen(t)
  {
    hide Entry;
    forall g, i | Mine(t, g, i, LO, HI) && Link(Entry(t, g, i), t.info[g].lvl)
      ensures Entry(t, g, i).flags == PDE_FLAGS {
      if g in s.info && Entry(t, g, i) == Entry(s, g, i) { assert Mine(s, g, i, LO, HI); }
    }
  }

  lemma OpenFades(s: Space, t: Space)
    requires LinksOpen(s) && Fades(s.mem, t.mem) && forall g :: g in t.info ==> g in s.info && t.info[g] == s.info[g]
    ensures LinksOpen(t)
  {
    forall g, i | Mine(t, g, i, LO, HI) && Link(Entry(t, g, i), t.info[g].lvl)
      ensures Entry(t, g, i).flags == PDE_FLAGS {
      assert Mine(s, g, i, LO, HI) && Entry(t, g, i) == Entry(s, g, i);
    }
  }

  lemma OpenSame(s: Space, t: Space)
    requires LinksOpen(s) && t.info == s.info
    requires forall g :: g in s.info ==> g in s.mem && g in t.mem && t.mem[g] == s.mem[g]
    ensures LinksOpen(t)
  {
    forall g, i | Mine(t, g, i, LO, HI) && Link(Entry(t, g, i), t.info[g].lvl)
      ensures Entry(t, g, i).flags == PDE_FLAGS {
      assert Mine(s, g, i, LO, HI) && Entry(t, g, i) == Entry(s, g, i);
    }
  }

  lemma OpenEmpty(s: Space, root: nat, busy: set<Block>)
    requires User(s, root, LO, HI, busy) && Emptied(s, root, LO, HI)
    ensures LinksOpen(s)
  {
    UserIsTree(s, root, busy);
    UserHung(s, root, busy);
    hide User, Tree, Hung, Entry;
    forall g, i | Mine(s, g, i, LO, HI) ensures !Link(Entry(s, g, i), s.info[g].lvl) {
      if g in s.info { NothingLeft(s, root, LO, HI, g); }
    }
  }

  /** Where an address is translated, the leaf alone decides. */
  lemma {:induction false} LeafDecides(s: Space, root: nat, f: nat, a: nat, bit: nat) returns (g: nat, i: nat)
    requires Tree(s, root, LO, HI) && LinksOpen(s) && f in s.info && Covers(s.info[f], a)
    requires s.info[f].lvl == 4 ==> RootEntry(a, LO, HI)
    requires Walk(s.mem, f, s.info[f].lvl, a).Some? && And(PDE_FLAGS, bit) != 0
    ensures HasLeaf(s, g, i, LO, HI) && InLeaf(s, g, i, a)
    ensures Allows(s.mem, f, s.info[f].lvl, a, bit) <==> And(Entry(s, g, i).flags, bit) != 0
    decreases s.info[f].lvl
  {
    hide PtIndex, Size, Placed, EntryBase, Covers, And;
    var n := s.info[f];
    g, i := f, PtIndex(a, n.lvl);
    assert Placed(n) && |s.mem[f]| == 512;
    PlacedLevel(n);
    assert Mine(s, f, i, LO, HI) && EntryOk(s, f, i);
    var pte := s.mem[f][i];
    if Link(pte, n.lvl) {
      ChildCovers(n, i, a);
      assert pte == Entry(s, f, i);
      g, i := LeafDecides(s, root, pte.phys, a, bit);
    } else {
      HasEntry(n, a);
    }
  }

  lemma NotTranslated(mem: Tables, f: nat, lvl: nat, a: nat, bit: nat)
    requires Walk(mem, f, lvl, a) == None
    ensures !Allows(mem, f, lvl, a, bit)
    decreases lvl
  {
    hide PtIndex, And;
  }

  /** In a space whose regions and tables agree a program may use exactly the addresses of its regions,
      and write exactly those whose region has the permission that user_flags tests. */
  lemma RegionRights(s: Space, root: nat, list: seq<Vma>, a: nat)
    requires Tree(s, root, LO, HI) && LinksOpen(s) && Sorted(list) && Backed(s, root, list) && LeavesIn(s, list)
    requires a < HALF
    ensures Allows(s.mem, root, 4, a, PTE_USER) <==> Mapped(list, a)
    ensures Allows(s.mem, root, 4, a, PTE_WRITE) <==>
            exists k :: 0 <= k < |list| && list[k].begin <= a < list[k].end && And(list[k].perm, ACCESS_WRITE) != 0
  {
    hide *;
    BackedAt(s, root, list, a);
    TranslateIs(s, root, a);
    if Walk(s.mem, root, 4, a).Some? {
      UserCovers(s, root, a);
      Bits2();
      var g, i := LeafDecides(s, root, root, a, PTE_USER);
      LeafAddress(s, g, i, a);
      var k := RegionOf(s, list, g, i);
      InRegionIs(s, g, i, list[k]);
      FlagBits(list[k].perm);
      var h, j := LeafDecides(s, root, root, a, PTE_WRITE);
      LeafAddress(s, h, j, a);
      var n := RegionOf(s, list, h, j);
      InRegionIs(s, h, j, list[n]);
      FlagBits(list[n].perm);
      forall m | 0 <= m < |list| && list[m].begin <= a < list[m].end ensures m == n { OneRegion(list, m, n, a); }
    } else {
      NotTranslated(s.mem, root, 4, a, PTE_USER);
      NotTranslated(s.mem, root, 4, a, PTE_WRITE);
      NotMapped(list, a);
    }
  }

  lemma BackedAt(s: Space, root: nat, list: seq<Vma>, a: nat)
    requires Backed(s, root, list) && a < HALF
    ensures Translate(s, root, a).Some? <==> Mapped(list, a)
  {}

  lemma NotMapped(list: seq<Vma>, a: nat)
    requires !Mapped(list, a)
    ensures forall k :: 0 <= k < |list| ==> !(list[k].begin <= a < list[k].end)
  {}

  lemma LeafAddress(s: Space, g: nat, i: nat, a: nat)
    requires InLeaf(s, g, i, a)
    ensures g in s.info && EntryBase(s.info[g].base, s.info[g].lvl, i) <= a
    ensures a < EntryBase(s.info[g].base, s.info[g].lvl, i) + Size(s.info[g].lvl)
  {}

  lemma Bits2()
    ensures And(PDE_FLAGS, PTE_USER) != 0 && And(PDE_FLAGS, PTE_WRITE) != 0
  {}

  lemma FlagBits(perm: nat)
    ensures And(UserFlags(perm), PTE_USER) != 0
    ensures And(UserFlags(perm), PTE_WRITE) != 0 <==> And(perm, ACCESS_WRITE) != 0
  {
    assert And(5, 4) != 0 && And(7, 4) != 0 && And(5, 2) == 0 && And(7, 2) != 0;
  }

  /** That is the permission to read: a page can be written exactly as its region permits if and only if
      the region permits both reading and writing or neither. */
  lemma WriteRight(perm: nat)
    ensures (And(UserFlags(perm), PTE_WRITE) != 0 <==> And(perm, PERM_WRITE) != 0) <==>
            (And(perm, PERM_READ) != 0 <==> And(perm, PERM_WRITE) != 0)
    ensures And(PERM_READ, PERM_WRITE) == 0 && And(UserFlags(PERM_READ), PTE_WRITE) != 0
  {
    FlagBits(perm);
    FlagBits(PERM_READ);
  }
}
