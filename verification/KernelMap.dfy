/** The boot-time mapping of paging.c (__pt_map_to): every translation the mapping was asked
    for, and no other, is put in place. */
module KernelMap {
  import opened Bits
  import opened Paging
  import opened MapLoop
  import opened LargeLeaves
  import opened EntryFlags

  lemma LeafAligned(lvl: nat, phys: nat)
    requires 1 <= lvl && PageAligned(phys) && (lvl == 1 || phys % Size(lvl) == 0)
    ensures phys % Size(lvl) == 0
  {}

  lemma LinearSum(phys: nat, n: nat)
    requires PageAligned(phys) && (n == 0 || PageAligned(n))
    ensures PageAligned(phys + n) && GoalAligned(Linearly(phys)) && Past(Linearly(phys), n) == Linearly(phys + n)
  {
    if n > 0 { AlignedSum(phys, n, n); }
  }

  /** The tables in memory and the frames the bootstrap allocator can still hand out. */
  class KernelTables {
    var mem: Tables
    var early: set<nat>
    ghost var info: map<nat, Info>

    ghost predicate Ok()
      reads this
    {
      forall c :: c in early ==> c !in mem && PageAligned(c)
    }

    ghost function View(): Space
      reads this
    {
      Space(mem, info)
    }

    /** pt_early_alloc: a zeroed frame, or the failure hang. */
    method EarlyAlloc() returns (hung: bool, phys: nat)
      requires Ok()
      modifies this
      ensures Ok() && info == old(info)
      ensures hung ==> old(early) == {} == early && mem == old(mem)
      ensures !hung ==> phys in old(early) && early == old(early) - {phys}
      ensures !hung ==> phys !in old(mem) && PageAligned(phys) && mem == old(mem)[phys := seq(512, _ => ABSENT)]
    {
      phys := 0;
      hung := early == {};
      if !hung {
        phys :| phys in early;
        early := early - {phys};
        mem := mem[phys := seq(512, _ => ABSENT)];
      }
    }

    /** `pte = pt_early_alloc() | pde_flags; pt[i] = pte`. */
    method HangTable(f: nat, i: nat) returns (hung: bool, pte: Pte)
      requires Ok() && f in mem && i < |mem[f]| && f in info && info[f].lvl >= 1
      modifies this
      ensures Ok() && early <= old(early) && (hung ==> early == {})
      ensures !hung ==> pte == Pte(true, false, PDE_FLAGS, pte.phys) && pte.phys !in old(mem) && PageAligned(pte.phys)
      ensures !hung ==> View() == AddTable(old(View()), f, i, PDE_FLAGS, pte.phys) && Entry(View(), f, i) == pte
    {
      hide PageAligned, Child, Size;
      ghost var s := View();
      var child;
      hung, child := EarlyAlloc();
      pte := Pte(true, false, PDE_FLAGS, child);
      if !hung {
        mem := mem[f := mem[f][i := pte]];
        info := info[child := Child(info[f], i)];
        AddTableIs(s, View(), f, i, PDE_FLAGS, child);
      }
    }

    /** __pt_map_to: large leaves where alignment and size allow, tables elsewhere. */
    method MapTo(ghost root: nat, ghost lo: nat, ghost hi: nat, f: nat, virt0: nat, size0: nat, phys0: nat,
                 flags: nat, lvl: nat)
      returns (hung: bool)
      requires Ok() && Tree(View(), root, lo, hi) && f in info && info[f].lvl == lvl
      requires virt0 < W && 0 < size0 && PageAligned(virt0 % TOP) && PageAligned(size0) && PageAligned(phys0)
      requires InTable(View(), lo, hi, f, virt0 % TOP, size0) && Unmapped(View(), f, virt0 % TOP, size0)
      modifies this
      ensures Ok() && early <= old(early) && (hung ==> early == {})
      ensures !hung ==> MapState(old(View()), View(), root, lo, hi, f, virt0 % TOP, size0, Linearly(phys0))
      ensures !hung ==> Sparing(old(info), info, old(info[f]), virt0 % TOP, size0, Linearly(phys0), {})
      ensures !hung ==> Written(old(View()), View(), flags)
      decreases lvl, 1
    {
      hide Loop, MapState, Chunk, PtIndex, Size, Tree, InTable, Unmapped, Words, PageAligned, Walk, AddTable;
      hide SetEntry, Child, AtEntry, Mine, Link, EntryBase, Min, Plus, Last, Sparing, OnBorder, Written;
      ghost var s0, v := View(), virt0 % TOP;
      WrittenSelf(s0, flags);
      ghost var n: nat := 0;
      var virt: nat, size: nat, phys: nat := virt0, size0, phys0;
      var i := PtIndex(virt, lvl);
      var to := PtIndex(Last(virt, size), lvl) + 1;
      LinearSum(phys0, 0);
      LoopStarts(s0, root, lo, hi, f, virt0, size0, Linearly(phys0));
      SparingStarts(info, info[f], v, size0, Linearly(phys0), {});
      while i != to
        invariant i <= to && Ok() && early <= old(early)
        invariant Loop(s0, View(), root, lo, hi, f, v, size0, Linearly(phys0), n, i)
        invariant Words(virt0, size0, n, virt, size) && phys == phys0 + n
        invariant Written(s0, View(), flags)
        invariant Sparing(s0.info, info, s0.info[f], v, size0, Linearly(phys0), {}) && OnBorder(v, n, size0, lvl)
      {
        LoopWords(s0, View(), root, lo, hi, f, virt0, size0, Linearly(phys0), n, i, virt, size);
        var tomap := Chunk(virt, size, lvl);
        ghost var s := View();
        LoopChunk(s0, View(), root, lo, hi, f, v, size0, Linearly(phys0), n, i, tomap);
        hung := MapEntry(root, lo, hi, f, i, virt, tomap, phys, flags, lvl, s0, v, size0, phys0, n);
        if hung { return; }
        WrittenTrans(s0, s, View(), flags);
        WordsNext(virt0, size0, n, virt, size, tomap);
        BorderNext(v, n, size0, lvl, tomap);
        n := n + tomap;
        virt := Plus(virt, tomap);
        phys := phys + tomap;
        size := size - tomap;
        i := i + 1;
      }
      LoopWords(s0, View(), root, lo, hi, f, virt0, size0, Linearly(phys0), n, i, virt, size);
      LoopDone(s0, View(), root, lo, hi, f, v, size0, Linearly(phys0), n, i);
      hung := false;
    }

    /** The body of that loop: `tomap` bytes through entry `i`. */
    method MapEntry(ghost root: nat, ghost lo: nat, ghost hi: nat, f: nat, i: nat, virt: nat, tomap: nat, phys: nat,
                    flags: nat, lvl: nat,
                    ghost s0: Space, ghost v: nat, ghost size: nat, ghost phys0: nat, ghost n: nat)
      returns (hung: bool)
      requires Ok() && f in s0.info && s0.info[f].lvl == lvl
      requires Loop(s0, View(), root, lo, hi, f, v, size, Linearly(phys0), n, i) && n < size
      requires tomap == Min(size - n, Size(lvl) - (v + n) % Size(lvl)) && phys == phys0 + n
      requires virt < W && virt % TOP == v + n && virt % Size(lvl) == (v + n) % Size(lvl)
      requires Sparing(s0.info, info, s0.info[f], v, size, Linearly(phys0), {}) && OnBorder(v, n, size, lvl)
      modifies this
      ensures Ok() && early <= old(early) && (hung ==> early == {})
      ensures !hung ==> Loop(s0, View(), root, lo, hi, f, v, size, Linearly(phys0), n + tomap, i + 1)
      ensures !hung ==> Sparing(s0.info, info, s0.info[f], v, size, Linearly(phys0), {})
      ensures !hung ==> Written(old(View()), View(), flags)
      decreases lvl, 0
    {
      hide Loop, MapState, Chunk, PtIndex, Size, Tree, InTable, Unmapped, Words, PageAligned, Walk, AddTable;
      hide SetEntry, Child, AtEntry, Mine, Link, EntryBase, Min, Sparing, OnBorder, Placed, Written;
      ghost var s := View();
      WrittenSelf(s, flags);
      LoopChunk(s0, s, root, lo, hi, f, v, size, Linearly(phys0), n, i, tomap);
      LoopParts(s0, s, root, lo, hi, f, v, size, Linearly(phys0), n, i);
      LinearSum(phys0, n);
      MineIndex(s, f, i, lo, hi);
      hung := false;
      var pte := mem[f][i];
      var large := lvl == 3 || lvl == 2;
      var notaligned := virt % Size(lvl) != 0 || phys % Size(lvl) != 0;
      var leaf := lvl == 1 || (large && tomap == Size(lvl) && !notaligned);
      if !pte.present && leaf {
        pte := Pte(true, large, flags, phys);
        LeafAligned(lvl, phys);
        LoopLeaf(s0, s, root, lo, hi, f, v, size, Linearly(phys0), n, i, tomap, pte);
        mem := mem[f := mem[f][i := pte]];
        SetEntryIs(s, View(), f, i, pte);
        WrittenLeaf(s, f, i, pte);
        return;
      }
      if !pte.present {
        hung, pte := HangTable(f, i);
        if hung { return; }
        LoopTable(s0, s, root, lo, hi, f, v, size, Linearly(phys0), n, i, PDE_FLAGS, pte.phys);
        WrittenTable(s, root, lo, hi, f, i, pte.phys, flags);
        SpareTable(s0, s, root, lo, hi, f, v, size, Linearly(phys0), n, i, tomap, PDE_FLAGS, pte.phys, {}, {});
      }
      ghost var t := View();
      LoopDown(s0, t, root, lo, hi, f, v, size, Linearly(phys0), n, i, tomap);
      hung := MapTo(root, lo, hi, pte.phys, virt, tomap, phys, flags, lvl - 1);
      if !hung {
        LoopChild(s0, t, View(), root, lo, hi, f, v, size, Linearly(phys0), n, i, tomap);
        WrittenTrans(s, t, View(), flags);
        SpareChild(s0, t, info, root, lo, hi, f, v, size, Linearly(phys0), n, i, tomap, {}, {});
      }
    }

    /** pt_map_to on the root, in plain terms. */
    method PtMapTo(root: nat, ghost lo: nat, ghost hi: nat, virt: nat, size: nat, phys: nat, flags: nat)
      returns (hung: bool)
      requires Ok() && Tree(View(), root, lo, hi)
      requires virt < W && 0 < size && virt % TOP + size <= TOP
      requires PageAligned(virt % TOP) && PageAligned(size) && PageAligned(phys)
      requires forall a :: virt % TOP <= a < virt % TOP + size ==> RootEntry(a, lo, hi) && Walk(mem, root, 4, a) == None
      modifies this
      ensures Ok() && early <= old(early) && (hung ==> early == {})
      ensures !hung ==> Tree(View(), root, lo, hi)
      ensures !hung ==> forall a :: virt % TOP <= a < virt % TOP + size ==>
                                      Walk(mem, root, 4, a) == Some(phys + (a - virt % TOP))
      ensures !hung ==> forall a :: 0 <= a < TOP && RootEntry(a, lo, hi) && !(virt % TOP <= a < virt % TOP + size) ==>
                                      Walk(mem, root, 4, a) == old(Walk(mem, root, 4, a))
      ensures !hung ==> Sparing(old(info), info, Info(4, 0), virt % TOP, size, Linearly(phys), {})
      ensures !hung ==> Written(old(View()), View(), flags)
    {
      hide PtIndex, Walk, PageAligned, EntriesOk, RootEntry, Sparing, Written;
      hung := MapTo(root, lo, hi, root, virt, size, phys, flags, 4);
      if !hung {
        assert info[root] == old(info)[root] == Info(4, 0);
        forall a: nat | virt % TOP <= a < virt % TOP + size
          ensures Walk(mem, root, 4, a) == Some(phys + (a - virt % TOP)) {
          assert Meets(Walk(mem, root, 4, a), Linearly(phys), a - virt % TOP);
        }
        forall a: nat | 0 <= a < TOP ensures Covers(Info(4, 0), a) {}
      }
    }

    /** paging_setup: all physical memory below `memory` at HIGHER_BASE, and the first two
        gigabytes again at VIRTUAL_BASE, where the range ends at 2^64. */
    method PagingSetup(memory: nat) returns (hung: bool, root: nat)
      requires Ok() && info == map[] && 0 < memory - memory % 0x1000 <= VIRTUAL_BASE - HIGHER_BASE
      modifies this
      ensures Ok() && (hung ==> early == {})
      ensures !hung ==> Tree(View(), root, 256, 512)
      ensures !hung ==> forall a :: HIGHER_BASE % TOP <= a < HIGHER_BASE % TOP + (memory - memory % 0x1000) ==>
                                      Walk(mem, root, 4, a) == Some(a - HIGHER_BASE % TOP)
      ensures !hung ==> forall a :: VIRTUAL_BASE % TOP <= a < TOP ==>
                                      Walk(mem, root, 4, a) == Some(a - VIRTUAL_BASE % TOP)
      ensures !hung ==> forall a :: HIGHER_BASE % TOP + (memory - memory % 0x1000) <= a < VIRTUAL_BASE % TOP ==>
                                      Walk(mem, root, 4, a) == None
      ensures !hung ==> forall c :: c in info && c != root ==> NeededTable(info[c], memory - memory % 0x1000)
      ensures !hung ==> forall f, i :: f in info && Entry(View(), f, i).present ==>
                                         Entry(View(), f, i).flags
                                         == if Leaf(Entry(View(), f, i), info[f].lvl) then PTE_WRITE else PDE_FLAGS
    {
      hide PtIndex, Walk, EntriesOk, RootEntry, Changed, Sparing, NeededTable, Written;
      hung, root := EarlyAlloc();
      if hung { return; }
      info := map[root := Info(4, 0)];
      RootAlone(View(), root, 256, 512);
      ghost var empty := View();
      var e := memory - memory % 0x1000;
      forall a | HIGHER_BASE % TOP <= a < TOP ensures RootEntry(a, 256, 512) && Walk(mem, root, 4, a) == None {
        UpperHalf(a);
        WalkEmpty(mem, root, 4, a);
      }
      ghost var info0 := info;
      hung := PtMapTo(root, 256, 512, HIGHER_BASE, e, 0, PTE_WRITE);
      if hung { return; }
      ghost var info1 := info;
      ghost var once := View();
      forall a | VIRTUAL_BASE % TOP <= a < TOP ensures RootEntry(a, 256, 512) { UpperHalf(a); }
      hung := PtMapTo(root, 256, 512, VIRTUAL_BASE, 2 * GB, 0, PTE_WRITE);
      if !hung {
        SetupTables(info0, info1, info, root, View(), e);
        WrittenTrans(empty, once, View(), PTE_WRITE);
        AllWritten(empty, View(), root, PTE_WRITE);
        forall a | HIGHER_BASE % TOP <= a < HIGHER_BASE % TOP + e
          ensures Walk(mem, root, 4, a) == Some(a - HIGHER_BASE % TOP) {
          UpperHalf(a);
        }
        forall a | HIGHER_BASE % TOP + e <= a < VIRTUAL_BASE % TOP ensures Walk(mem, root, 4, a) == None {
          UpperHalf(a);
        }
      }
    }
  }

  const VIRTUAL_BASE: nat := 0xffff_ffff_8000_0000
  const GB: nat := 0x4000_0000

  /** A third-level table, or a lower one that the end of memory cuts. */
  predicate NeededTable(d: Info, e: nat) {
    || d.lvl == 3
    || (d.lvl in {1, 2} && e % Size(d.lvl + 1) != 0 && d.base == HIGHER_BASE % TOP + (e - e % Size(d.lvl + 1)))
  }

  lemma SetupTables(info0: map<nat, Info>, info1: map<nat, Info>, info2: map<nat, Info>, root: nat, s: Space, e: nat)
    requires info0 == map[root := Info(4, 0)] && Tree(s, root, 256, 512) && s.info == info2
    requires Sparing(info0, info1, Info(4, 0), HIGHER_BASE % TOP, e, Linearly(0), {})
    requires Sparing(info1, info2, Info(4, 0), VIRTUAL_BASE % TOP, 2 * GB, Linearly(0), {})
    ensures forall c :: c in info2 && c != root ==> NeededTable(info2[c], e)
  {
    hide PtIndex, EntriesOk;
    forall c | c in info2 && c != root ensures NeededTable(info2[c], e) {
      if c in info1 { CutTable(info2[c], e); } else { NoCut(info2[c]); }
    }
  }

  lemma CutTable(d: Info, e: nat)
    requires Placed(d) && d.lvl < 4 && Touches(d, HIGHER_BASE % TOP, e)
    requires !Whole(d, HIGHER_BASE % TOP, e, Linearly(0))
    ensures NeededTable(d, e)
  {
    hide Whole, Touches, Placed;
    if d.lvl in {1, 2} { WholeOrCut(d, HIGHER_BASE % TOP, e); }
    PlacedLevel(d);
  }

  lemma NoCut(d: Info)
    requires Placed(d) && d.lvl < 4 && Touches(d, VIRTUAL_BASE % TOP, 2 * GB)
    requires !Whole(d, VIRTUAL_BASE % TOP, 2 * GB, Linearly(0))
    ensures d.lvl == 3
  {
    hide Whole, Touches, Placed;
    PlacedLevel(d);
    if d.lvl in {1, 2} { WholeOrCut(d, VIRTUAL_BASE % TOP, 2 * GB); }
  }

  lemma WholeOrCut(d: Info, v: nat, e: nat)
    requires Placed(d) && d.lvl in {1, 2} && Touches(d, v, e) && v % Size(d.lvl + 1) == 0
    ensures Whole(d, v, e, Linearly(0))
            || (e % Size(d.lvl + 1) != 0 && d.base == v + (e - e % Size(d.lvl + 1)))
  {
    hide Size;
    LastCut(d.base, v, e, Size(d.lvl + 1));
  }

  /** Of the stretches of length `n` that touch [v, v + e) from `v` on, only the last one is not inside. */
  lemma LastCut(b: nat, v: nat, e: nat, n: nat)
    requires n > 0 && v % n == 0 && b % n == 0 && b < v + e && v < b + n
    ensures v <= b && (b - v) % n == 0
    ensures b + n > v + e ==> e % n != 0 && b == v + (e - e % n)
  {
    MultipleSum(n, b, v);
    if b < v { MultiplesApart(n, b, v); }
    if b + n > v + e { DivUnique(e, n, (b - v) / n, e - (b - v)); }
  }

  lemma AllWritten(s: Space, t: Space, root: nat, flags: nat)
    requires s.info.Keys == {root} && root in s.mem && s.mem[root] == seq(512, _ => ABSENT) && Written(s, t, flags)
    ensures forall f, i :: f in t.info && Entry(t, f, i).present ==>
                             Entry(t, f, i).flags == if Leaf(Entry(t, f, i), t.info[f].lvl) then flags else PDE_FLAGS
  {
    forall i ensures !Entry(s, root, i).present {}
  }

  lemma UpperHalf(a: nat)
    requires HIGHER_BASE % TOP <= a < TOP
    ensures RootEntry(a, 256, 512)
  {}

  /** A zeroed root is a tree on its own. */
  lemma RootAlone(s: Space, root: nat, lo: nat, hi: nat)
    requires s.info == map[root := Info(4, 0)] && root in s.mem && s.mem[root] == seq(512, _ => ABSENT)
    ensures Tree(s, root, lo, hi)
  {
    forall f, i | Mine(s, f, i, lo, hi) ensures EntryOk(s, f, i) {
      assert f == root && Entry(s, f, i) == ABSENT;
    }
  }
}
