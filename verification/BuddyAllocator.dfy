/** The alloc, free and setup routines of buddy.c on one zone, and what any mix of them does. */
module BuddyAllocator {
  import opened Bits
  import opened BuddyZone

  datatype Option<T> = None | Some(value: T)

  // ---- the order lists as functions of the calls ----

  /** The first non-empty list at or above order `k`. */
  function FirstOrder(lists: seq<seq<nat>>, k: nat): (c: nat)
    decreases |lists| - k
  {
    if k >= |lists| || lists[k] != [] then k else FirstOrder(lists, k + 1)
  }

  /** Splitting block `h` from order `c` down to order `k` puts each right half on its list. */
  function SplitLists(lists: seq<seq<nat>>, h: nat, c: nat, k: nat): seq<seq<nat>>
    requires k <= c <= |lists|
    decreases c - k
  {
    if c == k then lists else SplitLists(lists[c - 1 := [Buddy(h, c - 1)] + lists[c - 1]], h, c - 1, k)
  }

  function AllocLists(lists: seq<seq<nat>>, k: nat): Option<(nat, seq<seq<nat>>)> {
    var c := FirstOrder(lists, k);
    FirstOrderFacts(lists, k);
    if c >= |lists| then None
    else Some((lists[c][0], SplitLists(lists[c := lists[c][1..]], lists[c][0], c, k)))
  }

  lemma {:induction false} FirstOrderFacts(lists: seq<seq<nat>>, k: nat)
    ensures FirstOrder(lists, k) >= k
    ensures FirstOrder(lists, k) < |lists| ==> lists[FirstOrder(lists, k)] != []
    ensures forall j :: k <= j < FirstOrder(lists, k) && j < |lists| ==> lists[j] == []
    decreases |lists| - k
  {
    if !(k >= |lists| || lists[k] != []) { FirstOrderFacts(lists, k + 1); }
  }

  /** Returning block (h, k): unite while the buddy is on its list, then push. */
  function FreeLists(lists: seq<seq<nat>>, h: nat, k: nat): seq<seq<nat>>
    requires k < |lists|
    decreases |lists| - k
  {
    if k + 1 < |lists| && Buddy(h, k) in lists[k] then
      FreeLists(lists[k := Remove(lists[k], Buddy(h, k))], Parent(h, k).head, k + 1)
    else lists[k := [h] + lists[k]]
  }

  lemma {:induction false} FreeAfterSplit(lists: seq<seq<nat>>, h: nat, c: nat, k: nat)
    requires k <= c < |lists| && Aligned(h, c) && forall j :: k <= j < c ==> lists[j] == []
    ensures |SplitLists(lists, h, c, k)| == |lists|
    ensures FreeLists(SplitLists(lists, h, c, k), h, k) == FreeLists(lists, h, c)
    decreases c - k
  {
    if c > k {
      hide Pow2, Aligned, Xor;
      var b := Buddy(h, c - 1);
      var next := lists[c - 1 := [b] + lists[c - 1]];
      Halves(h, c - 1);
      FreeAfterSplit(next, h, c - 1, k);
      assert next[c - 1] == [b];
      assert Remove([b], b) == [];
      BuddyAbove(h, c - 1);
      assert next[c - 1 := []] == lists;
    }
  }

  lemma BuddyAbove(h: nat, k: nat)
    requires Buddy(h, k) == h + Pow2(k)
    ensures Parent(h, k).head == h
  {}

  /** Allocating a block and returning it leaves every list as it was, element for element. */
  lemma AllocThenFree(z: Zone, k: nat)
    requires Valid(z) && AllocLists(z.lists, k).Some? && k <= MAX_ORDER
    ensures var (h, lists) := AllocLists(z.lists, k).value;
            |lists| == MAX_ORDER + 1 && FreeLists(lists, h, k) == z.lists
  {
    hide Pow2, Aligned, Xor, Inv, Coalesced, FreeWhole, BusyWhole, Owned, HolesClean;
    ValidShape(z);
    FirstOrderFacts(z.lists, k);
    var c := FirstOrder(z.lists, k);
    var h := z.lists[c][0];
    var taken := z.lists[c := z.lists[c][1..]];
    TakeFirst(z, c);
    FreeAfterSplit(taken, h, c, k);
    if c < MAX_ORDER { NoUnmerged(z, Block(h, c)); }
    assert Buddy(h, c) in taken[c] ==> Buddy(h, c) in z.lists[c];
    assert [h] + taken[c] == z.lists[c];
  }

  /** Two states of a zone with the same free pages have the same blocks on every list. */
  lemma Confluence(y: Zone, z: Zone)
    requires Valid(y) && Valid(z) && FreePages(y) == FreePages(z)
    ensures forall k, h :: 0 <= k <= MAX_ORDER ==> (h in y.lists[k] <==> h in z.lists[k])
  {
    ValidShape(y);
    ValidShape(z);
    hide Inv, Maximal, FreePages;
    forall k, h | 0 <= k <= MAX_ORDER ensures h in y.lists[k] <==> h in z.lists[k] {
      Canonical(y, Block(h, k));
      Canonical(z, Block(h, k));
      assert Listed(y, Block(h, k)) <==> Listed(z, Block(h, k));
    }
  }

  /** A natural run of 2^k free pages. */
  ghost predicate FreeRun(ps: set<nat>, h: nat, k: nat) {
    Aligned(h, k) && AllIn(ps, Block(h, k))
  }

  /** The search over the lists finds a block exactly when some natural run is free. */
  lemma SearchComplete(z: Zone, k: nat)
    requires Valid(z)
    ensures FirstOrder(z.lists, k) <= MAX_ORDER <==> k <= MAX_ORDER && exists h :: FreeRun(FreePages(z), h, k)
  {
    hide Pow2, Aligned, Xor, Inv, FreePages, Whole, AllIn;
    ValidShape(z);
    FirstOrderFacts(z.lists, k);
    var c := FirstOrder(z.lists, k);
    if c <= MAX_ORDER {
      var b := Block(z.lists[c][0], c);
      assert Listed(z, b);
      RunInside(z, b, k);
      assert FreeRun(FreePages(z), b.head, k);
    }
    if k <= MAX_ORDER && exists h :: FreeRun(FreePages(z), h, k) {
      var h :| FreeRun(FreePages(z), h, k);
      FullRun(z, h, k);
      assert z.lists[z.owner[h].order] != [];
    }
  }

  lemma RunInside(z: Zone, b: Block, k: nat)
    requires Valid(z) && Listed(z, b) && k <= b.order
    ensures Aligned(b.head, k) && AllIn(FreePages(z), Block(b.head, k))
  {
    hide Xor, Inv, FreePages;
    ListedWhole(z, b);
    AlignedDown(b.head, k, b.order);
    Pow2Monotone(k, b.order);
  }

  predicate Between(p: nat, from: nat, to: nat) {
    from <= p < to
  }

  function Range(from: nat, to: nat): (s: set<nat>)
    ensures forall p :: p in s <==> from <= p < to
  {
    set p: nat | from <= p < to && Between(p, from, to)
  }

  lemma HeldSplit(ps: set<nat>, free: set<nat>, h: nat, c: nat)
    requires 0 < c && Buddy(h, c - 1) == h + Pow2(c - 1) && AllIn(ps, Block(h, c))
    requires free == ps - Pages(Block(h, c))
    ensures free + Pages(Block(Buddy(h, c - 1), c - 1)) == ps - Pages(Block(h, c - 1))
    ensures AllIn(ps, Block(h, c - 1))
  {
    hide Xor;
    forall p: nat
      ensures InBlock(p, Block(h, c)) <==> InBlock(p, Block(h, c - 1)) || InBlock(p, Block(Buddy(h, c - 1), c - 1))
      ensures !(InBlock(p, Block(h, c - 1)) && InBlock(p, Block(Buddy(h, c - 1), c - 1)))
    {
      HalfRanges(h, c - 1, p);
    }
  }

  lemma FreeBuddyTag(z: Zone, h: nat, k: nat)
    requires Inv(z, {Block(h, k)}) && Block(h, k) in z.busy && k < MAX_ORDER
    ensures k < |z.lists| == MAX_ORDER + 1 && |z.page| == z.end - z.begin && z.begin <= h < z.end
    ensures !(z.begin <= Buddy(h, k) < z.end) ==> !Listed(z, Block(Buddy(h, k), k))
    ensures z.begin <= Buddy(h, k) < z.end ==>
              (z.page[Buddy(h, k) - z.begin] == Page(true, k) <==> Listed(z, Block(Buddy(h, k), k)))
  {
    hide Pow2, Aligned, Xor, FreeWhole, BusyWhole, HolesClean, Coalesced, Owned, Listed;
    BusyFacts(z, {Block(h, k)}, Block(h, k));
    if z.begin <= Buddy(h, k) < z.end {
      TagTruth(z, {Block(h, k)}, h, k);
    } else if Listed(z, Block(Buddy(h, k), k)) {
      ListedInZone(z, {Block(h, k)}, Block(Buddy(h, k), k));
    }
  }

  lemma ListedInZone(z: Zone, pending: set<Block>, b: Block)
    requires Inv(z, pending) && Listed(z, b)
    ensures z.begin <= b.head < z.end
  {
    hide Pow2, Aligned, Xor, HolesClean, Coalesced;
  }

  lemma GreedyStart(z: Zone, from: nat, to: nat)
    requires forall p :: from <= p < to ==> p !in z.owner
    requires (from > 0 ==> from - 1 !in z.owner) && to !in z.owner
    ensures Greedy(z, from, from, to) && Range(from, from) == {}
  {}

  lemma RangeGrows(from: nat, p: nat, k: nat)
    requires from <= p
    ensures Range(from, p) + Pages(Block(p, k)) == Range(from, p + Pow2(k))
  {}

  /** The state of a range being handed over from `start`, cut up to page `p`. */
  ghost predicate Cutting(start: Zone, z: Zone, from: nat, p: nat, to: nat) {
    && Valid(z) && z.busy == start.busy
    && z.begin == start.begin <= from <= p <= to <= start.end == z.end
    && (p < to ==> Greedy(z, from, p, to))
    && FreePages(z) == FreePages(start) + Range(from, p)
    && z.owner.Keys == start.owner.Keys + Range(from, p)
  }

  lemma CuttingStarts(z: Zone, from: nat, to: nat)
    requires Valid(z) && z.begin <= from <= to <= z.end
    requires forall p :: from <= p < to ==> p !in z.owner
    requires (from > 0 ==> from - 1 !in z.owner) && to !in z.owner
    ensures Cutting(z, z, from, from, to)
  {
    hide FreePages, Inv;
    GreedyStart(z, from, to);
  }

  lemma CuttingStep(start: Zone, z: Zone, from: nat, p: nat, k: nat, to: nat)
    requires Cutting(start, z, from, p, to) && p < to && CutHere(p, k, to)
    ensures k < |z.lists| && z.begin <= p < z.begin + |z.page| && p + Pow2(k) <= to
    ensures Cutting(start, Give(z, p, k), from, p + Pow2(k), to)
  {
    hide Pow2, Aligned, Xor, Inv, FreePages, Stuck, Listed, Bit, Greedy;
    ValidShape(z);
    CutKeeps(z, from, p, k, to);
    RangeGrows(from, p, k);
    assert FreePages(Give(z, p, k)) == FreePages(start) + Range(from, p + Pow2(k));
  }

  lemma CuttingDone(start: Zone, z: Zone, from: nat, to: nat)
    requires Cutting(start, z, from, to, to)
    ensures Valid(z) && z.busy == start.busy
    ensures FreePages(z) == FreePages(start) + Range(from, to)
    ensures z.owner.Keys == start.owner.Keys + Range(from, to)
  {}

  /** The state of an allocation from `start` that holds (h, c) and still has to reach order `k`. */
  ghost predicate Splitting(start: Zone, z: Zone, h: nat, c: nat, k: nat) {
    && Valid(start) && Valid(z)
    && k <= c <= MAX_ORDER && |z.lists| == MAX_ORDER + 1
    && z.begin == start.begin && z.end == start.end && z.owner.Keys == start.owner.Keys
    && Block(h, c) !in start.busy && z.busy == start.busy + {Block(h, c)}
    && AllIn(FreePages(start), Block(h, c))
    && FreePages(z) == FreePages(start) - Pages(Block(h, c))
    && AllocLists(start.lists, k) == Some((h, SplitLists(z.lists, h, c, k)))
  }

  lemma SplittingStarts(start: Zone, k: nat)
    requires Valid(start) && FirstOrder(start.lists, k) <= MAX_ORDER
    ensures var c := FirstOrder(start.lists, k);
            && c < |start.lists| && start.lists[c] != []
            && start.begin <= start.lists[c][0] < start.begin + |start.page|
            && Splitting(start, Take(start, c), start.lists[c][0], c, k)
  {
    hide Pow2, Aligned, Xor, Inv, FreePages, Listed, Whole, AllIn, Tag, Coalesced, FreeWhole, BusyWhole, Owned;
    hide HolesClean;
    FirstOrderFacts(start.lists, k);
    ValidShape(start);
    var c := FirstOrder(start.lists, k);
    TakeFirst(start, c);
    TakeKeeps(start, c);
    ListedIsFree(start, Block(start.lists[c][0], c));
    ListedWhole(start, Block(start.lists[c][0], c));
  }

  lemma SplittingStep(start: Zone, z: Zone, h: nat, c: nat, k: nat)
    requires Splitting(start, z, h, c, k) && k < c
    ensures z.begin <= Buddy(h, c - 1) < z.begin + |z.page|
    ensures Splitting(start, Split(z, h, c), h, c - 1, k)
  {
    hide Pow2, Aligned, Xor, Inv, FreePages, Listed, Whole, AllIn, Tag, Coalesced, FreeWhole, BusyWhole, Owned;
    hide HolesClean, AllocLists;
    ValidShape(z);
    SplitKeeps(z, h, c);
    SplitHalves(z, h, c);
    HeldSplit(FreePages(start), FreePages(z), h, c);
    NotHeldBefore(start, h, c);
  }

  lemma NotHeldBefore(z: Zone, h: nat, c: nat)
    requires Valid(z) && 0 < c && AllIn(FreePages(z), Block(h, c))
    ensures Block(h, c - 1) !in z.busy
  {
    hide Xor, Aligned, Coalesced;
    HeadInBlock(Block(h, c));
  }

  lemma ListedIsFree(z: Zone, b: Block)
    requires Valid(z) && Listed(z, b)
    ensures b !in z.busy
  {}

  /** The state of returning block (h, k) to `start` once it has grown to (i, c). */
  ghost predicate Returning(start: Zone, z: Zone, h: nat, k: nat, i: nat, c: nat) {
    && Inv(z, {Block(i, c)}) && Block(i, c) in z.busy
    && c <= MAX_ORDER && |z.lists| == MAX_ORDER + 1 == |start.lists| && k <= MAX_ORDER
    && z.begin == start.begin && z.end == start.end && z.owner.Keys == start.owner.Keys
    && z.busy - {Block(i, c)} == start.busy - {Block(h, k)}
    && FreePages(z) + Pages(Block(i, c)) == FreePages(start) + Pages(Block(h, k))
    && FreeLists(z.lists, i, c) == FreeLists(start.lists, h, k)
  }

  lemma ReturningStarts(z: Zone, h: nat, k: nat)
    requires Valid(z) && Block(h, k) in z.busy
    ensures Returning(z, z, h, k, h, k)
  {
    hide FreePages, FreeLists, Pow2, Aligned;
    BusyFacts(z, {}, Block(h, k));
  }

  lemma ReturningStep(start: Zone, z: Zone, h: nat, k: nat, i: nat, c: nat)
    requires Returning(start, z, h, k, i, c) && c < MAX_ORDER && Listed(z, Block(Buddy(i, c), c))
    ensures Returning(start, Merge(z, i, c), h, k, Parent(i, c).head, c + 1)
    ensures Buddy(i, c) in z.lists[c]
  {
    hide Pow2, Aligned, Xor, Inv, FreePages;
    MergeKeeps(z, i, c);
    MergeNew(z, i, c);
  }

  lemma MergeNew(z: Zone, h: nat, k: nat)
    requires Inv(z, {Block(h, k)}) && Block(h, k) in z.busy && Listed(z, Block(Buddy(h, k), k)) && k < MAX_ORDER
    ensures Parent(h, k) !in z.busy
  {
    hide Pow2, Aligned, Xor, Inv;
    MergeHalves(z, h, k);
  }

  lemma ReturningDone(start: Zone, z: Zone, h: nat, k: nat, i: nat, c: nat)
    requires Returning(start, z, h, k, i, c)
    requires c == MAX_ORDER || !Listed(z, Block(Buddy(i, c), c))
    ensures z.begin <= i < z.begin + |z.page| && c < |z.lists|
    ensures var t := Return(z, i, c);
            && Valid(t) && t.busy == start.busy - {Block(h, k)} && t.owner.Keys == start.owner.Keys
            && FreePages(t) == FreePages(start) + Pages(Block(h, k))
            && t.lists == FreeLists(start.lists, h, k)
  {
    hide Pow2, Aligned, Xor, FreePages, FreeWhole, BusyWhole, HolesClean, Coalesced, Owned;
    ReturnKeeps(z, i, c);
  }

  /** One zone: its descriptors, its lists, and the ghost owner map and held blocks. */
  class ZoneAllocator {
    const begin: nat
    const end: nat
    const page: array<Page>
    var order: seq<seq<nat>>
    ghost var owner: map<nat, Block>
    ghost var busy: set<Block>

    ghost function View(): Zone
      reads this, page
    {
      Zone(begin, end, page[..], order, owner, busy)
    }

    ghost predicate Ok()
      reads this, page
    {
      Valid(View())
    }

    ghost function Free(): set<nat>
      reads this, page
    {
      FreePages(View())
    }

    /** buddy_zone_create, with the descriptors zeroed. */
    constructor (begin: nat, end: nat)
      requires begin <= end
      ensures Ok() && fresh(page) && owner == map[] && busy == {} && this.begin == begin && this.end == end
      ensures forall k :: 0 <= k < |order| ==> order[k] == []
    {
      this.begin := begin;
      this.end := end;
      page := new Page[end - begin](i => Page(false, 0));
      order := seq(MAX_ORDER + 1, i => []);
      owner := map[];
      busy := {};
      new;
      forall b: Block ensures !Listed(View(), b) {}
      assert forall p :: !Tag(View(), p).free;
      assert Valid(View());
    }

    /** The order search of buddy_zone_free. */
    static method CutOrder(p: nat, to: nat) returns (k: nat)
      requires p < to
      ensures CutHere(p, k, to)
    {
      hide Xor, Bit, Aligned, And;
      k := 0;
      CutStart(p, to);
      while k < MAX_ORDER
        invariant k <= MAX_ORDER && Aligned(p, k) && p + Pow2(k) <= to
      {
        AndOneBit(p, k);
        AlignedUp(p, k);
        if And(p, Pow2(k)) != 0 { break; }
        if p + Pow2(k + 1) > to { break; }
        k := k + 1;
      }
    }

    /** buddy_zone_free: cuts [from, to) into blocks, each as large as alignment and range allow. */
    method FreeRange(from: nat, to: nat)
      requires Ok() && begin <= from <= to <= end
      requires forall p :: from <= p < to ==> p !in owner
      requires (from > 0 ==> from - 1 !in owner) && to !in owner
      modifies this, page
      ensures Ok() && busy == old(busy)
      ensures Free() == old(Free()) + Range(from, to)
      ensures owner.Keys == old(owner.Keys) + Range(from, to)
    {
      hide Pow2, Aligned, Xor, Inv, FreePages, Stuck, Listed, Give, Bit, Cutting, CutHere, Range;
      ghost var start := View();
      var p := from;
      CuttingStarts(start, from, to);
      while p != to
        invariant from <= p <= to && Cutting(start, View(), from, p, to)
      {
        ghost var z := View();
        var k := CutOrder(p, to);
        CuttingStep(start, z, from, p, k, to);
        page[p - begin] := Page(page[p - begin].free, k);
        page[p - begin] := Page(true, page[p - begin].order);
        order := order[k := order[k] + [p]];
        owner := owner + map q | q in Pages(Block(p, k)) :: Block(p, k);
        GiveIs(z, View(), p, k);
        p := p + Pow2(k);
      }
      CuttingDone(start, View(), from, to);
    }

    /** __buddy_alloc_zone. */
    method Alloc(k: nat) returns (r: Option<nat>)
      requires Ok()
      modifies this, page
      ensures Ok() && owner.Keys == old(owner.Keys)
      ensures r.None? <==> !(k <= MAX_ORDER && exists h :: FreeRun(old(Free()), h, k))
      ensures r.None? ==> busy == old(busy) && order == old(order) && Free() == old(Free())
      ensures r.Some? ==>
                && AllocLists(old(order), k) == Some((r.value, order))
                && Block(r.value, k) !in old(busy) && busy == old(busy) + {Block(r.value, k)}
                && FreeRun(old(Free()), r.value, k) && Free() == old(Free()) - Pages(Block(r.value, k))
                && begin <= r.value && r.value + Pow2(k) <= end
    {
      hide Pow2, Aligned, Xor, Inv, FreePages, Listed, Take, Split, Whole, AllIn, Tag, Splitting, AllocLists;
      hide SplitLists, FirstOrder;
      ghost var start := View();
      SearchComplete(start, k);
      FirstOrderFacts(order, k);
      ValidShape(start);
      var current := k;
      while current <= MAX_ORDER && order[current] == []
        invariant k <= current && View() == start && current <= FirstOrder(order, k)
      {
        current := current + 1;
      }
      NoneFirst(start.lists, k);
      if current > MAX_ORDER {
        return None;
      }
      SplittingStarts(start, k);
      var idx := order[current][0];
      page[idx - begin] := page[idx - begin].(free := false);
      order := order[current := order[current][1..]];
      busy := busy + {Block(idx, current)};
      TakeIs(start, View(), current);
      while current != k
        invariant Splitting(start, View(), idx, current, k) && k <= current
      {
        ghost var z := View();
        SplittingStep(start, z, idx, current, k);
        SplittingFacts(start, z, idx, current, k);
        current := current - 1;
        var bidx := Xor(idx, Pow2(current));
        page[bidx - begin] := Page(page[bidx - begin].free, current);
        page[bidx - begin] := Page(true, page[bidx - begin].order);
        order := order[current := [bidx] + order[current]];
        busy := busy - {Block(idx, current + 1)} + {Block(idx, current)};
        owner := Split(z, idx, current + 1).owner;
        SplitIs(z, View(), idx, current + 1);
      }
      SplittingDone(start, View(), idx, k);
      assert FreeRun(old(Free()), idx, k);
      r := Some(idx);
    }

    /** __buddy_free_zone: the tags decide whether to merge. */
    method FreeBlock(h: nat, k: nat)
      requires Ok() && Block(h, k) in busy
      modifies this, page
      ensures Ok() && owner.Keys == old(owner.Keys) && busy == old(busy) - {Block(h, k)}
      ensures k <= MAX_ORDER && |old(order)| == MAX_ORDER + 1 && order == FreeLists(old(order), h, k)
      ensures Free() == old(Free()) + Pages(Block(h, k))
    {
      hide Pow2, Aligned, Xor, Inv, FreePages, Listed, Merge, Return, Returning, FreeLists, Parent;
      ghost var start := View();
      ReturningStarts(start, h, k);
      ReturningFacts(start, start, h, k, h, k);
      var idx: nat, current: nat := h, k;
      while current < MAX_ORDER
        invariant current <= MAX_ORDER && Returning(start, View(), h, k, idx, current)
      {
        ghost var z := View();
        var bidx := Xor(idx, Pow2(current));
        ReturningFacts(start, z, h, k, idx, current);
        FreeBuddyTag(z, idx, current);
        if bidx < begin || bidx >= end { break; }
        if !page[bidx - begin].free || page[bidx - begin].order != current { break; }
        ReturningStep(start, z, h, k, idx, current);
        order := order[current := Remove(order[current], bidx)];
        busy := busy - {Block(idx, current)} + {Parent(idx, current)};
        owner := Merge(z, idx, current).owner;
        MergeIs(z, View(), idx, current);
        ParentHead(idx, current);
        current := current + 1;
        if bidx < idx { idx := bidx; }
      }
      ghost var y := View();
      if current < MAX_ORDER { FreeBuddyTag(y, idx, current); }
      ReturningFacts(start, y, h, k, idx, current);
      ReturningDone(start, y, h, k, idx, current);
      page[idx - begin] := Page(page[idx - begin].free, current);
      page[idx - begin] := Page(true, page[idx - begin].order);
      order := order[current := [idx] + order[current]];
      busy := busy - {Block(idx, current)};
      ReturnIs(y, View(), idx, current);
    }
  }

  lemma GiveIs(z: Zone, t: Zone, h: nat, k: nat)
    requires k < |z.lists| && z.begin <= h < z.begin + |z.page|
    requires t == z.(page := z.page[h - z.begin := Page(true, k)], lists := z.lists[k := z.lists[k] + [h]],
                  owner := z.owner + map p | p in Pages(Block(h, k)) :: Block(h, k))
    ensures t == Give(z, h, k)
  {}

  lemma CutStart(p: nat, to: nat)
    ensures Aligned(p, 0) && (p < to ==> p + Pow2(0) <= to)
  {}

  lemma TakeIs(z: Zone, t: Zone, c: nat)
    requires c < |z.lists| && z.lists[c] != [] && z.begin <= z.lists[c][0] < z.begin + |z.page|
    requires var i := z.lists[c][0] - z.begin;
             t == z.(page := z.page[i := z.page[i].(free := false)], lists := z.lists[c := z.lists[c][1..]],
             busy := z.busy + {Block(z.lists[c][0], c)})
    ensures t == Take(z, c)
  {}

  lemma SplitIs(z: Zone, t: Zone, h: nat, c: nat)
    requires 0 < c <= |z.lists| && z.begin <= Buddy(h, c - 1) < z.begin + |z.page|
    requires t == z.(page := z.page[Buddy(h, c - 1) - z.begin := Page(true, c - 1)],
                  lists := z.lists[c - 1 := [Buddy(h, c - 1)] + z.lists[c - 1]],
                  busy := z.busy - {Block(h, c)} + {Block(h, c - 1)}, owner := Split(z, h, c).owner)
    ensures t == Split(z, h, c)
  {}

  lemma NoneFirst(lists: seq<seq<nat>>, k: nat)
    ensures FirstOrder(lists, k) >= |lists| <==> AllocLists(lists, k).None?
  {
    FirstOrderFacts(lists, k);
  }

  lemma SplittingFacts(start: Zone, z: Zone, h: nat, c: nat, k: nat)
    requires Splitting(start, z, h, c, k)
    ensures k <= c <= MAX_ORDER && |z.lists| == MAX_ORDER + 1 && |z.page| == z.end - z.begin
  {}

  lemma SplittingDone(start: Zone, z: Zone, h: nat, k: nat)
    requires Splitting(start, z, h, k, k)
    ensures Valid(z) && k <= MAX_ORDER && z.owner.Keys == start.owner.Keys
    ensures AllocLists(start.lists, k) == Some((h, z.lists))
    ensures Block(h, k) !in start.busy && z.busy == start.busy + {Block(h, k)}
    ensures FreeRun(FreePages(start), h, k) && FreePages(z) == FreePages(start) - Pages(Block(h, k))
    ensures z.begin <= h && h + Pow2(k) <= z.end
  {
    hide Pow2, Aligned, Xor, Inv, Whole, Coalesced;
    BusyFacts(z, {}, Block(h, k));
    InvParts(z, {});
    LastPage(z, Block(h, k));
  }

  lemma LastPage(z: Zone, b: Block)
    requires Shape(z) && Whole(z, b)
    ensures b.head + Pow2(b.order) <= z.end
  {
    assert InBlock(b.head + Pow2(b.order) - 1, b);
  }

  lemma ReturningFacts(start: Zone, z: Zone, h: nat, k: nat, i: nat, c: nat)
    requires Returning(start, z, h, k, i, c)
    ensures Inv(z, {Block(i, c)}) && Block(i, c) in z.busy
    ensures |z.lists| == MAX_ORDER + 1 == |start.lists| && z.begin <= i < z.end && |z.page| == z.end - z.begin
    ensures k <= MAX_ORDER && c <= MAX_ORDER
  {
    hide Pow2, Aligned, FreePages, FreeLists, FreeWhole, HolesClean, Coalesced;
    BusyFacts(z, {Block(i, c)}, Block(i, c));
  }

  lemma ParentHead(h: nat, k: nat)
    ensures Parent(h, k) == Block(if Buddy(h, k) < h then Buddy(h, k) else h, k + 1)
  {}

  lemma MergeIs(z: Zone, t: Zone, h: nat, k: nat)
    requires k < |z.lists|
    requires t == z.(lists := z.lists[k := Remove(z.lists[k], Buddy(h, k))],
                  busy := z.busy - {Block(h, k)} + {Parent(h, k)}, owner := Merge(z, h, k).owner)
    ensures t == Merge(z, h, k)
  {}

  lemma ReturnIs(z: Zone, t: Zone, h: nat, k: nat)
    requires k < |z.lists| && z.begin <= h < z.begin + |z.page|
    requires t == z.(page := z.page[h - z.begin := Page(true, k)], lists := z.lists[k := [h] + z.lists[k]],
                  busy := z.busy - {Block(h, k)})
    ensures t == Return(z, h, k)
  {}
}
