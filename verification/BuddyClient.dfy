/** The client run of the buddy allocator demo: take every block of one order, then give
    them all back. */
module BuddyClient {
  import opened Bits
  import opened BuddyZone
  import opened BuddyAllocator

  function Blocks(list: seq<nat>, k: nat): set<Block> {
    set h | h in list :: Block(h, k)
  }

  function PagesOf(list: seq<nat>, k: nat): set<nat> {
    if list == [] then {} else Pages(Block(list[0], k)) + PagesOf(list[1..], k)
  }

  lemma {:induction false} PagesOfAppend(list: seq<nat>, h: nat, k: nat)
    ensures PagesOf(list + [h], k) == PagesOf(list, k) + Pages(Block(h, k))
  {
    if list == [] {
      assert [h][1..] == [];
    } else {
      assert (list + [h])[1..] == list[1..] + [h];
      PagesOfAppend(list[1..], h, k);
    }
  }

  lemma {:induction false} PagesOfIn(list: seq<nat>, k: nat, p: nat)
    ensures p in PagesOf(list, k) <==> exists h :: h in list && InBlock(p, Block(h, k))
  {
    if list != [] { PagesOfIn(list[1..], k, p); }
  }

  /** The pages of a list of blocks do not depend on the order of the list. */
  lemma PagesOfSame(a: seq<nat>, b: seq<nat>, k: nat)
    requires forall h :: h in a <==> h in b
    ensures PagesOf(a, k) == PagesOf(b, k)
  {
    forall p: nat ensures p in PagesOf(a, k) <==> p in PagesOf(b, k) {
      PagesOfIn(a, k, p);
      PagesOfIn(b, k, p);
    }
  }

  /** No page is ever in two held blocks, nor both held and free. */
  lemma NoPageTwice(z: Zone, a: Block, b: Block, p: nat)
    requires Valid(z) && a in z.busy && InBlock(p, a)
    ensures p !in FreePages(z)
    ensures b in z.busy && InBlock(p, b) ==> a == b
  {
    hide Pow2, Aligned, Xor, Coalesced, HolesClean, Owned;
    assert Whole(z, a);
    assert b in z.busy ==> Whole(z, b);
  }

  /** What holds once the blocks of `list` have been taken from `start`. */
  ghost predicate Taken(start: Zone, z: Zone, k: nat, list: seq<nat>) {
    && z.owner.Keys == start.owner.Keys
    && NoDuplicates(list) && Blocks(list, k) !! start.busy && z.busy == start.busy + Blocks(list, k)
    && FreePages(z) == FreePages(start) - PagesOf(list, k) && PagesOf(list, k) <= FreePages(start)
  }

  lemma TakenMore(start: Zone, y: Zone, z: Zone, k: nat, list: seq<nat>, h: nat)
    requires Taken(start, y, k, list) && z.owner.Keys == y.owner.Keys
    requires Block(h, k) !in y.busy && z.busy == y.busy + {Block(h, k)}
    requires FreeRun(FreePages(y), h, k) && FreePages(z) == FreePages(y) - Pages(Block(h, k))
    ensures Taken(start, z, k, list + [h]) && |FreePages(z)| < |FreePages(y)|
  {
    hide FreePages, FreeRun, InBlock, Pow2, Pages, PagesOf, NoDuplicates;
    RunPages(FreePages(y), h, k);
    PagesOfAppend(list, h, k);
    Shrinks(FreePages(y), FreePages(z), h);
    assert h !in list by { assert h in list ==> Block(h, k) in Blocks(list, k); }
    NoDuplicatesAppend(list, h);
    assert Blocks(list + [h], k) == Blocks(list, k) + {Block(h, k)};
  }

  lemma NoDuplicatesAppend(s: seq<nat>, x: nat)
    requires NoDuplicates(s) && x !in s
    ensures NoDuplicates(s + [x])
  {}

  /** allocate_all: takes blocks until the allocator fails. */
  method AllocateAll(zone: ZoneAllocator, k: nat) returns (list: seq<nat>)
    requires zone.Ok()
    modifies zone, zone.page
    ensures zone.Ok() && Taken(old(zone.View()), zone.View(), k, list)
    ensures k <= MAX_ORDER ==> forall h :: !FreeRun(zone.Free(), h, k)
  {
    hide FreeRun, Pow2, InBlock, FreePages, Valid, Taken;
    ghost var start := zone.View();
    list := [];
    TakenNone(start, k);
    while true
      invariant zone.Ok() && Taken(start, zone.View(), k, list)
      decreases |zone.Free()|
    {
      ghost var y := zone.View();
      var page := zone.Alloc(k);
      if page.None? {
        TakenFacts(start, y, k, list);
        TakenSame(start, y, zone.View(), k, list);
        break;
      }
      TakenMore(start, y, zone.View(), k, list, page.value);
      list := list + [page.value];
    }
  }

  lemma TakenNone(z: Zone, k: nat)
    ensures Taken(z, z, k, [])
  {}

  lemma TakenFacts(start: Zone, z: Zone, k: nat, list: seq<nat>)
    requires Taken(start, z, k, list)
    ensures z.owner.Keys == start.owner.Keys
  {}

  lemma TakenSame(start: Zone, y: Zone, z: Zone, k: nat, list: seq<nat>)
    requires Taken(start, y, k, list)
    requires z.owner.Keys == y.owner.Keys && z.busy == y.busy && FreePages(z) == FreePages(y)
    ensures Taken(start, z, k, list)
  {}

  lemma RunPages(ps: set<nat>, h: nat, k: nat)
    requires FreeRun(ps, h, k)
    ensures h in ps && h in Pages(Block(h, k)) && Pages(Block(h, k)) <= ps
  {
    HeadInBlock(Block(h, k));
  }

  lemma Shrinks(a: set<nat>, b: set<nat>, x: nat)
    requires b <= a && x in a && x !in b
    ensures |b| < |a|
  {
    SubsetSize(b, a - {x});
  }

  lemma {:induction false} SubsetSize(a: set<nat>, b: set<nat>)
    requires a <= b
    ensures |a| <= |b|
  {
    if a != {} {
      var x :| x in a;
      SubsetSize(a - {x}, b - {x});
    }
  }

  /** release_all: gives the blocks back in list order. */
  method ReleaseAll(zone: ZoneAllocator, k: nat, list: seq<nat>)
    requires zone.Ok() && NoDuplicates(list) && Blocks(list, k) <= zone.busy
    modifies zone, zone.page
    ensures zone.Ok() && zone.owner.Keys == old(zone.owner.Keys)
    ensures zone.busy == old(zone.busy) - Blocks(list, k)
    ensures zone.Free() == old(zone.Free()) + PagesOf(list, k)
  {
    hide Pow2, InBlock, FreePages, Valid;
    var i := 0;
    assert list[..0] == [];
    while i < |list|
      invariant 0 <= i <= |list| && zone.Ok() && zone.owner.Keys == old(zone.owner.Keys)
      invariant zone.busy == old(zone.busy) - Blocks(list[..i], k)
      invariant zone.Free() == old(zone.Free()) + PagesOf(list[..i], k)
    {
      assert Block(list[i], k) in Blocks(list, k);
      assert list[..i + 1] == list[..i] + [list[i]];
      PagesOfAppend(list[..i], list[i], k);
      zone.FreeBlock(list[i], k);
      i := i + 1;
    }
    assert list[..|list|] == list;
  }

  /** Exhausting one order and giving the blocks back, in any order, restores the set of
      blocks on every list. */
  method ExhaustAndRefill(zone: ZoneAllocator, k: nat, shuffle: seq<nat> -> seq<nat>) returns (count: nat)
    requires zone.Ok()
    requires forall s :: NoDuplicates(s) ==> NoDuplicates(shuffle(s)) && forall h :: h in s <==> h in shuffle(s)
    modifies zone, zone.page
    ensures zone.Ok() && zone.busy == old(zone.busy) && zone.Free() == old(zone.Free())
    ensures |zone.order| == |old(zone.order)|
    ensures forall j, h :: 0 <= j < |zone.order| ==> (h in zone.order[j] <==> h in old(zone.order)[j])
  {
    hide Pow2, InBlock, FreePages, Inv, FreeRun;
    ghost var start := zone.View();
    ValidShape(start);
    var list := AllocateAll(zone, k);
    var any := shuffle(list);
    PagesOfSame(list, any, k);
    ReleaseAll(zone, k, any);
    assert Blocks(any, k) == Blocks(list, k);
    assert zone.busy == old(zone.busy);
    ValidShape(zone.View());
    Confluence(start, zone.View());
    count := |list|;
  }
}
