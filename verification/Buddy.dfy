/** The zone allocator of buddy.c.  A zone is modelled by its page descriptors (as the
    code sees them), its per-order lists, and two ghost views: which block every page
    handed to the zone belongs to, and which blocks clients currently hold. */
module BuddyZone {
  import opened Bits

  const MAX_ORDER: nat := 20

  /** A page descriptor: the free flag and the order tag.  Tags of pages that are not the
      head of a block are left over from earlier splits and merges. */
  datatype Page = Page(free: bool, order: nat)

  datatype Block = Block(head: nat, order: nat)

  /** `owner` maps every page given to the zone to the block that holds it now. */
  datatype Zone = Zone(begin: nat, end: nat, page: seq<Page>, lists: seq<seq<nat>>,
                       owner: map<nat, Block>, busy: set<Block>)

  predicate InBlock(p: nat, b: Block) {
    b.head <= p < b.head + Pow2(b.order)
  }

  /** The block's index with bit `k` flipped: the other half of the enclosing block. */
  function Buddy(h: nat, k: nat): nat {
    Xor(h, Pow2(k))
  }

  function Parent(h: nat, k: nat): Block {
    Block(if Buddy(h, k) < h then Buddy(h, k) else h, k + 1)
  }

  /** The block is whole and natural: aligned, and every one of its pages belongs to it. */
  ghost predicate Whole(z: Zone, b: Block) {
    && b.order <= MAX_ORDER
    && Aligned(b.head, b.order)
    && b.head in z.owner
    && forall p :: InBlock(p, b) ==> p in z.owner && z.owner[p] == b
  }

  predicate Listed(z: Zone, b: Block) {
    b.order < |z.lists| && b.head in z.lists[b.order]
  }

  /** Both halves of one block are free: a merge was missed. */
  predicate Unmerged(z: Zone, b: Block) {
    Listed(z, b) && Listed(z, Block(Buddy(b.head, b.order), b.order))
  }

  predicate NoDuplicates(s: seq<nat>) {
    forall i, j :: 0 <= i < j < |s| ==> s[i] != s[j]
  }

  /** The descriptor of page `p`. */
  function Tag(z: Zone, p: int): Page {
    if 0 <= p - z.begin < |z.page| then z.page[p - z.begin] else Page(false, 0)
  }

  ghost predicate Shape(z: Zone) {
    && z.begin <= z.end
    && |z.page| == z.end - z.begin
    && |z.lists| == MAX_ORDER + 1
    && (forall k :: 0 <= k <= MAX_ORDER ==> NoDuplicates(z.lists[k]))
    && forall p :: p in z.owner ==> z.begin <= p < z.end
  }

  /** Every page given to the zone lies in a free or in a held block. */
  ghost predicate Owned(z: Zone) {
    forall p :: p in z.owner ==> InBlock(p, z.owner[p]) && (z.owner[p] in z.busy || Listed(z, z.owner[p]))
  }

  /** Every list holds whole blocks of its order, tagged as such. */
  ghost predicate FreeWhole(z: Zone) {
    forall b :: Listed(z, b) ==> Whole(z, b) && b !in z.busy && Tag(z, b.head) == Page(true, b.order)
  }

  /** Held blocks are whole, and their heads are not tagged free. */
  ghost predicate BusyWhole(z: Zone, pending: set<Block>) {
    forall b :: b in z.busy ==> Whole(z, b) && (b in pending || !Tag(z, b.head).free)
  }

  /** Pages never given to the zone were never tagged. */
  ghost predicate HolesClean(z: Zone) {
    forall p: nat :: p !in z.owner ==> !Tag(z, p).free
  }

  ghost predicate Coalesced(z: Zone) {
    forall b: Block :: b.order < MAX_ORDER ==> !Unmerged(z, b)
  }

  /** Everything that holds between two steps of the code, when the block `pending` (if
      any) is being returned and its head may still carry a stale free tag. */
  ghost predicate Inv(z: Zone, pending: set<Block>) {
    Shape(z) && Owned(z) && FreeWhole(z) && BusyWhole(z, pending) && HolesClean(z) && Coalesced(z)
  }

  ghost predicate Valid(z: Zone) {
    Inv(z, {})
  }

  function FreePages(z: Zone): set<nat> {
    set p | p in z.owner && z.owner[p] !in z.busy
  }

  function Pages(b: Block): (s: set<nat>)
    ensures forall p :: p in s <==> InBlock(p, b)
  {
    set p: nat | b.head <= p < b.head + Pow2(b.order) && InBlock(p, b)
  }

  // ---- geometry of naturally aligned blocks ----

  lemma BuddyValue(h: nat, k: nat)
    requires Aligned(h, k)
    ensures Buddy(h, k) == if Bit(h, k) then h - Pow2(k) else h + Pow2(k)
    ensures Bit(h, k) ==> h >= Pow2(k)
    ensures Aligned(Buddy(h, k), k) && (Bit(h, k) <==> !Bit(Buddy(h, k), k))
    ensures Aligned(if Bit(h, k) then Buddy(h, k) else h, k + 1)
  {
    XorOneBit(h, k);
    AlignedUp(h, k);
    var b := Buddy(h, k);
    Multiple(Pow2(k), 1);
    MultipleSum(Pow2(k), h, Pow2(k));
    AlignedUp(b, k);
    if !Bit(h, k) && !Bit(b, k) { MultiplesApart(Pow2(k + 1), h, b); }
  }

  lemma BuddyFacts(h: nat, k: nat)
    requires Aligned(h, k)
    ensures Buddy(h, k) == if Bit(h, k) then h - Pow2(k) else h + Pow2(k)
    ensures Bit(h, k) ==> h >= Pow2(k)
    ensures Aligned(Buddy(h, k), k) && Aligned(Parent(h, k).head, k + 1)
    ensures Buddy(Buddy(h, k), k) == h && Parent(Buddy(h, k), k) == Parent(h, k)
    ensures forall p :: InBlock(p, Parent(h, k)) <==> InBlock(p, Block(h, k)) || InBlock(p, Block(Buddy(h, k), k))
    ensures !InBlock(Buddy(h, k), Block(h, k))
  {
    hide Aligned, Bit, Xor;
    BuddyValue(h, k);
    BuddyValue(Buddy(h, k), k);
  }

  /** Of two naturally aligned blocks that share a page, the larger contains the smaller. */
  lemma Nested(a: Block, b: Block, p: nat)
    requires Aligned(a.head, a.order) && Aligned(b.head, b.order)
    requires InBlock(p, a) && InBlock(p, b) && a.order <= b.order
    ensures b.head <= a.head && a.head + Pow2(a.order) <= b.head + Pow2(b.order)
    ensures a.order == b.order ==> a == b
  {
    var d := Pow2(a.order);
    AlignedDown(b.head, a.order, b.order);
    MultipleSum(d, b.head, Pow2(b.order));
    if a.head < b.head { MultiplesApart(d, a.head, b.head); }
    if b.head < a.head && a.order == b.order { MultiplesApart(d, b.head, a.head); }
    if a.head < b.head + Pow2(b.order) { MultiplesApart(d, a.head, b.head + Pow2(b.order)); }
  }

  lemma HeadInBlock(b: Block)
    ensures InBlock(b.head, b)
  {}

  lemma OwnerWhole(z: Zone, pending: set<Block>, p: nat)
    requires Inv(z, pending) && p in z.owner
    ensures Whole(z, z.owner[p]) && z.owner[p].head in z.owner && z.owner[z.owner[p].head] == z.owner[p]
  {
    var b := z.owner[p];
    assert b in z.busy || Listed(z, b);
    HeadInBlock(b);
  }

  /** A natural block holding the buddy of (h, k) either starts there or holds h as well. */
  lemma HeadOrBoth(o: Block, h: nat, k: nat)
    requires Aligned(h, k) && Aligned(o.head, o.order) && InBlock(Buddy(h, k), o)
    ensures o.order <= k ==> o.head == Buddy(h, k)
    ensures o.order > k ==> InBlock(h, o)
  {
    var b := Buddy(h, k);
    BuddyFacts(h, k);
    if o.order > k {
      assert InBlock(b, Block(b, k)) && InBlock(h, Block(h, k));
      Nested(Parent(h, k), o, b);
    } else {
      AlignedDown(b, o.order, k);
      HeadInBlock(Block(b, o.order));
      Nested(o, Block(b, o.order), b);
    }
  }

  /** The tag test of the merge loop (`page_free(buddy) && page_order(buddy) == order`)
      holds exactly when the buddy is a free block of this order: a stale tag inside
      another block is never mistaken for a block head. */
  lemma TagTruth(z: Zone, pending: set<Block>, h: nat, k: nat)
    requires Inv(z, pending) && Block(h, k) in z.busy && pending <= {Block(h, k)}
    requires z.begin <= Buddy(h, k) < z.end
    ensures Tag(z, Buddy(h, k)) == Page(true, k) <==> Listed(z, Block(Buddy(h, k), k))
  {
    hide Pow2, Aligned, Xor;
    var b := Buddy(h, k);
    assert Whole(z, Block(h, k));
    if Tag(z, b) == Page(true, k) {
      assert b in z.owner;
      var o := z.owner[b];
      OwnerWhole(z, pending, b);
      HeadOrBoth(o, h, k);
      assert z.owner[h] == Block(h, k);
      BuddyFacts(h, k);
    }
  }

  // ---- what a valid zone's free blocks are: the maximal natural runs of free pages ----

  ghost predicate AllIn(ps: set<nat>, b: Block) {
    forall p :: InBlock(p, b) ==> p in ps
  }

  /** `b` is a natural run of pages of `ps` that no larger natural run contains. */
  ghost predicate Maximal(ps: set<nat>, b: Block) {
    && b.order <= MAX_ORDER && Aligned(b.head, b.order) && AllIn(ps, b)
    && (b.order < MAX_ORDER ==> !AllIn(ps, Parent(b.head, b.order)))
  }

  lemma FreeOwner(z: Zone, p: nat)
    requires Valid(z) && p in FreePages(z)
    ensures p in z.owner && Listed(z, z.owner[p]) && Whole(z, z.owner[p]) && InBlock(p, z.owner[p])
    ensures AllIn(FreePages(z), z.owner[p])
  {
    OwnerWhole(z, {}, p);
  }

  lemma Halves(h: nat, j: nat)
    requires Aligned(h, j + 1)
    ensures Aligned(h, j) && Buddy(h, j) == h + Pow2(j) && Aligned(h + Pow2(j), j)
  {
    AlignedDown(h, j, j + 1);
    AlignedUp(h, j);
    BuddyFacts(h, j);
  }

  lemma AllInHead(ps: set<nat>, b: Block)
    requires AllIn(ps, b)
    ensures b.head in ps
  {
    HeadInBlock(b);
  }

  lemma HalvesIn(ps: set<nat>, h: nat, j: nat)
    requires AllIn(ps, Block(h, j + 1))
    ensures AllIn(ps, Block(h, j)) && AllIn(ps, Block(h + Pow2(j), j))
    ensures h in ps && h + Pow2(j) in ps
  {
    forall p | InBlock(p, Block(h, j)) || InBlock(p, Block(h + Pow2(j), j))
      ensures p in ps
    {
      assert InBlock(p, Block(h, j + 1));
    }
    HeadInBlock(Block(h, j));
    HeadInBlock(Block(h + Pow2(j), j));
  }

  /** Two free halves of one natural block cannot be two separate free blocks. */
  lemma HalvesMerged(z: Zone, h: nat, j: nat)
    requires Valid(z) && j < MAX_ORDER && Aligned(h, j + 1)
    requires h in FreePages(z) && h + Pow2(j) in FreePages(z)
    requires z.owner[h].order >= j && z.owner[h + Pow2(j)].order >= j
    ensures z.owner[h].order > j
  {
    hide Inv, Pow2, Aligned, Xor;
    var b := h + Pow2(j);
    var a, c := z.owner[h], z.owner[b];
    Halves(h, j);
    FreeOwner(z, h);
    FreeOwner(z, b);
    if a.order == j {
      Nested(a, Block(h, j), h);
      HeadOrBoth(c, h, j);
      if c.order == j {
        NoUnmerged(z, a);
      }
    }
  }

  lemma NoUnmerged(z: Zone, b: Block)
    requires Valid(z) && b.order < MAX_ORDER
    ensures !(Listed(z, b) && Listed(z, Block(Buddy(b.head, b.order), b.order)))
  {
    assert !Unmerged(z, b);
  }

  /** A naturally aligned run of free pages lies inside one free block: no merge was missed. */
  lemma {:induction false} FullRun(z: Zone, h: nat, k: nat)
    requires Valid(z) && k <= MAX_ORDER && Aligned(h, k) && AllIn(FreePages(z), Block(h, k))
    ensures h in z.owner && Listed(z, z.owner[h]) && z.owner[h].order >= k
    decreases k
  {
    hide *;
    AllInHead(FreePages(z), Block(h, k));
    FreeOwner(z, h);
    if k > 0 {
      Halves(h, k - 1);
      HalvesIn(FreePages(z), h, k - 1);
      FullRun(z, h, k - 1);
      FullRun(z, h + Pow2(k - 1), k - 1);
      HalvesMerged(z, h, k - 1);
    }
  }

  /** The free blocks are a function of the free pages. */
  lemma Canonical(z: Zone, b: Block)
    requires Valid(z)
    ensures Listed(z, b) <==> Maximal(FreePages(z), b)
  {
    if Listed(z, b) { ListedIsMaximal(z, b); }
    if Maximal(FreePages(z), b) { MaximalIsListed(z, b); }
  }

  lemma ListedWhole(z: Zone, b: Block)
    requires Valid(z) && Listed(z, b)
    ensures Whole(z, b) && AllIn(FreePages(z), b) && b.head in z.owner && z.owner[b.head] == b
  {
    HeadInBlock(b);
  }

  lemma ListedIsMaximal(z: Zone, b: Block)
    requires Valid(z) && Listed(z, b)
    ensures Maximal(FreePages(z), b)
  {
    hide Inv;
    ListedWhole(z, b);
    BuddyFacts(b.head, b.order);
    var up := Parent(b.head, b.order);
    if b.order < MAX_ORDER && AllIn(FreePages(z), up) {
      FullRun(z, up.head, up.order);
      HeadInBlock(up);
      FreeOwner(z, up.head);
      Nested(up, z.owner[up.head], up.head);
      HeadInBlock(b);
    }
  }

  lemma MaximalIsListed(z: Zone, b: Block)
    requires Valid(z) && Maximal(FreePages(z), b)
    ensures Listed(z, b)
  {
    hide Inv;
    FullRun(z, b.head, b.order);
    HeadInBlock(b);
    FreeOwner(z, b.head);
    var o := z.owner[b.head];
    Nested(b, o, b.head);
    if o.order > b.order {
      BuddyFacts(b.head, b.order);
      Nested(Parent(b.head, b.order), o, b.head);
    }
  }

  // ---- the single steps the alloc and free loops are made of ----

  /** `list_del` on a node of a list. */
  function Remove(s: seq<nat>, x: nat): seq<nat> {
    if s == [] then [] else if s[0] == x then s[1..] else [s[0]] + Remove(s[1..], x)
  }

  lemma NoDuplicatesCons(x: nat, s: seq<nat>)
    requires NoDuplicates(s) && x !in s
    ensures NoDuplicates([x] + s)
  {}

  lemma {:induction false} RemoveFacts(s: seq<nat>, x: nat)
    requires NoDuplicates(s)
    ensures NoDuplicates(Remove(s, x)) && forall y :: y in Remove(s, x) <==> y in s && y != x
  {
    if s != [] {
      RemoveFacts(s[1..], x);
      assert s == [s[0]] + s[1..];
      if s[0] != x { NoDuplicatesCons(s[0], Remove(s[1..], x)); }
    }
  }

  /** One step of the code: the blocks `gone` are replaced by the free blocks `free` and the
      held blocks `held` on the same pages, and only the tag of page `q` among them changes. */
  datatype Step = Step(gone: set<Block>, free: set<Block>, held: set<Block>, q: nat)

  ghost predicate Relisted(z: Zone, t: Zone, s: Step) {
    && (forall b :: Listed(t, b) <==> b in s.free || (Listed(z, b) && b !in s.gone))
    && t.busy == z.busy - s.gone + s.held
    && (forall b :: b in t.busy ==> !Listed(t, b))
  }

  ghost predicate Reowned(z: Zone, t: Zone, s: Step) {
    && t.owner.Keys == z.owner.Keys
    && (forall p :: p in z.owner && z.owner[p] !in s.gone ==> t.owner[p] == z.owner[p])
    && (forall p :: p in z.owner && z.owner[p] in s.gone ==>
                      InBlock(p, t.owner[p]) && t.owner[p] in s.free + s.held)
    && (forall b :: b in s.free + s.held ==> Whole(t, b))
  }

  ghost predicate Retagged(z: Zone, t: Zone, s: Step, late: set<Block>) {
    && s.q in z.owner && z.owner[s.q] in s.gone
    && (forall p: nat :: p != s.q ==> Tag(t, p) == Tag(z, p))
    && (forall b :: b in s.free ==> Tag(t, b.head) == Page(true, b.order))
    && (forall b :: b in s.held ==> b in late || !Tag(t, b.head).free)
  }

  lemma RegroupOwned(z: Zone, t: Zone, s: Step)
    requires Owned(z) && Relisted(z, t, s) && Reowned(z, t, s)
    ensures Owned(t)
  {
    hide InBlock, Listed, Whole;
    forall p | p in t.owner
      ensures InBlock(p, t.owner[p]) && (t.owner[p] in t.busy || Listed(t, t.owner[p]))
    {
      assert p in z.owner;
    }
  }

  lemma RegroupKept(z: Zone, t: Zone, s: Step, late: set<Block>, b: Block)
    requires Whole(z, b) && b !in s.gone
    requires Reowned(z, t, s) && Retagged(z, t, s, late)
    ensures Whole(t, b) && Tag(t, b.head) == Tag(z, b.head)
  {
    hide Pow2, Aligned, Tag;
    HeadInBlock(b);
  }

  lemma RegroupBlocks(z: Zone, t: Zone, s: Step, pending: set<Block>, late: set<Block>)
    requires FreeWhole(z) && BusyWhole(z, pending) && pending <= s.gone
    requires Relisted(z, t, s) && Reowned(z, t, s) && Retagged(z, t, s, late)
    ensures FreeWhole(t) && BusyWhole(t, late)
  {
    hide Listed, Tag, InBlock, Whole;
    forall b | Listed(t, b) ensures Whole(t, b) && b !in t.busy && Tag(t, b.head) == Page(true, b.order) {
      if b !in s.free { RegroupKept(z, t, s, late, b); }
    }
    forall b | b in t.busy ensures Whole(t, b) && (b in late || !Tag(t, b.head).free) {
      if b !in s.held { RegroupKept(z, t, s, late, b); }
    }
  }

  lemma RegroupHoles(z: Zone, t: Zone, s: Step, late: set<Block>)
    requires HolesClean(z) && Reowned(z, t, s) && Retagged(z, t, s, late)
    ensures HolesClean(t)
  {
    hide Tag, InBlock, Whole;
  }

  lemma Regroup(z: Zone, t: Zone, s: Step, pending: set<Block>, late: set<Block>)
    requires Inv(z, pending) && pending <= s.gone
    requires Shape(t) && Coalesced(t)
    requires Relisted(z, t, s) && Reowned(z, t, s) && Retagged(z, t, s, late)
    ensures Inv(t, late)
  {
    hide *;
    InvParts(z, pending);
    RegroupOwned(z, t, s);
    RegroupBlocks(z, t, s, pending, late);
    RegroupHoles(z, t, s, late);
    InvFrom(t, late);
  }

  lemma InvParts(z: Zone, pending: set<Block>)
    requires Inv(z, pending)
    ensures Shape(z) && Owned(z) && FreeWhole(z) && BusyWhole(z, pending) && HolesClean(z) && Coalesced(z)
  {}

  lemma InvFrom(z: Zone, pending: set<Block>)
    requires Shape(z) && Owned(z) && FreeWhole(z) && BusyWhole(z, pending) && HolesClean(z) && Coalesced(z)
    ensures Inv(z, pending)
  {}

  /** Takes the first block of list `c` off the list and marks it busy. */
  function Take(z: Zone, c: nat): Zone
    requires c < |z.lists| && z.lists[c] != [] && z.begin <= z.lists[c][0] < z.begin + |z.page|
  {
    var i := z.lists[c][0] - z.begin;
    z.(page := z.page[i := z.page[i].(free := false)], lists := z.lists[c := z.lists[c][1..]],
    busy := z.busy + {Block(z.lists[c][0], c)})
  }

  /** Splits a held block of order `c` and puts the buddy half at the front of its list. */
  function Split(z: Zone, h: nat, c: nat): Zone
    requires 0 < c <= |z.lists| && z.begin <= Buddy(h, c - 1) < z.begin + |z.page|
  {
    var b := Block(Buddy(h, c - 1), c - 1);
    z.(page := z.page[b.head - z.begin := Page(true, c - 1)], lists := z.lists[c - 1 := [b.head] + z.lists[c - 1]],
    busy := z.busy - {Block(h, c)} + {Block(h, c - 1)},
    owner := map p | p in z.owner ::
      if z.owner[p] != Block(h, c) then z.owner[p] else if InBlock(p, b) then b else Block(h, c - 1))
  }

  /** Unites a block being returned with its free buddy. */
  function Merge(z: Zone, h: nat, k: nat): Zone
    requires k < |z.lists|
  {
    var a, b := Block(h, k), Block(Buddy(h, k), k);
    z.(lists := z.lists[k := Remove(z.lists[k], b.head)],
    busy := z.busy - {a} + {Parent(h, k)},
    owner := map p | p in z.owner :: if z.owner[p] == a || z.owner[p] == b then Parent(h, k) else z.owner[p])
  }

  /** Puts a block that cannot be merged further at the front of its list. */
  function Return(z: Zone, h: nat, k: nat): Zone
    requires k < |z.lists| && z.begin <= h < z.begin + |z.page|
  {
    z.(page := z.page[h - z.begin := Page(true, k)], lists := z.lists[k := [h] + z.lists[k]],
    busy := z.busy - {Block(h, k)})
  }

  // ---- each step keeps the invariant ----

  lemma TakeListed(z: Zone, c: nat, b: Block)
    requires Shape(z) && c <= MAX_ORDER && z.lists[c] != [] && z.begin <= z.lists[c][0] < z.end
    ensures Listed(Take(z, c), b) <==> Listed(z, b) && b != Block(z.lists[c][0], c)
    ensures Shape(Take(z, c))
  {
    assert NoDuplicates(z.lists[c]);
    if Listed(z, b) && b != Block(z.lists[c][0], c) && b.order == c {
      var i :| 0 <= i < |z.lists[c]| && z.lists[c][i] == b.head;
      assert z.lists[c][1..][i - 1] == b.head;
    }
  }

  lemma TakeFirst(z: Zone, c: nat)
    requires Valid(z) && c <= MAX_ORDER && z.lists[c] != []
    ensures Listed(z, Block(z.lists[c][0], c)) && z.begin <= z.lists[c][0] < z.end
    ensures Whole(z, Block(z.lists[c][0], c))
  {
    hide Pow2, Aligned, Coalesced, HolesClean, BusyWhole;
    assert Listed(z, Block(z.lists[c][0], c));
  }

  lemma SubsetCoalesced(z: Zone, t: Zone)
    requires Coalesced(z) && forall b :: Listed(t, b) ==> Listed(z, b)
    ensures Coalesced(t)
  {
    forall b: Block | b.order < MAX_ORDER ensures !Unmerged(t, b) {
      assert !Unmerged(z, b);
    }
  }

  lemma TakeKeeps(z: Zone, c: nat)
    requires Valid(z) && c <= MAX_ORDER && z.lists[c] != []
    ensures z.begin <= z.lists[c][0] < z.end
    ensures Valid(Take(z, c))
    ensures Block(z.lists[c][0], c) in Take(z, c).busy
    ensures FreePages(Take(z, c)) == FreePages(z) - Pages(Block(z.lists[c][0], c))
  {
    hide Pow2, Aligned, Xor, Inv, Unmerged, Coalesced, BusyWhole, HolesClean;
    InvParts(z, {});
    TakeFirst(z, c);
    var b, t := Block(z.lists[c][0], c), Take(z, c);
    TakeListed(z, c, b);
    forall b' ensures Listed(t, b') <==> Listed(z, b') && b' != b { TakeListed(z, c, b'); }
    SubsetCoalesced(z, t);
    Regroup(z, t, Step({b}, {}, {b}, b.head), {}, {});
  }

  lemma PushListed(z: Zone, t: Zone, k: nat, x: nat, b: Block)
    requires Shape(z) && k <= MAX_ORDER && t.lists == z.lists[k := [x] + z.lists[k]]
    ensures Listed(t, b) <==> Listed(z, b) || b == Block(x, k)
  {}

  lemma PushShape(z: Zone, t: Zone, k: nat, x: nat)
    requires Shape(z) && k <= MAX_ORDER && t.lists == z.lists[k := [x] + z.lists[k]] && !Listed(z, Block(x, k))
    ensures forall j :: 0 <= j <= MAX_ORDER ==> NoDuplicates(t.lists[j])
  {
    NoDuplicatesCons(x, z.lists[k]);
  }

  lemma PushCoalesced(z: Zone, t: Zone, k: nat, x: nat)
    requires Shape(z) && FreeWhole(z) && Coalesced(z)
    requires k <= MAX_ORDER && t.lists == z.lists[k := [x] + z.lists[k]] && Aligned(x, k)
    requires k < MAX_ORDER ==> !Listed(z, Block(Buddy(x, k), k))
    ensures Coalesced(t)
  {
    hide Pow2, Aligned, Xor, FreeWhole, Listed;
    BuddyFacts(x, k);
    forall b: Block | b.order < MAX_ORDER ensures !Unmerged(t, b) {
      var b' := Block(Buddy(b.head, b.order), b.order);
      PushListed(z, t, k, x, b);
      PushListed(z, t, k, x, b');
      assert !Unmerged(z, b);
      if b' == Block(x, k) && Listed(z, b) {
        ListedAligned(z, b);
        BuddyFacts(b.head, k);
      }
    }
  }

  lemma ListedAligned(z: Zone, b: Block)
    requires FreeWhole(z) && Listed(z, b)
    ensures Aligned(b.head, b.order)
  {}

  lemma BusyNotListed(z: Zone, pending: set<Block>, a: Block, p: nat, b: Block)
    requires Inv(z, pending) && a in z.busy && InBlock(p, a) && InBlock(p, b) && a != b
    ensures !Listed(z, b) && b !in z.busy
  {
    hide Pow2, Aligned, Coalesced, HolesClean, Owned, NoDuplicates;
    assert Whole(z, a);
    assert (Listed(z, b) || b in z.busy) ==> Whole(z, b);
  }

  function SplitStep(h: nat, c: nat): Step
    requires c > 0
  {
    Step({Block(h, c)}, {Block(Buddy(h, c - 1), c - 1)}, {Block(h, c - 1)}, Buddy(h, c - 1))
  }

  lemma HalfRanges(h: nat, j: nat, p: nat)
    requires Buddy(h, j) == h + Pow2(j)
    ensures InBlock(p, Block(h, j + 1)) <==> InBlock(p, Block(h, j)) || InBlock(p, Block(Buddy(h, j), j))
    ensures !(InBlock(p, Block(h, j)) && InBlock(p, Block(Buddy(h, j), j)))
  {}

  /** What splitting a held block means for its two halves. */
  lemma SplitHalves(z: Zone, h: nat, c: nat)
    requires Valid(z) && 0 < c && Block(h, c) in z.busy
    ensures c <= MAX_ORDER && z.begin <= Buddy(h, c - 1) < z.end && Buddy(h, c - 1) == h + Pow2(c - 1)
    ensures Aligned(h, c - 1) && Aligned(Buddy(h, c - 1), c - 1)
    ensures Buddy(h, c - 1) in z.owner && z.owner[Buddy(h, c - 1)] == Block(h, c) && Whole(z, Block(h, c))
    ensures !Listed(z, Block(h, c - 1)) && !Listed(z, Block(Buddy(h, c - 1), c - 1))
    ensures Block(h, c - 1) !in z.busy && Block(Buddy(h, c - 1), c - 1) !in z.busy
    ensures Buddy(Buddy(h, c - 1), c - 1) == h && !Tag(z, h).free
  {
    hide Pow2, Aligned, Coalesced, HolesClean, NoDuplicates, Xor, Listed;
    var a, l, r := Block(h, c), Block(h, c - 1), Block(Buddy(h, c - 1), c - 1);
    assert Whole(z, a);
    Halves(h, c - 1);
    BuddyFacts(h, c - 1);
    HeadInBlock(l);
    HeadInBlock(r);
    HalfRanges(h, c - 1, l.head);
    HalfRanges(h, c - 1, r.head);
    BusyNotListed(z, {}, a, l.head, l);
    BusyNotListed(z, {}, a, r.head, r);
  }

  lemma SplitOwner(z: Zone, h: nat, c: nat)
    requires Whole(z, Block(h, c)) && 0 < c <= |z.lists| && z.begin <= Buddy(h, c - 1) < z.begin + |z.page|
    requires Owned(z) && Buddy(h, c - 1) == h + Pow2(c - 1) && Aligned(h, c - 1) && Aligned(Buddy(h, c - 1), c - 1)
    ensures Reowned(z, Split(z, h, c), SplitStep(h, c))
  {
    hide Aligned, Pow2, Xor;
    var a, l, r, t := Block(h, c), Block(h, c - 1), Block(Buddy(h, c - 1), c - 1), Split(z, h, c);
    forall p: nat
      ensures InBlock(p, a) <==> InBlock(p, l) || InBlock(p, r)
      ensures !(InBlock(p, l) && InBlock(p, r))
    {
      HalfRanges(h, c - 1, p);
    }
    HeadInBlock(l);
    HeadInBlock(r);
    assert Whole(t, l);
    assert Whole(t, r);
  }

  lemma SplitInv(z: Zone, h: nat, c: nat)
    requires Valid(z) && 0 < c && Block(h, c) in z.busy
    ensures c <= MAX_ORDER && z.begin <= Buddy(h, c - 1) < z.end
    ensures Valid(Split(z, h, c))
  {
    hide Pow2, Aligned, Xor, Inv, Unmerged, Coalesced, BusyWhole, HolesClean, FreeWhole, Whole, FreePages, Owned;
    hide Reowned, InBlock;
    InvParts(z, {});
    SplitHalves(z, h, c);
    SplitOwner(z, h, c);
    var t, r, s := Split(z, h, c), Buddy(h, c - 1), SplitStep(h, c);
    PushCoalesced(z, t, c - 1, r);
    PushShape(z, t, c - 1, r);
    forall b ensures Listed(t, b) <==> Listed(z, b) || b == Block(r, c - 1) { PushListed(z, t, c - 1, r, b); }
    Regroup(z, t, s, {}, {});
  }

  lemma SplitFree(z: Zone, h: nat, c: nat, p: nat)
    requires 0 < c <= |z.lists| && z.begin <= Buddy(h, c - 1) < z.begin + |z.page|
    requires Whole(z, Block(h, c)) && Block(h, c) in z.busy
    requires Block(h, c - 1) !in z.busy && Block(Buddy(h, c - 1), c - 1) !in z.busy
    requires Buddy(h, c - 1) == h + Pow2(c - 1)
    requires p in z.owner ==> InBlock(p, z.owner[p])
    ensures p in FreePages(Split(z, h, c)) <==> p in FreePages(z) || InBlock(p, Block(Buddy(h, c - 1), c - 1))
  {
    hide Aligned, Xor;
    HalfRanges(h, c - 1, p);
    HeadInBlock(Block(Buddy(h, c - 1), c - 1));
  }

  lemma SplitKeeps(z: Zone, h: nat, c: nat)
    requires Valid(z) && 0 < c && Block(h, c) in z.busy
    ensures c <= MAX_ORDER && z.begin <= Buddy(h, c - 1) < z.end
    ensures Valid(Split(z, h, c)) && Block(h, c - 1) in Split(z, h, c).busy
    ensures FreePages(Split(z, h, c)) == FreePages(z) + Pages(Block(Buddy(h, c - 1), c - 1))
  {
    hide Pow2, Aligned, Xor, Inv, Listed, FreePages, InBlock, Coalesced, Whole;
    InvParts(z, {});
    SplitInv(z, h, c);
    SplitHalves(z, h, c);
    forall p: nat
      ensures p in FreePages(Split(z, h, c)) <==> p in FreePages(z) || InBlock(p, Block(Buddy(h, c - 1), c - 1))
    {
      SplitFree(z, h, c, p);
    }
  }

  function MergeStep(h: nat, k: nat): Step {
    Step({Block(h, k), Block(Buddy(h, k), k)}, {}, {Parent(h, k)}, h)
  }

  lemma MergeListed(z: Zone, h: nat, k: nat, b: Block)
    requires Shape(z) && k <= MAX_ORDER
    ensures Listed(Merge(z, h, k), b) <==> Listed(z, b) && b != Block(Buddy(h, k), k)
    ensures Shape(Merge(z, h, k))
  {
    hide Pow2, Xor;
    assert NoDuplicates(z.lists[k]);
    RemoveFacts(z.lists[k], Buddy(h, k));
  }

  /** What uniting a held block with its free buddy means for the two halves. */
  lemma MergeHalves(z: Zone, h: nat, k: nat)
    requires Inv(z, {Block(h, k)}) && Block(h, k) in z.busy && Listed(z, Block(Buddy(h, k), k))
    ensures Whole(z, Block(h, k)) && Whole(z, Block(Buddy(h, k), k)) && Block(Buddy(h, k), k) !in z.busy
    ensures !Listed(z, Parent(h, k)) && Parent(h, k) !in z.busy && !Listed(z, Block(h, k))
    ensures k < MAX_ORDER ==> Aligned(Parent(h, k).head, k + 1)
    ensures forall p :: InBlock(p, Parent(h, k)) <==> InBlock(p, Block(h, k)) || InBlock(p, Block(Buddy(h, k), k))
  {
    hide Pow2, Aligned, Coalesced, HolesClean, NoDuplicates, Xor, Listed;
    var a, b := Block(h, k), Block(Buddy(h, k), k);
    assert Whole(z, a) && Whole(z, b);
    BuddyFacts(h, k);
    HeadInBlock(a);
    BusyNotListed(z, {a}, a, h, Parent(h, k));
  }

  lemma MergeOwner(z: Zone, h: nat, k: nat)
    requires Owned(z) && k < |z.lists| && k < MAX_ORDER
    requires Whole(z, Block(h, k)) && Whole(z, Block(Buddy(h, k), k)) && Aligned(Parent(h, k).head, k + 1)
    requires forall p :: InBlock(p, Parent(h, k)) <==> InBlock(p, Block(h, k)) || InBlock(p, Block(Buddy(h, k), k))
    ensures Reowned(z, Merge(z, h, k), MergeStep(h, k))
    ensures Retagged(z, Merge(z, h, k), MergeStep(h, k), {Parent(h, k)})
  {
    hide Aligned, Pow2, Xor, InBlock;
    var t := Merge(z, h, k);
    HeadInBlock(Parent(h, k));
    HeadInBlock(Block(h, k));
    assert Whole(t, Parent(h, k));
  }

  lemma MergeInv(z: Zone, h: nat, k: nat)
    requires Inv(z, {Block(h, k)}) && Block(h, k) in z.busy && Listed(z, Block(Buddy(h, k), k)) && k < MAX_ORDER
    ensures Inv(Merge(z, h, k), {Parent(h, k)})
  {
    hide Pow2, Aligned, Xor, Inv, Unmerged, Coalesced, BusyWhole, HolesClean, FreeWhole, Whole, FreePages, Owned;
    hide Reowned, Retagged, InBlock, Parent;
    InvParts(z, {Block(h, k)});
    MergeHalves(z, h, k);
    MergeOwner(z, h, k);
    var t := Merge(z, h, k);
    MergeListed(z, h, k, Block(h, k));
    forall b ensures Listed(t, b) <==> Listed(z, b) && b != Block(Buddy(h, k), k) { MergeListed(z, h, k, b); }
    SubsetCoalesced(z, t);
    Regroup(z, t, MergeStep(h, k), {Block(h, k)}, {Parent(h, k)});
  }

  lemma MergeFree(z: Zone, h: nat, k: nat, p: nat)
    requires k < |z.lists| && Whole(z, Block(h, k)) && Whole(z, Block(Buddy(h, k), k))
    requires Block(h, k) in z.busy && Block(Buddy(h, k), k) !in z.busy && Parent(h, k) !in z.busy
    requires p in z.owner ==> InBlock(p, z.owner[p])
    requires InBlock(p, Parent(h, k)) ==> InBlock(p, Block(h, k)) || InBlock(p, Block(Buddy(h, k), k))
    ensures p in FreePages(Merge(z, h, k)) <==> p in FreePages(z) && !InBlock(p, Block(Buddy(h, k), k))
  {
    hide Aligned, Xor;
  }

  lemma MergeKeeps(z: Zone, h: nat, k: nat)
    requires Inv(z, {Block(h, k)}) && Block(h, k) in z.busy && Listed(z, Block(Buddy(h, k), k)) && k < MAX_ORDER
    ensures Inv(Merge(z, h, k), {Parent(h, k)}) && Parent(h, k) in Merge(z, h, k).busy
    ensures FreePages(Merge(z, h, k)) + Pages(Parent(h, k)) == FreePages(z) + Pages(Block(h, k))
  {
    hide Pow2, Aligned, Xor, Inv, Listed, FreePages, InBlock, Coalesced, Whole, Parent;
    InvParts(z, {Block(h, k)});
    MergeInv(z, h, k);
    MergeHalves(z, h, k);
    forall p: nat
      ensures p in FreePages(Merge(z, h, k)) <==> p in FreePages(z) && !InBlock(p, Block(Buddy(h, k), k))
    {
      MergeFree(z, h, k, p);
    }
    forall p: nat | InBlock(p, Block(Buddy(h, k), k)) ensures p in FreePages(z) {
      BlockFree(z, Block(Buddy(h, k), k), p);
    }
  }

  lemma BlockFree(z: Zone, b: Block, p: nat)
    requires Whole(z, b) && b !in z.busy && InBlock(p, b)
    ensures p in FreePages(z)
  {}

  lemma ReturnKeeps(z: Zone, h: nat, k: nat)
    requires Inv(z, {Block(h, k)}) && Block(h, k) in z.busy
    requires k == MAX_ORDER || !Listed(z, Block(Buddy(h, k), k))
    ensures k <= MAX_ORDER && z.begin <= h < z.end
    ensures Valid(Return(z, h, k))
    ensures FreePages(Return(z, h, k)) == FreePages(z) + Pages(Block(h, k))
  {
    hide Pow2, Aligned, Xor, Inv, Unmerged, Coalesced, BusyWhole, HolesClean, FreeWhole, Whole, FreePages, InBlock;
    InvParts(z, {Block(h, k)});
    BusyFacts(z, {Block(h, k)}, Block(h, k));
    var a, t := Block(h, k), Return(z, h, k);
    PushCoalesced(z, t, k, h);
    PushShape(z, t, k, h);
    forall b ensures Listed(t, b) <==> Listed(z, b) || b == a { PushListed(z, t, k, h, b); }
    ReturnOwner(z, h, k);
    Regroup(z, t, Step({a}, {a}, {}, h), {a}, {});
    forall p: nat ensures p in FreePages(t) <==> p in FreePages(z) || InBlock(p, a) {
      ReturnFree(z, h, k, p);
    }
  }

  lemma BusyFacts(z: Zone, pending: set<Block>, b: Block)
    requires Inv(z, pending) && b in z.busy
    ensures Whole(z, b) && !Listed(z, b) && z.begin <= b.head < z.end && b.order <= MAX_ORDER
    ensures Aligned(b.head, b.order)
  {
    hide Pow2, Aligned, Coalesced, HolesClean, NoDuplicates;
  }

  lemma ReturnOwner(z: Zone, h: nat, k: nat)
    requires Owned(z) && Whole(z, Block(h, k)) && k < |z.lists| && z.begin <= h < z.begin + |z.page|
    ensures Reowned(z, Return(z, h, k), Step({Block(h, k)}, {Block(h, k)}, {}, h))
    ensures Retagged(z, Return(z, h, k), Step({Block(h, k)}, {Block(h, k)}, {}, h), {})
  {
    hide Aligned, Pow2, InBlock;
    HeadInBlock(Block(h, k));
    assert Whole(Return(z, h, k), Block(h, k));
  }

  lemma ReturnFree(z: Zone, h: nat, k: nat, p: nat)
    requires k < |z.lists| && z.begin <= h < z.begin + |z.page| && Whole(z, Block(h, k)) && Block(h, k) in z.busy
    requires p in z.owner ==> InBlock(p, z.owner[p])
    ensures p in FreePages(Return(z, h, k)) <==> p in FreePages(z) || InBlock(p, Block(h, k))
  {
    hide Aligned, Pow2;
  }

  // ---- handing a range of pages to the zone ----

  /** Adds a block of pages the zone has not had before, at the tail of its list. */
  function Give(z: Zone, h: nat, k: nat): Zone
    requires k < |z.lists| && z.begin <= h < z.begin + |z.page|
  {
    z.(page := z.page[h - z.begin := Page(true, k)], lists := z.lists[k := z.lists[k] + [h]],
    owner := z.owner + map p | p in Pages(Block(h, k)) :: Block(h, k))
  }

  lemma GiveListed(z: Zone, h: nat, k: nat, b: Block)
    requires Shape(z) && k <= MAX_ORDER && z.begin <= h < z.begin + |z.page|
    ensures Listed(Give(z, h, k), b) <==> Listed(z, b) || b == Block(h, k)
  {
    hide Pow2;
  }

  lemma GiveShape(z: Zone, h: nat, k: nat)
    requires Shape(z) && k <= MAX_ORDER && z.begin <= h && h + Pow2(k) <= z.end && !Listed(z, Block(h, k))
    ensures Shape(Give(z, h, k))
  {}

  lemma GiveOwner(z: Zone, h: nat, k: nat, p: nat)
    requires k < |z.lists| && z.begin <= h < z.begin + |z.page|
    requires forall q :: InBlock(q, Block(h, k)) ==> q !in z.owner
    ensures var t := Give(z, h, k);
            && (p in t.owner <==> p in z.owner || InBlock(p, Block(h, k)))
            && (p in z.owner ==> t.owner[p] == z.owner[p])
            && (InBlock(p, Block(h, k)) ==> t.owner[p] == Block(h, k))
            && Tag(t, p) == if p == h then Page(true, k) else Tag(z, p)
  {
    hide Pow2, InBlock;
  }

  lemma GiveWhole(z: Zone, h: nat, k: nat, b: Block)
    requires k < |z.lists| && z.begin <= h < z.begin + |z.page|
    requires forall q :: InBlock(q, Block(h, k)) ==> q !in z.owner
    requires Whole(z, b)
    ensures Whole(Give(z, h, k), b) && Tag(Give(z, h, k), b.head) == Tag(z, b.head)
  {
    hide Pow2, Aligned, Give, InBlock;
    HeadInBlock(Block(h, k));
    GiveOwner(z, h, k, b.head);
    forall p | InBlock(p, b) ensures p in Give(z, h, k).owner && Give(z, h, k).owner[p] == b {
      GiveOwner(z, h, k, p);
    }
  }

  lemma GiveNew(z: Zone, h: nat, k: nat)
    requires k <= MAX_ORDER && k < |z.lists| && Aligned(h, k) && z.begin <= h < z.begin + |z.page|
    requires forall q :: InBlock(q, Block(h, k)) ==> q !in z.owner
    ensures Whole(Give(z, h, k), Block(h, k))
  {
    hide Pow2, Aligned, Give, InBlock;
    HeadInBlock(Block(h, k));
    forall p ensures InBlock(p, Block(h, k)) ==> p in Give(z, h, k).owner && Give(z, h, k).owner[p] == Block(h, k) {
      if InBlock(p, Block(h, k)) { GiveOwner(z, h, k, p); }
    }
  }

  lemma GiveCoalesced(z: Zone, h: nat, k: nat)
    requires Shape(z) && FreeWhole(z) && Coalesced(z) && k <= MAX_ORDER && Aligned(h, k)
    requires z.begin <= h < z.begin + |z.page|
    requires k < MAX_ORDER ==> !Listed(z, Block(Buddy(h, k), k))
    ensures Coalesced(Give(z, h, k))
  {
    hide Pow2, Aligned, Xor, FreeWhole, Listed;
    BuddyFacts(h, k);
    forall b: Block | b.order < MAX_ORDER ensures !Unmerged(Give(z, h, k), b) {
      var b' := Block(Buddy(b.head, b.order), b.order);
      GiveListed(z, h, k, b);
      GiveListed(z, h, k, b');
      assert !Unmerged(z, b);
      if b' == Block(h, k) && Listed(z, b) {
        ListedAligned(z, b);
        BuddyFacts(b.head, k);
      }
    }
  }

  lemma GiveKeeps(z: Zone, h: nat, k: nat)
    requires Valid(z) && k <= MAX_ORDER && Aligned(h, k) && z.begin <= h && h + Pow2(k) <= z.end
    requires forall q :: InBlock(q, Block(h, k)) ==> q !in z.owner
    requires k < MAX_ORDER ==> !Listed(z, Block(Buddy(h, k), k))
    ensures Valid(Give(z, h, k))
    ensures Give(z, h, k).owner.Keys == z.owner.Keys + Pages(Block(h, k))
    ensures FreePages(Give(z, h, k)) == FreePages(z) + Pages(Block(h, k))
  {
    hide Pow2, Aligned, Xor, Inv, Unmerged, Coalesced, Whole, InBlock, Listed, Give, Tag, NoDuplicates;
    InvParts(z, {});
    var a, t := Block(h, k), Give(z, h, k);
    HeadInBlock(a);
    GiveFresh(z, h, k);
    GiveShape(z, h, k);
    GiveNew(z, h, k);
    GiveCoalesced(z, h, k);
    forall b ensures Listed(t, b) <==> Listed(z, b) || b == a { GiveListed(z, h, k, b); }
    forall p: nat ensures p in t.owner <==> p in z.owner || InBlock(p, a)
      ensures p in z.owner ==> t.owner[p] == z.owner[p]
      ensures InBlock(p, a) ==> t.owner[p] == a
      ensures Tag(t, p) == if p == h then Page(true, k) else Tag(z, p)
    { GiveOwner(z, h, k, p); }
    assert t.busy == z.busy by { GiveBusy(z, h, k); }
    assert Owned(t);
    forall b | Whole(z, b) ensures Whole(t, b) && Tag(t, b.head) == Tag(z, b.head) { GiveWhole(z, h, k, b); }
    InvFrom(t, {});
  }

  lemma GiveBusy(z: Zone, h: nat, k: nat)
    requires k < |z.lists| && z.begin <= h < z.begin + |z.page|
    ensures Give(z, h, k).busy == z.busy
  {}

  lemma GiveFresh(z: Zone, h: nat, k: nat)
    requires FreeWhole(z) && BusyWhole(z, {}) && h !in z.owner
    ensures !Listed(z, Block(h, k)) && Block(h, k) !in z.busy
  {
    hide Listed;
    assert !Whole(z, Block(h, k));
  }

  /** `b` cannot be united with its buddy inside [begin, end). */
  predicate Stuck(b: Block, begin: nat, end: nat) {
    b.order == MAX_ORDER || Parent(b.head, b.order).head < begin
    || end < Parent(b.head, b.order).head + Pow2(b.order + 1)
  }

  /** The blocks of [begin, upto) cut so far, none of which could have been cut larger. */
  ghost predicate Greedy(z: Zone, begin: nat, upto: nat, end: nat) {
    && (forall p :: begin <= p < upto ==> p in z.owner)
    && (forall p :: upto <= p <= end ==> p !in z.owner)
    && (begin > 0 ==> begin - 1 !in z.owner)
    && (forall b :: Listed(z, b) && begin <= b.head < upto ==> Stuck(b, begin, end))
    && (forall p :: begin <= p < upto ==> z.owner[p] !in z.busy)
  }

  /** The cutting rule of buddy_zone_free: the order stops at the first set bit of the page
      number or at the first doubling that leaves the range. */
  predicate CutHere(page: nat, order: nat, end: nat) {
    && order <= MAX_ORDER && Aligned(page, order) && page + Pow2(order) <= end
    && (order == MAX_ORDER || Bit(page, order) || page + Pow2(order + 1) > end)
  }

  lemma CutIsStuck(z: Zone, begin: nat, page: nat, k: nat, end: nat)
    requires Valid(z) && begin <= page < end && Greedy(z, begin, page, end) && CutHere(page, k, end)
    ensures Stuck(Block(page, k), begin, end)
  {
    hide Pow2, Aligned, Xor, Inv, Listed, Bit, Whole, InBlock;
    BuddyFacts(page, k);
    var left := Buddy(page, k);
    if k < MAX_ORDER && Bit(page, k) && begin <= left {
      LeftFacts(page, k);
      assert left in z.owner;
      var o := z.owner[left];
      OwnerWhole(z, {}, left);
      OwnerListed(z, left);
      HeadOrBoth(o, page, k);
      if o.order > k {
        WholeOwns(z, o, page);
        assert false;
      }
      StuckLeft(o, page, k, begin, end);
    }
  }

  lemma LeftFacts(page: nat, k: nat)
    requires Aligned(page, k) && Bit(page, k)
    ensures Buddy(page, k) < page && Parent(page, k).head == Buddy(page, k) && Buddy(page, k) + Pow2(k) == page
  {
    hide Xor;
    BuddyFacts(page, k);
  }

  lemma WholeMisses(z: Zone, b: Block, p: nat)
    requires Whole(z, b) && p !in z.owner
    ensures !InBlock(p, b)
  {}

  lemma WholeOwns(z: Zone, o: Block, p: nat)
    requires Whole(z, o) && InBlock(p, o)
    ensures p in z.owner
  {}

  lemma OwnerListed(z: Zone, p: nat)
    requires Valid(z) && p in z.owner && z.owner[p] !in z.busy
    ensures Listed(z, z.owner[p]) && InBlock(p, z.owner[p])
  {}

  lemma StuckLeft(o: Block, page: nat, k: nat, begin: nat, end: nat)
    requires Aligned(page, k) && Bit(page, k) && k < MAX_ORDER && o.head == Buddy(page, k) && o.order <= k
    requires begin <= o.head && page + Pow2(k) <= end
    ensures !Stuck(o, begin, end)
  {
    hide Pow2, Aligned, Xor, Bit, InBlock;
    Pow2Even(k + 1);
    Pow2Even(o.order + 1);
    LeftFacts(page, k);
    BuddyFacts(page, k);
    AlignedDown(o.head, o.order + 1, k + 1);
    AlignedDown(o.head, o.order, o.order + 1);
    AlignedUp(o.head, o.order);
    BuddyFacts(o.head, o.order);
    Pow2Monotone(o.order + 1, k + 1);
  }

  /** The buddy of the block being cut is never free: it straddles an end of the range, or
      the two would have been cut as one. */
  lemma CutBuddyBusy(z: Zone, begin: nat, page: nat, k: nat, end: nat)
    requires Valid(z) && begin <= page < end && Greedy(z, begin, page, end) && CutHere(page, k, end) && k < MAX_ORDER
    ensures !Listed(z, Block(Buddy(page, k), k))
  {
    hide Pow2, Aligned, Xor, Inv, Listed, Bit, Whole, InBlock, Stuck;
    var b := Block(Buddy(page, k), k);
    BuddyFacts(page, k);
    if Listed(z, b) {
      ListedWhole(z, b);
      if begin > 0 { WholeMisses(z, b, begin - 1); }
      WholeMisses(z, b, end);
      if Bit(page, k) {
        LeftFacts(page, k);
        LeftPages(page, k, begin);
        StuckBuddy(page, k, begin, end);
      } else {
        RightPages(page, k, end);
      }
    }
  }

  lemma LeftPages(page: nat, k: nat, begin: nat)
    requires Buddy(page, k) + Pow2(k) == page
    ensures Buddy(page, k) < begin <= page ==> InBlock(begin - 1, Block(Buddy(page, k), k))
  {}

  lemma RightPages(page: nat, k: nat, end: nat)
    requires CutHere(page, k, end) && k < MAX_ORDER && !Bit(page, k)
    ensures InBlock(end, Block(Buddy(page, k), k))
  {
    hide Xor;
    BuddyFacts(page, k);
  }

  lemma StuckBuddy(page: nat, k: nat, begin: nat, end: nat)
    requires Aligned(page, k) && Bit(page, k) && k < MAX_ORDER && page + Pow2(k) <= end
    ensures begin <= Buddy(page, k) ==> !Stuck(Block(Buddy(page, k), k), begin, end)
  {
    LeftFacts(page, k);
    BuddyFacts(page, k);
  }

  lemma CutKeeps(z: Zone, begin: nat, page: nat, k: nat, end: nat)
    requires Valid(z) && z.begin <= begin <= page < end <= z.end && Greedy(z, begin, page, end) && CutHere(page, k, end)
    ensures Valid(Give(z, page, k))
    ensures Greedy(Give(z, page, k), begin, page + Pow2(k), end)
    ensures Give(z, page, k).owner.Keys == z.owner.Keys + Pages(Block(page, k))
    ensures FreePages(Give(z, page, k)) == FreePages(z) + Pages(Block(page, k))
  {
    hide Pow2, Aligned, Xor, Inv, Listed, Bit, Whole, Stuck, Give, FreePages;
    ValidShape(z);
    var a, t := Block(page, k), Give(z, page, k);
    if k < MAX_ORDER { CutBuddyBusy(z, begin, page, k, end); }
    CutIsStuck(z, begin, page, k, end);
    GiveKeeps(z, page, k);
    forall b ensures Listed(t, b) <==> Listed(z, b) || b == a { GiveListed(z, page, k, b); }
    forall b | Listed(t, b) && begin <= b.head < page + Pow2(k) ensures Stuck(b, begin, end) {
      if b != a && page <= b.head {
        ListedWhole(z, b);
        assert false;
      }
    }
    GiveBusy(z, page, k);
    BusyOwned(z, a);
    forall p: nat ensures p in t.owner <==> p in z.owner || InBlock(p, a)
      ensures p in z.owner ==> t.owner[p] == z.owner[p]
      ensures InBlock(p, a) ==> t.owner[p] == a
    { GiveOwner(z, page, k, p); }
  }

  lemma ValidShape(z: Zone)
    requires Valid(z)
    ensures Shape(z)
  {}

  lemma BusyOwned(z: Zone, a: Block)
    requires Valid(z) && a.head !in z.owner
    ensures a !in z.busy
  {}
}
