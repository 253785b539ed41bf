/** The sweep of __pt_unmap over a whole table: every entry it meets is emptied, every leaf
    and every table below is given up once, and no other table is touched. */
module UserSweep {
  import opened Bits
  import opened BuddyZone
  import opened Paging
  import opened MapLoop
  import opened UserTree

  const LO: nat := 0
  const HI: nat := 256
  /** HIGHER_BASE & USER_MASK, the size of the user half. */
  const HALF: nat := 0x8000_0000_0000

  /** The two spaces account for the same held blocks outside themselves. */
  ghost predicate SameRest(s0: Space, busy0: set<Block>, s: Space, busy: set<Block>) {
    busy - Holds(s, LO, HI) == busy0 - Holds(s0, LO, HI)
  }

  lemma RestGrows(s0: Space, busy0: set<Block>, s: Space, busy: set<Block>, t: Space, b: Block)
    requires SameRest(s0, busy0, s, busy) && b !in busy && Holds(s, LO, HI) <= busy
    requires Holds(t, LO, HI) == Holds(s, LO, HI) + {b}
    ensures SameRest(s0, busy0, t, busy + {b})
  {
    hide Holds;
  }

  lemma RestShrinks(s0: Space, busy0: set<Block>, s: Space, busy: set<Block>, t: Space, b: Block)
    requires SameRest(s0, busy0, s, busy) && b in Holds(s, LO, HI) && Holds(s, LO, HI) <= busy
    requires Holds(t, LO, HI) == Holds(s, LO, HI) - {b}
    ensures SameRest(s0, busy0, t, busy - {b})
  {
    hide Holds;
  }

  lemma RestTrans(s0: Space, busy0: set<Block>, s: Space, busy: set<Block>, t: Space, busy1: set<Block>)
    requires SameRest(s0, busy0, s, busy) && SameRest(s, busy, t, busy1)
    ensures SameRest(s0, busy0, t, busy1)
  {}

  /** The tables of other address spaces are held too, by blocks this space does not hold. */
  ghost predicate Others(s: Space, busy: set<Block>) {
    forall f :: f in s.mem && f !in s.info ==> f % PAGE == 0 && TableBlock(f) in busy - Holds(s, LO, HI)
  }

  ghost predicate TablesBusy(mem: Tables, busy: set<Block>) {
    forall f :: f in mem ==> f % PAGE == 0 && TableBlock(f) in busy
  }

  lemma OthersKept(s0: Space, busy0: set<Block>, s: Space, busy: set<Block>)
    requires Others(s0, busy0) && SameRest(s0, busy0, s, busy)
    requires s.mem.Keys - s.info.Keys == s0.mem.Keys - s0.info.Keys
    ensures Others(s, busy)
  {
    hide Holds, TableBlock;
    forall f | f in s.mem && f !in s.info ensures f in s0.mem && f !in s0.info {
      assert f in s.mem.Keys - s.info.Keys;
    }
  }

  lemma OthersBusy(s: Space, root: nat, busy: set<Block>)
    requires User(s, root, LO, HI, busy) && Others(s, busy)
    ensures TablesBusy(s.mem, busy)
  {
    hide Holds, TableBlock, Tree, Hung, LeavesHeld, HeldOnce;
  }

  /** Tables of other spaces and the kernel half of the root are as they were. */
  ghost predicate Untouched(s: Space, t: Space, root: nat) {
    && t.mem.Keys - t.info.Keys == s.mem.Keys - s.info.Keys
    && (forall g :: g in s.mem && g !in s.info ==> g in t.mem && g !in t.info && t.mem[g] == s.mem[g])
    && (forall i :: HI <= i < 512 ==> Entry(t, root, i) == Entry(s, root, i))
  }

  lemma UntouchedTrans(s: Space, t: Space, u: Space, root: nat)
    requires Untouched(s, t, root) && Untouched(t, u, root)
    ensures Untouched(s, u, root)
  {
    hide Entry;
  }

  lemma UntouchedSelf(s: Space, root: nat)
    ensures Untouched(s, s, root)
  {}

  lemma UntouchedSet(s: Space, root: nat, f: nat, i: nat, pte: Pte)
    requires Tree(s, root, LO, HI) && Mine(s, f, i, LO, HI) && f in s.mem && i < |s.mem[f]|
    ensures Untouched(s, SetEntry(s, f, i, pte), root)
  {
    hide EntriesOk, Placed;
  }

  lemma UntouchedAdd(s: Space, root: nat, f: nat, i: nat, flags: nat, child: nat)
    requires Tree(s, root, LO, HI) && Mine(s, f, i, LO, HI) && f in s.mem && i < |s.mem[f]| && s.info[f].lvl >= 1
    requires child !in s.mem
    ensures Untouched(s, AddTable(s, f, i, flags, child), root)
  {
    hide EntriesOk, Placed, Child;
    var t := AddTable(s, f, i, flags, child);
    assert t.mem.Keys - t.info.Keys == s.mem.Keys - s.info.Keys;
  }

  lemma UntouchedKept(s: Space, t: Space, root: nat)
    requires TablesOk(s, root) && Kept(s, t, root)
    ensures Untouched(s, t, root)
  {
    hide Placed;
    forall g | g in s.mem && g !in s.info ensures g in t.mem && g !in t.info && t.mem[g] == s.mem[g] {}
    forall i | HI <= i < 512 ensures Entry(t, root, i) == Entry(s, root, i) {
      assert !Mine(s, root, i, LO, HI);
    }
  }

  // ---- what a sweep leaves alone ----

  /** From `s` to `t` only tables below `f` went away and only entries of `f` owned by this
      space changed; tables at the level of `f` or above, and all tables of other spaces, stayed. */
  ghost predicate Kept(s: Space, t: Space, f: nat)
    requires f in s.info
  {
    && (forall g :: g in t.info ==> g in s.info && t.info[g] == s.info[g])
    && (forall g :: g in s.info && s.info[g].lvl >= s.info[f].lvl ==> g in t.info)
    && (forall g :: g in s.info && g != f && s.info[g].lvl >= s.info[f].lvl && g in s.mem ==>
                      g in t.mem && t.mem[g] == s.mem[g])
    && (forall g :: g in s.mem && g !in s.info ==> g in t.mem && t.mem[g] == s.mem[g])
    && t.mem.Keys - t.info.Keys == s.mem.Keys - s.info.Keys
    && (f in s.mem ==> f in t.mem && |t.mem[f]| == |s.mem[f]|)
    && (f in s.mem ==> forall i :: 0 <= i < |s.mem[f]| && !Mine(s, f, i, LO, HI) ==> t.mem[f][i] == s.mem[f][i])
  }

  /** What unmapping entries of table `f` leaves: the ownership, the rest of what is held, the
      other spaces, and all tables but those below `f`. */
  ghost predicate Swept(s0: Space, busy0: set<Block>, s: Space, busy: set<Block>, root: nat, f: nat)
    requires f in s0.info
  {
    User(s, root, LO, HI, busy) && SameRest(s0, busy0, s, busy) && Others(s, busy) && Kept(s0, s, f)
  }

  /** Entries `i` to `to` - 1 of `f` were emptied, the others are as they were. */
  ghost predicate EmptiedFrom(s: Space, t: Space, f: nat, i: nat, to: nat) {
    forall j: nat :: if i <= j < to then !Entry(t, f, j).present else Entry(t, f, j) == Entry(s, f, j)
  }

  lemma EmptiedMore(s: Space, u: Space, t: Space, f: nat, i: nat, k: nat, to: nat)
    requires i <= k <= to && EmptiedFrom(s, u, f, i, k) && EmptiedFrom(u, t, f, k, to)
    ensures EmptiedFrom(s, t, f, i, to)
  {
    hide Entry;
  }

  lemma SweptStarts(s: Space, busy: set<Block>, root: nat, f: nat)
    requires User(s, root, LO, HI, busy) && Others(s, busy) && f in s.info
    ensures Swept(s, busy, s, busy, root, f)
  {
    hide User, Others, Mine, Entry;
  }

  lemma SweptParts(s0: Space, busy0: set<Block>, s: Space, busy: set<Block>, root: nat, f: nat)
    requires f in s0.info && Swept(s0, busy0, s, busy, root, f)
    ensures User(s, root, LO, HI, busy) && SameRest(s0, busy0, s, busy) && Others(s, busy) && Kept(s0, s, f)
    ensures Tree(s, root, LO, HI) && Hung(s, root, LO, HI) && TablesBusy(s.mem, busy)
    ensures f in s.info && s.info[f] == s0.info[f] && f in s.mem && |s.mem[f]| == 512 && 1 <= s.info[f].lvl <= 4
    ensures s.info[f].lvl == 4 <==> f == root
  {
    hide Others, Mine, Entry, SameRest, LeavesHeld, TablesHeld, HeldOnce, Hung, EntriesOk, Placed, Size;
    OthersBusy(s, root, busy);
    PlacedLevel(s.info[f]);
  }

  lemma SweptTrans(s0: Space, busy0: set<Block>, s: Space, busy: set<Block>, t: Space, busy1: set<Block>, root: nat,
                   f: nat)
    requires f in s0.info && f in s.info && Swept(s0, busy0, s, busy, root, f) && Swept(s, busy, t, busy1, root, f)
    ensures Swept(s0, busy0, t, busy1, root, f)
  {
    hide User, Others, SameRest, Placed, Size;
    RestTrans(s0, busy0, s, busy, t, busy1);
    KeptTrans(s0, s, t, f);
  }

  lemma KeptTrans(s0: Space, s: Space, t: Space, f: nat)
    requires f in s0.info && f in s.info && Kept(s0, s, f) && Kept(s, t, f)
    ensures Kept(s0, t, f)
  {
    MineSame(s0, s, f);
    hide Placed, Size, Mine;
  }

  lemma KeptSet(s0: Space, s: Space, f: nat, i: nat, pte: Pte)
    requires f in s0.info && Kept(s0, s, f) && Mine(s, f, i, LO, HI) && f in s.mem && i < |s.mem[f]|
    ensures Kept(s0, SetEntry(s, f, i, pte), f)
  {
    assert Mine(s0, f, i, LO, HI);
  }

  lemma SetMemKeys(s: Space, f: nat, i: nat, pte: Pte)
    requires f in s.mem && i < |s.mem[f]|
    ensures SetEntry(s, f, i, pte).mem.Keys == s.mem.Keys
    ensures SetEntry(s, f, i, pte).mem[f] == s.mem[f][i := pte]
  {}

  /** A leaf is cleared. */
  lemma SweptLeaf(s: Space, busy: set<Block>, root: nat, f: nat, i: nat)
    requires User(s, root, LO, HI, busy) && Others(s, busy)
    requires Mine(s, f, i, LO, HI) && Leaf(Entry(s, f, i), s.info[f].lvl)
    ensures f in s.info && f in s.mem && i < |s.mem[f]| && LeafOf(s, f, i) == LeafBlock(Entry(s, f, i), s.info[f].lvl)
    ensures LeafOf(s, f, i) in busy
    ensures Swept(s, busy, SetEntry(s, f, i, ABSENT), busy - {LeafOf(s, f, i)}, root, f)
    ensures TablesBusy(SetEntry(s, f, i, ABSENT).mem, busy - {LeafOf(s, f, i)})
    ensures EmptiedFrom(s, SetEntry(s, f, i, ABSENT), f, i, i + 1)
  {
    hide *;
    MineIndex(s, f, i, LO, HI);
    SweptStarts(s, busy, root, f);
    SweptParts(s, busy, s, busy, root, f);
    HasLeafFrom(s, f, i);
    ClearLeaf(s, root, LO, HI, busy, f, i);
    HoldsBusy(s, root, LO, HI, busy);
    var t, b := SetEntry(s, f, i, ABSENT), LeafOf(s, f, i);
    RestShrinks(s, busy, s, busy, t, b);
    SetInfo(s, f, i, ABSENT);
    SetMemKeys(s, f, i, ABSENT);
    OthersKept(s, busy, t, busy - {b});
    KeptSet(s, s, f, i, ABSENT);
    OthersBusy(t, root, busy - {b});
    SweptFrom(s, busy, t, busy - {b}, root, f);
    OneEmptied(s, t, f, i);
  }

  lemma SweptFrom(s0: Space, busy0: set<Block>, s: Space, busy: set<Block>, root: nat, f: nat)
    requires f in s0.info && User(s, root, LO, HI, busy) && SameRest(s0, busy0, s, busy) && Others(s, busy)
    requires Kept(s0, s, f)
    ensures Swept(s0, busy0, s, busy, root, f)
  {}

  lemma OneEmptied(s: Space, t: Space, f: nat, i: nat)
    requires f in s.mem && |s.mem[f]| == 512 && i < 512 && f in t.mem && t.mem[f] == s.mem[f][i := ABSENT]
    ensures EmptiedFrom(s, t, f, i, i + 1)
  {}

  lemma RestSelf(s: Space, busy: set<Block>)
    ensures SameRest(s, busy, s, busy)
  {}

  lemma HasLeafFrom(s: Space, f: nat, i: nat)
    requires Mine(s, f, i, LO, HI) && Leaf(Entry(s, f, i), s.info[f].lvl)
    ensures HasLeaf(s, f, i, LO, HI) && LeafOf(s, f, i) == LeafBlock(Entry(s, f, i), s.info[f].lvl)
  {}

  /** The recursive call left table `f` alone. */
  lemma SweptChild(s: Space, t: Space, root: nat, f: nat, i: nat, child: nat)
    requires Tree(s, root, LO, HI) && f in s.info && Mine(s, f, i, LO, HI) && Link(Entry(s, f, i), s.info[f].lvl)
    requires child == Entry(s, f, i).phys && child in s.info && s.info[child].lvl == s.info[f].lvl - 1
    requires Kept(s, t, child)
    ensures f in t.info && t.info[f] == s.info[f] && child in t.info && child != f && f in t.mem && t.mem[f] == s.mem[f]
    ensures |t.mem[f]| == 512 && i < 512 && UserTree.Parent(t, f, i, child, LO, HI)
  {
    hide Placed, Size, EntriesOk;
  }

  lemma KeptDrop(s0: Space, s: Space, t: Space, f: nat, i: nat, child: nat)
    requires f in s0.info && Kept(s0, s, f) && f in s.info && s.info[f] == s0.info[f] && f in s.mem
    requires child in s.info && s.info[child].lvl < s.info[f].lvl && Kept(s, t, child)
    requires f in t.mem && t.mem[f] == s.mem[f] && i < |t.mem[f]| && child in t.info && child in s0.info
    requires Mine(s, f, i, LO, HI)
    ensures Kept(s0, DropTable(t, f, i, child), f)
  {
    MineSame(s0, s, f);
    KeptThrough(s0, s, t, f, child);
    hide Placed, Size, Mine;
    var u := DropTable(t, f, i, child);
    assert u.mem.Keys - u.info.Keys == t.mem.Keys - t.info.Keys by { assert child !in t.mem.Keys - t.info.Keys; }
  }

  lemma MineSame(s: Space, t: Space, f: nat)
    requires f in s.info && f in t.info && t.info[f] == s.info[f]
    ensures forall i: nat :: Mine(s, f, i, LO, HI) == Mine(t, f, i, LO, HI)
  {}

  /** What a sweep of the child kept, a sweep of its parent keeps. */
  lemma KeptThrough(s0: Space, s: Space, t: Space, f: nat, child: nat)
    requires f in s0.info && Kept(s0, s, f) && f in s.info && s.info[f] == s0.info[f] && f in s.mem
    requires child in s.info && s.info[child].lvl < s.info[f].lvl && Kept(s, t, child)
    requires f in t.mem && t.mem[f] == s.mem[f]
    ensures Kept(s0, t, f)
  {
    hide Placed, Size, Mine;
  }

  lemma DropMem(t: Space, f: nat, i: nat, child: nat)
    requires f in t.mem && i < |t.mem[f]| && child in t.info && child != f
    ensures f in DropTable(t, f, i, child).mem && DropTable(t, f, i, child).mem[f] == t.mem[f][i := ABSENT]
    ensures DropTable(t, f, i, child).mem.Keys - DropTable(t, f, i, child).info.Keys == t.mem.Keys - t.info.Keys
  {}

  /** The child's page is given up and its entry cleared. */
  lemma SweptTable(s: Space, busy: set<Block>, t: Space, busy1: set<Block>, root: nat, f: nat, i: nat, child: nat)
    requires User(s, root, LO, HI, busy) && Others(s, busy)
    requires Mine(s, f, i, LO, HI) && Link(Entry(s, f, i), s.info[f].lvl) && child == Entry(s, f, i).phys
    requires child in s.info && Swept(s, busy, t, busy1, root, child) && EmptiedFrom(s, t, child, 0, 512)
    ensures f in s.info && f in t.mem && i < |t.mem[f]| && child % PAGE == 0 && TableBlock(child) in busy1
    ensures var u, b := DropTable(t, f, i, child), TableBlock(child);
            Swept(s, busy, u, busy1 - {b}, root, f) && TablesBusy(u.mem, busy1 - {b}) && EmptiedFrom(s, u, f, i, i + 1)
  {
    hide *;
    MineIndex(s, f, i, LO, HI);
    SweptStarts(s, busy, root, f);
    SweptParts(s, busy, s, busy, root, f);
    SweptParts(s, busy, t, busy1, root, child);
    LinkChild(s, root, LO, HI, f, i);
    SweptChild(s, t, root, f, i, child);
    EmptiedAll(s, t, child);
    var u, b := DropTable(t, f, i, child), TableBlock(child);
    DropUser(t, root, LO, HI, busy1, f, i, child);
    HoldsBusy(t, root, LO, HI, busy1);
    RestShrinks(s, busy, t, busy1, u, b);
    RestShrinks(t, busy1, t, busy1, u, b) by { RestSelf(t, busy1); }
    DropMem(t, f, i, child);
    OthersKept(t, busy1, u, busy1 - {b});
    KeptDrop(s, s, t, f, i, child);
    OthersBusy(u, root, busy1 - {b});
    TableAligned(t, root, busy1, child);
    SweptFrom(s, busy, u, busy1 - {b}, root, f);
    OneEmptied(s, u, f, i);
  }

  /** What was unmapped below an entry was unmapped below its table. */
  lemma SweptBelow(s: Space, busy: set<Block>, t: Space, busy1: set<Block>, root: nat, f: nat, i: nat, child: nat)
    requires User(s, root, LO, HI, busy) && Others(s, busy)
    requires Mine(s, f, i, LO, HI) && Link(Entry(s, f, i), s.info[f].lvl) && child == Entry(s, f, i).phys
    requires child in s.info && Swept(s, busy, t, busy1, root, child)
    ensures f in s.info && Swept(s, busy, t, busy1, root, f)
  {
    hide *;
    MineIndex(s, f, i, LO, HI);
    SweptStarts(s, busy, root, f);
    SweptParts(s, busy, s, busy, root, f);
    SweptParts(s, busy, t, busy1, root, child);
    LinkChild(s, root, LO, HI, f, i);
    SweptChild(s, t, root, f, i, child);
    KeptThrough(s, s, t, f, child);
    SweptFrom(s, busy, t, busy1, root, f);
  }

  lemma TableAligned(s: Space, root: nat, busy: set<Block>, f: nat)
    requires User(s, root, LO, HI, busy) && f in s.info
    ensures f % PAGE == 0
  {}

  lemma EmptiedAll(s: Space, t: Space, f: nat)
    requires EmptiedFrom(s, t, f, 0, 512)
    ensures Emptied(t, f, LO, HI)
  {}
}
