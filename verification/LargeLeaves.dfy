/** Where __pt_map_to and __pt_map may hang a table: nowhere that one large leaf could go. */
module LargeLeaves {
  import opened Bits
  import opened Paging
  import opened MapLoop

  /** All that a table at place `d` covers lies in the range and could be one large leaf. */
  predicate Whole(d: Info, v: nat, n: nat, g: Goal) {
    && d.lvl in {1, 2} && v <= d.base && d.base + Size(d.lvl + 1) <= v + n
    && (g.Linearly? ==> (g.phys + (d.base - v)) % Size(d.lvl + 1) == 0)
  }

  /** One large leaf of that level can map the chunk. */
  predicate LeafFits(lvl: nat, v: nat, m: nat, g: Goal) {
    lvl in {2, 3} && m == Size(lvl) && v % Size(lvl) == 0 && (g.Linearly? ==> g.phys % Size(lvl) == 0)
  }

  predicate Spared(c: Info, v: nat, n: nat, g: Goal, out: set<nat>) {
    Whole(c, v, n, g) ==> c.lvl + 1 in out
  }

  predicate Touches(d: Info, v: nat, n: nat) {
    d.base < v + n && v < d.base + Size(d.lvl + 1)
  }

  predicate Below(c: Info, d: Info) {
    c.lvl < d.lvl && d.base <= c.base && c.base + Size(c.lvl + 1) <= d.base + Size(d.lvl + 1)
  }

  /** Every table hung between `before` and `after` lies below `d` and over a part of the range; where one
      large leaf could stand instead, no leaf of that level was to be had: the level is in `out`. */
  predicate Sparing(before: map<nat, Info>, after: map<nat, Info>, d: Info, v: nat, n: nat, g: Goal, out: set<nat>) {
    && (forall c :: c in before ==> c in after && after[c] == before[c])
    && forall c :: c in after && c !in before ==>
                     Below(after[c], d) && Touches(after[c], v, n) && Spared(after[c], v, n, g, out)
  }

  /** Between two chunks the loop stands on an entry border. */
  predicate OnBorder(v: nat, n: nat, size: nat, lvl: nat) {
    n == 0 || n == size || (v + n) % Size(lvl) == 0
  }

  lemma BorderNext(v: nat, n: nat, size: nat, lvl: nat, m: nat)
    requires n <= size && m == Min(size - n, Size(lvl) - (v + n) % Size(lvl))
    ensures OnBorder(v, n + m, size, lvl)
  {
    hide Size;
    if m < size - n {
      var e := Size(lvl);
      assert v + n == e * ((v + n) / e) + (v + n) % e;
      assert v + n + m == e * ((v + n) / e + 1);
      Multiple(e, (v + n) / e + 1);
    }
  }

  /** The table under entry `i` covers the whole of a range's stretch only as a whole chunk. */
  lemma WholeChild(d: Info, i: nat, v: nat, size: nat, g: Goal, n: nat, m: nat)
    requires 1 <= d.lvl && EntryBase(d.base, d.lvl, i) <= v + n < EntryBase(d.base, d.lvl, i) + Size(d.lvl)
    requires n < size && OnBorder(v, n, size, d.lvl) && m == Min(size - n, Size(d.lvl) - (v + n) % Size(d.lvl))
    requires EntryBase(d.base, d.lvl, i) % Size(d.lvl) == 0
    ensures n == 0 || v + n == EntryBase(d.base, d.lvl, i)
    ensures Whole(Child(d, i), v, size, g) ==> LeafFits(d.lvl, v + n, m, Past(g, n))
  {
    hide Size, EntryBase;
    var e, b := Size(d.lvl), EntryBase(d.base, d.lvl, i);
    if n > 0 && v + n > b { MultiplesApart(e, b, v + n); }
  }

  /** What the recursive call has hung is spared in the whole range. */
  lemma SparingBelow(before: map<nat, Info>, after: map<nat, Info>, d: Info, i: nat, v: nat, size: nat, g: Goal, n: nat,
                     m: nat, out: set<nat>)
    requires 1 <= d.lvl && Placed(d) && i < 512
    requires EntryBase(d.base, d.lvl, i) <= v + n < EntryBase(d.base, d.lvl, i) + Size(d.lvl)
    requires n < size && OnBorder(v, n, size, d.lvl) && m == Min(size - n, Size(d.lvl) - (v + n) % Size(d.lvl))
    requires Sparing(before, after, Child(d, i), v + n, m, Past(g, n), out)
    ensures Sparing(before, after, d, v, size, g, out)
  {
    EntryAligned(d, i);
    WholeChild(d, i, v, size, g, n, m);
    ChildBelow(d, i);
    hide Size, EntryBase, Placed;
    var e, b := Size(d.lvl), EntryBase(d.base, d.lvl, i);
    ChunkEnd(v + n, e, b);
    forall c | c in after && c !in before
      ensures Below(after[c], d) && Touches(after[c], v, size) && Spared(after[c], v, size, g, out) {
      BelowTrans(after[c], Child(d, i), d);
      assert Touches(after[c], v, size);
      if Whole(after[c], v, size, g) { WholePart(after[c], Child(d, i), v, size, g, n, m, b, e); }
    }
  }

  lemma ChunkEnd(a: nat, e: nat, b: nat)
    requires e > 0 && b % e == 0 && b <= a < b + e
    ensures a % e == a - b
  {
    DivUnique(a, e, b / e, a - b);
  }

  lemma WholePart(c: Info, k: Info, v: nat, size: nat, g: Goal, n: nat, m: nat, b: nat, e: nat)
    requires Below(c, k) && k.base == b && Size(k.lvl + 1) == e && n <= size && (n == 0 || v + n == b)
    requires b <= v + n < b + e && m == Min(size - n, e - (v + n - b)) && Whole(c, v, size, g)
    ensures Whole(c, v + n, m, Past(g, n))
  {
    hide Size;
    assert c.base - v == n + (c.base - (v + n));
  }

  lemma BelowTrans(c: Info, k: Info, d: Info)
    requires Below(c, k) && Below(k, d)
    ensures Below(c, d)
  {
    hide Size;
  }

  lemma ChildBelow(d: Info, i: nat)
    requires 1 <= d.lvl <= 4 && i < 512
    ensures Below(Child(d, i), d) && Child(d, i).lvl + 1 == d.lvl && Child(d, i).base == EntryBase(d.base, d.lvl, i)
  {
    SizeUp(d.lvl);
    hide Size;
    var e := Size(d.lvl);
    assert i * e + e <= 512 * e by { assert (511 - i) * e >= 0; assert (511 - i) * e == 512 * e - i * e - e; }
  }

  lemma EntryAligned(d: Info, i: nat)
    requires Placed(d) && i < 512
    ensures EntryBase(d.base, d.lvl, i) % Size(d.lvl) == 0 && 1 <= d.lvl <= 4
  {
    SizeUp(d.lvl);
    hide Size;
    var e := Size(d.lvl);
    assert 512 * e == e * 512;
    MultipleFactor(d.base, e, 512);
    Multiple(e, i);
    assert i * e == e * i;
    MultipleSum(e, d.base, i * e);
  }

  lemma SparingStarts(info: map<nat, Info>, d: Info, v: nat, size: nat, g: Goal, out: set<nat>)
    ensures Sparing(info, info, d, v, size, g, out) && OnBorder(v, 0, size, d.lvl)
  {}

  lemma SparingTrans(a: map<nat, Info>, b: map<nat, Info>, c: map<nat, Info>, d: Info, v: nat, n: nat, g: Goal,
                     out: set<nat>)
    requires Sparing(a, b, d, v, n, g, out) && Sparing(b, c, d, v, n, g, out)
    ensures Sparing(a, c, d, v, n, g, out)
  {
    hide Below, Whole, Touches;
  }

  lemma SparingMore(a: map<nat, Info>, b: map<nat, Info>, d: Info, v: nat, n: nat, g: Goal, out0: set<nat>,
                    out: set<nat>)
    requires Sparing(a, b, d, v, n, g, out0) && out0 <= out
    ensures Sparing(a, b, d, v, n, g, out)
  {
    hide Below, Whole, Touches;
  }

  /** One new table, under an entry where no large leaf could go. */
  lemma SparingAdd(before: map<nat, Info>, child: nat, d: Info, i: nat, v: nat, size: nat, g: Goal, n: nat, m: nat,
                   out: set<nat>)
    requires Placed(d) && i < 512 && child !in before
    requires EntryBase(d.base, d.lvl, i) <= v + n < EntryBase(d.base, d.lvl, i) + Size(d.lvl)
    requires n < size && OnBorder(v, n, size, d.lvl) && m == Min(size - n, Size(d.lvl) - (v + n) % Size(d.lvl))
    requires LeafFits(d.lvl, v + n, m, Past(g, n)) ==> d.lvl in out
    ensures d.lvl >= 1 && Sparing(before, before[child := Child(d, i)], d, v, size, g, out)
  {
    EntryAligned(d, i);
    WholeChild(d, i, v, size, g, n, m);
    ChildBelow(d, i);
    hide Size, EntryBase, Placed, Below, Whole;
    assert Touches(Child(d, i), v, size);
  }

  // ---- in the loop ----

  /** The table branch: the entry could take no leaf. */
  lemma SpareTable(s0: Space, s: Space, root: nat, lo: nat, hi: nat, f: nat, v: nat, size: nat, g: Goal, n: nat, i: nat,
                   m: nat, flags: nat, child: nat, out0: set<nat>, out: set<nat>)
    requires f in s0.info && Loop(s0, s, root, lo, hi, f, v, size, g, n, i) && n < size
    requires m == Min(size - n, Size(s0.info[f].lvl) - (v + n) % Size(s0.info[f].lvl))
    requires Sparing(s0.info, s.info, s0.info[f], v, size, g, out0) && OnBorder(v, n, size, s0.info[f].lvl)
    requires out0 <= out
    requires LeafFits(s0.info[f].lvl, v + n, m, Past(g, n)) ==> s0.info[f].lvl in out
    requires child !in s.mem
    ensures f in s.info && f in s.mem && i < |s.mem[f]| && s.info[f].lvl >= 1
    ensures Sparing(s0.info, AddTable(s, f, i, flags, child).info, s0.info[f], v, size, g, out)
  {
    hide *;
    LoopChunk(s0, s, root, lo, hi, f, v, size, g, n, i, m);
    LoopParts(s0, s, root, lo, hi, f, v, size, g, n, i);
    TreeTable(s, root, lo, hi, f);
    MineIndex(s, f, i, lo, hi);
    TablesPlaced(s, root, lo, hi, child);
    SparingAdd(s.info, child, s0.info[f], i, v, size, g, n, m, out);
    AddInfo(s, f, i, flags, child);
    SparingMore(s0.info, s.info, s0.info[f], v, size, g, out0, out);
    SparingTrans(s0.info, s.info, AddTable(s, f, i, flags, child).info, s0.info[f], v, size, g, out);
  }

  lemma TablesPlaced(s: Space, root: nat, lo: nat, hi: nat, child: nat)
    requires Tree(s, root, lo, hi) && child !in s.mem
    ensures child !in s.info
  {}

  lemma AddInfo(s: Space, f: nat, i: nat, flags: nat, child: nat)
    requires f in s.info && f in s.mem && i < |s.mem[f]| && s.info[f].lvl >= 1
    ensures AddTable(s, f, i, flags, child).info == s.info[child := Child(s.info[f], i)]
  {}

  /** The recursive call. */
  lemma SpareChild(s0: Space, s: Space, after: map<nat, Info>, root: nat, lo: nat, hi: nat, f: nat, v: nat, size: nat,
                   g: Goal, n: nat, i: nat, m: nat, out0: set<nat>, out: set<nat>)
    requires f in s0.info && Loop(s0, s, root, lo, hi, f, v, size, g, n, i) && n < size
    requires m == Min(size - n, Size(s0.info[f].lvl) - (v + n) % Size(s0.info[f].lvl))
    requires Sparing(s0.info, s.info, s0.info[f], v, size, g, out0) && OnBorder(v, n, size, s0.info[f].lvl)
    requires out0 <= out
    requires Entry(s, f, i).present && Entry(s, f, i).phys in s.info
    requires Sparing(s.info, after, s.info[Entry(s, f, i).phys], v + n, m, Past(g, n), out)
    ensures Sparing(s0.info, after, s0.info[f], v, size, g, out)
  {
    hide *;
    LoopDown(s0, s, root, lo, hi, f, v, size, g, n, i, m);
    LoopChunk(s0, s, root, lo, hi, f, v, size, g, n, i, m);
    LinkChild(s, root, lo, hi, f, i);
    SparingBelow(s.info, after, s0.info[f], i, v, size, g, n, m, out);
    SparingMore(s0.info, s.info, s0.info[f], v, size, g, out0, out);
    SparingTrans(s0.info, s.info, after, s0.info[f], v, size, g, out);
  }
}
