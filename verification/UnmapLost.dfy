/** Over tables that are not filled __pt_unmap unmaps the end of the range as well. */
module UnmapLost {
  import opened Bits
  import opened Paging
  import opened MapLoop
  import opened UserSweep
  import opened UnmapRange
  import opened UnmapBorder
  import opened UnmapFilled

  /** Tables from which entries only go away do not become filled. */
  lemma {:induction false} FilledFades(mem: Tables, m: Tables, f: nat, v: nat, e: nat, lvl: nat)
    requires Fades(mem, m) && Filled(m, f, v, e, lvl)
    ensures Filled(mem, f, v, e, lvl)
    decreases lvl
  {
    hide *;
    if e % Size(lvl) == 0 {
      FilledBorder(mem, f, v, e, lvl);
    } else {
      FilledParts(m, f, v, e, lvl);
      IndexBound(e, lvl);
      RowFades(mem, m, f, FirstWhole(v, lvl), PtIndex(e, lvl), lvl);
      FilledFades(mem, m, mem[f][PtIndex(e, lvl)].phys, Later(v, e, lvl), e, lvl - 1);
      FilledParts(mem, f, v, e, lvl);
    }
  }

  /** A link that is left was there before. */
  lemma RowFades(mem: Tables, m: Tables, f: nat, i: nat, j: nat, lvl: nat)
    requires Fades(mem, m) && f in m && |m[f]| == 512 && j < 512
    ensures f in mem && |mem[f]| == 512 && (Link(m[f][j], lvl) ==> m[f][j] == mem[f][j])
    ensures Linked(m, f, i, j, lvl) ==> Linked(mem, f, i, j, lvl)
  {}

  /** Where the counters stand at entry `i`, on a border, before the entry `j` that the end cuts. */
  predicate Lags(i: nat, j: nat, w: nat, m: nat, e: nat, lvl: nat) {
    && 1 < lvl <= 4 && i <= j < 512 && w % Size(lvl) == 0 && w + m == e <= HALF && e % Size(lvl) != 0
    && PtIndex(e, lvl) == j
    && Span(j - i, lvl) < m
  }

  /** The whole entries from `i` on hold tables, the counters are not behind, and the rest is filled. */
  predicate Keeps(mem: Tables, f: nat, i: nat, j: nat, m: nat, e: nat, lvl: nat) {
    && lvl > 0 && f in mem && |mem[f]| == 512 && i <= j < 512 && Linked(mem, f, i, j, lvl) && Link(mem[f][j], lvl)
    && m < Span(j - i + 1, lvl) && Filled(mem, mem[f][j].phys, e - e % Size(lvl), e, lvl - 1)
  }

  /** Where they are behind, or a table is missing, the end is lost. */
  lemma {:induction false} Sink(mem: Tables, f: nat, i: nat, j: nat, w: nat, m: nat, e: nat, lvl: nat)
    requires Lags(i, j, w, m, e, lvl) && e % 0x1000 == 0 && e - e % Size(lvl) >= 0 && !Keeps(mem, f, i, j, m, e, lvl)
    ensures Walk(UnmapLoop(mem, f, i, j + 1, w, m, lvl), f, lvl, e) == None
    decreases lvl, 1, j - i
  {
    hide *;
    LagsParts(i, j, w, m, e, lvl);
    if f !in mem || |mem[f]| != 512 {
      NoTable(mem, f, i, j + 1, w, m, lvl, e);
    } else if i == j {
      SinkLast(mem, f, j, w, m, e, lvl);
    } else if Link(mem[f][i], lvl) {
      var below := UnmapFrom(mem, mem[f][i].phys, w, Size(lvl), lvl - 1);
      var next := Cleared(below, f, i) - {mem[f][i].phys};
      LagsStep(i, j, w, m, e, lvl);
      UnmappedTable(mem, f, i, j + 1, w, m, lvl, Size(lvl), below);
      FromFades(mem, mem[f][i].phys, w, Size(lvl), lvl - 1);
      ClearedFades(below, f, i, {mem[f][i].phys});
      FadesTrans(mem, below, next);
      if Keeps(next, f, i + 1, j, m - Size(lvl), e, lvl) { KeepsBefore(mem, next, f, i, j, m, e, lvl); }
      Sink(next, f, i + 1, j, w + Size(lvl), m - Size(lvl), e, lvl);
    } else {
      LagsSkip(i, j, w, m, e, lvl);
      UnmappedEntry(mem, f, i, j + 1, w, m, lvl);
      LinkLeaf(mem[f][i], lvl);
      var next := if mem[f][i].present then Cleared(mem, f, i) else mem;
      KeepsNot(next, f, i + 1, j, m, e, lvl);
      Sink(next, f, i + 1, j, w, m, e, lvl);
    }
  }

  lemma LagsParts(i: nat, j: nat, w: nat, m: nat, e: nat, lvl: nat)
    requires Lags(i, j, w, m, e, lvl)
    ensures 1 < lvl <= 4 && i <= j < 512 && w % Size(lvl) == 0 && w + m == e <= HALF && e % Size(lvl) != 0
    ensures PtIndex(e, lvl) == j && m > 0
  {
    hide Size, PtIndex;
  }

  lemma NoTable(mem: Tables, f: nat, i: nat, to: nat, w: nat, m: nat, lvl: nat, e: nat)
    requires f !in mem || |mem[f]| != 512
    ensures Walk(UnmapLoop(mem, f, i, to, w, m, lvl), f, lvl, e) == None
  {
    LoopFades(mem, f, i, to, w, m, lvl);
    hide UnmapLoop, PtIndex;
  }

  /** A table takes one entry off the counters, and the lag stays. */
  lemma LagsStep(i: nat, j: nat, w: nat, m: nat, e: nat, lvl: nat)
    requires Lags(i, j, w, m, e, lvl) && i < j
    ensures Chunk(w, m, lvl) == Size(lvl) <= m && Plus(w, Size(lvl)) == w + Size(lvl) && Size(lvl) > 0
    ensures Lags(i + 1, j, w + Size(lvl), m - Size(lvl), e, lvl)
    ensures Span(j - i, lvl) == Span(j - i - 1, lvl) + Size(lvl)
  {
    SpanMore(j - i - 1, lvl);
    hide Size, PtIndex, Span;
    WholeChunk(w, m, lvl);
  }

  /** Any other entry takes nothing off. */
  lemma LagsSkip(i: nat, j: nat, w: nat, m: nat, e: nat, lvl: nat)
    requires Lags(i, j, w, m, e, lvl) && i < j
    ensures Lags(i + 1, j, w, m, e, lvl) && Span(j - (i + 1) + 1, lvl) <= m
  {
    SpanMore(j - i - 1, lvl);
    hide Size, PtIndex, Span;
  }

  lemma KeepsNot(mem: Tables, f: nat, i: nat, j: nat, m: nat, e: nat, lvl: nat)
    requires i <= j && Span(j - i + 1, lvl) <= m && e - e % Size(lvl) >= 0
    ensures !Keeps(mem, f, i, j, m, e, lvl)
  {
    hide Size, Linked, Filled, Link, Span;
  }

  lemma KeepsBefore(mem: Tables, next: Tables, f: nat, i: nat, j: nat, m: nat, e: nat, lvl: nat)
    requires Fades(mem, next) && i < j < 512 && f in mem && |mem[f]| == 512 && Link(mem[f][i], lvl)
    requires Size(lvl) <= m && e - e % Size(lvl) >= 0 && Keeps(next, f, i + 1, j, m - Size(lvl), e, lvl)
    ensures Keeps(mem, f, i, j, m, e, lvl)
  {
    SpanMore(j - i, lvl);
    hide Size, Link, Filled, Span, Linked, Fades;
    RowFades(mem, next, f, i + 1, j, lvl);
    FilledFades(mem, next, next[f][j].phys, e - e % Size(lvl), e, lvl - 1);
    LinkedMore(mem, f, i, j, lvl);
  }

  lemma LinkedMore(mem: Tables, f: nat, i: nat, j: nat, lvl: nat)
    requires f in mem && i < |mem[f]| && Linked(mem, f, i + 1, j, lvl) && Link(mem[f][i], lvl)
    ensures Linked(mem, f, i, j, lvl)
  {
    hide Link;
  }

  /** The entry that the end cuts. */
  lemma {:induction false} SinkLast(mem: Tables, f: nat, j: nat, w: nat, m: nat, e: nat, lvl: nat)
    requires Lags(j, j, w, m, e, lvl) && e % 0x1000 == 0 && e - e % Size(lvl) >= 0 && !Keeps(mem, f, j, j, m, e, lvl)
    requires f in mem && |mem[f]| == 512
    ensures Walk(UnmapLoop(mem, f, j, j + 1, w, m, lvl), f, lvl, e) == None
    decreases lvl, 0, 0
  {
    hide *;
    LagsParts(j, j, w, m, e, lvl);
    if !Link(mem[f][j], lvl) {
      LinkLeaf(mem[f][j], lvl);
      UnmappedEntry(mem, f, j, j + 1, w, m, lvl);
      LastEntry(mem, f, j + 1, w, m, lvl);
      LastEntry(Cleared(mem, f, j), f, j + 1, w, m, lvl);
      PlainWalk(mem, f, j, lvl, e);
    } else {
      var child := mem[f][j].phys;
      BorderEnd(w, m, e, lvl);
      if m > Size(lvl) {
        WholeChunk(w, m, lvl);
        var below := UnmapFrom(mem, child, w, Size(lvl), lvl - 1);
        UnmappedTable(mem, f, j, j + 1, w, m, lvl, Size(lvl), below);
        LastEntry(Cleared(below, f, j) - {child}, f, j + 1, Plus(w, Size(lvl)), m - Size(lvl), lvl);
        ClearedWalk(below, f, j, child, lvl, e);
      } else {
        KeepsLast(mem, f, j, m, e, lvl);
        RestInside(w, m, lvl);
        AnchoredHere(mem, child, w, lvl - 1);
        LostEnd(mem, child, w, m, lvl - 1);
        LostBelow(mem, f, w, m, lvl);
      }
    }
  }

  lemma PlainWalk(mem: Tables, f: nat, j: nat, lvl: nat, e: nat)
    requires lvl > 0 && f in mem && |mem[f]| == 512 && j == PtIndex(e, lvl) < 512
    ensures !mem[f][j].present ==> Walk(mem, f, lvl, e) == None
    ensures Walk(Cleared(mem, f, j), f, lvl, e) == None
  {
    hide PtIndex;
  }

  /** On a border the rest is the whole entry and more, or what the end cuts off its entry. */
  lemma BorderEnd(w: nat, m: nat, e: nat, lvl: nat)
    requires w % Size(lvl) == 0 && w + m == e && e % Size(lvl) != 0 && m > 0
    ensures m != Size(lvl) && (m < Size(lvl) ==> w == e - e % Size(lvl))
  {
    hide Size;
    var d := Size(lvl);
    if m == d { MultipleSum(d, w, d) by { Multiple(d, 1); } }
    if m < d { DivUnique(e, d, w / d, m); }
  }

  lemma KeepsLast(mem: Tables, f: nat, j: nat, m: nat, e: nat, lvl: nat)
    requires f in mem && |mem[f]| == 512 && j < 512 && Link(mem[f][j], lvl) && lvl > 0 && m < Size(lvl)
    requires e - e % Size(lvl) >= 0
    requires !Keeps(mem, f, j, j, m, e, lvl)
    ensures !Filled(mem, mem[f][j].phys, e - e % Size(lvl), e, lvl - 1)
  {
    SpanMore(0, lvl);
    hide Size, Link, Filled, Span;
  }

  lemma RestInside(w: nat, m: nat, lvl: nat)
    requires 1 < lvl <= 4 && w % Size(lvl) == 0 && 0 < m < Size(lvl) && w + m <= HALF
    ensures InOne(w, m, lvl - 1) && w % Size(lvl - 1) == 0 && w % 0x1000 == 0
  {
    BorderBelow(w, lvl);
    SizeDivides(1, lvl, w);
    hide Size;
  }

  /** What is lost below the last entry is lost. */
  lemma LostBelow(mem: Tables, f: nat, w: nat, m: nat, lvl: nat)
    requires 1 < lvl <= 4 && m > 0 && w + m <= HALF && w % Size(lvl) + m < Size(lvl) && f in mem && |mem[f]| == 512
    requires PtIndex(w + m, lvl) < 512
    requires Link(mem[f][PtIndex(w + m, lvl)], lvl)
    requires var child := mem[f][PtIndex(w + m, lvl)].phys; Walk(UnmapFrom(mem, child, w, m, lvl - 1), child,
                                                                 lvl - 1, w + m) == None
    ensures var j := PtIndex(w + m, lvl); Walk(UnmapLoop(mem, f, j, j + 1, w, m, lvl), f, lvl, w + m) == None
  {
    hide *;
    var j := PtIndex(w + m, lvl);
    var child := mem[f][j].phys;
    HalfSize();
    ChunkIs(w, m, lvl);
    PartMin(w, m, lvl);
    var below := UnmapFrom(mem, child, w, m, lvl - 1);
    UnmappedTable(mem, f, j, j + 1, w, m, lvl, m, below);
    LastEntry(below, f, j + 1, Plus(w, m), 0, lvl);
    FromFades(mem, child, w, m, lvl - 1);
    FadedWalk(mem, below, f, lvl, w + m);
  }

  /** Where the tables are not filled the end of the range is lost. */
  lemma {:induction false} LostEnd(mem: Tables, f: nat, v: nat, n: nat, lvl: nat)
    requires InOne(v, n, lvl) && (v + n) % 0x1000 == 0 && v % 0x1000 == 0 && Anchored(mem, f, v, lvl)
    requires !Filled(mem, f, v, v + n, lvl)
    ensures Walk(UnmapFrom(mem, f, v, n, lvl), f, lvl, v + n) == None
    decreases lvl, 2, 0
  {
    hide *;
    InOneParts(v, n, lvl);
    NotBorder(mem, f, v, v + n, lvl);
    var d := TableOf(v, n, lvl);
    EndPlace(d, v, n);
    UnmapFromIs(mem, f, v, n, lvl);
    var i, j := PtIndex(v, lvl), PtIndex(v + n, lvl);
    if v % Size(lvl) == 0 {
      EntryIs(d, v);
      SpanTo(d, i, j);
      SpanMore(j - i, lvl);
      LagsFrom(i, j, v, n, v + n, lvl);
      FirstIs(v, lvl);
      StartKeeps(mem, f, v, v + n, j, n, lvl);
      Sink(mem, f, i, j, v, n, v + n, lvl);
    } else if i == j {
      LostInside(mem, f, v, n, lvl, d);
    } else {
      OnPagesFrom(v, n);
      var c := FirstCut(d, v, n);
      AnchoredBelow(mem, f, v, lvl);
      var below := UnmapFrom(mem, mem[f][i].phys, v, c, lvl - 1);
      UnmappedTable(mem, f, i, j + 1, v, n, lvl, c, below);
      FromFades(mem, mem[f][i].phys, v, c, lvl - 1);
      SpanTo(d, i + 1, j);
      SpanMore(j - i - 1, lvl);
      LagsFrom(i + 1, j, v + c, n - c, v + n, lvl);
      FirstIs(v, lvl);
      StartKeeps(mem, f, v, v + n, j, n - c, lvl);
      if Keeps(below, f, i + 1, j, n - c, v + n, lvl) { KeepsFades(mem, below, f, i + 1, j, n - c, v + n, lvl); }
      Sink(below, f, i + 1, j, v + c, n - c, v + n, lvl);
    }
  }

  lemma NotBorder(mem: Tables, f: nat, v: nat, e: nat, lvl: nat)
    requires !Filled(mem, f, v, e, lvl) && e % 0x1000 == 0 && 1 <= lvl
    ensures e % Size(lvl) != 0 && lvl > 1 && e - e % Size(lvl) >= 0
  {
    FilledBorderNot(mem, f, v, e, lvl);
    LevelOne(e, lvl);
    LaterIs(v, e, lvl);
  }

  lemma FilledBorderNot(mem: Tables, f: nat, v: nat, e: nat, lvl: nat)
    requires !Filled(mem, f, v, e, lvl)
    ensures e % Size(lvl) != 0
  {
    hide Size;
  }

  lemma LevelOne(e: nat, lvl: nat)
    requires e % 0x1000 == 0 && e % Size(lvl) != 0 && 1 <= lvl
    ensures lvl > 1
  {}

  lemma OnPagesFrom(v: nat, n: nat)
    requires (v + n) % 0x1000 == 0 && v % 0x1000 == 0
    ensures OnPages(v, n)
  {}

  lemma LagsFrom(i: nat, j: nat, w: nat, m: nat, e: nat, lvl: nat)
    requires 1 < lvl <= 4 && i <= j < 512 && w % Size(lvl) == 0 && w + m == e <= HALF && e % Size(lvl) != 0
    requires PtIndex(e, lvl) == j
    requires Span(j - i, lvl) < m
    ensures Lags(i, j, w, m, e, lvl)
  {
    hide Size, PtIndex, Span;
  }

  /** At the first whole entry some table is missing. */
  lemma StartKeeps(mem: Tables, f: nat, v: nat, e: nat, j: nat, m: nat, lvl: nat)
    requires 1 <= lvl <= 4 && e % Size(lvl) != 0 && e - e % Size(lvl) >= v && j == PtIndex(e, lvl)
    requires !Filled(mem, f, v, e, lvl)
    requires FirstWhole(v, lvl) <= j
    ensures !Keeps(mem, f, FirstWhole(v, lvl), j, m, e, lvl)
  {
    hide *;
    LaterIs(v, e, lvl);
    FilledParts(mem, f, v, e, lvl);
    KeepsParts(mem, f, FirstWhole(v, lvl), j, m, e, lvl);
    if lvl == 1 { NoLevel(mem, f, FirstWhole(v, lvl), j, m, e); }
  }

  lemma KeepsParts(mem: Tables, f: nat, i: nat, j: nat, m: nat, e: nat, lvl: nat)
    requires i <= j && e - e % Size(lvl) >= 0
    ensures Keeps(mem, f, i, j, m, e, lvl) ==>
              && lvl > 0 && f in mem && |mem[f]| == 512 && j < 512 && Linked(mem, f, i, j, lvl) && Link(mem[f][j], lvl)
              && Filled(mem, mem[f][j].phys, e - e % Size(lvl), e, lvl - 1)
  {
    hide Size, Link, Filled, Span, Linked;
  }

  lemma NoLevel(mem: Tables, f: nat, i: nat, j: nat, m: nat, e: nat)
    requires i <= j && e - e % Size(1) >= 0
    ensures !Keeps(mem, f, i, j, m, e, 1)
  {
    hide Size, Filled, Span, Linked;
  }

  /** The range lies in one entry, which its start cuts. */
  lemma {:induction false} LostInside(mem: Tables, f: nat, v: nat, n: nat, lvl: nat, d: Info)
    requires InOne(v, n, lvl) && lvl > 1 && (v + n) % 0x1000 == 0 && v % 0x1000 == 0 && Anchored(mem, f, v, lvl)
    requires !Filled(mem, f, v, v + n, lvl)
    requires d.lvl == lvl && Placed(d) && Within(d, v, n) && (v + n) % Size(lvl) != 0 && v % Size(lvl) != 0
    requires PtIndex(v, lvl) == PtIndex(v + n, lvl)
    ensures Walk(UnmapFrom(mem, f, v, n, lvl), f, lvl, v + n) == None
    decreases lvl, 1, 0
  {
    hide *;
    InOneParts(v, n, lvl);
    EndPlace(d, v, n);
    EntryIs(d, v);
    var j := PtIndex(v + n, lvl);
    AnchoredBelow(mem, f, v, lvl);
    FirstIs(v, lvl);
    LinkedNone(mem, f, j + 1, j, lvl);
    FilledParts(mem, f, v, v + n, lvl);
    InsideOne(v, n, lvl);
    LostEnd(mem, mem[f][j].phys, v, n, lvl - 1);
    LostBelow(mem, f, v, n, lvl);
    UnmapFromIs(mem, f, v, n, lvl);
  }

  lemma LinkedNone(mem: Tables, f: nat, i: nat, j: nat, lvl: nat)
    requires f in mem && j <= i
    ensures Linked(mem, f, i, j, lvl)
  {}

  lemma InsideOne(v: nat, n: nat, lvl: nat)
    requires 1 < lvl <= 4 && n > 0 && v % Size(lvl) + n <= Size(lvl) && v + n <= HALF
    ensures InOne(v, n, lvl - 1)
  {}

  lemma KeepsFades(mem: Tables, next: Tables, f: nat, i: nat, j: nat, m: nat, e: nat, lvl: nat)
    requires Fades(mem, next) && i <= j < 512 && e - e % Size(lvl) >= 0 && Keeps(next, f, i, j, m, e, lvl)
    ensures Keeps(mem, f, i, j, m, e, lvl)
  {
    hide Size, Link, Filled, Span, Linked, Fades;
    RowFades(mem, next, f, i, j, lvl);
    FilledFades(mem, next, next[f][j].phys, e - e % Size(lvl), e, lvl - 1);
  }
}
