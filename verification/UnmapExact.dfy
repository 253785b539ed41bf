/** For which gaps munmap is right whatever the space: exactly for the tidy ones. */
module UnmapExact {
  import opened Bits
  import opened BuddyZone
  import opened Paging
  import opened UserTree
  import opened UserSweep
  import opened UnmapRange
  import opened UnmapBorder
  import opened UnmapFilled
  import opened UnmapLost
  import opened UserFrames
  import opened Vmas
  import opened Regions
  import opened UnmapPair

  /** The end `e` is an entry border of level `lvl`, or no whole entry lies between the start, or
      the start of the table that the end lies in, and the entry that the end cuts. */
  predicate TidyAt(v: nat, e: nat, lvl: nat) {
    e % Size(lvl) == 0 || (e - e % Size(lvl)) % Size(lvl + 1) == 0 || e - e % Size(lvl) < v + Size(lvl)
  }

  predicate TidyUpTo(v: nat, e: nat, lvl: nat) {
    forall l :: 1 <= l <= lvl ==> TidyAt(v, e, l)
  }

  predicate Tidy(v: nat, n: nat) {
    TidyUpTo(v, v + n, 4)
  }

  /** A space, and a range that munmap widens to the gap [low, high). */
  ghost predicate Suits(z: Zone, s: Space, root: nat, list: seq<Vma>, from: nat, to: nat, low: nat, high: nat) {
    Lives(z, s, root, list) && from < to <= HALF && !Straddled(list, from, to) && Gap(list, from, to) == (low, high)
  }

  /** The space once pt_unmap has run. */
  function After(s: Space, root: nat, low: nat, high: nat): Space
    requires low <= high
  {
    Space(UnmapFrom(s.mem, root, low, high - low, 4), s.info)
  }

  /** In every such space regions and tables agree afterwards, and nothing outside the range changed. */
  ghost predicate GapSafe(low: nat, high: nat)
    requires low <= high
  {
    forall z, s, root, list, from, to :: Suits(z, s, root, list, from, to, low, high) ==>
                                           Backed(After(s, root, low, high), root, Without(list, from, to))
                                           && OnlyWithin(s, After(s, root, low, high), root, from, to)
  }

  /** In one space they agree afterwards if and only if its tables are filled up to the gap's end. */
  lemma ExactlyFilled(z: Zone, s: Space, root: nat, list: seq<Vma>, from: nat, to: nat, low: nat, high: nat)
    requires low < high && Suits(z, s, root, list, from, to, low, high)
    ensures Backed(After(s, root, low, high), root, Without(list, from, to)) <==> Filled(s.mem, root, low, high, 4)
    ensures Filled(s.mem, root, low, high, 4) ==> OnlyWithin(s, After(s, root, low, high), root, from, to)
  {
    hide Valid, TablesBusy, TablesHeld, LeavesHeld, HeldOnce, Others, Tree, Hung, Backed, LeavesIn, Sorted, Straddled;
    hide OnlyWithin, Without, Filled, UnmapFrom, Gap;
    CutBacked(s, After(s, root, low, high), root, list, from, to);
  }

  // ---- tidy gaps ----

  lemma TidyIs(v: nat, n: nat)
    ensures Tidy(v, n) == TidyUpTo(v, v + n, 4)
  {
    hide TidyUpTo;
  }

  lemma TidyDown(v: nat, e: nat, lvl: nat)
    requires TidyUpTo(v, e, lvl) && lvl > 0
    ensures TidyUpTo(v, e, lvl - 1)
  {
    hide TidyAt;
  }

  /** The entry that the end cuts is the next one, and the start cuts its own. */
  lemma TwoEntries(v: nat, n: nat, lvl: nat)
    requires InOne(v, n, lvl) && TidyUpTo(v, v + n, lvl) && (v + n) % Size(lvl) != 0 && v % Size(lvl) + n > Size(lvl)
    ensures v % Size(lvl) != 0 && v % Size(lvl) + n < 2 * Size(lvl)
  {
    assert TidyAt(v, v + n, lvl);
    var e := Size(lvl);
    var d := TableOf(v, n, lvl);
    var w, b := v - v % e + e, v + n - (v + n) % e;
    hide Size, Placed;
    BorderAfter(v, e - v % e, e);
    BorderBefore(v + n, e);
    if b < w { MultiplesApart(e, b, w); }
    if b % Size(lvl + 1) == 0 {
      TableBase(d);
      MultiplesApart(Size(lvl + 1), d.base, b);
    }
    if w < b { MultiplesApart(e, w, b); }
  }

  lemma TableBase(d: Info)
    requires Placed(d)
    ensures d.base % Size(d.lvl + 1) == 0
  {}

  lemma TidyLater(v: nat, w: nat, e: nat, lvl: nat)
    requires TidyUpTo(v, e, lvl) && v <= w
    ensures TidyUpTo(w, e, lvl)
  {
    hide Size;
    forall l | 1 <= l <= lvl ensures TidyAt(w, e, l) { assert TidyAt(v, e, l); }
  }

  /** A tidy range has no whole entry before one that its end cuts. */
  lemma {:induction false} TidyFilled(mem: Tables, f: nat, v: nat, n: nat, lvl: nat)
    requires InOne(v, n, lvl) && OnPages(v, n) && TidyUpTo(v, v + n, lvl) && Anchored(mem, f, v + n, lvl)
    ensures Filled(mem, f, v, v + n, lvl)
    decreases lvl
  {
    hide *;
    var e := v + n;
    InOneParts(v, n, lvl);
    OnPagesParts(v, n);
    if e % Size(lvl) == 0 {
      FilledBorder(mem, f, v, e, lvl);
    } else {
      AnchoredBelow(mem, f, e, lvl);
      var d := TableOf(v, n, lvl);
      EndPlace(d, v, n);
      var j := PtIndex(e, lvl);
      var y := EntryBase(d.base, lvl, j);
      FirstIs(v, lvl);
      NoneWhole(v, n, lvl, d);
      LinkedNone(mem, f, FirstWhole(v, lvl), j, lvl);
      TidyDown(v, e, lvl);
      if v < y {
        LastInside(d, j, y, e - y);
        TidyLater(v, y, e, lvl - 1);
        TidyFilled(mem, mem[f][j].phys, y, e - y, lvl - 1);
      } else {
        StartInside(d, j, v, n);
        TidyFilled(mem, mem[f][j].phys, v, n, lvl - 1);
      }
      FilledParts(mem, f, v, e, lvl);
    }
  }

  lemma NoneWhole(v: nat, n: nat, lvl: nat, d: Info)
    requires InOne(v, n, lvl) && TidyUpTo(v, v + n, lvl) && d.lvl == lvl && Placed(d) && Within(d, v, n)
    requires (v + n) % Size(lvl) != 0
    ensures PtIndex(v + n, lvl) <= FirstWhole(v, lvl)
  {
    hide *;
    InOneParts(v, n, lvl);
    EndPlace(d, v, n);
    FirstIs(v, lvl);
    var i, j := PtIndex(v, lvl), PtIndex(v + n, lvl);
    if i < j {
      FirstBeyond(d, v, v + n);
      TwoEntries(v, n, lvl);
      if i + 1 < j { EntriesBetween(d, i + 1, i + 1, j); }
    }
  }

  // ---- the two pages ----

  /** Entries between the two pages are absent. */
  lemma BetweenAbsent(a: nat, b: nat, lvl: nat, x: nat, i: nat, to: nat)
    requires PairOf(a, b) && 1 <= lvl <= 4 && (x == a || x == b) && to <= 512
    requires var d := Place(a, b, Frame(a, lvl, x)); (b < EntryBase(d.base, lvl, i) || b == a)
                                                     && EntryBase(d.base, lvl, to) <= a
    ensures var mem, f := Pair(a, b).mem, Frame(a, lvl, x);
            f in mem && |mem[f]| == 512 && forall j :: i <= j < to ==> !mem[f][j].present
  {
    PairTable(a, b, lvl, x);
    var mem: Tables := Pair(a, b).mem;
    var f, d := Frame(a, lvl, x), Place(a, b, Frame(a, lvl, x));
    assert f in mem && |mem[f]| == 512;
    hide Pair, Frame, Place, EntryBase, Size, Placed, Covers, PairRow;
    forall j: nat | i <= j < to ensures !mem[f][j].present {
      EntriesBetween(d, i, j, to);
      PairAbsent(a, b, lvl, x, j);
    }
  }

  /** Around a range that is not tidy the tables of the two pages are not filled. */
  lemma {:induction false} PairNotFilled(a: nat, b: nat, v: nat, n: nat, lvl: nat)
    requires PairOf(a, b) && InOne(v, n, lvl) && a == v + n && OnPages(v, n) && !TidyUpTo(v, a, lvl)
    requires (b < v || b == a)
    ensures !Filled(Pair(a, b).mem, Frame(a, lvl, a), v, a, lvl)
    decreases lvl
  {
    hide *;
    InOneParts(v, n, lvl);
    OnPagesParts(v, n);
    PairFacts(a, b);
    EndCut(v, a, lvl);
    var mem, f, j := Pair(a, b).mem, Frame(a, lvl, a), PtIndex(a, lvl);
    var d := TableOf(v, n, lvl);
    EndPlace(d, v, n);
    PlaceOver(a, b, d, a);
    PairLink(a, b, lvl, a);
    FilledParts(mem, f, v, a, lvl);
    var k, y := FirstWhole(v, lvl), EntryBase(d.base, lvl, j);
    FirstIs(v, lvl);
    if PtIndex(v, lvl) == j {
      NotTidyBelow(v, n, lvl, d);
      PairNotFilled(a, b, v, n, lvl - 1);
    } else if k < j {
      FirstStart(d, v, n);
      BetweenAbsent(a, b, lvl, a, k, j);
      NotLinked(mem, f, k, j, lvl);
    } else {
      CutNext(d, v, n);
      NotTidyRest(v, n, y, lvl);
      LastInside(d, j, y, a - y);
      PairNotFilled(a, b, y, a - y, lvl - 1);
    }
  }

  lemma NotLinked(mem: Tables, f: nat, k: nat, j: nat, lvl: nat)
    requires f in mem && |mem[f]| == 512 && k < j <= 512 && !mem[f][k].present
    ensures !Linked(mem, f, k, j, lvl)
  {
    LinkLeaf(mem[f][k], lvl);
    hide Link;
  }

  /** The first whole entry starts in the range. */
  lemma FirstStart(d: Info, v: nat, n: nat)
    requires Placed(d) && Within(d, v, n) && n > 0 && v + n <= HALF && (v + n) % Size(d.lvl) != 0
    requires PtIndex(v, d.lvl) < PtIndex(v + n, d.lvl)
    ensures v <= EntryBase(d.base, d.lvl, FirstWhole(v, d.lvl))
  {
    hide *;
    EndPlace(d, v, n);
    FirstIs(v, d.lvl);
    EntryIs(d, v);
    FirstBeyond(d, v, v + n);
    EntrySize(v, d.lvl);
  }

  lemma EntrySize(v: nat, lvl: nat)
    ensures v % Size(lvl) < Size(lvl)
  {
    hide Size;
  }

  /** There are two entries, and the start cuts the first. */
  lemma CutNext(d: Info, v: nat, n: nat)
    requires Placed(d) && Within(d, v, n) && n > 0 && v + n <= HALF && (v + n) % Size(d.lvl) != 0
    requires PtIndex(v, d.lvl) < PtIndex(v + n, d.lvl) <= FirstWhole(v, d.lvl)
    ensures var y := EntryBase(d.base, d.lvl, PtIndex(v + n, d.lvl));
            v <= y < v + Size(d.lvl) && y % Size(d.lvl) == 0 && y < v + n < y + Size(d.lvl)
  {
    hide *;
    EndPlace(d, v, n);
    FirstIs(v, d.lvl);
    FirstBeyond(d, v, v + n);
    EntryBorder(d, PtIndex(v + n, d.lvl));
    EntrySize(v, d.lvl);
  }

  lemma PairFacts(a: nat, b: nat)
    requires PairOf(a, b)
    ensures a < HALF && b <= a && b < b + PAGE && a % PAGE == 0 && b % PAGE == 0 && a % Size(1) == 0 && b % Size(1) == 0
  {}

  /** The end cuts an entry on every level above one where the range is not tidy. */
  lemma EndCut(v: nat, e: nat, lvl: nat)
    requires 1 <= lvl <= 4 && !TidyUpTo(v, e, lvl)
    ensures e % Size(lvl) != 0 && (e % Size(1) == 0 ==> lvl > 1)
  {
    hide Size;
    var l: nat :| 1 <= l <= lvl && !TidyAt(v, e, l);
    if e % Size(lvl) == 0 { SizeDivides(l, lvl, e); }
  }

  /** A range inside one entry is not tidy because of the levels below. */
  lemma NotTidyBelow(v: nat, n: nat, lvl: nat, d: Info)
    requires InOne(v, n, lvl) && OnPages(v, n) && !TidyUpTo(v, v + n, lvl) && d.lvl == lvl > 1 && Placed(d)
    requires Within(d, v, n)
    requires PtIndex(v, lvl) == PtIndex(v + n, lvl) && (v + n) % Size(lvl) != 0
    ensures InOne(v, n, lvl - 1) && !TidyUpTo(v, v + n, lvl - 1)
  {
    hide *;
    InOneParts(v, n, lvl);
    EndPlace(d, v, n);
    EntryIs(d, v);
    StartInside(d, PtIndex(v, lvl), v, n);
    TidyInside(v, n, lvl);
    if TidyUpTo(v, v + n, lvl - 1) { TidyUp(v, v + n, lvl); }
  }

  lemma TidyUp(v: nat, e: nat, lvl: nat)
    requires lvl > 0 && TidyUpTo(v, e, lvl - 1) && TidyAt(v, e, lvl)
    ensures TidyUpTo(v, e, lvl)
  {
    hide TidyAt;
  }

  lemma TidyInside(v: nat, n: nat, lvl: nat)
    requires v % Size(lvl) + n <= Size(lvl)
    ensures TidyAt(v, v + n, lvl)
  {
    hide Size;
    var e := Size(lvl);
    BorderBefore(v, e);
    BorderBefore(v + n, e);
    var x, y := v - v % e, v + n - (v + n) % e;
    if y == x + e { assert (v + n) % e == 0; }
  }

  /** What is left of such a range is not tidy either. */
  lemma NotTidyRest(v: nat, n: nat, w: nat, lvl: nat)
    requires 1 < lvl <= 4 && !TidyUpTo(v, v + n, lvl) && v <= w < v + Size(lvl) && w % Size(lvl) == 0
    requires w <= v + n < w + Size(lvl)
    ensures !TidyUpTo(w, v + n, lvl - 1)
  {
    var e := v + n;
    var l: nat :| 1 <= l <= lvl && !TidyAt(v, e, l);
    BorderBefore(e, Size(l)) by { EntrySize(e, l); }
    var y := e - e % Size(l);
    hide Size;
    if l == lvl {
      if w < y { MultiplesApart(Size(l), w, y); }
      assert false;
    } else {
      SizeDivides(l, lvl, w);
      SizeDivides(l + 1, lvl, w);
      if y < w { MultiplesApart(Size(l), y, w); }
      MultiplesApart(Size(l), w, y);
      assert !TidyAt(w, e, l);
    }
  }

  // ---- both ways ----

  /** The gap between the two pages, from `low` to `a`, and a range in it. */
  predicate Between(a: nat, b: nat, low: nat, from: nat, to: nat) {
    PairOf(a, b) && low <= from < to <= a && if b < a then b + PAGE == low else low == 0
  }

  lemma TwoCut(a: nat, b: nat, low: nat, from: nat, to: nat)
    requires Between(a, b, low, from, to)
    ensures !Straddled(Two(a, b), from, to) && Gap(Two(a, b), from, to) == (low, a)
    ensures Without(Two(a, b), from, to) == Two(a, b)
  {
    var p := if b < a then 1 else 0;
    hide EndsAbove, BeginsAt;
    PlaceIs(Two(a, b), from, to, p, p);
  }

  lemma PairSuits(a: nat, b: nat, low: nat, from: nat, to: nat)
    requires Between(a, b, low, from, to)
    ensures Suits(Ten(), Pair(a, b), ROOT, Two(a, b), from, to, low, a)
  {
    hide *;
    BetweenFacts(a, b, low, from, to);
    PairLives(a, b);
    TwoCut(a, b, low, from, to);
    SuitsFrom(Ten(), Pair(a, b), ROOT, Two(a, b), from, to, low, a);
  }

  lemma BetweenFacts(a: nat, b: nat, low: nat, from: nat, to: nat)
    requires Between(a, b, low, from, to)
    ensures PairOf(a, b) && low <= from < to <= a < HALF && low < a && OnPages(low, a - low)
    ensures if b < a then b + PAGE == low else low == 0
    ensures low == 0 ==> low % Size(4) == 0
    ensures b < low || b == a
  {}

  lemma SuitsFrom(z: Zone, s: Space, root: nat, list: seq<Vma>, from: nat, to: nat, low: nat, high: nat)
    requires Lives(z, s, root, list) && from < to <= HALF && !Straddled(list, from, to)
    requires Gap(list, from, to) == (low, high)
    ensures Suits(z, s, root, list, from, to, low, high)
  {}

  /** Where the gap is not tidy, the two pages around it are a space that any munmap inside it
      leaves wrong: regions and tables agree before, and not afterwards. */
  lemma PairBreaks(a: nat, b: nat, low: nat, from: nat, to: nat)
    requires Between(a, b, low, from, to) && low < a && !Tidy(low, a - low)
    ensures Suits(Ten(), Pair(a, b), ROOT, Two(a, b), from, to, low, a)
    ensures Mapped(Without(Two(a, b), from, to), a) && Translate(After(Pair(a, b), ROOT, low, a), ROOT, a) == None
    ensures !Backed(After(Pair(a, b), ROOT, low, a), ROOT, Without(Two(a, b), from, to))
  {
    hide *;
    PairSuits(a, b, low, from, to);
    TwoCut(a, b, low, from, to);
    BetweenFacts(a, b, low, from, to);
    PageOwn(a, b);
    PairLost(a, b, low, from, to);
    NotBacked(After(Pair(a, b), ROOT, low, a), ROOT, Two(a, b), a);
  }

  /** The page after the gap is lost. */
  lemma PairLost(a: nat, b: nat, low: nat, from: nat, to: nat)
    requires Between(a, b, low, from, to) && low < a && !Tidy(low, a - low)
    ensures Translate(After(Pair(a, b), ROOT, low, a), ROOT, a) == None
  {
    hide *;
    BetweenFacts(a, b, low, from, to);
    TidyIs(low, a - low);
    TopFits(low, a - low);
    OnPagesParts(low, a - low);
    FramePlace(a, b, 4, a);
    PairNotFilled(a, b, low, a - low, 4);
    PairAnchored(a, b, low, from, to);
    LostEnd(Pair(a, b).mem, ROOT, low, a - low, 4);
    AfterIs(Pair(a, b), ROOT, low, a, a);
  }

  lemma PairAnchored(a: nat, b: nat, low: nat, from: nat, to: nat)
    requires Between(a, b, low, from, to)
    ensures Anchored(Pair(a, b).mem, ROOT, low, 4)
  {
    hide *;
    BetweenFacts(a, b, low, from, to);
    PairLives(a, b);
    LivesTree(Ten(), Pair(a, b), ROOT, Two(a, b));
    TwoCut(a, b, low, from, to);
    GapAnchored(Pair(a, b), ROOT, Two(a, b), from, to);
  }

  lemma PageOwn(a: nat, b: nat)
    requires PairOf(a, b)
    ensures Mapped(Two(a, b), a)
  {
    TwoMapped(a, b, a);
  }

  lemma AfterIs(s: Space, root: nat, low: nat, high: nat, y: nat)
    requires low <= high
    ensures After(s, root, low, high).mem == UnmapFrom(s.mem, root, low, high - low, 4)
    ensures Translate(After(s, root, low, high), root, y)
         == Walk(UnmapFrom(s.mem, root, low, high - low, 4), root, 4, y)
  {}

  /** munmap keeps regions and tables in agreement, whatever the space, if and only if the gap is tidy. */
  lemma ExactlyTidy(low: nat, high: nat)
    requires low < high <= HALF && low % PAGE == 0 && high % PAGE == 0
    ensures GapSafe(low, high) <==> Tidy(low, high - low)
  {
    hide *;
    if Tidy(low, high - low) {
      TidySafe(low, high);
    } else {
      TidyIs(low, high - low);
      HighInside(low, high);
      var b := if low > 0 then low - PAGE else high;
      PairIs(low, high, b);
      PairBreaks(high, b, low, low, high);
      NotSafe(Ten(), Pair(high, b), ROOT, Two(high, b), low, high);
    }
  }

  lemma HighInside(low: nat, high: nat)
    requires low < high <= HALF && !TidyUpTo(low, high, 4)
    ensures high < HALF
  {
    EndCut(low, high, 4);
    assert HALF % Size(4) == 0;
    hide TidyUpTo;
  }

  lemma PairIs(low: nat, high: nat, b: nat)
    requires low < high < HALF && low % PAGE == 0 && high % PAGE == 0 && b == if low > 0 then low - PAGE else high
    ensures Between(high, b, low, low, high)
  {}

  lemma NotSafe(z: Zone, s: Space, root: nat, list: seq<Vma>, low: nat, high: nat)
    requires low < high && Suits(z, s, root, list, low, high, low, high)
    requires !Backed(After(s, root, low, high), root, Without(list, low, high))
    ensures !GapSafe(low, high)
  {
    hide Suits, Backed, OnlyWithin, After, Without;
  }

  lemma TidySafe(low: nat, high: nat)
    requires low < high && Tidy(low, high - low)
    ensures GapSafe(low, high)
  {
    hide Suits, Backed, OnlyWithin, After, Without, Tidy;
    forall z, s, root, list, from, to | Suits(z, s, root, list, from, to, low, high)
      ensures Backed(After(s, root, low, high), root, Without(list, from, to))
      ensures OnlyWithin(s, After(s, root, low, high), root, from, to)
    {
      TidySuits(z, s, root, list, from, to, low, high);
      ExactlyFilled(z, s, root, list, from, to, low, high);
    }
  }

  lemma TidySuits(z: Zone, s: Space, root: nat, list: seq<Vma>, from: nat, to: nat, low: nat, high: nat)
    requires low < high && Tidy(low, high - low) && Suits(z, s, root, list, from, to, low, high)
    ensures Filled(s.mem, root, low, high, 4)
  {
    hide *;
    SuitsParts(z, s, root, list, from, to, low, high);
    LivesTree(z, s, root, list);
    GapAnchored(s, root, list, from, to);
    HighAnchored(s, root, list, from, to);
    TidyIs(low, high - low);
    TopFits(low, high - low);
    TidyFilled(s.mem, root, low, high - low, 4);
  }

  lemma SuitsParts(z: Zone, s: Space, root: nat, list: seq<Vma>, from: nat, to: nat, low: nat, high: nat)
    requires Suits(z, s, root, list, from, to, low, high)
    ensures Lives(z, s, root, list) && from < to <= HALF && !Straddled(list, from, to)
    ensures Gap(list, from, to) == (low, high)
  {}

  /** Tables lead to the end of the gap. */
  lemma HighAnchored(s: Space, root: nat, list: seq<Vma>, from: nat, to: nat)
    requires Tree(s, root, LO, HI) && Sorted(list) && from < to <= HALF && !Straddled(list, from, to)
    requires Backed(s, root, list) && LeavesIn(s, list)
    ensures Anchored(s.mem, root, Gap(list, from, to).1, 4)
  {
    hide *;
    var high := Gap(list, from, to).1;
    RootIs(s, root);
    GapAligned(list, from, to);
    if high == HALF {
      HalfBorder();
      AnchoredHere(s.mem, root, high, 4);
    } else {
      HighMapped(list, from, to);
      GapCutsNone(s, list, from, to);
      HighLed(s, root, list, high);
      InHalf(s, root, high);
      LedAnchored(s, root, root, high, 4);
    }
  }

  lemma HalfBorder()
    ensures HALF % Size(4) == 0
  {}

  lemma HighLed(s: Space, root: nat, list: seq<Vma>, a: nat)
    requires root in s.info && s.info[root] == Info(4, 0) && Backed(s, root, list) && Mapped(list, a) && a < HALF
    ensures Led(s.mem, root, a, 4)
  {
    TranslateIs(s, root, a);
    hide Walk, Mapped;
  }

  /** One such call: with a page that ends at 2M and one at 4M + 3 pages, munmap(4M, 4M + 3 pages)
      takes the second page away. */
  lemma MunmapBreaks()
    ensures var s, list := Pair(0x40_3000, 0x1F_F000), [Vma(0x1F_F000, 0x20_0000, 3), Vma(0x40_3000, 0x40_4000, 3)];
            && Suits(Ten(), s, ROOT, list, 0x40_0000, 0x40_3000, 0x20_0000, 0x40_3000)
            && Without(list, 0x40_0000, 0x40_3000) == list
            && Translate(After(s, ROOT, 0x20_0000, 0x40_3000), ROOT, 0x40_3000) == None
  {
    NotTidy();
    hide Tidy, Suits, Pair, After, Straddled, Gap, Without, Translate;
    PairBreaks(0x40_3000, 0x1F_F000, 0x20_0000, 0x40_0000, 0x40_3000);
    TwoCut(0x40_3000, 0x1F_F000, 0x20_0000, 0x40_0000, 0x40_3000);
  }

  lemma NotTidy()
    ensures !Tidy(0x20_0000, 0x20_3000)
  {
    assert !TidyAt(0x20_0000, 0x40_3000, 2);
  }
}
