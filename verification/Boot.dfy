/** Boot-time memory: balloc_setup turns the memory map into the known and the free ranges,
    and buddy_setup hands the whole free pages to zones. */
module Boot {
  import opened Bits
  import opened Intervals
  import opened Balloc
  import BuddyAllocator
  import BuddyZone

  const MEGABYTE: nat := 0x10_0000
  /** MULTIBOOT_MEMORY_AVAILABLE. */
  const AVAILABLE: nat := 1

  /** An entry of the memory map, as section 3.3 of the Multiboot Specification lays it out:
      the addresses [from, to) and the type. */
  datatype Entry = Entry(from: nat, to: nat, kind: nat)

  predicate Covers(e: Entry, x: nat) {
    e.from <= x < e.to
  }

  /** Some of the first `n` entries covers `x`. */
  ghost predicate Known(entries: seq<Entry>, n: nat, x: nat) {
    exists i :: 0 <= i < n && i < |entries| && Covers(entries[i], x)
  }

  ghost predicate Available(entries: seq<Entry>, n: nat, x: nat) {
    exists i :: 0 <= i < n && i < |entries| && entries[i].kind == AVAILABLE && Covers(entries[i], x)
  }

  ghost predicate Reserved(entries: seq<Entry>, n: nat, x: nat) {
    exists i :: 0 <= i < n && i < |entries| && entries[i].kind != AVAILABLE && Covers(entries[i], x)
  }

  lemma KnownNext(entries: seq<Entry>, n: nat, x: nat)
    requires n < |entries|
    ensures Known(entries, n + 1, x) <==> Known(entries, n, x) || Covers(entries[n], x)
    ensures Available(entries, n + 1, x) <==>
            Available(entries, n, x) || (entries[n].kind == AVAILABLE && Covers(entries[n], x))
    ensures Reserved(entries, n + 1, x) <==>
            Reserved(entries, n, x) || (entries[n].kind != AVAILABLE && Covers(entries[n], x))
  {
    hide Covers;
  }

  ghost predicate KnownIs(s: seq<Range>, entries: seq<Entry>, n: nat) {
    Canon(s) && forall x: nat :: In(s, x) <==> Known(entries, n, x)
  }

  ghost predicate AvailableIs(s: seq<Range>, entries: seq<Entry>, n: nat) {
    Canon(s) && forall x: nat :: In(s, x) <==> Available(entries, n, x)
  }

  ghost predicate UnreservedIs(s: seq<Range>, entries: seq<Entry>, n: nat) {
    Canon(s) && forall x: nat :: In(s, x) <==> Available(entries, |entries|, x) && !Reserved(entries, n, x)
  }

  ghost predicate IsFree(entries: seq<Entry>, kernel: Range, initrd: Range, x: nat) {
    && Available(entries, |entries|, x) && !Reserved(entries, |entries|, x)
    && !(kernel.begin <= x < kernel.end) && !(initrd.begin <= x < initrd.end) && x >= MEGABYTE
  }

  /** The known memory: every entry of the map and the first megabyte. */
  ghost predicate AllIs(s: seq<Range>, entries: seq<Entry>) {
    Canon(s) && forall x: nat :: In(s, x) <==> Known(entries, |entries|, x) || x < MEGABYTE
  }

  /** The free memory: what is available and neither reserved, kernel, initial ramdisk nor in
      the first megabyte. */
  ghost predicate FreeIs(s: seq<Range>, entries: seq<Entry>, kernel: Range, initrd: Range) {
    Canon(s) && forall x: nat :: In(s, x) <==> IsFree(entries, kernel, initrd, x)
  }

  lemma KnownStep(s: seq<Range>, entries: seq<Entry>, n: nat)
    requires KnownIs(s, entries, n) && n < |entries| && entries[n].from < entries[n].to
    ensures KnownIs(Add(s, entries[n].from, entries[n].to), entries, n + 1)
  {
    hide In, Canon, Add, Known, Available, Reserved;
    var e := entries[n];
    AddIsUnion(s, e.from, e.to);
    forall x: nat ensures In(Add(s, e.from, e.to), x) <==> Known(entries, n + 1, x) {
      KnownNext(entries, n, x);
      assert In(s, x) <==> Known(entries, n, x);
    }
  }

  lemma AvailableStep(s: seq<Range>, entries: seq<Entry>, n: nat)
    requires AvailableIs(s, entries, n) && n < |entries| && entries[n].from < entries[n].to
    ensures AvailableIs(if entries[n].kind == AVAILABLE then Add(s, entries[n].from, entries[n].to)
                        else s, entries, n + 1)
  {
    hide In, Canon, Add, Known, Available, Reserved;
    var e := entries[n];
    var t := if e.kind == AVAILABLE then Add(s, e.from, e.to) else s;
    AddIsUnion(s, e.from, e.to);
    forall x: nat ensures In(t, x) <==> Available(entries, n + 1, x) {
      KnownNext(entries, n, x);
      assert In(s, x) <==> Available(entries, n, x);
    }
  }

  lemma ReservedStep(s: seq<Range>, entries: seq<Entry>, n: nat)
    requires UnreservedIs(s, entries, n) && n < |entries| && entries[n].from < entries[n].to
    ensures UnreservedIs(if entries[n].kind != AVAILABLE then Cut(s, entries[n].from, entries[n].to)
                         else s, entries, n + 1)
  {
    hide In, Canon, Cut, Known, Available, Reserved;
    var e := entries[n];
    var t := if e.kind != AVAILABLE then Cut(s, e.from, e.to) else s;
    CutIsDifference(s, e.from, e.to);
    forall x: nat ensures In(t, x) <==> Available(entries, |entries|, x) && !Reserved(entries, n + 1, x) {
      KnownNext(entries, n, x);
      assert In(s, x) <==> Available(entries, |entries|, x) && !Reserved(entries, n, x);
    }
  }

  lemma SetupStarts(entries: seq<Entry>)
    ensures KnownIs([], entries, 0) && AvailableIs([], entries, 0)
  {}

  lemma ReservedStarts(s: seq<Range>, entries: seq<Entry>)
    requires AvailableIs(s, entries, |entries|)
    ensures UnreservedIs(s, entries, 0)
  {
    hide In, Canon, Available;
  }

  /** The three ranges that are cut out at the end. */
  lemma ReserveDone(s: seq<Range>, entries: seq<Entry>, kernel: Range, initrd: Range)
    requires UnreservedIs(s, entries, |entries|) && kernel.begin <= kernel.end && initrd.begin <= initrd.end
    ensures FreeIs(Cut(Cut(Cut(s, kernel.begin, kernel.end), initrd.begin, initrd.end), 0, MEGABYTE), entries,
                   kernel, initrd)
  {
    hide In, Canon, Cut, Available, Reserved;
    CutIsDifference(s, kernel.begin, kernel.end);
    CutIsDifference(Cut(s, kernel.begin, kernel.end), initrd.begin, initrd.end);
    CutIsDifference(Cut(Cut(s, kernel.begin, kernel.end), initrd.begin, initrd.end), 0, MEGABYTE);
  }

  lemma KnownDone(s: seq<Range>, entries: seq<Entry>)
    requires KnownIs(s, entries, |entries|)
    ensures AllIs(Add(s, 0, MEGABYTE), entries)
  {
    hide In, Canon, Add, Known;
    AddIsUnion(s, 0, MEGABYTE);
  }

  /** How many of the first `n` entries are available. */
  function Usable(entries: seq<Entry>, n: nat): (k: nat)
    requires n <= |entries|
    ensures k <= n
  {
    if n == 0 then 0 else Usable(entries, n - 1) + if entries[n - 1].kind == AVAILABLE then 1 else 0
  }

  class BootMemory {
    const free: RangeList
    const all: RangeList

    ghost predicate Valid()
      reads this, free, all
    {
      free != all && free.range != all.range && free.Valid() && all.Valid()
    }

    constructor ()
      ensures Valid() && free.View() == [] && all.View() == [] && fresh(free) && fresh(all) && fresh(free.range)
      ensures fresh(all.range)
    {
      free := new RangeList();
      all := new RangeList();
    }

    /** balloc_setup; true for the hang of a full array. */
    method Setup(entries: seq<Entry>, kernel: Range, initrd: Range) returns (hung: bool)
      requires Valid() && free.View() == [] && all.View() == []
      requires forall i :: 0 <= i < |entries| ==> entries[i].from < entries[i].to
      requires kernel.begin <= kernel.end && initrd.begin <= initrd.end
      modifies free, free.range, all, all.range
      ensures Valid() && (!hung ==> AllIs(all.View(), entries) && FreeIs(free.View(), entries, kernel, initrd))
      ensures hung ==> |entries| + 3 > MAX_RANGES
    {
      hide KnownIs, AvailableIs, UnreservedIs, FreeIs, AllIs, Add, Cut, CutHangs;
      hung := Collect(entries);
      if hung { return; }
      hung := Reserve(entries);
      if hung { return; }
      ReserveDone(free.View(), entries, kernel, initrd);
      KnownDone(all.View(), entries);
      CutLonger(free.View(), kernel.begin, kernel.end);
      hung := free.RemoveRange(kernel.begin, kernel.end);
      if hung { return; }
      CutLonger(free.View(), initrd.begin, initrd.end);
      hung := free.RemoveRange(initrd.begin, initrd.end);
      if hung { return; }
      AddLonger(all.View(), 0, MEGABYTE);
      hung := all.AddRange(0, MEGABYTE);
      if hung { return; }
      CutLonger(free.View(), 0, MEGABYTE);
      hung := free.RemoveRange(0, MEGABYTE);
    }

    /** Its first loop. */
    method Collect(entries: seq<Entry>) returns (hung: bool)
      requires Valid() && free.View() == [] && all.View() == []
      requires forall i :: 0 <= i < |entries| ==> entries[i].from < entries[i].to
      modifies free, free.range, all, all.range
      ensures Valid() && (hung ==> |entries| > MAX_RANGES)
      ensures !hung ==> KnownIs(all.View(), entries, |entries|) && AvailableIs(free.View(), entries, |entries|)
      ensures !hung ==> all.size <= |entries| && free.size <= Usable(entries, |entries|)
    {
      hide KnownIs, AvailableIs, Add;
      SetupStarts(entries);
      var i := 0;
      while i < |entries|
        invariant 0 <= i <= |entries| && Valid() && KnownIs(all.View(), entries, i)
        invariant AvailableIs(free.View(), entries, i)
        invariant all.size <= i && free.size <= Usable(entries, i)
      {
        var e := entries[i];
        KnownStep(all.View(), entries, i);
        AvailableStep(free.View(), entries, i);
        AddLonger(all.View(), e.from, e.to);
        AddLonger(free.View(), e.from, e.to);
        hung := all.AddRange(e.from, e.to);
        if hung { return; }
        if e.kind == AVAILABLE {
          hung := free.AddRange(e.from, e.to);
          if hung { return; }
        }
        i := i + 1;
      }
      hung := false;
    }

    /** Its second loop. */
    method Reserve(entries: seq<Entry>) returns (hung: bool)
      requires Valid() && AvailableIs(free.View(), entries, |entries|) && free.size <= Usable(entries, |entries|)
      requires forall i :: 0 <= i < |entries| ==> entries[i].from < entries[i].to
      modifies free, free.range
      ensures Valid() && all.View() == old(all.View()) && (hung ==> |entries| > MAX_RANGES)
      ensures !hung ==> UnreservedIs(free.View(), entries, |entries|) && free.size <= |entries|
    {
      hide AvailableIs, UnreservedIs, Cut, CutHangs;
      ReservedStarts(free.View(), entries);
      var i := 0;
      while i < |entries|
        invariant 0 <= i <= |entries| && Valid() && UnreservedIs(free.View(), entries, i)
        invariant all.View() == old(all.View())
        invariant free.size <= Usable(entries, |entries|) + i - Usable(entries, i)
      {
        var e := entries[i];
        UsableRest(entries, i + 1, |entries|);
        ReservedStep(free.View(), entries, i);
        CutLonger(free.View(), e.from, e.to);
        if e.kind != AVAILABLE {
          hung := free.RemoveRange(e.from, e.to);
          if hung { return; }
        }
        i := i + 1;
      }
      hung := false;
    }
  }

  lemma {:induction false} UsableRest(entries: seq<Entry>, i: nat, n: nat)
    requires i <= n <= |entries|
    ensures Usable(entries, n) <= Usable(entries, i) + n - i
  {
    if i < n { UsableRest(entries, i, n - 1); }
  }

  /** Permuting the memory map changes nothing: both runs end with the same arrays. */
  lemma MapOrder(a: seq<Entry>, b: seq<Entry>, kernel: Range, initrd: Range, s: seq<Range>, t: seq<Range>,
                 all: seq<Range>, all1: seq<Range>)
    requires forall e :: e in a <==> e in b
    requires FreeIs(s, a, kernel, initrd) && FreeIs(t, b, kernel, initrd) && AllIs(all, a) && AllIs(all1, b)
    ensures s == t && all == all1
  {
    hide In, Canon, Available, Reserved, Known;
    forall x: nat ensures (In(s, x) <==> In(t, x)) && (In(all, x) <==> In(all1, x)) {
      SameEntries(a, b, x);
    }
    CanonUnique(s, t);
    CanonUnique(all, all1);
  }

  lemma SameEntries(a: seq<Entry>, b: seq<Entry>, x: nat)
    requires forall e :: e in a <==> e in b
    ensures Available(a, |a|, x) == Available(b, |b|, x) && Reserved(a, |a|, x) == Reserved(b, |b|, x)
    ensures Known(a, |a|, x) == Known(b, |b|, x)
  {
    OneWay(a, b, x);
    OneWay(b, a, x);
  }

  lemma OneWay(a: seq<Entry>, b: seq<Entry>, x: nat)
    requires forall e :: e in a ==> e in b
    ensures Available(a, |a|, x) ==> Available(b, |b|, x)
    ensures Known(a, |a|, x) ==> Known(b, |b|, x)
    ensures Reserved(a, |a|, x) ==> Reserved(b, |b|, x)
  {
    hide Covers;
    if i :| 0 <= i < |a| && a[i].kind == AVAILABLE && Covers(a[i], x) {
      assert a[i] in b;
      var j :| 0 <= j < |b| && b[j] == a[i];
    }
    if i :| 0 <= i < |a| && a[i].kind != AVAILABLE && Covers(a[i], x) {
      assert a[i] in b;
      var j :| 0 <= j < |b| && b[j] == a[i];
    }
  }

  /** What is free is known. */
  lemma FreeIsKnown(entries: seq<Entry>, kernel: Range, initrd: Range, free: seq<Range>, all: seq<Range>)
    requires FreeIs(free, entries, kernel, initrd) && AllIs(all, entries)
    ensures forall x: nat :: In(free, x) ==> In(all, x)
  {
    hide In, Canon, Covers;
  }

  // ---- buddy_setup ----

  /** A range in whole pages: the first page wholly inside, and the first page not. */
  function FirstPage(r: Range): nat {
    (r.begin + PAGE - 1) / PAGE
  }

  function EndPage(r: Range): nat {
    r.end / PAGE
  }

  /** Page `p` lies wholly inside the set. */
  ghost predicate WholePage(s: seq<Range>, p: nat) {
    forall x: nat :: p * PAGE <= x < p * PAGE + PAGE ==> In(s, x)
  }

  lemma PageIn(r: Range, p: nat)
    ensures FirstPage(r) <= p < EndPage(r) <==> r.begin <= p * PAGE && p * PAGE + PAGE <= r.end
  {}

  /** buddy_zone_free's lookup cannot fail: every free range that holds a whole page lies in a
      known range, whose zone spans all its pages. */
  lemma ZoneFound(free: seq<Range>, all: seq<Range>, i: nat) returns (k: nat)
    requires Canon(free) && Canon(all) && i < |free| && FirstPage(free[i]) < EndPage(free[i])
    requires forall x: nat :: In(free, x) ==> In(all, x)
    ensures k < |all| && FirstPage(all[k]) <= FirstPage(free[i]) && EndPage(free[i]) <= EndPage(all[k])
    ensures FirstPage(all[k]) < EndPage(all[k])
  {
    var r := free[i];
    assert r.begin < r.end;
    forall x: nat | r.begin <= x < r.end ensures In(all, x) { assert In(free, x); }
    k := RunInOne(all, r.begin, r.end);
    PagesInside(r, all[k]);
  }

  lemma PagesInside(r: Range, o: Range)
    requires o.begin <= r.begin && r.end <= o.end
    ensures FirstPage(o) <= FirstPage(r) && EndPage(r) <= EndPage(o)
  {}

  /** The zones of different known ranges have no page in common, so the lookup finds that one. */
  lemma ZonesApart(all: seq<Range>, i: nat, j: nat)
    requires Canon(all) && i < j < |all|
    ensures EndPage(all[i]) <= FirstPage(all[j])
  {}

  /** The pages of different free ranges are at least one page apart. */
  lemma RunsApart(free: seq<Range>, i: nat, j: nat)
    requires Canon(free) && i < j < |free|
    ensures EndPage(free[i]) < FirstPage(free[j])
  {}

  /** The pages of the first `n` free ranges that begin in [first, end). */
  function PagesOf(free: seq<Range>, n: nat, first: nat, end: nat): set<nat>
    requires n <= |free|
  {
    if n == 0 then {}
    else
      var r := free[n - 1];
      PagesOf(free, n - 1, first, end)
      + if FirstPage(r) < EndPage(r) && first <= FirstPage(r) < end
      then BuddyAllocator.Range(FirstPage(r), EndPage(r)) else {}
  }

  lemma {:induction false} PagesOfIs(free: seq<Range>, n: nat, first: nat, end: nat, p: nat)
    requires n <= |free|
    ensures p in PagesOf(free, n, first, end)
       <==> exists i :: 0 <= i < n && first <= FirstPage(free[i]) < end && FirstPage(free[i]) <= p < EndPage(free[i])
  {
    if n > 0 { PagesOfIs(free, n - 1, first, end, p); }
  }

  /** For a zone that spans every such range, they are exactly its wholly free pages. */
  lemma PagesAreFree(free: seq<Range>, first: nat, end: nat, p: nat)
    requires Canon(free) && first <= p < end
    requires forall i :: 0 <= i < |free| && first < EndPage(free[i]) && FirstPage(free[i]) < end ==>
                           first <= FirstPage(free[i])
    ensures p in PagesOf(free, |free|, first, end) <==> WholePage(free, p)
  {
    PagesOfIs(free, |free|, first, end, p);
    hide Canon;
    if WholePage(free, p) {
      hide FirstPage, EndPage;
      var k := RunInOne(free, p * PAGE, p * PAGE + PAGE);
      PageIn(free[k], p);
    }
    if i :| 0 <= i < |free| && FirstPage(free[i]) <= p < EndPage(free[i]) {
      PageIn(free[i], p);
      forall x: nat | p * PAGE <= x < p * PAGE + PAGE ensures In(free, x) {}
    }
  }

  /** Every free range with a whole page in the zone of known range `k` lies inside that zone:
      what FillZone and PagesAreFree ask for. */
  lemma ZoneSpans(free: seq<Range>, all: seq<Range>, k: nat, i: nat)
    requires Canon(free) && Canon(all) && k < |all| && i < |free| && FirstPage(free[i]) < EndPage(free[i])
    requires forall x: nat :: In(free, x) ==> In(all, x)
    requires FirstPage(all[k]) < EndPage(free[i]) && FirstPage(free[i]) < EndPage(all[k])
    ensures FirstPage(all[k]) <= FirstPage(free[i]) && EndPage(free[i]) <= EndPage(all[k])
  {
    hide FirstPage, EndPage, Canon, In;
    var j := ZoneFound(free, all, i);
    if j < k { ZonesApart(all, j, k); }
    if k < j { ZonesApart(all, k, j); }
  }

  /** buddy_setup for one zone: the free ranges that begin in it are handed over one by one. */
  method FillZone(zone: BuddyAllocator.ZoneAllocator, free: seq<Range>)
    requires zone.Ok() && zone.owner == map[] && zone.busy == {} && Canon(free)
    requires forall i :: 0 <= i < |free| && FirstPage(free[i]) < EndPage(free[i])
                         && zone.begin <= FirstPage(free[i]) < zone.end ==>
                           EndPage(free[i]) <= zone.end
    modifies zone, zone.page
    ensures zone.Ok() && zone.busy == {}
    ensures zone.Free() == zone.owner.Keys == PagesOf(free, |free|, zone.begin, zone.end)
  {
    hide Canon, FirstPage, EndPage, BuddyAllocator.Range, BuddyZone.Valid, BuddyZone.FreePages;
    NothingFree(zone);
    var i := 0;
    while i < |free|
      invariant 0 <= i <= |free| && zone.Ok() && zone.busy == {}
      invariant zone.Free() == zone.owner.Keys == PagesOf(free, i, zone.begin, zone.end)
    {
      var from, to := FirstPage(free[i]), EndPage(free[i]);
      if from < to && zone.begin <= from < zone.end {
        RunFree(free, i, zone.begin, zone.end);
        zone.FreeRange(from, to);
      }
      i := i + 1;
    }
  }

  lemma NothingFree(zone: BuddyAllocator.ZoneAllocator)
    requires zone.owner == map[]
    ensures zone.Free() == {}
  {}

  /** No page of the next range, nor its neighbours, has been handed over yet. */
  lemma RunFree(free: seq<Range>, i: nat, first: nat, end: nat)
    requires Canon(free) && i < |free| && FirstPage(free[i]) < EndPage(free[i])
    ensures forall p: nat :: FirstPage(free[i]) <= p + 1 && p <= EndPage(free[i]) ==> p !in PagesOf(free, i, first, end)
  {
    hide Canon, FirstPage, EndPage;
    forall p: nat | FirstPage(free[i]) <= p + 1 && p <= EndPage(free[i]) ensures p !in PagesOf(free, i, first, end) {
      PagesOfIs(free, i, first, end, p);
      forall j | 0 <= j < i ensures EndPage(free[j]) < FirstPage(free[i]) { RunsApart(free, j, i); }
    }
  }
}
