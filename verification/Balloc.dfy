/** The bootstrap allocator (balloc.c): the range arrays updated in place, the memory map
    turned into the free and the known ranges, and allocation out of the free ones. */
module Balloc {
  import opened Bits
  import opened Intervals

  const MAX_RANGES: nat := 256
  const WORD: nat := 0x1_0000_0000_0000_0000

  class RangeList {
    const range: array<Range>
    var size: nat

    ghost predicate Valid()
      reads this
    {
      range.Length == MAX_RANGES && size <= MAX_RANGES
    }

    ghost function View(): seq<Range>
      reads this, range
      requires Valid()
    {
      range[..size]
    }

    constructor ()
      ensures Valid() && View() == [] && fresh(range)
    {
      range := new Range[MAX_RANGES](i => Range(0, 0));
      size := 0;
    }

    /** memmove of `n` ranges to a lower position. */
    method MoveDown(dst: nat, src: nat, n: nat)
      requires Valid() && dst <= src && src + n <= MAX_RANGES
      modifies range
      ensures range[..] == old(range[..])[..dst] + old(range[..])[src..src + n] + old(range[..])[dst + n..]
    {
      ghost var a := range[..];
      var i := 0;
      while i < n
        invariant 0 <= i <= n && range[..] == a[..dst] + a[src..src + i] + a[dst + i..]
      {
        MovedAt(a, dst, src, i);
        assert range[src + i] == range[..][src + i];
        range[dst + i] := range[src + i];
        i := i + 1;
      }
    }

    /** memmove of `n` ranges one position up. */
    method MoveUp(src: nat, n: nat)
      requires Valid() && src + 1 + n <= MAX_RANGES
      modifies range
      ensures range[..] == old(range[..])[..src + 1] + old(range[..])[src..src + n] + old(range[..])[src + 1 + n..]
    {
      var i := n;
      while i > 0
        invariant 0 <= i <= n
        invariant forall k :: 0 <= k < MAX_RANGES && !(src + 1 + i <= k < src + 1 + n) ==> range[k] == old(range[k])
        invariant forall k :: src + 1 + i <= k < src + 1 + n ==> range[k] == old(range[k - 1])
      {
        i := i - 1;
        range[src + 1 + i] := range[src + i];
      }
    }

    method MemMove(dst: nat, src: nat, n: nat)
      requires Valid() && src + n <= MAX_RANGES && (dst <= src || (dst == src + 1 && dst + n <= MAX_RANGES))
      modifies range
      ensures range[..] == old(range[..])[..dst] + old(range[..])[src..src + n] + old(range[..])[dst + n..]
    {
      if dst <= src { MoveDown(dst, src, n); } else { MoveUp(src, n); }
    }

    /** The two loops that find the ranges an interval touches. */
    method Locate(begin: nat, end: nat) returns (from: nat, to: nat)
      requires Valid()
      ensures from == First(View(), begin) && to == Past(View(), from, end)
    {
      hide First, Past;
      ghost var s := View();
      from := 0;
      FirstFrom(s, begin, 0);
      while from != size && begin > range[from].end
        invariant from <= size && First(s, begin) == from + First(s[from..], begin)
      {
        FirstFrom(s, begin, from);
        from := from + 1;
      }
      FirstFrom(s, begin, from);
      to := from;
      while to != size && end >= range[to].begin
        invariant from <= to <= size && Past(s, from, end) == Past(s, to, end)
      {
        PastFrom(s, to, end);
        to := to + 1;
      }
      PastFrom(s, to, end);
    }

    /** balloc_add_range; true for the hang of a full array. */
    method AddRange(begin0: nat, end0: nat) returns (hung: bool)
      requires Valid()
      modifies this, range
      ensures Valid() && (hung <==> |Add(old(View()), begin0, end0)| > MAX_RANGES)
      ensures View() == if hung then old(View()) else Add(old(View()), begin0, end0)
    {
      hide First, Past;
      var begin, end := begin0, end0;
      ghost var s := View();
      var from, to := Locate(begin, end);
      AddSize(s, from, to, Merged(s, from, to, begin, end));
      if size + 1 - (to - from) > MAX_RANGES {
        return true;
      }
      if from != to {
        if begin > range[from].begin { begin := range[from].begin; }
        if end < range[to - 1].end { end := range[to - 1].end; }
      }
      assert Range(begin, end) == Merged(s, from, to, begin0, end0);
      hide Add, Merged;
      Replace(from, to, Range(begin, end));
      AddParts(s, begin0, end0, from, to, Range(begin, end));
      hung := false;
    }

    /** The memmove and the stores that end balloc_add_range. */
    method Replace(from: nat, to: nat, r: Range)
      requires Valid() && from <= to <= size && size + 1 - (to - from) <= MAX_RANGES
      modifies this, range
      ensures Valid() && View() == old(View())[..from] + [r] + old(View())[to..]
    {
      ghost var a, n := range[..], size;
      MemMove(from + 1, to, size - to);
      ghost var b := range[..];
      ShiftedIs(a, b, n, from, to, r);
      size := size + 1 - (to - from);
      range[from] := r;
      assert range[..] == b[from := r];
      assert View() == range[..][..size];
    }

    /** The memmove of balloc_remove_range. */
    method Drop(from: nat, to: nat)
      requires Valid() && from <= to <= size
      modifies this, range
      ensures Valid() && View() == old(View())[..from] + old(View())[to..]
    {
      MemMove(from, to, size - to);
      DroppedIs(old(range[..]), range[..], size, from, to);
      size := size - (to - from);
    }

    /** balloc_remove_range. */
    method RemoveRange(begin: nat, end: nat) returns (hung: bool)
      requires Valid()
      modifies this, range
      ensures Valid() && (!hung ==> View() == Cut(old(View()), begin, end))
      ensures hung <==> CutHangs(old(View()), begin, end)
    {
      hide First, Past, Add;
      ghost var s := View();
      var from, to := Locate(begin, end);
      if from == to { return false; }
      var before := range[from].begin;
      var after := range[to - 1].end;
      Drop(from, to);
      hung := false;
      if before < begin { hung := AddRange(before, begin); }
      if hung { return; }
      if after > end { hung := AddRange(end, after); }
    }

    /** balloc_find_range, on 64-bit words. */
    method FindRange(from: nat, to: nat, bytes: nat, align: nat) returns (r: nat)
      requires Valid() && align > 0
      ensures r == FirstFit(View(), 0, from, to, bytes, align)
    {
      hide AlignWord;
      var i := 0;
      while i != size
        invariant i <= size
        invariant FirstFit(View(), 0, from, to, bytes, align) == FirstFit(View(), i, from, to, bytes, align)
      {
        if range[i].begin >= to { break; }
        if range[i].end <= from {
          i := i + 1;
          continue;
        }
        var addr := AlignWord(range[i].begin, align);
        if (addr + bytes) % WORD <= range[i].end {
          return addr;
        }
        i := i + 1;
      }
      r := to;
    }

    /** __balloc_alloc; zero for failure. */
    method Alloc(from: nat, to: nat, bytes: nat, align: nat) returns (hung: bool, r: nat)
      requires Valid() && align > 0
      modifies this, range
      ensures Valid()
      ensures var fit := FirstFit(old(View()), 0, from, to, bytes, align);
              && (fit == to ==> !hung && r == 0 && View() == old(View()))
              && (fit != to ==> (hung <==> CutHangs(old(View()), fit, (fit + bytes) % WORD)))
              && (fit != to && !hung ==> r == fit && View() == Cut(old(View()), fit, (fit + bytes) % WORD))
    {
      hide Cut, FirstFit, CutHangs;
      var addr := FindRange(from, to, bytes, align);
      hung := false;
      if addr == to {
        return false, 0;
      }
      hung := RemoveRange(addr, (addr + bytes) % WORD);
      r := addr;
    }
  }

  /** balloc_align_up on 64-bit words. */
  function AlignWord(x: nat, align: nat): nat
    requires align > 0
  {
    var y := (x + align - 1) % WORD;
    y - y % align
  }

  /** `addr + size` and the alignment do not leave the 64-bit word. */
  predicate NoWrap(s: seq<Range>, bytes: nat, align: nat) {
    forall i :: 0 <= i < |s| ==> s[i].end + bytes + align <= WORD
  }

  /** The aligned start of the first range from `i` on that ends above `from` and can hold
      `bytes`, or `to`; ranges that start at `to` or above do not count. */
  function FirstFit(s: seq<Range>, i: nat, from: nat, to: nat, bytes: nat, align: nat): nat
    requires i <= |s| && align > 0
    decreases |s| - i
  {
    if i == |s| || s[i].begin >= to then to
    else if s[i].end > from && (AlignWord(s[i].begin, align) + bytes) % WORD <= s[i].end
    then AlignWord(s[i].begin, align)
    else FirstFit(s, i + 1, from, to, bytes, align)
  }

  lemma WordFits(s: seq<Range>, i: nat, bytes: nat, align: nat)
    requires NoWrap(s, bytes, align) && i < |s| && s[i].begin < s[i].end && align > 0
    ensures var a := AlignWord(s[i].begin, align);
            a == AlignUp(s[i].begin, align) && (a + bytes) % WORD == a + bytes
    ensures s[i].begin <= AlignUp(s[i].begin, align) < s[i].begin + align && AlignUp(s[i].begin, align) % align == 0
  {
    AlignUpFacts(s[i].begin, align);
    Small(s[i].begin + align - 1);
    Small(AlignUp(s[i].begin, align) + bytes);
    hide NoWrap;
  }

  lemma Small(x: nat)
    ensures x < WORD ==> x % WORD == x
  {}

  /** `fit` is aligned and wholly free, and taking it takes exactly its bytes. */
  ghost predicate Takes(s: seq<Range>, fit: nat, bytes: nat, align: nat)
    requires align > 0
  {
    && fit % align == 0 && AllFree(s, fit, bytes)
    && (fit + bytes) % WORD == fit + bytes && Canon(Cut(s, fit, fit + bytes))
    && forall x: nat :: In(Cut(s, fit, fit + bytes), x) <==> In(s, x) && !(fit <= x < fit + bytes)
  }

  /** Away from the end of the address space this holds of what the search finds. */
  lemma {:induction false} FitIsFree(s: seq<Range>, i: nat, from: nat, to: nat, bytes: nat, align: nat)
    requires Canon(s) && i <= |s| && align > 0 && NoWrap(s, bytes, align)
    ensures var fit := FirstFit(s, i, from, to, bytes, align); fit != to ==> Takes(s, fit, bytes, align)
    decreases |s| - i
  {
    hide AlignUp, AlignWord, Takes, NoWrap;
    if i < |s| && s[i].begin < to {
      WordFits(s, i, bytes, align);
      if s[i].end > from && AlignWord(s[i].begin, align) + bytes <= s[i].end {
        RangeTakes(s, i, AlignWord(s[i].begin, align), bytes, align);
      } else {
        FitIsFree(s, i + 1, from, to, bytes, align);
      }
    }
  }

  lemma RangeTakes(s: seq<Range>, i: nat, a: nat, bytes: nat, align: nat)
    requires Canon(s) && i < |s| && align > 0 && s[i].begin <= a && a + bytes <= s[i].end
    requires a % align == 0 && (a + bytes) % WORD == a + bytes
    ensures Takes(s, a, bytes, align)
  {
    hide Cut, In, Canon;
    CutIsDifference(s, a, a + bytes);
    forall x: nat | a <= x < a + bytes ensures In(s, x) { InRange(s, i, x); }
  }

  lemma InRange(s: seq<Range>, i: nat, x: nat)
    requires i < |s| && s[i].begin <= x < s[i].end
    ensures In(s, x)
  {}

  /** The range can be used, and `a` starts a run of `bytes` in it. */
  predicate HasRun(r: Range, from: nat, to: nat, bytes: nat, a: nat) {
    r.begin < to && r.end > from && r.begin <= a && a + bytes <= r.end
  }

  /** Some range from `i` on has an aligned run at `a`. */
  ghost predicate Candidate(s: seq<Range>, i: nat, from: nat, to: nat, bytes: nat, align: nat, a: nat)
    requires align > 0
  {
    a % align == 0 && exists k :: i <= k < |s| && HasRun(s[k], from, to, bytes, a)
  }

  /** The search yields the least aligned run in the ranges that begin below the limit, and the
      limit exactly where there is none or the least one starts there. */
  lemma {:induction false} LeastFit(s: seq<Range>, i: nat, from: nat, to: nat, bytes: nat, align: nat)
    requires Canon(s) && i <= |s| && align > 0 && NoWrap(s, bytes, align)
    ensures var fit := FirstFit(s, i, from, to, bytes, align);
            && (forall a: nat :: Candidate(s, i, from, to, bytes, align, a) ==>
                                   Candidate(s, i, from, to, bytes, align, fit) && fit <= a)
            && (fit != to ==> Candidate(s, i, from, to, bytes, align, fit))
    decreases |s| - i
  {
    hide AlignUp, AlignWord, NoWrap, Candidate, HasRun;
    var fit := FirstFit(s, i, from, to, bytes, align);
    if i == |s| || s[i].begin >= to {
      forall a: nat ensures !Candidate(s, i, from, to, bytes, align, a) { NoneAbove(s, i, from, to, bytes, align, a); }
    } else {
      WordFits(s, i, bytes, align);
      var b := AlignUp(s[i].begin, align);
      if s[i].end > from && b + bytes <= s[i].end {
        FitsHere(s, i, from, to, bytes, align, b);
        forall a: nat | Candidate(s, i, from, to, bytes, align, a)
          ensures b <= a { LeastHere(s, i, from, to, bytes, align, a); }
      } else {
        LeastFit(s, i + 1, from, to, bytes, align);
        forall a: nat ensures Candidate(s, i, from, to, bytes, align, a) <==>
                              Candidate(s, i + 1, from, to, bytes, align, a) {
          NotHere(s, i, from, to, bytes, align, a);
        }
      }
    }
  }

  lemma NoneAbove(s: seq<Range>, i: nat, from: nat, to: nat, bytes: nat, align: nat, a: nat)
    requires Canon(s) && i <= |s| && align > 0 && (i == |s| || s[i].begin >= to)
    ensures !Candidate(s, i, from, to, bytes, align, a)
  {
    forall k | i <= k < |s| ensures !HasRun(s[k], from, to, bytes, a) { RangesUp(s, i, k); }
  }

  /** Ranges lie in order. */
  lemma {:induction false} RangesUp(s: seq<Range>, i: nat, k: nat)
    requires Canon(s) && i <= k < |s|
    ensures s[i].begin <= s[k].begin && (i < k ==> s[i].end < s[k].begin)
  {}

  lemma FitsHere(s: seq<Range>, i: nat, from: nat, to: nat, bytes: nat, align: nat, b: nat)
    requires i < |s| && align > 0 && s[i].begin < to && s[i].end > from && s[i].begin <= b && b + bytes <= s[i].end
    requires b % align == 0
    ensures Candidate(s, i, from, to, bytes, align, b)
  {
    assert HasRun(s[i], from, to, bytes, b);
  }

  lemma LeastHere(s: seq<Range>, i: nat, from: nat, to: nat, bytes: nat, align: nat, a: nat)
    requires Canon(s) && i < |s| && align > 0 && Candidate(s, i, from, to, bytes, align, a)
    requires AlignUp(s[i].begin, align) + bytes <= s[i].end
    ensures AlignUp(s[i].begin, align) <= a
  {
    hide AlignUp;
    var k :| i <= k < |s| && HasRun(s[k], from, to, bytes, a);
    RangesUp(s, i, k);
    if k == i { AlignUpLeast(s[i].begin, align, a); }
  }

  lemma NotHere(s: seq<Range>, i: nat, from: nat, to: nat, bytes: nat, align: nat, a: nat)
    requires Canon(s) && i < |s| && align > 0 && !(s[i].end > from && AlignUp(s[i].begin, align) + bytes <= s[i].end)
    ensures Candidate(s, i, from, to, bytes, align, a) <==> Candidate(s, i + 1, from, to, bytes, align, a)
  {
    hide AlignUp;
    if a % align == 0 && HasRun(s[i], from, to, bytes, a) { AlignUpLeast(s[i].begin, align, a); }
    assert Candidate(s, i + 1, from, to, bytes, align, a) ==> Candidate(s, i, from, to, bytes, align, a);
  }

  /** From address 0 the runs are the aligned stretches of free bytes in ranges below the limit. */
  lemma CandidateIsFree(s: seq<Range>, to: nat, bytes: nat, align: nat, a: nat)
    requires Canon(s) && align > 0 && bytes > 0
    ensures Candidate(s, 0, 0, to, bytes, align, a) <==> FreeStart(s, to, bytes, align, a)
  {
    if Candidate(s, 0, 0, to, bytes, align, a) {
      var k :| 0 <= k < |s| && HasRun(s[k], 0, to, bytes, a);
      forall x: nat | a <= x < a + bytes ensures In(s, x) { InRange(s, k, x); }
      assert s[k].begin <= a < s[k].end;
    }
    if AllFree(s, a, bytes) && StartsBelow(s, a, to) {
      FreeInOne(s, a, bytes, to);
    }
  }

  lemma FreeInOne(s: seq<Range>, a: nat, bytes: nat, to: nat)
    requires Canon(s) && bytes > 0 && AllFree(s, a, bytes) && StartsBelow(s, a, to)
    ensures exists k :: 0 <= k < |s| && HasRun(s[k], 0, to, bytes, a)
  {
    assert forall x: nat :: a <= x < a + bytes ==> In(s, x);
    var k := RunInOne(s, a, a + bytes);
    var j :| 0 <= j < |s| && s[j].begin <= a < s[j].end && s[j].begin < to;
    assert HasRun(s[k], 0, to, bytes, a);
  }

  /** The range that holds `a` begins below the limit. */
  ghost predicate StartsBelow(s: seq<Range>, a: nat, to: nat) {
    exists k :: 0 <= k < |s| && s[k].begin <= a < s[k].end && s[k].begin < to
  }

  /** An aligned run of free bytes at `a`, in a range that begins below the limit. */
  ghost predicate FreeStart(s: seq<Range>, to: nat, bytes: nat, align: nat, a: nat)
    requires align > 0
  {
    a % align == 0 && AllFree(s, a, bytes) && StartsBelow(s, a, to)
  }

  /** __balloc_alloc from address 0: the least aligned run of free bytes in the ranges that begin
      below `to`, for every `to`; nothing exactly where there is none, or the least one is at `to`. */
  lemma AllocLeast(s: seq<Range>, to: nat, bytes: nat, align: nat)
    requires Canon(s) && align > 0 && bytes > 0 && NoWrap(s, bytes, align)
    ensures var fit := FirstFit(s, 0, 0, to, bytes, align);
            && (fit != to ==> FreeStart(s, to, bytes, align, fit))
            && (forall a: nat :: FreeStart(s, to, bytes, align, a) ==> fit <= a)
            && (fit == to <==>
                forall a: nat :: FreeStart(s, to, bytes, align, a) ==> FreeStart(s, to, bytes, align, to) && to <= a)
  {
    hide FirstFit, Candidate, FreeStart, NoWrap;
    var fit := FirstFit(s, 0, 0, to, bytes, align);
    LeastFit(s, 0, 0, to, bytes, align);
    forall a: nat ensures Candidate(s, 0, 0, to, bytes, align, a) <==> FreeStart(s, to, bytes, align, a) {
      CandidateIsFree(s, to, bytes, align, a);
    }
  }

  /** A run that starts right at the limit, in a range that begins below it, is not handed out. */
  lemma LimitMissed()
    ensures var s := [Range(0x1001, 0x3000)];
            && Canon(s) && FirstFit(s, 0, 0, 0x2000, 0x1000, 0x1000) == 0x2000
            && FreeStart(s, 0x2000, 0x1000, 0x1000, 0x2000)
  {
    var s := [Range(0x1001, 0x3000)];
    assert s[0].begin <= 0x2000 < s[0].end && s[0].begin < 0x2000;
    assert AlignWord(0x1001, 0x1000) == 0x2000;
    forall x: nat | 0x2000 <= x < 0x3000 ensures In(s, x) { InRange(s, 0, x); }
  }

  /** balloc_alloc fails exactly when no aligned run of free bytes is long enough. */
  lemma AllocFails(s: seq<Range>, bytes: nat, align: nat)
    requires Canon(s) && align > 0 && bytes > 0 && NoWrap(s, bytes, align)
    ensures FirstFit(s, 0, 0, WORD - 1, bytes, align) == WORD - 1
       <==> forall a: nat :: a % align == 0 ==> !AllFree(s, a, bytes)
  {
    hide AlignWord, In, AllFree, FirstFit, Canon, StartsBelow, NoWrap;
    AllocLeast(s, WORD - 1, bytes, align);
    forall a: nat | a % align == 0 && AllFree(s, a, bytes)
      ensures FreeStart(s, WORD - 1, bytes, align, a) && a < WORD - 1
    {
      FreeBelow(s, bytes, align, a);
    }
  }

  lemma FreeBelow(s: seq<Range>, bytes: nat, align: nat, a: nat)
    requires Canon(s) && align > 0 && bytes > 0 && NoWrap(s, bytes, align) && AllFree(s, a, bytes)
    ensures StartsBelow(s, a, WORD - 1) && a < WORD - 1
  {
    assert In(s, a);
  }

  ghost predicate AllFree(s: seq<Range>, a: nat, bytes: nat) {
    forall x: nat :: a <= x < a + bytes ==> In(s, x)
  }

  lemma MovedAt(a: seq<Range>, dst: nat, src: nat, i: nat)
    requires dst <= src && src + i < |a|
    ensures var b := a[..dst] + a[src..src + i] + a[dst + i..];
            && |b| == |a| && b[src + i] == a[src + i]
            && b[dst + i := a[src + i]] == a[..dst] + a[src..src + i + 1] + a[dst + i + 1..]
  {}

  /** One of the two pieces does not fit any more. */
  predicate CutHangs(s: seq<Range>, begin: nat, end: nat) {
    var from := First(s, begin);
    var to := Past(s, from, end);
    from < to &&
    var before, after := s[from].begin, s[to - 1].end;
    var rest := s[..from] + s[to..];
    var left := if before < begin then Add(rest, before, begin) else rest;
    (before < begin && |left| > MAX_RANGES) || (after > end && |Add(left, end, after)| > MAX_RANGES)
  }

  /** Adding a range makes the list longer by at most one. */
  lemma AddLonger(s: seq<Range>, begin: nat, end: nat)
    ensures |Add(s, begin, end)| <= |s| + 1
  {
    hide First, Past, Merged;
  }

  /** So does cutting one out, and the array never overflows on the way to a list that fits. */
  lemma CutLonger(s: seq<Range>, begin: nat, end: nat)
    ensures |Cut(s, begin, end)| <= |s| + 1
    ensures |s| < MAX_RANGES ==> !CutHangs(s, begin, end)
  {
    hide First, Past, Add;
    var from := First(s, begin);
    var to := Past(s, from, end);
    if from < to {
      var before, after := s[from].begin, s[to - 1].end;
      var rest := s[..from] + s[to..];
      AddLonger(rest, before, begin);
      AddLonger(rest, end, after);
      if before < begin { AddLonger(Add(rest, before, begin), end, after); }
    }
  }

  lemma FirstFrom(s: seq<Range>, begin: nat, i: nat)
    requires i <= |s|
    ensures i == 0 ==> s[i..] == s
    ensures i < |s| && begin > s[i].end ==> First(s[i..], begin) == 1 + First(s[i + 1..], begin)
    ensures i == |s| || begin <= s[i].end ==> First(s[i..], begin) == 0
  {
    if i < |s| { assert s[i..][1..] == s[i + 1..]; }
  }

  lemma PastFrom(s: seq<Range>, i: nat, end: nat)
    requires i <= |s|
    ensures i < |s| && end >= s[i].begin ==> Past(s, i, end) == Past(s, i + 1, end)
    ensures i == |s| || end < s[i].begin ==> Past(s, i, end) == i
  {}

  lemma AddParts(s: seq<Range>, begin: nat, end: nat, from: nat, to: nat, r: Range)
    requires from == First(s, begin) && to == Past(s, from, end) && r == Merged(s, from, to, begin, end)
    ensures Add(s, begin, end) == s[..from] + [r] + s[to..]
  {
    hide First, Past, Merged;
  }

  lemma AddSize(s: seq<Range>, from: nat, to: nat, r: Range)
    requires from <= to <= |s|
    ensures |s[..from] + [r] + s[to..]| == |s| + 1 - (to - from)
  {}

  lemma ShiftedIs(a: seq<Range>, b: seq<Range>, size: nat, from: nat, to: nat, r: Range)
    requires |a| == MAX_RANGES && from <= to <= size <= MAX_RANGES && from + 1 + (size - to) <= MAX_RANGES
    requires b == a[..from + 1] + a[to..to + (size - to)] + a[from + 1 + (size - to)..]
    ensures |b| == MAX_RANGES && b[from := r][..size + 1 - (to - from)] == a[..size][..from] + [r] + a[..size][to..]
  {}

  lemma DroppedIs(a: seq<Range>, b: seq<Range>, size: nat, from: nat, to: nat)
    requires |a| == MAX_RANGES && from <= to <= size <= MAX_RANGES
    requires b == a[..from] + a[to..to + (size - to)] + a[from + (size - to)..]
    ensures |b| == MAX_RANGES && b[..size - (to - from)] == a[..size][..from] + a[..size][to..]
  {}
}
