/** The range lists of balloc.c as sets of addresses: sorted, non-empty, pairwise non-touching
    intervals are a unique form, adding computes union and removing difference. */
module Intervals {

  /** struct balloc_range. */
  datatype Range = Range(begin: nat, end: nat)

  predicate In(s: seq<Range>, a: nat) {
    exists i :: 0 <= i < |s| && s[i].begin <= a < s[i].end
  }

  predicate Canon(s: seq<Range>) {
    && (forall i :: 0 <= i < |s| ==> s[i].begin < s[i].end)
    && (forall i, j :: 0 <= i < j < |s| ==> s[i].end < s[j].begin)
  }

  /** Where the first loop of add and remove stops: the first range not wholly below `begin`. */
  function First(s: seq<Range>, begin: nat): (k: nat)
    ensures k <= |s| && (k < |s| ==> begin <= s[k].end) && forall i :: 0 <= i < k ==> s[i].end < begin
  {
    if s == [] || begin <= s[0].end then 0 else 1 + First(s[1..], begin)
  }

  /** Where the second loop stops: the first range from `from` on wholly above `end`. */
  function Past(s: seq<Range>, from: nat, end: nat): (k: nat)
    requires from <= |s|
    ensures from <= k <= |s| && (k < |s| ==> end < s[k].begin) && forall i :: from <= i < k ==> s[i].begin <= end
    decreases |s| - from
  {
    if from == |s| || end < s[from].begin then from else Past(s, from + 1, end)
  }

  function Min(a: nat, b: nat): nat {
    if a < b then a else b
  }

  function Max(a: nat, b: nat): nat {
    if a < b then b else a
  }

  /** The range that replaces ranges `from` to `to` - 1. */
  function Merged(s: seq<Range>, from: nat, to: nat, begin: nat, end: nat): Range
    requires from <= to <= |s|
  {
    if from == to then Range(begin, end) else Range(Min(begin, s[from].begin), Max(end, s[to - 1].end))
  }

  /** balloc_add_range, without its capacity check. */
  function Add(s: seq<Range>, begin: nat, end: nat): seq<Range> {
    var from := First(s, begin);
    var to := Past(s, from, end);
    s[..from] + [Merged(s, from, to, begin, end)] + s[to..]
  }

  /** The pieces of a removed stretch [before, after) that lie outside [begin, end). */
  function PutBack(rest: seq<Range>, before: nat, begin: nat, end: nat, after: nat): seq<Range> {
    var left := if before < begin then Add(rest, before, begin) else rest;
    if after > end then Add(left, end, after) else left
  }

  /** balloc_remove_range, without the capacity checks of its two calls. */
  function Cut(s: seq<Range>, begin: nat, end: nat): seq<Range> {
    var from := First(s, begin);
    var to := Past(s, from, end);
    if from == to then s else PutBack(s[..from] + s[to..], s[from].begin, begin, end, s[to - 1].end)
  }

  // ---- what is in a list ----

  lemma InConcat(a: seq<Range>, b: seq<Range>, x: nat)
    ensures In(a + b, x) <==> In(a, x) || In(b, x)
  {
    if i :| 0 <= i < |a| && a[i].begin <= x < a[i].end { assert (a + b)[i] == a[i]; }
    if i :| 0 <= i < |b| && b[i].begin <= x < b[i].end { assert (a + b)[|a| + i] == b[i]; }
  }

  lemma InOne(r: Range, x: nat)
    ensures In([r], x) <==> r.begin <= x < r.end
  {
    assert [r][0] == r;
  }

  lemma InSplit(s: seq<Range>, i: nat, j: nat, x: nat)
    requires i <= j <= |s|
    ensures In(s, x) <==> In(s[..i], x) || In(s[i..j], x) || In(s[j..], x)
  {
    assert s == s[..i] + s[i..];
    assert s[i..] == s[i..j] + s[j..];
    InConcat(s[..i], s[i..], x);
    InConcat(s[i..j], s[j..], x);
  }

  predicate InPart(s: seq<Range>, i: nat, j: nat, x: nat)
    requires j <= |s|
  {
    exists k :: i <= k < j && s[k].begin <= x < s[k].end
  }

  lemma PartIs(s: seq<Range>, i: nat, j: nat, x: nat)
    requires i <= j <= |s|
    ensures In(s[i..j], x) <==> InPart(s, i, j, x)
  {
    var m := s[i..j];
    if k :| 0 <= k < |m| && m[k].begin <= x < m[k].end { assert s[i + k] == m[k]; }
    if k :| i <= k < j && s[k].begin <= x < s[k].end { assert m[k - i] == s[k]; }
  }

  /** Ranges `from` to `to` - 1 are those that touch [begin, end]. */
  predicate Touched(s: seq<Range>, from: nat, to: nat, begin: nat, end: nat) {
    && from < to <= |s| && begin <= s[from].end && s[to - 1].begin <= end
    && (forall i :: 0 <= i < from ==> s[i].end < begin)
    && (forall i :: to <= i < |s| ==> end < s[i].begin)
  }

  lemma TouchedAre(s: seq<Range>, begin: nat, end: nat)
    requires Canon(s)
    ensures var from := First(s, begin);
            var to := Past(s, from, end);
            from < to ==> Touched(s, from, to, begin, end)
  {
    var from := First(s, begin);
    var to := Past(s, from, end);
    if from < to { PastAll(s, to, end); }
  }

  lemma PastAll(s: seq<Range>, to: nat, end: nat)
    requires Canon(s) && to <= |s| && (to < |s| ==> end < s[to].begin)
    ensures forall i :: to <= i < |s| ==> end < s[i].begin
  {}

  /** Merged with the interval, the ranges that touch it fill one interval. */
  lemma Filled(s: seq<Range>, from: nat, to: nat, begin: nat, end: nat, x: nat)
    requires Canon(s) && begin < end && Touched(s, from, to, begin, end)
    ensures InPart(s, from, to, x) || begin <= x < end <==> Min(begin, s[from].begin) <= x < Max(end, s[to - 1].end)
  {
    if k :| from <= k < to && s[k].begin <= x < s[k].end { PartBounds(s, from, to, k); }
  }

  lemma PartBounds(s: seq<Range>, from: nat, to: nat, k: nat)
    requires Canon(s) && from <= k < to <= |s|
    ensures s[from].begin <= s[k].begin && s[k].end <= s[to - 1].end
  {}

  lemma AddIn(s: seq<Range>, begin: nat, end: nat, x: nat)
    requires Canon(s) && begin < end
    ensures In(Add(s, begin, end), x) <==> In(s, x) || begin <= x < end
  {
    TouchedAre(s, begin, end);
    MergedIn(s, First(s, begin), Past(s, First(s, begin), end), begin, end, x);
  }

  lemma MergedIn(s: seq<Range>, from: nat, to: nat, begin: nat, end: nat, x: nat)
    requires Canon(s) && begin < end && from <= to <= |s| && (from < to ==> Touched(s, from, to, begin, end))
    ensures In(s[..from] + [Merged(s, from, to, begin, end)] + s[to..], x) <==> In(s, x) || begin <= x < end
  {
    var r := Merged(s, from, to, begin, end);
    InSplit(s, from, to, x);
    InConcat(s[..from] + [r], s[to..], x);
    InConcat(s[..from], [r], x);
    InOne(r, x);
    PartIs(s, from, to, x);
    hide Canon, In;
    if from < to { Filled(s, from, to, begin, end, x); }
  }

  lemma NothingIn(s: seq<Range>, x: nat)
    requires s == []
    ensures !In(s, x)
  {}

  lemma AddCanon(s: seq<Range>, begin: nat, end: nat)
    requires Canon(s) && begin < end
    ensures Canon(Add(s, begin, end))
  {
    var from := First(s, begin);
    var to := Past(s, from, end);
    hide First, Past, In, Canon, Touched;
    TouchedAre(s, begin, end);
    PastAll(s, to, end);
    if from < to { TouchedApart(s, from, to, begin, end); }
    CanonJoin(s, from, Merged(s, from, to, begin, end), to);
  }

  lemma TouchedApart(s: seq<Range>, from: nat, to: nat, begin: nat, end: nat)
    requires Canon(s) && begin < end && Touched(s, from, to, begin, end)
    ensures Min(begin, s[from].begin) < Max(end, s[to - 1].end)
    ensures forall i :: 0 <= i < from ==> s[i].end < Min(begin, s[from].begin)
    ensures forall i :: to <= i < |s| ==> Max(end, s[to - 1].end) < s[i].begin
  {}

  lemma CanonJoin(s: seq<Range>, from: nat, r: Range, to: nat)
    requires Canon(s) && from <= to <= |s| && r.begin < r.end
    requires forall i :: 0 <= i < from ==> s[i].end < r.begin
    requires forall i :: to <= i < |s| ==> r.end < s[i].begin
    ensures Canon(s[..from] + [r] + s[to..])
  {}

  /** Adding computes the union and keeps the form. */
  lemma AddIsUnion(s: seq<Range>, begin: nat, end: nat)
    requires Canon(s) && begin < end
    ensures Canon(Add(s, begin, end))
    ensures forall x: nat :: In(Add(s, begin, end), x) <==> In(s, x) || begin <= x < end
  {
    AddCanon(s, begin, end);
    forall x: nat ensures In(Add(s, begin, end), x) <==> In(s, x) || begin <= x < end { AddIn(s, begin, end, x); }
  }

  lemma CanonRest(s: seq<Range>, from: nat, to: nat)
    requires Canon(s) && from <= to <= |s|
    ensures Canon(s[..from] + s[to..])
  {}

  /** Removing computes the difference and keeps the form. */
  lemma CutIsDifference(s: seq<Range>, begin: nat, end: nat)
    requires Canon(s) && begin <= end
    ensures Canon(Cut(s, begin, end))
    ensures forall x: nat :: In(Cut(s, begin, end), x) <==> In(s, x) && !(begin <= x < end)
  {
    hide First, Past, In, Canon, Touched, PutBack, Add;
    var from := First(s, begin);
    var to := Past(s, from, end);
    TouchedAre(s, begin, end);
    PastAll(s, to, end);
    if from < to {
      CutTouched(s, from, to, begin, end);
    } else {
      CutNothing(s, from, begin, end);
    }
  }

  lemma CutNothing(s: seq<Range>, k: nat, begin: nat, end: nat)
    requires k <= |s| && (forall i :: 0 <= i < k ==> s[i].end < begin) && forall i :: k <= i < |s| ==> end < s[i].begin
    ensures forall x: nat :: In(s, x) <==> In(s, x) && !(begin <= x < end)
  {}

  lemma CutTouched(s: seq<Range>, from: nat, to: nat, begin: nat, end: nat)
    requires Canon(s) && begin <= end && Touched(s, from, to, begin, end)
    ensures var c := PutBack(s[..from] + s[to..], s[from].begin, begin, end, s[to - 1].end);
            Canon(c) && forall x: nat :: In(c, x) <==> In(s, x) && !(begin <= x < end)
  {
    var rest := s[..from] + s[to..];
    CanonRest(s, from, to);
    PutBackIs(rest, s[from].begin, begin, end, s[to - 1].end);
    hide In, PutBack;
    var c := PutBack(rest, s[from].begin, begin, end, s[to - 1].end);
    forall x: nat ensures In(c, x) <==> In(s, x) && !(begin <= x < end) {
      CutIn(s, from, to, begin, end, x);
    }
  }

  lemma PutBackIs(rest: seq<Range>, before: nat, begin: nat, end: nat, after: nat)
    requires Canon(rest)
    ensures Canon(PutBack(rest, before, begin, end, after))
    ensures forall x: nat :: In(PutBack(rest, before, begin, end, after), x) <==>
                             In(rest, x) || before <= x < begin || end <= x < after
  {
    hide In, Canon, Add;
    var left := if before < begin then Add(rest, before, begin) else rest;
    if before < begin { AddIsUnion(rest, before, begin); }
    if after > end { AddIsUnion(left, end, after); }
  }

  /** What the ranges that touch the interval hold outside it. */
  lemma CutIn(s: seq<Range>, from: nat, to: nat, begin: nat, end: nat, x: nat)
    requires Canon(s) && begin <= end && Touched(s, from, to, begin, end)
    ensures In(s, x) && !(begin <= x < end) <==>
            In(s[..from] + s[to..], x) || s[from].begin <= x < begin || end <= x < s[to - 1].end
  {
    InSplit(s, from, to, x);
    InConcat(s[..from], s[to..], x);
    PartIs(s, from, to, x);
    PartIs(s, 0, from, x);
    PartIs(s, to, |s|, x);
    assert s[0..from] == s[..from] && s[to..|s|] == s[to..];
    hide In;
    if k :| from <= k < to && s[k].begin <= x < s[k].end { PartBounds(s, from, to, k); }
    if s[from].begin <= x < begin { assert s[from].begin <= x < s[from].end; }
    if end <= x < s[to - 1].end { assert s[to - 1].begin <= x < s[to - 1].end; }
  }

  // ---- the form is unique ----

  lemma CanonTail(s: seq<Range>)
    requires Canon(s) && s != []
    ensures Canon(s[1..]) && (forall x: nat :: In(s[1..], x) <==> In(s, x) && x > s[0].end)
  {
    forall x: nat ensures In(s[1..], x) <==> In(s, x) && x > s[0].end {
      if In(s[1..], x) {
        var i :| 0 <= i < |s| - 1 && s[1..][i].begin <= x < s[1..][i].end;
        assert s[i + 1] == s[1..][i];
      }
      if In(s, x) && x > s[0].end {
        var i :| 0 <= i < |s| && s[i].begin <= x < s[i].end;
        assert s[i] == s[1..][i - 1];
      }
    }
  }

  lemma HeadIn(s: seq<Range>, x: nat)
    requires Canon(s) && s != []
    ensures s[0].begin <= x < s[0].end ==> In(s, x)
    ensures In(s, x) ==> s[0].begin <= x
    ensures x == s[0].end ==> !In(s, x)
  {
    if In(s, x) {
      var i :| 0 <= i < |s| && s[i].begin <= x < s[i].end;
    }
  }

  /** Lists in this form that hold the same addresses are the same list. */
  lemma {:induction false} CanonUnique(s: seq<Range>, t: seq<Range>)
    requires Canon(s) && Canon(t) && forall x: nat :: In(s, x) <==> In(t, x)
    ensures s == t
    decreases |s|
  {
    if s == [] {
      if t != [] { HeadIn(t, t[0].begin); NothingIn(s, t[0].begin); }
    } else if t == [] {
      HeadIn(s, s[0].begin);
      NothingIn(t, s[0].begin);
    } else {
      SameHead(s, t);
      CanonTail(s);
      CanonTail(t);
      CanonUnique(s[1..], t[1..]);
      assert s == [s[0]] + s[1..] && t == [t[0]] + t[1..];
    }
  }

  lemma SameHead(s: seq<Range>, t: seq<Range>)
    requires Canon(s) && Canon(t) && s != [] && t != [] && forall x: nat :: In(s, x) <==> In(t, x)
    ensures s[0] == t[0]
  {
    hide In;
    HeadIn(s, s[0].begin);
    HeadIn(t, s[0].begin);
    HeadIn(s, t[0].begin);
    HeadIn(t, t[0].begin);
    if s[0].end < t[0].end { HeadIn(s, s[0].end); HeadIn(t, s[0].end); }
    if t[0].end < s[0].end { HeadIn(s, t[0].end); HeadIn(t, t[0].end); }
  }

  /** A run of addresses of the set lies in one range. */
  lemma RunInOne(s: seq<Range>, from: nat, to: nat) returns (k: nat)
    requires Canon(s) && from < to && forall x: nat :: from <= x < to ==> In(s, x)
    ensures k < |s| && s[k].begin <= from && to <= s[k].end
  {
    assert In(s, from);
    k :| 0 <= k < |s| && s[k].begin <= from < s[k].end;
    if s[k].end < to { EndOut(s, k); }
  }

  lemma EndOut(s: seq<Range>, k: nat)
    requires Canon(s) && k < |s|
    ensures !In(s, s[k].end)
  {}
}
