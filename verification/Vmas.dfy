/** The list of mapped regions of mm.c: sorted, pairwise disjoint ranges of the user half. */
module Vmas {
  import opened Paging
  import opened MapLoop
  import opened UserSweep

  datatype Vma = Vma(begin: nat, end: nat, perm: nat)

  predicate Overlaps(v: Vma, from: nat, to: nat) {
    v.end > from && v.begin < to
  }

  predicate Inside(v: Vma, from: nat, to: nat) {
    from <= v.begin && v.end <= to
  }

  predicate Sorted(list: seq<Vma>) {
    && (forall i :: 0 <= i < |list| ==> list[i].begin < list[i].end <= HALF)
    && (forall i :: 0 <= i < |list| ==> PageAligned(list[i].begin) && PageAligned(list[i].end))
    && (forall i, j :: 0 <= i < j < |list| ==> list[i].end <= list[j].begin)
  }

  /** Some region holds address `a`. */
  ghost predicate Mapped(list: seq<Vma>, a: nat) {
    exists i :: 0 <= i < |list| && list[i].begin <= a < list[i].end
  }

  function Insert(list: seq<Vma>, k: nat, v: Vma): seq<Vma>
    requires k <= |list|
  {
    list[..k] + [v] + list[k..]
  }

  /** The loop of mmap: where the region goes, or none where it overlaps another. */
  method FindGap(list: seq<Vma>, from: nat, to: nat) returns (r: Option<nat>)
    requires Sorted(list) && from < to <= HALF
    ensures r.None? <==> exists i :: 0 <= i < |list| && Overlaps(list[i], from, to)
    ensures r.Some? ==> r.value <= |list|
    ensures r.Some? ==> forall i :: 0 <= i < r.value ==> list[i].end <= from
    ensures r.Some? ==> forall i :: r.value <= i < |list| ==> to <= list[i].begin
  {
    var next := 0;
    while next < |list|
      invariant next <= |list| && forall i :: 0 <= i < next ==> list[i].end <= from
    {
      var vma := list[next];
      if vma.begin >= to { break; }
      if vma.end > from && vma.begin < to {
        return None;
      }
      next := next + 1;
    }
    r := Some(next);
  }

  lemma InsertSorted(list: seq<Vma>, k: nat, v: Vma)
    requires Sorted(list) && k <= |list| && v.begin < v.end <= HALF && PageAligned(v.begin) && PageAligned(v.end)
    requires forall i :: 0 <= i < k ==> list[i].end <= v.begin
    requires forall i :: k <= i < |list| ==> v.end <= list[i].begin
    ensures Sorted(Insert(list, k, v))
  {
    hide PageAligned;
  }

  lemma InsertMapped(list: seq<Vma>, k: nat, v: Vma, a: nat)
    requires k <= |list|
    requires forall i :: 0 <= i < k ==> list[i].end <= v.begin
    requires forall i :: k <= i < |list| ==> v.end <= list[i].begin
    ensures Mapped(Insert(list, k, v), a) <==> Mapped(list, a) || v.begin <= a < v.end
    ensures v.begin <= a < v.end ==> !Mapped(list, a)
  {
    var t := Insert(list, k, v);
    if Mapped(list, a) {
      var i :| 0 <= i < |list| && list[i].begin <= a < list[i].end;
      assert t[if i < k then i else i + 1] == list[i];
    }
    assert t[k] == v;
  }

  // ---- munmap ----

  /** Some region reaches over an end of the range. */
  predicate Straddled(list: seq<Vma>, from: nat, to: nat) {
    exists i :: 0 <= i < |list| && Overlaps(list[i], from, to) && !Inside(list[i], from, to)
  }

  /** The first region that ends above `from`. */
  function EndsAbove(list: seq<Vma>, from: nat): (p: nat)
    ensures p <= |list| && (forall i :: 0 <= i < p ==> list[i].end <= from) && (p < |list| ==> list[p].end > from)
  {
    if list == [] || list[0].end > from then 0 else 1 + EndsAbove(list[1..], from)
  }

  /** The first region that begins at `to` or above. */
  function BeginsAt(list: seq<Vma>, to: nat): (n: nat)
    ensures n <= |list| && (forall i :: 0 <= i < n ==> list[i].begin < to) && (n < |list| ==> list[n].begin >= to)
  {
    if list == [] || list[0].begin >= to then 0 else 1 + BeginsAt(list[1..], to)
  }

  lemma PlaceIs(list: seq<Vma>, from: nat, to: nat, p: nat, n: nat)
    requires p <= |list| && n <= |list|
    requires (forall i :: 0 <= i < p ==> list[i].end <= from) && (p < |list| ==> list[p].end > from)
    requires (forall i :: 0 <= i < n ==> list[i].begin < to) && (n < |list| ==> list[n].begin >= to)
    ensures p == EndsAbove(list, from) && n == BeginsAt(list, to)
  {}

  /** What munmap leaves of the list: all but the regions from the first that ends above `from`
      to the last that begins below `to`. */
  function Without(list: seq<Vma>, from: nat, to: nat): seq<Vma> {
    if EndsAbove(list, from) <= BeginsAt(list, to) then list[..EndsAbove(list, from)] + list[BeginsAt(list, to)..]
    else list
  }

  /** The gap it hands to pt_unmap: as wide as the regions that stay allow. */
  function Gap(list: seq<Vma>, from: nat, to: nat): (nat, nat) {
    var p, n := EndsAbove(list, from), BeginsAt(list, to);
    (if p > 0 then list[p - 1].end else 0, if n < |list| then list[n].begin else HALF)
  }

  /** The loop of munmap: none exactly where a region straddles an end, otherwise the places the
      list is cut at. */
  method FindCut(list: seq<Vma>, from: nat, to: nat) returns (r: Option<(nat, nat)>)
    requires Sorted(list) && from < to
    ensures r.None? <==> Straddled(list, from, to)
    ensures r.Some? ==> r.value == (EndsAbove(list, from), BeginsAt(list, to)) && r.value.0 <= r.value.1
  {
    Bounds(list);
    hide Sorted, EndsAbove, BeginsAt, Straddled;
    var prev, next := 0, |list|;
    var ptr := 0;
    while ptr < |list|
      invariant prev <= ptr <= |list| && next == |list|
      invariant forall i :: 0 <= i < prev ==> list[i].end <= from
      invariant forall i :: prev <= i < ptr ==> list[i].end > from && list[i].begin < to && Inside(list[i], from, to)
    {
      var vma := list[ptr];
      if vma.end <= from {
        ptr := ptr + 1;
        prev := ptr;
        continue;
      }
      if vma.begin >= to {
        next := ptr;
        break;
      }
      if vma.begin < from || vma.end > to {
        StraddledAt(list, from, to, ptr);
        return None;
      }
      ptr := ptr + 1;
    }
    NotStraddled(list, from, to, prev, next);
    PlaceIs(list, from, to, prev, next);
    r := Some((prev, next));
  }

  lemma StraddledAt(list: seq<Vma>, from: nat, to: nat, i: nat)
    requires i < |list| && Overlaps(list[i], from, to) && !Inside(list[i], from, to)
    ensures Straddled(list, from, to)
  {}

  lemma NotStraddled(list: seq<Vma>, from: nat, to: nat, p: nat, n: nat)
    requires Sorted(list) && p <= n <= |list|
    requires forall i :: 0 <= i < p ==> list[i].end <= from
    requires forall i :: p <= i < n ==> Inside(list[i], from, to)
    requires n < |list| ==> list[n].begin >= to
    ensures !Straddled(list, from, to)
  {
    hide PageAligned;
    forall i | 0 <= i < |list| ensures !Overlaps(list[i], from, to) || Inside(list[i], from, to) {
      if i > n { assert list[n].end <= list[i].begin; }
    }
  }

  /** Where no region straddles, exactly the regions inside the range go, the list stays in order,
      exactly the range is no longer mapped, and the gap holds the range and nothing mapped. */
  lemma CutKeeps(list: seq<Vma>, from: nat, to: nat)
    requires Sorted(list) && from < to <= HALF && !Straddled(list, from, to)
    ensures Sorted(Without(list, from, to))
    ensures forall v :: v in Without(list, from, to) <==> v in list && !Inside(v, from, to)
    ensures forall a: nat :: Mapped(Without(list, from, to), a) <==> Mapped(list, a) && !(from <= a < to)
    ensures var (low, high) := Gap(list, from, to);
            low <= from && to <= high <= HALF && forall a: nat :: low <= a < high ==>
                                                                    !Mapped(Without(list, from, to), a)
  {
    hide PageAligned, Mapped, Sorted, Without, Gap;
    CutPlaces(list, from, to);
    CutSorted(list, from, to);
    forall v ensures v in Without(list, from, to) <==>
                     v in list && !Inside(v, from, to) { CutMember(list, from, to, v); }
    var (low, high) := Gap(list, from, to);
    forall a: nat
      ensures Mapped(Without(list, from, to), a) <==> Mapped(list, a) && !(from <= a < to)
      ensures low <= a < high ==> !Mapped(Without(list, from, to), a)
    {
      CutMapped(list, from, to, a);
      if low <= a < high { CutGap(list, from, to, a); }
    }
  }

  /** How the regions lie about the range. */
  lemma CutPlaces(list: seq<Vma>, from: nat, to: nat)
    requires Sorted(list) && from < to <= HALF && !Straddled(list, from, to)
    ensures var p, n := EndsAbove(list, from), BeginsAt(list, to);
            && p <= n && (forall i :: p <= i < n ==> Inside(list[i], from, to))
            && (forall i :: n <= i < |list| ==> to <= list[i].begin)
    ensures var (low, high) := Gap(list, from, to); low <= from && to <= high <= HALF
  {
    hide PageAligned;
    var p, n := EndsAbove(list, from), BeginsAt(list, to);
    forall i | n <= i < |list| ensures to <= list[i].begin { if i > n { assert list[n].end <= list[i].begin; } }
    assert n < |list| ==> list[n].begin < list[n].end;
    forall i | p <= i < n ensures Inside(list[i], from, to) {
      if i > p { assert list[p].end <= list[i].begin; }
      assert Overlaps(list[i], from, to);
    }
  }

  lemma CutSorted(list: seq<Vma>, from: nat, to: nat)
    requires Sorted(list)
    ensures Sorted(Without(list, from, to))
  {
    hide PageAligned;
  }

  /** Where what is left stood before, and where what stays went. */
  lemma CutFrom(list: seq<Vma>, p: nat, n: nat, i: nat)
    requires p <= n <= |list| && i < |list| - (n - p)
    ensures |list[..p] + list[n..]| == |list| - (n - p)
    ensures (list[..p] + list[n..])[i] == list[if i < p then i else i + n - p]
  {
    if i >= p { assert list[n..][i - p] == list[i + n - p]; }
  }

  lemma CutTo(list: seq<Vma>, p: nat, n: nat, i: nat)
    requires p <= n <= |list| && i < |list| && !(p <= i < n)
    ensures |list[..p] + list[n..]| == |list| - (n - p)
    ensures list[i] == (list[..p] + list[n..])[if i < p then i else i - (n - p)]
  {
    if i >= n { assert list[n..][i - n] == list[i]; }
  }

  lemma CutMember(list: seq<Vma>, from: nat, to: nat, v: Vma)
    requires Sorted(list) && from < to <= HALF && !Straddled(list, from, to)
    ensures v in Without(list, from, to) <==> v in list && !Inside(v, from, to)
  {
    CutPlaces(list, from, to);
    var p, n, t := EndsAbove(list, from), BeginsAt(list, to), Without(list, from, to);
    Bounds(list);
    hide Sorted, Straddled, Gap, EndsAbove, BeginsAt;
    if v in t {
      var i :| 0 <= i < |t| && t[i] == v;
      CutFrom(list, p, n, i);
    }
    if v in list && !Inside(v, from, to) {
      var i :| 0 <= i < |list| && list[i] == v;
      CutTo(list, p, n, i);
    }
  }

  lemma Bounds(list: seq<Vma>)
    requires Sorted(list)
    ensures forall i :: 0 <= i < |list| ==> list[i].begin < list[i].end <= HALF
  {
    hide PageAligned;
  }

  lemma CutMapped(list: seq<Vma>, from: nat, to: nat, a: nat)
    requires Sorted(list) && from < to <= HALF && !Straddled(list, from, to)
    ensures Mapped(Without(list, from, to), a) <==> Mapped(list, a) && !(from <= a < to)
  {
    CutPlaces(list, from, to);
    LeftMapped(list, from, to, EndsAbove(list, from), BeginsAt(list, to), a);
    hide *;
    WithoutIs(list, from, to);
  }

  lemma WithoutIs(list: seq<Vma>, from: nat, to: nat)
    ensures var p, n := EndsAbove(list, from), BeginsAt(list, to); p <= n ==>
              Without(list, from, to) == list[..p] + list[n..]
  {}

  lemma LeftMapped(list: seq<Vma>, from: nat, to: nat, p: nat, n: nat, a: nat)
    requires p <= n <= |list|
    requires forall i :: 0 <= i < p ==> list[i].end <= from
    requires forall i :: n <= i < |list| ==> to <= list[i].begin
    requires forall i :: p <= i < n ==> Inside(list[i], from, to)
    ensures Mapped(list[..p] + list[n..], a) <==> Mapped(list, a) && !(from <= a < to)
  {
    var t := list[..p] + list[n..];
    if i :| 0 <= i < |t| && t[i].begin <= a < t[i].end {
      CutFrom(list, p, n, i);
      assert list[if i < p then i else i + n - p].begin <= a;
    }
    if Mapped(list, a) && !(from <= a < to) {
      var i :| 0 <= i < |list| && list[i].begin <= a < list[i].end;
      CutTo(list, p, n, i);
    }
  }

  lemma CutGap(list: seq<Vma>, from: nat, to: nat, a: nat)
    requires Sorted(list) && from < to <= HALF && !Straddled(list, from, to)
    requires Gap(list, from, to).0 <= a < Gap(list, from, to).1
    ensures !Mapped(Without(list, from, to), a)
  {
    CutPlaces(list, from, to);
    var p, n, t := EndsAbove(list, from), BeginsAt(list, to), Without(list, from, to);
    GapSides(list, p, n);
    hide Sorted, Straddled, EndsAbove, BeginsAt;
    forall i | 0 <= i < |t| ensures !(t[i].begin <= a < t[i].end) {
      CutFrom(list, p, n, i);
    }
  }

  lemma GapSides(list: seq<Vma>, p: nat, n: nat)
    requires Sorted(list) && p <= n <= |list|
    ensures forall i :: 0 <= i < p ==> list[i].end <= list[p - 1].end
    ensures forall i :: n <= i < |list| ==> list[n].begin <= list[i].begin
  {
    hide PageAligned;
    forall i | 0 <= i < p
      ensures list[i].end <= list[p - 1].end { if i < p - 1 { assert list[i].end <= list[p - 1].begin; } }
    forall i | n <= i < |list|
      ensures list[n].begin <= list[i].begin { if n < i { assert list[n].end <= list[i].begin; } }
  }

  /** Over the whole user half nothing straddles, everything goes and the gap is everything. */
  lemma CutAll(list: seq<Vma>)
    requires Sorted(list)
    ensures !Straddled(list, 0, HALF) && Without(list, 0, HALF) == [] && Gap(list, 0, HALF) == (0, HALF)
  {
    Bounds(list);
    hide Sorted;
    PlaceIs(list, 0, HALF, 0, |list|);
  }
}
