/** Copying bytes between two address spaces page by page (mcopy of mm.c) is a plain copy
    of the mapped bytes. */
module ByteCopy {
  import opened Bits
  import opened Paging
  import opened UserSweep
  import opened UserFrames

  /** The frame address of byte `k` of the range at `from`. */
  function At(s: Space, root: nat, from: nat, k: nat): Option<nat> {
    Translate(s, root, from + k)
  }

  ghost predicate OneToOne(s: Space, root: nat) {
    forall a: nat, b: nat :: a < HALF && b < HALF && a != b && Translate(s, root, a).Some? ==>
                               Translate(s, root, a) != Translate(s, root, b)
  }

  ghost predicate NoShare(s: Space, root: nat, t: Space, top: nat) {
    forall a: nat, b: nat :: a < HALF && b < HALF && Translate(s, root, a).Some? ==>
                               Translate(s, root, a) != Translate(t, top, b)
  }

  ghost predicate InRam(s: Space, root: nat, n: nat) {
    forall a: nat :: a < HALF && Translate(s, root, a).Some? ==> Translate(s, root, a).value < n
  }

  /** The first `n` bytes at `to` in `t` are those that were at `from` in `s`, and no other
      byte of memory changed. */
  ghost predicate Copied(ram0: seq<byte>, ram: seq<byte>, t: Space, top: nat, to: nat, s: Space, root: nat,
                         from: nat, n: nat) {
    && |ram| == |ram0|
    && (forall k: nat :: k < n ==> CopiedByte(ram0, ram, At(t, top, to, k), At(s, root, from, k)))
    && (forall p: nat :: p < |ram| && !Target(t, top, to, n, p) ==> ram[p] == ram0[p])
  }

  predicate CopiedByte(ram0: seq<byte>, ram: seq<byte>, d: Option<nat>, q: Option<nat>) {
    d.Some? && q.Some? && d.value < |ram| && q.value < |ram0| && ram[d.value] == ram0[q.value]
  }

  ghost predicate Target(t: Space, top: nat, to: nat, n: nat, p: nat) {
    exists k: nat :: k < n && At(t, top, to, k) == Some(p)
  }

  lemma CopyStarts(ram: seq<byte>, t: Space, top: nat, to: nat, s: Space, root: nat, from: nat)
    ensures Copied(ram, ram, t, top, to, s, root, from, 0)
  {}

  /** Bytes n to n + m - 1 of the range lie at consecutive frame addresses from `d`. */
  ghost predicate Run(s: Space, root: nat, from: nat, n: nat, m: nat, d: nat) {
    forall k: nat :: n <= k < n + m ==> At(s, root, from, k) == Some(d + (k - n))
  }

  lemma RunAt(s: Space, root: nat, from: nat, n: nat, m: nat, d: nat, k: nat)
    requires Run(s, root, from, n, m, d) && n <= k < n + m
    ensures At(s, root, from, k) == Some(d + (k - n)) && Translate(s, root, from + k) == Some(d + (k - n))
  {}

  /** `n` bytes from `q` now also stand at `d`. */
  predicate Moved(ram: seq<byte>, ram1: seq<byte>, d: nat, q: nat, n: nat) {
    && |ram1| == |ram| && d + n <= |ram| && q + n <= |ram|
    && (forall p :: 0 <= p < |ram| && !(d <= p < d + n) ==> ram1[p] == ram[p])
    && (forall p :: d <= p < d + n ==> ram1[p] == ram[q + (p - d)])
  }

  /** One more chunk, contiguous in both frames. */
  lemma CopyStep(ram0: seq<byte>, ram: seq<byte>, ram1: seq<byte>, t: Space, top: nat, to: nat, s: Space, root: nat,
                 from: nat, n: nat, m: nat, d: nat, q: nat)
    requires Copied(ram0, ram, t, top, to, s, root, from, n)
    requires to + n + m <= HALF && from + n + m <= HALF && OneToOne(t, top) && NoShare(t, top, s, root)
    requires Run(t, top, to, n, m, d) && Run(s, root, from, n, m, q)
    requires Moved(ram, ram1, d, q, m)
    ensures Copied(ram0, ram1, t, top, to, s, root, from, n + m)
  {
    hide Translate, OneToOne, NoShare, Run, At, Target;
    forall k: nat | k < n + m ensures CopiedByte(ram0, ram1, At(t, top, to, k), At(s, root, from, k)) {
      if k < n {
        assert CopiedByte(ram0, ram, At(t, top, to, k), At(s, root, from, k));
        OldByte(t, top, to, n, m, k, d);
      } else {
        RunAt(t, top, to, n, m, d, k);
        RunAt(s, root, from, n, m, q, k);
        var o := k - n;
        NewByte(t, top, to, s, root, from, n, k, q + o);
        assert ram[q + o] == ram0[q + o];
        assert ram1[d + o] == ram[q + o] by { assert q + ((d + o) - d) == q + o; }
      }
    }
    forall p: nat | p < |ram| && !Target(t, top, to, n + m, p) ensures ram1[p] == ram0[p] {
      TargetMore(t, top, to, n, m, d, p);
      assert ram[p] == ram0[p];
    }
  }

  lemma TargetMore(t: Space, top: nat, to: nat, n: nat, m: nat, d: nat, p: nat)
    requires Run(t, top, to, n, m, d) && !Target(t, top, to, n + m, p)
    ensures !Target(t, top, to, n, p) && !(d <= p < d + m)
  {
    hide At, Run;
    if d <= p < d + m { RunAt(t, top, to, n, m, d, n + (p - d)); }
  }

  lemma Differ(s: Space, root: nat, a: nat, b: nat)
    requires OneToOne(s, root) && a < HALF && b < HALF && a != b && Translate(s, root, a).Some?
    ensures Translate(s, root, a) != Translate(s, root, b)
  {}

  lemma DifferAcross(s: Space, root: nat, t: Space, top: nat, a: nat, b: nat)
    requires NoShare(s, root, t, top) && a < HALF && b < HALF && Translate(s, root, a).Some?
    ensures Translate(s, root, a) != Translate(t, top, b)
  {}

  /** A byte copied before is not overwritten by this chunk. */
  lemma OldByte(t: Space, top: nat, to: nat, n: nat, m: nat, k: nat, d: nat)
    requires OneToOne(t, top) && to + n + m <= HALF && k < n && At(t, top, to, k).Some? && Run(t, top, to, n, m, d)
    ensures !(d <= At(t, top, to, k).value < d + m)
  {
    hide Translate, OneToOne, Run;
    var p := At(t, top, to, k).value;
    if d <= p < d + m {
      var j: nat := n + (p - d);
      Differ(t, top, to + k, to + j);
      RunAt(t, top, to, n, m, d, j);
    }
  }

  /** The source of this chunk has not been overwritten. */
  lemma NewByte(t: Space, top: nat, to: nat, s: Space, root: nat, from: nat, n: nat, k: nat, p: nat)
    requires NoShare(t, top, s, root) && to + n <= HALF && from + k < HALF && n <= k && At(s, root, from, k) == Some(p)
    ensures !Target(t, top, to, n, p)
  {
    hide Translate, NoShare;
    forall j: nat | j < n ensures At(t, top, to, j) != Some(p) {
      if Translate(t, top, to + j).Some? { DifferAcross(t, top, s, root, to + j, from + k); }
    }
  }

  /** memcpy. */
  method Memcpy(ram: array<byte>, d: nat, q: nat, n: nat)
    requires d + n <= ram.Length && q + n <= ram.Length && (d + n <= q || q + n <= d)
    modifies ram
    ensures Moved(old(ram[..]), ram[..], d, q, n)
  {
    var i := 0;
    while i < n
      invariant 0 <= i <= n && Moved(old(ram[..]), ram[..], d, q, i)
    {
      ram[d + i] := ram[q + i];
      i := i + 1;
    }
  }

  /** `((ptr + PAGE_SIZE) & mask) - ptr`. */
  function ToPageEnd(ptr: nat): nat {
    Chunk(ptr, PAGE, 1)
  }

  /** Byte `k` of the range is in the page of byte `n`. */
  predicate SamePage(from: nat, n: nat, k: nat) {
    (from + k) / PAGE == (from + n) / PAGE
  }

  lemma WithinPage(from: nat, n: nat, m: nat, k: nat)
    requires m <= ToPageEnd(from + n) && n <= k < n + m && from + n < W
    ensures SamePage(from, n, k)
  {
    ChunkIs(from + n, PAGE, 1);
  }

  /** A chunk that ends at or before both page ends stays in one page on either side. */
  lemma ChunkPages(to: nat, from: nat, n: nat, size: nat, m: nat)
    requires n < size && to + size <= HALF && from + size <= HALF
    requires m == Min(Min(ToPageEnd(to + n), ToPageEnd(from + n)), size - n)
    ensures 0 < m <= size - n
    ensures forall k: nat :: n <= k < n + m ==> SamePage(to, n, k)
    ensures forall k: nat :: n <= k < n + m ==> SamePage(from, n, k)
  {
    hide ToPageEnd, SamePage;
    PageEndPositive(to + n);
    PageEndPositive(from + n);
    forall k: nat | n <= k < n + m ensures SamePage(to, n, k) && SamePage(from, n, k) {
      WithinPage(to, n, m, k);
      WithinPage(from, n, m, k);
    }
  }

  lemma PageEndPositive(ptr: nat)
    requires ptr < W
    ensures ToPageEnd(ptr) > 0
  {
    ChunkIs(ptr, PAGE, 1);
  }

  /** The frames of a chunk are contiguous. */
  lemma ChunkFrames(s: Space, root: nat, from: nat, n: nat, m: nat)
    requires Tree(s, root, LO, HI) && from + n + m <= HALF && m > 0 && At(s, root, from, n).Some?
    requires forall k: nat :: n <= k < n + m ==> SamePage(from, n, k)
    ensures Run(s, root, from, n, m, At(s, root, from, n).value)
  {
    hide Translate, Tree;
    forall k: nat | n <= k < n + m ensures At(s, root, from, k) == Some(At(s, root, from, n).value + (k - n)) {
      assert SamePage(from, n, k);
      PageOffset(s, root, from + n, from + k);
    }
  }

  /** Two chunks whose frames never coincide do not overlap. */
  lemma ChunksApart(t: Space, top: nat, to: nat, s: Space, root: nat, from: nat, n: nat, m: nat, d: nat, q: nat)
    requires NoShare(t, top, s, root) && to + n + m <= HALF && from + n + m <= HALF && m > 0
    requires Run(t, top, to, n, m, d) && Run(s, root, from, n, m, q)
    ensures d + m <= q || q + m <= d
  {
    hide Translate, NoShare, Run;
    if d < q + m && q < d + m {
      var i: nat, j: nat := if d < q then n + (q - d) else n, if d < q then n else n + (d - q);
      RunAt(t, top, to, n, m, d, i);
      DifferAcross(t, top, s, root, to + i, from + j);
      RunAt(s, root, from, n, m, q, j);
    }
  }
}
