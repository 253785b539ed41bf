/** The circular doubly linked lists of list.c: on the heap they are what sequences say. */
module LinkedList {

  /** struct list_head. */
  class ListHead {
    var next: ListHead
    var prev: ListHead

    /** list_init. */
    constructor ()
      ensures Ring(this, [])
    {
      next := this;
      prev := this;
    }
  }

  /** Position `i` of the ring: the head at both ends, the elements between. */
  function At(head: ListHead, nodes: seq<ListHead>, i: nat): ListHead {
    if 0 < i <= |nodes| then nodes[i - 1] else head
  }

  predicate Distinct(head: ListHead, nodes: seq<ListHead>) {
    head !in nodes && forall i, j :: 0 <= i < j < |nodes| ==> nodes[i] != nodes[j]
  }

  /** Neighbours `i` and `i` + 1 point at each other. */
  ghost predicate Linked(a: ListHead, b: ListHead)
    reads a, b
  {
    a.next == b && b.prev == a
  }

  /** Following `next` from the head visits exactly `nodes`, and `prev` goes back the same way. */
  ghost predicate Ring(head: ListHead, nodes: seq<ListHead>)
    reads head, nodes
  {
    Distinct(head, nodes) && forall i :: 0 <= i <= |nodes| ==> Linked(At(head, nodes, i), At(head, nodes, i + 1))
  }

  /** The elements of `part` are linked among themselves. */
  ghost predicate Chain(part: seq<ListHead>)
    reads part
  {
    forall i :: 0 <= i < |part| - 1 ==> Linked(part[i], part[i + 1])
  }

  /** list_init of an existing head. */
  method Init(list: ListHead)
    modifies list
    ensures Ring(list, [])
  {
    list.next, list.prev := list, list;
  }

  method Insert(node: ListHead, prev: ListHead, next: ListHead)
    requires node != prev && node != next
    modifies node, prev`next, next`prev
    ensures Linked(prev, node) && Linked(node, next)
  {
    node.prev := prev;
    node.next := next;
    prev.next := node;
    next.prev := node;
  }

  /** list_add_tail before position `k` + 1: before element `k`, or before the head for a tail. */
  method AddBefore(node: ListHead, list: ListHead, ghost head: ListHead, ghost nodes: seq<ListHead>, ghost k: nat)
    requires Ring(head, nodes) && k <= |nodes| && list == At(head, nodes, k + 1) && node != head && node !in nodes
    modifies node, list`prev, list.prev`next
    ensures Ring(head, nodes[..k] + [node] + nodes[k..])
  {
    assert Linked(At(head, nodes, k), At(head, nodes, k + 1));
    ghost var more := nodes[..k] + [node] + nodes[k..];
    InsertAt(head, nodes, node, k);
    Insert(node, list.prev, list);
    forall i | 0 <= i <= |more| ensures Linked(At(head, more, i), At(head, more, i + 1)) {
      if i < k { assert old(Linked(At(head, nodes, i), At(head, nodes, i + 1))); }
      if i > k + 1 { assert old(Linked(At(head, nodes, i - 1), At(head, nodes, i))); }
    }
  }

  /** list_add after position `k`: after the head for k = 0. */
  method AddAfter(node: ListHead, list: ListHead, ghost head: ListHead, ghost nodes: seq<ListHead>, ghost k: nat)
    requires Ring(head, nodes) && k <= |nodes| && list == At(head, nodes, k) && node != head && node !in nodes
    modifies node, list`next, list.next`prev
    ensures Ring(head, nodes[..k] + [node] + nodes[k..])
  {
    assert Linked(At(head, nodes, k), At(head, nodes, k + 1));
    ghost var more := nodes[..k] + [node] + nodes[k..];
    InsertAt(head, nodes, node, k);
    Insert(node, list, list.next);
    forall i | 0 <= i <= |more| ensures Linked(At(head, more, i), At(head, more, i + 1)) {
      if i < k { assert old(Linked(At(head, nodes, i), At(head, nodes, i + 1))); }
      if i > k + 1 { assert old(Linked(At(head, nodes, i - 1), At(head, nodes, i))); }
    }
  }

  lemma InsertAt(head: ListHead, nodes: seq<ListHead>, node: ListHead, k: nat)
    requires Distinct(head, nodes) && k <= |nodes| && node != head && node !in nodes
    ensures var more := nodes[..k] + [node] + nodes[k..];
            && Distinct(head, more) && |more| == |nodes| + 1
            && (forall i :: 0 <= i <= k ==> At(head, more, i) == At(head, nodes, i))
            && At(head, more, k + 1) == node
            && (forall i :: k + 1 < i <= |more| + 1 ==> At(head, more, i) == At(head, nodes, i - 1))
            && (forall i, j :: 0 <= i < j <= |nodes| + 1 && (i > 0 || j <= |nodes|) ==>
                                 At(head, nodes, i) != At(head, nodes, j))
            && (forall i :: 0 <= i <= |nodes| + 1 ==> At(head, nodes, i) != node)
  {}

  /** list_del of the element at position `k` + 1. */
  method Del(node: ListHead, ghost head: ListHead, ghost nodes: seq<ListHead>, ghost k: nat)
    requires Ring(head, nodes) && k < |nodes| && node == nodes[k]
    modifies node.prev`next, node.next`prev
    ensures Ring(head, nodes[..k] + nodes[k + 1..])
  {
    assert Linked(At(head, nodes, k), At(head, nodes, k + 1)) && Linked(At(head, nodes, k + 1), At(head, nodes, k + 2));
    ghost var less := nodes[..k] + nodes[k + 1..];
    RemoveAt(head, nodes, k);
    var prev := node.prev;
    var next := node.next;
    prev.next := next;
    next.prev := prev;
    forall i | 0 <= i <= |less| ensures Linked(At(head, less, i), At(head, less, i + 1)) {
      if i < k { assert old(Linked(At(head, nodes, i), At(head, nodes, i + 1))); }
      if i > k { assert old(Linked(At(head, nodes, i + 1), At(head, nodes, i + 2))); }
    }
  }

  lemma RemoveAt(head: ListHead, nodes: seq<ListHead>, k: nat)
    requires Distinct(head, nodes) && k < |nodes|
    ensures var less := nodes[..k] + nodes[k + 1..];
            && Distinct(head, less) && |less| == |nodes| - 1
            && (forall i :: 0 <= i <= k ==> At(head, less, i) == At(head, nodes, i))
            && (forall i :: k < i <= |less| + 1 ==> At(head, less, i) == At(head, nodes, i + 1))
            && (forall i, j :: 0 <= i < j <= |nodes| + 1 && (i > 0 || j <= |nodes|) ==>
                                 At(head, nodes, i) != At(head, nodes, j))
  {}

  /** list_empty. */
  method Empty(list: ListHead, ghost nodes: seq<ListHead>) returns (e: bool)
    requires Ring(list, nodes)
    ensures e <==> nodes == []
  {
    assert Linked(At(list, nodes, 0), At(list, nodes, 1));
    e := list.next == list;
  }

  // ---- splicing ----

  /** __list_splice: the elements of `part` go in after position `k`. */
  method SpliceAfter(first: ListHead, last: ListHead, prev: ListHead, ghost part: seq<ListHead>,
                     ghost head: ListHead, ghost nodes: seq<ListHead>, ghost k: nat)
    requires Ring(head, nodes) && k <= |nodes| && prev == At(head, nodes, k)
    requires part != [] && first == part[0] && last == part[|part| - 1] && Chain(part)
    requires Distinct(head, part) && forall x :: x in part ==> x !in nodes
    modifies first`prev, last`next, prev`next, prev.next`prev
    ensures Ring(head, nodes[..k] + part + nodes[k..])
  {
    assert Linked(At(head, nodes, k), At(head, nodes, k + 1));
    ghost var more := nodes[..k] + part + nodes[k..];
    SpliceAt(head, nodes, part, k);
    var next := prev.next;
    first.prev := prev;
    last.next := next;
    prev.next := first;
    next.prev := last;
    assert first in part && last in part;
    forall i | 0 <= i <= |more| ensures Linked(At(head, more, i), At(head, more, i + 1)) {
      if i < k {
        assert old(Linked(At(head, nodes, i), At(head, nodes, i + 1)));
      } else if i == k {
        assert At(head, more, k) == prev && At(head, more, k + 1) == first;
      } else if i < k + |part| {
        ghost var j := i - k - 1;
        assert At(head, more, i) == part[j] && At(head, more, i + 1) == part[j + 1];
        assert old(Linked(part[j], part[j + 1]));
        assert part[j] in part && part[j + 1] in part && part[j] != last && part[j + 1] != first;
      } else if i == k + |part| {
        assert At(head, more, i) == last && At(head, more, i + 1) == next;
      } else {
        ghost var j := i - |part|;
        assert At(head, more, i) == At(head, nodes, j) && At(head, more, i + 1) == At(head, nodes, j + 1);
        assert old(Linked(At(head, nodes, j), At(head, nodes, j + 1)));
      }
    }
  }

  lemma SpliceAt(head: ListHead, nodes: seq<ListHead>, part: seq<ListHead>, k: nat)
    requires Distinct(head, nodes) && Distinct(head, part) && k <= |nodes| && forall x :: x in part ==> x !in nodes
    ensures var more := nodes[..k] + part + nodes[k..];
            && Distinct(head, more) && |more| == |nodes| + |part|
            && (forall i :: 0 <= i <= k ==> At(head, more, i) == At(head, nodes, i))
            && (forall i :: k < i <= k + |part| ==> At(head, more, i) == part[i - k - 1])
            && (forall i :: k + |part| < i <= |more| + 1 ==> At(head, more, i) == At(head, nodes, i - |part|))
            && (forall i, j :: 0 <= i < j <= |nodes| + 1 && (i > 0 || j <= |nodes|) ==>
                                 At(head, nodes, i) != At(head, nodes, j))
            && (forall i, x :: 0 <= i <= |nodes| + 1 && x in part ==> At(head, nodes, i) != x)
  {
    var more := nodes[..k] + part + nodes[k..];
    forall i, j | 0 <= i < j < |more| ensures more[i] != more[j] {
      if k <= i < k + |part| { assert more[i] == part[i - k] && more[i] in part; }
      if k <= j < k + |part| { assert more[j] == part[j - k] && more[j] in part; }
    }
  }

  /** The elements of a ring from position i + 1 to j form a chain. */
  lemma PartOfRing(head: ListHead, nodes: seq<ListHead>, i: nat, j: nat)
    requires Ring(head, nodes) && i <= j <= |nodes|
    ensures Chain(nodes[i..j]) && Distinct(head, nodes[i..j])
  {
    forall k | 0 <= k < j - i - 1 ensures Linked(nodes[i..j][k], nodes[i..j][k + 1]) {
      assert Linked(At(head, nodes, i + k + 1), At(head, nodes, i + k + 2));
    }
  }

  /** list_splice: everything on `from` goes to the front of `to`. */
  method Splice(from: ListHead, to: ListHead, ghost a: seq<ListHead>, ghost b: seq<ListHead>)
    requires Ring(from, a) && Ring(to, b) && from != to && from !in b && to !in a && forall x :: x in a ==> x !in b
    modifies from, to, from.next`prev, from.prev`next, to.next`prev
    ensures Ring(from, []) && Ring(to, a + b)
  {
    Ends(from, a);
    Ends(to, b);
    var empty := Empty(from, a);
    if empty {
      assert a + b == b;
      return;
    }
    var first := from.next;
    var last := from.prev;
    PartOfRing(from, a, 0, |a|);
    assert a[0..|a|] == a;
    Init(from);
    assert Ring(to, b);
    SpliceAfter(first, last, to, a, to, b, 0);
    assert b[..0] + a + b[0..] == a + b;
  }

  /** list_splice_tail: to the end instead. */
  method SpliceTail(from: ListHead, to: ListHead, ghost a: seq<ListHead>, ghost b: seq<ListHead>)
    requires Ring(from, a) && Ring(to, b) && from != to && from !in b && to !in a && forall x :: x in a ==> x !in b
    modifies from, to`prev, from.next`prev, from.prev`next, to.prev`next
    ensures Ring(from, []) && Ring(to, b + a)
  {
    Ends(from, a);
    Ends(to, b);
    var empty := Empty(from, a);
    if empty {
      assert b + a == b;
      return;
    }
    var first := from.next;
    var last := from.prev;
    PartOfRing(from, a, 0, |a|);
    assert a[0..|a|] == a;
    Init(from);
    assert Ring(to, b);
    Ends(to, b);
    assert Linked(At(to, b, |b|), At(to, b, |b| + 1));
    SpliceAfter(first, last, to.prev, a, to, b, |b|);
    assert b[..|b|] + a + b[|b|..] == b + a;
  }

  lemma Ends(head: ListHead, nodes: seq<ListHead>)
    requires Ring(head, nodes)
    ensures head.next == At(head, nodes, 1) && head.prev == At(head, nodes, |nodes|)
  {
    assert Linked(At(head, nodes, 0), At(head, nodes, 1));
    assert Linked(At(head, nodes, |nodes|), At(head, nodes, |nodes| + 1));
  }

  /** The elements of a ring up to position p, and those from position n + 1 on, are linked. */
  ghost predicate Sides(head: ListHead, nodes: seq<ListHead>, p: nat, n: nat)
    reads head, nodes
  {
    forall i :: 0 <= i < p || n < i <= |nodes| ==> Linked(At(head, nodes, i), At(head, nodes, i + 1))
  }

  /** What is linked on both sides of a gap is a ring once the sides are joined. */
  method Join(prev: ListHead, next: ListHead, ghost head: ListHead, ghost nodes: seq<ListHead>, ghost p: nat,
              ghost n: nat)
    requires Distinct(head, nodes) && p <= n <= |nodes| && Sides(head, nodes, p, n)
    requires prev == At(head, nodes, p) && next == At(head, nodes, n + 1)
    modifies prev`next, next`prev
    ensures Ring(head, nodes[..p] + nodes[n..])
  {
    CutAt(head, nodes, p, n);
    ghost var less := nodes[..p] + nodes[n..];
    prev.next := next;
    next.prev := prev;
    forall i | 0 <= i <= |less| ensures Linked(At(head, less, i), At(head, less, i + 1)) {
      if i < p {
        assert old(Linked(At(head, nodes, i), At(head, nodes, i + 1)));
      } else if i == p {
        assert At(head, less, i) == prev && At(head, less, i + 1) == next;
      } else {
        ghost var j := i + n - p;
        assert At(head, less, i) == At(head, nodes, j) && At(head, less, i + 1) == At(head, nodes, j + 1);
        assert old(Linked(At(head, nodes, j), At(head, nodes, j + 1)));
      }
    }
  }

  /** Moving the elements between two positions to the empty list `lst`. */
  method TakeOut(prev: ListHead, next: ListHead, lst: ListHead, ghost head: ListHead, ghost nodes: seq<ListHead>,
                 ghost p: nat, ghost n: nat)
    requires Ring(head, nodes) && Ring(lst, []) && lst != head && lst !in nodes
    requires p < n <= |nodes| && prev == At(head, nodes, p) && next == At(head, nodes, n + 1)
    modifies lst, prev.next`prev, next.prev`next
    ensures Sides(head, nodes, p, n) && Ring(lst, nodes[p..n])
  {
    assert Linked(At(head, nodes, p), At(head, nodes, p + 1)) && Linked(At(head, nodes, n), At(head, nodes, n + 1));
    ghost var part := nodes[p..n];
    PartOfRing(head, nodes, p, n);
    assert Linked(At(lst, [], 0), At(lst, [], 1));
    assert prev.next == part[0] == nodes[p] && next.prev == part[|part| - 1] == nodes[n - 1];
    assert Distinct(lst, part);
    SpliceAfter(prev.next, next.prev, lst, part, lst, [], 0);
    assert ([][..0] + part) + [][0..] == part;
    forall i | 0 <= i < p || n < i <= |nodes| ensures Linked(At(head, nodes, i), At(head, nodes, i + 1)) {
      assert old(Linked(At(head, nodes, i), At(head, nodes, i + 1)));
    }
  }

  /** The cut in munmap: everything between positions p and n + 1 moves to the empty list `lst`
      and the two sides are joined; nothing where they are neighbours already. */
  method CutOut(prev: ListHead, next: ListHead, lst: ListHead, ghost head: ListHead, ghost nodes: seq<ListHead>,
                ghost p: nat, ghost n: nat)
    requires Ring(head, nodes) && Ring(lst, []) && lst != head && lst !in nodes
    requires p <= n <= |nodes| && prev == At(head, nodes, p) && next == At(head, nodes, n + 1)
    modifies lst, prev`next, next`prev, prev.next`prev, next.prev`next
    ensures Ring(head, nodes[..p] + nodes[n..]) && Ring(lst, nodes[p..n])
  {
    assert Linked(At(head, nodes, p), At(head, nodes, p + 1));
    CutAt(head, nodes, p, n);
    if prev.next != next {
      TakeOut(prev, next, lst, head, nodes, p, n);
      ghost var part := nodes[p..n];
      assert prev != lst && next != lst && prev !in part && next !in part;
      label taken:
      Join(prev, next, head, nodes, p, n);
      forall i | 0 <= i <= |part| ensures Linked(At(lst, part, i), At(lst, part, i + 1)) {
        assert old@taken(Linked(At(lst, part, i), At(lst, part, i + 1)));
      }
    } else {
      assert nodes[..p] + nodes[n..] == nodes && nodes[p..n] == [];
    }
  }

  lemma CutAt(head: ListHead, nodes: seq<ListHead>, p: nat, n: nat)
    requires Distinct(head, nodes) && p <= n <= |nodes|
    ensures var less := nodes[..p] + nodes[n..];
            && Distinct(head, less) && |less| == |nodes| - (n - p)
            && (forall i :: 0 <= i <= p ==> At(head, less, i) == At(head, nodes, i))
            && (forall i :: p < i <= |less| + 1 ==> At(head, less, i) == At(head, nodes, i + n - p))
            && (forall i, j :: 0 <= i < j <= |nodes| + 1 && (i > 0 || j <= |nodes|) ==>
                                 At(head, nodes, i) != At(head, nodes, j))
            && (At(head, nodes, p + 1) == At(head, nodes, n + 1) ==> p == n || |nodes| == n == p)
  {}
}
