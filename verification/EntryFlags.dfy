/** The flags of the entries that __pt_map_to and __pt_map write. */
module EntryFlags {
  import opened Bits
  import opened Paging

  const PTE_WRITE: nat := 2
  const PTE_USER: nat := 4
  const PDE_FLAGS: nat := 7

  /** VMA_PERM_READ and VMA_PERM_WRITE, and the enumerator VMA_ACCESS_WRITE that the latter is made from. */
  const PERM_READ: nat := 1
  const PERM_WRITE: nat := 2
  const ACCESS_WRITE: nat := 1

  /** user_flags: present, for the user, and writable where the tested bit is set. */
  function UserFlags(perm: nat): nat {
    5 + if And(perm, ACCESS_WRITE) != 0 then PTE_WRITE else 0
  }

  /** Every entry that became present between `s` and `t` is a leaf with the flags asked for, or a table
      with those of a table; tables that were there stay. */
  ghost predicate Written(s: Space, t: Space, flags: nat) {
    && (forall g :: g in s.info ==> g in t.info && t.info[g] == s.info[g])
    && forall g, i :: g in t.info && Entry(t, g, i).present && !(g in s.info && Entry(t, g, i) == Entry(s, g, i)) ==>
                        Entry(t, g, i).flags == if Leaf(Entry(t, g, i), t.info[g].lvl) then flags else PDE_FLAGS
  }

  lemma WrittenSelf(s: Space, flags: nat)
    ensures Written(s, s, flags)
  {}

  lemma WrittenTrans(s: Space, t: Space, u: Space, flags: nat)
    requires Written(s, t, flags) && Written(t, u, flags)
    ensures Written(s, u, flags)
  {
    hide Entry, Leaf;
  }

  lemma WrittenLeaf(s: Space, f: nat, i: nat, pte: Pte)
    requires f in s.info && f in s.mem && i < |s.mem[f]| && Leaf(pte, s.info[f].lvl)
    ensures Written(s, SetEntry(s, f, i, pte), pte.flags)
  {
    var t := SetEntry(s, f, i, pte);
    forall g, j | g in t.info && Entry(t, g, j).present && !(g in s.info && Entry(t, g, j) == Entry(s, g, j))
      ensures g == f && j == i {
      OtherEntry(s, f, i, pte, g, j);
    }
  }

  lemma OtherEntry(s: Space, f: nat, i: nat, pte: Pte, g: nat, j: nat)
    requires f in s.mem && i < |s.mem[f]|
    ensures Entry(SetEntry(s, f, i, pte), g, j) == if g == f && j == i then pte else Entry(s, g, j)
  {}

  lemma WrittenTable(s: Space, root: nat, lo: nat, hi: nat, f: nat, i: nat, child: nat, flags: nat)
    requires Tree(s, root, lo, hi) && f in s.info && f in s.mem && i < |s.mem[f]| && s.info[f].lvl > 1
    requires child !in s.mem
    ensures Written(s, AddTable(s, f, i, PDE_FLAGS, child), flags)
  {
    hide EntriesOk, Placed, PtIndex, Size, Child;
    var t := AddTable(s, f, i, PDE_FLAGS, child);
    forall g, j | g in t.info && Entry(t, g, j).present && !(g in s.info && Entry(t, g, j) == Entry(s, g, j))
      ensures g == f && j == i {
      NewTableEntry(s, f, i, PDE_FLAGS, child, g, j);
    }
    NewTableEntry(s, f, i, PDE_FLAGS, child, f, i);
  }

  lemma NewTableEntry(s: Space, f: nat, i: nat, flags: nat, child: nat, g: nat, j: nat)
    requires f in s.info && f in s.mem && i < |s.mem[f]| && s.info[f].lvl >= 1 && child !in s.mem
    ensures Entry(AddTable(s, f, i, flags, child), g, j)
         == if g == f && j == i then Pte(true, false, flags, child) else if g == child then ABSENT else Entry(s, g, j)
  {
    hide Child;
  }
}
