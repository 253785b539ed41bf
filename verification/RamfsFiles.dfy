/** The file list of ramfs.c and create_file of initramfs.c: names map to contents. */
module RamfsFiles {
  import opened Bits
  import opened Ramfs

  type Name = seq<byte>

  datatype Named = Named(name: Name, file: File)

  /** All `size` bytes of a file have been written. */
  ghost predicate Full(f: File)
    reads f
  {
    f.Ok() && forall x :: 0 <= x < f.size ==> x in f.flat
  }

  function Bytes(size: nat, flat: map<nat, byte>): seq<byte> {
    seq(size, x requires 0 <= x => if x in flat then flat[x] else 0)
  }

  ghost function Content(f: File): seq<byte>
    reads f
  {
    Bytes(f.size, f.flat)
  }

  /** What a file of content `c` holds once `data` has been written over its start. */
  function Over(c: seq<byte>, data: seq<byte>): seq<byte> {
    if |c| <= |data| then data else data + c[|data|..]
  }

  lemma WriteOver(flat: map<nat, byte>, size: nat, data: seq<byte>, flat1: map<nat, byte>, size1: nat)
    requires (forall x :: 0 <= x < size ==> x in flat)
    requires flat1 == Written(flat, 0, data) && size1 == Max(size, |data|)
    ensures forall x :: 0 <= x < size1 ==> x in flat1
    ensures Bytes(size1, flat1) == Over(Bytes(size, flat), data)
  {
    hide Written;
    forall x: nat | x < size1 ensures x in flat1 && Bytes(size1, flat1)[x] == Over(Bytes(size, flat), data)[x] {
      WrittenIs(flat, 0, data, x);
    }
  }

  /** A directory listing: names with contents, newest first. */
  type Listing = seq<(Name, seq<byte>)>

  function Find(l: Listing, name: Name): (k: nat)
    ensures k <= |l| && (k < |l| ==> l[k].0 == name) && forall i :: 0 <= i < k ==> l[i].0 != name
  {
    if l == [] || l[0].0 == name then 0 else 1 + Find(l[1..], name)
  }

  /** The listing after `data` has been written to the start of file `name`, created if need be. */
  function Put(l: Listing, name: Name, data: seq<byte>): Listing {
    var k := Find(l, name);
    if k < |l| then l[k := (name, Over(l[k].1, data))] else [(name, data)] + l
  }

  /** Some entry has that name; and the content of the first one, empty where there is none. */
  predicate Listed(l: Listing, name: Name) {
    exists i :: 0 <= i < |l| && l[i].0 == name
  }

  function ContentOf(l: Listing, name: Name): seq<byte> {
    if l == [] then [] else if l[0].0 == name then l[0].1 else ContentOf(l[1..], name)
  }

  /** It changes the file of that name alone: the start of its content, or of an empty one. */
  lemma PutChanges(l: Listing, name: Name, data: seq<byte>, other: Name)
    ensures Listed(Put(l, name, data), other) <==> other == name || Listed(l, other)
    ensures ContentOf(Put(l, name, data), other)
         == if other == name then Over(ContentOf(l, name), data) else ContentOf(l, other)
  {
    hide Over;
    var k := Find(l, name);
    if k < |l| {
      var m := l[k := (name, Over(l[k].1, data))];
      ContentSplit(l, k, other);
      ContentSplit(l, k, name);
      ContentSplit(m, k, other);
      assert m[..k] == l[..k] && m[k + 1..] == l[k + 1..];
      if i :| 0 <= i < |l| && l[i].0 == other { assert m[i].0 == other; }
      if i :| 0 <= i < |l| && m[i].0 == other { assert l[i].0 == other; }
    } else {
      var m := [(name, data)] + l;
      if i :| 0 <= i < |l| && l[i].0 == other { assert m[i + 1].0 == other; }
      if i :| 0 <= i < |m| && m[i].0 == other { if i > 0 { assert l[i - 1].0 == other; } }
      assert m[0].0 == name && m[1..] == l;
      OverNothing(l, name, data);
    }
  }

  lemma OverNothing(l: Listing, name: Name, data: seq<byte>)
    requires Find(l, name) == |l|
    ensures Over(ContentOf(l, name), data) == data
  {
    ContentNone(l, name);
  }

  lemma {:induction false} ContentNone(l: Listing, name: Name)
    requires forall i :: 0 <= i < |l| ==> l[i].0 != name
    ensures ContentOf(l, name) == []
  {
    if l != [] { ContentNone(l[1..], name); }
  }

  /** The first entry of that name lies before `k`, at `k` or behind it. */
  lemma {:induction false} ContentSplit(l: Listing, k: nat, name: Name)
    requires k < |l|
    ensures ContentOf(l, name)
         == if Listed(l[..k], name) then ContentOf(l[..k], name)
            else if l[k].0 == name then l[k].1 else ContentOf(l[k + 1..], name)
  {
    if k > 0 {
      ContentSplit(l[1..], k - 1, name);
      assert l[1..][..k - 1] == l[..k][1..] && l[1..][k..] == l[k + 1..];
      if i :| 0 <= i < k && l[..k][i].0 == name { if i > 0 { assert l[..k][1..][i - 1].0 == name; } }
      if i :| 0 <= i < k - 1 && l[..k][1..][i].0 == name { assert l[..k][i + 1].0 == name; }
    }
  }

  class FileSystem {
    var files: seq<Named>

    ghost function Objects(): set<File>
      reads this
    {
      set i | 0 <= i < |files| :: files[i].file
    }

    ghost predicate Ok()
      reads this, Objects()
    {
      && (forall i :: 0 <= i < |files| ==> Full(files[i].file))
      && (forall i, j :: 0 <= i < j < |files| ==> files[i].name != files[j].name && files[i].file != files[j].file)
    }

    ghost function List(): (l: Listing)
      reads this, Objects()
      ensures |l| == |files| && forall i :: 0 <= i < |l| ==> l[i] == (files[i].name, Content(files[i].file))
    {
      seq(|files|, i requires 0 <= i < |files| reads this, Objects() => (files[i].name, Content(files[i].file)))
    }

    constructor ()
      ensures Ok() && List() == [] && Objects() == {}
    {
      files := [];
    }

    /** __ramfs_open: the position of the file of that name, or none. */
    method Search(name: Name) returns (k: nat)
      requires Ok()
      ensures k == Find(List(), name)
    {
      k := 0;
      ghost var l := List();
      while k < |files| && files[k].name != name
        invariant 0 <= k <= |files| && forall i :: 0 <= i < k ==> l[i].0 != name
      {
        k := k + 1;
      }
      FindIs(l, name, k);
    }

    /** __ramfs_open: the file of that name; a new one at the front where `create` allows it. */
    method Open(name: Name, create: bool) returns (f: File?, ghost k: nat)
      requires Ok()
      modifies this
      ensures Ok()
      ensures var j := Find(old(List()), name);
              if j < |old(files)| then f == old(files)[j].file && k == j && files == old(files)
              else if create then f != null && fresh(f) && k == 0 && files == [Named(name, f)] + old(files)
                                  && Content(f) == []
              else f == null && files == old(files)
      ensures f != null ==> k < |files| && files[k] == Named(name, f)
    {
      hide File.Ok, Find, Over, Bytes;
      var i := Search(name);
      if i < |files| { return files[i].file, i; }
      k := 0;
      if !create { return null, k; }
      var file := new File();
      EmptyBytes(file.flat);
      ghost var l := List();
      assert forall j :: 0 <= j < |files| ==> l[j].0 == files[j].name;
      files := [Named(name, file)] + files;
      f := file;
    }

    /** create_file; true for the hang when the write comes short. Of `room` pages `left` remain. */
    method CreateFile(name: Name, data: seq<byte>, room: nat) returns (hung: bool, left: nat)
      requires Ok()
      modifies this, Objects()
      ensures fresh(Objects() - old(Objects()))
      ensures !hung ==> Ok() && List() == Put(old(List()), name, data)
      ensures 0 <= room - left <= PagesIn(0, |data|) && (hung ==> room < PagesIn(0, |data|))
    {
      hide File.Ok, Find, Over, Bytes, Written, PagesIn;
      ghost var l := List();
      var f, k := Open(name, true);
      ghost var m, was := List(), files;
      assert m[k] == (name, Content(f));
      FoundOrNew(l, m, name, k);
      ghost var flat, size := f.flat, f.size;
      var r;
      r, left := f.WriteAt(data, 0, room);
      hung := r != |data|;
      if !hung {
        assert data[..Max(r, 0)] == data;
        WriteOver(flat, size, data, f.flat, f.size);
        OthersSame(m, List(), k, (name, Over(m[k].1, data)));
      }
    }
  }

  lemma EmptyBytes(flat: map<nat, byte>)
    ensures Bytes(0, flat) == []
  {}

  lemma FoundOrNew(l: Listing, m: Listing, name: Name, k: nat)
    requires k < |m| && m[k].0 == name
    requires if Find(l, name) < |l| then m == l && k == Find(l, name) else k == 0 && m == [(name, [])] + l
    ensures forall data :: Put(l, name, data) == m[k := (name, Over(m[k].1, data))]
  {
    forall data ensures Put(l, name, data) == m[k := (name, Over(m[k].1, data))] {
      if Find(l, name) == |l| { assert [(name, data)] + l == m[0 := (name, data)]; }
    }
  }

  lemma OthersSame(m: Listing, n: Listing, k: nat, e: (Name, seq<byte>))
    requires k < |m| && |n| == |m| && n[k] == e && forall i :: 0 <= i < |m| && i != k ==> n[i] == m[i]
    ensures n == m[k := e]
  {}

  lemma FindIs(l: Listing, name: Name, k: nat)
    requires k <= |l| && (forall i :: 0 <= i < k ==> l[i].0 != name) && (k < |l| ==> l[k].0 == name)
    ensures Find(l, name) == k
  {
    hide Find;
  }
}
