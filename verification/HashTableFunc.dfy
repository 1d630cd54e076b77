/** The operations the program performs on its file list. */
module HashTableFunc {
  import opened Bytes
  import opened Records
  import opened UtHash
  import opened Environment

  method FindFileData(fl: FileList, path: Path) returns (out: FileEntry?)
    requires fl.Valid()
    ensures out == At(fl.items, IndexOf(fl.Contents(), path))
  {
    out := fl.Find(path);
  }

  /** Appends a record for path unless there is one already. */
  method AddPath(fl: FileList, w: World, path: Path)
    requires fl.Valid() && GoodPath(path)
    modifies fl.Repr
    ensures fl.Valid() && fresh(fl.Repr - old(fl.Repr))
    ensures fl.Contents() == if HasPath(old(fl.Contents()), path) then old(fl.Contents())
                             else old(fl.Contents()) + [w.NewRecord(path)]
  {
    IndexOfHas(fl.Contents(), path);
    var cur := fl.Find(path);
    if cur != null {
      return;
    }
    var e := new FileEntry(path, fl.hash(path), w.Size(path), w.Digest(path, w.noise(path)), w.Mtime(path), 1);
    fl.Add(e);
  }

  /** Removes the record of path if there is one. */
  method DeleteFileData(fl: FileList, path: Path)
    requires fl.Valid()
    modifies fl.Repr
    ensures fl.Valid() && fl.Repr == old(fl.Repr)
    ensures var t := old(fl.Contents()); var k := IndexOf(t, path);
      if k < |t| then fl.Contents() == RemoveAt(t, k) && fl.items == Without(old(fl.items), k)
      else fl.Contents() == t && fl.items == old(fl.items)
  {
    var cur := FindFileData(fl, path);
    if cur != null {
      fl.Delete(cur, IndexOf(fl.Contents(), path));
    }
  }

  /** Refreshes one entry from the file system and tells whether it must be sent. */
  method CheckPath(cur: FileEntry, w: World, path: Path) returns (state: int)
    modifies cur`state, cur`updateTime, cur`dataSize, cur`checkSum
    ensures cur.Rec() == w.Checked(old(cur.Rec()), path) && state == cur.state
  {
    if cur.updateTime == w.Mtime(path) {
      cur.state := 0;
    } else {
      cur.updateTime := w.Mtime(path);
      cur.dataSize := w.Size(path);
      cur.checkSum := w.Digest(path, cur.checkSum);
      cur.state := 1;
    }
    state := cur.state;
  }

  /** Gives every entry the same state. */
  method ChangeState(fl: FileList, state: int)
    requires fl.Valid()
    modifies fl.items`state
    ensures fl.Valid() && fl.Contents() == WithStates(old(fl.Contents()), state)
  {
    var cur := fl.head;
    ghost var i := 0;
    fl.Elements();
    while cur != null
      invariant 0 <= i <= |fl.items| && cur == At(fl.items, i)
      invariant fl.Valid()
      invariant forall j :: 0 <= j < |fl.items| ==> fl.items[j].Rec().(state := 0) == old(fl.items[j].Rec()).(state := 0)
      invariant forall j :: 0 <= j < i ==> fl.items[j].state == state
      decreases |fl.items| - i
    {
      fl.LinksAt(i);
      var tmp := cur.next;
      cur.state := state;
      cur := tmp;
      i := i + 1;
    }
    fl.ContentsAre(WithStates(old(fl.Contents()), state));
  }

  /** Mentioning Behind brings the contents of Sweeping into a proof. */
  ghost predicate Behind(k: int) {
    true
  }

  /** Where the sweep stands: the first i entries of its have been dealt with, and the others are
      the rest of the list. */
  ghost predicate Sweeping(fl: FileList, its: seq<FileEntry>, t: Table, i: nat)
    reads fl, fl.buckets, fl.items
  {
    fl.Valid() && forall k {:trigger Behind(k)} :: Behind(k) ==>
      && i <= |its| == |t|
      && fl.Contents() == SweptTo(t, i) + t[i..]
      && |SweptTo(t, i)| <= |fl.items|
      && fl.items[|SweptTo(t, i)|..] == its[i..]
  }

  lemma SweepStart(fl: FileList)
    requires fl.Valid()
    ensures Sweeping(fl, fl.items, fl.Contents(), 0)
  {
  }

  lemma SweepDone(fl: FileList, its: seq<FileEntry>, t: Table)
    requires Sweeping(fl, its, t, |its|)
    ensures fl.Contents() == Swept(t)
  {
    assert Behind(0);
    assert t[|its|..] == [];
  }

  lemma RestStep(f: seq<FileEntry>, d: nat, its: seq<FileEntry>, i: nat)
    requires d < |f| && i < |its| && f[d..] == its[i..]
    ensures Without(f, d)[d..] == its[i + 1..] && f[d + 1..] == its[i + 1..]
  {
    assert its[i + 1..] == its[i..][1..];
    assert f[d + 1..] == f[d..][1..];
  }

  /** The body of the sweep. */
  method SweepOne(fl: FileList, cur: FileEntry, ghost its: seq<FileEntry>, ghost t: Table, ghost i: nat)
    requires |its| == |t| && Sweeping(fl, its, t, i) && cur == At(its, i)
    modifies fl.Repr
    ensures Sweeping(fl, its, t, i + 1) && fl.Repr == old(fl.Repr)
  {
    assert Behind(0);
    SweepAt(fl, its, t, i);
    SweptStep(t, i);
    RestStep(fl.items, |SweptTo(t, i)|, its, i);
    if cur.state == -1 {
      DeleteFileData(fl, cur.path);
    }
  }

  /** One turn of the sweep. tmp, the next entry, was fetched before this one could be freed. */
  method SweepTurn(fl: FileList, cur: FileEntry, tmp: FileEntry?, ghost its: seq<FileEntry>, ghost t: Table, ghost i: nat)
    returns (tmp': FileEntry?)
    requires |its| == |t| && Sweeping(fl, its, t, i) && cur == At(its, i) && tmp == At(its, i + 1)
    modifies fl.Repr
    ensures Sweeping(fl, its, t, i + 1) && fl.Repr == old(fl.Repr)
    ensures tmp' == At(its, i + 2)
  {
    SweepOne(fl, cur, its, t, i);
    tmp' := null;
    if tmp != null {
      SweepAt(fl, its, t, i + 1);
      tmp' := tmp.next;
    }
  }

  /** HASH_ITER with the sweep as its body. */
  method SweepLoop(fl: FileList, first: FileEntry?, second: FileEntry?, ghost its: seq<FileEntry>, ghost t: Table)
    requires |its| == |t| && Sweeping(fl, its, t, 0) && first == At(its, 0) && second == At(its, 1)
    modifies fl.Repr
    ensures Sweeping(fl, its, t, |its|) && fl.Repr == old(fl.Repr)
  {
    var cur, tmp := first, second;
    ghost var i := 0;
    while cur != null
      invariant 0 <= i <= |its|
      invariant Sweeping(fl, its, t, i) && fl.Repr == old(fl.Repr)
      invariant cur == At(its, i) && tmp == At(its, i + 1)
      decreases |its| - i
    {
      var tmp' := SweepTurn(fl, cur, tmp, its, t, i);
      cur, tmp, i := tmp, tmp', i + 1;
    }
  }

  /** Removes every entry in state -1, looking each one up again by its path while the iteration is
      under way. */
  method DeleteStateClear(fl: FileList)
    requires fl.Valid()
    modifies fl.Repr
    ensures fl.Valid() && fl.Repr == old(fl.Repr)
    ensures fl.Contents() == Swept(old(fl.Contents()))
  {
    if fl.head == null {
      return;
    }

    ghost var its, t := fl.items, fl.Contents();
    SweepStart(fl);
    fl.LinksAt(0);
    SweepLoop(fl, fl.head, fl.head.next, its, t);
    SweepDone(fl, its, t);
  }

  lemma SameRest(f: seq<FileEntry>, d: nat, its: seq<FileEntry>, i: nat)
    requires d <= |f| && i < |its| && f[d..] == its[i..]
    ensures d < |f| && f[d] == its[i] && At(f, d + 1) == At(its, i + 1)
  {
    assert |f| - d == |its| - i;
    assert f[d] == f[d..][0] && its[i] == its[i..][0];
    if i + 1 < |its| {
      assert f[d + 1] == f[d..][1] && its[i + 1] == its[i..][1];
    }
  }

  /** The entry the sweep is at stands where the scan for its path finds it. */
  lemma SweepAt(fl: FileList, its: seq<FileEntry>, t: Table, i: nat)
    requires Sweeping(fl, its, t, i) && i < |its| && i < |t|
    ensures its[i].Rec() == t[i] && its[i].next == At(its, i + 1)
    ensures IndexOf(fl.Contents(), its[i].path) == |SweptTo(t, i)| < |fl.items|
    ensures its[i] in fl.Repr
  {
    assert Behind(0);
    var d := |SweptTo(t, i)|;
    SameRest(fl.items, d, its, i);
    assert fl.Contents()[d] == t[i];
    fl.LinksAt(d);
    fl.ContentsDistinct();
    IndexOfIs(fl.Contents(), its[i].path, d);
  }
}
