/** What one scan of the list does to the table, for every table, file system and list: which
    paths survive, which are marked for sending, and what the result says. */
module ChangeDetection {
  import opened Bytes
  import opened Records
  import opened Environment
  import opened FileFunc

  /** How often p occurs among the first n listed files. */
  function Occurs(ps: seq<Path>, n: nat, p: Path): nat
    requires n <= |ps|
  {
    if n == 0 then 0 else Occurs(ps, n - 1, p) + if ps[n - 1] == p then 1 else 0
  }

  lemma {:induction false} OccursIn(ps: seq<Path>, n: nat, p: Path)
    requires n <= |ps|
    ensures Occurs(ps, n, p) > 0 <==> p in ps[..n]
  {
    if n > 0 {
      OccursIn(ps, n - 1, p);
      assert ps[..n] == ps[..n - 1] + [ps[n - 1]];
    }
  }

  lemma {:induction false} OccursOnce(ps: seq<Path>, n: nat, p: Path)
    requires n <= |ps| && forall i, j :: 0 <= i < j < |ps| ==> ps[i] != ps[j]
    ensures Occurs(ps, n, p) <= 1
  {
    if n > 0 {
      OccursOnce(ps, n - 1, p);
      OccursIn(ps, n - 1, p);
    }
  }

  /** The file p is not in the table, or its time stamp differs from the recorded one. */
  predicate IsFresh(t: Table, w: World, p: Path) {
    var k := IndexOf(t, p);
    k < |t| ==> t[k].mtime != w.Mtime(p)
  }

  /** A recorded file after its path was met count times: untouched it keeps the removal mark, the
      first meeting refreshes it, and every later one finds it unchanged and clears the mark. */
  function SeenOld(w: World, r: Record, count: nat): Record {
    if count == 0 then r.(state := -1)
    else if count == 1 then w.Checked(r, r.path)
    else w.Checked(r, r.path).(state := 0)
  }

  function SeenNew(w: World, p: Path, count: nat): Record {
    w.NewRecord(p).(state := if count == 1 then 1 else 0)
  }

  function Seen(t: Table, w: World, ps: seq<Path>, p: Path): Record {
    var k := IndexOf(t, p);
    if k < |t| then SeenOld(w, t[k], Occurs(ps, |ps|, p)) else SeenNew(w, p, Occurs(ps, |ps|, p))
  }

  /** The table part-way through the scan. */
  ghost predicate Scanned(t0: Table, w: World, ps: seq<Path>, n: nat, t: Table)
    requires n <= |ps|
  {
    && |t0| <= |t| && DistinctPaths(t)
    && (forall i :: 0 <= i < |t0| ==> t[i] == SeenOld(w, t0[i], Occurs(ps, n, t0[i].path)))
    && (forall i :: |t0| <= i < |t| ==>
          Occurs(ps, n, t[i].path) > 0 && t[i] == SeenNew(w, t[i].path, Occurs(ps, n, t[i].path)))
    && (forall j :: 0 <= j < n ==> IndexOf(t, ps[j]) < |t|)
  }

  lemma {:induction false} ScanIs(t0: Table, w: World, ps: seq<Path>, n: nat)
    requires DistinctPaths(t0) && n <= |ps|
    ensures Scanned(t0, w, ps, n, ScanTo(WithStates(t0, -1), w, ps, n))
  {
    if n > 0 {
      ScanIs(t0, w, ps, n - 1);
      ScannedStep(t0, w, ps, n, ScanTo(WithStates(t0, -1), w, ps, n - 1));
    }
  }

  /** Meeting a path once more takes a record from one count to the next. */
  lemma SeenAgain(w: World, r: Record, p: Path, count: nat)
    ensures r.path == p ==> w.Checked(SeenOld(w, r, count), p) == SeenOld(w, r, count + 1)
    ensures count > 0 ==> w.Checked(SeenNew(w, p, count), p) == SeenNew(w, p, count + 1)
  {
  }

  lemma OnlyAt(t: Table, p: Path, i: nat)
    requires DistinctPaths(t) && i < |t|
    ensures t[i].path == p <==> i == IndexOf(t, p)
  {
  }

  /** A recorded file after the n-th path was dealt with. */
  lemma ScannedKnown(t0: Table, w: World, ps: seq<Path>, n: nat, t: Table, i: nat)
    requires 0 < n <= |ps| && Scanned(t0, w, ps, n - 1, t) && i < |t0|
    ensures ScanOne(t, w, ps[n - 1])[i] == SeenOld(w, t0[i], Occurs(ps, n, t0[i].path))
  {
    OnlyAt(t, ps[n - 1], i);
    SeenAgain(w, t0[i], ps[n - 1], Occurs(ps, n - 1, ps[n - 1]));
  }

  /** A file added earlier in the scan after the n-th path was dealt with. */
  lemma ScannedLately(t0: Table, w: World, ps: seq<Path>, n: nat, t: Table, i: nat)
    requires 0 < n <= |ps| && Scanned(t0, w, ps, n - 1, t) && |t0| <= i < |t|
    ensures var r := ScanOne(t, w, ps[n - 1])[i]; var c := Occurs(ps, n, r.path);
      c > 0 && r == SeenNew(w, r.path, c)
  {
    OnlyAt(t, ps[n - 1], i);
    SeenAgain(w, t[i], ps[n - 1], Occurs(ps, n - 1, ps[n - 1]));
  }

  /** A record that was there before the n-th path was dealt with. */
  lemma ScannedOld(t0: Table, w: World, ps: seq<Path>, n: nat, t: Table, i: nat)
    requires 0 < n <= |ps| && Scanned(t0, w, ps, n - 1, t) && i < |t|
    ensures var r := ScanOne(t, w, ps[n - 1])[i]; var c := Occurs(ps, n, r.path);
      if i < |t0| then r == SeenOld(w, t0[i], Occurs(ps, n, t0[i].path)) else c > 0 && r == SeenNew(w, r.path, c)
  {
    if i < |t0| {
      ScannedKnown(t0, w, ps, n, t, i);
    } else {
      ScannedLately(t0, w, ps, n, t, i);
    }
  }

  /** A record the n-th path has added. */
  lemma ScannedNew(t0: Table, w: World, ps: seq<Path>, n: nat, t: Table)
    requires 0 < n <= |ps| && Scanned(t0, w, ps, n - 1, t) && IndexOf(t, ps[n - 1]) == |t|
    ensures Occurs(ps, n, ps[n - 1]) == 1
    ensures w.NewRecord(ps[n - 1]) == SeenNew(w, ps[n - 1], 1)
  {
    OccursIn(ps, n - 1, ps[n - 1]);
  }

  lemma ScannedStep(t0: Table, w: World, ps: seq<Path>, n: nat, t: Table)
    requires 0 < n <= |ps| && Scanned(t0, w, ps, n - 1, t)
    ensures Scanned(t0, w, ps, n, ScanOne(t, w, ps[n - 1]))
  {
    var p := ps[n - 1];
    var r := ScanOne(t, w, p);
    ScanOneKeeps(t, w, p);
    forall i | 0 <= i < |r|
      ensures var c := Occurs(ps, n, r[i].path);
        if i < |t0| then r[i] == SeenOld(w, t0[i], Occurs(ps, n, t0[i].path)) else c > 0 && r[i] == SeenNew(w, r[i].path, c)
    {
      if i < |t| {
        ScannedOld(t0, w, ps, n, t, i);
      } else {
        ScannedNew(t0, w, ps, n, t);
      }
    }
    forall j | 0 <= j < n
      ensures IndexOf(r, ps[j]) < |r|
    {
      assert j < n - 1 ==> IndexOf(t, ps[j]) < |t|;
    }
  }

  lemma ScanOneKeeps(t: Table, w: World, p: Path)
    requires DistinctPaths(t)
    ensures var r := ScanOne(t, w, p); var k := IndexOf(t, p);
      && DistinctPaths(r) && |r| == (if k < |t| then |t| else |t| + 1)
      && IndexOf(r, p) == k
      && forall q :: IndexOf(t, q) < |t| ==> IndexOf(r, q) < |r|
  {
    var r, k := ScanOne(t, w, p), IndexOf(t, p);
    IndexOfIs(r, p, k);
    forall q | IndexOf(t, q) < |t|
      ensures IndexOf(r, q) < |r|
    {
      IndexOfIs(r, q, IndexOf(t, q));
    }
  }

  /** The table after change_state(-1) and update_check_sync_file, for the existing listed files ps. */
  function Updated(t: Table, w: World, ps: seq<Path>): Table {
    Swept(ScanTo(WithStates(t, -1), w, ps, |ps|))
  }

  ghost predicate AllExist(w: World, ps: seq<Path>) {
    forall j :: 0 <= j < |ps| ==> ps[j] in w.files
  }

  lemma SeenState(t: Table, w: World, ps: seq<Path>, p: Path)
    ensures Seen(t, w, ps, p).path == p
    ensures p in ps ==> Seen(t, w, ps, p).state in {0, 1}
    ensures IndexOf(t, p) < |t| && p !in ps ==> Seen(t, w, ps, p).state == -1
  {
    OccursIn(ps, |ps|, p);
    assert ps[..|ps|] == ps;
  }

  /** Old records keep their positions. */
  lemma OldIndex(t0: Table, t: Table, p: Path)
    requires |t0| <= |t| && DistinctPaths(t) && forall j :: 0 <= j < |t0| ==> t[j].path == t0[j].path
    ensures IndexOf(t0, p) == if IndexOf(t, p) < |t0| then IndexOf(t, p) else |t0|
  {
    var k := IndexOf(t0, p);
    if k < |t0| {
      IndexOfIs(t, p, k);
    }
  }

  /** A record of the updated table comes from the scanned one, which is described by Seen. */
  lemma ScannedIsSeen(t0: Table, w: World, ps: seq<Path>, t: Table, i: nat)
    requires DistinctPaths(t0) && Scanned(t0, w, ps, |ps|, t) && i < |t|
    ensures t[i] == Seen(t0, w, ps, t[i].path)
    ensures t[i].state == -1 <==> t[i].path !in ps
  {
    var p := t[i].path;
    OccursIn(ps, |ps|, p);
    assert ps[..|ps|] == ps;
    IndexOfIs(t, p, i);
    OldIndex(t0, t, p);
    SeenState(t0, w, ps, p);
  }

  /** Which paths the update leaves in the table, and with which records: the key set is exactly the
      listed files that exist, whatever was recorded before. */
  lemma UpdateIs(t0: Table, w: World, ps: seq<Path>)
    requires DistinctPaths(t0)
    ensures DistinctPaths(Updated(t0, w, ps))
    ensures forall p :: HasPath(Updated(t0, w, ps), p) <==> p in ps
    ensures forall i :: 0 <= i < |Updated(t0, w, ps)| ==>
      Updated(t0, w, ps)[i] == Seen(t0, w, ps, Updated(t0, w, ps)[i].path)
  {
    var t := ScanTo(WithStates(t0, -1), w, ps, |ps|);
    var u := Updated(t0, w, ps);
    ScanIs(t0, w, ps, |ps|);
    SweptIs(t);
    forall i | 0 <= i < |u|
      ensures u[i] == Seen(t0, w, ps, u[i].path) && u[i].path in ps
    {
      assert u[i] in u;
      var k :| 0 <= k < |t| && t[k] == u[i];
      ScannedIsSeen(t0, w, ps, t, k);
    }
    forall p | p in ps
      ensures HasPath(u, p)
    {
      var j :| 0 <= j < |ps| && ps[j] == p;
      var k := IndexOf(t, ps[j]);
      ScannedIsSeen(t0, w, ps, t, k);
      assert t[k] in u;
      var i :| 0 <= i < |u| && u[i] == t[k];
    }
  }

  /** After the update a listed file is marked for sending exactly if it is new or has a new time
      stamp and was listed once: listing it again clears its mark. Its record is up to date in either
      case, and no removal mark is left. */
  lemma MarkedExactly(t0: Table, w: World, ps: seq<Path>, p: Path)
    requires DistinctPaths(t0) && AllExist(w, ps) && p in ps
    ensures var u := Updated(t0, w, ps); var k := IndexOf(u, p);
      && k < |u| && u[k].state in {0, 1} && u[k].mtime == w.Mtime(p)
      && (u[k].state == 1 <==> IsFresh(t0, w, p) && Occurs(ps, |ps|, p) == 1)
      && (if IsFresh(t0, w, p)
          then u[k].dataSize == |w.files[p].data| && u[k].checkSum == w.sha(w.files[p].data)
          else u[k].(state := 0) == t0[IndexOf(t0, p)].(state := 0))
  {
    var u := Updated(t0, w, ps);
    UpdateIs(t0, w, ps);
    IndexOfHas(u, p);
    SeenState(t0, w, ps, p);
    OccursIn(ps, |ps|, p);
    assert ps[..|ps|] == ps;
    assert u[IndexOf(u, p)] == Seen(t0, w, ps, p);
  }

  /** One of the first n listed files is fresh. */
  ghost predicate AnyFresh(t: Table, w: World, ps: seq<Path>, n: nat)
    requires n <= |ps|
  {
    exists j :: 0 <= j < n && IsFresh(t, w, ps[j])
  }

  lemma {:induction false} TriggersIs(t0: Table, w: World, ps: seq<Path>, n: nat)
    requires DistinctPaths(t0) && n <= |ps|
    ensures TriggersTo(WithStates(t0, -1), w, ps, n) <==> AnyFresh(t0, w, ps, n)
  {
    if n > 0 {
      TriggersIs(t0, w, ps, n - 1);
      TriggerAt(t0, w, ps, n);
      FreshBefore(t0, w, ps, n);
    }
  }

  lemma TriggerAt(t0: Table, w: World, ps: seq<Path>, n: nat)
    requires DistinctPaths(t0) && 0 < n <= |ps|
    ensures Triggers(ScanTo(WithStates(t0, -1), w, ps, n - 1), w, ps[n - 1]) <==>
            IsFresh(t0, w, ps[n - 1]) && Occurs(ps, n - 1, ps[n - 1]) == 0
  {
    ScanIs(t0, w, ps, n - 1);
    TriggerIs(t0, w, ps, n, ScanTo(WithStates(t0, -1), w, ps, n - 1));
  }

  /** A fresh path met again was already fresh the first time. */
  lemma FreshBefore(t0: Table, w: World, ps: seq<Path>, n: nat)
    requires 0 < n <= |ps|
    ensures AnyFresh(t0, w, ps, n) <==>
            AnyFresh(t0, w, ps, n - 1) || (IsFresh(t0, w, ps[n - 1]) && Occurs(ps, n - 1, ps[n - 1]) == 0)
  {
    var p := ps[n - 1];
    OccursIn(ps, n - 1, p);
    if p in ps[..n - 1] {
      var j :| 0 <= j < n - 1 && ps[..n - 1][j] == p;
      assert ps[j] == p;
    }
  }

  lemma RecordTriggers(w: World, r: Record, count: nat)
    ensures w.Checked(SeenOld(w, r, count), r.path).state == 1 <==> count == 0 && r.mtime != w.Mtime(r.path)
    ensures count > 0 ==> w.Checked(SeenNew(w, r.path, count), r.path).state == 0
  {
  }

  /** One path triggers the result when it is fresh and met for the first time. */
  lemma TriggerIs(t0: Table, w: World, ps: seq<Path>, n: nat, t: Table)
    requires DistinctPaths(t0) && 0 < n <= |ps| && Scanned(t0, w, ps, n - 1, t)
    ensures Triggers(t, w, ps[n - 1]) <==> IsFresh(t0, w, ps[n - 1]) && Occurs(ps, n - 1, ps[n - 1]) == 0
  {
    var p := ps[n - 1];
    var k := IndexOf(t, p);
    OldIndex(t0, t, p);
    if k < |t| {
      RecordTriggers(w, if k < |t0| then t0[k] else t[k], Occurs(ps, n - 1, p));
      assert t[k].path == p;
    } else {
      NotYet(t0, w, ps, n - 1, t, p);
    }
  }

  lemma NotYet(t0: Table, w: World, ps: seq<Path>, n: nat, t: Table, p: Path)
    requires n <= |ps| && Scanned(t0, w, ps, n, t) && IndexOf(t, p) == |t|
    ensures Occurs(ps, n, p) == 0
  {
    OccursIn(ps, n, p);
  }

  /** update_check_sync_file answers 1 exactly if some listed file is new or has a new time stamp. A
      file that is merely gone from the list does not make it answer 1. */
  lemma ResultExactly(t0: Table, w: World, ps: seq<Path>)
    requires DistinctPaths(t0)
    ensures TriggersTo(WithStates(t0, -1), w, ps, |ps|) <==> exists p :: p in ps && IsFresh(t0, w, p)
  {
    TriggersIs(t0, w, ps, |ps|);
    if p :| p in ps && IsFresh(t0, w, p) {
      var j :| 0 <= j < |ps| && ps[j] == p;
      assert IsFresh(t0, w, ps[j]);
    }
  }

  /** The marks carry every change to the clients exactly if no changed file is listed twice. */
  lemma MarksComplete(t0: Table, w: World, ps: seq<Path>)
    requires DistinctPaths(t0) && AllExist(w, ps)
    ensures (forall p :: p in ps && IsFresh(t0, w, p) ==> Marked(Updated(t0, w, ps), p))
            <==> (forall p :: p in ps && IsFresh(t0, w, p) ==> Occurs(ps, |ps|, p) == 1)
  {
    forall p | p in ps
      ensures IsFresh(t0, w, p) ==> (Marked(Updated(t0, w, ps), p) <==> Occurs(ps, |ps|, p) == 1)
    {
      MarkedIs(t0, w, ps, p);
    }
  }

  lemma MarkedIs(t0: Table, w: World, ps: seq<Path>, p: Path)
    requires DistinctPaths(t0) && AllExist(w, ps)
    ensures Marked(Updated(t0, w, ps), p) <==> p in ps && IsFresh(t0, w, p) && Occurs(ps, |ps|, p) == 1
  {
    var u := Updated(t0, w, ps);
    UpdateIs(t0, w, ps);
    IndexOfHas(u, p);
    if p in ps {
      MarkedExactly(t0, w, ps, p);
    }
    if i :| 0 <= i < |u| && u[i].path == p && u[i].state == 1 {
      IndexOfIs(u, p, i);
    }
  }
}
