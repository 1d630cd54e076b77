/** What the master's list does to a slave's table. */
module Comparison {
  import opened Bytes
  import opened Records
  import opened Environment
  import opened Wire
  import opened Deserialize

  /** Path p is among the first n entries. */
  ghost predicate Names(es: seq<Entry>, n: nat, p: Path)
    requires n <= |es|
  {
    exists i :: 0 <= i < n && es[i].path == p
  }

  ghost predicate DistinctEntries(es: seq<Entry>) {
    forall i, j :: 0 <= i < j < |es| ==> es[i].path != es[j].path
  }

  /** What becomes of a slave's record when the master's list has the line e for it. */
  function CompareRecord(w: World, r: Record, e: Entry): Record
    requires |e.payload| == DIGEST_LENGTH
  {
    if StrncmpEqual(e.payload, r.checkSum) then r else r.(checkSum := w.Rehashed(r), state := 1)
  }

  /** The slave's table after n lines of the master's list: old records keep their places, compared
      with their line if there is one, and every unknown path has a marked record. */
  ghost predicate Compared(t0: Table, w: World, es: seq<Entry>, n: nat, t: Table)
    requires n <= |es| && ListEntries(es)
  {
    && |t0| <= |t| && DistinctPaths(t)
    && (forall i, j :: 0 <= i < |t0| && 0 <= j < n && es[j].path == t0[i].path ==> t[i] == CompareRecord(w, t0[i], es[j]))
    && (forall i :: 0 <= i < |t0| && !Names(es, n, t0[i].path) ==> t[i] == t0[i])
    && (forall i :: |t0| <= i < |t| ==> t[i].state == 1 && Names(es, n, t[i].path))
    && (forall j :: 0 <= j < n ==> IndexOf(t, es[j].path) < |t|)
  }

  lemma NamesStep(es: seq<Entry>, n: nat, p: Path)
    requires 0 < n <= |es|
    ensures Names(es, n, p) <==> Names(es, n - 1, p) || es[n - 1].path == p
  {
  }

  /** Old records keep their paths. */
  lemma ComparedPaths(t0: Table, w: World, es: seq<Entry>, n: nat, t: Table, i: nat)
    requires n <= |es| && ListEntries(es) && Compared(t0, w, es, n, t) && i < |t0|
    ensures t[i].path == t0[i].path
  {
    if Names(es, n, t0[i].path) {
      var j :| 0 <= j < n && es[j].path == t0[i].path;
      assert t[i] == CompareRecord(w, t0[i], es[j]);
    }
  }

  lemma {:induction false} CompareToIs(t0: Table, w: World, es: seq<Entry>, n: nat)
    requires DistinctPaths(t0) && DistinctEntries(es) && ListEntries(es) && n <= |es|
    ensures Compared(t0, w, es, n, CompareTo(t0, w, es, n))
  {
    if n > 0 {
      CompareToIs(t0, w, es, n - 1);
      var t := CompareTo(t0, w, es, n - 1);
      if IndexOf(t, es[n - 1].path) == |t| {
        ComparedNew(t0, w, es, n, t);
      } else {
        ComparedOld(t0, w, es, n, t);
      }
    }
  }

  lemma ComparedNew(t0: Table, w: World, es: seq<Entry>, n: nat, t: Table)
    requires 0 < n <= |es| && DistinctEntries(es) && ListEntries(es) && Compared(t0, w, es, n - 1, t)
    requires IndexOf(t, es[n - 1].path) == |t|
    ensures Compared(t0, w, es, n, CompareOne(t, w, es[n - 1]))
  {
    var p := es[n - 1].path;
    var t' := CompareOne(t, w, es[n - 1]);
    forall i | 0 <= i < |t|
      ensures Names(es, n, t[i].path) <==> Names(es, n - 1, t[i].path)
    {
      NamesStep(es, n, t[i].path);
    }
    forall i | 0 <= i < |t0|
      ensures t[i].path == t0[i].path
    {
      ComparedPaths(t0, w, es, n - 1, t, i);
    }
    assert Names(es, n, p);
    IndexOfIs(t', p, |t|);
    forall j | 0 <= j < n
      ensures IndexOf(t', es[j].path) < |t'|
    {
      if j < n - 1 {
        IndexOfIs(t', es[j].path, IndexOf(t, es[j].path));
      }
    }
  }

  lemma ComparedOld(t0: Table, w: World, es: seq<Entry>, n: nat, t: Table)
    requires 0 < n <= |es| && DistinctEntries(es) && ListEntries(es) && Compared(t0, w, es, n - 1, t)
    requires IndexOf(t, es[n - 1].path) < |t|
    ensures Compared(t0, w, es, n, CompareOne(t, w, es[n - 1]))
  {
    var p := es[n - 1].path;
    var k := IndexOf(t, p);
    var t' := CompareOne(t, w, es[n - 1]);
    forall i | 0 <= i < |t|
      ensures Names(es, n, t[i].path) <==> Names(es, n - 1, t[i].path) || i == k
    {
      NamesStep(es, n, t[i].path);
    }
    assert !Names(es, n - 1, p);
    assert k < |t0|;
    forall i | 0 <= i < |t0|
      ensures t[i].path == t0[i].path
    {
      ComparedPaths(t0, w, es, n - 1, t, i);
    }
    forall j | 0 <= j < n
      ensures IndexOf(t', es[j].path) < |t'|
    {
      IndexOfIs(t', es[j].path, IndexOf(t, es[j].path));
    }
  }

  lemma {:induction false} CompareGrows(t: Table, w: World, es: seq<Entry>, n: nat)
    requires n <= |es| && ListEntries(es)
    ensures |t| <= |CompareTo(t, w, es, n)|
  {
    if n > 0 {
      CompareGrows(t, w, es, n - 1);
    }
  }
}
