/** The exchange between a master and its slaves: list, request, data. */
module Exchange {
  import opened Bytes
  import opened Wrappers
  import opened Records
  import opened Environment
  import opened FileFunc
  import opened ChangeDetection
  import opened Comparison
  import opened Wire
  import opened Serialize
  import opened Deserialize
  import opened Compress
  import opened Delivery
  import opened ServerRun

  /** The entries of the master's list. */
  function ListOf(t: Table): (es: seq<Entry>)
    ensures |es| == |t|
    ensures forall i :: 0 <= i < |t| ==> es[i] == Entry(t[i].path, t[i].checkSum)
  {
    seq(|t|, i requires 0 <= i < |t| => Entry(t[i].path, t[i].checkSum))
  }

  /** The entries of a request: the marked paths. */
  function RequestOf(t: Table): (es: seq<Entry>)
    ensures |es| == |Chosen(REQUEST, t)|
    ensures forall i :: 0 <= i < |es| ==> es[i] == Entry(Chosen(REQUEST, t)[i].path, [])
  {
    var c := Chosen(REQUEST, t);
    seq(|c|, i requires 0 <= i < |c| => Entry(c[i].path, []))
  }

  /** A slave before the exchange. world is what it sees of its files while its list file is being
      rewritten. */
  datatype Slave = Slave(table: Table, files: FileSys, sync: Path, world: World, host: Host)

  /** The slave's table and files after the master's list. */
  function TableAfter(s: Slave, es: seq<Entry>): Table
    requires ListEntries(es)
  {
    CompareTo(s.table, s.world, es, |es|)
  }

  function FilesAfter(s: Slave, es: seq<Entry>): FileSys {
    s.files[s.sync := File(Printed(es, |es|), s.host.now(s.sync))]
  }

  ghost predicate NoMarks(t: Table) {
    forall i :: 0 <= i < |t| ==> t[i].state == 0
  }

  /** The slave wants path p: it has no record of it, or the digests compare different. */
  ghost predicate Wants(s: Slave, e: Entry)
    requires |e.payload| == DIGEST_LENGTH
  {
    var k := IndexOf(s.table, e.path);
    k < |s.table| ==> !StrncmpEqual(e.payload, s.table[k].checkSum)
  }

  /** The slave marks exactly the listed paths it wants. */
  lemma WantedAreMarked(s: Slave, es: seq<Entry>, p: Path)
    requires DistinctPaths(s.table) && NoMarks(s.table) && DistinctEntries(es) && ListEntries(es)
    ensures Marked(TableAfter(s, es), p) <==> exists j :: 0 <= j < |es| && es[j].path == p && Wants(s, es[j])
    ensures DistinctPaths(TableAfter(s, es))
  {
    var t := TableAfter(s, es);
    CompareToIs(s.table, s.world, es, |es|);
    if Marked(t, p) {
      var i :| 0 <= i < |t| && t[i].path == p && t[i].state == 1;
      MarkedIsWanted(s, es, i);
    }
    if j :| 0 <= j < |es| && es[j].path == p && Wants(s, es[j]) {
      WantedIsMarked(s, es, j);
    }
  }

  lemma MarkedIsWanted(s: Slave, es: seq<Entry>, i: nat)
    requires DistinctPaths(s.table) && NoMarks(s.table) && DistinctEntries(es) && ListEntries(es)
    requires i < |TableAfter(s, es)| && TableAfter(s, es)[i].state == 1
    ensures exists j :: 0 <= j < |es| && es[j].path == TableAfter(s, es)[i].path && Wants(s, es[j])
  {
    var t := TableAfter(s, es);
    CompareToIs(s.table, s.world, es, |es|);
    if i < |s.table| {
      ComparedPaths(s.table, s.world, es, |es|, t, i);
      IndexOfIs(s.table, t[i].path, i);
      assert Names(es, |es|, s.table[i].path);
      var j :| 0 <= j < |es| && es[j].path == s.table[i].path;
      assert t[i] == CompareRecord(s.world, s.table[i], es[j]);
      assert Wants(s, es[j]);
    } else {
      var j :| 0 <= j < |es| && es[j].path == t[i].path;
      OldIndexOf(s, es, t[i].path, i);
      assert Wants(s, es[j]);
    }
  }

  /** A record the exchange has added is for a path that was unknown. */
  lemma OldIndexOf(s: Slave, es: seq<Entry>, p: Path, i: nat)
    requires DistinctPaths(s.table) && DistinctEntries(es) && ListEntries(es)
    requires |s.table| <= i < |TableAfter(s, es)| && TableAfter(s, es)[i].path == p
    ensures IndexOf(s.table, p) == |s.table|
  {
    var t, k := TableAfter(s, es), IndexOf(s.table, p);
    CompareToIs(s.table, s.world, es, |es|);
    if k < |s.table| {
      ComparedPaths(s.table, s.world, es, |es|, t, k);
    }
  }

  lemma WantedIsMarked(s: Slave, es: seq<Entry>, j: nat)
    requires DistinctPaths(s.table) && NoMarks(s.table) && DistinctEntries(es) && ListEntries(es)
    requires j < |es| && Wants(s, es[j])
    ensures Marked(TableAfter(s, es), es[j].path)
  {
    var t, p := TableAfter(s, es), es[j].path;
    CompareToIs(s.table, s.world, es, |es|);
    var i := IndexOf(t, p);
    if i < |s.table| {
      ComparedPaths(s.table, s.world, es, |es|, t, i);
      IndexOfIs(s.table, p, i);
      assert t[i] == CompareRecord(s.world, s.table[i], es[j]);
    }
    assert t[i].path == p && t[i].state == 1;
  }

  /** The request names exactly the listed paths that the slave does not know or whose stored digest
      compares different, each once. */
  lemma RequestExactly(s: Slave, es: seq<Entry>, p: Path)
    requires DistinctPaths(s.table) && NoMarks(s.table) && DistinctEntries(es) && ListEntries(es)
    ensures var r := RequestOf(TableAfter(s, es));
      && DistinctEntries(r)
      && (Names(r, |r|, p) <==> exists j :: 0 <= j < |es| && es[j].path == p && Wants(s, es[j]))
  {
    var t := TableAfter(s, es);
    WantedAreMarked(s, es, p);
    ChosenIs(REQUEST, t);
    RequestNames(t, p);
  }

  lemma RequestNames(t: Table, p: Path)
    ensures var r := RequestOf(t); Names(r, |r|, p) <==> Marked(t, p)
  {
    var c, r := Chosen(REQUEST, t), RequestOf(t);
    ChosenIs(REQUEST, t);
    if Marked(t, p) {
      var i :| 0 <= i < |t| && t[i].path == p && t[i].state == 1;
      assert t[i] in c;
      var j :| 0 <= j < |c| && c[j] == t[i];
      assert r[j].path == p;
    }
    if i :| 0 <= i < |r| && r[i].path == p {
      assert c[i] in c;
      var k :| 0 <= k < |t| && t[k] == c[i];
    }
  }

  /** Decoding a request marks exactly the requested paths the master knows, on top of what was marked. */
  lemma {:induction false} MarkToExactly(t: Table, es: seq<Entry>, n: nat, p: Path)
    requires n <= |es| && DistinctPaths(t)
    ensures DistinctPaths(MarkTo(t, es, n)) && SameFiles(t, MarkTo(t, es, n))
    ensures Marked(MarkTo(t, es, n), p) <==> Marked(t, p) || (IndexOf(t, p) < |t| && Names(es, n, p))
  {
    if n > 0 {
      MarkToExactly(t, es, n - 1, p);
      var u := MarkTo(t, es, n - 1);
      MarkOneExactly(u, es[n - 1].path, p);
      NamesStep(es, n, p);
      SameIndex(t, u, p);
      SameTrans(t, u, MarkTo(t, es, n));
    }
  }

  lemma SameTrans(a: Table, b: Table, c: Table)
    requires SameFiles(a, b) && SameFiles(b, c)
    ensures SameFiles(a, c)
  {
  }

  lemma SameIndex(t: Table, t': Table, p: Path)
    requires SameFiles(t, t') && DistinctPaths(t)
    ensures DistinctPaths(t') && IndexOf(t', p) == IndexOf(t, p)
  {
    forall i | 0 <= i < |t|
      ensures t'[i].path == t[i].path
    {
      SameAt(t, t', i);
    }
    var k := IndexOf(t, p);
    if k < |t| {
      IndexOfIs(t', p, k);
    }
  }

  lemma MarkOneExactly(t: Table, q: Path, p: Path)
    requires DistinctPaths(t)
    ensures DistinctPaths(MarkOne(t, q)) && SameFiles(t, MarkOne(t, q))
    ensures Marked(MarkOne(t, q), p) <==> Marked(t, p) || (IndexOf(t, p) < |t| && q == p)
  {
    var k, t' := IndexOf(t, q), MarkOne(t, q);
    if Marked(t, p) {
      var i :| 0 <= i < |t| && t[i].path == p && t[i].state == 1;
      assert t'[i].path == p && t'[i].state == 1;
    }
    if k < |t| {
      assert t'[k].path == q && t'[k].state == 1;
    }
    if i :| 0 <= i < |t'| && t'[i].path == p && t'[i].state == 1 {
      if i != k {
        assert t[i].path == p && t[i].state == 1;
      }
    }
  }

  /** A request that reaches a server between two scans marks the paths it names and the server knows; the
      marks of before stay, and so does everything else. */
  lemma RequestedExactly(cfg: Config, c: Codec, st: State, es: seq<Entry>, st': State, p: Path)
    requires Next(cfg, c, st, Requested(es), st') && DistinctPaths(st.table)
    ensures Marked(st'.table, p) <==> Marked(st.table, p) || (HasPath(st.table, p) && Names(es, |es|, p))
    ensures SameFiles(st.table, st'.table)
    ensures st'.slots == st.slots && st'.snapshot == st.snapshot && st'.sent == st.sent
  {
    MarkToExactly(st.table, es, |es|, p);
    IndexOfHas(st.table, p);
  }
}
