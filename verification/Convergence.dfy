/** What one exchange leaves on a slave: which files equal the master's, and which are untouched. */
module Convergence {
  import opened Bytes
  import opened Wrappers
  import opened Records
  import opened Environment
  import opened Comparison
  import opened ChangeDetection
  import opened Wire
  import opened Serialize
  import opened Deserialize
  import opened Delivery
  import opened ServerRun
  import opened Exchange

  /** The master's table t agrees with its files, which rest while the exchange lasts. */
  ghost predicate MasterOk(g: Setting, wm: World, t: Table) {
    RecordsOk(g, t) && Consistent(g, wm) && UpToDate(wm, t)
  }

  /** The contents of p are those on the master. */
  ghost predicate Same(files: FileSys, wm: World, p: Path) {
    p in files && p in wm.files && files[p].data == wm.files[p].data
  }

  /** The data message made from the marks of t' is the entries due for its marked records. */
  lemma DataIsDue(g: Setting, wm: World, t: Table, t': Table, es: seq<Entry>)
    requires MasterOk(g, wm, t) && SameFiles(t, t') && Carries(DATA, wm, Chosen(DATA, t'), es)
    ensures es == DueAll(g, Chosen(DATA, t')) && DistinctPaths(Chosen(DATA, t')) && UpToDate(wm, Chosen(DATA, t'))
  {
    var c := Chosen(DATA, t');
    SameRecordsOk(g, t, t');
    SameUpToDate(wm, t, t');
    ChosenIs(DATA, t');
    forall i | 0 <= i < |c|
      ensures c[i].path in wm.files && c[i].mtime == wm.files[c[i].path].mtime
      ensures c[i].dataSize == |wm.files[c[i].path].data|
    {
      assert c[i] in c;
      var k :| 0 <= k < |t'| && t'[k] == c[i];
    }
    CarriesDue(g, wm, c, es);
  }

  /** It names exactly the marked paths, each once, with the master's contents. */
  lemma DataExactly(g: Setting, wm: World, t: Table, t': Table, es: seq<Entry>, p: Path)
    requires MasterOk(g, wm, t) && SameFiles(t, t') && Carries(DATA, wm, Chosen(DATA, t'), es)
    ensures DistinctEntries(es)
    ensures Names(es, |es|, p) <==> Marked(t', p)
    ensures forall i :: 0 <= i < |es| && es[i].path == p ==> p in wm.files && es[i].payload == wm.files[p].data
  {
    var c := Chosen(DATA, t');
    DataIsDue(g, wm, t, t', es);
    ChosenMarked(t', p);
    if Marked(t', p) {
      var i :| 0 <= i < |c| && c[i].path == p;
      assert es[i].path == p;
    }
    if i :| 0 <= i < |es| && es[i].path == p {
      assert c[i].path == p;
    }
  }

  /** The slave's files after the master's list and the data message es. */
  function FilesOnSlave(s: Slave, list: seq<Entry>, es: seq<Entry>): FileSys {
    Stored(FilesAfter(s, list), es, None, s.host)
  }

  /** What becomes of every path of the slave's file system: marked files are delivered, the list file
      is rewritten, and everything else is untouched. */
  lemma DeliveredExactly(g: Setting, wm: World, t: Table, t': Table, es: seq<Entry>, s: Slave, p: Path)
    requires MasterOk(g, wm, t) && SameFiles(t, t') && Carries(DATA, wm, Chosen(DATA, t'), es)
    requires forall q :: s.host.canOpen(q)
    ensures var list := ListOf(t); var f := FilesOnSlave(s, list, es);
      if Marked(t', p) then Same(f, wm, p)
      else if p == s.sync then p in f && f[p].data == Printed(list, |list|)
      else p in f <==> p in s.files && (p in f ==> f[p] == s.files[p])
  {
    DataExactly(g, wm, t, t', es, p);
    if Marked(t', p) {
      var i :| 0 <= i < |es| && es[i].path == p;
      StoreToLast(FilesAfter(s, ListOf(t)), es, |es|, None, s.host, i);
    } else {
      assert !Names(es, |es|, p);
      StoreToElsewhere(FilesAfter(s, ListOf(t)), es, |es|, None, s.host, p);
    }
  }

  /** Every recorded digest is that of the file as it is. */
  ghost predicate FreshDigests(t: Table, files: FileSys, sha: seq<Byte> -> Digest) {
    forall i :: 0 <= i < |t| ==> t[i].path in files && t[i].checkSum == sha(files[t[i].path].data)
  }

  /** The comparison of digests tells different contents of p apart. */
  ghost predicate ToldApart(s: Slave, wm: World, p: Path) {
    p in s.files && p in wm.files && StrncmpEqual(wm.sha(wm.files[p].data), wm.sha(s.files[p].data)) ==>
      s.files[p].data == wm.files[p].data
  }

  /** The slave asks for the listed path p. */
  ghost predicate Asks(s: Slave, list: seq<Entry>, p: Path)
    requires ListEntries(list)
  {
    exists j :: 0 <= j < |list| && list[j].path == p && Wants(s, list[j])
  }

  lemma ListIs(g: Setting, t: Table)
    requires RecordsOk(g, t)
    ensures ListEntries(ListOf(t)) && DistinctEntries(ListOf(t))
  {
  }

  /** A listed path the slave does not ask for already has the master's contents. */
  lemma AsksOrSame(g: Setting, wm: World, t: Table, s: Slave, p: Path)
    requires MasterOk(g, wm, t) && FreshDigests(t, wm.files, wm.sha) && FreshDigests(s.table, s.files, wm.sha)
    requires ToldApart(s, wm, p) && HasPath(t, p)
    ensures ListEntries(ListOf(t))
    ensures Asks(s, ListOf(t), p) || Same(s.files, wm, p)
  {
    ListIs(g, t);
    var i :| 0 <= i < |t| && t[i].path == p;
    var e, k := ListOf(t)[i], IndexOf(s.table, p);
    if !Wants(s, e) {
      assert s.table[k].path == p && s.table[k].checkSum == wm.sha(s.files[p].data);
      assert t[i].checkSum == wm.sha(wm.files[p].data);
    }
  }

  /** Convergence of one exchange whose data message carries at least what the slave asked for. With
      up-to-date digests that tell contents apart, the slave then has the master's contents at every
      listed path other than its list file, and nothing else has changed. */
  lemma SessionConverges(g: Setting, wm: World, t: Table, t': Table, es: seq<Entry>, s: Slave, p: Path)
    requires MasterOk(g, wm, t) && SameFiles(t, t') && Carries(DATA, wm, Chosen(DATA, t'), es)
    requires forall q :: s.host.canOpen(q)
    requires FreshDigests(t, wm.files, wm.sha) && FreshDigests(s.table, s.files, wm.sha) && ToldApart(s, wm, p)
    requires ListEntries(ListOf(t)) && (Asks(s, ListOf(t), p) ==> Marked(t', p))
    ensures var f := FilesOnSlave(s, ListOf(t), es); p != s.sync ==>
      if HasPath(t, p) then Same(f, wm, p) else p in f <==> p in s.files && (p in f ==> f[p] == s.files[p])
  {
    DeliveredExactly(g, wm, t, t', es, s, p);
    if HasPath(t, p) {
      AsksOrSame(g, wm, t, s, p);
    } else {
      SameHasPath(t, t', p);
    }
  }

  lemma SameHasPath(t: Table, t': Table, p: Path)
    requires SameFiles(t, t')
    ensures HasPath(t', p) <==> HasPath(t, p)
    ensures Marked(t', p) ==> HasPath(t, p)
  {
    forall i | 0 <= i < |t|
      ensures t'[i].path == t[i].path
    {
      SameAt(t, t', i);
    }
    if i :| 0 <= i < |t| && t[i].path == p {
      assert t'[i].path == p;
    }
    if i :| 0 <= i < |t'| && t'[i].path == p {
      assert t[i].path == p;
    }
  }

  /** The marks an undisturbed exchange leaves: those of the request, on a table without marks. */
  function Alone(t: Table, s: Slave): Table
    requires ListEntries(ListOf(t))
  {
    var r := RequestOf(TableAfter(s, ListOf(t)));
    MarkTo(t, r, |r|)
  }

  lemma AloneMarks(g: Setting, t: Table, s: Slave, p: Path)
    requires RecordsOk(g, t) && NoMarks(t) && DistinctPaths(s.table) && NoMarks(s.table)
    ensures ListEntries(ListOf(t)) && SameFiles(t, Alone(t, s))
    ensures Marked(Alone(t, s), p) <==> Asks(s, ListOf(t), p)
  {
    ListIs(g, t);
    var list := ListOf(t);
    var r := RequestOf(TableAfter(s, list));
    RequestExactly(s, list, p);
    MarkToExactly(t, r, |r|, p);
    if j :| 0 <= j < |list| && list[j].path == p && Wants(s, list[j]) {
      IndexOfIs(t, p, j);
    }
  }

  /** The slave's files after an exchange; with an empty table it does not take part. */
  function FilesWhenOver(s: Slave, list: seq<Entry>, es: seq<Entry>): FileSys {
    if s.table == [] then s.files else FilesOnSlave(s, list, es)
  }

  /** Exactly when an undisturbed exchange converges, whatever the digests are: every listed path must
      have been asked for or have had the master's contents before. A slave whose digest compares equal
      for different contents keeps its own, a listed list file that is not asked for keeps the text printed
      into it, and a slave with an empty table asks for nothing. */
  lemma AloneExactly(g: Setting, wm: World, t: Table, es: seq<Entry>, s: Slave)
    requires MasterOk(g, wm, t) && NoMarks(t) && DistinctPaths(s.table) && NoMarks(s.table)
    requires forall q :: s.host.canOpen(q)
    requires ListEntries(ListOf(t)) && Carries(DATA, wm, Chosen(DATA, Alone(t, s)), es)
    ensures var list := ListOf(t); var f := FilesWhenOver(s, list, es);
      (forall p :: HasPath(t, p) ==> Same(f, wm, p)) <==>
      (forall p :: HasPath(t, p) ==>
        if s.table == [] then Same(s.files, wm, p) else Asks(s, list, p) || Same(FilesAfter(s, list), wm, p))
  {
    var list, f := ListOf(t), FilesOnSlave(s, ListOf(t), es);
    forall p | HasPath(t, p)
      ensures Same(f, wm, p) <==> Asks(s, list, p) || Same(FilesAfter(s, list), wm, p)
    {
      AloneMarks(g, t, s, p);
      DeliveredExactly(g, wm, t, Alone(t, s), es, s, p);
    }
  }

  /** The digests agree up to a zero byte at position i. */
  ghost predicate AgreeToNul(a: Digest, b: Digest, i: nat) {
    i < DIGEST_LENGTH && a[..i] == b[..i] && a[i] == NUL && b[i] == NUL
  }

  lemma {:induction false} StrncmpFrom(a: Digest, b: Digest, i: nat)
    requires i <= DIGEST_LENGTH && a[..i] == b[..i] && NUL !in a[..i]
    ensures SameUpTo(a, b, i) <==> a == b || exists j :: AgreeToNul(a, b, j)
    decreases DIGEST_LENGTH - i
  {
    if i == DIGEST_LENGTH {
      assert a[..i] == a && b[..i] == b;
    } else if a[i] == b[i] {
      if a[i] == NUL {
        assert AgreeToNul(a, b, i);
      } else {
        assert a[..i + 1] == a[..i] + [a[i]] && b[..i + 1] == b[..i] + [b[i]];
        StrncmpFrom(a, b, i + 1);
      }
    } else {
      forall j: nat | j < DIGEST_LENGTH
        ensures !AgreeToNul(a, b, j)
      {
        if j < i {
          assert a[..i][j] == a[j];
        } else if j > i {
          assert a[..j][i] == a[i] && b[..j][i] == b[i];
        }
      }
    }
  }

  /** What strncmp makes of two digests. */
  lemma StrncmpExactly(a: Digest, b: Digest)
    ensures StrncmpEqual(a, b) <==> a == b || exists i :: AgreeToNul(a, b, i)
  {
    StrncmpFrom(a, b, 0);
  }

  /** Two different digests that compare equal: the slave would keep a file that differs. */
  lemma StrncmpBlind() returns (a: Digest, b: Digest)
    ensures a != b && StrncmpEqual(a, b)
  {
    a, b := seq(DIGEST_LENGTH, i => 0), seq(DIGEST_LENGTH, i => if i == 1 then 1 else 0);
    assert a[1] != b[1];
    assert AgreeToNul(a, b, 0);
    StrncmpExactly(a, b);
  }
}
