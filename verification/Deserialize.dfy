/** The three readers: files written to disk, requested paths marked, and a list compared. */
module Deserialize {
  import opened Bytes
  import opened Wrappers
  import opened Records
  import opened UtHash
  import opened Environment
  import opened HashTableFunc
  import opened Wire

  /** The receiving machine: which files it can open for writing, and the time stamps they get. */
  datatype Host = Host(canOpen: Path -> bool, now: Path -> int)

  class Disk {
    var files: FileSys

    constructor (files: FileSys)
      ensures this.files == files
    {
      this.files := files;
    }
  }

  /** The position after the last slash of p. */
  function AfterSlash(p: Path, n: nat): (k: nat)
    requires n <= |p|
    ensures k <= n
    ensures forall i :: k <= i < n ==> p[i] != SLASH
    ensures k > 0 ==> p[k - 1] == SLASH
  {
    if n == 0 || p[n - 1] == SLASH then n else AfterSlash(p, n - 1)
  }

  function BaseName(p: Path): Path {
    p[AfterSlash(p, |p|)..]
  }

  /** Where a received file goes: under its base name into a client's directory, or to its own path. */
  function Target(dir: Option<Path>, p: Path): Path {
    match dir
    case None => p
    case Some(d) =>
      var q := d + [SLASH] + BaseName(p);
      if |q| < MAX_LENGTH then q else q[..MAX_LENGTH - 1]
  }

  /** b is the last component of p: all that follows its last slash. */
  predicate NameOf(p: Path, b: Path) {
    |b| < |p| && SLASH !in b && p[|p| - |b| - 1] == SLASH && p[|p| - |b|..] == b
  }

  /** Every path with a slash has exactly one last component. */
  lemma NameExactly(p: Path) returns (a: Path, b: Path)
    requires SLASH in p
    ensures p == a + [SLASH] + b && SLASH !in b
    ensures forall c :: NameOf(p, c) <==> c == b
  {
    var k := AfterSlash(p, |p|);
    a, b := p[..k - 1], p[k..];
    assert p == a + [SLASH] + b;
    forall c
      ensures NameOf(p, c) <==> c == b
    {
      NameUnique(p, b, c);
    }
  }

  lemma NoSlashAfter(p: Path, b: Path)
    ensures NameOf(p, b) ==> forall i :: |p| - |b| <= i < |p| ==> p[i] != SLASH
  {
    if NameOf(p, b) {
      assert forall i :: |p| - |b| <= i < |p| ==> p[i] == p[|p| - |b|..][i - (|p| - |b|)];
    }
  }

  lemma NameUnique(p: Path, b: Path, c: Path)
    requires NameOf(p, b)
    ensures NameOf(p, c) <==> c == b
  {
    NoSlashAfter(p, b);
    NoSlashAfter(p, c);
  }

  lemma BaseNameIs(p: Path, b: Path)
    requires NameOf(p, b)
    ensures BaseName(p) == b
  {
    var k := AfterSlash(p, |p|);
    NameUnique(p, b, p[k..]);
  }

  /** A file a client receives goes into its directory, under what follows the last slash of its path; a
      name that does not fit the buffer is cut. On a server it goes to its own path. */
  lemma TargetIs(d: Path, a: Path, b: Path)
    requires SLASH !in b
    ensures var p := a + [SLASH] + b;
      && Target(None, p) == p
      && (|d| + 1 + |b| < 4096 ==> Target(Some(d), p) == d + [SLASH] + b)
      && (|d| + 1 + |b| >= 4096 ==> Target(Some(d), p) == (d + [SLASH] + b)[..4095])
  {
    var p := a + [SLASH] + b;
    assert NameOf(p, b);
    BaseNameIs(p, b);
  }

  /** Two paths go to the same place exactly if their last components are the same. */
  lemma SamePlace(d: Path, p: Path, b: Path, q: Path, c: Path)
    requires NameOf(p, b) && NameOf(q, c) && |d| + 1 + |b| < MAX_LENGTH && |d| + 1 + |c| < MAX_LENGTH
    ensures Target(Some(d), p) == d + [SLASH] + b
    ensures Target(Some(d), p) == Target(Some(d), q) <==> b == c
  {
    BaseNameIs(p, b);
    BaseNameIs(q, c);
    assert (d + [SLASH] + b)[|d| + 1..] == b && (d + [SLASH] + c)[|d| + 1..] == c;
  }

  function StoreOne(files: FileSys, e: Entry, dir: Option<Path>, host: Host): FileSys {
    var q := Target(dir, e.path);
    if host.canOpen(q) then files[q := File(e.payload, host.now(q))] else files
  }

  function StoreTo(files: FileSys, es: seq<Entry>, n: nat, dir: Option<Path>, host: Host): FileSys
    requires n <= |es|
  {
    if n == 0 then files else StoreOne(StoreTo(files, es, n - 1, dir, host), es[n - 1], dir, host)
  }

  function Stored(files: FileSys, es: seq<Entry>, dir: Option<Path>, host: Host): FileSys {
    StoreTo(files, es, |es|, dir, host)
  }

  lemma ReadStep(kind: nat, s: seq<Byte>, pos: nat, count: nat)
    requires count > 0 && ReadEntries(kind, s, pos, count).Some?
    ensures var es := ReadEntries(kind, s, pos, count).value; var r := ReadEntry(kind, s, pos);
      && |es| > 0 && r.Some? && es[0] == r.value.0
      && ReadEntries(kind, s, r.value.1, count - 1) == Some(es[1..])
  {
  }

  lemma {:induction false} ReadLength(kind: nat, s: seq<Byte>, pos: nat, count: nat)
    requires ReadEntries(kind, s, pos, count).Some?
    ensures |ReadEntries(kind, s, pos, count).value| == count
    decreases count
  {
    if count > 0 {
      ReadStep(kind, s, pos, count);
      ReadLength(kind, s, ReadEntry(kind, s, pos).value.1, count - 1);
    }
  }

  /** Mentioning Cursor brings the contents of ReadUpTo into a proof. */
  ghost predicate Cursor(k: int) {
    true
  }

  /** The cursor of a reader has come to pos after i entries. */
  ghost predicate ReadUpTo(kind: nat, s: seq<Byte>, es: seq<Entry>, i: nat, pos: nat) {
    i <= |es| && forall k {:trigger Cursor(k)} :: Cursor(k) ==> ReadEntries(kind, s, pos, |es| - i) == Some(es[i..])
  }

  lemma ReadBegin(kind: nat, s: seq<Byte>, count: nat)
    requires ReadEntries(kind, s, 0, count).Some?
    ensures var es := ReadEntries(kind, s, 0, count).value; |es| == count && ReadUpTo(kind, s, es, 0, 0)
  {
    ReadLength(kind, s, 0, count);
    var es := ReadEntries(kind, s, 0, count).value;
    assert es[0..] == es;
  }

  method NextEntry(kind: nat, s: seq<Byte>, pos: nat, ghost es: seq<Entry>, ghost i: nat) returns (e: Entry, next: nat)
    requires ReadUpTo(kind, s, es, i, pos) && i < |es|
    ensures e == es[i] && ReadUpTo(kind, s, es, i + 1, next)
  {
    assert Cursor(0);
    ReadStep(kind, s, pos, |es| - i);
    var r := ReadEntry(kind, s, pos);
    e, next := r.value.0, r.value.1;
    assert es[i..][1..] == es[i + 1..];
  }

  /** file_deserialized: writes every file of the message, skipping those that cannot be opened. */
  method FileDeserialized(disk: Disk, s: seq<Byte>, fileCount: nat, dir: Option<Path>, host: Host)
    requires ReadEntries(DATA, s, 0, fileCount).Some?
    modifies disk
    ensures disk.files == Stored(old(disk.files), ReadEntries(DATA, s, 0, fileCount).value, dir, host)
    ensures forall q :: !host.canOpen(q) ==>
      (q in disk.files <==> q in old(disk.files)) && (q in disk.files ==> disk.files[q] == old(disk.files)[q])
  {
    ghost var es := ReadEntries(DATA, s, 0, fileCount).value;
    ReadBegin(DATA, s, fileCount);
    var pos, i := 0, 0;
    while i < fileCount
      invariant i <= fileCount && ReadUpTo(DATA, s, es, i, pos)
      invariant disk.files == StoreTo(old(disk.files), es, i, dir, host)
      invariant forall q :: !host.canOpen(q) ==>
        (q in disk.files <==> q in old(disk.files)) && (q in disk.files ==> disk.files[q] == old(disk.files)[q])
    {
      var e, next := NextEntry(DATA, s, pos, es, i);
      var q := Target(dir, e.path);
      if host.canOpen(q) {
        disk.files := disk.files[q := File(e.payload, host.now(q))];
      }
      pos, i := next, i + 1;
    }
  }

  /** Marks the record of path p, if there is one. */
  function MarkOne(t: Table, p: Path): Table {
    var k := IndexOf(t, p);
    if k < |t| then t[k := t[k].(state := 1)] else t
  }

  function MarkTo(t: Table, es: seq<Entry>, n: nat): Table
    requires n <= |es|
  {
    if n == 0 then t else MarkOne(MarkTo(t, es, n - 1), es[n - 1].path)
  }

  method MarkPath(fl: FileList, path: Path)
    requires fl.Valid()
    modifies fl.items`state
    ensures fl.Valid() && fl.Contents() == MarkOne(old(fl.Contents()), path)
  {
    var cur := FindFileData(fl, path);
    fl.Elements();
    if cur != null {
      ghost var t, k := fl.Contents(), IndexOf(fl.Contents(), path);
      fl.EntriesDiffer();
      cur.state := 1;
      fl.ContentsAre(t[k := t[k].(state := 1)]);
    }
  }

  method PathTurn(fl: FileList, s: seq<Byte>, pos: nat, ghost es: seq<Entry>, ghost i: nat, ghost t: Table) returns (next: nat)
    requires fl.Valid() && ReadUpTo(REQUEST, s, es, i, pos) && i < |es| && fl.Contents() == MarkTo(t, es, i)
    modifies fl.items`state
    ensures fl.Valid() && ReadUpTo(REQUEST, s, es, i + 1, next) && fl.Contents() == MarkTo(t, es, i + 1)
  {
    var e;
    e, next := NextEntry(REQUEST, s, pos, es, i);
    MarkPath(fl, e.path);
  }

  /** file_path_deserialized: marks every requested path that is known. */
  method FilePathDeserialized(fl: FileList, s: seq<Byte>, fileCount: nat)
    requires fl.Valid() && ReadEntries(REQUEST, s, 0, fileCount).Some?
    modifies fl.items`state
    ensures fl.Valid()
    ensures var es := ReadEntries(REQUEST, s, 0, fileCount).value; fl.Contents() == MarkTo(old(fl.Contents()), es, |es|)
  {
    ghost var es, t := ReadEntries(REQUEST, s, 0, fileCount).value, fl.Contents();
    ReadBegin(REQUEST, s, fileCount);
    var pos, i := 0, 0;
    while i < fileCount
      invariant i <= fileCount && ReadUpTo(REQUEST, s, es, i, pos)
      invariant fl.Valid() && fl.Contents() == MarkTo(t, es, i)
    {
      pos := PathTurn(fl, s, pos, es, i, t);
      i := i + 1;
    }
  }

  /** strncmp answers 0: the digests agree up to their end or up to a zero byte they share. */
  predicate SameUpTo(a: Digest, b: Digest, i: nat)
    requires i <= DIGEST_LENGTH
    decreases DIGEST_LENGTH - i
  {
    i == DIGEST_LENGTH || (a[i] == b[i] && (a[i] == NUL || SameUpTo(a, b, i + 1)))
  }

  predicate StrncmpEqual(a: Digest, b: Digest) {
    SameUpTo(a, b, 0)
  }

  /** What the slave does with one line of the master's list. */
  function CompareOne(t: Table, w: World, e: Entry): Table
    requires |e.payload| == DIGEST_LENGTH
  {
    var k := IndexOf(t, e.path);
    if k == |t| then t + [w.NewRecord(e.path)]
    else if !StrncmpEqual(e.payload, t[k].checkSum) then t[k := t[k].(checkSum := w.Rehashed(t[k]), state := 1)]
    else t
  }

  ghost predicate ListEntries(es: seq<Entry>) {
    forall i :: 0 <= i < |es| ==> |es[i].payload| == DIGEST_LENGTH && GoodPath(es[i].path)
  }

  function CompareTo(t: Table, w: World, es: seq<Entry>, n: nat): Table
    requires n <= |es| && ListEntries(es)
  {
    if n == 0 then t else CompareOne(CompareTo(t, w, es, n - 1), w, es[n - 1])
  }

  /** The list file the slave prints. */
  function Printed(es: seq<Entry>, n: nat): seq<Byte>
    requires n <= |es|
  {
    if n == 0 then [] else Printed(es, n - 1) + es[n - 1].path + [NEWLINE]
  }

  method CompareEntry(fl: FileList, w: World, e: Entry)
    requires fl.Valid() && |e.payload| == DIGEST_LENGTH && GoodPath(e.path)
    modifies fl.Repr
    ensures fl.Valid() && fresh(fl.Repr - old(fl.Repr))
    ensures fl.Contents() == CompareOne(old(fl.Contents()), w, e)
  {
    ghost var t, k := fl.Contents(), IndexOf(fl.Contents(), e.path);
    IndexOfHas(t, e.path);
    var cur := FindFileData(fl, e.path);
    if cur == null {
      AddPath(fl, w, e.path);
      return;
    }
    fl.Elements();
    if !StrncmpEqual(e.payload, cur.checkSum) {
      fl.EntriesDiffer();
      cur.checkSum := w.Rehashed(cur.Rec());
      cur.state := 1;
      fl.ContentsAre(t[k := t[k].(checkSum := w.Rehashed(t[k]), state := 1)]);
    }
  }

  method ListTurn(fl: FileList, s: seq<Byte>, pos: nat, text: seq<Byte>, w: World,
                  ghost es: seq<Entry>, ghost i: nat, ghost t: Table)
    returns (next: nat, text': seq<Byte>)
    requires fl.Valid() && ListEntries(es) && i < |es|
    requires ReadUpTo(LIST, s, es, i, pos) && text == Printed(es, i) && fl.Contents() == CompareTo(t, w, es, i)
    modifies fl.Repr
    ensures fl.Valid() && fresh(fl.Repr - old(fl.Repr))
    ensures ReadUpTo(LIST, s, es, i + 1, next) && text' == Printed(es, i + 1)
    ensures fl.Contents() == CompareTo(t, w, es, i + 1)
  {
    var e;
    e, next := NextEntry(LIST, s, pos, es, i);
    text' := text + e.path + [NEWLINE];
    CompareEntry(fl, w, e);
  }

  /** The loop over the master's list: the lines printed, and what becomes of the table. */
  method CompareAll(fl: FileList, s: seq<Byte>, fileCount: nat, w: World) returns (text: seq<Byte>)
    requires fl.Valid()
    requires ReadEntries(LIST, s, 0, fileCount).Some? && ListEntries(ReadEntries(LIST, s, 0, fileCount).value)
    modifies fl.Repr
    ensures fl.Valid() && fresh(fl.Repr - old(fl.Repr))
    ensures var es := ReadEntries(LIST, s, 0, fileCount).value;
      fl.Contents() == CompareTo(old(fl.Contents()), w, es, |es|) && text == Printed(es, |es|)
  {
    ghost var es, t := ReadEntries(LIST, s, 0, fileCount).value, fl.Contents();
    ReadBegin(LIST, s, fileCount);
    text := [];
    var pos, i := 0, 0;
    while i < fileCount
      invariant i <= fileCount && ReadUpTo(LIST, s, es, i, pos) && text == Printed(es, i)
      invariant fl.Valid() && fresh(fl.Repr - old(fl.Repr))
      invariant fl.Contents() == CompareTo(t, w, es, i)
    {
      pos, text := ListTurn(fl, s, pos, text, w, es, i, t);
      i := i + 1;
    }
  }

  /** file_list_deserialized: rewrites the slave's list file with the master's paths, adds the unknown
      ones, and marks those whose digests compare different. w is what the slave sees of its files
      meanwhile; the list file itself is being rewritten. */
  method FileListDeserialized(fl: FileList, s: seq<Byte>, fileCount: nat, syncPath: Path, disk: Disk, w: World, host: Host)
    requires fl.Valid() && disk !in fl.Repr
    requires ReadEntries(LIST, s, 0, fileCount).Some? && ListEntries(ReadEntries(LIST, s, 0, fileCount).value)
    modifies fl.Repr, disk
    ensures fl.Valid() && fresh(fl.Repr - old(fl.Repr))
    ensures var es := ReadEntries(LIST, s, 0, fileCount).value;
      if old(fl.Contents()) == [] then fl.Contents() == [] && disk.files == old(disk.files)
      else
        && fl.Contents() == CompareTo(old(fl.Contents()), w, es, |es|)
        && disk.files == old(disk.files)[syncPath := File(Printed(es, |es|), host.now(syncPath))]
  {
    if fl.head != null {
      var text := CompareAll(fl, s, fileCount, w);
      disk.files := disk.files[syncPath := File(text, host.now(syncPath))];
    }
  }
}
