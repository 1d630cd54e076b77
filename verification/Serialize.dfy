/** The sizing pass and the three writers over the file list. */
module Serialize {
  import opened Bytes
  import opened Records
  import opened UtHash
  import opened Environment
  import opened Wire

  class TransferHeader {
    var dataType: nat
    var totalSize: nat
    var fileCount: nat

    constructor ()
      ensures dataType == 0 && totalSize == 0 && fileCount == 0
    {
      dataType, totalSize, fileCount := 0, 0, 0;
    }

    function Value(): Header
      reads this
    {
      Header(dataType, totalSize, fileCount)
    }
  }

  /** Whether a message of type kind has an entry for r. */
  predicate Selects(kind: nat, r: Record) {
    kind == LIST || (kind in {REQUEST, DATA} && r.state == 1)
  }

  /** What the sizing pass adds for a record. */
  function SizeFor(kind: nat, r: Record): nat {
    if !Selects(kind, r) then 0
    else EntrySize(kind, |r.path|, if kind == LIST then DIGEST_LENGTH else if kind == DATA then r.dataSize else 0)
  }

  function SizeTo(kind: nat, t: Table, n: nat): nat
    requires n <= |t|
  {
    if n == 0 then 0 else SizeTo(kind, t, n - 1) + SizeFor(kind, t[n - 1])
  }

  /** The records among the first n that a message of type kind has entries for, in order. */
  function ChosenTo(kind: nat, t: Table, n: nat): (r: Table)
    requires n <= |t|
    ensures |r| <= n
  {
    if n == 0 then [] else ChosenTo(kind, t, n - 1) + if Selects(kind, t[n - 1]) then [t[n - 1]] else []
  }

  function Chosen(kind: nat, t: Table): Table {
    ChosenTo(kind, t, |t|)
  }

  function SizedHeader(kind: nat, t: Table): Header {
    Header(kind, SizeTo(kind, t, |t|), |Chosen(kind, t)|)
  }

  /** update_header_set. */
  method UpdateHeaderSet(fl: FileList, header: TransferHeader, dataType: nat)
    requires fl.Valid()
    modifies header
    ensures header.Value() == SizedHeader(dataType, fl.Contents())
  {
    var totalSize, fileCount := 0, 0;
    var cur := fl.head;
    ghost var i, t := 0, fl.Contents();
    while cur != null
      invariant 0 <= i <= |t| && cur == At(fl.items, i)
      invariant totalSize == SizeTo(dataType, t, i) && fileCount == |ChosenTo(dataType, t, i)|
      decreases |t| - i
    {
      fl.LinksAt(i);
      assert t[i] == cur.Rec();
      if dataType == LIST {
        totalSize := totalSize + (|cur.path| + 1) + LONG_SIZE;
        totalSize := totalSize + DIGEST_LENGTH;
        fileCount := fileCount + 1;
      } else if dataType == REQUEST {
        if cur.state == 1 {
          totalSize := totalSize + (|cur.path| + 1) + LONG_SIZE;
          fileCount := fileCount + 1;
        }
      } else if dataType == DATA {
        if cur.state == 1 {
          totalSize := totalSize + (|cur.path| + 1) + LONG_SIZE;
          totalSize := totalSize + cur.dataSize + LONG_SIZE;
          fileCount := fileCount + 1;
        }
      }
      cur := cur.next;
      i := i + 1;
    }
    header.totalSize := totalSize;
    header.fileCount := fileCount;
    header.dataType := dataType;
  }

  /** The contents c were read for record r: as many bytes as recorded, taken from the file as far as
      it reaches. */
  ghost predicate ReadsAs(w: World, r: Record, c: seq<Byte>) {
    && |c| == r.dataSize && r.path in w.files
    && var d := w.files[r.path].data; var m := if |c| < |d| then |c| else |d|;
       c[..m] == d[..m]
  }

  /** The entries es are those a message of type kind has for the records of c. */
  ghost predicate Carries(kind: nat, w: World, c: Table, es: seq<Entry>) {
    && |es| == |c|
    && forall i :: 0 <= i < |c| ==> CarriesAt(kind, w, c[i], es[i])
  }

  ghost predicate CarriesAt(kind: nat, w: World, r: Record, e: Entry) {
    && e.path == r.path
    && (kind == LIST ==> e.payload == r.checkSum)
    && (kind == REQUEST ==> e.payload == [])
    && (kind == DATA ==> ReadsAs(w, r, e.payload))
  }

  lemma {:induction false} EntriesPrefix(kind: nat, es: seq<Entry>, e: Entry, n: nat)
    requires n <= |es|
    ensures EntriesBytes(kind, es + [e], n) == EntriesBytes(kind, es, n)
  {
    if n > 0 {
      EntriesPrefix(kind, es, e, n - 1);
    }
  }

  lemma PayloadExtend(kind: nat, es: seq<Entry>, e: Entry)
    ensures PayloadBytes(kind, es + [e]) == PayloadBytes(kind, es) + EntryBytes(kind, e)
  {
    EntriesPrefix(kind, es, e, |es|);
  }

  /** memcpy and snprintf into the buffer. */
  method Put(buf: array<Byte>, pos: nat, b: seq<Byte>) returns (next: nat)
    requires pos + |b| <= buf.Length
    modifies buf
    ensures next == pos + |b|
    ensures buf[..next] == old(buf[..pos]) + b
    ensures buf[next..] == old(buf[next..])
  {
    next := pos + |b|;
    forall k | 0 <= k < |b| {
      buf[pos + k] := b[k];
    }
  }

  /** fread: as many bytes as asked for or as the file has. */
  method ReadFile(buf: array<Byte>, pos: nat, size: nat, data: seq<Byte>) returns (ghost c: seq<Byte>)
    requires pos + size <= buf.Length
    modifies buf
    ensures |c| == size && buf[..pos + size] == old(buf[..pos]) + c
    ensures var m := if size < |data| then size else |data|; c[..m] == data[..m]
  {
    var m := if size < |data| then size else |data|;
    var next := Put(buf, pos, data[..m]);
    c := buf[pos..pos + size];
    assert buf[..pos] == buf[..next][..pos];
    assert c[..m] == buf[..next][pos..];
    assert buf[..pos + size] == buf[..pos] + c;
  }

  method PutPath(buf: array<Byte>, pos: nat, p: Path) returns (next: nat)
    requires pos + LONG_SIZE + |p| + 1 <= buf.Length
    modifies buf
    ensures next == pos + LONG_SIZE + |p| + 1
    ensures buf[..next] == old(buf[..pos]) + Encode(|p| + 1, LONG_SIZE) + (p + [NUL])
  {
    next := Put(buf, pos, Encode(|p| + 1, LONG_SIZE));
    next := Put(buf, next, p + [NUL]);
  }

  lemma {:induction false} SizeMonotone(kind: nat, t: Table, i: nat, n: nat)
    requires i <= n <= |t|
    ensures SizeTo(kind, t, i) <= SizeTo(kind, t, n)
  {
    if i < n {
      SizeMonotone(kind, t, i, n - 1);
    }
  }

  /** Where a writer stands after the first i records: the buffer starts with the header and the
      entries es, and the cursor is where the sizing pass says. */
  ghost predicate Writing(buf: seq<Byte>, h: Header, kind: nat, w: World, t: Table, i: nat, pos: nat, es: seq<Entry>) {
    && i <= |t|
    && pos == HEADER_SIZE + SizeTo(kind, t, i) <= |buf|
    && buf[..pos] == HeaderBytes(h) + PayloadBytes(kind, es)
    && Carries(kind, w, ChosenTo(kind, t, i), es)
  }

  lemma WriteSkip(buf: seq<Byte>, h: Header, kind: nat, w: World, t: Table, i: nat, pos: nat, es: seq<Entry>)
    requires Writing(buf, h, kind, w, t, i, pos, es) && i < |t| && !Selects(kind, t[i])
    ensures Writing(buf, h, kind, w, t, i + 1, pos, es)
  {
  }

  lemma WriteNext(buf: seq<Byte>, buf': seq<Byte>, h: Header, kind: nat, w: World, t: Table, i: nat, pos: nat,
                  es: seq<Entry>, e: Entry, next: nat)
    requires Writing(buf, h, kind, w, t, i, pos, es) && i < |t| && Selects(kind, t[i])
    requires CarriesAt(kind, w, t[i], e)
    requires next == pos + SizeFor(kind, t[i]) <= |buf'| && buf'[..next] == buf[..pos] + EntryBytes(kind, e)
    ensures Writing(buf', h, kind, w, t, i + 1, next, es + [e])
  {
    PayloadExtend(kind, es, e);
  }

  /** A finished buffer is a whole message: the cursor has come exactly to its end. */
  lemma WriteDone(buf: seq<Byte>, kind: nat, w: World, t: Table, pos: nat, es: seq<Entry>)
    requires Writing(buf, SizedHeader(kind, t), kind, w, t, |t|, pos, es)
    requires |buf| == HEADER_SIZE + SizeTo(kind, t, |t|)
    ensures buf == Message(kind, es) && Carries(kind, w, Chosen(kind, t), es)
    ensures SizedHeader(kind, t) == Header(kind, |PayloadBytes(kind, es)|, |es|)
  {
    assert buf[..pos] == buf;
    var h, p := HeaderBytes(SizedHeader(kind, t)), PayloadBytes(kind, es);
    assert |h + p| == |h| + |p|;
    assert |p| == SizeTo(kind, t, |t|);
  }

  /** malloc, and the header copied to the front. */
  method NewMessage(h: Header, ghost kind: nat, ghost w: World, ghost t: Table) returns (buf: array<Byte>)
    requires h == SizedHeader(kind, t)
    ensures fresh(buf) && buf.Length == HEADER_SIZE + h.totalSize
    ensures Writing(buf[..], h, kind, w, t, 0, HEADER_SIZE, [])
  {
    buf := new Byte[HEADER_SIZE + h.totalSize];
    var next := Put(buf, 0, HeaderBytes(h));
    assert buf[..0] == [];
    assert buf[..next] == HeaderBytes(h);
    assert buf[..][..next] == buf[..next];
    assert HeaderBytes(h) + [] == HeaderBytes(h);
  }

  method PutHead(cur: FileEntry, buf: array<Byte>, pos: nat) returns (next: nat)
    requires pos + 2 * LONG_SIZE + |cur.path| + 1 <= buf.Length
    modifies buf
    ensures next == pos + 2 * LONG_SIZE + |cur.path| + 1
    ensures buf[..next] == old(buf[..pos])
      + (Encode(|cur.path| + 1, LONG_SIZE) + Encode(cur.dataSize, LONG_SIZE) + (cur.path + [NUL]))
  {
    ghost var pre, a, b, c := buf[..pos], Encode(|cur.path| + 1, LONG_SIZE), Encode(cur.dataSize, LONG_SIZE), cur.path + [NUL];
    next := Put(buf, pos, Encode(|cur.path| + 1, LONG_SIZE));
    next := Put(buf, next, Encode(cur.dataSize, LONG_SIZE));
    assert buf[..next] == pre + a + b;
    next := Put(buf, next, cur.path + [NUL]);
    assert pre + a + b + c == pre + (a + b + c);
  }

  method WriteData(cur: FileEntry, w: World, buf: array<Byte>, pos: nat) returns (next: nat, ghost e: Entry)
    requires cur.path in w.files && pos + SizeFor(DATA, cur.Rec().(state := 1)) <= buf.Length
    modifies buf
    ensures next == pos + SizeFor(DATA, cur.Rec().(state := 1))
    ensures buf[..next] == old(buf[..pos]) + EntryBytes(DATA, e)
    ensures CarriesAt(DATA, w, cur.Rec(), e)
  {
    ghost var pre := buf[..pos];
    next := PutHead(cur, buf, pos);
    ghost var c := ReadFile(buf, next, cur.dataSize, w.files[cur.path].data);
    next := next + cur.dataSize;
    e := Entry(cur.path, c);
    DataBytes(pre, e);
  }

  lemma DataBytes(pre: seq<Byte>, e: Entry)
    ensures pre + (Encode(|e.path| + 1, LONG_SIZE) + Encode(|e.payload|, LONG_SIZE) + (e.path + [NUL])) + e.payload
            == pre + EntryBytes(DATA, e)
  {
  }

  method WriteRequest(cur: FileEntry, ghost w: World, buf: array<Byte>, pos: nat) returns (next: nat, ghost e: Entry)
    requires pos + SizeFor(REQUEST, cur.Rec().(state := 1)) <= buf.Length
    modifies buf
    ensures next == pos + SizeFor(REQUEST, cur.Rec().(state := 1))
    ensures buf[..next] == old(buf[..pos]) + EntryBytes(REQUEST, e)
    ensures CarriesAt(REQUEST, w, cur.Rec(), e)
  {
    e := Entry(cur.path, []);
    next := PutPath(buf, pos, cur.path);
  }

  method WriteList(cur: FileEntry, ghost w: World, buf: array<Byte>, pos: nat) returns (next: nat, ghost e: Entry)
    requires pos + SizeFor(LIST, cur.Rec()) <= buf.Length
    modifies buf
    ensures next == pos + SizeFor(LIST, cur.Rec())
    ensures buf[..next] == old(buf[..pos]) + EntryBytes(LIST, e)
    ensures CarriesAt(LIST, w, cur.Rec(), e)
  {
    e := Entry(cur.path, cur.checkSum);
    next := PutPath(buf, pos, cur.path);
    next := Put(buf, next, cur.checkSum);
  }

  /** One turn of a writer's loop in a message of type kind. */
  method WriteEntry(kind: nat, cur: FileEntry, w: World, b: array<Byte>, pos: nat,
                    ghost t: Table, ghost i: nat, ghost es: seq<Entry>)
    returns (next: nat, ghost es': seq<Entry>)
    requires kind in {LIST, REQUEST, DATA} && i < |t| && t[i] == cur.Rec()
    requires b.Length == HEADER_SIZE + SizeTo(kind, t, |t|)
    requires kind == DATA && cur.state == 1 ==> cur.path in w.files
    requires Writing(b[..], SizedHeader(kind, t), kind, w, t, i, pos, es)
    modifies b
    ensures Writing(b[..], SizedHeader(kind, t), kind, w, t, i + 1, next, es')
  {
    ghost var b0 := b[..];
    ghost var e;
    SizeMonotone(kind, t, i + 1, |t|);
    next, es' := pos, es;
    if kind == LIST {
      next, e := WriteList(cur, w, b, pos);
    } else if cur.state == 1 {
      if kind == REQUEST {
        next, e := WriteRequest(cur, w, b, pos);
      } else {
        next, e := WriteData(cur, w, b, pos);
      }
    } else {
      WriteSkip(b0, SizedHeader(kind, t), kind, w, t, i, pos, es);
      return;
    }
    WriteNext(b0, b[..], SizedHeader(kind, t), kind, w, t, i, pos, es, e, next);
    es' := es + [e];
  }

  /** The loop shared by the three writers. */
  method WriteAll(kind: nat, fl: FileList, w: World, header: TransferHeader) returns (b: array<Byte>, ghost es: seq<Entry>)
    requires fl.Valid() && kind in {LIST, REQUEST, DATA}
    requires header.Value() == SizedHeader(kind, fl.Contents())
    requires kind == DATA ==> Openable(fl.Contents(), w)
    ensures fresh(b) && b[..] == Message(kind, es)
    ensures Carries(kind, w, Chosen(kind, fl.Contents()), es)
    ensures header.Value() == Header(kind, |PayloadBytes(kind, es)|, |es|)
  {
    es := [];
    ghost var i, t := 0, fl.Contents();
    b := NewMessage(header.Value(), kind, w, t);
    var pos := HEADER_SIZE;
    var cur := fl.head;
    while cur != null
      invariant 0 <= i <= |t| && cur == At(fl.items, i)
      invariant Writing(b[..], SizedHeader(kind, t), kind, w, t, i, pos, es)
      decreases |t| - i
    {
      fl.LinksAt(i);
      pos, es := WriteEntry(kind, cur, w, b, pos, t, i, es);
      cur := cur.next;
      i := i + 1;
    }
    WriteDone(b[..], kind, w, t, pos, es);
  }

  /** Every marked file can be opened. */
  ghost predicate Openable(t: Table, w: World) {
    forall i :: 0 <= i < |t| && t[i].state == 1 ==> t[i].path in w.files
  }

  /** file_serialized: nothing for an empty list; otherwise the contents of every marked file, in list
      order. The caller has sized the message, and every marked file can be opened. */
  method FileSerialized(fl: FileList, w: World, header: TransferHeader) returns (buf: array?<Byte>, ghost es: seq<Entry>)
    requires fl.Valid()
    requires header.Value() == SizedHeader(DATA, fl.Contents()) && Openable(fl.Contents(), w)
    ensures buf == null <==> fl.Contents() == []
    ensures buf != null ==> fresh(buf) && buf[..] == Message(DATA, es)
    ensures Carries(DATA, w, Chosen(DATA, fl.Contents()), es)
    ensures buf != null ==> header.Value() == Header(DATA, |PayloadBytes(DATA, es)|, |es|)
  {
    es := [];
    buf := null;
    if fl.head != null {
      buf, es := WriteAll(DATA, fl, w, header);
    }
  }

  /** file_path_serialized: the marked paths. */
  method FilePathSerialized(fl: FileList, w: World, header: TransferHeader)
    returns (buf: array?<Byte>, ghost es: seq<Entry>)
    requires fl.Valid() && header.Value() == SizedHeader(REQUEST, fl.Contents())
    ensures buf == null <==> fl.Contents() == []
    ensures buf != null ==> fresh(buf) && buf[..] == Message(REQUEST, es)
    ensures Carries(REQUEST, w, Chosen(REQUEST, fl.Contents()), es)
    ensures buf != null ==> header.Value() == Header(REQUEST, |PayloadBytes(REQUEST, es)|, |es|)
  {
    es := [];
    buf := null;
    if fl.head != null {
      buf, es := WriteAll(REQUEST, fl, w, header);
    }
  }

  /** file_list_serialized: every path with its digest. */
  method FileListSerialized(fl: FileList, w: World, header: TransferHeader)
    returns (buf: array?<Byte>, ghost es: seq<Entry>)
    requires fl.Valid() && header.Value() == SizedHeader(LIST, fl.Contents())
    ensures buf == null <==> fl.Contents() == []
    ensures buf != null ==> fresh(buf) && buf[..] == Message(LIST, es)
    ensures Carries(LIST, w, Chosen(LIST, fl.Contents()), es)
    ensures buf != null ==> header.Value() == Header(LIST, |PayloadBytes(LIST, es)|, |es|)
  {
    es := [];
    buf := null;
    if fl.head != null {
      buf, es := WriteAll(LIST, fl, w, header);
    }
  }

  /** The writer of a type. */
  method Serialized(kind: nat, fl: FileList, w: World, header: TransferHeader) returns (buf: array?<Byte>, ghost es: seq<Entry>)
    requires fl.Valid() && kind in {LIST, REQUEST, DATA} && header.Value() == SizedHeader(kind, fl.Contents())
    requires kind == DATA ==> Openable(fl.Contents(), w)
    ensures buf == null <==> fl.Contents() == []
    ensures buf != null ==> fresh(buf) && buf[..] == Message(kind, es)
    ensures Carries(kind, w, Chosen(kind, fl.Contents()), es)
    ensures buf != null ==> header.Value() == Header(kind, |PayloadBytes(kind, es)|, |es|)
  {
    if kind == LIST {
      buf, es := FileListSerialized(fl, w, header);
    } else if kind == REQUEST {
      buf, es := FilePathSerialized(fl, w, header);
    } else {
      buf, es := FileSerialized(fl, w, header);
    }
  }

  /** The sizing pass followed by the writer of the same type. */
  method Compose(kind: nat, fl: FileList, w: World, ghost t: Table)
    returns (header: TransferHeader, buf: array?<Byte>, ghost es: seq<Entry>)
    requires fl.Valid() && fl.Contents() == t && kind in {LIST, REQUEST, DATA} && (kind == DATA ==> Openable(t, w))
    ensures fl.Valid() && fl.Contents() == t
    ensures fresh(header) && Carries(kind, w, Chosen(kind, t), es)
    ensures header.totalSize == SizeTo(kind, t, |t|) && header.fileCount == |Chosen(kind, t)|
    ensures buf == null <==> t == []
    ensures buf != null ==> buf[..] == Message(kind, es) && header.Value() == Header(kind, |PayloadBytes(kind, es)|, |es|)
  {
    header := new TransferHeader();
    UpdateHeaderSet(fl, header, kind);
    buf, es := Serialized(kind, fl, w, header);
  }
}
