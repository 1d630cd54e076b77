/** The message format: a 24-byte header followed by length-prefixed entries. Type 1 lists every path
    with its digest, type 2 names requested paths, type 3 carries file contents. */
module Wire {
  import opened Bytes
  import opened Wrappers

  const HEADER_SIZE: nat := 24
  const LONG_SIZE: nat := 8

  const LIST: nat := 1
  const REQUEST: nat := 2
  const DATA: nat := 3

  datatype Header = Header(dataType: nat, totalSize: nat, fileCount: nat)

  /** One entry. payload is the digest of a list entry, the contents of a data entry, and empty in a
      request. */
  datatype Entry = Entry(path: Path, payload: seq<Byte>)

  function Pow256(n: nat): (r: nat)
    ensures r > 0
  {
    if n == 0 then 1 else 256 * Pow256(n - 1)
  }

  /** The n low-order bytes of v, least significant first. */
  function Encode(v: nat, n: nat): (s: seq<Byte>)
    ensures |s| == n
  {
    if n == 0 then [] else [v % 256] + Encode(v / 256, n - 1)
  }

  /** The number stored in n bytes at position i. */
  function Decode(s: seq<Byte>, i: nat, n: nat): nat
    requires i + n <= |s|
    decreases n, s
  {
    if n == 0 then 0 else s[i] + 256 * Decode(s, i + 1, n - 1)
  }

  lemma {:induction false} EncodeDecode(v: nat, n: nat, s: seq<Byte>, i: nat)
    requires v < Pow256(n) && i + n <= |s| && s[i..i + n] == Encode(v, n)
    ensures Decode(s, i, n) == v
  {
    if n > 0 {
      assert s[i] == s[i..i + n][0];
      assert s[i + 1..i + n] == s[i..i + n][1..];
      EncodeDecode(v / 256, n - 1, s, i + 1);
    }
  }

  lemma DivDiv(v: nat, a: nat)
    requires a > 0
    ensures v / 256 / a == v / (256 * a)
  {
    var q, r := v / (256 * a), v % (256 * a);
    assert v == 256 * (a * q) + r && r < 256 * a;
    assert v / 256 == a * q + r / 256;
    DivSum(a, q, r / 256);
  }

  lemma DivSum(a: nat, q: nat, r: nat)
    requires r < a
    ensures (a * q + r) / a == q
  {
    var d := (a * q + r) / a;
    MulMonotone(a, d + 1, q);
    MulMonotone(a, q + 1, d);
  }

  lemma MulMonotone(a: nat, b: nat, c: nat)
    ensures b <= c ==> a * b <= a * c
  {
  }

  /** Little-endian: byte k counts multiples of 256 to the k. */
  lemma {:induction false} EncodeAt(v: nat, n: nat, k: nat)
    requires k < n
    ensures Encode(v, n)[k] == v / Pow256(k) % 256
  {
    if k > 0 {
      EncodeAt(v / 256, n - 1, k - 1);
      DivDiv(v, Pow256(k - 1));
    }
  }

  const ULONG_BOUND: nat := 0x1_0000_0000_0000_0000
  const INT_BOUND: nat := 0x8000_0000

  lemma Widths()
    ensures Pow256(8) == ULONG_BOUND && Pow256(4) == 0x1_0000_0000
  {
    assert Pow256(2) == 256 * 256;
    assert Pow256(4) == 256 * (256 * Pow256(2));
    assert Pow256(6) == 256 * (256 * Pow256(4));
  }

  /** The header as it lies in memory: int, padding, unsigned long, int, padding. */
  function HeaderBytes(h: Header): (s: seq<Byte>)
    ensures |s| == HEADER_SIZE
  {
    Encode(h.dataType, 4) + [0, 0, 0, 0] + Encode(h.totalSize, 8) + Encode(h.fileCount, 4) + [0, 0, 0, 0]
  }

  function ReadHeader(s: seq<Byte>): Header
    requires |s| >= HEADER_SIZE
  {
    Header(Decode(s, 0, 4), Decode(s, 8, 8), Decode(s, 16, 4))
  }

  /** The header fields are in the range of their C types. */
  predicate HeaderFits(h: Header) {
    h.dataType < INT_BOUND && h.totalSize < ULONG_BOUND && h.fileCount < INT_BOUND
  }

  lemma HeaderRoundTrip(h: Header, s: seq<Byte>)
    requires HeaderFits(h) && |s| >= HEADER_SIZE && s[..HEADER_SIZE] == HeaderBytes(h)
    ensures ReadHeader(s) == h
  {
    Widths();
    var b := HeaderBytes(h);
    assert s[0..4] == b[0..4] == Encode(h.dataType, 4);
    assert s[8..16] == b[8..16] == Encode(h.totalSize, 8);
    assert s[16..20] == b[16..20] == Encode(h.fileCount, 4);
    EncodeDecode(h.dataType, 4, s, 0);
    EncodeDecode(h.totalSize, 8, s, 8);
    EncodeDecode(h.fileCount, 4, s, 16);
  }

  /** Where the header fields lie in the first 24 bytes of a message. */
  lemma HeaderLayout(h: Header)
    ensures var s := HeaderBytes(h);
      && |s| == 24
      && (forall k :: 0 <= k < 4 ==> s[k] == h.dataType / Pow256(k) % 256)
      && (forall k :: 0 <= k < 8 ==> s[8 + k] == h.totalSize / Pow256(k) % 256)
      && (forall k :: 0 <= k < 4 ==> s[16 + k] == h.fileCount / Pow256(k) % 256)
      && s[4..8] == s[20..24] == [0, 0, 0, 0]
  {
    var s := HeaderBytes(h);
    assert s[0..4] == Encode(h.dataType, 4) && s[8..16] == Encode(h.totalSize, 8) && s[16..20] == Encode(h.fileCount, 4);
    forall k | 0 <= k < 4
      ensures s[k] == h.dataType / Pow256(k) % 256 && s[16 + k] == h.fileCount / Pow256(k) % 256
    {
      EncodeAt(h.dataType, 4, k);
      EncodeAt(h.fileCount, 4, k);
      assert s[k] == s[0..4][k] && s[16 + k] == s[16..20][k];
    }
    forall k | 0 <= k < 8
      ensures s[8 + k] == h.totalSize / Pow256(k) % 256
    {
      EncodeAt(h.totalSize, 8, k);
      assert s[8 + k] == s[8..16][k];
    }
  }

  /** The bytes of one entry in a message of type kind. */
  function EntryBytes(kind: nat, e: Entry): (s: seq<Byte>)
    ensures |s| == EntrySize(kind, |e.path|, |e.payload|)
  {
    Encode(|e.path| + 1, LONG_SIZE) + (if kind == DATA then Encode(|e.payload|, LONG_SIZE) else [])
    + (e.path + [NUL]) + e.payload
  }

  function EntrySize(kind: nat, pathLen: nat, payloadLen: nat): nat {
    LONG_SIZE + (if kind == DATA then LONG_SIZE else 0) + pathLen + 1 + payloadLen
  }

  function EntriesBytes(kind: nat, es: seq<Entry>, n: nat): seq<Byte>
    requires n <= |es|
  {
    if n == 0 then [] else EntriesBytes(kind, es, n - 1) + EntryBytes(kind, es[n - 1])
  }

  function PayloadBytes(kind: nat, es: seq<Entry>): seq<Byte> {
    EntriesBytes(kind, es, |es|)
  }

  /** A whole uncompressed message. */
  function Message(kind: nat, es: seq<Entry>): seq<Byte> {
    HeaderBytes(Header(kind, |PayloadBytes(kind, es)|, |es|)) + PayloadBytes(kind, es)
  }

  /** What snprintf with a buffer of the given size keeps of the string from i to its NUL at k. */
  function Clip(s: seq<Byte>, i: nat, k: nat, size: nat): Path
    requires i <= k <= |s|
  {
    if size == 0 then [] else if k - i < size then s[i..k] else s[i..i + size - 1]
  }

  /** Reads one entry at pos and says where the next one starts. It fails where the program would read
      past its buffer, overrun its path buffer or look for a directory part that is not there. */
  function ReadEntry(kind: nat, s: seq<Byte>, pos: nat): (r: Option<(Entry, nat)>)
    ensures r.Some? ==> pos < r.value.1 <= |s|
  {
    var at := pos + (if kind == DATA then 2 * LONG_SIZE else LONG_SIZE);
    if at > |s| then None else
    ReadBody(kind, s, at, Decode(s, pos, LONG_SIZE), ReadSize(kind, s, pos))
  }

  /** The length of the payload of the entry at pos. */
  function ReadSize(kind: nat, s: seq<Byte>, pos: nat): nat
    requires kind == DATA ==> pos + 2 * LONG_SIZE <= |s|
  {
    if kind == LIST then DIGEST_LENGTH else if kind == DATA then Decode(s, pos + LONG_SIZE, LONG_SIZE) else 0
  }

  /** The part of an entry after its lengths. */
  function ReadBody(kind: nat, s: seq<Byte>, at: nat, pathSize: nat, size: nat): (r: Option<(Entry, nat)>)
    requires at <= |s|
    ensures r.Some? ==> at <= r.value.1 <= |s|
  {
    var k := Skip(s, {NUL}, false, at);
    if k == |s| || at + pathSize + size > |s| then None else
    var path := Clip(s, at, k, if kind == DATA then MAX_LENGTH else pathSize);
    if |path| >= MAX_LENGTH || (kind == DATA && SLASH !in path) then None else
    Some((Entry(path, s[at + pathSize..at + pathSize + size]), at + pathSize + size))
  }

  type Reader = nat -> Option<(Entry, nat)>

  /** Reads count entries in a row from pos on. */
  function ReadAll(read: Reader, pos: nat, count: nat): Option<seq<Entry>>
    decreases count
  {
    if count == 0 then Some([]) else
    match read(pos)
    case None => None
    case Some((e, next)) =>
      match ReadAll(read, next, count - 1)
      case None => None
      case Some(es) => Some([e] + es)
  }

  function ReadEntries(kind: nat, s: seq<Byte>, pos: nat, count: nat): Option<seq<Entry>> {
    ReadAll(p => ReadEntry(kind, s, p), pos, count)
  }

  lemma {:induction false} ReadAllIs(read: Reader, es: seq<Entry>, offset: seq<nat>, n: nat)
    requires n <= |es| && |offset| == |es| + 1
    requires forall i :: 0 <= i < |es| ==> read(offset[i]) == Some((es[i], offset[i + 1]))
    ensures ReadAll(read, offset[n], |es| - n) == Some(es[n..])
    decreases |es| - n
  {
    if n < |es| {
      ReadAllIs(read, es, offset, n + 1);
      assert es[n..] == [es[n]] + es[n + 1..];
    }
  }

  /** An entry the writers can produce. */
  predicate EntryFits(kind: nat, e: Entry) {
    && GoodPath(e.path)
    && (if kind == LIST then |e.payload| == DIGEST_LENGTH
        else if kind == REQUEST then e.payload == []
        else |e.payload| < ULONG_BOUND)
  }

  /** The bytes b lie in s at position pos. */
  predicate LiesAt(s: seq<Byte>, pos: nat, b: seq<Byte>) {
    pos + |b| <= |s| && s[pos..pos + |b|] == b
  }

  lemma LiesSplit(s: seq<Byte>, pos: nat, a: seq<Byte>, b: seq<Byte>)
    ensures LiesAt(s, pos, a + b) <==> LiesAt(s, pos, a) && LiesAt(s, pos + |a|, b)
  {
    if pos + |a| + |b| <= |s| {
      var w := s[pos..pos + |a| + |b|];
      assert w == s[pos..pos + |a|] + s[pos + |a|..pos + |a| + |b|];
      assert (a + b)[..|a|] == a && (a + b)[|a|..] == b;
      assert w[..|a|] == s[pos..pos + |a|] && w[|a|..] == s[pos + |a|..pos + |a| + |b|];
    }
  }

  lemma NumberAt(s: seq<Byte>, pos: nat, v: nat)
    requires v < ULONG_BOUND && LiesAt(s, pos, Encode(v, LONG_SIZE))
    ensures Decode(s, pos, LONG_SIZE) == v
  {
    Widths();
    EncodeDecode(v, LONG_SIZE, s, pos);
  }

  lemma PathAt(s: seq<Byte>, at: nat, p: Path)
    requires NUL !in p && LiesAt(s, at, p + [NUL])
    ensures Skip(s, {NUL}, false, at) == at + |p| < |s| && s[at..at + |p|] == p
  {
    LiesSplit(s, at, p, [NUL]);
    assert s[at + |p|] == s[at + |p|..at + |p| + 1][0];
    assert forall j :: at <= j < at + |p| ==> s[j] == s[at..at + |p|][j - at];
    SkipIs(s, {NUL}, false, at, at + |p|);
  }

  function SizeBytes(kind: nat, e: Entry): seq<Byte> {
    if kind == DATA then Encode(|e.payload|, LONG_SIZE) else []
  }

  /** Where the four parts of an entry lie. */
  lemma EntryParts(kind: nat, e: Entry, s: seq<Byte>, pos: nat)
    requires LiesAt(s, pos, EntryBytes(kind, e))
    ensures var at := pos + LONG_SIZE + |SizeBytes(kind, e)|;
      && LiesAt(s, pos, Encode(|e.path| + 1, LONG_SIZE))
      && LiesAt(s, pos + LONG_SIZE, SizeBytes(kind, e))
      && LiesAt(s, at, e.path + [NUL])
      && LiesAt(s, at + |e.path| + 1, e.payload)
  {
    var a, b, c := Encode(|e.path| + 1, LONG_SIZE), SizeBytes(kind, e), e.path + [NUL];
    LiesSplit(s, pos, a + b + c, e.payload);
    LiesSplit(s, pos, a + b, c);
    LiesSplit(s, pos, a, b);
  }

  /** The path and the payload of an entry are read back, given its lengths. */
  lemma BodyRoundTrip(kind: nat, e: Entry, s: seq<Byte>, at: nat)
    requires EntryFits(kind, e)
    requires LiesAt(s, at, e.path + [NUL]) && LiesAt(s, at + |e.path| + 1, e.payload)
    ensures ReadBody(kind, s, at, |e.path| + 1, |e.payload|) == Some((e, at + |e.path| + 1 + |e.payload|))
  {
    PathAt(s, at, e.path);
  }

  /** The lengths of an entry are read back. */
  lemma SizesRoundTrip(kind: nat, e: Entry, s: seq<Byte>, pos: nat)
    requires kind in {LIST, REQUEST, DATA} && EntryFits(kind, e)
    requires LiesAt(s, pos, Encode(|e.path| + 1, LONG_SIZE)) && LiesAt(s, pos + LONG_SIZE, SizeBytes(kind, e))
    ensures Decode(s, pos, LONG_SIZE) == |e.path| + 1
    ensures ReadSize(kind, s, pos) == |e.payload|
  {
    NumberAt(s, pos, |e.path| + 1);
    if kind == DATA {
      NumberAt(s, pos + LONG_SIZE, |e.payload|);
    }
  }

  lemma PartsRoundTrip(kind: nat, e: Entry, s: seq<Byte>, pos: nat, at: nat)
    requires kind in {LIST, REQUEST, DATA} && EntryFits(kind, e)
    requires at == pos + (if kind == DATA then 2 * LONG_SIZE else LONG_SIZE) <= |s|
    requires Decode(s, pos, LONG_SIZE) == |e.path| + 1 && ReadSize(kind, s, pos) == |e.payload|
    requires LiesAt(s, at, e.path + [NUL]) && LiesAt(s, at + |e.path| + 1, e.payload)
    ensures ReadEntry(kind, s, pos) == Some((e, at + |e.path| + 1 + |e.payload|))
  {
    BodyRoundTrip(kind, e, s, at);
  }

  /** Reading back one entry, wherever it lies in the buffer. */
  lemma EntryRoundTrip(kind: nat, e: Entry, s: seq<Byte>, pos: nat)
    requires kind in {LIST, REQUEST, DATA} && EntryFits(kind, e)
    requires LiesAt(s, pos, EntryBytes(kind, e))
    ensures ReadEntry(kind, s, pos) == Some((e, pos + |EntryBytes(kind, e)|))
  {
    EntryParts(kind, e, s, pos);
    SizesRoundTrip(kind, e, s, pos);
    PartsRoundTrip(kind, e, s, pos, pos + LONG_SIZE + |SizeBytes(kind, e)|);
  }

  lemma {:induction false} EntriesLie(kind: nat, es: seq<Entry>, n: nat, m: nat)
    requires n < m <= |es|
    ensures LiesAt(EntriesBytes(kind, es, m), |EntriesBytes(kind, es, n)|, EntryBytes(kind, es[n]))
  {
    var a, b := EntriesBytes(kind, es, m - 1), EntryBytes(kind, es[m - 1]);
    if n + 1 < m {
      EntriesLie(kind, es, n, m - 1);
      var pos, e := |EntriesBytes(kind, es, n)|, EntryBytes(kind, es[n]);
      assert (a + b)[pos..pos + |e|] == a[pos..pos + |e|];
    } else {
      assert (a + b)[|a|..|a| + |b|] == b;
    }
  }

  /** s holds the entries of es one after the other, starting at the given offsets. */
  ghost predicate Holds(kind: nat, es: seq<Entry>, s: seq<Byte>, offset: seq<nat>) {
    && |offset| == |es| + 1
    && forall i :: 0 <= i < |es| ==>
         LiesAt(s, offset[i], EntryBytes(kind, es[i])) && offset[i + 1] == offset[i] + |EntryBytes(kind, es[i])|
  }

  /** Where each entry starts, and where the last one ends. */
  function Offsets(kind: nat, es: seq<Entry>, n: nat): (r: seq<nat>)
    requires n <= |es|
    ensures |r| == n + 1
    ensures forall i :: 0 <= i <= n ==> r[i] == |EntriesBytes(kind, es, i)|
  {
    (if n == 0 then [] else Offsets(kind, es, n - 1)) + [|EntriesBytes(kind, es, n)|]
  }

  lemma PayloadHoldsAt(kind: nat, es: seq<Entry>, i: nat)
    requires i < |es|
    ensures LiesAt(PayloadBytes(kind, es), |EntriesBytes(kind, es, i)|, EntryBytes(kind, es[i]))
    ensures |EntriesBytes(kind, es, i + 1)| == |EntriesBytes(kind, es, i)| + |EntryBytes(kind, es[i])|
  {
    EntriesLie(kind, es, i, |es|);
  }

  lemma PayloadHolds(kind: nat, es: seq<Entry>)
    ensures Holds(kind, es, PayloadBytes(kind, es), Offsets(kind, es, |es|))
  {
    var s, offset := PayloadBytes(kind, es), Offsets(kind, es, |es|);
    forall i | 0 <= i < |es|
      ensures LiesAt(s, offset[i], EntryBytes(kind, es[i])) && offset[i + 1] == offset[i] + |EntryBytes(kind, es[i])|
    {
      PayloadHoldsAt(kind, es, i);
    }
  }

  /** Mentioning Peek brings the contents of Reads into a proof. */
  ghost predicate Peek(k: int) {
    true
  }

  /** The reader finds e at pos and goes on at next. */
  ghost predicate Reads(kind: nat, s: seq<Byte>, pos: nat, e: Entry, next: nat) {
    forall k {:trigger Peek(k)} :: Peek(k) ==> ReadEntry(kind, s, pos) == Some((e, next))
  }

  lemma HeldEntry(kind: nat, e: Entry, s: seq<Byte>, pos: nat, next: nat)
    requires kind in {LIST, REQUEST, DATA} && EntryFits(kind, e)
    requires LiesAt(s, pos, EntryBytes(kind, e)) && next == pos + |EntryBytes(kind, e)|
    ensures Reads(kind, s, pos, e, next)
  {
    EntryRoundTrip(kind, e, s, pos);
  }

  lemma HeldEntries(kind: nat, es: seq<Entry>, s: seq<Byte>, offset: seq<nat>)
    requires kind in {LIST, REQUEST, DATA} && Holds(kind, es, s, offset)
    requires forall i :: 0 <= i < |es| ==> EntryFits(kind, es[i])
    ensures forall i :: 0 <= i < |es| ==> Reads(kind, s, offset[i], es[i], offset[i + 1])
  {
    forall i | 0 <= i < |es|
      ensures Reads(kind, s, offset[i], es[i], offset[i + 1])
    {
      HeldEntry(kind, es[i], s, offset[i], offset[i + 1]);
    }
  }

  lemma ReadsAll(kind: nat, es: seq<Entry>, s: seq<Byte>, offset: seq<nat>)
    requires |offset| == |es| + 1
    requires forall i :: 0 <= i < |es| ==> Reads(kind, s, offset[i], es[i], offset[i + 1])
    ensures ReadEntries(kind, s, offset[0], |es|) == Some(es)
  {
    assert Peek(0);
    ReadAllIs(p => ReadEntry(kind, s, p), es, offset, 0);
    assert es[0..] == es;
  }

  /** A buffer that holds the entries is read back as those entries. */
  lemma HeldRoundTrip(kind: nat, es: seq<Entry>, s: seq<Byte>, offset: seq<nat>)
    requires kind in {LIST, REQUEST, DATA} && Holds(kind, es, s, offset)
    requires forall i :: 0 <= i < |es| ==> EntryFits(kind, es[i])
    ensures ReadEntries(kind, s, offset[0], |es|) == Some(es)
  {
    HeldEntries(kind, es, s, offset);
    ReadsAll(kind, es, s, offset);
  }

  /** What was written is what is read: the same paths with the same payloads, in order. */
  lemma PayloadRoundTrip(kind: nat, es: seq<Entry>)
    requires kind in {LIST, REQUEST, DATA}
    requires forall i :: 0 <= i < |es| ==> EntryFits(kind, es[i])
    ensures ReadEntries(kind, PayloadBytes(kind, es), 0, |es|) == Some(es)
  {
    PayloadHolds(kind, es);
    HeldRoundTrip(kind, es, PayloadBytes(kind, es), Offsets(kind, es, |es|));
  }
}
