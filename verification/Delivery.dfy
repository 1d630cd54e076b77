/** From a table on one machine to the files of another: what a message delivers. */
module Delivery {
  import opened Bytes
  import opened Wrappers
  import opened Records
  import opened Environment
  import opened Wire
  import opened Serialize
  import opened Deserialize
  import opened Compress

  /** The codec keeps its promises, and no counter overflows, up to the given payload size. */
  ghost predicate CodecOk(c: Codec, limit: nat) {
    forall x: seq<Byte> {:trigger Sizes(c, x)} :: 0 < |x| <= limit ==> Sizes(c, x) && Sound(c, x)
  }

  ghost predicate AllFit(kind: nat, es: seq<Entry>) {
    forall i :: 0 <= i < |es| ==> EntryFits(kind, es[i])
  }

  /** The message of type kind that carries es. */
  function Sealed(c: Codec, kind: nat, es: seq<Entry>): seq<Byte> {
    Packed(c, kind, |es|, PayloadBytes(kind, es))
  }

  /** What a receiver gets out of a message. */
  function Opening(c: Codec, msg: seq<Byte>, junk: seq<Byte>): Option<(nat, seq<Entry>)> {
    match Unpacked(c, msg, junk)
    case None => None
    case Some(r) =>
      match ReadEntries(r.kind, r.payload, 0, r.count)
      case None => None
      case Some(es) => Some((r.kind, es))
  }

  lemma UnpackedOnly(c: Codec, kind: nat, count: nat, payload: seq<Byte>, junk: seq<Byte>)
    requires kind in {LIST, REQUEST, DATA} && count < INT_BOUND && Sizes(c, payload) && Sound(c, payload)
    ensures |junk| == |payload| ==> Unpacked(c, Packed(c, kind, count, payload), junk) == Some(Received(kind, count, payload))
    ensures Unpacked(c, Packed(c, kind, count, payload), junk) in {None, Some(Received(kind, count, payload))}
  {
    if |junk| == |payload| {
      PackRoundTrip(c, kind, count, payload, junk);
    } else if |payload| > COMPRESS_BOUNDARY {
      InflateDeflate(c, payload, payload);
      PackedIs(c, kind, count, payload);
      var z := Deflated(c, payload);
      UnpackedIs(c, Header(kind + COMPRESS_TYPE, LONG_SIZE + |z|, count), Encode(|payload|, LONG_SIZE) + z, junk);
      SizeFirst(|payload|, z);
    } else {
      UnpackedIs(c, Header(kind, |payload|, count), payload, junk);
    }
  }

  /** A message of any type, compressed or not, opens to exactly the entries it was made from. */
  lemma SealedOpens(c: Codec, kind: nat, es: seq<Entry>, junk: seq<Byte>)
    requires kind in {LIST, REQUEST, DATA} && AllFit(kind, es) && |es| < INT_BOUND
    requires Sizes(c, PayloadBytes(kind, es)) && Sound(c, PayloadBytes(kind, es))
    ensures |junk| == |PayloadBytes(kind, es)| ==> Opening(c, Sealed(c, kind, es), junk) == Some((kind, es))
    ensures Opening(c, Sealed(c, kind, es), junk) in {None, Some((kind, es))}
  {
    UnpackedOnly(c, kind, |es|, PayloadBytes(kind, es), junk);
    PayloadRoundTrip(kind, es);
  }

  /** A message of type kind that can be read to its end. */
  ghost predicate Readable(c: Codec, kind: nat, msg: seq<Byte>) {
    && |msg| >= HEADER_SIZE && |msg| == HEADER_SIZE + ReadHeader(msg).totalSize > HEADER_SIZE
    && ReadHeader(msg).dataType in {kind, kind + COMPRESS_TYPE}
    && (ReadHeader(msg).dataType > COMPRESS_TYPE ==> ReadHeader(msg).totalSize >= LONG_SIZE)
    && forall junk :: Unpacked(c, msg, junk).Some? ==> Opening(c, msg, junk).Some?
  }

  lemma PackedIs(c: Codec, kind: nat, count: nat, payload: seq<Byte>)
    requires |payload| > COMPRESS_BOUNDARY
    ensures var z := Deflated(c, payload);
      Packed(c, kind, count, payload)
      == HeaderBytes(Header(kind + COMPRESS_TYPE, LONG_SIZE + |z|, count)) + (Encode(|payload|, LONG_SIZE) + z)
  {
  }

  lemma PackedHeader(c: Codec, kind: nat, count: nat, payload: seq<Byte>)
    requires kind in {LIST, REQUEST, DATA} && count < INT_BOUND && Sizes(c, payload) && Sound(c, payload)
    ensures var msg := Packed(c, kind, count, payload);
      && |msg| > HEADER_SIZE && |msg| == HEADER_SIZE + ReadHeader(msg).totalSize
      && ReadHeader(msg).dataType == (if |payload| > COMPRESS_BOUNDARY then kind + COMPRESS_TYPE else kind)
      && (|payload| > COMPRESS_BOUNDARY ==> ReadHeader(msg).totalSize >= LONG_SIZE)
  {
    if |payload| > COMPRESS_BOUNDARY {
      InflateDeflate(c, payload, payload);
      PackedIs(c, kind, count, payload);
      var z := Deflated(c, payload);
      HeaderFirst(Header(kind + COMPRESS_TYPE, LONG_SIZE + |z|, count), Encode(|payload|, LONG_SIZE) + z);
    } else {
      HeaderFirst(Header(kind, |payload|, count), payload);
    }
  }

  /** Everything the senders put on a connection is readable. */
  lemma SealedReadable(c: Codec, kind: nat, es: seq<Entry>)
    requires kind in {LIST, REQUEST, DATA} && AllFit(kind, es) && |es| < INT_BOUND
    requires Sizes(c, PayloadBytes(kind, es)) && Sound(c, PayloadBytes(kind, es))
    ensures Readable(c, kind, Sealed(c, kind, es))
  {
    PackedHeader(c, kind, |es|, PayloadBytes(kind, es));
    forall junk | Unpacked(c, Sealed(c, kind, es), junk).Some?
      ensures Opening(c, Sealed(c, kind, es), junk).Some?
    {
      UnpackedOnly(c, kind, |es|, PayloadBytes(kind, es), junk);
      PayloadRoundTrip(kind, es);
    }
  }

  lemma MessageParts(b: seq<Byte>, kind: nat, es: seq<Entry>)
    requires b == Message(kind, es)
    ensures b[..HEADER_SIZE] == HeaderBytes(Header(kind, |PayloadBytes(kind, es)|, |es|))
    ensures b[HEADER_SIZE..] == PayloadBytes(kind, es)
  {
  }

  method PackEntries(kind: nat, header: TransferHeader, buf: array<Byte>, c: Codec, ghost es: seq<Entry>)
    returns (msg: seq<Byte>)
    requires buf[..] == Message(kind, es) && header.Value() == Header(kind, |PayloadBytes(kind, es)|, |es|)
    modifies header
    ensures msg == Sealed(c, kind, es)
  {
    MessageParts(buf[..], kind, es);
    assert buf[..HEADER_SIZE] == buf[..][..HEADER_SIZE] && buf[HEADER_SIZE..] == buf[..][HEADER_SIZE..];
    msg := PackMessage(buf, header, c);
  }

  /** The lines every receiver goes through: header and payload, inflated if the type says so. */
  method ReceiveMessage(msg: seq<Byte>, c: Codec, ghost kind: nat)
    returns (dataType: nat, count: nat, payload: seq<Byte>, ghost junk: seq<Byte>)
    requires kind in {LIST, REQUEST, DATA} && Readable(c, kind, msg)
    ensures dataType == kind && Unpacked(c, msg, junk) == Some(Received(kind, count, payload))
    ensures Opening(c, msg, junk) == Some((kind, ReadEntries(kind, payload, 0, count).value))
    ensures ReadEntries(kind, payload, 0, count).Some?
  {
    var header := ReadHeader(msg);
    payload, count, dataType, junk := msg[HEADER_SIZE..], header.fileCount, header.dataType, [];
    if header.dataType > COMPRESS_TYPE {
      var out;
      out, junk := SerializedDataDecompress(payload, header, c);
      payload, dataType := out[..], dataType - COMPRESS_TYPE;
    }
    assert Opening(c, msg, junk).Some?;
  }

  ghost predicate IsTarget(dir: Option<Path>, es: seq<Entry>, n: nat, q: Path)
    requires n <= |es|
  {
    exists i :: 0 <= i < n && Target(dir, es[i].path) == q
  }

  /** Storing the first n entries touches those of their targets that can be opened, and nothing else: a
      file that cannot be opened stays as it is. */
  lemma {:induction false} StoreToElsewhere(files: FileSys, es: seq<Entry>, n: nat, dir: Option<Path>, host: Host, q: Path)
    requires n <= |es| && (!IsTarget(dir, es, n, q) || !host.canOpen(q))
    ensures q in StoreTo(files, es, n, dir, host) <==> q in files
    ensures q in files ==> StoreTo(files, es, n, dir, host)[q] == files[q]
  {
    if n > 0 {
      assert Target(dir, es[n - 1].path) != q || !host.canOpen(q);
      StoreToElsewhere(files, es, n - 1, dir, host, q);
    }
  }

  /** The last entry with a given target decides what is stored there. */
  lemma {:induction false} StoreToLast(files: FileSys, es: seq<Entry>, n: nat, dir: Option<Path>, host: Host, i: nat)
    requires i < n <= |es| && host.canOpen(Target(dir, es[i].path))
    requires forall j :: i < j < n ==> Target(dir, es[j].path) != Target(dir, es[i].path)
    ensures var q := Target(dir, es[i].path); var f := StoreTo(files, es, n, dir, host);
      q in f && f[q] == File(es[i].payload, host.now(q))
  {
    if i < n - 1 {
      StoreToLast(files, es, n - 1, dir, host, i);
    }
  }
}
