/** The compression wrapper: a message whose payload is longer than COMPRESS_BOUNDARY travels
    deflated, behind its original length, with its header rewritten. */
module Compress {
  import opened Bytes
  import opened Wrappers
  import opened Wire
  import opened Serialize

  const COMPRESS_TYPE: nat := 10
  const COMPRESS_BOUNDARY: nat := 100

  /** zlib: the compressed form of some bytes, its inverse, and compressBound. */
  datatype Codec = Codec(deflate: seq<Byte> -> seq<Byte>, inflate: seq<Byte> -> seq<Byte>, bound: nat -> nat)

  /** What zlib promises for the bytes x. */
  ghost predicate Sound(c: Codec, x: seq<Byte>) {
    |c.deflate(x)| <= c.bound(|x|) && c.inflate(c.deflate(x)) == x
  }

  function Take(s: seq<Byte>, n: nat): seq<Byte> {
    if n < |s| then s[..n] else s
  }

  /** The stream's counters are unsigned int: sizes reach it modulo 2^32. */
  function Deflated(c: Codec, payload: seq<Byte>): seq<Byte> {
    Take(c.deflate(payload[..|payload| % UINT_BOUND]), c.bound(|payload|) % UINT_BOUND)
  }

  /** The decompressed buffer: what the stream yields, over the malloc'd bytes junk. */
  function Inflated(c: Codec, z: seq<Byte>, junk: seq<Byte>): (r: seq<Byte>)
    ensures |r| == |junk|
  {
    var got := Take(c.inflate(z[..|z| % UINT_BOUND]), |junk| % UINT_BOUND);
    got + junk[|got|..]
  }

  /** serialized_data_compress. The new buffer may be longer than the message in it. */
  method SerializedDataCompress(buf: array<Byte>, header: TransferHeader, size: nat, c: Codec)
    returns (out: array<Byte>, total: nat)
    requires buf.Length == HEADER_SIZE + size
    modifies header
    ensures fresh(out) && total == LONG_SIZE + |Deflated(c, buf[HEADER_SIZE..])|
    ensures header.Value() == Header(old(header.dataType) + COMPRESS_TYPE, total, old(header.fileCount))
    ensures out.Length >= HEADER_SIZE + total
    ensures out[..HEADER_SIZE + total] ==
      HeaderBytes(header.Value()) + Encode(size, LONG_SIZE) + Deflated(c, buf[HEADER_SIZE..])
  {
    out := new Byte[c.bound(size) + HEADER_SIZE + LONG_SIZE];
    var z := Deflated(c, buf[HEADER_SIZE..]);
    header.dataType := header.dataType + COMPRESS_TYPE;
    header.totalSize := |z| + LONG_SIZE;
    var next := Put(out, 0, HeaderBytes(header.Value()));
    next := Put(out, next, Encode(size, LONG_SIZE));
    next := Put(out, next, z);
    total := |z| + LONG_SIZE;
  }

  /** serialized_data_decompress. */
  method SerializedDataDecompress(data: seq<Byte>, header: Header, c: Codec) returns (out: array<Byte>, ghost junk: seq<Byte>)
    requires |data| == header.totalSize >= LONG_SIZE
    ensures fresh(out) && |junk| == Decode(data, 0, LONG_SIZE)
    ensures out[..] == Inflated(c, data[LONG_SIZE..], junk)
  {
    var size := Decode(data, 0, LONG_SIZE);
    out := new Byte[size];
    junk := out[..];
    var z := data[LONG_SIZE..];
    var got := Take(c.inflate(z[..|z| % UINT_BOUND]), size % UINT_BOUND);
    var next := Put(out, 0, got);
    assert out[..] == out[..next] + out[next..];
  }

  /** A message as it is sent: compressed exactly if its payload is longer than the boundary. */
  function Packed(c: Codec, kind: nat, count: nat, payload: seq<Byte>): seq<Byte> {
    if |payload| > COMPRESS_BOUNDARY then
      var z := Deflated(c, payload);
      HeaderBytes(Header(kind + COMPRESS_TYPE, LONG_SIZE + |z|, count)) + Encode(|payload|, LONG_SIZE) + z
    else
      HeaderBytes(Header(kind, |payload|, count)) + payload
  }

  datatype Received = Received(kind: nat, count: nat, payload: seq<Byte>)

  /** A message as it is received: nothing if it is cut short or empty, which reads as a closed
      connection; otherwise inflated exactly if its type says so. */
  function Unpacked(c: Codec, msg: seq<Byte>, junk: seq<Byte>): Option<Received> {
    if |msg| < HEADER_SIZE then None else
    var h := ReadHeader(msg);
    if h.totalSize == 0 || |msg| != HEADER_SIZE + h.totalSize then None else
    Opened(c, h, msg[HEADER_SIZE..], junk)
  }

  function Opened(c: Codec, h: Header, body: seq<Byte>, junk: seq<Byte>): Option<Received> {
    if h.dataType <= COMPRESS_TYPE then Some(Received(h.dataType, h.fileCount, body)) else
    if |body| < LONG_SIZE || |junk| != Decode(body, 0, LONG_SIZE) then None else
    Some(Received(h.dataType - COMPRESS_TYPE, h.fileCount, Inflated(c, body[LONG_SIZE..], junk)))
  }

  /** The sizes stay within the counters of the stream and of the header. */
  predicate Sizes(c: Codec, payload: seq<Byte>) {
    0 < |payload| < UINT_BOUND && c.bound(|payload|) + LONG_SIZE < UINT_BOUND
  }

  lemma InflateDeflate(c: Codec, payload: seq<Byte>, junk: seq<Byte>)
    requires Sizes(c, payload) && Sound(c, payload) && |junk| == |payload|
    ensures Deflated(c, payload) == c.deflate(payload)
    ensures Inflated(c, Deflated(c, payload), junk) == payload
  {
    assert payload[..|payload|] == payload;
    var z := c.deflate(payload);
    assert z[..|z|] == z;
  }

  lemma HeaderFirst(h: Header, rest: seq<Byte>)
    requires HeaderFits(h)
    ensures ReadHeader(HeaderBytes(h) + rest) == h
    ensures (HeaderBytes(h) + rest)[HEADER_SIZE..] == rest
  {
    assert (HeaderBytes(h) + rest)[..HEADER_SIZE] == HeaderBytes(h);
    HeaderRoundTrip(h, HeaderBytes(h) + rest);
  }

  lemma SizeFirst(size: nat, z: seq<Byte>)
    requires size < ULONG_BOUND
    ensures var body := Encode(size, LONG_SIZE) + z; Decode(body, 0, LONG_SIZE) == size && body[LONG_SIZE..] == z
  {
    Widths();
    var body := Encode(size, LONG_SIZE) + z;
    assert body[0..LONG_SIZE] == Encode(size, LONG_SIZE);
    EncodeDecode(size, LONG_SIZE, body, 0);
  }

  lemma UnpackedIs(c: Codec, h: Header, body: seq<Byte>, junk: seq<Byte>)
    requires HeaderFits(h) && |body| == h.totalSize > 0
    ensures Unpacked(c, HeaderBytes(h) + body, junk) == Opened(c, h, body, junk)
  {
    HeaderFirst(h, body);
  }

  lemma OpenedIs(c: Codec, kind: nat, count: nat, payload: seq<Byte>, junk: seq<Byte>)
    requires Sizes(c, payload) && Sound(c, payload) && |junk| == |payload| && kind > 0
    ensures var z := Deflated(c, payload);
      Opened(c, Header(kind + COMPRESS_TYPE, LONG_SIZE + |z|, count), Encode(|payload|, LONG_SIZE) + z, junk)
      == Some(Received(kind, count, payload))
  {
    InflateDeflate(c, payload, junk);
    SizeFirst(|payload|, Deflated(c, payload));
  }

  /** Sender and receiver always agree on whether a message is compressed, and the receiver gets the
      type, the count and exactly the payload back, whatever its fresh buffer held. */
  lemma PackRoundTrip(c: Codec, kind: nat, count: nat, payload: seq<Byte>, junk: seq<Byte>)
    requires kind in {LIST, REQUEST, DATA} && count < INT_BOUND
    requires Sizes(c, payload) && Sound(c, payload) && |junk| == |payload|
    ensures Unpacked(c, Packed(c, kind, count, payload), junk) == Some(Received(kind, count, payload))
  {
    if |payload| > COMPRESS_BOUNDARY {
      OpenedIs(c, kind, count, payload, junk);
      InflateDeflate(c, payload, junk);
      var z := Deflated(c, payload);
      var h, rest := Header(kind + COMPRESS_TYPE, LONG_SIZE + |z|, count), Encode(|payload|, LONG_SIZE) + z;
      UnpackedIs(c, h, rest, junk);
      assert Packed(c, kind, count, payload) == HeaderBytes(h) + rest;
    } else {
      UnpackedIs(c, Header(kind, |payload|, count), payload, junk);
    }
  }

  /** The first need bytes of the compressed form of x are what the decompressor needs to yield all of x;
      behind them may come a trailer. */
  ghost predicate Needs(c: Codec, x: seq<Byte>, need: nat) {
    forall n: nat :: n <= |c.deflate(x)| ==> (x <= c.inflate(c.deflate(x)[..n]) <==> n >= need)
  }

  /** The receiver gets the payload back, whatever its fresh buffer held. */
  ghost predicate Restores(c: Codec, payload: seq<Byte>) {
    forall junk :: |junk| == |payload| ==> Inflated(c, Deflated(c, payload), junk) == payload
  }

  /** Where the stream yields less than the payload, the rest is what malloc returned. */
  lemma RestMatters(c: Codec, payload: seq<Byte>)
    requires var z := Deflated(c, payload);
      |Take(c.inflate(z[..|z| % UINT_BOUND]), |payload| % UINT_BOUND)| < |payload|
    ensures !Restores(c, payload)
  {
    var z := Deflated(c, payload);
    var n := |Take(c.inflate(z[..|z| % UINT_BOUND]), |payload| % UINT_BOUND)|;
    var other := if payload[n] == 0 then 1 else 0;
    var junk := payload[n := other];
    assert Inflated(c, z, junk)[n] == other;
  }

  /** Below 4 GiB the stream sees the whole payload, but has room for its bound modulo 2^32 only. */
  lemma RestoresBelow(c: Codec, payload: seq<Byte>, need: nat)
    requires |payload| < UINT_BOUND && Sound(c, payload) && Needs(c, payload, need)
    ensures Restores(c, payload) <==> need <= c.bound(|payload|) % UINT_BOUND
  {
    var z, x := Deflated(c, payload), payload[..|payload|];
    assert x == payload;
    var d := c.deflate(payload);
    assert d[..|d|] == d && z == d[..|z|] && z[..|z|] == z;
    var y := c.inflate(z);
    if payload <= y {
      assert Take(y, |payload|) == payload;
    } else if |y| < |payload| {
      RestMatters(c, payload);
    } else {
      assert Inflated(c, z, payload) == y[..|payload|];
    }
  }

  /** The exact limit of the wrapper: a payload survives if and only if it is shorter than 4 GiB, so that the
      stream sees all of it, and what the decompressor needs of its compressed form fits the room that
      compressBound leaves modulo 2^32. Just below 4 GiB the bound wraps around to almost nothing. */
  lemma RestoresExactly(c: Codec, payload: seq<Byte>, need: nat)
    requires |payload| < UINT_BOUND ==> Sound(c, payload) && Needs(c, payload, need)
    ensures Restores(c, payload) <==> |payload| < UINT_BOUND && need <= c.bound(|payload|) % UINT_BOUND
  {
    if |payload| < UINT_BOUND {
      RestoresBelow(c, payload, need);
    } else {
      RestMatters(c, payload);
    }
  }

  /** For a decompressor that yields nothing whole from a cut stream: the compressed form itself must fit. */
  lemma RestoresUncut(c: Codec, payload: seq<Byte>)
    requires |payload| < UINT_BOUND ==> Sound(c, payload)
    requires |payload| < UINT_BOUND ==>
      forall n: nat :: n < |c.deflate(payload)| ==> !(payload <= c.inflate(c.deflate(payload)[..n]))
    ensures Restores(c, payload) <==>
      |payload| < UINT_BOUND && |c.deflate(payload)| <= c.bound(|payload|) % UINT_BOUND
  {
    var d := c.deflate(payload);
    assert d[..|d|] == d;
    RestoresExactly(c, payload, |d|);
  }

  /** The lines every sender goes through: compress if the payload is long, and send header and payload. */
  method PackMessage(buf: array<Byte>, header: TransferHeader, c: Codec) returns (msg: seq<Byte>)
    requires buf.Length == HEADER_SIZE + header.totalSize && buf[..HEADER_SIZE] == HeaderBytes(header.Value())
    modifies header
    ensures msg == Packed(c, old(header.dataType), old(header.fileCount), buf[HEADER_SIZE..])
  {
    if header.totalSize > COMPRESS_BOUNDARY {
      var out, total := SerializedDataCompress(buf, header, header.totalSize, c);
      header.totalSize := total;
      msg := out[..HEADER_SIZE + header.totalSize];
    } else {
      msg := buf[..HEADER_SIZE + header.totalSize];
      assert msg == buf[..HEADER_SIZE] + buf[HEADER_SIZE..];
    }
  }

  /** How a message travels: up to 100 bytes of payload as they are; more of them deflated, behind their number,
      under a type that is larger by 10. */
  lemma PackedExactly(c: Codec, kind: nat, count: nat, payload: seq<Byte>)
    requires Sizes(c, payload) && Sound(c, payload)
    ensures |payload| <= 100 ==> Packed(c, kind, count, payload) == HeaderBytes(Header(kind, |payload|, count)) + payload
    ensures |payload| > 100 ==> var z := c.deflate(payload);
      Packed(c, kind, count, payload) == HeaderBytes(Header(kind + 10, 8 + |z|, count)) + Encode(|payload|, 8) + z
  {
    InflateDeflate(c, payload, payload);
  }

  /** A receiver takes a message for the end of the connection if it is cut short or has no payload. */
  lemma NothingReceived(c: Codec, msg: seq<Byte>, junk: seq<Byte>)
    requires |msg| < 24 || ReadHeader(msg).totalSize == 0 || |msg| != 24 + ReadHeader(msg).totalSize
    ensures Unpacked(c, msg, junk) == None
  {
  }
}
