/** The client process: it applies every message it receives to its directory. */
module Client {
  import opened Bytes
  import opened Wrappers
  import opened Records
  import opened Environment
  import opened FileFunc
  import opened Wire
  import opened Deserialize
  import opened Compress
  import opened Delivery
  import opened ServerRun

  /** Step k of a run that has got one message further. */
  lemma StepOn(g: Setting, host: Host, msgs: seq<seq<Byte>>, hist: seq<FileSys>, i: nat, f: FileSys, k: nat)
    requires i < |msgs| && ClientRun(g, host, msgs[..i], hist) && ClientStep(g, host, hist[i], msgs[i], f) && k <= i
    ensures |hist| == i + 1 && ClientStep(g, host, (hist + [f])[k], msgs[k], (hist + [f])[k + 1])
  {
    if k < i {
      RunStep(g, host, msgs[..i], hist, k);
      assert msgs[..i][k] == msgs[k];
    }
  }

  lemma RunOn(g: Setting, host: Host, msgs: seq<seq<Byte>>, hist: seq<FileSys>, i: nat, f: FileSys)
    requires i < |msgs| && ClientRun(g, host, msgs[..i], hist) && ClientStep(g, host, hist[i], msgs[i], f)
    ensures ClientRun(g, host, msgs[..i + 1], hist + [f])
  {
    var more := msgs[..i + 1];
    forall k: nat | k <= i
      ensures ClientStep(g, host, (hist + [f])[k], more[k], (hist + [f])[k + 1])
    {
      StepOn(g, host, msgs, hist, i, f, k);
      assert more[k] == msgs[k];
    }
  }

  /** A client can apply any message it can read to its end. */
  lemma CanApply(g: Setting, host: Host, f: FileSys, msg: seq<Byte>) returns (f': FileSys)
    requires Readable(g.codec, DATA, msg)
    ensures ClientStep(g, host, f, msg, f')
  {
    var h, body := ReadHeader(msg), msg[HEADER_SIZE..];
    var junk: seq<Byte> := if h.dataType > COMPRESS_TYPE then seq(Decode(body, 0, LONG_SIZE), i => 0) else [];
    assert Unpacked(g.codec, msg, junk).Some?;
    var es := Opening(g.codec, msg, junk).value.1;
    f' := Stored(f, es, Some(g.dir), host);
  }

  /** A client can apply everything it has been sent, one message after the other. */
  lemma {:induction false} ClientGoesOn(g: Setting, host: Host, f: FileSys, msgs: seq<seq<Byte>>, n: nat)
    returns (hist: seq<FileSys>)
    requires n <= |msgs| && forall i :: 0 <= i < |msgs| ==> Readable(g.codec, DATA, msgs[i])
    ensures ClientRun(g, host, msgs[..n], hist) && hist[0] == f
  {
    hist := [f];
    if n > 0 {
      hist := ClientGoesOn(g, host, f, msgs, n - 1);
      var f' := CanApply(g, host, hist[n - 1], msgs[n - 1]);
      RunOn(g, host, msgs, hist, n - 1, f');
      hist := hist + [f'];
    }
  }

  /** So in every run of a server, every client can keep up with it. */
  lemma ClientsKeepUp(g: Setting, host: Host, w: World, text: seq<Byte>, states: seq<State>, events: seq<Event>, n: nat,
                      sock: int, f: FileSys)
    returns (hist: seq<FileSys>)
    requires RunTo(g, w, text, states, events, n) && CodecOk(g.codec, g.limit)
    ensures ClientRun(g, host, Msgs(states[n], sock), hist) && hist[0] == f
  {
    var msgs := Msgs(states[n], sock);
    AlwaysReadable(g, w, text, states, events, n);
    hist := ClientGoesOn(g, host, f, msgs, |msgs|);
    assert msgs[..|msgs|] == msgs;
  }

  class FileClient {
    const dir: Path
    const codec: Codec
    const disk: Disk

    constructor (dir: Path, codec: Codec, files: FileSys)
      ensures this.dir == dir && this.codec == codec && fresh(disk) && disk.files == files
    {
      this.dir, this.codec := dir, codec;
      disk := new Disk(files);
    }

    /** One turn of the client's loop. */
    method Receive(msg: seq<Byte>, host: Host, ghost g: Setting)
      requires Readable(codec, DATA, msg) && g.codec == codec && g.dir == dir
      modifies disk
      ensures ClientStep(g, host, old(disk.files), msg, disk.files)
    {
      var dataType, count, payload;
      ghost var junk;
      dataType, count, payload, junk := ReceiveMessage(msg, codec, DATA);
      FileDeserialized(disk, payload, count, Some(dir), host);
    }

    /** The client's loop, as far as the given messages take it. */
    method Run(msgs: seq<seq<Byte>>, host: Host, ghost g: Setting) returns (ghost hist: seq<FileSys>)
      requires forall i :: 0 <= i < |msgs| ==> Readable(codec, DATA, msgs[i])
      requires g.codec == codec && g.dir == dir
      modifies disk
      ensures ClientRun(g, host, msgs, hist)
      ensures hist[0] == old(disk.files) && hist[|msgs|] == disk.files
    {
      hist := [disk.files];
      for i := 0 to |msgs|
        invariant |hist| == i + 1 && hist[0] == old(disk.files) && hist[i] == disk.files
        invariant ClientRun(g, host, msgs[..i], hist)
      {
        Receive(msgs[i], host, g);
        RunOn(g, host, msgs, hist, i, disk.files);
        hist := hist + [disk.files];
      }
      assert msgs[..|msgs|] == msgs;
    }
  }
}
