/** The two ends of an exchange as they run: a thread of the master, and the slave. */
module Session {
  import opened Bytes
  import opened Wrappers
  import opened Records
  import opened UtHash
  import opened Environment
  import opened Comparison
  import opened Wire
  import opened Serialize
  import opened Deserialize
  import opened Compress
  import opened Delivery
  import opened ServerRun
  import opened Exchange
  import opened MasterThreads

  lemma {:induction false} ChosenList(t: Table, n: nat)
    requires n <= |t|
    ensures ChosenTo(LIST, t, n) == t[..n]
  {
    if n > 0 {
      ChosenList(t, n - 1);
      assert t[..n] == t[..n - 1] + [t[n - 1]];
    }
  }

  /** What file_list_serialized writes is the list of the table. */
  lemma CarriesList(w: World, t: Table, es: seq<Entry>)
    requires Carries(LIST, w, Chosen(LIST, t), es)
    ensures es == ListOf(t)
  {
    ChosenList(t, |t|);
    assert t[..|t|] == t;
    forall i | 0 <= i < |es|
      ensures es[i] == ListOf(t)[i]
    {
      assert CarriesAt(LIST, w, t[i], es[i]);
    }
  }

  /** What file_path_serialized writes is the request of the table. */
  lemma CarriesRequest(w: World, t: Table, es: seq<Entry>)
    requires Carries(REQUEST, w, Chosen(REQUEST, t), es)
    ensures es == RequestOf(t)
  {
    forall i | 0 <= i < |es|
      ensures es[i] == RequestOf(t)[i]
    {
      assert CarriesAt(REQUEST, w, Chosen(REQUEST, t)[i], es[i]);
    }
  }

  /** server_send_thread up to its first send: the list of a non-empty table. */
  method SendList(fl: FileList, w: World, c: Codec, ghost t: Table) returns (msg: seq<Byte>)
    requires fl.Valid() && fl.Contents() == t && t != []
    ensures fl.Valid() && fl.Contents() == t && msg == Sealed(c, LIST, ListOf(t))
  {
    var header, buf;
    ghost var es;
    header, buf, es := Compose(LIST, fl, w, t);
    CarriesList(w, t, es);
    msg := PackEntries(LIST, header, buf, c, es);
  }

  /** The data message made of the marks as they are. */
  method SendData(fl: FileList, w: World, c: Codec, ghost t: Table) returns (msg: seq<Byte>, ghost d: seq<Entry>)
    requires fl.Valid() && fl.Contents() == t && t != [] && Openable(t, w)
    ensures fl.Valid() && fl.Contents() == t
    ensures Carries(DATA, w, Chosen(DATA, t), d) && msg == Sealed(c, DATA, d)
  {
    var header, buf;
    header, buf, d := Compose(DATA, fl, w, t);
    msg := PackEntries(DATA, header, buf, c, d);
  }

  ghost predicate AllReadable(t: Table, w: World) {
    forall i :: 0 <= i < |t| ==> t[i].path in w.files
  }

  lemma MarkedOpenable(t: Table, t': Table, w: World)
    requires AllReadable(t, w) && SameFiles(t, t')
    ensures Openable(t', w)
  {
    forall i | 0 <= i < |t'|
      ensures t'[i].path in w.files
    {
      SameAt(t, t', i);
    }
  }

  /** The requested paths are marked. */
  method MarkRequest(fl: FileList, w: World, c: Codec, request: seq<Byte>, ghost t: Table)
    returns (count: nat, ghost es: seq<Entry>)
    requires fl.Valid() && fl.Contents() == t && AllReadable(t, w) && Readable(c, REQUEST, request)
    modifies fl.items`state
    ensures fl.Valid() && fl.Contents() == MarkTo(t, es, |es|) && count == |es|
    ensures Openable(MarkTo(t, es, |es|), w)
    ensures exists junk :: Opening(c, request, junk) == Some((REQUEST, es))
  {
    var dataType, payload;
    ghost var junk;
    dataType, count, payload, junk := ReceiveMessage(request, c, REQUEST);
    es := ReadEntries(REQUEST, payload, 0, count).value;
    FilePathDeserialized(fl, payload, count);
    ReadLength(REQUEST, payload, 0, count);
    MarkToKeeps(t, es, |es|);
    MarkedOpenable(t, MarkTo(t, es, |es|), w);
  }

  /** The rest of server_send_thread: the requested paths are marked, and every marked file is sent if
      there was a request. */
  method AnswerRequest(fl: FileList, w: World, c: Codec, request: seq<Byte>, ghost t: Table)
    returns (reply: Option<seq<Byte>>, ghost es: seq<Entry>, ghost d: seq<Entry>)
    requires fl.Valid() && fl.Contents() == t && t != [] && AllReadable(t, w) && Readable(c, REQUEST, request)
    modifies fl.items`state
    ensures fl.Valid() && fl.Contents() == MarkTo(t, es, |es|)
    ensures exists junk :: Opening(c, request, junk) == Some((REQUEST, es))
    ensures es == [] ==> reply == None
    ensures es != [] ==> Carries(DATA, w, Chosen(DATA, MarkTo(t, es, |es|)), d) && reply == Some(Sealed(c, DATA, d))
  {
    var count;
    count, es := MarkRequest(fl, w, c, request, t);
    reply, d := None, [];
    if count > 0 {
      var msg;
      MarkToKeeps(t, es, |es|);
      msg, d := SendData(fl, w, c, MarkTo(t, es, |es|));
      reply := Some(msg);
    }
  }

  /** The slave as it is: its table and its files. */
  ghost function Now(fl: FileList, disk: Disk, sync: Path, w: World, host: Host): Slave
    requires fl.Valid()
    reads fl, fl.buckets, fl.items, disk
  {
    Slave(fl.Contents(), disk.files, sync, w, host)
  }

  /** The slave on the master's list: its list file is rewritten, its table compared, and its request
      sent unless it wants nothing. */
  method OnList(fl: FileList, disk: Disk, sync: Path, w: World, host: Host, c: Codec, payload: seq<Byte>, count: nat)
    returns (reply: Option<seq<Byte>>)
    requires fl.Valid() && fl.Contents() != [] && disk !in fl.Repr
    requires ReadEntries(LIST, payload, 0, count).Some? && ListEntries(ReadEntries(LIST, payload, 0, count).value)
    modifies fl.Repr, disk
    ensures fl.Valid() && fresh(fl.Repr - old(fl.Repr))
    ensures Now(fl, disk, sync, w, host)
      == AfterList(old(Now(fl, disk, sync, w, host)), ReadEntries(LIST, payload, 0, count).value)
    ensures var r := RequestOf(fl.Contents()); reply == if r == [] then None else Some(Sealed(c, REQUEST, r))
  {
    FileListDeserialized(fl, payload, count, sync, disk, w, host);
    reply := SendRequest(fl, w, c, fl.Contents());
  }

  /** update_header_set and file_path_serialized, unless nothing is marked. */
  method SendRequest(fl: FileList, w: World, c: Codec, ghost t: Table) returns (reply: Option<seq<Byte>>)
    requires fl.Valid() && fl.Contents() == t
    ensures fl.Valid() && fl.Contents() == t
    ensures var r := RequestOf(t); reply == if r == [] then None else Some(Sealed(c, REQUEST, r))
  {
    var header, buf;
    ghost var es;
    header, buf, es := Compose(REQUEST, fl, w, t);
    CarriesRequest(w, t, es);
    reply := None;
    if header.fileCount > 0 {
      var msg := PackEntries(REQUEST, header, buf, c, es);
      reply := Some(msg);
    }
  }

  /** One message of the master: the slave before and after it, its reply, and whether it hangs up. */
  ghost predicate SlaveTurn(g: Setting, s: Slave, msg: seq<Byte>, s': Slave, reply: Option<seq<Byte>>, over: bool) {
    || (exists es :: Opens(g, msg, LIST, es) && ListEntries(es) && s' == AfterList(s, es)
          && over == Answer(g, s').Closed? && reply == if over then None else Some(Answer(g, s').msg))
    || (exists es :: Opens(g, msg, DATA, es) && s' == WithData(s, es) && over && reply == None)
  }

  lemma TookList(g: Setting, s: Slave, msg: seq<Byte>, es: seq<Entry>, s': Slave, reply: Option<seq<Byte>>)
    requires Opens(g, msg, LIST, es) && ListEntries(es) && s' == AfterList(s, es)
    requires var r := RequestOf(s'.table); reply == if r == [] then None else Some(Sealed(g.codec, REQUEST, r))
    ensures SlaveTurn(g, s, msg, s', reply, reply.None?)
  {
  }

  lemma TookData(g: Setting, s: Slave, msg: seq<Byte>, es: seq<Entry>, s': Slave)
    requires Opens(g, msg, DATA, es) && s' == WithData(s, es)
    ensures SlaveTurn(g, s, msg, s', None, true)
  {
  }

  /** What the slave can be sent: lists and data. */
  ghost predicate FromMaster(c: Codec, msg: seq<Byte>) {
    || Readable(c, DATA, msg)
    || (Readable(c, LIST, msg) && forall junk, es :: Opening(c, msg, junk) == Some((LIST, es)) ==> ListEntries(es))
  }

  /** The slave on the master's data: the files are stored, and it hangs up. */
  method OnData(fl: FileList, disk: Disk, ghost sync: Path, w: World, host: Host, payload: seq<Byte>, count: nat)
    requires fl.Valid() && disk !in fl.Repr && ReadEntries(DATA, payload, 0, count).Some?
    modifies disk
    ensures fl.Valid() && fl.Contents() == old(fl.Contents())
    ensures Now(fl, disk, sync, w, host)
      == WithData(old(Now(fl, disk, sync, w, host)), ReadEntries(DATA, payload, 0, count).value)
  {
    FileDeserialized(disk, payload, count, None, host);
  }

  /** One turn of the loop of slave_server_action. */
  method TakeMessage(fl: FileList, disk: Disk, sync: Path, w: World, host: Host, msg: seq<Byte>, ghost g: Setting, c: Codec)
    returns (reply: Option<seq<Byte>>, over: bool)
    requires fl.Valid() && fl.Contents() != [] && disk !in fl.Repr && g.codec == c && FromMaster(c, msg)
    modifies fl.Repr, disk
    ensures fl.Valid() && fresh(fl.Repr - old(fl.Repr))
    ensures SlaveTurn(g, old(Now(fl, disk, sync, w, host)), msg, Now(fl, disk, sync, w, host), reply, over)
    ensures (over <==> reply == None) && (Readable(c, DATA, msg) ==> over)
  {
    ghost var kind := if Readable(c, DATA, msg) then DATA else LIST;
    var dataType, count, payload;
    ghost var junk;
    dataType, count, payload, junk := ReceiveMessage(msg, c, kind);
    ghost var es := ReadEntries(kind, payload, 0, count).value;
    assert Opens(g, msg, kind, es);
    if dataType == LIST {
      reply := OnList(fl, disk, sync, w, host, c, payload, count);
      over := reply.None?;
      TookList(g, old(Now(fl, disk, sync, w, host)), msg, es, Now(fl, disk, sync, w, host), reply);
    } else {
      OnData(fl, disk, sync, w, host, payload, count);
      reply, over := None, true;
      TookData(g, old(Now(fl, disk, sync, w, host)), msg, es, Now(fl, disk, sync, w, host));
    }
  }

  /** What the slave did with the messages of one connection: hist is the slave before and after each,
      out its replies. */
  ghost predicate SlaveRun(g: Setting, inbox: seq<seq<Byte>>, hist: seq<Slave>, out: seq<Option<seq<Byte>>>, over: bool) {
    && |hist| == |out| + 1 <= |inbox| + 1
    && forall k :: 0 <= k < |out| ==>
         SlaveTurn(g, hist[k], inbox[k], hist[k + 1], out[k], over && k == |out| - 1)
  }

  lemma TurnKeepsTable(g: Setting, s: Slave, msg: seq<Byte>, s': Slave, reply: Option<seq<Byte>>, over: bool)
    requires SlaveTurn(g, s, msg, s', reply, over) && s.table != []
    ensures s'.table != []
  {
    if es :| Opens(g, msg, LIST, es) && ListEntries(es) && s' == AfterList(s, es) {
      CompareGrows(s.table, s.world, es, |es|);
    }
  }

  lemma RunMore(g: Setting, inbox: seq<seq<Byte>>, hist: seq<Slave>, out: seq<Option<seq<Byte>>>,
                s: Slave, reply: Option<seq<Byte>>, over: bool)
    requires SlaveRun(g, inbox, hist, out, false) && |out| < |inbox|
    requires SlaveTurn(g, hist[|out|], inbox[|out|], s, reply, over)
    ensures SlaveRun(g, inbox, hist + [s], out + [reply], over)
  {
  }

  /** Mentioning Stop brings what EndsOnce says of message k into a proof. */
  ghost predicate Stop(k: int) {
    true
  }

  /** Every message but the last is answered. The last one is not exactly if the slave hangs up after it, as it
      always does after data. */
  ghost predicate EndsOnce(c: Codec, inbox: seq<seq<Byte>>, out: seq<Option<seq<Byte>>>, over: bool)
    requires |out| <= |inbox|
  {
    forall k {:trigger Stop(k)} :: Stop(k) && 0 <= k < |out| ==>
      && (out[k] == None <==> over && k == |out| - 1)
      && (Readable(c, DATA, inbox[k]) ==> over && k == |out| - 1)
  }

  lemma EndsLater(c: Codec, inbox: seq<seq<Byte>>, out: seq<Option<seq<Byte>>>, reply: Option<seq<Byte>>, over: bool)
    requires |out| < |inbox| && EndsOnce(c, inbox, out, false)
    requires (over <==> reply == None) && (Readable(c, DATA, inbox[|out|]) ==> over)
    ensures EndsOnce(c, inbox, out + [reply], over)
  {
  }

  /** One turn of the loop, with what has been done before it. */
  method NextMessage(fl: FileList, disk: Disk, sync: Path, w: World, host: Host, inbox: seq<seq<Byte>>, ghost g: Setting,
                     c: Codec, out: seq<Option<seq<Byte>>>, ghost hist: seq<Slave>)
    returns (out': seq<Option<seq<Byte>>>, over: bool, ghost hist': seq<Slave>)
    requires fl.Valid() && fl.Contents() != [] && disk !in fl.Repr && g.codec == c
    requires |out| < |inbox| && FromMaster(c, inbox[|out|])
    requires SlaveRun(g, inbox, hist, out, false) && EndsOnce(c, inbox, out, false)
    requires hist[|out|] == Now(fl, disk, sync, w, host)
    modifies fl.Repr, disk
    ensures fl.Valid() && fresh(fl.Repr - old(fl.Repr)) && fl.Contents() != []
    ensures |out'| == |out| + 1 && SlaveRun(g, inbox, hist', out', over) && EndsOnce(c, inbox, out', over)
    ensures hist'[0] == hist[0] && hist'[|out'|] == Now(fl, disk, sync, w, host)
  {
    var reply;
    reply, over := TakeMessage(fl, disk, sync, w, host, inbox[|out|], g, c);
    TurnKeepsTable(g, hist[|out|], inbox[|out|], Now(fl, disk, sync, w, host), reply, over);
    RunMore(g, inbox, hist, out, Now(fl, disk, sync, w, host), reply, over);
    EndsLater(c, inbox, out, reply, over);
    out', hist' := out + [reply], hist + [Now(fl, disk, sync, w, host)];
  }

  /** slave_server_action: messages are taken until the data has come, nothing is wanted, or the master
      hangs up; an empty table makes it give up at once. */
  method SlaveServerAction(fl: FileList, disk: Disk, sync: Path, w: World, host: Host, inbox: seq<seq<Byte>>,
                           ghost g: Setting, c: Codec)
    returns (out: seq<Option<seq<Byte>>>, over: bool, ghost hist: seq<Slave>)
    requires fl.Valid() && disk !in fl.Repr && g.codec == c
    requires forall k :: 0 <= k < |inbox| ==> FromMaster(c, inbox[k])
    modifies fl.Repr, disk
    ensures fl.Valid() && fresh(fl.Repr - old(fl.Repr))
    ensures SlaveRun(g, inbox, hist, out, over)
    ensures if old(fl.Contents()) == [] then out == [] else over || |out| == |inbox|
    ensures |out| <= |inbox| && EndsOnce(c, inbox, out, over)
    ensures hist[0] == old(Now(fl, disk, sync, w, host)) && hist[|out|] == Now(fl, disk, sync, w, host)
  {
    out, over, hist := [], false, [Now(fl, disk, sync, w, host)];
    if fl.head == null {
      return;
    }
    while |out| < |inbox| && !over
      invariant fl.Valid() && fresh(fl.Repr - old(fl.Repr)) && fl.Contents() != []
      invariant SlaveRun(g, inbox, hist, out, over)
      invariant hist[0] == old(Now(fl, disk, sync, w, host)) && hist[|out|] == Now(fl, disk, sync, w, host)
      invariant |out| <= |inbox| && EndsOnce(c, inbox, out, over)
      decreases |inbox| - |out|
    {
      out, over, hist := NextMessage(fl, disk, sync, w, host, inbox, g, c, out, hist);
    }
  }
}
