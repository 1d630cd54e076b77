/** The server loop as a state machine, and what its clients hold over whole runs. */
module ServerRun {
  import opened Bytes
  import opened Wrappers
  import opened Records
  import opened Environment
  import opened FileFunc
  import opened ChangeDetection
  import opened Comparison
  import opened Wire
  import opened Serialize
  import opened Deserialize
  import opened Compress
  import opened Delivery

  const MAX_CLIENTS: nat := 20

  /** Mentioning one of these brings the contents of Turn and Starts, of Inv, of Covers, of ClientStep,
      the k-th step of ClientRun, or the contents of TableFits into a proof. */
  ghost predicate Show(k: int) {
    true
  }

  ghost predicate ShowInv(k: int) {
    true
  }

  ghost predicate ShowFiles(k: int) {
    true
  }

  ghost predicate ShowStep(k: int) {
    true
  }

  ghost predicate ShowRun(k: int) {
    true
  }

  ghost predicate ShowSize(k: int) {
    true
  }

  /** The server between two turns of its loop. snapshot is the message every new client gets, empty
      while there is none; sent is what has been put on each connection so far. */
  datatype State = State(table: Table, slots: seq<int>, snapshot: seq<Byte>, sent: map<int, seq<seq<Byte>>>)

  /** What one turn of the loop reacts to: a new connection; client sockets becoming readable, some of
      them because the client is gone; nothing, so that the list is scanned; on a slave, a master whose
      list has come, before that scan; or, on a master, the requests of its slaves. during is what the
      slave sees of its files while the list is dealt with. */
  datatype Event =
    | Accept(sock: int)
    | Ready(closed: set<int>)
    | Scan(w: World, text: seq<Byte>)
    | Exchanged(list: seq<Entry>, during: World, w: World, text: seq<Byte>)
    | Requested(es: seq<Entry>)

  function Send(sent: map<int, seq<seq<Byte>>>, sock: int, msg: seq<Byte>): map<int, seq<seq<Byte>>> {
    sent[sock := (if sock in sent then sent[sock] else []) + [msg]]
  }

  /** The first free slot from i on, or |slots|. */
  function FreeSlot(slots: seq<int>, i: nat): (k: nat)
    requires i <= |slots|
    ensures i <= k <= |slots|
    ensures k < |slots| ==> slots[k] == 0
    ensures forall j :: i <= j < k ==> slots[j] != 0
    decreases |slots| - i
  {
    if i < |slots| && slots[i] != 0 then FreeSlot(slots, i + 1) else i
  }

  /** client_add: without a free slot the connection is not remembered. */
  function ClientAdded(slots: seq<int>, sock: int): (r: seq<int>)
    ensures |r| == |slots|
    ensures forall k :: 0 <= k < |slots| && slots[k] == 0 && 0 !in slots[..k] ==> r == slots[k := sock]
    ensures 0 !in slots ==> r == slots
  {
    var k := FreeSlot(slots, 0);
    if k < |slots| then slots[k := sock] else slots
  }

  /** thread_create: the message goes to the socket in every occupied slot. */
  function BroadcastTo(sent: map<int, seq<seq<Byte>>>, slots: seq<int>, msg: seq<Byte>, n: nat): map<int, seq<seq<Byte>>>
    requires n <= |slots|
  {
    if n == 0 then sent
    else
      var s := BroadcastTo(sent, slots, msg, n - 1);
      if slots[n - 1] == 0 then s else Send(s, slots[n - 1], msg)
  }

  function Closed(slots: seq<int>, closed: set<int>): (r: seq<int>)
    ensures |r| == |slots|
    ensures forall i :: 0 <= i < |r| ==> r[i] == if slots[i] in closed then 0 else slots[i]
  {
    seq(|slots|, i requires 0 <= i < |slots| => if slots[i] in closed then 0 else slots[i])
  }

  /** A scan that found something new: the marked files are broadcast, and the snapshot is made anew
      from the whole table. */
  ghost predicate Pushes(c: Codec, s: State, w: World, u: Table, s': State, es1: seq<Entry>, es2: seq<Entry>) {
    var all := WithStates(u, 1);
    && Carries(DATA, w, Chosen(DATA, u), es1)
    && Carries(DATA, w, Chosen(DATA, all), es2)
    && s' == State(WithStates(u, 0), s.slots,
                   if u == [] then [] else Sealed(c, DATA, es2),
                   if es1 == [] then s.sent else BroadcastTo(s.sent, s.slots, Sealed(c, DATA, es1), |s.slots|))
  }

  /** A scan of the table t: nothing for an empty one; otherwise the table is updated, and the changes
      are pushed if there is anything new. */
  ghost predicate Scans(cfg: Config, c: Codec, s: State, t: Table, w: World, text: seq<Byte>, s': State) {
    var ps := Listed(w, cfg, text, 0);
    if t == [] then s' == s
    else
      var u := Updated(t, w, ps);
      if TriggersTo(WithStates(t, -1), w, ps, |ps|)
      then exists es1, es2 :: Pushes(c, s, w, u, s', es1, es2)
      else s' == s.(table := WithStates(u, 0))
  }

  /** A slave's table after its master's list; slave_server_action refuses an empty one. */
  function Heard(t: Table, during: World, list: seq<Entry>): Table
    requires ListEntries(list)
  {
    if t == [] then t else CompareTo(t, during, list, |list|)
  }

  /** One turn of the loop. */
  ghost predicate Next(cfg: Config, c: Codec, s: State, ev: Event, s': State) {
    match ev
    case Accept(sock) =>
      s' == State(s.table, ClientAdded(s.slots, sock), s.snapshot,
                  if s.snapshot == [] then s.sent else Send(s.sent, sock, s.snapshot))
    case Ready(closed) =>
      s' == s.(slots := Closed(s.slots, closed))
    case Requested(es) =>
      s' == s.(table := MarkTo(s.table, es, |es|))
    case Scan(w, text) =>
      Scans(cfg, c, s, s.table, w, text, s')
    case Exchanged(list, during, w, text) =>
      ListEntries(list) && Scans(cfg, c, s, Heard(s.table, during, list), w, text, s')
  }

  /** The server when it enters its loop: the listed files are in the table, and the first snapshot
      has been made of all of them. */
  ghost predicate Init(cfg: Config, c: Codec, w: World, text: seq<Byte>, s: State) {
    var ps := Listed(w, cfg, text, 0);
    var t := AddedTo([], w, ps, |ps|);
    && s.table == WithStates(t, 0)
    && s.slots == seq(MAX_CLIENTS, i => 0)
    && s.sent == map[]
    && exists es :: Carries(DATA, w, Chosen(DATA, t), es) && s.snapshot == if t == [] then [] else Sealed(c, DATA, es)
  }

  /** What a run depends on. version gives the contents a file has under each of its time stamps, sha the
      digest of contents, dir is the clients' directory, and limit bounds the size of a message. */
  datatype Setting = Setting(cfg: Config, codec: Codec, dir: Path, version: (Path, int) -> seq<Byte>,
                             sha: seq<Byte> -> Digest, limit: nat)

  /** Files change only together with their time stamps, and every path is usable. */
  ghost predicate ScanOk(g: Setting, w: World) {
    GoodFiles(w.files) && Consistent(g, w) && w.sha == g.sha
  }

  /** The entry a client should have for a record. */
  function Due(g: Setting, r: Record): Entry {
    Entry(r.path, g.version(r.path, r.mtime))
  }

  function DueAll(g: Setting, t: Table): (es: seq<Entry>)
    ensures |es| == |t|
    ensures forall i :: 0 <= i < |t| ==> es[i] == Due(g, t[i])
  {
    seq(|t|, i requires 0 <= i < |t| => Due(g, t[i]))
  }

  /** The table fits into one message. */
  ghost predicate TableFits(g: Setting, t: Table) {
    forall k {:trigger ShowSize(k)} :: ShowSize(k) ==>
      |PayloadBytes(DATA, DueAll(g, t))| <= g.limit && |t| < INT_BOUND
  }

  /** Sizes in the table are those of the recorded versions. */
  ghost predicate RecordsOk(g: Setting, t: Table) {
    && DistinctPaths(t)
    && forall i :: 0 <= i < |t| ==> GoodPath(t[i].path) && t[i].dataSize == |g.version(t[i].path, t[i].mtime)|
  }

  /** The files of a client are those of the table, under their base names and with the contents as of
      their last recorded change. */
  ghost predicate Covers(g: Setting, files: FileSys, t: Table) {
    forall k {:trigger ShowFiles(k)} :: ShowFiles(k) ==> forall i :: 0 <= i < |t| ==> CoversAt(g, files, t[i])
  }

  ghost predicate CoversAt(g: Setting, files: FileSys, r: Record) {
    var q := Target(Some(g.dir), r.path);
    q in files && files[q].data == g.version(r.path, r.mtime)
  }

  lemma {:induction false} ChosenToIs(kind: nat, t: Table, n: nat)
    requires n <= |t|
    ensures forall r :: r in ChosenTo(kind, t, n) <==> r in t[..n] && Selects(kind, r)
    ensures DistinctPaths(t) ==> DistinctPaths(ChosenTo(kind, t, n))
  {
    if n > 0 {
      ChosenToIs(kind, t, n - 1);
      assert t[..n] == t[..n - 1] + [t[n - 1]];
      if DistinctPaths(t) {
        var c := ChosenTo(kind, t, n - 1);
        forall i | 0 <= i < |c|
          ensures c[i].path != t[n - 1].path
        {
          assert c[i] in t[..n - 1];
        }
      }
    }
  }

  lemma ChosenIs(kind: nat, t: Table)
    ensures forall r :: r in Chosen(kind, t) <==> r in t && Selects(kind, r)
    ensures DistinctPaths(t) ==> DistinctPaths(Chosen(kind, t))
  {
    ChosenToIs(kind, t, |t|);
    assert t[..|t|] == t;
  }

  lemma {:induction false} ChosenAll(t: Table, n: nat)
    requires n <= |t| && forall i :: 0 <= i < |t| ==> t[i].state == 1
    ensures ChosenTo(DATA, t, n) == t[..n]
  {
    if n > 0 {
      ChosenAll(t, n - 1);
      assert t[..n] == t[..n - 1] + [t[n - 1]];
    }
  }

  /** Every record of the table is as the file system w has it. */
  ghost predicate UpToDate(w: World, t: Table) {
    forall i :: 0 <= i < |t| ==>
      t[i].path in w.files && t[i].mtime == w.files[t[i].path].mtime && t[i].dataSize == |w.files[t[i].path].data|
  }

  ghost predicate Consistent(g: Setting, w: World) {
    forall p :: p in w.files ==> w.files[p].data == g.version(p, w.files[p].mtime)
  }

  /** The entries read for up-to-date records are exactly the ones due. */
  lemma CarriesDue(g: Setting, w: World, t: Table, es: seq<Entry>)
    requires Consistent(g, w) && UpToDate(w, t) && Carries(DATA, w, t, es)
    ensures es == DueAll(g, t)
  {
    forall i | 0 <= i < |t|
      ensures es[i] == Due(g, t[i])
    {
      assert CarriesAt(DATA, w, t[i], es[i]);
      var d := w.files[t[i].path].data;
      assert es[i].payload == es[i].payload[..|d|] == d[..|d|] == d;
    }
  }

  /** The scan of t does not refresh the record r: it is listed and has the time stamp of its file. */
  predicate Kept(w: World, ps: seq<Path>, r: Record) {
    r.path in ps && r.mtime == w.Mtime(r.path)
  }

  /** The records the scan does not refresh have the sizes of their versions. */
  ghost predicate KeptSizes(g: Setting, w: World, ps: seq<Path>, t: Table) {
    DistinctPaths(t) && forall i :: 0 <= i < |t| && Kept(w, ps, t[i]) ==> t[i].dataSize == |g.version(t[i].path, t[i].mtime)|
  }

  /** The records the scan does not refresh are in t0, at the same versions. */
  ghost predicate KeptWithin(w: World, ps: seq<Path>, t: Table, t0: Table) {
    forall i :: 0 <= i < |t| && Kept(w, ps, t[i]) ==> Within(t[i], t0)
  }

  /** The record's file, at its recorded version, is among those of s. */
  ghost predicate Within(r: Record, s: Table) {
    exists j :: 0 <= j < |s| && s[j].path == r.path && s[j].mtime == r.mtime
  }

  ghost predicate AllWithin(t: Table, s: Table) {
    forall i :: 0 <= i < |t| ==> Within(t[i], s)
  }

  /** A scan of a consistent file system leaves every record up to date. */
  lemma UpdatedAt(g: Setting, w: World, ps: seq<Path>, t: Table, i: nat)
    requires KeptSizes(g, w, ps, t) && Consistent(g, w) && AllExist(w, ps) && i < |Updated(t, w, ps)|
    ensures var r := Updated(t, w, ps)[i];
      && r.path in ps && r.path in w.files && r.mtime == w.files[r.path].mtime
      && r.dataSize == |w.files[r.path].data|
  {
    var u := Updated(t, w, ps);
    var p := u[i].path;
    UpdateIs(t, w, ps);
    assert HasPath(u, p);
    MarkedExactly(t, w, ps, p);
    IndexOfIs(u, p, i);
    if !IsFresh(t, w, p) {
      var k := IndexOf(t, p);
      assert Kept(w, ps, t[k]) && u[i].(state := 0) == t[k].(state := 0);
      assert u[i].dataSize == t[k].dataSize;
    }
  }

  lemma UpdatedOk(g: Setting, w: World, ps: seq<Path>, t: Table)
    requires KeptSizes(g, w, ps, t) && Consistent(g, w) && AllExist(w, ps) && GoodFiles(w.files)
    ensures RecordsOk(g, Updated(t, w, ps)) && UpToDate(w, Updated(t, w, ps))
  {
    var u := Updated(t, w, ps);
    UpdateIs(t, w, ps);
    forall i | 0 <= i < |u|
      ensures GoodPath(u[i].path) && u[i].dataSize == |g.version(u[i].path, u[i].mtime)|
      ensures u[i].path in w.files && u[i].mtime == w.files[u[i].path].mtime
      ensures u[i].dataSize == |w.files[u[i].path].data|
    {
      UpdatedAt(g, w, ps, t, i);
    }
  }

  lemma {:induction false} ListedExist(w: World, cfg: Config, text: seq<Byte>, pos: nat)
    requires pos <= |text|
    ensures AllExist(w, Listed(w, cfg, text, pos))
    decreases |text| - pos
  {
    if pos < |text| {
      ListedExist(w, cfg, text, LineEnd(text, pos));
    }
  }

  lemma DueExtend(g: Setting, t: Table, r: Record)
    ensures DueAll(g, t + [r]) == DueAll(g, t) + [Due(g, r)]
  {
  }

  lemma ChosenStep(g: Setting, t: Table, n: nat)
    requires n < |t|
    ensures |PayloadBytes(DATA, DueAll(g, ChosenTo(DATA, t, n + 1)))| <=
            |PayloadBytes(DATA, DueAll(g, ChosenTo(DATA, t, n)))| + |EntryBytes(DATA, Due(g, t[n]))|
  {
    var c := ChosenTo(DATA, t, n);
    if Selects(DATA, t[n]) {
      DueExtend(g, c, t[n]);
      PayloadExtend(DATA, DueAll(g, c), Due(g, t[n]));
    } else {
      assert c + [] == c;
    }
  }

  /** The marked files take no more room than all of them. */
  lemma {:induction false} ChosenSmaller(g: Setting, t: Table, n: nat)
    requires n <= |t|
    ensures |PayloadBytes(DATA, DueAll(g, ChosenTo(DATA, t, n)))| <= |EntriesBytes(DATA, DueAll(g, t), n)|
  {
    if n > 0 {
      ChosenSmaller(g, t, n - 1);
      ChosenStep(g, t, n - 1);
      PayloadHoldsAt(DATA, DueAll(g, t), n - 1);
    }
  }

  /** Entries of a table whose whole message is within the limit can be sent. */
  lemma DueFit(g: Setting, t: Table)
    requires RecordsOk(g, t) && CodecOk(g.codec, g.limit) && |PayloadBytes(DATA, DueAll(g, t))| <= g.limit
    ensures AllFit(DATA, DueAll(g, t))
    ensures t != [] ==> Sizes(g.codec, PayloadBytes(DATA, DueAll(g, t))) && Sound(g.codec, PayloadBytes(DATA, DueAll(g, t)))
  {
    var es := DueAll(g, t);
    if t != [] {
      PayloadHoldsAt(DATA, es, 0);
      CodecFor(g.codec, g.limit, PayloadBytes(DATA, es));
      DueFitAll(g, t);
    }
  }

  lemma CodecFor(c: Codec, limit: nat, x: seq<Byte>)
    requires CodecOk(c, limit) && 0 < |x| <= limit
    ensures Sizes(c, x) && Sound(c, x)
  {
  }

  lemma DueFitAll(g: Setting, t: Table)
    requires RecordsOk(g, t) && |PayloadBytes(DATA, DueAll(g, t))| < ULONG_BOUND
    ensures AllFit(DATA, DueAll(g, t))
  {
    var es := DueAll(g, t);
    forall i | 0 <= i < |es|
      ensures EntryFits(DATA, es[i])
    {
      PayloadHoldsAt(DATA, es, i);
    }
  }

  /** The marked part of a table that can be sent can be sent too. */
  lemma ChosenOk(g: Setting, t: Table)
    requires RecordsOk(g, t) && TableFits(g, t)
    ensures RecordsOk(g, Chosen(DATA, t)) && TableFits(g, Chosen(DATA, t))
  {
    var c := Chosen(DATA, t);
    ChosenIs(DATA, t);
    ChosenSmaller(g, t, |t|);
    forall i | 0 <= i < |c|
      ensures GoodPath(c[i].path) && c[i].dataSize == |g.version(c[i].path, c[i].mtime)|
    {
      assert c[i] in t;
    }
  }

  /** zlib keeps its promises, and the client can open every file it is to write. */
  ghost predicate Able(g: Setting, host: Host) {
    forall k {:trigger ShowStep(k)} :: ShowStep(k) ==> CodecOk(g.codec, g.limit) && forall q :: host.canOpen(q)
  }

  /** One message applied by a client. */
  ghost predicate ClientStep(g: Setting, host: Host, f: FileSys, msg: seq<Byte>, f': FileSys) {
    forall k {:trigger ShowStep(k)} :: ShowStep(k) ==>
      exists junk, es :: Opening(g.codec, msg, junk) == Some((DATA, es)) && f' == Stored(f, es, Some(g.dir), host)
  }

  /** A client that has applied the messages one after the other. */
  ghost predicate ClientRun(g: Setting, host: Host, msgs: seq<seq<Byte>>, hist: seq<FileSys>) {
    && |hist| == |msgs| + 1
    && forall k {:trigger ShowRun(k)} :: ShowRun(k) ==>
         0 <= k < |msgs| ==> ClientStep(g, host, hist[k], msgs[k], hist[k + 1])
  }

  /** A client that applies the message with a table's files stores exactly those. */
  lemma ClientGets(g: Setting, host: Host, t: Table, f: FileSys, f': FileSys)
    requires RecordsOk(g, t) && TableFits(g, t) && Able(g, host) && t != []
    requires ClientStep(g, host, f, Sealed(g.codec, DATA, DueAll(g, t)), f')
    ensures f' == Stored(f, DueAll(g, t), Some(g.dir), host)
  {
    assert ShowStep(0);
    var junk, es :| Opening(g.codec, Sealed(g.codec, DATA, DueAll(g, t)), junk) == Some((DATA, es))
      && f' == Stored(f, es, Some(g.dir), host);
    assert ShowSize(0);
    DueFit(g, t);
    SealedOpens(g.codec, DATA, DueAll(g, t), junk);
  }

  /** Two files of the table with the same place on the client have the same contents. */
  ghost predicate NoClobber(g: Setting, t: Table) {
    forall i, j :: 0 <= i < |t| && 0 <= j < |t| && Target(Some(g.dir), t[i].path) == Target(Some(g.dir), t[j].path) ==>
      g.version(t[i].path, t[i].mtime) == g.version(t[j].path, t[j].mtime)
  }

  /** The last of the first n places that equals place i. */
  lemma {:induction false} LastWriter(qs: seq<Path>, i: nat, n: nat) returns (k: nat)
    requires i < n <= |qs|
    ensures i <= k < n && qs[k] == qs[i]
    ensures forall j :: k < j < n ==> qs[j] != qs[i]
  {
    if i == n - 1 || qs[n - 1] == qs[i] {
      k := n - 1;
    } else {
      k := LastWriter(qs, i, n - 1);
    }
  }

  /** What a client that stores the files of c holds at a place one of them goes to. */
  lemma StoredAgrees(g: Setting, host: Host, c: Table, f: FileSys, q: Path) returns (k: nat)
    requires IsTarget(Some(g.dir), DueAll(g, c), |c|, q) && host.canOpen(q)
    ensures k < |c| && Target(Some(g.dir), c[k].path) == q
    ensures var f' := Stored(f, DueAll(g, c), Some(g.dir), host);
      q in f' && f'[q].data == g.version(c[k].path, c[k].mtime)
  {
    var es, dir := DueAll(g, c), Some(g.dir);
    var qs := seq(|es|, i requires 0 <= i < |es| => Target(dir, es[i].path));
    var i :| 0 <= i < |c| && Target(dir, es[i].path) == q;
    k := LastWriter(qs, i, |es|);
    assert qs[i] == q;
    forall j | k < j < |es|
      ensures Target(dir, es[j].path) != Target(dir, es[k].path)
    {
      assert qs[j] != qs[i];
    }
    StoreToLast(f, es, |es|, dir, host, k);
  }

  /** Clients drop directories, so files of equal base name overwrite each other. A client that applies
      the snapshot of a table holds what it should exactly if such files agree. */
  lemma ClobberExactly(g: Setting, host: Host, t: Table, f: FileSys)
    requires forall q :: host.canOpen(q)
    ensures Covers(g, Stored(f, DueAll(g, t), Some(g.dir), host), t) <==> NoClobber(g, t)
  {
    var f' := Stored(f, DueAll(g, t), Some(g.dir), host);
    assert ShowFiles(0);
    if NoClobber(g, t) {
      forall i | 0 <= i < |t|
        ensures CoversAt(g, f', t[i])
      {
        var q := Target(Some(g.dir), t[i].path);
        assert Target(Some(g.dir), DueAll(g, t)[i].path) == q;
        var k := StoredAgrees(g, host, t, f, q);
      }
    }
    if Covers(g, f', t) {
      forall i, j | 0 <= i < |t| && 0 <= j < |t| && Target(Some(g.dir), t[i].path) == Target(Some(g.dir), t[j].path)
        ensures g.version(t[i].path, t[i].mtime) == g.version(t[j].path, t[j].mtime)
      {
        assert CoversAt(g, f', t[i]) && CoversAt(g, f', t[j]);
      }
    }
  }

  lemma CoversWithin(g: Setting, f: FileSys, s: Table, t: Table)
    requires Covers(g, f, s) && AllWithin(t, s)
    ensures Covers(g, f, t)
  {
    assert ShowFiles(0);
    forall i | 0 <= i < |t|
      ensures CoversAt(g, f, t[i])
    {
      assert Within(t[i], s);
      var j :| 0 <= j < |s| && s[j].path == t[i].path && s[j].mtime == t[i].mtime;
      assert CoversAt(g, f, s[j]);
    }
  }

  /** No file that is new to the table t or has a new time stamp is listed twice. */
  ghost predicate FreshOnce(t: Table, w: World, ps: seq<Path>) {
    forall p :: p in ps && IsFresh(t, w, p) ==> Occurs(ps, |ps|, p) == 1
  }

  /** A record of the updated table is marked, or it was there with the same version before. */
  lemma UpdatedFrom(w: World, ps: seq<Path>, t: Table, t0: Table, i: nat)
    requires DistinctPaths(t) && KeptWithin(w, ps, t, t0) && FreshOnce(t, w, ps) && AllExist(w, ps)
    requires i < |Updated(t, w, ps)|
    ensures Updated(t, w, ps)[i].state == 1 || Within(Updated(t, w, ps)[i], t0)
  {
    var u := Updated(t, w, ps);
    var p := u[i].path;
    UpdateIs(t, w, ps);
    assert HasPath(u, p);
    MarkedExactly(t, w, ps, p);
    IndexOfIs(u, p, i);
    if !IsFresh(t, w, p) {
      var k := IndexOf(t, p);
      assert Kept(w, ps, t[k]) && u[i].(state := 0) == t[k].(state := 0);
      assert u[i].mtime == t[k].mtime;
    }
  }

  /** Storing the marked files of the table u brings a client up to date that covered t0, which has the
      unmarked ones. Where an unmarked file is overwritten, it is by equal contents. */
  lemma PushCovers(g: Setting, host: Host, u: Table, t0: Table, f: FileSys)
    requires NoClobber(g, u) && Able(g, host) && Covers(g, f, t0)
    requires forall i :: 0 <= i < |u| ==> u[i].state == 1 || Within(u[i], t0)
    ensures Covers(g, Stored(f, DueAll(g, Chosen(DATA, u)), Some(g.dir), host), u)
  {
    var f' := Stored(f, DueAll(g, Chosen(DATA, u)), Some(g.dir), host);
    forall i | 0 <= i < |u|
      ensures CoversAt(g, f', u[i])
    {
      PushCoversAt(g, host, u, t0, f, i);
    }
  }

  lemma PushCoversAt(g: Setting, host: Host, u: Table, t0: Table, f: FileSys, i: nat)
    requires NoClobber(g, u) && Able(g, host) && Covers(g, f, t0)
    requires i < |u| && (u[i].state == 1 || Within(u[i], t0))
    ensures CoversAt(g, Stored(f, DueAll(g, Chosen(DATA, u)), Some(g.dir), host), u[i])
  {
    var c, dir, q := Chosen(DATA, u), Some(g.dir), Target(Some(g.dir), u[i].path);
    ChosenIs(DATA, u);
    if u[i].state == 1 {
      SentTarget(g, u, i);
    }
    if IsTarget(dir, DueAll(g, c), |c|, q) {
      assert ShowStep(0);
      var k := StoredAgrees(g, host, c, f, q);
      assert c[k] in c;
      var j :| 0 <= j < |u| && u[j] == c[k];
    } else {
      assert ShowFiles(0);
      var j :| 0 <= j < |t0| && t0[j].path == u[i].path && t0[j].mtime == u[i].mtime;
      assert CoversAt(g, f, t0[j]);
      StoreToElsewhere(f, DueAll(g, c), |c|, dir, host, q);
    }
  }

  lemma SentTarget(g: Setting, u: Table, i: nat)
    requires i < |u| && u[i].state == 1
    ensures var c := Chosen(DATA, u); IsTarget(Some(g.dir), DueAll(g, c), |c|, Target(Some(g.dir), u[i].path))
  {
    var c := Chosen(DATA, u);
    ChosenIs(DATA, u);
    assert u[i] in c;
    var k :| 0 <= k < |c| && c[k] == u[i];
    assert Target(Some(g.dir), DueAll(g, c)[k].path) == Target(Some(g.dir), u[i].path);
  }

  /** What a new client is sent for the table t. */
  function Snap(g: Setting, t: Table): seq<Byte> {
    if t == [] then [] else Sealed(g.codec, DATA, DueAll(g, t))
  }

  /** The snapshot is the message of the table s, which has every file of the current one. Files that
      have left the list since may linger in it. */
  ghost predicate SnapshotOf(g: Setting, st: State, s: Table) {
    RecordsOk(g, s) && TableFits(g, s) && st.snapshot == Snap(g, s) && AllWithin(st.table, s)
  }

  /** No socket is in two slots. */
  ghost predicate SlotsOk(slots: seq<int>) {
    forall i, j :: 0 <= i < j < |slots| && slots[i] != 0 ==> slots[i] != slots[j]
  }

  function Msgs(st: State, sock: int): seq<seq<Byte>> {
    if sock in st.sent then st.sent[sock] else []
  }

  /** What every turn of the loop keeps: s is the table the snapshot was made of. */
  ghost predicate Inv(g: Setting, st: State, s: Table) {
    forall k {:trigger ShowInv(k)} :: ShowInv(k) ==>
      RecordsOk(g, st.table) && SlotsOk(st.slots) && SnapshotOf(g, st, s)
  }

  /** The slave asked for every file it has marked, so the ones that are there by the scan have come and
      have new time stamps. */
  ghost predicate Answered(t: Table, w: World) {
    forall i :: 0 <= i < |t| && t[i].state == 1 && t[i].path in w.files ==> t[i].mtime != w.Mtime(t[i].path)
  }

  /** What the outside does: connections are new, scans meet a consistent file system, and a master's list
      names no path twice and is followed by the files that were asked for. */
  ghost predicate EventOk(g: Setting, st: State, ev: Event) {
    match ev
    case Accept(sock) => sock != 0 && sock !in st.sent && sock !in st.slots
    case Scan(w, text) => ScanOk(g, w)
    case Exchanged(list, during, w, text) =>
      ScanOk(g, w) && ListEntries(list) && DistinctEntries(list) && Answered(Heard(st.table, during, list), w)
    case _ => true
  }

  /** The tables differ in their states at most. */
  ghost predicate SameFiles(t: Table, t': Table) {
    |t'| == |t| && forall i :: 0 <= i < |t| ==> t'[i].(state := 0) == t[i].(state := 0)
  }

  lemma {:induction false} MarkToKeeps(t: Table, es: seq<Entry>, n: nat)
    requires n <= |es|
    ensures SameFiles(t, MarkTo(t, es, n))
  {
    if n > 0 {
      MarkToKeeps(t, es, n - 1);
    }
  }

  lemma SameAt(t: Table, t': Table, i: nat)
    requires SameFiles(t, t') && i < |t|
    ensures t'[i].path == t[i].path && t'[i].mtime == t[i].mtime && t'[i].dataSize == t[i].dataSize
  {
    assert t'[i].(state := 0) == t[i].(state := 0);
  }

  lemma SameRecordsOk(g: Setting, t: Table, t': Table)
    requires SameFiles(t, t') && RecordsOk(g, t)
    ensures RecordsOk(g, t')
  {
    forall i | 0 <= i < |t|
      ensures t'[i].path == t[i].path && t'[i].mtime == t[i].mtime && t'[i].dataSize == t[i].dataSize
    {
      SameAt(t, t', i);
    }
  }

  lemma SameWithin(t: Table, t': Table, s: Table)
    requires SameFiles(t, t') && AllWithin(t, s)
    ensures AllWithin(t', s)
  {
    forall i | 0 <= i < |t'|
      ensures Within(t'[i], s)
    {
      SameAt(t, t', i);
      assert Within(t[i], s);
    }
  }

  lemma SameCovers(g: Setting, t: Table, t': Table, f: FileSys)
    requires SameFiles(t, t') && Covers(g, f, t)
    ensures Covers(g, f, t')
  {
    assert ShowFiles(0);
    forall i | 0 <= i < |t'|
      ensures CoversAt(g, f, t'[i])
    {
      SameAt(t, t', i);
      assert CoversAt(g, f, t[i]);
    }
  }

  /** What a scan of t needs: the records it does not refresh are those of t0, with their sizes. */
  ghost predicate ScanFrom(g: Setting, t0: Table, t: Table, w: World, ps: seq<Path>) {
    forall k {:trigger Show(k)} :: Show(k) ==>
      && KeptSizes(g, w, ps, t) && KeptWithin(w, ps, t, t0)
      && Consistent(g, w) && AllExist(w, ps) && GoodFiles(w.files)
  }

  lemma PlainScan(g: Setting, t: Table, w: World, text: seq<Byte>)
    requires RecordsOk(g, t) && ScanOk(g, w)
    ensures ScanFrom(g, t, t, w, Listed(w, g.cfg, text, 0))
  {
    ListedExist(w, g.cfg, text, 0);
    WithinSelf(t);
  }

  /** After a master's list and the files asked for, the scan refreshes every record the list has added. */
  lemma HeardScan(g: Setting, t: Table, list: seq<Entry>, during: World, w: World, text: seq<Byte>)
    requires RecordsOk(g, t) && ScanOk(g, w) && ListEntries(list) && DistinctEntries(list)
    requires Answered(Heard(t, during, list), w)
    ensures ScanFrom(g, t, Heard(t, during, list), w, Listed(w, g.cfg, text, 0))
  {
    var ps, t1 := Listed(w, g.cfg, text, 0), Heard(t, during, list);
    ListedExist(w, g.cfg, text, 0);
    if t != [] {
      CompareToIs(t, during, list, |list|);
      forall i | 0 <= i < |t1| && Kept(w, ps, t1[i])
        ensures Within(t1[i], t) && t1[i].dataSize == |g.version(t1[i].path, t1[i].mtime)|
      {
        HeardAt(t, during, list, i);
        assert t[i].path == t1[i].path && t[i].mtime == t1[i].mtime;
      }
    }
  }

  /** Unmarked records have not been touched by the list. */
  lemma HeardAt(t: Table, during: World, list: seq<Entry>, i: nat)
    requires DistinctPaths(t) && ListEntries(list) && DistinctEntries(list)
    requires i < |CompareTo(t, during, list, |list|)| && CompareTo(t, during, list, |list|)[i].state != 1
    ensures i < |t| && CompareTo(t, during, list, |list|)[i] == t[i]
  {
    CompareToIs(t, during, list, |list|);
    if i < |t| && Names(list, |list|, t[i].path) {
      var j :| 0 <= j < |list| && list[j].path == t[i].path;
      assert CompareTo(t, during, list, |list|)[i] == CompareRecord(during, t[i], list[j]);
    }
  }

  /** A scan that pushes, from a state that keeps the invariant. */
  ghost predicate Pushing(g: Setting, st: State, t: Table, w: World, ps: seq<Path>, st': State,
                          es1: seq<Entry>, es2: seq<Entry>) {
    ScanFrom(g, st.table, t, w, ps) && forall k {:trigger Show(k)} :: Show(k) ==>
      SlotsOk(st.slots) && Pushes(g.codec, st, w, Updated(t, w, ps), st', es1, es2) && TableFits(g, st'.table)
  }

  /** A scan that finds nothing new, from a state that keeps the invariant. */
  ghost predicate Quieting(g: Setting, st: State, t: Table, w: World, ps: seq<Path>, st': State) {
    ScanFrom(g, st.table, t, w, ps) && forall k {:trigger Show(k)} :: Show(k) ==>
      !TriggersTo(WithStates(t, -1), w, ps, |ps|) && st' == st.(table := WithStates(Updated(t, w, ps), 0))
  }

  /** The three things a scan can do. */
  lemma ScanCases(g: Setting, st: State, s: Table, t: Table, w: World, text: seq<Byte>, st': State)
    returns (es1: seq<Entry>, es2: seq<Entry>)
    requires Inv(g, st, s) && Scans(g.cfg, g.codec, st, t, w, text, st') && TableFits(g, st'.table)
    requires ScanFrom(g, st.table, t, w, Listed(w, g.cfg, text, 0))
    ensures var ps := Listed(w, g.cfg, text, 0);
      st' == st || Pushing(g, st, t, w, ps, st', es1, es2) || Quieting(g, st, t, w, ps, st')
  {
    assert ShowInv(0);
    var ps := Listed(w, g.cfg, text, 0);
    es1, es2 := [], [];
    if t != [] {
      if TriggersTo(WithStates(t, -1), w, ps, |ps|) {
        es1, es2 :| Pushes(g.codec, st, w, Updated(t, w, ps), st', es1, es2);
        assert Pushing(g, st, t, w, ps, st', es1, es2);
      } else {
        assert Quieting(g, st, t, w, ps, st');
      }
    }
  }

  /** A push leaves a snapshot of exactly the updated table, and broadcasts exactly its marked files. */
  lemma PushIs(g: Setting, st: State, t: Table, w: World, ps: seq<Path>, st': State, es1: seq<Entry>, es2: seq<Entry>)
    requires Pushing(g, st, t, w, ps, st', es1, es2)
    ensures var u := Updated(t, w, ps);
      && RecordsOk(g, u) && UpToDate(w, u) && TableFits(g, u)
      && es1 == DueAll(g, Chosen(DATA, u)) && es2 == DueAll(g, u) && st'.table == WithStates(u, 0)
      && RecordsOk(g, st'.table) && TableFits(g, st'.table) && DueAll(g, st'.table) == DueAll(g, u)
      && st'.snapshot == Snap(g, st'.table) && st'.slots == st.slots
      && st'.sent == (if es1 == [] then st.sent else BroadcastTo(st.sent, st.slots, Sealed(g.codec, DATA, es1), |st.slots|))
  {
    assert Show(0);
    var u := Updated(t, w, ps);
    UpdatedOk(g, w, ps, t);
    PushEntries(g, w, u, es1, es2);
    SameRecordsOk(g, u, st'.table);
    assert DueAll(g, u) == DueAll(g, st'.table);
  }

  lemma PushEntries(g: Setting, w: World, u: Table, es1: seq<Entry>, es2: seq<Entry>)
    requires Consistent(g, w) && UpToDate(w, u)
    requires Carries(DATA, w, Chosen(DATA, u), es1) && Carries(DATA, w, Chosen(DATA, WithStates(u, 1)), es2)
    ensures es1 == DueAll(g, Chosen(DATA, u)) && es2 == DueAll(g, u)
  {
    var all := WithStates(u, 1);
    ChosenIs(DATA, u);
    ChosenAll(all, |all|);
    assert all[..|all|] == all;
    forall i | 0 <= i < |Chosen(DATA, u)|
      ensures Chosen(DATA, u)[i] in u
    {
      assert Chosen(DATA, u)[i] in Chosen(DATA, u);
    }
    CarriesDue(g, w, Chosen(DATA, u), es1);
    CarriesDue(g, w, all, es2);
    assert DueAll(g, all) == DueAll(g, u);
  }

  lemma WithinSelf(t: Table)
    ensures AllWithin(t, t)
  {
  }

  /** A snapshot of exactly the table is in order. */
  lemma ExactInv(g: Setting, st: State)
    requires RecordsOk(g, st.table) && TableFits(g, st.table) && SlotsOk(st.slots) && st.snapshot == Snap(g, st.table)
    ensures Inv(g, st, st.table)
  {
    WithinSelf(st.table);
  }

  /** A scan that finds something new keeps the invariant, with a snapshot of the new table. */
  lemma PushKeeps(g: Setting, st: State, t: Table, w: World, ps: seq<Path>, st': State, es1: seq<Entry>, es2: seq<Entry>)
    requires Pushing(g, st, t, w, ps, st', es1, es2)
    ensures Inv(g, st', st'.table)
  {
    assert Show(0);
    PushIs(g, st, t, w, ps, st', es1, es2);
    ExactInv(g, st');
  }

  /** A scan that finds nothing new keeps the invariant and the snapshot. */
  lemma QuietKeeps(g: Setting, st: State, s: Table, t: Table, w: World, ps: seq<Path>, st': State)
    requires Quieting(g, st, t, w, ps, st') && Inv(g, st, s)
    ensures Inv(g, st', s)
  {
    assert Show(0);
    assert ShowInv(0);
    var u := Updated(t, w, ps);
    UpdatedOk(g, w, ps, t);
    SameRecordsOk(g, u, st'.table);
    QuietWithin(g, st.table, t, w, ps);
    WithinTrans(u, st.table, s);
    SameWithin(u, st'.table, s);
  }

  /** One scan keeps the invariant. */
  lemma ScanKeeps(g: Setting, st: State, s: Table, t: Table, w: World, text: seq<Byte>, st': State) returns (s': Table)
    requires Inv(g, st, s) && Scans(g.cfg, g.codec, st, t, w, text, st') && TableFits(g, st'.table)
    requires ScanFrom(g, st.table, t, w, Listed(w, g.cfg, text, 0))
    ensures Inv(g, st', s') && (s' == s || s' == st'.table)
  {
    var es1, es2 := ScanCases(g, st, s, t, w, text, st');
    var ps := Listed(w, g.cfg, text, 0);
    s' := s;
    if Pushing(g, st, t, w, ps, st', es1, es2) {
      PushKeeps(g, st, t, w, ps, st', es1, es2);
      s' := st'.table;
    } else if Quieting(g, st, t, w, ps, st') {
      QuietKeeps(g, st, s, t, w, ps, st');
    }
  }

  lemma WithinTrans(a: Table, b: Table, c: Table)
    requires AllWithin(a, b) && AllWithin(b, c)
    ensures AllWithin(a, c)
  {
    forall i | 0 <= i < |a|
      ensures Within(a[i], c)
    {
      assert Within(a[i], b);
      var j :| 0 <= j < |b| && b[j].path == a[i].path && b[j].mtime == a[i].mtime;
      assert Within(b[j], c);
    }
  }

  /** A scan that finds nothing new leaves only files that were there, at the same versions. */
  lemma QuietWithin(g: Setting, t0: Table, t: Table, w: World, ps: seq<Path>)
    requires ScanFrom(g, t0, t, w, ps) && !TriggersTo(WithStates(t, -1), w, ps, |ps|)
    ensures AllWithin(Updated(t, w, ps), t0)
  {
    assert Show(0);
    var u := Updated(t, w, ps);
    ResultExactly(t, w, ps);
    UpdateIs(t, w, ps);
    forall i | 0 <= i < |u|
      ensures Within(u[i], t0)
    {
      var p := u[i].path;
      assert HasPath(u, p);
      assert !IsFresh(t, w, p);
      MarkedExactly(t, w, ps, p);
      IndexOfIs(u, p, i);
      var k := IndexOf(t, p);
      assert Kept(w, ps, t[k]) && u[i].(state := 0) == t[k].(state := 0);
      assert u[i].mtime == t[k].mtime;
    }
  }

  /** Connections come and go without touching the table or the snapshot. */
  lemma SlotsKeep(g: Setting, st: State, s: Table, st': State)
    requires Inv(g, st, s) && SlotsOk(st'.slots) && st'.table == st.table && st'.snapshot == st.snapshot
    ensures Inv(g, st', s)
  {
    assert ShowInv(0);
  }

  lemma MarksKeep(g: Setting, st: State, s: Table, es: seq<Entry>, st': State)
    requires Inv(g, st, s) && st' == st.(table := MarkTo(st.table, es, |es|))
    ensures Inv(g, st', s)
  {
    assert ShowInv(0);
    MarkToKeeps(st.table, es, |es|);
    SameRecordsOk(g, st.table, st'.table);
    SameWithin(st.table, st'.table, s);
  }

  lemma InvOpen(g: Setting, st: State, s: Table)
    requires Inv(g, st, s)
    ensures RecordsOk(g, st.table) && SlotsOk(st.slots)
  {
    assert ShowInv(0);
  }

  /** Every turn of the loop keeps the invariant, and its snapshot is that of before or of the new table. */
  lemma NextKeeps(g: Setting, st: State, s: Table, ev: Event, st': State) returns (s': Table)
    requires Inv(g, st, s) && Next(g.cfg, g.codec, st, ev, st') && EventOk(g, st, ev) && TableFits(g, st'.table)
    ensures Inv(g, st', s') && (s' == s || s' == st'.table)
  {
    InvOpen(g, st, s);
    s' := s;
    match ev
    case Accept(sock) =>
      SlotsKeep(g, st, s, st');
    case Ready(closed) =>
      SlotsKeep(g, st, s, st');
    case Requested(es) =>
      MarksKeep(g, st, s, es, st');
    case Scan(w, text) =>
      PlainScan(g, st.table, w, text);
      s' := ScanKeeps(g, st, s, st.table, w, text, st');
    case Exchanged(list, during, w, text) =>
      HeardScan(g, st.table, list, during, w, text);
      s' := ScanKeeps(g, st, s, Heard(st.table, during, list), w, text, st');
  }

  /** The first table: one marked, up-to-date record for every existing listed file. */
  lemma {:induction false} AddedIs(w: World, ps: seq<Path>, n: nat)
    requires n <= |ps|
    ensures var t := AddedTo([], w, ps, n);
      && DistinctPaths(t)
      && (forall i :: 0 <= i < |t| ==> t[i] == w.NewRecord(t[i].path) && t[i].path in ps[..n])
      && (forall p :: p in ps[..n] ==> HasPath(t, p))
  {
    if n > 0 {
      AddedIs(w, ps, n - 1);
      AddedStep(w, ps, n, AddedTo([], w, ps, n - 1));
    }
  }

  lemma AddedStep(w: World, ps: seq<Path>, n: nat, t: Table)
    requires 0 < n <= |ps| && DistinctPaths(t)
    requires forall i :: 0 <= i < |t| ==> t[i] == w.NewRecord(t[i].path) && t[i].path in ps[..n - 1]
    requires forall p :: p in ps[..n - 1] ==> HasPath(t, p)
    ensures var t' := Added(t, w, ps[n - 1]);
      && DistinctPaths(t')
      && (forall i :: 0 <= i < |t'| ==> t'[i] == w.NewRecord(t'[i].path) && t'[i].path in ps[..n])
      && (forall p :: p in ps[..n] ==> HasPath(t', p))
  {
    var p, t' := ps[n - 1], Added(t, w, ps[n - 1]);
    assert ps[..n] == ps[..n - 1] + [p];
    assert t'[IndexOf(t, p)].path == p;
    forall q | q in ps[..n - 1]
      ensures HasPath(t', q)
    {
      assert HasPath(t, q);
      var i :| 0 <= i < |t| && t[i].path == q;
      assert t'[i].path == q;
    }
  }

  lemma InitTable(g: Setting, w: World, ps: seq<Path>)
    requires Consistent(g, w) && GoodFiles(w.files) && AllExist(w, ps)
    ensures var t := AddedTo([], w, ps, |ps|); UpToDate(w, t) && RecordsOk(g, t) && Chosen(DATA, t) == t
  {
    var t := AddedTo([], w, ps, |ps|);
    AddedIs(w, ps, |ps|);
    ChosenAll(t, |t|);
    assert t[..|t|] == t;
  }

  lemma InitSnapshot(g: Setting, w: World, t: Table, t': Table, es: seq<Entry>)
    requires Consistent(g, w) && UpToDate(w, t) && Chosen(DATA, t) == t && t' == WithStates(t, 0)
    requires Carries(DATA, w, Chosen(DATA, t), es)
    ensures es == DueAll(g, t') && SameFiles(t, t')
  {
    CarriesDue(g, w, t, es);
    assert es == DueAll(g, t');
  }

  lemma InitInv(g: Setting, w: World, t: Table, st: State, es: seq<Entry>)
    requires Consistent(g, w) && UpToDate(w, t) && RecordsOk(g, t) && Chosen(DATA, t) == t
    requires Carries(DATA, w, Chosen(DATA, t), es) && st.snapshot == if t == [] then [] else Sealed(g.codec, DATA, es)
    requires st.table == WithStates(t, 0) && SlotsOk(st.slots) && TableFits(g, st.table)
    ensures Inv(g, st, st.table)
  {
    InitSnapshot(g, w, t, st.table, es);
    SameRecordsOk(g, t, st.table);
    ExactInv(g, st);
  }

  lemma InitOk(g: Setting, w: World, text: seq<Byte>, st: State)
    requires Init(g.cfg, g.codec, w, text, st) && ScanOk(g, w) && TableFits(g, st.table)
    ensures Inv(g, st, st.table)
  {
    var ps := Listed(w, g.cfg, text, 0);
    var t := AddedTo([], w, ps, |ps|);
    ListedExist(w, g.cfg, text, 0);
    InitTable(g, w, ps);
    var es :| Carries(DATA, w, Chosen(DATA, t), es) && st.snapshot == if t == [] then [] else Sealed(g.codec, DATA, es);
    InitInv(g, w, t, st, es);
  }

  /** One turn of the loop in an environment that keeps its side. */
  ghost predicate Turn(g: Setting, st: State, ev: Event, st': State) {
    forall k {:trigger Show(k)} :: Show(k) ==>
      Next(g.cfg, g.codec, st, ev, st') && EventOk(g, st, ev) && TableFits(g, st'.table)
  }

  ghost predicate Starts(g: Setting, w: World, text: seq<Byte>, st: State) {
    forall k {:trigger Show(k)} :: Show(k) ==>
      Init(g.cfg, g.codec, w, text, st) && ScanOk(g, w) && TableFits(g, st.table)
  }

  /** The states and events are a run of the server from its start, up to turn n. */
  ghost predicate RunTo(g: Setting, w: World, text: seq<Byte>, states: seq<State>, events: seq<Event>, n: nat) {
    && n < |states| && n <= |events|
    && if n == 0 then Starts(g, w, text, states[0])
       else RunTo(g, w, text, states, events, n - 1) && Turn(g, states[n - 1], events[n - 1], states[n])
  }

  lemma StartKeeps(g: Setting, w: World, text: seq<Byte>, st: State)
    requires Starts(g, w, text, st)
    ensures Inv(g, st, st.table) && st.slots == seq(MAX_CLIENTS, i => 0) && st.sent == map[]
  {
    assert Show(0);
    InitOk(g, w, text, st);
  }

  lemma TurnKeeps(g: Setting, st: State, s: Table, ev: Event, st': State) returns (s': Table)
    requires Inv(g, st, s) && Turn(g, st, ev, st')
    ensures Inv(g, st', s') && (s' == s || s' == st'.table)
  {
    assert Show(0);
    s' := NextKeeps(g, st, s, ev, st');
  }

  /** At every turn of every run the snapshot kept for new clients is the message of the table as it was
      at some turn m, with every file of the present table as of its last recorded change. */
  lemma {:induction false} RunInv(g: Setting, w: World, text: seq<Byte>, states: seq<State>, events: seq<Event>, n: nat)
    returns (m: nat)
    requires RunTo(g, w, text, states, events, n)
    ensures m <= n && Inv(g, states[n], states[m].table)
  {
    if n == 0 {
      StartKeeps(g, w, text, states[0]);
      m := 0;
    } else {
      m := RunInv(g, w, text, states, events, n - 1);
      var s := TurnKeeps(g, states[n - 1], states[m].table, events[n - 1], states[n]);
      if s == states[n].table {
        m := n;
      }
    }
  }

  lemma {:induction false} BroadcastElsewhere(sent: map<int, seq<seq<Byte>>>, slots: seq<int>, msg: seq<Byte>, n: nat, sock: int)
    requires n <= |slots| && forall i :: 0 <= i < n ==> slots[i] != sock
    ensures var s := BroadcastTo(sent, slots, msg, n); (sock in s <==> sock in sent) && (sock in sent ==> s[sock] == sent[sock])
  {
    if n > 0 {
      BroadcastElsewhere(sent, slots, msg, n - 1, sock);
    }
  }

  /** A broadcast puts the message exactly once on every connection that has a slot. */
  lemma {:induction false} BroadcastReaches(sent: map<int, seq<seq<Byte>>>, slots: seq<int>, msg: seq<Byte>, n: nat, k: nat)
    requires k < n <= |slots| && SlotsOk(slots) && slots[k] != 0
    ensures var s := BroadcastTo(sent, slots, msg, n);
      slots[k] in s && s[slots[k]] == (if slots[k] in sent then sent[slots[k]] else []) + [msg]
  {
    if k < n - 1 {
      BroadcastReaches(sent, slots, msg, n - 1, k);
      assert slots[n - 1] != slots[k];
    } else {
      BroadcastElsewhere(sent, slots, msg, n - 1, slots[k]);
    }
  }

  /** A newly connected client that has applied the snapshot. */
  lemma SnapshotCovers(g: Setting, host: Host, st: State, s: Table, f: FileSys, f': FileSys)
    requires SnapshotOf(g, st, s) && NoClobber(g, s) && Able(g, host)
    requires st.snapshot != [] && ClientStep(g, host, f, st.snapshot, f')
    ensures Covers(g, f', st.table)
  {
    ClientGets(g, host, s, f, f');
    assert ShowStep(0);
    ClobberExactly(g, host, s, f);
    CoversWithin(g, f', s, st.table);
  }

  /** Applying the broadcast of a scan brings the files of a client up to date. */
  lemma PushedFiles(g: Setting, host: Host, st: State, t: Table, w: World, ps: seq<Path>, st': State,
                    es1: seq<Entry>, es2: seq<Entry>, f: FileSys)
    requires Pushing(g, st, t, w, ps, st', es1, es2) && FreshOnce(t, w, ps) && NoClobber(g, st'.table)
    requires Able(g, host) && Covers(g, f, st.table)
    ensures Covers(g, Stored(f, es1, Some(g.dir), host), st'.table)
  {
    var u := Updated(t, w, ps);
    PushIs(g, st, t, w, ps, st', es1, es2);
    PushFrom(g, st, t, w, ps, st', es1, es2);
    SameClobber(g, st'.table, u);
    PushCovers(g, host, u, st.table, f);
    SameCovers(g, u, st'.table, Stored(f, es1, Some(g.dir), host));
  }

  lemma PushFrom(g: Setting, st: State, t: Table, w: World, ps: seq<Path>, st': State, es1: seq<Entry>, es2: seq<Entry>)
    requires Pushing(g, st, t, w, ps, st', es1, es2) && FreshOnce(t, w, ps)
    ensures forall i :: 0 <= i < |Updated(t, w, ps)| ==>
      Updated(t, w, ps)[i].state == 1 || Within(Updated(t, w, ps)[i], st.table)
  {
    assert Show(0);
    forall i | 0 <= i < |Updated(t, w, ps)|
      ensures Updated(t, w, ps)[i].state == 1 || Within(Updated(t, w, ps)[i], st.table)
    {
      UpdatedFrom(w, ps, t, st.table, i);
    }
  }

  lemma SameClobber(g: Setting, t: Table, t': Table)
    requires NoClobber(g, t) && |t'| == |t| && forall i :: 0 <= i < |t| ==> t'[i].path == t[i].path && t'[i].mtime == t[i].mtime
    ensures NoClobber(g, t')
  {
  }

  /** A client with a slot is sent exactly the broadcast. */
  lemma PushSent(g: Setting, st: State, t: Table, w: World, ps: seq<Path>, st': State,
                 es1: seq<Entry>, es2: seq<Entry>, sock: int)
    requires Pushing(g, st, t, w, ps, st', es1, es2) && sock != 0 && sock in st.slots
    ensures Msgs(st', sock) == Msgs(st, sock) + if es1 == [] then [] else [Sealed(g.codec, DATA, es1)]
  {
    assert Show(0);
    if es1 != [] {
      var k :| 0 <= k < |st.slots| && st.slots[k] == sock;
      BroadcastReaches(st.sent, st.slots, Sealed(g.codec, DATA, es1), |st.slots|, k);
    }
  }

  /** What is broadcast can be opened by the clients. */
  lemma PushOpens(g: Setting, host: Host, st: State, t: Table, w: World, ps: seq<Path>, st': State,
                  es1: seq<Entry>, es2: seq<Entry>, f: FileSys, f': FileSys)
    requires Pushing(g, st, t, w, ps, st', es1, es2) && Able(g, host) && es1 != []
    requires ClientStep(g, host, f, Sealed(g.codec, DATA, es1), f')
    ensures f' == Stored(f, es1, Some(g.dir), host)
  {
    var u := Updated(t, w, ps);
    PushIs(g, st, t, w, ps, st', es1, es2);
    ChosenOk(g, u);
    ClientGets(g, host, Chosen(DATA, u), f, f');
  }

  lemma RunStep(g: Setting, host: Host, msgs: seq<seq<Byte>>, hist: seq<FileSys>, m: nat)
    requires ClientRun(g, host, msgs, hist) && m < |msgs|
    ensures ClientStep(g, host, hist[m], msgs[m], hist[m + 1])
  {
    assert ShowRun(m);
  }

  lemma PushReaches(g: Setting, host: Host, st: State, t: Table, w: World, ps: seq<Path>, st': State,
                    es1: seq<Entry>, es2: seq<Entry>, sock: int, hist: seq<FileSys>)
    requires Pushing(g, st, t, w, ps, st', es1, es2) && FreshOnce(t, w, ps) && NoClobber(g, st'.table) && Able(g, host)
    requires sock != 0 && sock in st.slots && ClientRun(g, host, Msgs(st', sock), hist)
    requires |Msgs(st, sock)| < |hist| && Covers(g, hist[|Msgs(st, sock)|], st.table)
    ensures Covers(g, hist[|hist| - 1], st'.table)
  {
    var m := |Msgs(st, sock)|;
    PushSent(g, st, t, w, ps, st', es1, es2, sock);
    PushedFiles(g, host, st, t, w, ps, st', es1, es2, hist[m]);
    if es1 != [] {
      LastStep(g, host, Msgs(st, sock), Sealed(g.codec, DATA, es1), hist);
      PushOpens(g, host, st, t, w, ps, st', es1, es2, hist[m], hist[m + 1]);
    }
  }

  /** The last message a client has applied. */
  lemma LastStep(g: Setting, host: Host, msgs: seq<seq<Byte>>, msg: seq<Byte>, hist: seq<FileSys>)
    requires ClientRun(g, host, msgs + [msg], hist)
    ensures |hist| == |msgs| + 2 && ClientStep(g, host, hist[|msgs|], msg, hist[|msgs| + 1])
  {
    RunStep(g, host, msgs + [msg], hist, |msgs|);
  }

  lemma QuietReaches(g: Setting, st: State, t: Table, w: World, ps: seq<Path>, st': State, f: FileSys)
    requires Quieting(g, st, t, w, ps, st') && Covers(g, f, st.table)
    ensures Covers(g, f, st'.table)
  {
    assert Show(0);
    var u := Updated(t, w, ps);
    QuietWithin(g, st.table, t, w, ps);
    CoversWithin(g, f, st.table, u);
    SameCovers(g, u, st'.table, f);
  }

  lemma QuietSends(g: Setting, st: State, t: Table, w: World, ps: seq<Path>, st': State)
    requires Quieting(g, st, t, w, ps, st')
    ensures st'.sent == st.sent && st'.slots == st.slots && st'.snapshot == st.snapshot
  {
    assert Show(0);
  }

  /** A client that covers the table, has a slot and applies what is sent to it in one scan covers the
      table afterwards, unless a fresh file is listed twice or files clobber each other. */
  lemma ScanReaches(g: Setting, host: Host, st: State, s: Table, t: Table, w: World, text: seq<Byte>, st': State,
                    sock: int, hist: seq<FileSys>)
    requires Inv(g, st, s) && Able(g, host)
    requires Scans(g.cfg, g.codec, st, t, w, text, st') && TableFits(g, st'.table)
    requires var ps := Listed(w, g.cfg, text, 0);
      ScanFrom(g, st.table, t, w, ps) && FreshOnce(t, w, ps) && NoClobber(g, st'.table)
    requires sock != 0 && sock in st.slots && ClientRun(g, host, Msgs(st', sock), hist)
    requires |Msgs(st, sock)| < |hist| && Covers(g, hist[|Msgs(st, sock)|], st.table)
    ensures Covers(g, hist[|hist| - 1], st'.table)
  {
    var es1, es2 := ScanCases(g, st, s, t, w, text, st');
    CaseReaches(g, host, st, t, w, Listed(w, g.cfg, text, 0), st', es1, es2, sock, hist);
  }

  lemma CaseReaches(g: Setting, host: Host, st: State, t: Table, w: World, ps: seq<Path>, st': State,
                    es1: seq<Entry>, es2: seq<Entry>, sock: int, hist: seq<FileSys>)
    requires Able(g, host) && FreshOnce(t, w, ps) && NoClobber(g, st'.table)
    requires st' == st || Pushing(g, st, t, w, ps, st', es1, es2) || Quieting(g, st, t, w, ps, st')
    requires sock != 0 && sock in st.slots && ClientRun(g, host, Msgs(st', sock), hist)
    requires |Msgs(st, sock)| < |hist| && Covers(g, hist[|Msgs(st, sock)|], st.table)
    ensures Covers(g, hist[|hist| - 1], st'.table)
  {
    if Pushing(g, st, t, w, ps, st', es1, es2) {
      PushReaches(g, host, st, t, w, ps, st', es1, es2, sock, hist);
    } else if Quieting(g, st, t, w, ps, st') {
      QuietSends(g, st, t, w, ps, st');
      QuietReaches(g, st, t, w, ps, st', hist[|Msgs(st, sock)|]);
    }
  }

  /** A client whose connection has just been accepted. */
  lemma AcceptReaches(g: Setting, host: Host, st: State, s: Table, sock: int, st': State, hist: seq<FileSys>)
    requires Inv(g, st, s) && NoClobber(g, s) && Able(g, host)
    requires Next(g.cfg, g.codec, st, Accept(sock), st') && EventOk(g, st, Accept(sock))
    requires ClientRun(g, host, Msgs(st', sock), hist)
    ensures Covers(g, hist[|hist| - 1], st'.table)
  {
    assert ShowInv(0);
    if st.snapshot != [] {
      LastStep(g, host, [], st.snapshot, hist);
      SnapshotCovers(g, host, st, s, hist[0], hist[1]);
    } else {
      NoSnapshot(g, st, s);
    }
  }

  lemma NoSnapshot(g: Setting, st: State, s: Table)
    requires SnapshotOf(g, st, s) && st.snapshot == []
    ensures st.table == []
  {
    assert st.table != [] ==> Within(st.table[0], s);
  }

  lemma ScanSends(g: Setting, st: State, s: Table, t: Table, w: World, text: seq<Byte>, st': State, sock: int)
    requires Inv(g, st, s) && Scans(g.cfg, g.codec, st, t, w, text, st') && TableFits(g, st'.table)
    requires ScanFrom(g, st.table, t, w, Listed(w, g.cfg, text, 0)) && sock != 0 && sock in st'.slots
    ensures sock in st.slots && Msgs(st, sock) <= Msgs(st', sock)
  {
    var es1, es2 := ScanCases(g, st, s, t, w, text, st');
    var ps := Listed(w, g.cfg, text, 0);
    if Pushing(g, st, t, w, ps, st', es1, es2) {
      PushIs(g, st, t, w, ps, st', es1, es2);
      PushSent(g, st, t, w, ps, st', es1, es2, sock);
    } else if Quieting(g, st, t, w, ps, st') {
      QuietSends(g, st, t, w, ps, st');
    }
  }

  /** What has been sent to a connection only grows, and a slot is given to new connections only. */
  lemma TurnSends(g: Setting, st: State, s: Table, ev: Event, st': State, sock: int)
    requires Inv(g, st, s) && Turn(g, st, ev, st') && sock != 0 && sock in st'.slots && ev != Accept(sock)
    ensures sock in st.slots && Msgs(st, sock) <= Msgs(st', sock)
  {
    assert Show(0);
    InvOpen(g, st, s);
    match ev
    case Accept(other) =>
    case Ready(closed) =>
    case Requested(es) =>
    case Scan(w, text) =>
      PlainScan(g, st.table, w, text);
      ScanSends(g, st, s, st.table, w, text, st', sock);
    case Exchanged(list, during, w, text) =>
      HeardScan(g, st.table, list, during, w, text);
      ScanSends(g, st, s, Heard(st.table, during, list), w, text, st', sock);
  }

  /** What decides whether a turn loses a change: a fresh file that is listed twice is never sent. */
  ghost predicate TurnFreshOnce(g: Setting, st: State, ev: Event) {
    match ev
    case Scan(w, text) => FreshOnce(st.table, w, Listed(w, g.cfg, text, 0))
    case Exchanged(list, during, w, text) =>
      ListEntries(list) ==> FreshOnce(Heard(st.table, during, list), w, Listed(w, g.cfg, text, 0))
    case _ => true
  }

  lemma TurnReaches(g: Setting, host: Host, st: State, s: Table, ev: Event, st': State, sock: int, hist: seq<FileSys>)
    requires Inv(g, st, s) && NoClobber(g, s) && NoClobber(g, st'.table) && TurnFreshOnce(g, st, ev) && Able(g, host)
    requires Turn(g, st, ev, st') && sock != 0 && sock in st'.slots && ClientRun(g, host, Msgs(st', sock), hist)
    requires ev != Accept(sock) ==>
      sock in st.slots && |Msgs(st, sock)| < |hist| && Covers(g, hist[|Msgs(st, sock)|], st.table)
    ensures Covers(g, hist[|hist| - 1], st'.table)
  {
    assert Show(0);
    InvOpen(g, st, s);
    match ev
    case Accept(other) =>
      if other == sock {
        AcceptReaches(g, host, st, s, sock, st', hist);
      }
    case Ready(closed) =>
    case Requested(es) =>
      MarkToKeeps(st.table, es, |es|);
      SameCovers(g, st.table, st'.table, hist[|hist| - 1]);
    case Scan(w, text) =>
      PlainScan(g, st.table, w, text);
      ScanReaches(g, host, st, s, st.table, w, text, st', sock, hist);
    case Exchanged(list, during, w, text) =>
      HeardScan(g, st.table, list, during, w, text);
      ScanReaches(g, host, st, s, Heard(st.table, during, list), w, text, st', sock, hist);
  }

  /** A history of a client, cut where the messages of an earlier turn end. */
  lemma EarlierRun(g: Setting, host: Host, msgs: seq<seq<Byte>>, hist: seq<FileSys>, m: nat, before: seq<seq<Byte>>)
    requires m <= |msgs| && before == msgs[..m] && ClientRun(g, host, msgs, hist)
    ensures ClientRun(g, host, before, hist[..m + 1])
  {
    forall k | 0 <= k < m
      ensures ClientStep(g, host, hist[..m + 1][k], before[k], hist[..m + 1][k + 1])
    {
      assert ShowRun(k);
    }
  }

  /** What a client had applied one turn earlier. */
  lemma HistoryBefore(g: Setting, host: Host, st: State, s: Table, ev: Event, st': State, sock: int, hist: seq<FileSys>)
    returns (h: seq<FileSys>)
    requires Inv(g, st, s) && Turn(g, st, ev, st') && sock != 0 && sock in st'.slots && ev != Accept(sock)
    requires ClientRun(g, host, Msgs(st', sock), hist)
    ensures sock in st.slots && ClientRun(g, host, Msgs(st, sock), h)
    ensures |Msgs(st, sock)| < |hist| && h[|h| - 1] == hist[|Msgs(st, sock)|]
  {
    var m := |Msgs(st, sock)|;
    TurnSends(g, st, s, ev, st', sock);
    EarlierRun(g, host, Msgs(st', sock), hist, m, Msgs(st, sock));
    h := hist[..m + 1];
  }

  /** The run loses nothing: no turn finds a fresh file listed twice, and at no turn do two files of the
      table with the same place on the clients differ. */
  ghost predicate NothingLost(g: Setting, states: seq<State>, events: seq<Event>, n: nat)
    requires n < |states| && n <= |events|
  {
    && (forall k :: 0 <= k <= n ==> NoClobber(g, states[k].table))
    && (forall k :: 0 <= k < n ==> TurnFreshOnce(g, states[k], events[k]))
  }

  /** Whole-run convergence. In every run that loses nothing, at every turn of the loop, a client that has a
      slot and has applied everything sent to it holds, for every path in the server's table, exactly the
      contents as of that path's last recorded change. */
  lemma {:induction false} ClientsConverge(g: Setting, host: Host, w0: World, text0: seq<Byte>,
                                           states: seq<State>, events: seq<Event>, n: nat, sock: int, hist: seq<FileSys>)
    requires RunTo(g, w0, text0, states, events, n) && NothingLost(g, states, events, n)
    requires Able(g, host)
    requires sock != 0 && sock in states[n].slots && ClientRun(g, host, Msgs(states[n], sock), hist)
    ensures Covers(g, hist[|hist| - 1], states[n].table)
    decreases n
  {
    if n == 0 {
      StartKeeps(g, w0, text0, states[0]);
    } else {
      var m := RunInv(g, w0, text0, states, events, n - 1);
      var st, st', ev := states[n - 1], states[n], events[n - 1];
      if ev != Accept(sock) {
        var h := HistoryBefore(g, host, st, states[m].table, ev, st', sock, hist);
        ClientsConverge(g, host, w0, text0, states, events, n - 1, sock, h);
      }
      TurnReaches(g, host, st, states[m].table, ev, st', sock, hist);
    }
  }

  /** No two files of the table have the same last component, and all of them fit the buffer behind the
      clients' directory. */
  ghost predicate NamesApart(dir: Path, t: Table) {
    && (forall i, b :: 0 <= i < |t| && NameOf(t[i].path, b) ==> |dir| + 1 + |b| < 4096)
    && (forall i, j, b :: 0 <= i < j < |t| && NameOf(t[i].path, b) ==> !NameOf(t[j].path, b))
  }

  /** Files with different last components do not clobber each other. */
  lemma NamesClobber(g: Setting, t: Table)
    requires RecordsOk(g, t) && NamesApart(g.dir, t)
    ensures NoClobber(g, t)
  {
    forall i, j | 0 <= i < |t| && 0 <= j < |t| && Target(Some(g.dir), t[i].path) == Target(Some(g.dir), t[j].path)
      ensures i == j
    {
      var x, b := NameExactly(t[i].path);
      var y, c := NameExactly(t[j].path);
      SamePlace(g.dir, t[i].path, b, t[j].path, c);
    }
  }

  lemma {:induction false} NamesLose(g: Setting, w: World, text: seq<Byte>, states: seq<State>, events: seq<Event>,
                                     n: nat, k: nat)
    requires RunTo(g, w, text, states, events, n) && k <= n && NamesApart(g.dir, states[k].table)
    ensures NoClobber(g, states[k].table)
    decreases n
  {
    if k == n {
      var m := RunInv(g, w, text, states, events, n);
      InvOpen(g, states[n], states[m].table);
      NamesClobber(g, states[n].table);
    } else {
      NamesLose(g, w, text, states, events, n - 1, k);
    }
  }

  /** Whole-run convergence, in terms of places. In every run in which no turn finds a fresh file listed twice
      and no two files have the same last component, a client that has a slot and has applied everything sent
      to it holds the file that the server records as a/b in its own directory under the name b, with the
      contents as of its last recorded change. */
  lemma FilesArrive(g: Setting, host: Host, w0: World, text0: seq<Byte>, states: seq<State>, events: seq<Event>, n: nat,
                    sock: int, hist: seq<FileSys>, i: nat, a: Path, b: Path)
    requires RunTo(g, w0, text0, states, events, n) && Able(g, host)
    requires forall k :: 0 <= k <= n ==> NamesApart(g.dir, states[k].table)
    requires forall k :: 0 <= k < n ==> TurnFreshOnce(g, states[k], events[k])
    requires sock != 0 && sock in states[n].slots && ClientRun(g, host, Msgs(states[n], sock), hist)
    requires i < |states[n].table| && states[n].table[i].path == a + [SLASH] + b && SLASH !in b
    ensures var q, f, r := g.dir + [SLASH] + b, hist[|hist| - 1], states[n].table[i];
      q in f && f[q].data == g.version(r.path, r.mtime)
  {
    forall k | 0 <= k <= n
      ensures NoClobber(g, states[k].table)
    {
      NamesLose(g, w0, text0, states, events, n, k);
    }
    ClientsConverge(g, host, w0, text0, states, events, n, sock, hist);
    assert ShowFiles(0);
    assert CoversAt(g, hist[|hist| - 1], states[n].table[i]);
    assert NameOf(states[n].table[i].path, b);
    TargetIs(g.dir, a, b);
  }

  /** The snapshot of every state of a run opens to exactly the files of the table as it was at some turn m,
      each once; among them is every file of the present table, with the contents as of its last recorded
      change. */
  lemma SnapshotOpens(g: Setting, w: World, text: seq<Byte>, states: seq<State>, events: seq<Event>, n: nat)
    returns (m: nat, es: seq<Entry>)
    requires RunTo(g, w, text, states, events, n) && CodecOk(g.codec, g.limit)
    requires states[n].table != []
    ensures forall junk :: |junk| == |PayloadBytes(DATA, es)| ==>
      Opening(g.codec, states[n].snapshot, junk) == Some((DATA, es))
    ensures m <= n && es == DueAll(g, states[m].table) && DistinctEntries(es)
    ensures forall i :: 0 <= i < |states[n].table| ==> Due(g, states[n].table[i]) in es
  {
    m := RunInv(g, w, text, states, events, n);
    assert ShowInv(0);
    assert ShowSize(0);
    var st, s := states[n], states[m].table;
    es := DueAll(g, s);
    assert Within(st.table[0], s);
    DueFit(g, s);
    forall junk | |junk| == |PayloadBytes(DATA, es)|
      ensures Opening(g.codec, st.snapshot, junk) == Some((DATA, es))
    {
      SealedOpens(g.codec, DATA, es, junk);
    }
    forall i | 0 <= i < |st.table|
      ensures Due(g, st.table[i]) in es
    {
      assert Within(st.table[i], s);
      var j :| 0 <= j < |s| && s[j].path == st.table[i].path && s[j].mtime == st.table[i].mtime;
      assert es[j] == Due(g, st.table[i]);
    }
  }

  /** The snapshot carries exactly the files of the table. */
  ghost predicate Exact(g: Setting, st: State) {
    st.snapshot == Snap(g, st.table)
  }

  /** Different files make different snapshots. */
  lemma SnapInjective(g: Setting, a: Table, b: Table)
    requires RecordsOk(g, a) && TableFits(g, a) && RecordsOk(g, b) && TableFits(g, b) && CodecOk(g.codec, g.limit)
    requires Snap(g, a) == Snap(g, b)
    ensures DueAll(g, a) == DueAll(g, b)
  {
    assert ShowSize(0);
    if a != [] && b != [] {
      var x, y := DueAll(g, a), DueAll(g, b);
      DueFit(g, a);
      DueFit(g, b);
      SealedOpens(g.codec, DATA, x, PayloadBytes(DATA, x));
      SealedOpens(g.codec, DATA, y, PayloadBytes(DATA, x));
    } else if a != [] {
      DueFit(g, a);
      SealedReadable(g.codec, DATA, DueAll(g, a));
    } else if b != [] {
      DueFit(g, b);
      SealedReadable(g.codec, DATA, DueAll(g, b));
    }
  }

  /** Every file of the table is still listed. */
  ghost predicate AllListed(t: Table, ps: seq<Path>) {
    forall i :: 0 <= i < |t| ==> t[i].path in ps
  }

  /** A scan that finds nothing new and nothing gone leaves the records as they are. */
  lemma NothingChanged(t: Table, w: World, ps: seq<Path>)
    requires DistinctPaths(t) && AllListed(t, ps) && !TriggersTo(WithStates(t, -1), w, ps, |ps|)
    ensures SameFiles(t, Updated(t, w, ps))
  {
    var r := ScanTo(WithStates(t, -1), w, ps, |ps|);
    ScanIs(t, w, ps, |ps|);
    ResultExactly(t, w, ps);
    forall i | 0 <= i < |r|
      ensures i < |t| && r[i].(state := 0) == t[i].(state := 0) && r[i].state != -1
    {
      UnchangedAt(t, w, ps, r, i);
    }
    SweptAll(r, |r|);
    assert r[..|r|] == r;
  }

  lemma UnchangedAt(t: Table, w: World, ps: seq<Path>, r: Table, i: nat)
    requires DistinctPaths(t) && AllListed(t, ps) && Scanned(t, w, ps, |ps|, r) && i < |r|
    requires forall p :: p in ps ==> !IsFresh(t, w, p)
    ensures i < |t| && r[i].(state := 0) == t[i].(state := 0) && r[i].state != -1
  {
    if i < |t| {
      OldUnchanged(t, w, ps, r, i);
    } else {
      OccursIn(ps, |ps|, r[i].path);
      assert ps[..|ps|] == ps;
      NewIsFresh(t, w, ps, r, i);
      assert false;
    }
  }

  lemma OldUnchanged(t: Table, w: World, ps: seq<Path>, r: Table, i: nat)
    requires DistinctPaths(t) && Scanned(t, w, ps, |ps|, r) && i < |t| && t[i].path in ps && !IsFresh(t, w, t[i].path)
    ensures r[i].(state := 0) == t[i].(state := 0) && r[i].state != -1
  {
    OccursIn(ps, |ps|, t[i].path);
    assert ps[..|ps|] == ps;
    IndexOfIs(t, t[i].path, i);
    assert r[i] == SeenOld(w, t[i], Occurs(ps, |ps|, t[i].path));
  }

  lemma NewIsFresh(t: Table, w: World, ps: seq<Path>, r: Table, i: nat)
    requires Scanned(t, w, ps, |ps|, r) && |t| <= i < |r|
    ensures IsFresh(t, w, r[i].path)
  {
    OldIndex(t, r, r[i].path);
    IndexOfIs(r, r[i].path, i);
  }

  lemma {:induction false} SweptAll(t: Table, n: nat)
    requires n <= |t| && forall i :: 0 <= i < |t| ==> t[i].state != -1
    ensures SweptTo(t, n) == t[..n]
  {
    if n > 0 {
      SweptAll(t, n - 1);
      assert t[..n] == t[..n - 1] + [t[n - 1]];
    }
  }

  /** A file of s that t does not have shows in what is due. */
  lemma MissingShows(g: Setting, s: Table, t: Table, j: nat)
    requires j < |s| && !HasPath(t, s[j].path)
    ensures DueAll(g, s) != DueAll(g, t)
  {
    assert DueAll(g, s)[j].path == s[j].path;
    assert forall k :: 0 <= k < |t| ==> DueAll(g, t)[k].path == t[k].path;
  }

  /** A file that has left the list is gone from the table after a quiet scan, which is still in order. */
  lemma QuietDrops(g: Setting, st: State, w: World, ps: seq<Path>, st': State, p: Path)
    requires Quieting(g, st, st.table, w, ps, st') && p !in ps
    ensures !HasPath(st'.table, p) && RecordsOk(g, st'.table) && st'.snapshot == st.snapshot
  {
    assert Show(0);
    var u := Updated(st.table, w, ps);
    UpdateIs(st.table, w, ps);
    UpdatedOk(g, w, ps, st.table);
    SameRecordsOk(g, u, st'.table);
    SamePaths(u, st'.table);
  }

  lemma DroppedLingers(g: Setting, st: State, s: Table, w: World, ps: seq<Path>, st': State)
    requires Inv(g, st, s) && CodecOk(g.codec, g.limit) && TableFits(g, st'.table) && !AllListed(st.table, ps)
    requires Quieting(g, st, st.table, w, ps, st')
    ensures !Exact(g, st')
  {
    assert ShowInv(0);
    var i :| 0 <= i < |st.table| && st.table[i].path !in ps;
    QuietDrops(g, st, w, ps, st', st.table[i].path);
    assert Within(st.table[i], s);
    var j :| 0 <= j < |s| && s[j].path == st.table[i].path;
    MissingShows(g, s, st'.table, j);
    if Exact(g, st') {
      SnapInjective(g, s, st'.table);
      assert false;
    }
  }

  lemma QuietExact(g: Setting, st: State, w: World, ps: seq<Path>, st': State)
    requires Quieting(g, st, st.table, w, ps, st') && DistinctPaths(st.table) && AllListed(st.table, ps)
    ensures Exact(g, st') <==> Exact(g, st)
  {
    assert Show(0);
    NothingChanged(st.table, w, ps);
    SameSnap(g, st.table, st'.table);
  }

  lemma SameSnap(g: Setting, t: Table, t': Table)
    requires |t'| == |t| && forall i :: 0 <= i < |t| ==> t'[i].(state := 0) == t[i].(state := 0)
    ensures Snap(g, t') == Snap(g, t)
  {
    forall i | 0 <= i < |t|
      ensures DueAll(g, t')[i] == DueAll(g, t)[i]
    {
      SameAt(t, t', i);
    }
    assert DueAll(g, t') == DueAll(g, t);
  }

  /** Exactly when the snapshot carries the files of the table and no others: a scan makes it exact if it
      finds something new, and otherwise keeps it exact if nothing has left the list. A file that merely
      leaves the list lingers in the snapshot. */
  lemma SnapshotExactly(g: Setting, st: State, s: Table, w: World, text: seq<Byte>, st': State)
    requires Inv(g, st, s) && CodecOk(g.codec, g.limit) && ScanOk(g, w)
    requires Next(g.cfg, g.codec, st, Scan(w, text), st') && TableFits(g, st'.table)
    ensures var ps := Listed(w, g.cfg, text, 0);
      Exact(g, st') <==>
        (st.table != [] && exists p :: p in ps && IsFresh(st.table, w, p)) || (Exact(g, st) && AllListed(st.table, ps))
  {
    var ps := Listed(w, g.cfg, text, 0);
    InvOpen(g, st, s);
    if st.table != [] {
      PlainScan(g, st.table, w, text);
      ResultExactly(st.table, w, ps);
      if TriggersTo(WithStates(st.table, -1), w, ps, |ps|) {
        var a, b :| Pushes(g.codec, st, w, Updated(st.table, w, ps), st', a, b);
        assert Pushing(g, st, st.table, w, ps, st', a, b);
        PushIs(g, st, st.table, w, ps, st', a, b);
      } else {
        assert Quieting(g, st, st.table, w, ps, st');
        if AllListed(st.table, ps) {
          QuietExact(g, st, w, ps, st');
        } else {
          DroppedLingers(g, st, s, w, ps, st');
        }
      }
    }
  }

  lemma ChosenMarked(t: Table, p: Path)
    ensures (exists i :: 0 <= i < |Chosen(DATA, t)| && Chosen(DATA, t)[i].path == p) <==> Marked(t, p)
  {
    var c := Chosen(DATA, t);
    ChosenIs(DATA, t);
    if Marked(t, p) {
      var i :| 0 <= i < |t| && t[i].path == p && t[i].state == 1;
      assert t[i] in c;
      var j :| 0 <= j < |c| && c[j] == t[i];
    }
    forall i | 0 <= i < |c| && c[i].path == p
      ensures Marked(t, p)
    {
      assert c[i] in c;
      var k :| 0 <= k < |t| && t[k] == c[i];
    }
  }

  /** A broadcast carries exactly the listed files that are new or have a new time stamp and are listed
      once, with their contents. */
  lemma BroadcastExactly(g: Setting, st: State, t: Table, w: World, ps: seq<Path>, st': State,
                         es1: seq<Entry>, es2: seq<Entry>, p: Path)
    requires Pushing(g, st, t, w, ps, st', es1, es2)
    ensures Names(es1, |es1|, p) <==> p in ps && IsFresh(t, w, p) && Occurs(ps, |ps|, p) == 1
    ensures forall i :: 0 <= i < |es1| && es1[i].path == p ==> p in w.files && es1[i] == Entry(p, w.files[p].data)
  {
    assert Show(0);
    var u := Updated(t, w, ps);
    PushIs(g, st, t, w, ps, st', es1, es2);
    ChosenMarked(u, p);
    MarkedIs(t, w, ps, p);
    SentNames(g, Chosen(DATA, u), p);
    ChosenVersion(g, w, u, p);
  }

  lemma SentNames(g: Setting, c: Table, p: Path)
    ensures Names(DueAll(g, c), |c|, p) <==> exists i :: 0 <= i < |c| && c[i].path == p
  {
    if i :| 0 <= i < |c| && c[i].path == p {
      assert DueAll(g, c)[i].path == p;
    }
    if i :| 0 <= i < |c| && DueAll(g, c)[i].path == p {
      assert c[i].path == p;
    }
  }

  lemma ChosenVersion(g: Setting, w: World, u: Table, p: Path)
    requires Consistent(g, w) && UpToDate(w, u)
    ensures var c := Chosen(DATA, u);
      forall i :: 0 <= i < |c| && c[i].path == p ==> p in w.files && Due(g, c[i]) == Entry(p, w.files[p].data)
  {
    var c := Chosen(DATA, u);
    ChosenIs(DATA, u);
    forall i | 0 <= i < |c| && c[i].path == p
      ensures p in w.files && Due(g, c[i]) == Entry(p, w.files[p].data)
    {
      assert c[i] in c;
      var k :| 0 <= k < |u| && u[k] == c[i];
    }
  }

  /** Exactly when a scan of t makes the table follow the list. */
  lemma ScansFollow(cfg: Config, c: Codec, st: State, t: Table, w: World, text: seq<Byte>, st': State)
    requires DistinctPaths(t) && (t == [] ==> st.table == []) && Scans(cfg, c, st, t, w, text, st')
    ensures var ps := Listed(w, cfg, text, 0);
      (forall p :: HasPath(st'.table, p) <==> p in ps) <==> t != [] || ps == []
  {
    var ps := Listed(w, cfg, text, 0);
    if t != [] {
      var u := Updated(t, w, ps);
      UpdateIs(t, w, ps);
      assert st'.table == WithStates(u, 0);
      SamePaths(u, st'.table);
    } else if ps != [] {
      assert ps[0] in ps && !HasPath(st'.table, ps[0]);
    }
  }

  /** Exactly when a turn makes the table follow the list: update_check_sync_file refuses an empty table, so
      files that come back later are never noticed. */
  lemma ScanFollows(cfg: Config, c: Codec, st: State, w: World, text: seq<Byte>, st': State)
    requires DistinctPaths(st.table) && Next(cfg, c, st, Scan(w, text), st')
    ensures var ps := Listed(w, cfg, text, 0);
      (forall p :: HasPath(st'.table, p) <==> p in ps) <==> st.table != [] || ps == []
  {
    ScansFollow(cfg, c, st, st.table, w, text, st');
  }

  lemma SamePaths(t: Table, t': Table)
    requires |t'| == |t| && forall i :: 0 <= i < |t| ==> t'[i].path == t[i].path
    ensures forall p :: HasPath(t', p) <==> HasPath(t, p)
  {
    forall p
      ensures HasPath(t', p) <==> HasPath(t, p)
    {
      if i :| 0 <= i < |t| && t[i].path == p {
        assert t'[i].path == p;
      }
      if i :| 0 <= i < |t| && t'[i].path == p {
        assert t[i].path == p;
      }
    }
  }

  /** An empty table stays empty in every turn, and so does its snapshot. */
  lemma EmptyStays(cfg: Config, c: Codec, st: State, ev: Event, st': State)
    requires Next(cfg, c, st, ev, st') && st.table == []
    ensures st'.table == [] && st'.snapshot == st.snapshot
    ensures !ev.Accept? ==> st'.sent == st.sent
  {
    if ev.Requested? {
      MarkToKeeps(st.table, ev.es, |ev.es|);
    }
  }

  /** Once the table of a server is empty it is so for the rest of the run, and every later client gets the
      old snapshot. */
  lemma {:induction false} EmptyForever(g: Setting, w: World, text: seq<Byte>, states: seq<State>, events: seq<Event>,
                                        m: nat, n: nat)
    requires RunTo(g, w, text, states, events, n) && m <= n && states[m].table == []
    ensures states[n].table == [] && states[n].snapshot == states[m].snapshot
    decreases n
  {
    if m < n {
      EmptyForever(g, w, text, states, events, m, n - 1);
      assert Show(0);
      EmptyStays(g.cfg, g.codec, states[n - 1], events[n - 1], states[n]);
    }
  }

  /** Everything sent so far can be read to its end by a client. */
  ghost predicate SentReadable(g: Setting, sent: map<int, seq<seq<Byte>>>) {
    forall sock, i :: sock in sent && 0 <= i < |sent[sock]| ==> Readable(g.codec, DATA, sent[sock][i])
  }

  lemma SendReadable(g: Setting, sent: map<int, seq<seq<Byte>>>, sock: int, msg: seq<Byte>)
    requires SentReadable(g, sent) && Readable(g.codec, DATA, msg)
    ensures SentReadable(g, Send(sent, sock, msg))
  {
  }

  lemma {:induction false} BroadcastReadable(g: Setting, sent: map<int, seq<seq<Byte>>>, slots: seq<int>, msg: seq<Byte>, n: nat)
    requires SentReadable(g, sent) && Readable(g.codec, DATA, msg) && n <= |slots|
    ensures SentReadable(g, BroadcastTo(sent, slots, msg, n))
  {
    if n > 0 {
      BroadcastReadable(g, sent, slots, msg, n - 1);
      SendReadable(g, BroadcastTo(sent, slots, msg, n - 1), slots[n - 1], msg);
    }
  }

  lemma TableReadable(g: Setting, t: Table)
    requires RecordsOk(g, t) && TableFits(g, t) && CodecOk(g.codec, g.limit) && t != []
    ensures Readable(g.codec, DATA, Sealed(g.codec, DATA, DueAll(g, t)))
  {
    assert ShowSize(0);
    DueFit(g, t);
    SealedReadable(g.codec, DATA, DueAll(g, t));
  }

  lemma SnapshotReadable(g: Setting, st: State, s: Table)
    requires Inv(g, st, s) && CodecOk(g.codec, g.limit) && st.snapshot != []
    ensures Readable(g.codec, DATA, st.snapshot)
  {
    assert ShowInv(0);
    TableReadable(g, s);
  }

  lemma PushReadable(g: Setting, st: State, t: Table, w: World, ps: seq<Path>, st': State, es1: seq<Entry>, es2: seq<Entry>)
    requires Pushing(g, st, t, w, ps, st', es1, es2) && CodecOk(g.codec, g.limit) && SentReadable(g, st.sent)
    ensures SentReadable(g, st'.sent)
  {
    var u := Updated(t, w, ps);
    PushIs(g, st, t, w, ps, st', es1, es2);
    ChosenOk(g, u);
    if es1 != [] {
      TableReadable(g, Chosen(DATA, u));
      BroadcastReadable(g, st.sent, st.slots, Sealed(g.codec, DATA, es1), |st.slots|);
    }
  }

  lemma ScanReadable(g: Setting, st: State, s: Table, t: Table, w: World, text: seq<Byte>, st': State)
    requires Inv(g, st, s) && Scans(g.cfg, g.codec, st, t, w, text, st') && TableFits(g, st'.table)
    requires ScanFrom(g, st.table, t, w, Listed(w, g.cfg, text, 0))
    requires CodecOk(g.codec, g.limit) && SentReadable(g, st.sent)
    ensures SentReadable(g, st'.sent)
  {
    var es1, es2 := ScanCases(g, st, s, t, w, text, st');
    var ps := Listed(w, g.cfg, text, 0);
    if Pushing(g, st, t, w, ps, st', es1, es2) {
      PushReadable(g, st, t, w, ps, st', es1, es2);
    } else if Quieting(g, st, t, w, ps, st') {
      QuietSends(g, st, t, w, ps, st');
    }
  }

  lemma TurnReadable(g: Setting, st: State, s: Table, ev: Event, st': State)
    requires Inv(g, st, s) && Turn(g, st, ev, st') && CodecOk(g.codec, g.limit) && SentReadable(g, st.sent)
    ensures SentReadable(g, st'.sent)
  {
    assert Show(0);
    InvOpen(g, st, s);
    match ev
    case Accept(sock) =>
      if st.snapshot != [] {
        SnapshotReadable(g, st, s);
        SendReadable(g, st.sent, sock, st.snapshot);
      }
    case Ready(closed) =>
    case Requested(es) =>
    case Scan(w, text) =>
      PlainScan(g, st.table, w, text);
      ScanReadable(g, st, s, st.table, w, text, st');
    case Exchanged(list, during, w, text) =>
      HeardScan(g, st.table, list, during, w, text);
      ScanReadable(g, st, s, Heard(st.table, during, list), w, text, st');
  }

  /** In every run, no client ever gets a message it could not read to its end. */
  lemma {:induction false} AlwaysReadable(g: Setting, w: World, text: seq<Byte>, states: seq<State>, events: seq<Event>, n: nat)
    requires RunTo(g, w, text, states, events, n) && CodecOk(g.codec, g.limit)
    ensures SentReadable(g, states[n].sent)
  {
    if n == 0 {
      StartKeeps(g, w, text, states[0]);
    } else {
      AlwaysReadable(g, w, text, states, events, n - 1);
      var m := RunInv(g, w, text, states, events, n - 1);
      TurnReadable(g, states[n - 1], states[m].table, events[n - 1], states[n]);
    }
  }

  /** What a turn does to the slots: a new connection gets one if there is a free one, a closed connection
      loses its own, and every other one keeps its own. */
  lemma SlotsExactly(cfg: Config, c: Codec, st: State, ev: Event, st': State, sock: int)
    requires Next(cfg, c, st, ev, st') && sock != 0
    ensures |st'.slots| == |st.slots|
    ensures ev.Accept? ==> (sock in st'.slots <==> sock in st.slots || (sock == ev.sock && 0 in st.slots))
    ensures ev.Ready? ==> (sock in st'.slots <==> sock in st.slots && sock !in ev.closed)
    ensures !ev.Accept? && !ev.Ready? ==> st'.slots == st.slots
  {
    match ev
    case Accept(other) => AddedSlots(st.slots, other, st'.slots, sock);
    case Ready(closed) => ClosedSlots(st.slots, closed, sock);
    case Requested(es) =>
    case Scan(w, text) => ScansSlots(cfg, c, st, st.table, w, text, st');
    case Exchanged(list, during, w, text) => ScansSlots(cfg, c, st, Heard(st.table, during, list), w, text, st');
  }

  lemma AddedSlots(slots: seq<int>, other: int, r: seq<int>, sock: int)
    requires r == ClientAdded(slots, other) && sock != 0
    ensures sock in r <==> sock in slots || (sock == other && 0 in slots)
  {
    var k := FreeSlot(slots, 0);
    if k < |slots| {
      assert r[k] == other;
      assert forall i :: 0 <= i < |slots| && i != k ==> r[i] == slots[i];
    }
  }

  lemma ClosedSlots(slots: seq<int>, closed: set<int>, sock: int)
    requires sock != 0
    ensures sock in Closed(slots, closed) <==> sock in slots && sock !in closed
  {
    if i :| 0 <= i < |slots| && slots[i] == sock {
      assert Closed(slots, closed)[i] == if sock in closed then 0 else sock;
    }
  }

  lemma ScansSlots(cfg: Config, c: Codec, st: State, t: Table, w: World, text: seq<Byte>, st': State)
    requires Scans(cfg, c, st, t, w, text, st')
    ensures st'.slots == st.slots
  {
  }

  /** The connection was accepted at turn m, when there was a free slot, and has not been closed up to turn n. */
  ghost predicate Keeping(states: seq<State>, events: seq<Event>, m: nat, n: nat, sock: int)
    requires m < n < |states| && n <= |events|
  {
    && events[m] == Accept(sock) && 0 in states[m].slots
    && forall k :: m < k < n && events[k].Ready? ==> sock !in events[k].closed
  }

  /** In every run there are twenty slots, and a connection has one of them exactly if it was accepted when
      one was free and has not been closed since. */
  lemma {:induction false} SlottedExactly(g: Setting, w: World, text: seq<Byte>, states: seq<State>, events: seq<Event>,
                                          n: nat, sock: int)
    requires RunTo(g, w, text, states, events, n) && sock != 0
    ensures |states[n].slots| == 20
    ensures sock in states[n].slots <==> exists m :: 0 <= m < n && Keeping(states, events, m, n, sock)
  {
    if n == 0 {
      StartKeeps(g, w, text, states[0]);
    } else {
      SlottedExactly(g, w, text, states, events, n - 1, sock);
      assert Show(0);
      SlotsExactly(g.cfg, g.codec, states[n - 1], events[n - 1], states[n], sock);
      KeeperStep(states, events, n, sock);
    }
  }

  ghost predicate Keeper(states: seq<State>, events: seq<Event>, n: nat, sock: int)
    requires n < |states| && n <= |events|
  {
    exists m :: 0 <= m < n && Keeping(states, events, m, n, sock)
  }

  lemma KeeperStep(states: seq<State>, events: seq<Event>, n: nat, sock: int)
    requires 0 < n < |states| && n <= |events|
    ensures Keeper(states, events, n, sock) <==>
      || (events[n - 1] == Accept(sock) && 0 in states[n - 1].slots)
      || (Keeper(states, events, n - 1, sock) && (events[n - 1].Ready? ==> sock !in events[n - 1].closed))
  {
    if m :| 0 <= m < n && Keeping(states, events, m, n, sock) {
      assert m < n - 1 ==> Keeping(states, events, m, n - 1, sock);
    }
    if events[n - 1] == Accept(sock) && 0 in states[n - 1].slots {
      assert Keeping(states, events, n - 1, n, sock);
    }
    if Keeper(states, events, n - 1, sock) && (events[n - 1].Ready? ==> sock !in events[n - 1].closed) {
      HeldOn(states, events, n, sock);
    }
  }

  lemma HeldOn(states: seq<State>, events: seq<Event>, n: nat, sock: int)
    requires 0 < n < |states| && n <= |events| && Keeper(states, events, n - 1, sock)
    requires events[n - 1].Ready? ==> sock !in events[n - 1].closed
    ensures Keeper(states, events, n, sock)
  {
    var before := n - 1;
    var m :| 0 <= m < before && Keeping(states, events, m, before, sock);
    assert Keeping(states, events, m, n, sock);
  }

  /** The server enters its loop with exactly the existing listed files in its table, none of them marked, with
      a snapshot of all of them, and without clients. */
  lemma InitExactly(g: Setting, w: World, text: seq<Byte>, st: State)
    requires Init(g.cfg, g.codec, w, text, st) && ScanOk(g, w)
    ensures forall p :: HasPath(st.table, p) <==> p in Listed(w, g.cfg, text, 0)
    ensures forall i :: 0 <= i < |st.table| ==> st.table[i].state == 0
    ensures UpToDate(w, st.table) && Exact(g, st)
    ensures st.sent == map[] && |st.slots| == 20 && forall i :: 0 <= i < 20 ==> st.slots[i] == 0
  {
    var ps := Listed(w, g.cfg, text, 0);
    var t := AddedTo([], w, ps, |ps|);
    ListedExist(w, g.cfg, text, 0);
    InitTable(g, w, ps);
    InitPaths(w, ps, st.table);
    InitHolds(g, w, t, st);
    SameUpToDate(w, t, st.table);
  }

  lemma InitHolds(g: Setting, w: World, t: Table, st: State)
    requires Consistent(g, w) && UpToDate(w, t) && Chosen(DATA, t) == t && st.table == WithStates(t, 0)
    requires exists es ::
      Carries(DATA, w, Chosen(DATA, t), es) && st.snapshot == if t == [] then [] else Sealed(g.codec, DATA, es)
    ensures SameFiles(t, st.table) && Exact(g, st)
  {
    var es :| Carries(DATA, w, Chosen(DATA, t), es) && st.snapshot == if t == [] then [] else Sealed(g.codec, DATA, es);
    InitSnapshot(g, w, t, st.table, es);
  }

  lemma InitPaths(w: World, ps: seq<Path>, t': Table)
    requires t' == WithStates(AddedTo([], w, ps, |ps|), 0)
    ensures forall p :: HasPath(t', p) <==> p in ps
    ensures forall i :: 0 <= i < |t'| ==> t'[i].state == 0
  {
    var t := AddedTo([], w, ps, |ps|);
    AddedIs(w, ps, |ps|);
    assert ps[..|ps|] == ps;
    SamePaths(t, t');
    forall p
      ensures HasPath(t, p) <==> p in ps
    {
    }
  }

  lemma SameUpToDate(w: World, t: Table, t': Table)
    requires UpToDate(w, t) && SameFiles(t, t')
    ensures UpToDate(w, t')
  {
    forall i | 0 <= i < |t'|
      ensures t'[i].path in w.files && t'[i].mtime == w.files[t'[i].path].mtime
      ensures t'[i].dataSize == |w.files[t'[i].path].data|
    {
      SameAt(t, t', i);
    }
  }

  /** The entries of a message with the marked files of an up-to-date table. */
  lemma CanCarry(w: World, u: Table) returns (es: seq<Entry>)
    requires UpToDate(w, u)
    ensures Carries(DATA, w, Chosen(DATA, u), es)
  {
    var c := Chosen(DATA, u);
    ChosenIs(DATA, u);
    forall i | 0 <= i < |c|
      ensures c[i].path in w.files && c[i].dataSize == |w.files[c[i].path].data|
    {
      assert c[i] in c;
      var k :| 0 <= k < |u| && u[k] == c[i];
    }
    es := seq(|c|, i requires 0 <= i < |c| => Entry(c[i].path, w.files[c[i].path].data));
  }

  lemma ScanGoesOn(g: Setting, st: State, t: Table, w: World, text: seq<Byte>) returns (st': State)
    requires ScanFrom(g, st.table, t, w, Listed(w, g.cfg, text, 0))
    ensures Scans(g.cfg, g.codec, st, t, w, text, st')
  {
    var ps := Listed(w, g.cfg, text, 0);
    var u := Updated(t, w, ps);
    if t == [] {
      st' := st;
    } else if TriggersTo(WithStates(t, -1), w, ps, |ps|) {
      assert Show(0);
      UpdatedOk(g, w, ps, t);
      var all := WithStates(u, 1);
      var es1 := CanCarry(w, u);
      SameUpToDate(w, u, all);
      var es2 := CanCarry(w, all);
      st' := State(WithStates(u, 0), st.slots, if u == [] then [] else Sealed(g.codec, DATA, es2),
                   if es1 == [] then st.sent else BroadcastTo(st.sent, st.slots, Sealed(g.codec, DATA, es1), |st.slots|));
      assert Pushes(g.codec, st, w, u, st', es1, es2);
    } else {
      st' := st.(table := WithStates(u, 0));
    }
  }

  /** The loop is never stuck: whatever comes, there is a next state. */
  lemma LoopGoesOn(g: Setting, st: State, s: Table, ev: Event) returns (st': State)
    requires Inv(g, st, s) && EventOk(g, st, ev)
    ensures Next(g.cfg, g.codec, st, ev, st')
  {
    InvOpen(g, st, s);
    match ev
    case Accept(sock) =>
      st' := State(st.table, ClientAdded(st.slots, sock), st.snapshot,
                   if st.snapshot == [] then st.sent else Send(st.sent, sock, st.snapshot));
    case Ready(closed) =>
      st' := st.(slots := Closed(st.slots, closed));
    case Requested(es) =>
      st' := st.(table := MarkTo(st.table, es, |es|));
    case Scan(w, text) =>
      PlainScan(g, st.table, w, text);
      st' := ScanGoesOn(g, st, st.table, w, text);
    case Exchanged(list, during, w, text) =>
      HeardScan(g, st.table, list, during, w, text);
      st' := ScanGoesOn(g, st, Heard(st.table, during, list), w, text);
  }

  /** And the server always gets into its loop. */
  lemma LoopStarts(g: Setting, w: World, text: seq<Byte>) returns (st: State)
    requires ScanOk(g, w)
    ensures Init(g.cfg, g.codec, w, text, st)
  {
    var ps := Listed(w, g.cfg, text, 0);
    var t := AddedTo([], w, ps, |ps|);
    ListedExist(w, g.cfg, text, 0);
    InitTable(g, w, ps);
    var es := CanCarry(w, t);
    st := State(WithStates(t, 0), seq(MAX_CLIENTS, i => 0), if t == [] then [] else Sealed(g.codec, DATA, es), map[]);
  }
}
