/** Exchanges one after the other: what a slave's own server makes of what it has received, what its clients
    hold then, and why the next exchange can rely on the digests of this one. */
module Rounds {
  import opened Bytes
  import opened Wrappers
  import opened Records
  import opened Environment
  import opened FileFunc
  import opened ChangeDetection
  import opened Comparison
  import opened Wire
  import opened Serialize
  import opened Deserialize
  import opened Compress
  import opened Delivery
  import opened ServerRun
  import opened Exchange
  import opened Convergence
  import opened MasterThreads
  import opened ListFile

  /** A slave whose session is over: its table has been compared, and its list file has the master's paths,
      unless the master lists that very file. */
  lemma SessionEnds(g: Setting, wm: World, t0: Table, s0: Slave, t: Table, s: Slave, ph: Phase)
    requires RoundOk(g, wm, t0) && ListEntries(ListOf(t0)) && SlaveOk(g, wm, t0, s0) && SessionInv(g, wm, t0, s0, t, s, ph)
    requires Over(ph) && !HasPath(t0, s0.sync)
    ensures var list := ListOf(t0);
      && s0.table != [] && s.table == TableAfter(s0, list)
      && s0.sync in s.files && s.files[s0.sync].data == Printed(list, |list|)
  {
    assert Inspect(0);
    if ph.Done? {
      var r := RequestOf(TableAfter(s0, ListOf(t0)));
      var t', d :| DataFor(g, wm, t0, r, t', d) && s == WithData(AfterList(s0, ListOf(t0)), d);
      ListFileStays(g, wm, t0, s0, t', d);
    }
  }

  lemma ListFileStays(g: Setting, wm: World, t0: Table, s0: Slave, t: Table, d: seq<Entry>)
    requires RoundOk(g, wm, t0) && SameFiles(t0, t) && Carries(DATA, wm, Chosen(DATA, t), d)
    requires !HasPath(t0, s0.sync) && forall q :: s0.host.canOpen(q)
    ensures var list := ListOf(t0); var f := FilesOnSlave(s0, list, d);
      s0.sync in f && f[s0.sync].data == Printed(list, |list|)
  {
    assert Know(0);
    SameHasPath(t0, t, s0.sync);
    DeliveredExactly(g, wm, t0, t, d, s0, s0.sync);
  }

  /** Slave i when its session in an interleaving is over. */
  lemma AfterSession(g: Setting, wm: World, run: seq<Global>, who: seq<nat>, n: nat, i: nat)
    requires Interleaving(g, wm, run, who) && n < |run|
    requires i < |run[0].slaves| && |run[n].phases| == |run[n].slaves| == |run[0].slaves| && Over(run[n].phases[i])
    requires !HasPath(run[0].table, run[0].slaves[i].sync)
    ensures run[0].slaves[i].table != [] && DistinctPaths(run[0].slaves[i].table) && ListEntries(ListOf(run[0].table))
    ensures var list := ListOf(run[0].table); var s0, f := run[0].slaves[i], run[n].slaves[i].files;
      && run[n].slaves[i].table == TableAfter(s0, list)
      && s0.sync in f && f[s0.sync].data == Printed(list, |list|)
  {
    InterleavingInv(g, wm, run, who, n);
    assert Watch(i) && Inspect(0);
    SessionEnds(g, wm, run[0].table, run[0].slaves[i], run[n].table, run[n].slaves[i], run[n].phases[i]);
  }

  /** Files that are written get new time stamps. */
  ghost predicate NewStamps(s: Slave, t: Table) {
    forall i :: 0 <= i < |t| && t[i].state == 1 ==> s.host.now(t[i].path) != t[i].mtime
  }

  /** A session that is over has answered everything the slave asked for: each of these files has come and
      has a new time stamp. */
  lemma SessionAnswers(g: Setting, wm: World, run: seq<Global>, who: seq<nat>, n: nat, i: nat, w: World)
    requires Interleaving(g, wm, run, who) && n < |run|
    requires i < |run[0].slaves| && |run[n].phases| == |run[n].slaves| == |run[0].slaves| && Over(run[n].phases[i])
    requires ListEntries(ListOf(run[0].table))
    requires var t1 := TableAfter(run[0].slaves[i], ListOf(run[0].table));
      NewStamps(run[0].slaves[i], t1) && w.files == run[n].slaves[i].files
    ensures Answered(Heard(run[0].slaves[i].table, run[0].slaves[i].world, ListOf(run[0].table)), w)
  {
    InterleavingInv(g, wm, run, who, n);
    assert Watch(i) && Inspect(0);
    var t0, s0, s := run[0].table, run[0].slaves[i], run[n].slaves[i];
    var t1 := TableAfter(s0, ListOf(t0));
    forall k | 0 <= k < |t1| && t1[k].state == 1
      ensures t1[k].path in s.files && s.files[t1[k].path].mtime == s0.host.now(t1[k].path)
    {
      AskedCame(g, wm, t0, s0, run[n].table, s, run[n].phases[i], k);
    }
  }

  lemma AskedCame(g: Setting, wm: World, t0: Table, s0: Slave, t: Table, s: Slave, ph: Phase, k: nat)
    requires RoundOk(g, wm, t0) && ListEntries(ListOf(t0)) && SlaveOk(g, wm, t0, s0) && SessionInv(g, wm, t0, s0, t, s, ph)
    requires Over(ph)
    requires var t1 := TableAfter(s0, ListOf(t0)); k < |t1| && t1[k].state == 1
    ensures var p := TableAfter(s0, ListOf(t0))[k].path; p in s.files && s.files[p].mtime == s0.host.now(p)
  {
    var list, t1 := ListOf(t0), TableAfter(s0, ListOf(t0));
    var p, r := t1[k].path, RequestOf(t1);
    ListFits(g, wm, t0);
    assert Marked(t1, p);
    RequestNames(t1, p);
    assert Names(r, |r|, p);
    RequestExactly(s0, list, p);
    var j :| 0 <= j < |list| && list[j].path == p;
    assert t0[j].path == p;
    assert Inspect(0);
    if ph.Done? {
      var t', d :| DataFor(g, wm, t0, r, t', d) && s == WithData(AfterList(s0, list), d);
      DataCovers(g, wm, t0, r, t', d, p);
      StampIs(g, wm, t0, t', s0, list, d, p);
    }
  }

  lemma StampIs(g: Setting, wm: World, t0: Table, t: Table, s: Slave, list: seq<Entry>, d: seq<Entry>, p: Path)
    requires RoundOk(g, wm, t0) && SameFiles(t0, t) && Carries(DATA, wm, Chosen(DATA, t), d) && Names(d, |d|, p)
    requires forall q :: s.host.canOpen(q)
    ensures var f := FilesOnSlave(s, list, d); p in f && f[p].mtime == s.host.now(p)
  {
    assert Know(0);
    DataExactly(g, wm, t0, t, d, p);
    var i :| 0 <= i < |d| && d[i].path == p;
    StoreToLast(FilesAfter(s, list), d, |d|, None, s.host, i);
  }

  /** In the turn ev, slave i, whose table was t, goes through its session of the round, which is over by
      state k, and scans its list file again. Its list file survives the session, and every path survives
      its list file. */
  ghost predicate Received(run: seq<Global>, k: nat, i: nat, t: Table, ev: Event) {
    && k < |run| && i < |run[0].slaves| && |run[k].phases| == |run[k].slaves| == |run[0].slaves| && Over(run[k].phases[i])
    && var t0, s0, f := run[0].table, run[0].slaves[i], run[k].slaves[i].files;
       && !HasPath(t0, s0.sync) && (forall j :: 0 <= j < |t0| ==> Plain(t0[j].path))
       && t == s0.table && ev.Exchanged? && ev.list == ListOf(t0) && ev.during == s0.world
       && ev.w.files == f && (s0.sync in f ==> ev.text == f[s0.sync].data)
  }

  /** An exchange and the scan that follows it in the slave's loop: for every session of every interleaving
      that is over, the slave's table then has exactly the master's paths. */
  lemma KeysConverge(g: Setting, wm: World, run: seq<Global>, who: seq<nat>, k: nat, i: nat,
                     cfg: Config, c: Codec, st: State, ev: Event, st': State)
    requires Interleaving(g, wm, run, who) && Received(run, k, i, st.table, ev)
    requires Next(cfg, c, st, ev, st')
    ensures forall p :: HasPath(st'.table, p) <==> HasPath(run[0].table, p)
  {
    var t0, s0 := run[0].table, run[0].slaves[i];
    var list := ListOf(t0);
    AfterSession(g, wm, run, who, k, i);
    SlavesConverge(g, wm, run, who, k, i);
    assert Know(0);
    forall j | 0 <= j < |t0|
      ensures t0[j].path in ev.w.files
    {
      assert HasPath(t0, t0[j].path);
    }
    forall p
      ensures p in Listed(ev.w, cfg, ev.text, 0) <==> HasPath(t0, p)
    {
      ListFound(g, t0, cfg, ev.w, p);
    }
    CompareGrows(s0.table, s0.world, list, |list|);
    CompareToIs(s0.table, s0.world, list, |list|);
    ScansFollow(cfg, c, st, Heard(st.table, s0.world, list), ev.w, ev.text, st');
  }

  /** Every record has the digest of its version. */
  ghost predicate DigestsOk(g: Setting, t: Table) {
    forall i :: 0 <= i < |t| ==> t[i].checkSum == g.sha(g.version(t[i].path, t[i].mtime))
  }

  /** The records the scan does not refresh have the digests of their versions. */
  ghost predicate KeptDigests(g: Setting, w: World, ps: seq<Path>, t: Table) {
    forall i :: 0 <= i < |t| && Kept(w, ps, t[i]) ==> t[i].checkSum == g.sha(g.version(t[i].path, t[i].mtime))
  }

  lemma UpdatedDigest(g: Setting, w: World, ps: seq<Path>, t: Table, i: nat)
    requires DistinctPaths(t) && KeptDigests(g, w, ps, t) && Consistent(g, w) && AllExist(w, ps) && w.sha == g.sha
    requires i < |Updated(t, w, ps)|
    ensures var r := Updated(t, w, ps)[i]; r.checkSum == g.sha(g.version(r.path, r.mtime))
  {
    var u := Updated(t, w, ps);
    var p := u[i].path;
    UpdateIs(t, w, ps);
    assert HasPath(u, p);
    MarkedExactly(t, w, ps, p);
    IndexOfIs(u, p, i);
    if !IsFresh(t, w, p) {
      var k := IndexOf(t, p);
      assert Kept(w, ps, t[k]) && u[i].(state := 0) == t[k].(state := 0);
      assert u[i].checkSum == t[k].checkSum && u[i].mtime == t[k].mtime;
    }
  }

  lemma ScansDigests(g: Setting, st: State, t: Table, w: World, text: seq<Byte>, st': State)
    requires DistinctPaths(t) && KeptDigests(g, w, Listed(w, g.cfg, text, 0), t) && ScanOk(g, w)
    requires DigestsOk(g, st.table) && Scans(g.cfg, g.codec, st, t, w, text, st')
    ensures DigestsOk(g, st'.table)
  {
    var ps := Listed(w, g.cfg, text, 0);
    ListedExist(w, g.cfg, text, 0);
    if t != [] {
      var u := Updated(t, w, ps);
      assert st'.table == WithStates(u, 0);
      forall i | 0 <= i < |u|
        ensures st'.table[i].checkSum == g.sha(g.version(st'.table[i].path, st'.table[i].mtime))
      {
        UpdatedDigest(g, w, ps, t, i);
      }
    }
  }

  /** The digests an exchange has left unknown belong to files the slave asked for; they have come by the
      scan, which computes their digests anew. */
  lemma HeardDigests(g: Setting, t: Table, list: seq<Entry>, during: World, w: World, text: seq<Byte>)
    requires RecordsOk(g, t) && DigestsOk(g, t) && ListEntries(list) && DistinctEntries(list)
    requires Answered(Heard(t, during, list), w)
    ensures DistinctPaths(Heard(t, during, list))
    ensures KeptDigests(g, w, Listed(w, g.cfg, text, 0), Heard(t, during, list))
  {
    var ps, t1 := Listed(w, g.cfg, text, 0), Heard(t, during, list);
    ListedExist(w, g.cfg, text, 0);
    if t != [] {
      CompareToIs(t, during, list, |list|);
      forall i | 0 <= i < |t1| && Kept(w, ps, t1[i])
        ensures t1[i].checkSum == g.sha(g.version(t1[i].path, t1[i].mtime))
      {
        HeardAt(t, during, list, i);
      }
    }
  }

  lemma TurnDigests(g: Setting, st: State, s: Table, ev: Event, st': State)
    requires Inv(g, st, s) && Turn(g, st, ev, st') && DigestsOk(g, st.table)
    ensures DigestsOk(g, st'.table)
  {
    assert Show(0);
    InvOpen(g, st, s);
    match ev
    case Accept(sock) =>
    case Ready(closed) =>
    case Requested(es) =>
      MarkToKeeps(st.table, es, |es|);
      SameDigests(g, st.table, st'.table);
    case Scan(w, text) =>
      ScansDigests(g, st, st.table, w, text, st');
    case Exchanged(list, during, w, text) =>
      HeardDigests(g, st.table, list, during, w, text);
      ScansDigests(g, st, Heard(st.table, during, list), w, text, st');
  }

  lemma SameDigests(g: Setting, t: Table, t': Table)
    requires SameFiles(t, t') && DigestsOk(g, t)
    ensures DigestsOk(g, t')
  {
    forall i | 0 <= i < |t'|
      ensures t'[i].checkSum == g.sha(g.version(t'[i].path, t'[i].mtime))
    {
      assert t'[i].(state := 0) == t[i].(state := 0);
      SameAt(t, t', i);
    }
  }

  lemma StartDigests(g: Setting, w: World, text: seq<Byte>, st: State)
    requires Starts(g, w, text, st)
    ensures DigestsOk(g, st.table)
  {
    assert Show(0);
    var ps := Listed(w, g.cfg, text, 0);
    AddedIs(w, ps, |ps|);
    ListedExist(w, g.cfg, text, 0);
    assert ps[..|ps|] == ps;
  }

  /** At every turn of every run, exchanges included, every record has the digest of its version. */
  lemma {:induction false} RunDigests(g: Setting, w: World, text: seq<Byte>, states: seq<State>, events: seq<Event>, n: nat)
    requires RunTo(g, w, text, states, events, n)
    ensures DigestsOk(g, states[n].table)
  {
    if n == 0 {
      StartDigests(g, w, text, states[0]);
    } else {
      RunDigests(g, w, text, states, events, n - 1);
      var m := RunInv(g, w, text, states, events, n - 1);
      TurnDigests(g, states[n - 1], states[m].table, events[n - 1], states[n]);
    }
  }

  /** So the digests of a table are those of the files, as long as these rest. */
  lemma RunFresh(g: Setting, w0: World, text0: seq<Byte>, states: seq<State>, events: seq<Event>, n: nat, w: World)
    requires RunTo(g, w0, text0, states, events, n) && Consistent(g, w) && UpToDate(w, states[n].table)
    ensures FreshDigests(states[n].table, w.files, g.sha)
  {
    RunDigests(g, w0, text0, states, events, n);
  }

  lemma TurnNoMarks(g: Setting, st: State, ev: Event, st': State)
    requires Turn(g, st, ev, st') && !ev.Requested? && NoMarks(st.table)
    ensures NoMarks(st'.table)
  {
    assert Show(0);
  }

  /** A turn that is no request of a slave leaves no marks. */
  lemma {:induction false} RunNoMarks(g: Setting, w: World, text: seq<Byte>, states: seq<State>, events: seq<Event>, n: nat)
    requires RunTo(g, w, text, states, events, n) && forall k :: 0 <= k < n ==> !events[k].Requested?
    ensures NoMarks(states[n].table)
  {
    if n == 0 {
      assert Show(0);
    } else {
      RunNoMarks(g, w, text, states, events, n - 1);
      TurnNoMarks(g, states[n - 1], events[n - 1], states[n]);
    }
  }

  /** A master can start a round at any turn of its run, if its files rest and its list fits a message. */
  lemma MasterReady(g: Setting, w0: World, text0: seq<Byte>, states: seq<State>, events: seq<Event>, n: nat, wm: World)
    requires RunTo(g, w0, text0, states, events, n) && CodecOk(g.codec, g.limit)
    requires ScanOk(g, wm) && UpToDate(wm, states[n].table) && states[n].table != []
    requires TableFits(g, states[n].table) && |PayloadBytes(LIST, ListOf(states[n].table))| <= g.limit
    ensures RoundOk(g, wm, states[n].table) && ListEntries(ListOf(states[n].table))
  {
    assert ShowSize(0);
    var m := RunInv(g, w0, text0, states, events, n);
    InvOpen(g, states[n], states[m].table);
    RunFresh(g, w0, text0, states, events, n, wm);
    ListIs(g, states[n].table);
  }

  /** And so can a slave, whatever exchanges it has been through: its table has distinct paths, no marks
      and the digests of its files. */
  lemma SlaveReady(g: Setting, wm: World, t: Table, gs: Setting, w0: World, text0: seq<Byte>,
                   states: seq<State>, events: seq<Event>, n: nat, w: World, s: Slave)
    requires RunTo(gs, w0, text0, states, events, n) && forall k :: 0 <= k < n ==> !events[k].Requested?
    requires Consistent(gs, w) && UpToDate(w, states[n].table) && wm.sha == gs.sha
    requires s.table == states[n].table && s.files == w.files && forall q :: s.host.canOpen(q)
    requires ListEntries(ListOf(t)) && forall p :: ToldApart(s, wm, p)
    requires var r := RequestOf(TableAfter(s, ListOf(t))); |r| < INT_BOUND && |PayloadBytes(REQUEST, r)| <= g.limit
    ensures SlaveOk(g, wm, t, s)
  {
    var m := RunInv(gs, w0, text0, states, events, n);
    InvOpen(gs, states[n], states[m].table);
    RunFresh(gs, w0, text0, states, events, n, w);
    RunNoMarks(gs, w0, text0, states, events, n);
  }

  /** After a scan of a table that is not empty every record is as the file system has it. */
  lemma ScanUpToDate(g: Setting, st: State, t: Table, w: World, text: seq<Byte>, st': State)
    requires ScanFrom(g, st.table, t, w, Listed(w, g.cfg, text, 0)) && Scans(g.cfg, g.codec, st, t, w, text, st') && t != []
    ensures UpToDate(w, st'.table)
  {
    assert Show(0);
    var u := Updated(t, w, Listed(w, g.cfg, text, 0));
    UpdatedOk(g, w, Listed(w, g.cfg, text, 0), t);
    assert st'.table == WithStates(u, 0);
  }

  /** The table of the slave's server after the turn with the exchange. */
  lemma RoundUpToDate(gs: Setting, w0: World, text0: seq<Byte>, states: seq<State>, events: seq<Event>, n: nat)
    requires RunTo(gs, w0, text0, states, events, n + 1) && events[n].Exchanged? && states[n].table != []
    ensures Consistent(gs, events[n].w) && UpToDate(events[n].w, states[n + 1].table)
    ensures Next(gs.cfg, gs.codec, states[n], events[n], states[n + 1])
  {
    var m := RunInv(gs, w0, text0, states, events, n);
    InvOpen(gs, states[n], states[m].table);
    assert Show(0);
    var ev := events[n];
    HeardScan(gs, states[n].table, ev.list, ev.during, ev.w, ev.text);
    CompareGrows(states[n].table, ev.during, ev.list, |ev.list|);
    ScanUpToDate(gs, states[n], Heard(states[n].table, ev.during, ev.list), ev.w, ev.text, states[n + 1]);
  }

  /** What the client of a slave holds for the path a/b: in its directory, under the name b, the master's
      contents. A name that does not fit the buffer is cut. */
  ghost predicate HoldsFor(dir: Path, f: FileSys, wm: World, p: Path) {
    SLASH in p && p in wm.files && forall a, b: Path :: p == a + [SLASH] + b && SLASH !in b ==>
      var q := dir + [SLASH] + b;
      var place := if |q| < 4096 then q else q[..4095];
      place in f && f[place].data == wm.files[p].data
  }

  lemma ClientHolds(gs: Setting, f: FileSys, t: Table, w: World, wm: World, p: Path)
    requires Covers(gs, f, t) && UpToDate(w, t) && Consistent(gs, w) && HasPath(t, p) && Same(w.files, wm, p)
    requires RecordsOk(gs, t)
    ensures HoldsFor(gs.dir, f, wm, p)
  {
    assert ShowFiles(0);
    var i :| 0 <= i < |t| && t[i].path == p;
    assert CoversAt(gs, f, t[i]);
    Placed(gs.dir, p);
  }

  /** The place of a path on a client, in terms of its last component. */
  lemma Placed(dir: Path, p: Path)
    ensures forall a, b: Path :: p == a + [SLASH] + b && SLASH !in b ==>
      var q := dir + [SLASH] + b;
      Target(Some(dir), p) == if |q| < 4096 then q else q[..4095]
  {
    forall a, b: Path | p == a + [SLASH] + b && SLASH !in b
      ensures var q := dir + [SLASH] + b; Target(Some(dir), p) == if |q| < 4096 then q else q[..4095]
    {
      TargetIs(dir, a, b);
    }
  }

  lemma ClientsHold(gs: Setting, f: FileSys, t: Table, w: World, wm: World, t0: Table, s0: Slave)
    requires Covers(gs, f, t) && UpToDate(w, t) && Consistent(gs, w) && Converged(wm, t0, s0, w.files)
    requires RecordsOk(gs, t)
    requires !HasPath(t0, s0.sync) && forall p :: HasPath(t, p) <==> HasPath(t0, p)
    ensures forall p :: HasPath(t0, p) ==> HoldsFor(gs.dir, f, wm, p)
  {
    forall p | HasPath(t0, p)
      ensures HoldsFor(gs.dir, f, wm, p)
    {
      ClientHolds(gs, f, t, w, wm, p);
    }
  }

  /** The slave's side of a round: its table has exactly the master's paths, as its files are, and these
      are the master's. */
  lemma RoundKeys(g: Setting, wm: World, run: seq<Global>, who: seq<nat>, k: nat, i: nat,
                  gs: Setting, w0: World, text0: seq<Byte>, states: seq<State>, events: seq<Event>, n: nat)
    requires RunTo(gs, w0, text0, states, events, n + 1)
    requires Interleaving(g, wm, run, who) && Received(run, k, i, states[n].table, events[n])
    ensures forall p :: HasPath(states[n + 1].table, p) <==> HasPath(run[0].table, p)
    ensures UpToDate(events[n].w, states[n + 1].table) && Consistent(gs, events[n].w)
    ensures Converged(wm, run[0].table, run[0].slaves[i], events[n].w.files)
  {
    AfterSession(g, wm, run, who, k, i);
    RoundUpToDate(gs, w0, text0, states, events, n);
    KeysConverge(g, wm, run, who, k, i, gs.cfg, gs.codec, states[n], events[n], states[n + 1]);
    SlavesConverge(g, wm, run, who, k, i);
  }

  /** From the master to the clients of its slaves. In any run of a slave's server, with any number of
      exchanges before, take a turn in which the slave goes through a session of a round and scans its list
      again. Then its table has exactly the master's paths, and every client that has a slot and has applied
      everything sent to it holds the master's contents of all of them. */
  lemma RoundConverges(g: Setting, wm: World, run: seq<Global>, who: seq<nat>, k: nat, i: nat,
                       gs: Setting, w0: World, text0: seq<Byte>, states: seq<State>, events: seq<Event>, n: nat,
                       host: Host, sock: int, hist: seq<FileSys>)
    requires RunTo(gs, w0, text0, states, events, n + 1) && NothingLost(gs, states, events, n + 1)
    requires Able(gs, host)
    requires Interleaving(g, wm, run, who) && Received(run, k, i, states[n].table, events[n])
    requires sock != 0 && sock in states[n + 1].slots && ClientRun(gs, host, Msgs(states[n + 1], sock), hist)
    ensures forall p :: HasPath(states[n + 1].table, p) <==> HasPath(run[0].table, p)
    ensures forall p :: HasPath(run[0].table, p) ==> HoldsFor(gs.dir, hist[|hist| - 1], wm, p)
  {
    RoundKeys(g, wm, run, who, k, i, gs, w0, text0, states, events, n);
    ClientsConverge(gs, host, w0, text0, states, events, n + 1, sock, hist);
    var m := RunInv(gs, w0, text0, states, events, n + 1);
    InvOpen(gs, states[n + 1], states[m].table);
    ClientsHold(gs, hist[|hist| - 1], states[n + 1].table, events[n].w, wm, run[0].table, run[0].slaves[i]);
  }
}
