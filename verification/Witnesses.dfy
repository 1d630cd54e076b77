/** Concrete inputs on which the program does not do what one would expect. For each of them there is a
    lemma elsewhere with the exact condition. */
module Witnesses {
  import opened Bytes
  import opened Wrappers
  import opened Records
  import opened Environment
  import opened FileFunc
  import opened ChangeDetection
  import opened Comparison
  import opened Wire
  import opened Serialize
  import opened Deserialize
  import opened Compress
  import opened Delivery
  import opened ServerRun
  import opened Client
  import opened Exchange
  import opened Convergence
  import opened MasterThreads
  import opened ListFile
  import opened Rounds

  /** The paths "/a" and "/b". */
  const PATH_A: Path := [SLASH, 97]
  const PATH_B: Path := [SLASH, 98]

  /** Every file contains one byte and has time stamp 5; every digest is zero; zlib copies its input. */
  function Contents(): File {
    File([1], 5)
  }

  function OneByte(p: Path, mtime: int): seq<Byte> {
    [1]
  }

  function Zero(): Digest {
    seq(DIGEST_LENGTH, i => 0)
  }

  function ZeroOf(x: seq<Byte>): Digest {
    Zero()
  }

  function Copied(x: seq<Byte>): seq<Byte> {
    x
  }

  function SameSize(n: nat): nat {
    n
  }

  function Copying(): Codec {
    Codec(Copied, Copied, SameSize)
  }

  function SmallSetting(): Setting {
    Setting(Config([SLASH], Copied), Copying(), [SLASH], OneByte, ZeroOf, 1000)
  }

  function Holding(files: FileSys): World {
    World(files, ZeroOf, ZeroOf)
  }

  function RecordOf(p: Path): Record {
    Record(p, 1, Zero(), 5, 0)
  }

  lemma SmallCodecOk()
    ensures CodecOk(Copying(), 1000)
  {
  }

  /** A path that is listed twice is not marked. */
  lemma TwiceUnmarked(t: Table, w: World, ps: seq<Path>, p: Path)
    requires DistinctPaths(t) && AllExist(w, ps) && |ps| == 2 && ps[0] == ps[1] == p
    ensures !Marked(Updated(t, w, ps), p)
  {
    assert Occurs(ps, 0, p) == 0;
    assert Occurs(ps, 1, p) == 1;
    MarkedIs(t, w, ps, p);
  }

  lemma ReadsTwice(w: World, cfg: Config) returns (text: seq<Byte>)
    requires BaseOk(cfg) && PATH_A in w.files
    ensures text == PATH_A + [NEWLINE] + PATH_A + [NEWLINE] && Listed(w, cfg, text, 0) == [PATH_A, PATH_A]
  {
    var es := [Entry(PATH_A, []), Entry(PATH_A, [])];
    text := Printed(es, 2);
    assert Printed(es, 1) == PATH_A + [NEWLINE];
    ListFileRoundTrip(w, cfg, es);
    assert Paths(es) == [PATH_A, PATH_A];
  }

  /** The text "/a", twice: the new file /a enters the table without a mark. */
  lemma ListedTwice() returns (t: Table, w: World, cfg: Config, text: seq<Byte>)
    ensures t != [] && DistinctPaths(t) && text == PATH_A + [NEWLINE] + PATH_A + [NEWLINE]
    ensures var ps := Listed(w, cfg, text, 0);
      PATH_A in ps && IsFresh(t, w, PATH_A) && !Marked(Updated(t, w, ps), PATH_A)
  {
    t, w, cfg := [RecordOf(PATH_B)], Holding(map[PATH_A := Contents()]), SmallSetting().cfg;
    text := ReadsTwice(w, cfg);
    var ps := [PATH_A, PATH_A];
    assert ps[0] == PATH_A && PATH_A[1] != PATH_B[1];
    TwiceUnmarked(t, w, ps, PATH_A);
  }

  /** "/a/x" and "/b/x" have the same place on a client. */
  lemma SameBaseName() returns (g: Setting, t: Table)
    ensures DistinctPaths(t) && |t| == 2
    ensures forall host: Host, f :: (forall q :: host.canOpen(q)) ==>
      !Covers(g, Stored(f, DueAll(g, t), Some(g.dir), host), t)
  {
    var p, q: Path := PATH_A + [SLASH, 120], PATH_B + [SLASH, 120];
    g := SmallSetting().(version := (p, m) => p);
    t := [RecordOf(p), RecordOf(q)];
    assert AfterSlash(p, 3) == 3 && AfterSlash(q, 3) == 3;
    assert AfterSlash(p, 4) == 3 && AfterSlash(q, 4) == 3;
    assert BaseName(p) == [120] == BaseName(q);
    assert p[1] != q[1];
    assert !NoClobber(g, t) by {
      assert Target(Some(g.dir), t[0].path) == Target(Some(g.dir), t[1].path);
      assert g.version(t[0].path, t[0].mtime) != g.version(t[1].path, t[1].mtime);
    }
    forall host: Host, f | forall q :: host.canOpen(q)
      ensures !Covers(g, Stored(f, DueAll(g, t), Some(g.dir), host), t)
    {
      ClobberExactly(g, host, t, f);
    }
  }

  /** An empty table does not notice that "/a" is listed and exists. */
  lemma EmptyMisses() returns (cfg: Config, c: Codec, st: State, w: World, text: seq<Byte>)
    ensures st.table == [] && Next(cfg, c, st, Scan(w, text), st)
    ensures PATH_A in Listed(w, cfg, text, 0) && !HasPath(st.table, PATH_A)
  {
    cfg, c, w := SmallSetting().cfg, Copying(), Holding(map[PATH_A := Contents()]);
    st := State([], [], [], map[]);
    text := Printed([Entry(PATH_A, [])], 1);
    ListFileRoundTrip(w, cfg, [Entry(PATH_A, [])]);
    assert Paths([Entry(PATH_A, [])])[0] == PATH_A;
  }

  lemma OneFits(p: Path)
    requires |p| == 2
    ensures TableFits(SmallSetting(), [RecordOf(p)])
  {
    var es := DueAll(SmallSetting(), [RecordOf(p)]);
    assert EntriesBytes(DATA, es, 0) == [];
    assert |EntriesBytes(DATA, es, 1)| == |EntryBytes(DATA, es[0])|;
  }

  lemma TwoFit()
    ensures TableFits(SmallSetting(), [RecordOf(PATH_A), RecordOf(PATH_B)])
  {
    var es := DueAll(SmallSetting(), [RecordOf(PATH_A), RecordOf(PATH_B)]);
    assert EntriesBytes(DATA, es, 0) == [];
    assert |EntriesBytes(DATA, es, 1)| == |EntryBytes(DATA, es[0])|;
    assert |EntriesBytes(DATA, es, 2)| == |EntriesBytes(DATA, es, 1)| + |EntryBytes(DATA, es[1])|;
  }

  lemma OnlyPath(u: Table, p: Path)
    requires DistinctPaths(u) && forall q :: HasPath(u, q) <==> q == p
    ensures |u| == 1 && u[0].path == p
  {
    assert HasPath(u, p);
    assert |u| > 1 ==> u[0].path != u[1].path;
    forall i | 0 <= i < |u|
      ensures u[i].path == p
    {
      assert HasPath(u, u[i].path);
    }
  }

  function BothRecords(): Table {
    [RecordOf(PATH_A), RecordOf(PATH_B)]
  }

  function BothFiles(): World {
    Holding(map[PATH_A := Contents(), PATH_B := Contents()])
  }

  lemma BothOk()
    ensures RecordsOk(SmallSetting(), BothRecords()) && TableFits(SmallSetting(), BothRecords())
  {
    assert PATH_A[1] != PATH_B[1];
    TwoFit();
  }

  /** The text with only "/a" in it. */
  lemma OnlyA() returns (text: seq<Byte>)
    ensures text == PATH_A + [NEWLINE] && Listed(BothFiles(), SmallSetting().cfg, text, 0) == [PATH_A]
  {
    text := PATH_A + [NEWLINE];
    OneListed(BothFiles(), SmallSetting().cfg);
  }

  lemma OneListed(w: World, cfg: Config)
    requires BaseOk(cfg) && PATH_A in w.files
    ensures Listed(w, cfg, PATH_A + [NEWLINE], 0) == [PATH_A]
  {
    var es := [Entry(PATH_A, [])];
    assert Printed(es, 1) == PATH_A + [NEWLINE];
    ListFileRoundTrip(w, cfg, es);
    assert Paths(es) == [PATH_A];
  }

  /** A scan that finds "/a" only. */
  lemma DropsB()
    ensures var ps := [PATH_A];
      && !TriggersTo(WithStates(BothRecords(), -1), BothFiles(), ps, |ps|)
      && WithStates(Updated(BothRecords(), BothFiles(), ps), 0) == [RecordOf(PATH_A)]
      && !AllListed(BothRecords(), ps)
  {
    var t, w, ps := BothRecords(), BothFiles(), [PATH_A];
    var u := Updated(t, w, ps);
    assert PATH_A[1] != PATH_B[1];
    IndexOfIs(t, PATH_A, 0);
    ResultExactly(t, w, ps);
    UpdateIs(t, w, ps);
    assert PATH_A == ps[0];
    OnlyPath(u, PATH_A);
    MarkedExactly(t, w, ps, PATH_A);
    IndexOfIs(u, PATH_A, 0);
    assert u[0].(state := 0) == t[0].(state := 0);
    assert WithStates(u, 0)[0] == u[0].(state := 0);
    assert t[1].path !in ps;
  }

  lemma BothScan()
    ensures ScanOk(SmallSetting(), BothFiles())
  {
  }

  /** "/b" has left the list: it is gone from the table, but not from the snapshot. */
  lemma Lingers() returns (g: Setting, st: State, text: seq<Byte>, st': State)
    ensures text == PATH_A + [NEWLINE] && st.table == BothRecords() && st'.table == [RecordOf(PATH_A)]
    ensures Exact(g, st) && Next(g.cfg, g.codec, st, Scan(BothFiles(), text), st') && !Exact(g, st')
  {
    text := OnlyA();
    BothOk();
    BothScan();
    DropsB();
    OneFits(PATH_A);
    SmallCodecOk();
    g := SmallSetting();
    st, st' := LineDropped(g, BothRecords(), [RecordOf(PATH_A)], BothFiles(), text, [PATH_A]);
  }

  /** A line of the list has gone, and nothing is new. */
  lemma LineDropped(g: Setting, t: Table, u: Table, w: World, text: seq<Byte>, ps: seq<Path>) returns (st: State, st': State)
    requires RecordsOk(g, t) && TableFits(g, t) && TableFits(g, u) && t != []
    requires CodecOk(g.codec, g.limit) && ScanOk(g, w) && Listed(w, g.cfg, text, 0) == ps
    requires !TriggersTo(WithStates(t, -1), w, ps, |ps|) && !AllListed(t, ps)
    requires WithStates(Updated(t, w, ps), 0) == u
    ensures st.table == t && st'.table == u
    ensures Exact(g, st) && Next(g.cfg, g.codec, st, Scan(w, text), st') && !Exact(g, st')
  {
    st := State(t, [], Snap(g, t), map[]);
    st' := st.(table := u);
    ExactInv(g, st);
    ResultExactly(t, w, ps);
    SnapshotExactly(g, st, t, w, text, st');
  }

  /** The path "/a b" does not survive the list file. */
  lemma SpaceIsCut() returns (w: World, cfg: Config, p: Path)
    ensures p == [47, 97, 32, 98] && p in w.files
    ensures var es := [Entry(p, [])]; Listed(w, cfg, Printed(es, 1), 0) != [p]
  {
    p := PATH_A + [SPACE, 98];
    w, cfg := Holding(map[p := Contents()]), SmallSetting().cfg;
    var es := [Entry(p, [])];
    assert p[2] == SPACE && SPACE in p;
    assert !Plain(es[0].path);
    ListFileRoundTrip(w, cfg, es);
    assert Paths(es) == [p];
  }

  /** Master and slave have different files "/a", with the digests of StrncmpBlind: the slave asks for
      nothing and keeps its own. */
  lemma SlaveKeeps() returns (g: Setting, wm: World, t: Table, s: Slave)
    ensures MasterOk(g, wm, t) && NoMarks(t) && DistinctPaths(s.table) && NoMarks(s.table) && s.table != []
    ensures FreshDigests(t, wm.files, wm.sha) && FreshDigests(s.table, s.files, wm.sha)
    ensures ListEntries(ListOf(t)) && HasPath(t, PATH_A) && PATH_A != s.sync
    ensures forall es :: Carries(DATA, wm, Chosen(DATA, Alone(t, s)), es) && (forall q :: s.host.canOpen(q)) ==>
      !Same(FilesOnSlave(s, ListOf(t), es), wm, PATH_A)
  {
    var a, b := StrncmpBlind();
    var sha := (x: seq<Byte>) => if x == [1] then a else b;
    g := SmallSetting().(sha := sha);
    wm := World(map[PATH_A := Contents()], sha, ZeroOf);
    t := [RecordOf(PATH_A).(checkSum := a)];
    var files := map[PATH_A := File([2], 5)];
    s := Slave([RecordOf(PATH_A).(checkSum := b)], files, PATH_B, World(files, sha, ZeroOf), Host(p => true, p => 6));
    assert PATH_A[1] != PATH_B[1] && [1][0] != [2][0];
    assert t[0].path == PATH_A;
    ListIs(g, t);
    IndexOfIs(s.table, PATH_A, 0);
    AloneMarks(g, t, s, PATH_A);
    forall es | Carries(DATA, wm, Chosen(DATA, Alone(t, s)), es)
      ensures !Same(FilesOnSlave(s, ListOf(t), es), wm, PATH_A)
    {
      DeliveredExactly(g, wm, t, Alone(t, s), es, s, PATH_A);
    }
  }

  /** A payload one byte short of 4 GiB, and a codec that needs one byte more than it is given: there is no
      room for the stream, and the receiver gets whatever its buffer held. */
  lemma JustBelow() returns (c: Codec, payload: seq<Byte>)
    ensures (forall x :: Sound(c, x)) && |payload| == 4294967295 && !Restores(c, payload)
  {
    c := Codec(x => x + [0], z => if z == [] then [] else z[..|z| - 1], n => n + 1);
    forall x: seq<Byte>
      ensures Sound(c, x)
    {
      assert (x + [0])[..|x + [0]| - 1] == x;
    }
    payload := seq(UINT_BOUND - 1, i => 0);
    RestoresUncut(c, payload);
  }

  /** A slave with an empty table: its master sends the list and then waits for ever. */
  lemma EmptySlaveHangs() returns (g: Setting, wm: World, run: seq<Global>, who: seq<nat>)
    ensures Interleaving(g, wm, run, who) && |run| == 2 && |run[0].slaves| == 1 && run[0].slaves[0].table == []
    ensures Stopped(g, wm, run[1]) && |run[1].phases| == 1 && !Over(run[1].phases[0])
  {
    g, wm := SmallSetting(), Holding(map[PATH_A := Contents()]);
    var t := [RecordOf(PATH_A)];
    var s := Slave([], map[], PATH_B, Holding(map[]), Host(p => true, p => 6));
    SmallRound();
    var a := Global(t, [s], [Connected]);
    var b := a.(phases := [ListSent(Sealed(g.codec, LIST, ListOf(t)))]);
    run, who := [a, b], [0];
    NothingAsked(s, ListOf(t));
    assert Starting(g, wm, a);
    assert a.phases[0 := b.phases[0]] == b.phases;
    assert Moves(g, wm, a, 0, b);
    RoundStuck(g, wm, run, who);
  }

  lemma OneListFits(t: Table)
    requires |t| == 1 && |t[0].path| == 2
    ensures |PayloadBytes(LIST, ListOf(t))| <= 1000
  {
    var es := ListOf(t);
    assert EntriesBytes(LIST, es, 0) == [];
    assert |EntriesBytes(LIST, es, 1)| == |EntryBytes(LIST, es[0])|;
  }

  lemma SmallRound()
    ensures RoundOk(SmallSetting(), Holding(map[PATH_A := Contents()]), [RecordOf(PATH_A)])
    ensures ListEntries(ListOf([RecordOf(PATH_A)]))
  {
    assert ShowSize(0);
    var t := [RecordOf(PATH_A)];
    OneListFits(t);
    OneFits(PATH_A);
    SmallCodecOk();
    SmallMaster(t[0]);
  }

  lemma SmallMaster(r: Record)
    requires r == RecordOf(PATH_A)
    ensures var wm := Holding(map[PATH_A := Contents()]);
      MasterOk(SmallSetting(), wm, [r]) && FreshDigests([r], wm.files, wm.sha)
  {
  }

  /** The request an empty table would make of a list with one line is short. */
  lemma NothingAsked(s: Slave, list: seq<Entry>)
    requires ListEntries(list) && |list| == 1 && |list[0].path| == 2 && s.table == []
    ensures var r := RequestOf(TableAfter(s, list)); |r| <= 1 && |PayloadBytes(REQUEST, r)| <= 1000
  {
    assert CompareTo(s.table, s.world, list, 0) == [];
    var t := TableAfter(s, list);
    assert t == [s.world.NewRecord(list[0].path)];
    var r := RequestOf(t);
    assert ChosenTo(REQUEST, t, 0) == [];
    assert ChosenTo(REQUEST, t, 1) == [t[0]];
    assert EntriesBytes(REQUEST, r, 0) == [];
    assert |EntriesBytes(REQUEST, r, 1)| == |EntryBytes(REQUEST, r[0])|;
  }

  lemma RoundStuck(g: Setting, wm: World, run: seq<Global>, who: seq<nat>)
    requires Interleaving(g, wm, run, who) && |run| == 2 && |run[0].slaves| == |run[1].slaves| == |run[1].phases| == 1
    requires run[1].phases[0].ListSent? && run[1].slaves[0].table == []
    ensures Stopped(g, wm, run[1]) && !Over(run[1].phases[0])
  {
    forall i: nat, b
      ensures !Step(g, wm, run[1], i, b)
    {
      if i == 0 {
        NeverStuck(g, wm, run, who, 1, 0);
      }
    }
  }

  /** The path "./a" does not survive the list file either: it is looked up in the directory of the list. */
  lemma DotIsRelative() returns (w: World, cfg: Config, p: Path)
    ensures p == [46, 47, 97] && p in w.files && cfg.base == [47, 100]
    ensures Listed(w, cfg, p + [10], 0) == [] && Printed([Entry(p, [])], 1) == p + [10]
  {
    p := [46, 47, 97];
    w, cfg := Holding(map[p := Contents()]), Config([47, 100], Copied);
    var q := cfg.base + [47] + p;
    assert q[0] != p[0];
    RelativeOnly(w, cfg, p);
    assert Printed([Entry(p, [])], 0) == [];
  }

  /** "/d/./a" exists: the line "./a" of a list in "/d" finds it. */
  lemma DotIsFound() returns (w: World, cfg: Config, q: Path)
    ensures q == [47, 100, 47, 46, 47, 97] && cfg.base == [47, 100] && Listed(w, cfg, [46, 47, 97, 10], 0) == [q]
  {
    q := [47, 100, 47, 46, 47, 97];
    w, cfg := Holding(map[q := Contents()]), Config([47, 100], Copied);
    var p: Path := [46, 47, 97];
    RelativeOnly(w, cfg, p);
    assert cfg.base + [47] + p == q && p + [10] == [46, 47, 97, 10];
  }

  /** The client stores "/h/s/1" and "/h/t/2" as "../d/1" and "../d/2". */
  lemma PlacesOfTwo()
    ensures Target(Some([46, 46, 47, 100]), [47, 104, 47, 115, 47, 49]) == [46, 46, 47, 100, 47, 49]
    ensures Target(Some([46, 46, 47, 100]), [47, 104, 47, 116, 47, 50]) == [46, 46, 47, 100, 47, 50]
  {
    var d: Path := [46, 46, 47, 100];
    TargetIs(d, [47, 104, 47, 115], [49]);
    TargetIs(d, [47, 104, 47, 116], [50]);
    assert [47, 104, 47, 115] + [SLASH] + [49] == [47, 104, 47, 115, 47, 49];
    assert [47, 104, 47, 116] + [SLASH] + [50] == [47, 104, 47, 116, 47, 50];
    assert d + [SLASH] + [49] == [46, 46, 47, 100, 47, 49];
    assert d + [SLASH] + [50] == [46, 46, 47, 100, 47, 50];
  }

  lemma SmallNumber(v: nat)
    requires v < 256
    ensures Encode(v, 8) == [v, 0, 0, 0, 0, 0, 0, 0] && Encode(v, 4) == [v, 0, 0, 0]
  {
    assert Encode(0, 1) == [0];
    assert Encode(0, 2) == [0] + Encode(0, 1);
    assert Encode(0, 3) == [0] + Encode(0, 2);
    assert Encode(0, 4) == [0] + Encode(0, 3);
    assert Encode(0, 5) == [0] + Encode(0, 4);
    assert Encode(0, 6) == [0] + Encode(0, 5);
    assert Encode(0, 7) == [0] + Encode(0, 6);
  }

  /** A whole message with one small entry: the header, and then the bytes of the entry. */
  lemma OneEntry(kind: nat, e: Entry)
    requires kind < 256 && EntrySize(kind, |e.path|, |e.payload|) < 256
    ensures var b := EntryBytes(kind, e);
      Message(kind, [e]) == [kind, 0, 0, 0, 0, 0, 0, 0, |b|, 0, 0, 0, 0, 0, 0, 0, 1, 0, 0, 0, 0, 0, 0, 0] + b
  {
    var b := EntryBytes(kind, e);
    assert EntriesBytes(kind, [e], 0) == [];
    assert PayloadBytes(kind, [e]) == b;
    SmallNumber(kind);
    SmallNumber(|b|);
    SmallNumber(1);
  }

  /** Byte by byte: the list with the file "/a", the request for it, and the file with the one byte 7. */
  lemma ThreeMessages(d: Digest)
    ensures Message(1, [Entry(PATH_A, d)]) ==
      [1, 0, 0, 0, 0, 0, 0, 0, 43, 0, 0, 0, 0, 0, 0, 0, 1, 0, 0, 0, 0, 0, 0, 0] + [3, 0, 0, 0, 0, 0, 0, 0, 47, 97, 0] + d
    ensures Message(2, [Entry(PATH_A, [])]) ==
      [2, 0, 0, 0, 0, 0, 0, 0, 11, 0, 0, 0, 0, 0, 0, 0, 1, 0, 0, 0, 0, 0, 0, 0] + [3, 0, 0, 0, 0, 0, 0, 0, 47, 97, 0]
    ensures Message(3, [Entry(PATH_A, [7])]) ==
      [3, 0, 0, 0, 0, 0, 0, 0, 20, 0, 0, 0, 0, 0, 0, 0, 1, 0, 0, 0, 0, 0, 0, 0]
      + [3, 0, 0, 0, 0, 0, 0, 0, 1, 0, 0, 0, 0, 0, 0, 0, 47, 97, 0, 7]
    ensures LIST == 1 && REQUEST == 2 && DATA == 3
  {
    OneEntry(1, Entry(PATH_A, d));
    OneEntry(2, Entry(PATH_A, []));
    OneEntry(3, Entry(PATH_A, [7]));
    SmallNumber(3);
    SmallNumber(1);
    assert EntryBytes(1, Entry(PATH_A, d)) == [3, 0, 0, 0, 0, 0, 0, 0, 47, 97, 0] + d;
    assert EntryBytes(2, Entry(PATH_A, [])) == [3, 0, 0, 0, 0, 0, 0, 0, 47, 97, 0];
    assert EntryBytes(3, Entry(PATH_A, [7])) == [3, 0, 0, 0, 0, 0, 0, 0, 1, 0, 0, 0, 0, 0, 0, 0, 47, 97, 0, 7];
  }

  /** A master with "/a" and a slave with "/b" only: there is an interleaving at whose end the slave has "/a" with
      the master's contents, and still has "/b". */
  lemma RoundWorks() returns (g: Setting, wm: World, run: seq<Global>, who: seq<nat>)
    ensures Interleaving(g, wm, run, who) && |run[0].slaves| == 1 && run[0].slaves[0].files == map[PATH_B := Contents()]
    ensures var a := run[|who|];
      && |a.phases| == |a.slaves| == 1 && a.phases[0] in {Closed, Done}
      && PATH_A in a.slaves[0].files && a.slaves[0].files[PATH_A].data == [1]
      && PATH_B in a.slaves[0].files && a.slaves[0].files[PATH_B] == Contents()
  {
    g, wm := SmallSetting(), Holding(map[PATH_A := Contents()]);
    var t, files := [RecordOf(PATH_A)], map[PATH_B := Contents()];
    var s := Slave([RecordOf(PATH_B)], files, [SLASH], Holding(files), Host(p => true, p => 6));
    assert PATH_A[1] != PATH_B[1];
    SmallRound();
    OneAsked(s, ListOf(t));
    var a0 := Global(t, [s], [Connected]);
    assert Starting(g, wm, a0);
    run, who := RoundCompletes(g, wm, a0);
    assert t[0].path == PATH_A;
  }

  /** The request a table with another file makes of a list with one line is short. */
  lemma OneAsked(s: Slave, list: seq<Entry>)
    requires ListEntries(list) && |list| == 1 && |list[0].path| == 2 && |s.table| == 1
    requires s.table[0].path != list[0].path && s.table[0].state == 0
    ensures var r := RequestOf(TableAfter(s, list)); |r| <= 2 && |PayloadBytes(REQUEST, r)| <= 1000
  {
    assert CompareTo(s.table, s.world, list, 0) == s.table;
    var t := TableAfter(s, list);
    assert t == s.table + [s.world.NewRecord(list[0].path)];
    var r := RequestOf(t);
    assert ChosenTo(REQUEST, t, 0) == [];
    assert ChosenTo(REQUEST, t, 1) == [];
    assert ChosenTo(REQUEST, t, 2) == [t[1]];
    assert EntriesBytes(REQUEST, r, 0) == [];
    assert |EntriesBytes(REQUEST, r, 1)| == |EntryBytes(REQUEST, r[0])|;
  }

  function TwoVersions(p: Path, mtime: int): seq<Byte> {
    if mtime == 6 then [2] else [1]
  }

  /** The clients' directory is "/d". */
  function Watching(): Setting {
    Setting(Config([SLASH], Copied), Copying(), [47, 100], TwoVersions, ZeroOf, 1000)
  }

  /** "/a" as it is first, and as it is after a change. */
  function Before(): World {
    Holding(map[PATH_A := File([1], 5)])
  }

  function After(): World {
    Holding(map[PATH_A := File([2], 6)])
  }

  /** Mentioning Play brings the contents of Scene into a proof. */
  ghost predicate Play(k: int) {
    true
  }

  /** The setting of the run below, its two file systems, and the list. */
  ghost predicate Scene(g: Setting, w0: World, w1: World, text: seq<Byte>) {
    forall k {:trigger Play(k)} :: Play(k) ==>
      g == Watching() && w0 == Before() && w1 == After() && text == PATH_A + [NEWLINE]
  }

  /** A table with "/a" only fits into a message and has no two files of the same name. */
  lemma OnlyAOk(g: Setting, t: Table)
    requires g == Watching() && DistinctPaths(t) && forall p :: HasPath(t, p) <==> p == PATH_A
    ensures |t| == 1 && t[0].path == PATH_A && TableFits(g, t) && NamesApart(g.dir, t)
  {
    OnlyPath(t, PATH_A);
    var es := DueAll(g, t);
    assert EntriesBytes(DATA, es, 0) == [];
    assert |EntriesBytes(DATA, es, 1)| == |EntryBytes(DATA, es[0])|;
  }

  lemma SceneOk(g: Setting, w0: World, w1: World, text: seq<Byte>)
    requires Scene(g, w0, w1, text)
    ensures ScanOk(g, w0) && ScanOk(g, w1) && CodecOk(g.codec, g.limit)
    ensures Listed(w0, g.cfg, text, 0) == [PATH_A] == Listed(w1, g.cfg, text, 0)
  {
    assert Play(0);
    SmallCodecOk();
    OneListed(w0, g.cfg);
    OneListed(w1, g.cfg);
  }

  lemma SceneTable(g: Setting, w0: World, w1: World, text: seq<Byte>, t: Table)
    requires Scene(g, w0, w1, text) && DistinctPaths(t) && forall p :: HasPath(t, p) <==> p == PATH_A
    ensures |t| == 1 && t[0].path == PATH_A && TableFits(g, t) && NamesApart(g.dir, t)
    ensures UpToDate(w1, t) ==> g.version(t[0].path, t[0].mtime) == [2]
  {
    assert Play(0);
    OnlyAOk(g, t);
  }

  lemma InitDistinct(g: Setting, w: World, text: seq<Byte>, st: State)
    requires Init(g.cfg, g.codec, w, text, st)
    ensures DistinctPaths(st.table)
  {
    var ps := Listed(w, g.cfg, text, 0);
    AddedIs(w, ps, |ps|);
  }

  lemma OnlyListed(ps: seq<Path>)
    requires |ps| == 1
    ensures forall p :: p in ps <==> p == ps[0]
  {
  }

  lemma FirstTurn(g: Setting, w0: World, w1: World, text: seq<Byte>) returns (st: State)
    requires Scene(g, w0, w1, text)
    ensures Starts(g, w0, text, st) && NamesApart(g.dir, st.table) && 0 in st.slots && st.table != []
  {
    SceneOk(g, w0, w1, text);
    st := LoopStarts(g, w0, text);
    InitExactly(g, w0, text, st);
    InitDistinct(g, w0, text, st);
    OnlyListed(Listed(w0, g.cfg, text, 0));
    SceneTable(g, w0, w1, text, st.table);
    assert st.slots[0] == 0;
  }

  lemma AcceptTurn(g: Setting, w0: World, text: seq<Byte>, st: State) returns (st': State, s: Table)
    requires Starts(g, w0, text, st)
    ensures Turn(g, st, Accept(5), st') && st'.table == st.table && Inv(g, st', s)
  {
    StartKeeps(g, w0, text, st);
    assert Show(0);
    st' := LoopGoesOn(g, st, st.table, Accept(5));
    s := NextKeeps(g, st, st.table, Accept(5), st');
  }

  /** A scan of the changed "/a". */
  lemma ScanTurn(g: Setting, w0: World, w1: World, text: seq<Byte>, st: State, s: Table) returns (st': State)
    requires Scene(g, w0, w1, text) && Inv(g, st, s) && st.table != []
    ensures Turn(g, st, Scan(w1, text), st') && TurnFreshOnce(g, st, Scan(w1, text))
    ensures NamesApart(g.dir, st'.table) && |st'.table| == 1 && st'.table[0].path == PATH_A
    ensures g.version(st'.table[0].path, st'.table[0].mtime) == [2]
  {
    SceneOk(g, w0, w1, text);
    InvOpen(g, st, s);
    st' := LoopGoesOn(g, st, s, Scan(w1, text));
    ListedOnce(st.table, w1, Listed(w1, g.cfg, text, 0));
    OnlyListed(Listed(w1, g.cfg, text, 0));
    AfterScan(g, w1, text, st, st');
    SceneTable(g, w0, w1, text, st'.table);
  }

  lemma ListedOnce(t: Table, w: World, ps: seq<Path>)
    requires |ps| == 1
    ensures FreshOnce(t, w, ps)
  {
    assert Occurs(ps, 0, ps[0]) == 0;
    OnlyListed(ps);
  }

  lemma AfterScan(g: Setting, w: World, text: seq<Byte>, st: State, st': State)
    requires RecordsOk(g, st.table) && ScanOk(g, w) && st.table != []
    requires Next(g.cfg, g.codec, st, Scan(w, text), st')
    ensures DistinctPaths(st'.table) && UpToDate(w, st'.table)
    ensures forall p :: HasPath(st'.table, p) <==> p in Listed(w, g.cfg, text, 0)
  {
    var ps := Listed(w, g.cfg, text, 0);
    ScanFollows(g.cfg, g.codec, st, w, text, st');
    PlainScan(g, st.table, w, text);
    ScanUpToDate(g, st, st.table, w, text, st');
    UpdateIs(st.table, w, ps);
    assert st'.table == WithStates(Updated(st.table, w, ps), 0);
  }

  lemma TwoTurns(g: Setting, w: World, text: seq<Byte>, states: seq<State>, events: seq<Event>)
    requires |states| == 3 && |events| == 2 && Starts(g, w, text, states[0])
    requires Turn(g, states[0], events[0], states[1]) && Turn(g, states[1], events[1], states[2])
    requires NamesApart(g.dir, states[0].table) && NamesApart(g.dir, states[2].table) && states[1].table == states[0].table
    requires events[0].Accept? && TurnFreshOnce(g, states[1], events[1])
    ensures RunTo(g, w, text, states, events, 2) && forall k :: 0 <= k <= 2 ==> NamesApart(g.dir, states[k].table)
    ensures forall k :: 0 <= k < 2 ==> TurnFreshOnce(g, states[k], events[k])
  {
    assert RunTo(g, w, text, states, events, 0);
    assert RunTo(g, w, text, states, events, 1);
  }

  /** The three states of the run below. */
  lemma ThreeStates(g: Setting, w0: World, w1: World, text: seq<Byte>, events: seq<Event>) returns (states: seq<State>)
    requires Scene(g, w0, w1, text) && events == [Accept(5), Scan(w1, text)]
    ensures |states| == 3 && RunTo(g, w0, text, states, events, 2)
    ensures 0 in states[0].slots && forall k :: 0 <= k <= 2 ==> NamesApart(g.dir, states[k].table)
    ensures forall k :: 0 <= k < 2 ==> TurnFreshOnce(g, states[k], events[k])
    ensures |states[2].table| == 1 && states[2].table[0].path == PATH_A
    ensures g.version(states[2].table[0].path, states[2].table[0].mtime) == [2]
  {
    var s0 := FirstTurn(g, w0, w1, text);
    var s1, m := AcceptTurn(g, w0, text, s0);
    var s2 := ScanTurn(g, w0, w1, text, s1, m);
    states := [s0, s1, s2];
    TwoTurns(g, w0, text, states, events);
  }

  /** A client that connects in the first turn and stays has a slot after the second. */
  lemma StaysConnected(g: Setting, w: World, text: seq<Byte>, states: seq<State>, events: seq<Event>, sock: int)
    requires RunTo(g, w, text, states, events, 2) && sock != 0
    requires events[0] == Accept(sock) && !events[1].Ready? && 0 in states[0].slots
    ensures sock in states[2].slots
  {
    assert Keeping(states, events, 0, 2, sock);
    SlottedExactly(g, w, text, states, events, 2, sock);
  }

  lemma SceneRuns(g: Setting, w0: World, w1: World, text: seq<Byte>, events: seq<Event>, host: Host)
    returns (states: seq<State>, hist: seq<FileSys>)
    requires Scene(g, w0, w1, text) && events == [Accept(5), Scan(w1, text)] && forall q :: host.canOpen(q)
    ensures RunTo(g, w0, text, states, events, 2)
    ensures 5 in states[2].slots && ClientRun(g, host, Msgs(states[2], 5), hist) && hist[0] == map[]
    ensures var f, q := hist[|hist| - 1], g.dir + [SLASH] + [97]; q in f && f[q].data == [2]
  {
    states := ThreeStates(g, w0, w1, text, events);
    SceneOk(g, w0, w1, text);
    StaysConnected(g, w0, text, states, events, 5);
    hist := SceneArrives(g, w0, text, states, events, host, 5);
  }

  lemma SceneArrives(g: Setting, w0: World, text: seq<Byte>, states: seq<State>, events: seq<Event>, host: Host, sock: int)
    returns (hist: seq<FileSys>)
    requires RunTo(g, w0, text, states, events, 2) && CodecOk(g.codec, g.limit) && forall q :: host.canOpen(q)
    requires sock != 0 && sock in states[2].slots
    requires forall k :: 0 <= k <= 2 ==> NamesApart(g.dir, states[k].table)
    requires forall k :: 0 <= k < 2 ==> TurnFreshOnce(g, states[k], events[k])
    requires states[2].table != [] && states[2].table[0].path == PATH_A
    requires g.version(states[2].table[0].path, states[2].table[0].mtime) == [2]
    ensures ClientRun(g, host, Msgs(states[2], sock), hist) && hist[0] == map[]
    ensures var f, q := hist[|hist| - 1], g.dir + [SLASH] + [97]; q in f && f[q].data == [2]
  {
    hist := ClientsKeepUp(g, host, w0, text, states, events, 2, sock, map[]);
    assert [] + [SLASH] + [97] == PATH_A;
    FilesArrive(g, host, w0, text, states, events, 2, sock, hist, 0, [], [97]);
  }

  /** A run: the server starts with "/a", a client connects, and "/a" changes. A client that has applied what it was
      sent has the new contents in "/d/a". */
  lemma RunWorks(host: Host)
    returns (g: Setting, text: seq<Byte>, states: seq<State>, events: seq<Event>, hist: seq<FileSys>)
    requires forall q :: host.canOpen(q)
    ensures g == Watching() && text == PATH_A + [NEWLINE] && events == [Accept(5), Scan(After(), text)]
    ensures RunTo(g, Before(), text, states, events, 2)
    ensures 5 in states[2].slots && ClientRun(g, host, Msgs(states[2], 5), hist) && hist[0] == map[]
    ensures var f, q := hist[|hist| - 1], [47, 100, 47, 97]; q in f && f[q].data == [2]
  {
    g, text := Watching(), PATH_A + [NEWLINE];
    events := [Accept(5), Scan(After(), text)];
    states, hist := SceneRuns(g, Before(), After(), text, events, host);
    assert g.dir + [SLASH] + [97] == [47, 100, 47, 97];
  }
}
