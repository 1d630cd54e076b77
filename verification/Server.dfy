/** The server process: its loop over connections, scans and broadcasts. */
module Server {
  import opened Bytes
  import opened Wrappers
  import opened Records
  import opened UtHash
  import opened Environment
  import opened HashTableFunc
  import opened FileFunc
  import opened ChangeDetection
  import opened Wire
  import opened Serialize
  import opened Deserialize
  import opened Compress
  import opened Delivery
  import opened ServerRun

  class FileServer {
    const cfg: Config
    const codec: Codec
    const fileList: FileList
    const clientSocket: array<int>
    var serializedData: seq<Byte>
    var sent: map<int, seq<seq<Byte>>>

    ghost predicate Valid()
      reads this, fileList, fileList.buckets, fileList.items, clientSocket
    {
      fileList.Valid() && clientSocket.Length == MAX_CLIENTS && this !in fileList.Repr && clientSocket !in fileList.Repr
    }

    ghost function Abs(): State
      requires Valid()
      reads this, fileList, fileList.buckets, fileList.items, clientSocket
    {
      State(fileList.Contents(), clientSocket[..], serializedData, sent)
    }

    constructor (hash: Path -> nat, cfg: Config, codec: Codec)
      ensures Valid() && fresh(fileList.Repr) && fresh(clientSocket)
      ensures this.cfg == cfg && this.codec == codec
      ensures Abs() == State([], seq(MAX_CLIENTS, i => 0), [], map[])
    {
      this.cfg, this.codec := cfg, codec;
      fileList := new FileList(hash);
      clientSocket := new int[MAX_CLIENTS](i => 0);
      serializedData := [];
      sent := map[];
      new;
      assert clientSocket[..] == seq(MAX_CLIENTS, i => 0);
    }

    /** What main does before its loop: the listed files enter the table, and the first snapshot is made. */
    method Start(w: World, text: seq<Byte>)
      requires Valid() && GoodFiles(w.files) && Abs() == State([], seq(MAX_CLIENTS, i => 0), [], map[])
      modifies this`serializedData, fileList.Repr
      ensures Valid() && Init(cfg, codec, w, text, Abs())
    {
      ProcessSyncFile(fileList, w, cfg, text);
      ghost var ps := Listed(w, cfg, text, 0);
      StartsOpenable(w, ps, cfg, text);
      var es := FirstSnapshot(w, AddedTo([], w, ps, |ps|));
      InitIs(cfg, codec, w, text, serializedData, es, Abs());
    }

    method FirstSnapshot(w: World, ghost t: Table) returns (ghost es: seq<Entry>)
      requires fileList.Valid() && fileList.Contents() == t && Openable(t, w)
      modifies this`serializedData, fileList.items`state
      ensures fileList.Valid() && fileList.Contents() == WithStates(t, 0)
      ensures Carries(DATA, w, Chosen(DATA, t), es)
      ensures serializedData == if t == [] then [] else Sealed(codec, DATA, es)
    {
      var total;
      total, serializedData, es := MakeData(w, t);
      ChangeState(fileList, 0);
    }

    /** Sizing, writing and packing a message with every marked file; nothing for an empty list. */
    method MakeData(w: World, ghost t: Table) returns (total: nat, msg: seq<Byte>, ghost es: seq<Entry>)
      requires fileList.Valid() && fileList.Contents() == t && Openable(t, w)
      ensures fileList.Valid() && fileList.Contents() == t
      ensures Carries(DATA, w, Chosen(DATA, t), es)
      ensures msg == if t == [] then [] else Sealed(codec, DATA, es)
      ensures total == 0 <==> es == []
    {
      var header, buf;
      header, buf, es := Compose(DATA, fileList, w, t);
      total := header.totalSize;
      NothingChosen(t, w, es);
      msg := [];
      if buf != null {
        msg := PackEntries(DATA, header, buf, codec, es);
      }
    }

    /** client_add: the first free slot, if there is one. */
    method AddClient(sock: int)
      requires clientSocket.Length == MAX_CLIENTS
      modifies clientSocket
      ensures clientSocket[..] == ClientAdded(old(clientSocket[..]), sock)
      ensures forall k :: 0 <= k < 20 && old(clientSocket[k]) == 0 && 0 !in old(clientSocket[..k]) ==>
        clientSocket[..] == old(clientSocket[..])[k := sock]
      ensures 0 !in old(clientSocket[..]) ==> clientSocket[..] == old(clientSocket[..])
    {
      var index := 0;
      while index < MAX_CLIENTS && clientSocket[index] != 0
        invariant index <= MAX_CLIENTS && forall j :: 0 <= j < index ==> clientSocket[j] != 0
      {
        index := index + 1;
      }
      FreeSlotIs(clientSocket[..], 0, index);
      if index < MAX_CLIENTS {
        clientSocket[index] := sock;
      }
    }

    /** A new connection: it gets a slot if there is one, and the snapshot. */
    method AcceptClient(sock: int)
      requires Valid() && sock != 0
      modifies this`sent, clientSocket
      ensures Valid() && Next(cfg, codec, old(Abs()), Accept(sock), Abs())
    {
      AddClient(sock);
      if serializedData != [] {
        sent := Send(sent, sock, serializedData);
      }
    }

    /** client_connect_check on every readable client socket. */
    method CheckClients(closed: set<int>)
      requires Valid() && 0 !in closed
      modifies clientSocket
      ensures Valid() && Next(cfg, codec, old(Abs()), Ready(closed), Abs())
      ensures forall i :: 0 <= i < 20 ==> clientSocket[i] == if old(clientSocket[i]) in closed then 0 else old(clientSocket[i])
    {
      for index := 0 to MAX_CLIENTS
        invariant clientSocket[index..] == old(clientSocket[index..])
        invariant forall i :: 0 <= i < index ==> clientSocket[i] == Closed(old(clientSocket[..]), closed)[i]
      {
        if clientSocket[index] != 0 {
          if clientSocket[index] in closed {
            clientSocket[index] := 0;
          }
        }
      }
      assert clientSocket[..] == Closed(old(clientSocket[..]), closed);
    }

    /** thread_create: one send for every occupied slot. */
    method Broadcast(msg: seq<Byte>)
      requires clientSocket.Length == MAX_CLIENTS
      modifies this`sent
      ensures sent == BroadcastTo(old(sent), clientSocket[..], msg, MAX_CLIENTS)
    {
      for index := 0 to MAX_CLIENTS
        invariant sent == BroadcastTo(old(sent), clientSocket[..], msg, index)
      {
        if clientSocket[index] != 0 {
          sent := Send(sent, clientSocket[index], msg);
        }
      }
    }

    /** Sends the marked files to every client. */
    method SendChanges(w: World, ghost u: Table) returns (ghost es: seq<Entry>)
      requires fileList.Valid() && fileList.Contents() == u && u != [] && Openable(u, w)
      requires clientSocket.Length == MAX_CLIENTS
      modifies this`sent
      ensures fileList.Valid() && fileList.Contents() == u
      ensures Carries(DATA, w, Chosen(DATA, u), es)
      ensures sent == if es == [] then old(sent)
                      else BroadcastTo(old(sent), clientSocket[..], Sealed(codec, DATA, es), MAX_CLIENTS)
    {
      var total, updateData;
      total, updateData, es := MakeData(w, u);
      if total != 0 {
        Broadcast(updateData);
      }
    }

    /** Marks everything and makes the snapshot anew. */
    method RenewSnapshot(w: World, ghost u: Table) returns (ghost es: seq<Entry>)
      requires fileList.Valid() && fileList.Contents() == u && u != [] && Openable(WithStates(u, 1), w)
      modifies this`serializedData, fileList.items`state
      ensures fileList.Valid() && fileList.Contents() == WithStates(u, 1)
      ensures Carries(DATA, w, Chosen(DATA, WithStates(u, 1)), es) && serializedData == Sealed(codec, DATA, es)
    {
      ChangeState(fileList, 1);
      var total;
      total, serializedData, es := MakeData(w, WithStates(u, 1));
    }

    /** The part of the loop that reacts to a scan with news. */
    method PushChanges(w: World, ghost st: State, ghost u: Table) returns (ghost es1: seq<Entry>, ghost es2: seq<Entry>)
      requires fileList.Valid() && fileList.Contents() == u && u != [] && Openable(WithStates(u, 1), w)
      requires clientSocket.Length == MAX_CLIENTS && clientSocket[..] == st.slots && sent == st.sent
      modifies this`sent, this`serializedData, fileList.items`state
      ensures fileList.Valid() && fileList.Contents() == WithStates(u, 0)
      ensures Pushes(codec, st, w, u, State(WithStates(u, 0), st.slots, serializedData, sent), es1, es2)
    {
      OpenableMarked(u, w);
      es1 := SendChanges(w, u);
      es2 := RenewSnapshot(w, u);
      ChangeState(fileList, 0);
      assert WithStates(WithStates(u, 1), 0) == WithStates(u, 0);
    }

    /** One scan of the list, with everything that follows from it. */
    method ScanFiles(w: World, text: seq<Byte>)
      requires Valid() && GoodFiles(w.files)
      modifies this`sent, this`serializedData, fileList.Repr
      ensures Valid() && Scans(cfg, codec, old(Abs()), old(Abs()).table, w, text, Abs())
      ensures fresh(fileList.Repr - old(fileList.Repr))
    {
      ghost var st, ps := Abs(), Listed(w, cfg, text, 0);
      ghost var u := Updated(st.table, w, ps);
      fileList.ContentsDistinct();
      UpdateOpenable(w, st.table, ps, cfg, text);
      var result := MarkAndScan(w, text, st.table);
      if result == 1 {
        var es1, es2 := PushChanges(w, st, u);
        ScanPushes(cfg, codec, st, w, text, Abs(), es1, es2);
      } else {
        ChangeState(fileList, 0);
        ScanQuiet(cfg, codec, st, w, text, Abs());
      }
    }

    /** What a session of slave_server_action does to the table, if it gets as far as the list. */
    method HearList(list: seq<Entry>, during: World)
      requires Valid() && ListEntries(list)
      modifies fileList.Repr
      ensures Valid() && fresh(fileList.Repr - old(fileList.Repr))
      ensures Abs() == old(Abs()).(table := Heard(old(Abs()).table, during, list))
    {
      if fileList.head != null {
        PayloadRoundTrip(LIST, list);
        var printed := CompareAll(fileList, PayloadBytes(LIST, list), |list|, during);
      }
    }

    /** The slave phase of a turn and the scan that follows it. */
    method HearAndScan(list: seq<Entry>, during: World, w: World, text: seq<Byte>)
      requires Valid() && ListEntries(list) && GoodFiles(w.files)
      modifies this`sent, this`serializedData, fileList.Repr
      ensures Valid() && Next(cfg, codec, old(Abs()), Exchanged(list, during, w, text), Abs())
      ensures fresh(fileList.Repr - old(fileList.Repr))
    {
      ghost var st := Abs();
      HearList(list, during);
      ScanFiles(w, text);
      ScansAfter(cfg, codec, st, Heard(st.table, during, list), w, text, Abs());
    }

    /** change_state(-1) and update_check_sync_file. */
    method MarkAndScan(w: World, text: seq<Byte>, ghost t: Table) returns (result: int)
      requires fileList.Valid() && fileList.Contents() == t && GoodFiles(w.files)
      requires this !in fileList.Repr && clientSocket !in fileList.Repr
      modifies fileList.Repr
      ensures fileList.Valid() && this !in fileList.Repr && clientSocket !in fileList.Repr
      ensures fresh(fileList.Repr - old(fileList.Repr))
      ensures t == [] ==> fileList.Contents() == [] && result == -1
      ensures t != [] ==> fileList.Contents() == Updated(t, w, Listed(w, cfg, text, 0))
      ensures result == 1 <==> t != [] && Triggered(t, w, Listed(w, cfg, text, 0))
    {
      ChangeState(fileList, -1);
      result := UpdateCheckSyncFile(fileList, w, cfg, text);
    }

    /** file_path_deserialized, as the master's threads run it after a scan. */
    method MarkRequests(s: seq<Byte>, fileCount: nat)
      requires Valid() && ReadEntries(REQUEST, s, 0, fileCount).Some?
      modifies fileList.items`state
      ensures Valid()
      ensures Next(cfg, codec, old(Abs()), Requested(ReadEntries(REQUEST, s, 0, fileCount).value), Abs())
    {
      FilePathDeserialized(fileList, s, fileCount);
    }

    /** One turn of the loop. */
    method Iterate(ev: Event)
      requires Valid() && Possible(ev)
      modifies this`sent, this`serializedData, clientSocket, fileList.Repr
      ensures Valid() && Next(cfg, codec, old(Abs()), ev, Abs())
      ensures fresh(fileList.Repr - old(fileList.Repr))
    {
      match ev
      case Accept(sock) => AcceptClient(sock);
      case Ready(closed) => CheckClients(closed);
      case Scan(w, text) => ScanFiles(w, text);
      case Exchanged(list, during, w, text) => HearAndScan(list, during, w, text);
      case Requested(es) =>
        PayloadRoundTrip(REQUEST, es);
        MarkRequests(PayloadBytes(REQUEST, es), |es|);
    }

    /** The loop, as far as the given events take it: every turn is a step of the state machine. */
    method Loop(events: seq<Event>) returns (ghost states: seq<State>)
      requires Valid() && forall i :: 0 <= i < |events| ==> Possible(events[i])
      modifies this`sent, this`serializedData, clientSocket, fileList.Repr
      ensures Valid() && |states| == |events| + 1 && states[0] == old(Abs()) && states[|events|] == Abs()
      ensures forall i :: 0 <= i < |events| ==> Next(cfg, codec, states[i], events[i], states[i + 1])
    {
      states := [Abs()];
      for i := 0 to |events|
        invariant Valid() && fresh(fileList.Repr - old(fileList.Repr))
        invariant |states| == i + 1 && states[0] == old(Abs()) && states[i] == Abs()
        invariant forall k {:trigger events[k]} :: 0 <= k < i ==> Next(cfg, codec, states[k], events[k], states[k + 1])
      {
        Iterate(events[i]);
        states := states + [Abs()];
      }
    }
  }

  /** What the outside can present to the loop. */
  ghost predicate Possible(ev: Event) {
    match ev
    case Accept(sock) => sock != 0
    case Ready(closed) => 0 !in closed
    case Scan(w, text) => GoodFiles(w.files)
    case Exchanged(list, during, w, text) => ListEntries(list) && GoodFiles(w.files)
    case Requested(es) => AllFit(REQUEST, es)
  }

  predicate Triggered(t: Table, w: World, ps: seq<Path>) {
    TriggersTo(WithStates(t, -1), w, ps, |ps|)
  }

  lemma FreeSlotIs(slots: seq<int>, i: nat, k: nat)
    requires i <= k <= |slots| && (forall j :: i <= j < k ==> slots[j] != 0) && (k < |slots| ==> slots[k] == 0)
    ensures FreeSlot(slots, i) == k
    decreases k - i
  {
  }

  /** The files of the first table exist, so they can be opened. */
  lemma StartsOpenable(w: World, ps: seq<Path>, cfg: Config, text: seq<Byte>)
    requires ps == Listed(w, cfg, text, 0)
    ensures Openable(AddedTo([], w, ps, |ps|), w)
  {
    AddedIs(w, ps, |ps|);
    ListedExist(w, cfg, text, 0);
    assert ps[..|ps|] == ps;
  }

  lemma OpenableMarked(t: Table, w: World)
    requires Openable(WithStates(t, 1), w)
    ensures Openable(t, w)
  {
    assert forall i :: 0 <= i < |t| ==> WithStates(t, 1)[i].path == t[i].path;
  }

  lemma {:induction false} SizePositive(t: Table, n: nat)
    requires n <= |t|
    ensures SizeTo(DATA, t, n) == 0 <==> ChosenTo(DATA, t, n) == []
  {
    if n > 0 {
      SizePositive(t, n - 1);
    }
  }

  lemma NothingChosen(t: Table, w: World, es: seq<Entry>)
    requires Carries(DATA, w, Chosen(DATA, t), es)
    ensures SizeTo(DATA, t, |t|) == 0 <==> es == []
  {
    SizePositive(t, |t|);
  }

  /** After a scan every file of the table exists, so all of them can be opened; and if something is
      new, the table is not empty. */
  lemma UpdateOpenable(w: World, t: Table, ps: seq<Path>, cfg: Config, text: seq<Byte>)
    requires DistinctPaths(t) && ps == Listed(w, cfg, text, 0)
    ensures Openable(WithStates(Updated(t, w, ps), 1), w)
    ensures Triggered(t, w, ps) ==> Updated(t, w, ps) != []
  {
    var u := Updated(t, w, ps);
    UpdateIs(t, w, ps);
    ListedExist(w, cfg, text, 0);
    ResultExactly(t, w, ps);
    forall i | 0 <= i < |u|
      ensures u[i].path in w.files
    {
      assert HasPath(u, u[i].path);
    }
  }

  lemma InitIs(cfg: Config, c: Codec, w: World, text: seq<Byte>, msg: seq<Byte>, es: seq<Entry>, st: State)
    requires var ps := Listed(w, cfg, text, 0); var t := AddedTo([], w, ps, |ps|);
      && Carries(DATA, w, Chosen(DATA, t), es) && msg == (if t == [] then [] else Sealed(c, DATA, es))
      && st == State(WithStates(t, 0), seq(MAX_CLIENTS, i => 0), msg, map[])
    ensures Init(cfg, c, w, text, st)
  {
  }

  lemma ScanPushes(cfg: Config, c: Codec, st: State, w: World, text: seq<Byte>, st': State, es1: seq<Entry>, es2: seq<Entry>)
    requires var ps := Listed(w, cfg, text, 0);
      && st.table != [] && TriggersTo(WithStates(st.table, -1), w, ps, |ps|)
      && Pushes(c, st, w, Updated(st.table, w, ps), st', es1, es2)
    ensures Scans(cfg, c, st, st.table, w, text, st')
  {
  }

  lemma ScanQuiet(cfg: Config, c: Codec, st: State, w: World, text: seq<Byte>, st': State)
    requires st.table == [] ==> st' == st
    requires st.table != [] ==> !Triggered(st.table, w, Listed(w, cfg, text, 0))
    requires st.table != [] ==> st' == st.(table := WithStates(Updated(st.table, w, Listed(w, cfg, text, 0)), 0))
    ensures Scans(cfg, c, st, st.table, w, text, st')
  {
  }

  /** A scan in a state whose table has just become t is a scan of t. */
  lemma ScansAfter(cfg: Config, c: Codec, st: State, t: Table, w: World, text: seq<Byte>, st': State)
    requires Scans(cfg, c, st.(table := t), t, w, text, st') && (t == [] ==> st.table == [])
    ensures Scans(cfg, c, st, t, w, text, st')
  {
    if t != [] && TriggersTo(WithStates(t, -1), w, Listed(w, cfg, text, 0), |Listed(w, cfg, text, 0)|) {
      var u := Updated(t, w, Listed(w, cfg, text, 0));
      var es1, es2 :| Pushes(c, st.(table := t), w, u, st', es1, es2);
      assert Pushes(c, st, w, u, st', es1, es2);
    }
  }
}
