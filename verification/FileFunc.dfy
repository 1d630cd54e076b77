/** Reading the list of paths to synchronise, and detecting changes against it. */
module FileFunc {
  import opened Bytes
  import opened Wrappers
  import opened Records
  import opened UtHash
  import opened Environment
  import opened HashTableFunc

  /** base is the directory of the list file. With an empty base a relative line is resolved by
      realpath, which answers the empty string when it fails. */
  datatype Config = Config(base: Path, realpath: seq<Byte> -> seq<Byte>)

  /** A buffer read as a C string. */
  function CStr(s: seq<Byte>): seq<Byte> {
    s[..Skip(s, {NUL}, false, 0)]
  }

  /** The first strtok of a C string. */
  function Token(s: seq<Byte>, delims: set<Byte>): Option<Path> {
    var c := CStr(s);
    var i := Skip(c, delims, true, 0);
    if i == |c| then None else Some(c[i..Skip(c, delims, false, i)])
  }

  /** relative_path_check answers 2: each alternative of its pattern begins with a dot. */
  predicate IsRelative(line: seq<Byte>) {
    line != [] && line[0] == DOT
  }

  /** absolute_path_change. */
  function AbsolutePath(cfg: Config, line: seq<Byte>): Option<Path> {
    Token(if cfg.base == [] then cfg.realpath(CStr(line)) else cfg.base + [SLASH] + CStr(line), {NEWLINE})
  }

  function LineToken(cfg: Config, line: seq<Byte>): Option<Path> {
    if IsRelative(line) then AbsolutePath(cfg, line) else Token(line, {SPACE, NEWLINE})
  }

  /** Where the line starting at pos ends, as fgets with a MAX_LENGTH buffer reads it. */
  function LineEnd(text: seq<Byte>, pos: nat): (e: nat)
    requires pos < |text|
    ensures pos < e <= |text|
  {
    var nl := Skip(text, {NEWLINE}, false, pos);
    var e := if nl < |text| then nl + 1 else nl;
    if e - pos < MAX_LENGTH then e else pos + MAX_LENGTH - 1
  }

  /** The token of one line, if it names an existing file. */
  function ListedAt(w: World, cfg: Config, text: seq<Byte>, pos: nat): seq<Path>
    requires pos < |text|
  {
    match LineToken(cfg, text[pos..LineEnd(text, pos)])
    case Some(p) => if p in w.files then [p] else []
    case None => []
  }

  /** The existing files listed from position pos on, in order and with repetitions. */
  function Listed(w: World, cfg: Config, text: seq<Byte>, pos: nat): seq<Path>
    requires pos <= |text|
    decreases |text| - pos
  {
    if pos == |text| then [] else ListedAt(w, cfg, text, pos) + Listed(w, cfg, text, LineEnd(text, pos))
  }

  ghost predicate GoodFiles(files: FileSys) {
    forall p :: p in files ==> GoodPath(p)
  }

  /** add_path on a table. */
  function Added(t: Table, w: World, p: Path): Table {
    if IndexOf(t, p) < |t| then t else t + [w.NewRecord(p)]
  }

  /** The body of the scan for an existing path. */
  function ScanOne(t: Table, w: World, p: Path): Table {
    var k := IndexOf(t, p);
    if k < |t| then t[k := w.Checked(t[k], p)] else t + [w.NewRecord(p)]
  }

  /** What the body of the scan contributes to the result. */
  predicate Triggers(t: Table, w: World, p: Path) {
    var k := IndexOf(t, p);
    k < |t| ==> w.Checked(t[k], p).state == 1
  }

  function ScanTo(t: Table, w: World, ps: seq<Path>, n: nat): Table
    requires n <= |ps|
  {
    if n == 0 then t else ScanOne(ScanTo(t, w, ps, n - 1), w, ps[n - 1])
  }

  predicate TriggersTo(t: Table, w: World, ps: seq<Path>, n: nat)
    requires n <= |ps|
  {
    n > 0 && (TriggersTo(t, w, ps, n - 1) || Triggers(ScanTo(t, w, ps, n - 1), w, ps[n - 1]))
  }

  function AddedTo(t: Table, w: World, ps: seq<Path>, n: nat): Table
    requires n <= |ps|
  {
    if n == 0 then t else Added(AddedTo(t, w, ps, n - 1), w, ps[n - 1])
  }

  method ScanToken(fl: FileList, w: World, token: Path) returns (hit: bool)
    requires fl.Valid() && GoodPath(token)
    modifies fl.Repr
    ensures fl.Valid() && fresh(fl.Repr - old(fl.Repr))
    ensures fl.Contents() == ScanOne(old(fl.Contents()), w, token)
    ensures hit == Triggers(old(fl.Contents()), w, token)
  {
    var cur := FindFileData(fl, token);
    ghost var t := fl.Contents();
    IndexOfHas(t, token);
    if cur == null {
      AddPath(fl, w, token);
      hit := true;
    } else {
      ghost var k := IndexOf(t, token);
      fl.EntriesDiffer();
      fl.Elements();
      var state := CheckPath(cur, w, token);
      fl.ContentsAre(t[k := w.Checked(t[k], token)]);
      hit := state == 1;
    }
  }

  /** Mentioning Reading brings the contents of ReadTo into a proof. */
  ghost predicate Reading(k: int) {
    true
  }

  /** The reading has come to pos and has met n of the existing listed files. */
  ghost predicate ReadTo(w: World, cfg: Config, text: seq<Byte>, pos: nat, ps: seq<Path>, n: nat) {
    && pos <= |text| && n <= |ps|
    && forall k {:trigger Reading(k)} :: Reading(k) ==> ps[n..] == Listed(w, cfg, text, pos)
  }

  /** One line of the list: the existing file it names, if any. */
  method ReadLine(w: World, cfg: Config, text: seq<Byte>, pos: nat, ghost ps: seq<Path>, ghost n: nat)
    returns (token: Option<Path>, next: nat)
    requires ReadTo(w, cfg, text, pos, ps, n) && pos < |text|
    ensures pos < next
    ensures token.Some? ==> n < |ps| && ps[n] == token.value && token.value in w.files
    ensures ReadTo(w, cfg, text, next, ps, if token.Some? then n + 1 else n)
  {
    assert Reading(0);
    next := LineEnd(text, pos);
    token := LineToken(cfg, text[pos..next]);
    ListedNext(w, cfg, text, pos, ps, n);
    if token.Some? && token.value !in w.files {
      token := None;
    }
  }

  lemma ReadAll(w: World, cfg: Config, text: seq<Byte>, ps: seq<Path>, n: nat)
    ensures ReadTo(w, cfg, text, 0, Listed(w, cfg, text, 0), 0)
    ensures ReadTo(w, cfg, text, |text|, ps, n) ==> n == |ps|
  {
    assert Reading(0);
  }

  /** One turn of the loop of process_sync_file. */
  method AddLine(fl: FileList, w: World, cfg: Config, text: seq<Byte>, pos: nat,
                 ghost ps: seq<Path>, ghost n: nat, ghost t: Table)
    returns (next: nat, ghost n': nat)
    requires fl.Valid() && GoodFiles(w.files)
    requires ReadTo(w, cfg, text, pos, ps, n) && pos < |text| && fl.Contents() == AddedTo(t, w, ps, n)
    modifies fl.Repr
    ensures fl.Valid() && fresh(fl.Repr - old(fl.Repr))
    ensures pos < next && ReadTo(w, cfg, text, next, ps, n') && fl.Contents() == AddedTo(t, w, ps, n')
  {
    var token;
    token, next := ReadLine(w, cfg, text, pos, ps, n);
    n' := n;
    if token.Some? {
      IndexOfHas(fl.Contents(), token.value);
      AddPath(fl, w, token.value);
      n' := n + 1;
    }
  }

  /** process_sync_file: adds every existing listed file that is not there yet. */
  method ProcessSyncFile(fl: FileList, w: World, cfg: Config, text: seq<Byte>)
    requires fl.Valid() && GoodFiles(w.files)
    modifies fl.Repr
    ensures fl.Valid() && fresh(fl.Repr - old(fl.Repr))
    ensures var ps := Listed(w, cfg, text, 0); fl.Contents() == AddedTo(old(fl.Contents()), w, ps, |ps|)
  {
    var pos := 0;
    ghost var ps, n, t := Listed(w, cfg, text, 0), 0, fl.Contents();
    ReadAll(w, cfg, text, ps, n);
    while pos < |text|
      invariant fl.Valid() && fresh(fl.Repr - old(fl.Repr))
      invariant ReadTo(w, cfg, text, pos, ps, n) && fl.Contents() == AddedTo(t, w, ps, n)
      decreases |text| - pos
    {
      pos, n := AddLine(fl, w, cfg, text, pos, ps, n, t);
    }
    ReadAll(w, cfg, text, ps, n);
  }

  /** One turn of the loop of update_check_sync_file. */
  method ScanLine(fl: FileList, w: World, cfg: Config, text: seq<Byte>, pos: nat, hit: bool,
                  ghost ps: seq<Path>, ghost n: nat, ghost t: Table)
    returns (next: nat, hit': bool, ghost n': nat)
    requires fl.Valid() && GoodFiles(w.files)
    requires ReadTo(w, cfg, text, pos, ps, n) && pos < |text|
    requires fl.Contents() == ScanTo(t, w, ps, n) && hit == TriggersTo(t, w, ps, n)
    modifies fl.Repr
    ensures fl.Valid() && fresh(fl.Repr - old(fl.Repr))
    ensures pos < next && ReadTo(w, cfg, text, next, ps, n')
    ensures fl.Contents() == ScanTo(t, w, ps, n') && hit' == TriggersTo(t, w, ps, n')
  {
    var token;
    token, next := ReadLine(w, cfg, text, pos, ps, n);
    n', hit' := n, hit;
    if token.Some? {
      var h := ScanToken(fl, w, token.value);
      n', hit' := n + 1, hit || h;
    }
  }

  /** The part of update_check_sync_file before the sweep. */
  method ScanList(fl: FileList, w: World, cfg: Config, text: seq<Byte>) returns (hit: bool)
    requires fl.Valid() && GoodFiles(w.files)
    modifies fl.Repr
    ensures fl.Valid() && fresh(fl.Repr - old(fl.Repr))
    ensures var ps := Listed(w, cfg, text, 0); var t := old(fl.Contents());
      fl.Contents() == ScanTo(t, w, ps, |ps|) && hit == TriggersTo(t, w, ps, |ps|)
  {
    var pos := 0;
    hit := false;
    ghost var ps, n, t := Listed(w, cfg, text, 0), 0, fl.Contents();
    ReadAll(w, cfg, text, ps, n);
    while pos < |text|
      invariant fl.Valid() && fresh(fl.Repr - old(fl.Repr))
      invariant ReadTo(w, cfg, text, pos, ps, n)
      invariant fl.Contents() == ScanTo(t, w, ps, n) && hit == TriggersTo(t, w, ps, n)
      decreases |text| - pos
    {
      pos, hit, n := ScanLine(fl, w, cfg, text, pos, hit, ps, n, t);
    }
    ReadAll(w, cfg, text, ps, n);
  }

  lemma ListedNext(w: World, cfg: Config, text: seq<Byte>, pos: nat, ps: seq<Path>, n: nat)
    requires pos < |text| && n <= |ps| && ps[n..] == Listed(w, cfg, text, pos)
    ensures var token := LineToken(cfg, text[pos..LineEnd(text, pos)]);
      if token.Some? && token.value in w.files
      then n < |ps| && ps[n] == token.value && ps[n + 1..] == Listed(w, cfg, text, LineEnd(text, pos))
      else ps[n..] == Listed(w, cfg, text, LineEnd(text, pos))
  {
    var here := ListedAt(w, cfg, text, pos);
    var rest := Listed(w, cfg, text, LineEnd(text, pos));
    assert ps[n..] == here + rest;
    if here == [] {
      assert here + rest == rest;
    } else {
      assert ps[n..][0] == here[0] && ps[n..][1..] == rest;
      assert ps[n + 1..] == ps[n..][1..];
    }
  }

  /** update_check_sync_file: -1 for an empty list, otherwise 1 if anything is new or changed. */
  method UpdateCheckSyncFile(fl: FileList, w: World, cfg: Config, text: seq<Byte>) returns (result: int)
    requires fl.Valid() && GoodFiles(w.files)
    modifies fl.Repr
    ensures fl.Valid() && fresh(fl.Repr - old(fl.Repr))
    ensures var t := old(fl.Contents()); var ps := Listed(w, cfg, text, 0);
      if t == [] then fl.Contents() == t && result == -1
      else fl.Contents() == Swept(ScanTo(t, w, ps, |ps|)) && result == if TriggersTo(t, w, ps, |ps|) then 1 else 0
  {
    if fl.head == null {
      return -1;
    }
    var hit := ScanList(fl, w, cfg, text);
    result := if hit then 1 else 0;
    DeleteStateClear(fl);
  }
}
