/** The list file a slave prints from its master's list, and what reading it back finds. */
module ListFile {
  import opened Bytes
  import opened Wrappers
  import opened Records
  import opened Environment
  import opened Comparison
  import opened FileFunc
  import opened ChangeDetection
  import opened Wire
  import opened Serialize
  import opened Deserialize
  import opened Compress
  import opened ServerRun
  import opened Exchange

  /** The directory of the list file, as a line of it is resolved against it. */
  predicate BaseOk(cfg: Config) {
    cfg.base != [] && NUL !in cfg.base && NEWLINE !in cfg.base
  }

  /** The path survives the list file: it does not begin with a dot, and no delimiter cuts it. */
  predicate Plain(p: Path) {
    p != [] && p[0] != DOT && SPACE !in p && NEWLINE !in p
  }

  function Paths(es: seq<Entry>): (ps: seq<Path>)
    ensures |ps| == |es| && forall i :: 0 <= i < |es| ==> ps[i] == es[i].path
  {
    seq(|es|, i requires 0 <= i < |es| => es[i].path)
  }

  lemma NoNul(s: seq<Byte>)
    requires NUL !in s
    ensures CStr(s) == s
  {
    SkipIs(s, {NUL}, false, 0, |s|);
  }

  /** The line read for p: p and its newline, or p alone if it fills the buffer. */
  predicate LineOf(p: Path, line: seq<Byte>) {
    line == p || line == p + [NEWLINE]
  }

  /** The token of the line of p with the given delimiters is p itself exactly if none of them is in p. */
  lemma TokenOf(p: Path, line: seq<Byte>, delims: set<Byte>)
    requires GoodPath(p) && LineOf(p, line) && NEWLINE in delims && NUL !in delims
    ensures Token(line, delims) == Some(p) <==> forall b :: b in delims ==> b !in p
  {
    NoNul(line);
    if forall b :: b in delims ==> b !in p {
      SkipIs(line, delims, true, 0, 0);
      SkipIs(line, delims, false, 0, |p|);
      assert line[0..|p|] == p;
    } else {
      TokenClean(line, delims);
    }
  }

  /** A token has no delimiter in it. */
  lemma TokenClean(s: seq<Byte>, delims: set<Byte>)
    ensures Token(s, delims).Some? ==> forall b :: b in delims ==> b !in Token(s, delims).value
  {
  }

  lemma JoinedToken(base: Path, p: Path, line: seq<Byte>)
    requires base != [] && NUL !in base && NEWLINE !in base && NUL !in line && LineOf(p, line) && NEWLINE !in p
    ensures Token(base + [SLASH] + CStr(line), {NEWLINE}) == Some(base + [SLASH] + p)
  {
    NoNul(line);
    var s, q := base + [SLASH] + line, base + [SLASH] + p;
    NoNul(s);
    SkipIs(s, {NEWLINE}, true, 0, 0);
    assert s == q || s == q + [NEWLINE];
    assert forall k :: 0 <= k < |q| ==> q[k] in base || q[k] == SLASH || q[k] in p;
    SkipIs(s, {NEWLINE}, false, 0, |q|);
    assert s[0..|q|] == q;
  }

  /** A line that begins with a dot is taken as relative to the directory of the list file, up to its end. */
  lemma RelativeLine(cfg: Config, q: Path, line: seq<Byte>)
    requires BaseOk(cfg) && q != [] && q[0] == DOT && NUL !in q && NEWLINE !in q && LineOf(q, line)
    ensures LineToken(cfg, line) == Some(cfg.base + [SLASH] + q)
  {
    assert line[0] == DOT;
    JoinedToken(cfg.base, q, line);
  }

  /** Without a directory of the list file it is up to realpath, which answers nothing if it fails. */
  lemma RealpathLine(cfg: Config, q: Path, line: seq<Byte>, r: Path)
    requires cfg.base == [] && q != [] && q[0] == DOT && NUL !in q && NEWLINE !in q && LineOf(q, line)
    requires r == cfg.realpath(line) && NUL !in r && NEWLINE !in r
    ensures LineToken(cfg, line) == if r == [] then None else Some(r)
  {
    NoNul(line);
    NoNul(r);
    assert line[0] == DOT;
    if r != [] {
      SkipIs(r, {NEWLINE}, true, 0, 0);
      SkipIs(r, {NEWLINE}, false, 0, |r|);
      assert r[0..|r|] == r;
    }
  }

  /** The first word of a C string: what lies between two delimiters or ends of the string. */
  lemma TokenIs(a: seq<Byte>, b: seq<Byte>, rest: seq<Byte>, delims: set<Byte>)
    requires NUL !in delims && NUL !in a && (forall x :: x in a ==> x in delims)
    requires b != [] && NUL !in b && forall x :: x in b ==> x !in delims
    requires rest != [] ==> rest[0] == NUL || rest[0] in delims
    ensures Token(a + b + rest, delims) == Some(b)
  {
    var s := a + b + rest;
    var i, j := |a|, |a| + |b|;
    assert forall k :: 0 <= k < i ==> s[k] == a[k] && a[k] in a;
    assert forall k :: i <= k < j ==> s[k] == b[k - i] && b[k - i] in b;
    assert j < |s| ==> s[j] == rest[0];
    TokenAt(s, i, j, delims);
    assert s[i..j] == b;
  }

  lemma TokenAt(s: seq<Byte>, i: nat, j: nat, delims: set<Byte>)
    requires i < j <= |s| && NUL !in delims
    requires (forall k :: 0 <= k < i ==> s[k] in delims) && forall k :: i <= k < j ==> s[k] != NUL && s[k] !in delims
    requires j < |s| ==> s[j] == NUL || s[j] in delims
    ensures Token(s, delims) == Some(s[i..j])
  {
    var z := Skip(s, {NUL}, false, 0);
    SkipTo(s, 0, j);
    var c := s[..z];
    SkipIs(c, delims, true, 0, i);
    SkipIs(c, delims, false, i, j);
    assert c[i..j] == s[i..j];
  }

  lemma SkipTo(s: seq<Byte>, i: nat, j: nat)
    requires i <= j <= |s| && forall k :: i <= k < j ==> s[k] != NUL
    ensures j <= Skip(s, {NUL}, false, i)
  {
  }

  /** Any other line names its first word: it ends at a space, a newline or the end of the line, and the
      directory of the list file does not matter. */
  lemma WordLine(cfg: Config, a: seq<Byte>, b: Path, rest: seq<Byte>)
    requires (forall x :: x in a ==> x in {SPACE, NEWLINE}) && b != [] && (a == [] ==> b[0] != DOT)
    requires forall x :: x in b ==> x !in {NUL, SPACE, NEWLINE}
    requires rest != [] ==> rest[0] in {NUL, SPACE, NEWLINE}
    ensures LineToken(cfg, a + b + rest) == Some(b)
  {
    var line := a + b + rest;
    assert a != [] ==> line[0] == a[0] && a[0] in a;
    assert a == [] ==> line[0] == b[0];
    TokenIs(a, b, rest, {SPACE, NEWLINE});
  }

  /** Where fgets ends the line at pos: after the first newline, at the end of the text, or after 4095 bytes. */
  lemma LineEndExactly(text: seq<Byte>, pos: nat, e: nat)
    requires pos < |text|
    ensures e == LineEnd(text, pos) <==>
      && pos < e <= |text| && e - pos <= 4095 && (forall k :: pos <= k < e - 1 ==> text[k] != NEWLINE)
      && (e == |text| || text[e - 1] == NEWLINE || e - pos == 4095)
  {
    var nl := Skip(text, {NEWLINE}, false, pos);
  }

  /** One line of the list file gives its path back exactly if the path is plain. */
  lemma LineExactly(cfg: Config, p: Path, line: seq<Byte>)
    requires GoodPath(p) && (BaseOk(cfg) || p[0] != DOT) && LineOf(p, line) && NEWLINE !in p
    ensures LineToken(cfg, line) == Some(p) <==> Plain(p)
  {
    if IsRelative(line) {
      assert IsRelative(p);
      JoinedToken(cfg.base, p, line);
    } else {
      TokenOf(p, line, {SPACE, NEWLINE});
    }
  }

  /** No path read from a list has a newline in it. */
  lemma TokensClean(cfg: Config, line: seq<Byte>)
    ensures LineToken(cfg, line).Some? ==> NEWLINE !in LineToken(cfg, line).value
  {
    TokenClean(line, {SPACE, NEWLINE});
    TokenClean(if cfg.base == [] then cfg.realpath(CStr(line)) else cfg.base + [SLASH] + CStr(line), {NEWLINE});
  }

  lemma {:induction false} ListedClean(w: World, cfg: Config, text: seq<Byte>, pos: nat, q: Path)
    requires pos <= |text| && q in Listed(w, cfg, text, pos)
    ensures NEWLINE !in q
    decreases |text| - pos
  {
    if pos < |text| {
      var e := LineEnd(text, pos);
      TokensClean(cfg, text[pos..e]);
      if q !in ListedAt(w, cfg, text, pos) {
        ListedClean(w, cfg, text, e, q);
      }
    }
  }

  /** The printed path p lies in the text at pos. */
  predicate PrintedAt(text: seq<Byte>, pos: nat, p: Path) {
    LiesAt(text, pos, p + [NEWLINE])
  }

  lemma EndOfLine(text: seq<Byte>, pos: nat, p: Path)
    requires PrintedAt(text, pos, p) && NEWLINE !in p
    ensures Skip(text, {NEWLINE}, false, pos) == pos + |p| && text[pos + |p|] == NEWLINE
    ensures text[pos..pos + |p|] == p && text[pos..pos + |p| + 1] == p + [NEWLINE]
  {
    var s := text[pos..pos + |p| + 1];
    assert forall k :: pos <= k < pos + |p| ==> text[k] == s[k - pos] && s[k - pos] == p[k - pos];
    assert text[pos + |p|] == s[|p|];
    SkipIs(text, {NEWLINE}, false, pos, pos + |p|);
    assert text[pos..pos + |p|] == p;
  }

  /** fgets stops after the newline, or before it if the path fills the buffer. */
  lemma LineIs(text: seq<Byte>, pos: nat, p: Path)
    requires |p| < MAX_LENGTH && PrintedAt(text, pos, p) && NEWLINE !in p
    ensures var e := LineEnd(text, pos);
      (e == pos + |p| + 1 || (e == pos + |p| && text[e] == NEWLINE)) && LineOf(p, text[pos..e])
  {
    EndOfLine(text, pos, p);
  }

  /** Mentioning Line brings the contents of From into a proof. */
  ghost predicate Line(k: int) {
    true
  }

  /** Reading the list from pos on gives ps. */
  ghost predicate From(w: World, cfg: Config, text: seq<Byte>, pos: nat, ps: seq<Path>) {
    pos <= |text| && forall k {:trigger Line(k)} :: Line(k) ==> Listed(w, cfg, text, pos) == ps
  }

  /** Reading the printed path p gives at most one path, and that path is p exactly if p is plain. A path
      that fills the line buffer leaves its newline to be read as a line of its own. */
  lemma ListedLine(w: World, cfg: Config, text: seq<Byte>, pos: nat, p: Path, next: nat, rest: seq<Path>)
    returns (here: seq<Path>)
    requires GoodPath(p) && (BaseOk(cfg) || p[0] != DOT) && PrintedAt(text, pos, p) && NEWLINE !in p && p in w.files
    requires next == pos + |p| + 1 && From(w, cfg, text, next, rest)
    ensures From(w, cfg, text, pos, here + rest)
    ensures |here| <= 1 && (here == [p] <==> Plain(p))
  {
    var e := LineEnd(text, pos);
    LineIs(text, pos, p);
    if e == next {
      here := HereIs(w, cfg, text, pos, p, next, rest);
    } else {
      BlankLine(w, cfg, text, e, next, rest);
      here := HereIs(w, cfg, text, pos, p, e, rest);
    }
  }

  lemma HereIs(w: World, cfg: Config, text: seq<Byte>, pos: nat, p: Path, e: nat, rest: seq<Path>) returns (here: seq<Path>)
    requires GoodPath(p) && (BaseOk(cfg) || p[0] != DOT) && NEWLINE !in p && p in w.files
    requires pos < |text| && e == LineEnd(text, pos) && LineOf(p, text[pos..e]) && From(w, cfg, text, e, rest)
    ensures From(w, cfg, text, pos, here + rest)
    ensures |here| <= 1 && (here == [p] <==> Plain(p))
  {
    assert Line(0);
    here := ListedAt(w, cfg, text, pos);
    LineExactly(cfg, p, text[pos..e]);
  }

  lemma BlankLine(w: World, cfg: Config, text: seq<Byte>, pos: nat, next: nat, rest: seq<Path>)
    requires pos < |text| && text[pos] == NEWLINE && next == pos + 1 && From(w, cfg, text, next, rest)
    ensures From(w, cfg, text, pos, rest)
  {
    assert Line(0);
    SkipIs(text, {NEWLINE}, false, pos, pos);
    assert text[pos..pos + 1] == [NEWLINE];
    NoNul([NEWLINE]);
    SkipIs([NEWLINE], {SPACE, NEWLINE}, true, 0, 1);
  }

  /** A line of the list that begins with a dot names the file of that name in the directory of the list. */
  lemma RelativeListed(w: World, cfg: Config, text: seq<Byte>, pos: nat, q: Path, next: nat, rest: seq<Path>)
    requires BaseOk(cfg) && 0 < |q| < MAX_LENGTH && q[0] == DOT && NUL !in q && NEWLINE !in q
    requires PrintedAt(text, pos, q) && next == pos + |q| + 1 && From(w, cfg, text, next, rest)
    ensures var p := cfg.base + [SLASH] + q; From(w, cfg, text, pos, (if p in w.files then [p] else []) + rest)
  {
    var e := LineEnd(text, pos);
    LineIs(text, pos, q);
    RelativeLine(cfg, q, text[pos..e]);
    if e != next {
      BlankLine(w, cfg, text, e, next, rest);
    }
    assert Line(0);
  }

  /** The list with that line only. */
  lemma RelativeOnly(w: World, cfg: Config, q: Path)
    requires BaseOk(cfg) && 0 < |q| < MAX_LENGTH && q[0] == DOT && NUL !in q && NEWLINE !in q
    ensures var p := cfg.base + [SLASH] + q;
      Listed(w, cfg, q + [NEWLINE], 0) == if p in w.files then [p] else []
  {
    var text := q + [NEWLINE];
    assert text[0..|text|] == text;
    RelativeListed(w, cfg, text, 0, q, |text|, []);
    assert Line(0);
  }

  lemma {:induction false} PrintedLies(es: seq<Entry>, i: nat, n: nat)
    requires i < n <= |es|
    ensures PrintedAt(Printed(es, n), |Printed(es, i)|, es[i].path)
    ensures |Printed(es, i + 1)| == |Printed(es, i)| + |es[i].path| + 1
  {
    var a, b := Printed(es, n - 1), es[n - 1].path + [NEWLINE];
    assert Printed(es, n) == a + b;
    if i + 1 < n {
      PrintedLies(es, i, n - 1);
      var pos, l := |Printed(es, i)|, |es[i].path| + 1;
      assert (a + b)[pos..pos + l] == a[pos..pos + l];
    } else {
      assert (a + b)[|a|..|a| + |b|] == b;
    }
  }

  /** The listed paths can be handled and exist. */
  ghost predicate AllThere(w: World, es: seq<Entry>) {
    forall i :: 0 <= i < |es| ==> GoodPath(es[i].path) && es[i].path in w.files
  }

  /** The paths do not depend on how a relative line is resolved, or that is against a proper directory. */
  ghost predicate Resolvable(cfg: Config, es: seq<Entry>) {
    BaseOk(cfg) || forall i :: 0 <= i < |es| && es[i].path != [] ==> es[i].path[0] != DOT
  }

  lemma SameHeads(here: seq<Path>, rest: seq<Path>, p: Path, tail: seq<Path>)
    requires |here| <= 1 && |rest| <= |tail|
    ensures here + rest == [p] + tail <==> here == [p] && rest == tail
  {
    if here + rest == [p] + tail {
      assert |here + rest| == |here| + |rest|;
      assert (here + rest)[0] == p && (here + rest)[1..] == rest && ([p] + tail)[1..] == tail;
    }
  }

  ghost predicate PlainFrom(es: seq<Entry>, i: nat) {
    forall k :: i <= k < |es| ==> Plain(es[k].path)
  }

  lemma PlainStep(es: seq<Entry>, i: nat)
    requires i < |es|
    ensures PlainFrom(es, i) <==> Plain(es[i].path) && PlainFrom(es, i + 1)
    ensures Paths(es)[i..] == [es[i].path] + Paths(es)[i + 1..]
  {
  }

  ghost predicate NoNewlines(es: seq<Entry>) {
    forall k :: 0 <= k < |es| ==> NEWLINE !in es[k].path
  }

  /** Reading the printed list from its i-th line on. */
  lemma {:induction false} ListedFrom(w: World, cfg: Config, es: seq<Entry>, i: nat) returns (ps: seq<Path>)
    requires Resolvable(cfg, es) && AllThere(w, es) && NoNewlines(es) && i <= |es|
    ensures From(w, cfg, Printed(es, |es|), |Printed(es, i)|, ps)
    ensures |ps| <= |es| - i && (ps == Paths(es)[i..] <==> PlainFrom(es, i))
    decreases |es| - i
  {
    if i == |es| {
      ps := [];
    } else {
      var rest := ListedFrom(w, cfg, es, i + 1);
      ps := ListedBefore(w, cfg, es, i, rest);
      PlainStep(es, i);
    }
  }

  lemma ListedBefore(w: World, cfg: Config, es: seq<Entry>, i: nat, rest: seq<Path>) returns (ps: seq<Path>)
    requires Resolvable(cfg, es) && AllThere(w, es) && NoNewlines(es) && i < |es|
    requires From(w, cfg, Printed(es, |es|), |Printed(es, i + 1)|, rest) && |rest| <= |es| - i - 1
    ensures From(w, cfg, Printed(es, |es|), |Printed(es, i)|, ps) && |ps| <= |es| - i
    ensures ps == [es[i].path] + Paths(es)[i + 1..] <==> Plain(es[i].path) && rest == Paths(es)[i + 1..]
  {
    PrintedLies(es, i, |es|);
    var here := ListedLine(w, cfg, Printed(es, |es|), |Printed(es, i)|, es[i].path, |Printed(es, i + 1)|, rest);
    ps := here + rest;
    SameHeads(here, rest, es[i].path, Paths(es)[i + 1..]);
  }

  /** The list file round trip, for every list and every file system that has the listed files: reading
      what the slave printed gives the same paths in the same order exactly if every path is plain. */
  lemma ListFileRoundTrip(w: World, cfg: Config, es: seq<Entry>)
    requires Resolvable(cfg, es) && AllThere(w, es)
    ensures Listed(w, cfg, Printed(es, |es|), 0) == Paths(es) <==> forall i :: 0 <= i < |es| ==> Plain(es[i].path)
  {
    if NoNewlines(es) {
      var ps := ListedFrom(w, cfg, es, 0);
      assert Line(0) && Paths(es)[0..] == Paths(es);
    } else {
      var k :| 0 <= k < |es| && NEWLINE in es[k].path;
      var q := es[k].path;
      assert Paths(es)[k] == q;
      if q in Listed(w, cfg, Printed(es, |es|), 0) {
        ListedClean(w, cfg, Printed(es, |es|), 0, q);
      }
    }
  }

  /** What reading the printed list of a table finds: the paths of the table. */
  lemma ListFound(g: Setting, t: Table, cfg: Config, w: World, p: Path)
    requires RecordsOk(g, t) && forall i :: 0 <= i < |t| ==> Plain(t[i].path) && t[i].path in w.files
    ensures p in Listed(w, cfg, Printed(ListOf(t), |t|), 0) <==> HasPath(t, p)
    ensures |Listed(w, cfg, Printed(ListOf(t), |t|), 0)| == |t|
  {
    var es := ListOf(t);
    ListFileRoundTrip(w, cfg, es);
    var ps := Listed(w, cfg, Printed(es, |es|), 0);
    if p in ps {
      var k :| 0 <= k < |ps| && ps[k] == p;
      assert t[k].path == p;
    }
    if k :| 0 <= k < |t| && t[k].path == p {
      assert ps[k] == p;
    }
  }

  /** A scan of a list printed from the table t, once every file of t exists: the slave's table then has
      exactly the paths of t, if and only if it was not empty, or there is nothing to follow. */
  lemma KeysFollow(g: Setting, t: Table, cfg: Config, c: Codec, st: State, w: World, st': State)
    requires RecordsOk(g, t) && forall i :: 0 <= i < |t| ==> Plain(t[i].path) && t[i].path in w.files
    requires DistinctPaths(st.table) && Next(cfg, c, st, Scan(w, Printed(ListOf(t), |t|)), st')
    ensures (forall p :: HasPath(st'.table, p) <==> HasPath(t, p)) <==> st.table != [] || t == []
  {
    forall p
      ensures p in Listed(w, cfg, Printed(ListOf(t), |t|), 0) <==> HasPath(t, p)
    {
      ListFound(g, t, cfg, w, p);
    }
    ListFound(g, t, cfg, w, []);
    ScanFollows(cfg, c, st, w, Printed(ListOf(t), |t|), st');
  }
}
