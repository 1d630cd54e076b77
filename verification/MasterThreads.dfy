/** The master's threads, one for every slave, over the marks they share: every interleaving of their
    steps, and what every slave ends up with. */
module MasterThreads {
  import opened Bytes
  import opened Wrappers
  import opened Records
  import opened Environment
  import opened Comparison
  import opened ChangeDetection
  import opened Wire
  import opened Serialize
  import opened Deserialize
  import opened Compress
  import opened Delivery
  import opened ServerRun
  import opened Exchange
  import opened Convergence

  /** How far a thread and its slave have come. Messages that are on their way are part of the phase;
      Marking has dealt with the first n requested paths. */
  datatype Phase =
    | Connected
    | ListSent(msg: seq<Byte>)
    | Closed
    | RequestSent(msg: seq<Byte>)
    | Marking(es: seq<Entry>, n: nat)
    | DataSent(msg: seq<Byte>)
    | Done

  /** The master's table, its marks shared by all threads, and the slaves. */
  datatype Global = Global(table: Table, slaves: seq<Slave>, phases: seq<Phase>)

  /** The session has come to its end. */
  ghost predicate Over(ph: Phase) {
    ph in {Closed, Done}
  }

  /** The message opens to the entries es. */
  ghost predicate Opens(g: Setting, msg: seq<Byte>, kind: nat, es: seq<Entry>) {
    exists junk :: Opening(g.codec, msg, junk) == Some((kind, es))
  }

  function AfterList(s: Slave, list: seq<Entry>): Slave
    requires ListEntries(list)
  {
    s.(table := TableAfter(s, list), files := FilesAfter(s, list))
  }

  /** The slave's answer to a list: a request, or the end of the connection if it wants nothing. */
  function Answer(g: Setting, s: Slave): Phase {
    var r := RequestOf(s.table);
    if r == [] then Closed else RequestSent(Sealed(g.codec, REQUEST, r))
  }

  function WithData(s: Slave, es: seq<Entry>): Slave {
    s.(files := Stored(s.files, es, None, s.host))
  }

  /** Mentioning one of these brings the contents of Step, of RoundOk, of Starting and AllInv for session i,
      or of SessionInv into a proof. */
  ghost predicate Act(k: int) {
    true
  }

  ghost predicate Know(k: int) {
    true
  }

  ghost predicate Watch(i: int) {
    true
  }

  ghost predicate Inspect(k: int) {
    true
  }

  /** One step of session i. */
  ghost predicate Step(g: Setting, wm: World, a: Global, i: nat, b: Global) {
    && |a.slaves| == |a.phases| == |b.slaves| == |b.phases| && i < |a.slaves|
    && forall k {:trigger Act(k)} :: Act(k) ==> Moves(g, wm, a, i, b)
  }

  /** What session i does in one step. Every store of a mark is a step of its own. A slave whose table is
      empty neither answers the list nor closes the connection. */
  ghost predicate Moves(g: Setting, wm: World, a: Global, i: nat, b: Global)
    requires i < |a.slaves| == |a.phases|
  {
    var s := a.slaves[i];
    match a.phases[i]
    case Connected =>
      b == a.(phases := a.phases[i := ListSent(Sealed(g.codec, LIST, ListOf(a.table)))])
    case ListSent(msg) =>
      if s.table == [] then false else
      exists es :: Opens(g, msg, LIST, es) && ListEntries(es)
        && b == a.(slaves := a.slaves[i := AfterList(s, es)], phases := a.phases[i := Answer(g, AfterList(s, es))])
    case RequestSent(msg) =>
      exists es :: Opens(g, msg, REQUEST, es) && b == a.(phases := a.phases[i := Marking(es, 0)])
    case Marking(es, n) =>
      if n < |es| then
        b == a.(table := MarkOne(a.table, es[n].path), phases := a.phases[i := Marking(es, n + 1)])
      else
        exists d :: Carries(DATA, wm, Chosen(DATA, a.table), d)
          && b == a.(phases := a.phases[i := DataSent(Sealed(g.codec, DATA, d))])
    case DataSent(msg) =>
      exists es :: Opens(g, msg, DATA, es)
        && b == a.(slaves := a.slaves[i := WithData(s, es)], phases := a.phases[i := Done])
    case Closed => false
    case Done => false
  }

  /** The master when its threads start, and one slave: their files rest during the round, digests are
      up to date and tell contents apart, and messages stay within the limit. */
  ghost predicate RoundOk(g: Setting, wm: World, t: Table) {
    forall k {:trigger Know(k)} :: Know(k) ==>
      && MasterOk(g, wm, t) && t != [] && |t| < INT_BOUND
      && FreshDigests(t, wm.files, wm.sha)
      && CodecOk(g.codec, g.limit)
      && |PayloadBytes(LIST, ListOf(t))| <= g.limit && |PayloadBytes(DATA, DueAll(g, t))| <= g.limit
  }

  ghost predicate SlaveOk(g: Setting, wm: World, t: Table, s: Slave)
    requires ListEntries(ListOf(t))
  {
    && DistinctPaths(s.table) && NoMarks(s.table)
    && (forall q :: s.host.canOpen(q))
    && FreshDigests(s.table, s.files, wm.sha) && (forall p :: ToldApart(s, wm, p))
    && var r := RequestOf(TableAfter(s, ListOf(t)));
       |r| < INT_BOUND && |PayloadBytes(REQUEST, r)| <= g.limit
  }

  /** The first n requested paths that the master lists are marked. */
  ghost predicate MarkedUpTo(t0: Table, t: Table, r: seq<Entry>, n: nat)
    requires n <= |r|
  {
    forall p :: Names(r, n, p) && HasPath(t0, p) ==> Marked(t, p)
  }

  /** d is a data message for a slave that requested r: the marks it was made from include r. */
  ghost predicate DataFor(g: Setting, wm: World, t0: Table, r: seq<Entry>, t: Table, d: seq<Entry>) {
    SameFiles(t0, t) && MarkedUpTo(t0, t, r, |r|) && Carries(DATA, wm, Chosen(DATA, t), d)
  }

  ghost predicate SessionInv(g: Setting, wm: World, t0: Table, s0: Slave, t: Table, s: Slave, ph: Phase)
    requires ListEntries(ListOf(t0))
  {
    forall k {:trigger Inspect(k)} :: Inspect(k) ==>
      var s1 := AfterList(s0, ListOf(t0));
      var r := RequestOf(s1.table);
      match ph
      case Connected => s == s0
      case ListSent(msg) => s == s0 && msg == Sealed(g.codec, LIST, ListOf(t0))
      case Closed => s0.table != [] && s == s1 && r == []
      case RequestSent(msg) => s0.table != [] && s == s1 && r != [] && msg == Sealed(g.codec, REQUEST, r)
      case Marking(es, n) => s0.table != [] && s == s1 && es == r != [] && n <= |r| && MarkedUpTo(t0, t, r, n)
      case DataSent(msg) =>
        s0.table != [] && s == s1 && r != [] && exists t', d :: DataFor(g, wm, t0, r, t', d) && msg == Sealed(g.codec, DATA, d)
      case Done => s0.table != [] && exists t', d :: DataFor(g, wm, t0, r, t', d) && s == WithData(s1, d)
  }

  ghost predicate AllInv(g: Setting, wm: World, a0: Global, a: Global)
    requires ListEntries(ListOf(a0.table))
  {
    && |a.slaves| == |a.phases| == |a0.slaves| && SameFiles(a0.table, a.table)
    && forall i {:trigger Watch(i)} :: Watch(i) && 0 <= i < |a.slaves| ==>
         SessionInv(g, wm, a0.table, a0.slaves[i], a.table, a.slaves[i], a.phases[i])
  }

  /** The threads have just connected. */
  ghost predicate Starting(g: Setting, wm: World, a0: Global) {
    && RoundOk(g, wm, a0.table) && ListEntries(ListOf(a0.table)) && |a0.phases| == |a0.slaves|
    && forall i {:trigger Watch(i)} :: Watch(i) && 0 <= i < |a0.slaves| ==>
         SlaveOk(g, wm, a0.table, a0.slaves[i]) && a0.phases[i] == Connected
  }

  lemma ListFits(g: Setting, wm: World, t: Table)
    requires RoundOk(g, wm, t)
    ensures AllFit(LIST, ListOf(t)) && ListEntries(ListOf(t)) && DistinctEntries(ListOf(t))
    ensures Sizes(g.codec, PayloadBytes(LIST, ListOf(t))) && Sound(g.codec, PayloadBytes(LIST, ListOf(t)))
  {
    assert Know(0);
    PayloadHoldsAt(LIST, ListOf(t), 0);
  }

  lemma RequestFits(g: Setting, wm: World, t: Table, s: Slave)
    requires RoundOk(g, wm, t) && ListEntries(ListOf(t)) && SlaveOk(g, wm, t, s)
    ensures var r := RequestOf(TableAfter(s, ListOf(t)));
      AllFit(REQUEST, r) && (r != [] ==> Sizes(g.codec, PayloadBytes(REQUEST, r)) && Sound(g.codec, PayloadBytes(REQUEST, r)))
  {
    assert Know(0);
    var r := RequestOf(TableAfter(s, ListOf(t)));
    ListFits(g, wm, t);
    forall i | 0 <= i < |r|
      ensures EntryFits(REQUEST, r[i])
    {
      RequestExactly(s, ListOf(t), r[i].path);
      assert Names(r, |r|, r[i].path);
    }
    if r != [] {
      PayloadHoldsAt(REQUEST, r, 0);
    }
  }

  /** The marked part of the master's files fits a message. */
  lemma DataFits(g: Setting, wm: World, t0: Table, t: Table, d: seq<Entry>)
    requires RoundOk(g, wm, t0) && SameFiles(t0, t) && Carries(DATA, wm, Chosen(DATA, t), d)
    ensures AllFit(DATA, d) && |d| < INT_BOUND
    ensures d != [] ==> Sizes(g.codec, PayloadBytes(DATA, d)) && Sound(g.codec, PayloadBytes(DATA, d))
  {
    assert Know(0);
    var c := Chosen(DATA, t);
    DataIsDue(g, wm, t0, t, d);
    SameRecordsOk(g, t0, t);
    SameDue(g, t0, t);
    ChosenSmaller(g, t, |t|);
    ChosenIs(DATA, t);
    forall i | 0 <= i < |c|
      ensures GoodPath(c[i].path) && c[i].dataSize == |g.version(c[i].path, c[i].mtime)|
    {
      assert c[i] in c;
      var k :| 0 <= k < |t| && t[k] == c[i];
    }
    DueFit(g, c);
  }

  lemma SameDue(g: Setting, t: Table, t': Table)
    requires SameFiles(t, t')
    ensures DueAll(g, t') == DueAll(g, t)
  {
    forall i | 0 <= i < |t|
      ensures DueAll(g, t')[i] == DueAll(g, t)[i]
    {
      SameAt(t, t', i);
    }
  }

  lemma SameList(t: Table, t': Table)
    requires SameFiles(t, t')
    ensures ListOf(t') == ListOf(t)
  {
    forall i | 0 <= i < |t|
      ensures ListOf(t')[i] == ListOf(t)[i]
    {
      assert t'[i].(state := 0) == t[i].(state := 0);
    }
  }

  /** A slave that gets anything out of a message gets what was put in. */
  lemma OpensOnly(g: Setting, kind: nat, es: seq<Entry>, got: seq<Entry>)
    requires kind in {LIST, REQUEST, DATA} && AllFit(kind, es) && |es| < INT_BOUND
    requires Sizes(g.codec, PayloadBytes(kind, es)) && Sound(g.codec, PayloadBytes(kind, es))
    requires Opens(g, Sealed(g.codec, kind, es), kind, got)
    ensures got == es
  {
    var junk :| Opening(g.codec, Sealed(g.codec, kind, es), junk) == Some((kind, got));
    SealedOpens(g.codec, kind, es, junk);
  }

  lemma OpensSome(g: Setting, kind: nat, es: seq<Entry>)
    requires kind in {LIST, REQUEST, DATA} && AllFit(kind, es) && |es| < INT_BOUND
    requires Sizes(g.codec, PayloadBytes(kind, es)) && Sound(g.codec, PayloadBytes(kind, es))
    ensures Opens(g, Sealed(g.codec, kind, es), kind, es)
  {
    SealedOpens(g.codec, kind, es, PayloadBytes(kind, es));
  }

  /** Marks only grow, so a session does not notice the steps of the others. */
  lemma OtherSession(g: Setting, wm: World, t0: Table, s0: Slave, t: Table, t': Table, s: Slave, ph: Phase)
    requires ListEntries(ListOf(t0)) && SessionInv(g, wm, t0, s0, t, s, ph)
    requires forall p :: Marked(t, p) ==> Marked(t', p)
    ensures SessionInv(g, wm, t0, s0, t', s, ph)
  {
  }

  lemma SomeAsked(g: Setting, wm: World, t0: Table, s0: Slave) returns (p: Path)
    requires RoundOk(g, wm, t0) && ListEntries(ListOf(t0)) && SlaveOk(g, wm, t0, s0)
    requires RequestOf(TableAfter(s0, ListOf(t0))) != []
    ensures var r := RequestOf(TableAfter(s0, ListOf(t0))); Names(r, |r|, p) && HasPath(t0, p)
  {
    var list, r := ListOf(t0), RequestOf(TableAfter(s0, ListOf(t0)));
    ListFits(g, wm, t0);
    p := r[0].path;
    RequestExactly(s0, list, p);
    var j :| 0 <= j < |list| && list[j].path == p;
    assert t0[j].path == p;
  }

  /** A data message that includes a non-empty request is not empty. */
  lemma DataNotEmpty(g: Setting, wm: World, t0: Table, s0: Slave, t: Table, d: seq<Entry>)
    requires RoundOk(g, wm, t0) && ListEntries(ListOf(t0)) && SlaveOk(g, wm, t0, s0)
    requires var r := RequestOf(TableAfter(s0, ListOf(t0))); r != [] && DataFor(g, wm, t0, r, t, d)
    ensures d != []
  {
    var p := SomeAsked(g, wm, t0, s0);
    DataCovers(g, wm, t0, RequestOf(TableAfter(s0, ListOf(t0))), t, d, p);
  }

  /** What was requested is in the data message. */
  lemma DataCovers(g: Setting, wm: World, t0: Table, r: seq<Entry>, t: Table, d: seq<Entry>, p: Path)
    requires RoundOk(g, wm, t0) && DataFor(g, wm, t0, r, t, d) && Names(r, |r|, p) && HasPath(t0, p)
    ensures Names(d, |d|, p)
  {
    assert Know(0);
    DataExactly(g, wm, t0, t, d, p);
  }

  /** What session i looks like after its own step. */
  lemma OwnStep(g: Setting, wm: World, a0: Global, a: Global, i: nat, b: Global)
    requires Starting(g, wm, a0) && AllInv(g, wm, a0, a) && Step(g, wm, a, i, b)
    ensures SessionInv(g, wm, a0.table, a0.slaves[i], b.table, b.slaves[i], b.phases[i])
  {
    assert Act(0) && Watch(i) && Inspect(0);
    var t0, s0 := a0.table, a0.slaves[i];
    match a.phases[i]
    case Connected =>
      SameList(t0, a.table);
    case ListSent(msg) =>
      ListStep(g, wm, a0, a, i, b);
    case RequestSent(msg) =>
      RequestStep(g, wm, a0, a, i, b);
    case Marking(es, n) =>
      MarkStep(g, wm, a0, a, i, b);
    case DataSent(msg) =>
      DataStep(g, wm, a0, a, i, b);
  }

  lemma ListGot(g: Setting, wm: World, t0: Table, s0: Slave, t: Table, es: seq<Entry>)
    requires RoundOk(g, wm, t0) && ListEntries(ListOf(t0)) && s0.table != []
    requires Opens(g, Sealed(g.codec, LIST, ListOf(t0)), LIST, es) && ListEntries(es)
    ensures SessionInv(g, wm, t0, s0, t, AfterList(s0, es), Answer(g, AfterList(s0, es)))
  {
    assert Know(0);
    ListFits(g, wm, t0);
    OpensOnly(g, LIST, ListOf(t0), es);
  }

  lemma ListStep(g: Setting, wm: World, a0: Global, a: Global, i: nat, b: Global)
    requires Starting(g, wm, a0) && AllInv(g, wm, a0, a) && Step(g, wm, a, i, b)
    requires a.phases[i].ListSent?
    ensures SessionInv(g, wm, a0.table, a0.slaves[i], b.table, b.slaves[i], b.phases[i])
  {
    assert Act(0) && Watch(i) && Inspect(0);
    var s, msg := a.slaves[i], a.phases[i].msg;
    var es :| Opens(g, msg, LIST, es) && ListEntries(es)
      && b == a.(slaves := a.slaves[i := AfterList(s, es)], phases := a.phases[i := Answer(g, AfterList(s, es))]);
    ListGot(g, wm, a0.table, s, a.table, es);
  }

  lemma RequestStep(g: Setting, wm: World, a0: Global, a: Global, i: nat, b: Global)
    requires Starting(g, wm, a0) && AllInv(g, wm, a0, a) && Step(g, wm, a, i, b)
    requires a.phases[i].RequestSent?
    ensures SessionInv(g, wm, a0.table, a0.slaves[i], b.table, b.slaves[i], b.phases[i])
  {
    assert Act(0) && Watch(i) && Inspect(0);
    var es :| Opens(g, a.phases[i].msg, REQUEST, es) && b == a.(phases := a.phases[i := Marking(es, 0)]);
    var r := RequestOf(TableAfter(a0.slaves[i], ListOf(a0.table)));
    RequestFits(g, wm, a0.table, a0.slaves[i]);
    OpensOnly(g, REQUEST, r, es);
  }

  lemma MarkedMore(g: Setting, wm: World, t0: Table, t: Table, r: seq<Entry>, n: nat)
    requires RoundOk(g, wm, t0) && SameFiles(t0, t) && n < |r| && MarkedUpTo(t0, t, r, n)
    ensures MarkedUpTo(t0, MarkOne(t, r[n].path), r, n + 1)
  {
    assert Know(0);
    SameRecordsOk(g, t0, t);
    forall p | Names(r, n + 1, p) && HasPath(t0, p)
      ensures Marked(MarkOne(t, r[n].path), p)
    {
      NamesStep(r, n + 1, p);
      MarkOneExactly(t, r[n].path, p);
      SameHasPath(t0, t, p);
      IndexOfHas(t, p);
    }
  }

  lemma MarkStep(g: Setting, wm: World, a0: Global, a: Global, i: nat, b: Global)
    requires Starting(g, wm, a0) && AllInv(g, wm, a0, a) && Step(g, wm, a, i, b)
    requires a.phases[i].Marking?
    ensures SessionInv(g, wm, a0.table, a0.slaves[i], b.table, b.slaves[i], b.phases[i])
  {
    assert Act(0) && Watch(i) && Inspect(0);
    var es, n := a.phases[i].es, a.phases[i].n;
    if n < |es| {
      MarkedMore(g, wm, a0.table, a.table, es, n);
    } else {
      var d :| Carries(DATA, wm, Chosen(DATA, a.table), d)
        && b == a.(phases := a.phases[i := DataSent(Sealed(g.codec, DATA, d))]);
      assert DataFor(g, wm, a0.table, es, a.table, d);
    }
  }

  lemma DataStep(g: Setting, wm: World, a0: Global, a: Global, i: nat, b: Global)
    requires Starting(g, wm, a0) && AllInv(g, wm, a0, a) && Step(g, wm, a, i, b)
    requires a.phases[i].DataSent?
    ensures SessionInv(g, wm, a0.table, a0.slaves[i], b.table, b.slaves[i], b.phases[i])
  {
    assert Act(0) && Watch(i) && Inspect(0);
    var t0, s0, s, msg := a0.table, a0.slaves[i], a.slaves[i], a.phases[i].msg;
    var r := RequestOf(TableAfter(s0, ListOf(t0)));
    var t', d :| DataFor(g, wm, t0, r, t', d) && msg == Sealed(g.codec, DATA, d);
    var es :| Opens(g, msg, DATA, es)
      && b == a.(slaves := a.slaves[i := WithData(s, es)], phases := a.phases[i := Done]);
    DataNotEmpty(g, wm, t0, s0, t', d);
    DataFits(g, wm, t0, t', d);
    OpensOnly(g, DATA, d, es);
  }

  /** A step touches nothing of the other sessions, keeps all records but for their marks, and clears
      no mark. */
  lemma StepElsewhere(g: Setting, wm: World, a: Global, i: nat, b: Global)
    requires |a.slaves| == |a.phases| && Step(g, wm, a, i, b) && DistinctPaths(a.table)
    ensures |b.slaves| == |b.phases| == |a.slaves|
    ensures forall j :: 0 <= j < |a.slaves| && j != i ==> b.slaves[j] == a.slaves[j] && b.phases[j] == a.phases[j]
    ensures SameFiles(a.table, b.table)
    ensures forall p :: Marked(a.table, p) ==> Marked(b.table, p)
  {
    assert Act(0);
    if a.phases[i].Marking? && a.phases[i].n < |a.phases[i].es| {
      var q := a.phases[i].es[a.phases[i].n].path;
      forall p | Marked(a.table, p)
        ensures Marked(b.table, p)
      {
        MarkOneExactly(a.table, q, p);
      }
      MarkOneExactly(a.table, q, q);
    }
  }

  lemma StepKeeps(g: Setting, wm: World, a0: Global, a: Global, i: nat, b: Global)
    requires Starting(g, wm, a0) && AllInv(g, wm, a0, a) && Step(g, wm, a, i, b)
    ensures AllInv(g, wm, a0, b)
  {
    assert Know(0);
    SameRecordsOk(g, a0.table, a.table);
    StepElsewhere(g, wm, a, i, b);
    SameTrans(a0.table, a.table, b.table);
    forall j | 0 <= j < |b.slaves|
      ensures SessionInv(g, wm, a0.table, a0.slaves[j], b.table, b.slaves[j], b.phases[j])
    {
      assert Watch(j);
      if j == i {
        OwnStep(g, wm, a0, a, i, b);
      } else {
        OtherSession(g, wm, a0.table, a0.slaves[j], a.table, b.table, a.slaves[j], a.phases[j]);
      }
    }
  }

  /** Any interleaving of the sessions' steps. who says whose step each one is. */
  ghost predicate Interleaving(g: Setting, wm: World, run: seq<Global>, who: seq<nat>) {
    && |run| == |who| + 1 && Starting(g, wm, run[0])
    && forall k :: 0 <= k < |who| ==> Step(g, wm, run[k], who[k], run[k + 1])
  }

  lemma {:induction false} InterleavingInv(g: Setting, wm: World, run: seq<Global>, who: seq<nat>, n: nat)
    requires Interleaving(g, wm, run, who) && n < |run|
    ensures AllInv(g, wm, run[0], run[n])
  {
    if n > 0 {
      InterleavingInv(g, wm, run, who, n - 1);
      StepKeeps(g, wm, run[0], run[n - 1], who[n - 1], run[n]);
    }
  }

  /** A slave whose session is over has the master's contents at every path the master lists, save its
      list file, and has no other change. */
  ghost predicate Converged(wm: World, t: Table, s0: Slave, f: FileSys) {
    forall p :: p != s0.sync ==>
      if HasPath(t, p) then Same(f, wm, p) else p in f <==> p in s0.files && (p in f ==> f[p] == s0.files[p])
  }

  /** Convergence under concurrency: whatever the order in which the threads run and their marks get
      mixed, every slave whose session has ended has converged. */
  lemma SlavesConverge(g: Setting, wm: World, run: seq<Global>, who: seq<nat>, n: nat, i: nat)
    requires Interleaving(g, wm, run, who) && n < |run|
    requires i < |run[0].slaves| && |run[n].phases| == |run[n].slaves| == |run[0].slaves|
    requires Over(run[n].phases[i])
    ensures Converged(wm, run[0].table, run[0].slaves[i], run[n].slaves[i].files)
  {
    InterleavingInv(g, wm, run, who, n);
    assert Watch(i) && Inspect(0);
    var t0, s0 := run[0].table, run[0].slaves[i];
    var r := RequestOf(TableAfter(s0, ListOf(t0)));
    if run[n].phases[i].Done? {
      var t, d :| DataFor(g, wm, t0, r, t, d) && run[n].slaves[i] == WithData(AfterList(s0, ListOf(t0)), d);
      OverIsConverged(g, wm, t0, s0, t, d);
    } else {
      NothingWanted(g, wm, t0, s0);
    }
  }

  lemma OverIsConverged(g: Setting, wm: World, t0: Table, s0: Slave, t: Table, d: seq<Entry>)
    requires RoundOk(g, wm, t0) && ListEntries(ListOf(t0)) && SlaveOk(g, wm, t0, s0)
    requires DataFor(g, wm, t0, RequestOf(TableAfter(s0, ListOf(t0))), t, d)
    ensures Converged(wm, t0, s0, FilesOnSlave(s0, ListOf(t0), d))
  {
    assert Know(0);
    ListFits(g, wm, t0);
    forall p | p != s0.sync
      ensures var f := FilesOnSlave(s0, ListOf(t0), d);
        if HasPath(t0, p) then Same(f, wm, p) else p in f <==> p in s0.files && (p in f ==> f[p] == s0.files[p])
    {
      RequestExactly(s0, ListOf(t0), p);
      if Asks(s0, ListOf(t0), p) {
        var j :| 0 <= j < |ListOf(t0)| && ListOf(t0)[j].path == p;
        assert t0[j].path == p;
      }
      SessionConverges(g, wm, t0, t, d, s0, p);
    }
  }

  /** A slave that asks for nothing converges without a data message. */
  lemma NothingWanted(g: Setting, wm: World, t0: Table, s0: Slave)
    requires RoundOk(g, wm, t0) && ListEntries(ListOf(t0)) && SlaveOk(g, wm, t0, s0)
    requires RequestOf(TableAfter(s0, ListOf(t0))) == []
    ensures Converged(wm, t0, s0, FilesAfter(s0, ListOf(t0)))
  {
    assert Know(0);
    ListFits(g, wm, t0);
    forall p | p != s0.sync && HasPath(t0, p)
      ensures Same(s0.files, wm, p)
    {
      RequestExactly(s0, ListOf(t0), p);
      AsksOrSame(g, wm, t0, s0, p);
    }
  }

  /** A data message opens to its entries, which have the master's contents and include the request. */
  lemma FrameHas(g: Setting, wm: World, t0: Table, s0: Slave, t: Table, d: seq<Entry>)
    requires RoundOk(g, wm, t0) && ListEntries(ListOf(t0)) && SlaveOk(g, wm, t0, s0)
    requires var r := RequestOf(TableAfter(s0, ListOf(t0))); r != [] && DataFor(g, wm, t0, r, t, d)
    ensures Opens(g, Sealed(g.codec, DATA, d), DATA, d) && DistinctEntries(d)
    ensures forall p :: HasPath(t0, p) && Asks(s0, ListOf(t0), p) ==> Names(d, |d|, p)
    ensures forall k :: 0 <= k < |d| ==>
      HasPath(t0, d[k].path) && d[k].path in wm.files && d[k].payload == wm.files[d[k].path].data
  {
    assert Know(0);
    var r := RequestOf(TableAfter(s0, ListOf(t0)));
    ListFits(g, wm, t0);
    DataNotEmpty(g, wm, t0, s0, t, d);
    DataFits(g, wm, t0, t, d);
    OpensSome(g, DATA, d);
    DataExactly(g, wm, t0, t, d, d[0].path);
    forall p | HasPath(t0, p) && Asks(s0, ListOf(t0), p)
      ensures Names(d, |d|, p)
    {
      RequestExactly(s0, ListOf(t0), p);
      DataCovers(g, wm, t0, r, t, d, p);
    }
    forall k | 0 <= k < |d|
      ensures HasPath(t0, d[k].path) && d[k].path in wm.files && d[k].payload == wm.files[d[k].path].data
    {
      assert Names(d, |d|, d[k].path);
      DataExactly(g, wm, t0, t, d, d[k].path);
      SameHasPath(t0, t, d[k].path);
    }
  }

  /** The data message on its way to a slave carries everything that slave requested and the master
      lists, with the master's contents, and perhaps more. */
  lemma FrameCovers(g: Setting, wm: World, run: seq<Global>, who: seq<nat>, n: nat, i: nat)
    returns (d: seq<Entry>)
    requires Interleaving(g, wm, run, who) && n < |run|
    requires i < |run[0].slaves| && |run[n].phases| == |run[0].slaves| && run[n].phases[i].DataSent?
    ensures Opens(g, run[n].phases[i].msg, DATA, d) && DistinctEntries(d)
    ensures ListEntries(ListOf(run[0].table))
    ensures forall p :: HasPath(run[0].table, p) && Asks(run[0].slaves[i], ListOf(run[0].table), p) ==> Names(d, |d|, p)
    ensures forall k :: 0 <= k < |d| ==>
      HasPath(run[0].table, d[k].path) && d[k].path in wm.files && d[k].payload == wm.files[d[k].path].data
  {
    InterleavingInv(g, wm, run, who, n);
    assert Watch(i) && Inspect(0);
    var t0, s0 := run[0].table, run[0].slaves[i];
    var r := RequestOf(TableAfter(s0, ListOf(t0)));
    var t;
    t, d :| DataFor(g, wm, t0, r, t, d) && run[n].phases[i].msg == Sealed(g.codec, DATA, d);
    FrameHas(g, wm, t0, s0, t, d);
  }

  /** A session whose message opens takes its step. */
  lemma CanOpen(g: Setting, wm: World, a: Global, i: nat, es: seq<Entry>) returns (b: Global)
    requires |a.slaves| == |a.phases| && i < |a.slaves|
    requires match a.phases[i]
      case ListSent(msg) => a.slaves[i].table != [] && Opens(g, msg, LIST, es) && ListEntries(es)
      case RequestSent(msg) => Opens(g, msg, REQUEST, es)
      case DataSent(msg) => Opens(g, msg, DATA, es)
      case _ => false
    ensures Step(g, wm, a, i, b)
  {
    var s := a.slaves[i];
    match a.phases[i]
    case ListSent(msg) =>
      b := a.(slaves := a.slaves[i := AfterList(s, es)], phases := a.phases[i := Answer(g, AfterList(s, es))]);
    case RequestSent(msg) =>
      b := a.(phases := a.phases[i := Marking(es, 0)]);
    case DataSent(msg) =>
      b := a.(slaves := a.slaves[i := WithData(s, es)], phases := a.phases[i := Done]);
  }

  lemma CanGoOn(g: Setting, wm: World, a: Global, i: nat, d: seq<Entry>) returns (b: Global)
    requires |a.slaves| == |a.phases| && i < |a.slaves| && a.phases[i] != Closed && a.phases[i] != Done
    requires a.phases[i].Connected? || (a.phases[i].Marking? && Carries(DATA, wm, Chosen(DATA, a.table), d))
    ensures Step(g, wm, a, i, b)
  {
    match a.phases[i]
    case Connected =>
      b := a.(phases := a.phases[i := ListSent(Sealed(g.codec, LIST, ListOf(a.table)))]);
    case Marking(es, m) =>
      if m < |es| {
        b := a.(table := MarkOne(a.table, es[m].path), phases := a.phases[i := Marking(es, m + 1)]);
      } else {
        b := a.(phases := a.phases[i := DataSent(Sealed(g.codec, DATA, d))]);
      }
  }

  /** The message a session waits for, and the data it is made of. */
  lemma MessageIs(g: Setting, wm: World, t0: Table, s0: Slave, t: Table, s: Slave, ph: Phase)
    returns (es: seq<Entry>, t': Table)
    requires ListEntries(ListOf(t0)) && SessionInv(g, wm, t0, s0, t, s, ph)
    ensures var r := RequestOf(TableAfter(s0, ListOf(t0)));
      match ph
      case ListSent(msg) => es == ListOf(t0) && msg == Sealed(g.codec, LIST, es)
      case RequestSent(msg) => es == r != [] && msg == Sealed(g.codec, REQUEST, es)
      case DataSent(msg) => r != [] && DataFor(g, wm, t0, r, t', es) && msg == Sealed(g.codec, DATA, es)
      case _ => true
  {
    assert Inspect(0);
    es, t' := if ph.ListSent? then ListOf(t0) else RequestOf(TableAfter(s0, ListOf(t0))), t;
    if ph.DataSent? {
      t', es :| DataFor(g, wm, t0, RequestOf(TableAfter(s0, ListOf(t0))), t', es) && ph.msg == Sealed(g.codec, DATA, es);
    }
  }

  /** It can be opened. */
  lemma MessageOpens(g: Setting, wm: World, t0: Table, s0: Slave, t: Table, s: Slave, ph: Phase) returns (es: seq<Entry>)
    requires RoundOk(g, wm, t0) && ListEntries(ListOf(t0)) && SlaveOk(g, wm, t0, s0) && SessionInv(g, wm, t0, s0, t, s, ph)
    ensures match ph
      case ListSent(msg) => Opens(g, msg, LIST, es) && ListEntries(es)
      case RequestSent(msg) => Opens(g, msg, REQUEST, es)
      case DataSent(msg) => Opens(g, msg, DATA, es)
      case _ => true
  {
    var t';
    es, t' := MessageIs(g, wm, t0, s0, t, s, ph);
    match ph
    case ListSent(msg) =>
      ListSends(g, wm, t0);
    case RequestSent(msg) =>
      RequestSends(g, wm, t0, s0);
    case DataSent(msg) =>
      FrameHas(g, wm, t0, s0, t', es);
    case _ =>
  }

  lemma ListSends(g: Setting, wm: World, t0: Table)
    requires RoundOk(g, wm, t0)
    ensures Opens(g, Sealed(g.codec, LIST, ListOf(t0)), LIST, ListOf(t0))
  {
    assert Know(0);
    ListFits(g, wm, t0);
    OpensSome(g, LIST, ListOf(t0));
  }

  lemma RequestSends(g: Setting, wm: World, t0: Table, s0: Slave)
    requires RoundOk(g, wm, t0) && ListEntries(ListOf(t0)) && SlaveOk(g, wm, t0, s0)
    ensures var r := RequestOf(TableAfter(s0, ListOf(t0))); r != [] ==> Opens(g, Sealed(g.codec, REQUEST, r), REQUEST, r)
  {
    RequestFits(g, wm, t0, s0);
    var r := RequestOf(TableAfter(s0, ListOf(t0)));
    if r != [] {
      OpensSome(g, REQUEST, r);
    }
  }

  /** The session waits for ever: the master for an answer, the slave for nothing. */
  ghost predicate Hangs(a: Global, i: nat)
    requires i < |a.slaves| == |a.phases|
  {
    a.phases[i].ListSent? && a.slaves[i].table == []
  }

  /** Exactly when a session can take a step: if it is not over and its slave has not got the list with an
      empty table. */
  lemma NeverStuck(g: Setting, wm: World, run: seq<Global>, who: seq<nat>, n: nat, i: nat)
    requires Interleaving(g, wm, run, who) && n < |run|
    requires i < |run[0].slaves| && |run[n].phases| == |run[n].slaves| == |run[0].slaves|
    ensures (exists b :: Step(g, wm, run[n], i, b)) <==> !Over(run[n].phases[i]) && !Hangs(run[n], i)
  {
    var a := run[n];
    if !Over(a.phases[i]) && !Hangs(a, i) {
      var b := StepOf(g, wm, run, who, n, i);
    }
    assert Act(0);
  }

  lemma StepOf(g: Setting, wm: World, run: seq<Global>, who: seq<nat>, n: nat, i: nat)
    returns (b: Global)
    requires Interleaving(g, wm, run, who) && n < |run|
    requires i < |run[0].slaves| && |run[n].phases| == |run[n].slaves| == |run[0].slaves|
    requires !Over(run[n].phases[i]) && !Hangs(run[n], i)
    ensures Step(g, wm, run[n], i, b)
  {
    InterleavingInv(g, wm, run, who, n);
    assert Watch(i) && Inspect(0);
    var a, t0 := run[n], run[0].table;
    if a.phases[i].Connected? || a.phases[i].Marking? {
      var d := CanRead(g, wm, t0, a.table);
      b := CanGoOn(g, wm, a, i, d);
    } else {
      var es := MessageOpens(g, wm, t0, run[0].slaves[i], a.table, a.slaves[i], a.phases[i]);
      b := CanOpen(g, wm, a, i, es);
    }
  }

  /** A run that no session can extend. */
  ghost predicate Stopped(g: Setting, wm: World, a: Global) {
    forall i: nat, b :: !Step(g, wm, a, i, b)
  }

  /** When every session has stopped, a session is over exactly if its slave's table was not empty. */
  lemma SessionStops(g: Setting, wm: World, run: seq<Global>, who: seq<nat>, n: nat, i: nat)
    requires Interleaving(g, wm, run, who) && n < |run| && Stopped(g, wm, run[n])
    requires i < |run[0].slaves| && |run[n].phases| == |run[n].slaves| == |run[0].slaves|
    ensures Over(run[n].phases[i]) <==> run[0].slaves[i].table != []
  {
    NeverStuck(g, wm, run, who, n, i);
    InterleavingInv(g, wm, run, who, n);
    assert Watch(i) && Inspect(0);
  }

  /** Exactly when a round comes to its end: its steps run out in any case, and then every session is over
      if and only if no slave's table was empty. Otherwise the master waits for its threads for ever. */
  lemma RoundStops(g: Setting, wm: World, run: seq<Global>, who: seq<nat>, n: nat)
    requires Interleaving(g, wm, run, who) && n < |run| && Stopped(g, wm, run[n])
    ensures |run[n].phases| == |run[0].slaves|
    ensures (forall i :: 0 <= i < |run[0].slaves| ==> Over(run[n].phases[i])) <==>
            (forall i :: 0 <= i < |run[0].slaves| ==> run[0].slaves[i].table != [])
  {
    InterleavingInv(g, wm, run, who, n);
    forall i | 0 <= i < |run[0].slaves|
      ensures Over(run[n].phases[i]) <==> run[0].slaves[i].table != []
    {
      SessionStops(g, wm, run, who, n, i);
    }
  }

  lemma CanRead(g: Setting, wm: World, t0: Table, t: Table) returns (d: seq<Entry>)
    requires RoundOk(g, wm, t0) && SameFiles(t0, t)
    ensures Carries(DATA, wm, Chosen(DATA, t), d)
  {
    assert Know(0);
    SameUpToDate(wm, t0, t);
    d := CanCarry(wm, t);
  }

  /** The request of slave i. */
  function RequestFrom(a0: Global, i: nat): seq<Entry>
    requires i < |a0.slaves| && ListEntries(ListOf(a0.table))
  {
    RequestOf(TableAfter(a0.slaves[i], ListOf(a0.table)))
  }

  /** The steps a session can still take if its slave requests k paths. */
  function Left(ph: Phase, k: nat): nat {
    match ph
    case Connected => k + 5
    case ListSent(_) => k + 4
    case RequestSent(_) => k + 3
    case Marking(es, n) => if n <= |es| then |es| - n + 2 else 2
    case DataSent(_) => 1
    case Closed => 0
    case Done => 0
  }

  /** The steps the first n sessions can still take. */
  function LeftTo(a0: Global, phases: seq<Phase>, n: nat): nat
    requires n <= |phases| == |a0.slaves| && ListEntries(ListOf(a0.table))
  {
    if n == 0 then 0 else LeftTo(a0, phases, n - 1) + Left(phases[n - 1], |RequestFrom(a0, n - 1)|)
  }

  lemma {:induction false} LeftElsewhere(a0: Global, phases: seq<Phase>, phases': seq<Phase>, i: nat, n: nat)
    requires n <= |phases| == |phases'| == |a0.slaves| && i < |phases| && ListEntries(ListOf(a0.table))
    requires forall j :: 0 <= j < |phases| && j != i ==> phases'[j] == phases[j]
    requires Left(phases'[i], |RequestFrom(a0, i)|) < Left(phases[i], |RequestFrom(a0, i)|)
    ensures LeftTo(a0, phases', n) <= LeftTo(a0, phases, n) - (if i < n then 1 else 0)
  {
    if n > 0 {
      LeftElsewhere(a0, phases, phases', i, n - 1);
    }
  }

  /** The paths a thread marks are those of its slave's request. */
  lemma MarkingAsked(g: Setting, wm: World, t0: Table, s0: Slave, t: Table, s: Slave, ph: Phase)
    requires ListEntries(ListOf(t0)) && SessionInv(g, wm, t0, s0, t, s, ph)
    ensures ph.Marking? ==> ph.es == RequestOf(TableAfter(s0, ListOf(t0)))
  {
    assert Inspect(0);
  }

  lemma StepShrinks(g: Setting, wm: World, a0: Global, a: Global, i: nat, b: Global)
    requires Starting(g, wm, a0) && AllInv(g, wm, a0, a) && Step(g, wm, a, i, b)
    ensures Left(b.phases[i], |RequestFrom(a0, i)|) < Left(a.phases[i], |RequestFrom(a0, i)|)
  {
    OwnStep(g, wm, a0, a, i, b);
    MarkingAsked(g, wm, a0.table, a0.slaves[i], b.table, b.slaves[i], b.phases[i]);
    assert Act(0);
  }

  /** Every interleaving runs out of steps: there are no more of them than the requests allow. */
  lemma {:induction false} RoundEnds(g: Setting, wm: World, run: seq<Global>, who: seq<nat>, n: nat)
    requires Interleaving(g, wm, run, who) && n < |run|
    ensures ListEntries(ListOf(run[0].table)) && |run[n].phases| == |run[0].slaves|
    ensures n + LeftTo(run[0], run[n].phases, |run[0].slaves|) <= LeftTo(run[0], run[0].phases, |run[0].slaves|)
  {
    if n > 0 {
      RoundEnds(g, wm, run, who, n - 1);
      InterleavingInv(g, wm, run, who, n - 1);
      var a, b, i := run[n - 1], run[n], who[n - 1];
      InterleavingInv(g, wm, run, who, n);
      StepShrinks(g, wm, run[0], a, i, b);
      OnlyOwnPhase(g, wm, run[0], a, i, b);
      LeftElsewhere(run[0], a.phases, b.phases, i, |run[0].slaves|);
    }
  }

  lemma OnlyOwnPhase(g: Setting, wm: World, a0: Global, a: Global, i: nat, b: Global)
    requires Starting(g, wm, a0) && AllInv(g, wm, a0, a) && Step(g, wm, a, i, b)
    ensures forall j :: 0 <= j < |a.slaves| && j != i ==> b.phases[j] == a.phases[j]
  {
    assert Know(0);
    SameRecordsOk(g, a0.table, a.table);
    StepElsewhere(g, wm, a, i, b);
  }

  lemma OneMore(g: Setting, wm: World, run: seq<Global>, who: seq<nat>, i: nat, b: Global)
    requires Interleaving(g, wm, run, who) && Step(g, wm, run[|who|], i, b)
    ensures Interleaving(g, wm, run + [b], who + [i])
  {
    var run', who' := run + [b], who + [i];
    forall k | 0 <= k < |who'|
      ensures Step(g, wm, run'[k], who'[k], run'[k + 1])
    {
      if k < |who| {
        assert Step(g, wm, run[k], who[k], run[k + 1]);
      }
    }
  }

  /** Wherever a round has got to, it can be gone on with until no session can take a step. */
  lemma {:induction false} RoundGoesOn(g: Setting, wm: World, run: seq<Global>, who: seq<nat>, left: nat)
    returns (run': seq<Global>, who': seq<nat>)
    requires Interleaving(g, wm, run, who) && ListEntries(ListOf(run[0].table)) && |run[0].phases| == |run[0].slaves|
    requires |who| + left == LeftTo(run[0], run[0].phases, |run[0].slaves|)
    ensures Interleaving(g, wm, run', who') && run <= run' && who <= who'
    ensures Stopped(g, wm, run'[|who'|])
    decreases left
  {
    run', who' := run, who;
    if i: nat, b :| Step(g, wm, run[|who|], i, b) {
      OneMore(g, wm, run, who, i, b);
      RoundEnds(g, wm, run + [b], who + [i], |who| + 1);
      run', who' := RoundGoesOn(g, wm, run + [b], who + [i], left - 1);
      assert run <= run + [b] && who <= who + [i];
    }
  }

  /** From every start of a round whose slaves all have something in their tables there is an interleaving
      that takes every session to its end, and with it every slave to the master's contents. */
  lemma RoundCompletes(g: Setting, wm: World, a0: Global) returns (run: seq<Global>, who: seq<nat>)
    requires Starting(g, wm, a0) && forall i :: 0 <= i < |a0.slaves| ==> a0.slaves[i].table != []
    ensures Interleaving(g, wm, run, who) && run[0] == a0
    ensures var a := run[|who|]; |a.phases| == |a.slaves| == |a0.slaves| && forall i :: 0 <= i < |a0.slaves| ==>
      Over(a.phases[i]) && Converged(wm, a0.table, a0.slaves[i], a.slaves[i].files)
  {
    run, who := RoundGoesOn(g, wm, [a0], [], LeftTo(a0, a0.phases, |a0.slaves|));
    var n := |who|;
    assert run[0] == a0;
    InterleavingInv(g, wm, run, who, n);
    RoundStops(g, wm, run, who, n);
    forall i | 0 <= i < |a0.slaves|
      ensures Converged(wm, a0.table, a0.slaves[i], run[n].slaves[i].files)
    {
      SlavesConverge(g, wm, run, who, n, i);
    }
  }

  /** Path p was requested by some slave. */
  ghost predicate AskedBySome(a0: Global, p: Path)
    requires ListEntries(ListOf(a0.table))
  {
    exists j :: 0 <= j < |a0.slaves| && Names(RequestFrom(a0, j), |RequestFrom(a0, j)|, p)
  }

  /** A step stores at most one mark. */
  lemma StepTable(g: Setting, wm: World, a: Global, i: nat, b: Global)
    requires Step(g, wm, a, i, b)
    ensures b.table == match a.phases[i]
      case Marking(es, n) => if n < |es| then MarkOne(a.table, es[n].path) else a.table
      case _ => a.table
  {
    assert Act(0);
  }

  /** The data message a step has made. */
  lemma StepData(g: Setting, wm: World, a: Global, i: nat, b: Global) returns (d: seq<Entry>)
    requires Step(g, wm, a, i, b) && a.phases[i].Marking? && b.phases[i].DataSent?
    ensures Carries(DATA, wm, Chosen(DATA, a.table), d) && b.phases[i].msg == Sealed(g.codec, DATA, d)
  {
    assert Act(0);
    d :| Carries(DATA, wm, Chosen(DATA, a.table), d)
      && b == a.(phases := a.phases[i := DataSent(Sealed(g.codec, DATA, d))]);
  }

  lemma ThreadAsked(g: Setting, wm: World, a0: Global, a: Global, i: nat)
    requires ListEntries(ListOf(a0.table)) && AllInv(g, wm, a0, a) && i < |a.slaves| && a.phases[i].Marking?
    ensures a.phases[i].es == RequestFrom(a0, i)
  {
    assert Watch(i);
    MarkingAsked(g, wm, a0.table, a0.slaves[i], a.table, a.slaves[i], a.phases[i]);
  }

  lemma StepMarks(g: Setting, wm: World, a0: Global, a: Global, i: nat, b: Global, p: Path)
    requires Starting(g, wm, a0) && AllInv(g, wm, a0, a) && Step(g, wm, a, i, b)
    ensures Marked(b.table, p) ==> Marked(a.table, p) || AskedBySome(a0, p)
  {
    StepTable(g, wm, a, i, b);
    if a.phases[i].Marking? && a.phases[i].n < |a.phases[i].es| {
      ThreadAsked(g, wm, a0, a, i);
      TableDistinct(g, wm, a0, a);
      var es, n := a.phases[i].es, a.phases[i].n;
      MarkOneExactly(a.table, es[n].path, p);
      assert Names(es, |es|, es[n].path);
    }
  }

  lemma TableDistinct(g: Setting, wm: World, a0: Global, a: Global)
    requires Starting(g, wm, a0) && AllInv(g, wm, a0, a)
    ensures DistinctPaths(a.table)
  {
    assert Know(0);
    SameRecordsOk(g, a0.table, a.table);
  }

  /** In every interleaving, a path that is marked was marked before the round or has been requested by some
      slave. */
  lemma {:induction false} MarksAsked(g: Setting, wm: World, run: seq<Global>, who: seq<nat>, n: nat, p: Path)
    requires Interleaving(g, wm, run, who) && n < |run|
    ensures ListEntries(ListOf(run[0].table))
    ensures Marked(run[n].table, p) ==> Marked(run[0].table, p) || AskedBySome(run[0], p)
  {
    if n > 0 {
      MarksAsked(g, wm, run, who, n - 1, p);
      InterleavingInv(g, wm, run, who, n - 1);
      StepMarks(g, wm, run[0], run[n - 1], who[n - 1], run[n], p);
    }
  }

  /** The data message of a session carries exactly the files marked when it is made: in a round without earlier
      marks, files that some slave of the round has requested, and no others. */
  lemma DataAsked(g: Setting, wm: World, run: seq<Global>, who: seq<nat>, n: nat, i: nat, p: Path)
    returns (d: seq<Entry>)
    requires Interleaving(g, wm, run, who) && n < |who| && who[n] == i
    requires i < |run[n].phases| == |run[n + 1].phases| && run[n].phases[i].Marking? && run[n + 1].phases[i].DataSent?
    ensures run[n + 1].phases[i].msg == Sealed(g.codec, DATA, d) && DistinctEntries(d)
    ensures Names(d, |d|, p) <==> Marked(run[n].table, p)
    ensures ListEntries(ListOf(run[0].table))
    ensures Names(d, |d|, p) ==> Marked(run[0].table, p) || AskedBySome(run[0], p)
  {
    InterleavingInv(g, wm, run, who, n);
    d := StepData(g, wm, run[n], i, run[n + 1]);
    DataMarked(g, wm, run[0].table, run[n].table, d, p);
    MarksAsked(g, wm, run, who, n, p);
  }

  lemma DataMarked(g: Setting, wm: World, t0: Table, t: Table, d: seq<Entry>, p: Path)
    requires RoundOk(g, wm, t0) && SameFiles(t0, t) && Carries(DATA, wm, Chosen(DATA, t), d)
    ensures DistinctEntries(d) && (Names(d, |d|, p) <==> Marked(t, p))
  {
    assert Know(0);
    DataExactly(g, wm, t0, t, d, p);
  }

  /** The marks of a round are gone with the next scan: its outcome depends on the records alone. */
  lemma MarksForgotten(t: Table, t': Table, w: World, ps: seq<Path>)
    requires SameFiles(t, t')
    ensures Updated(t', w, ps) == Updated(t, w, ps)
    ensures WithStates(t', -1) == WithStates(t, -1)
  {
    var a, b := WithStates(t, -1), WithStates(t', -1);
    forall i | 0 <= i < |t|
      ensures b[i] == a[i]
    {
      assert t'[i].(state := 0) == t[i].(state := 0);
      assert t'[i].(state := 0).(state := -1) == t[i].(state := 0).(state := -1);
    }
    assert a == b;
  }
}
