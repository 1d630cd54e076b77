/** HASH_SRT: a bottom-up merge sort of the application order, in place on its links. */
module Sort {
  import opened Bytes
  import opened Records
  import opened UtHash

  type Cmp = (Record, Record) -> int

  /** cmp is a comparison function: total and transitive. */
  ghost predicate Sensible(cmp: Cmp) {
    && (forall a, b :: cmp(a, b) <= 0 || cmp(b, a) <= 0)
    && (forall a, b, c :: cmp(a, b) <= 0 && cmp(b, c) <= 0 ==> cmp(a, c) <= 0)
  }

  /** What the sort goes by: the comparison of the records, and where every item was at first. */
  datatype Order = Order(cmp: Cmp, key: FileEntry -> Record, rank: FileEntry -> nat)
  {
    /** x belongs before y: its record does not compare greater, and items that compare equal keep
        their first order. Nothing is said for a cmp that is no comparison function. */
    ghost predicate Before(x: FileEntry, y: FileEntry) {
      Sensible(cmp) ==> cmp(key(x), key(y)) <= 0 && (cmp(key(y), key(x)) <= 0 ==> rank(x) < rank(y))
    }

    lemma BeforeTrans(x: FileEntry, y: FileEntry, z: FileEntry)
      requires Before(x, y) && Before(y, z)
      ensures Before(x, z)
    {
    }
  }

  ghost predicate SortedIn(o: Order, s: seq<FileEntry>, lo: nat, hi: nat) {
    hi <= |s| && forall k, l :: lo <= k < l < hi ==> o.Before(s[k], s[l])
  }

  /** Positions lo to hi of s hold the items that were there at first, sorted. */
  ghost predicate Run(o: Order, s: seq<FileEntry>, lo: nat, hi: nat) {
    SortedIn(o, s, lo, hi) && forall k :: lo <= k < hi ==> lo <= o.rank(s[k]) < hi
  }

  function Min(a: nat, b: nat): nat {
    if a < b then a else b
  }

  /** The c-th run of width w. */
  ghost predicate RunAt(o: Order, s: seq<FileEntry>, w: nat, c: nat) {
    c * w <= |s| ==> Run(o, s, c * w, Min(c * w + w, |s|))
  }

  ghost predicate RunsTo(o: Order, s: seq<FileEntry>, w: nat, n: nat) {
    forall c: nat :: c < n ==> RunAt(o, s, w, c)
  }

  /** s consists of runs of width w. */
  ghost predicate Runs(o: Order, s: seq<FileEntry>, w: nat) {
    forall c: nat :: RunAt(o, s, w, c)
  }

  /** Two neighbouring runs, from a to m and from m to e, are being merged: i and j are how far each of
      them has come, and out holds what has been emitted, from position a on. */
  ghost predicate Merging(o: Order, s: seq<FileEntry>, out: seq<FileEntry>, a: nat, i: nat, m: nat, j: nat, e: nat) {
    && a <= i <= m <= j <= e <= |s| && |out| == i + (j - m)
    && SortedIn(o, out, a, |out|)
    && (forall k :: a <= k < |out| ==> a <= o.rank(out[k]) < e)
    && (forall k, l :: a <= k < |out| && (i <= l < m || j <= l < e) ==> o.Before(out[k], s[l]))
  }

  /** The first run gives its next item, which does not compare greater than that of the second. */
  lemma TakeFirst(o: Order, s: seq<FileEntry>, out: seq<FileEntry>, a: nat, i: nat, m: nat, j: nat, e: nat)
    requires Merging(o, s, out, a, i, m, j, e) && Run(o, s, a, m) && Run(o, s, m, e) && i < m
    requires j < e ==> o.cmp(o.key(s[i]), o.key(s[j])) <= 0
    ensures Merging(o, s, out + [s[i]], a, i + 1, m, j, e)
  {
    forall l | j <= l < e
      ensures o.Before(s[i], s[l])
    {
      assert o.Before(s[i], s[j]);
      if l > j {
        o.BeforeTrans(s[i], s[j], s[l]);
      }
    }
  }

  /** The second run gives its next item, which compares less than that of the first. */
  lemma TakeSecond(o: Order, s: seq<FileEntry>, out: seq<FileEntry>, a: nat, i: nat, m: nat, j: nat, e: nat)
    requires Merging(o, s, out, a, i, m, j, e) && Run(o, s, a, m) && Run(o, s, m, e) && j < e
    requires i < m ==> o.cmp(o.key(s[i]), o.key(s[j])) > 0
    ensures Merging(o, s, out + [s[j]], a, i, m, j + 1, e)
  {
    forall l | i <= l < m
      ensures o.Before(s[j], s[l])
    {
      assert o.Before(s[j], s[i]);
      if l > i {
        o.BeforeTrans(s[j], s[i], s[l]);
      }
    }
  }

  /** From lo to hi the forward links still follow s. */
  ghost predicate Pending(s: seq<FileEntry>, lo: nat, hi: nat)
    reads s`next
  {
    forall k {:trigger s[k].next} :: lo <= k < hi && k < |s| ==> s[k].next == At(s, k + 1)
  }

  /** out is a doubly linked list but for the forward link of its last item. */
  ghost predicate OutLinked(out: seq<FileEntry>, list: FileEntry?, tail: FileEntry?)
    reads out`prev, out`next
  {
    && list == At(out, 0) && tail == At(out, |out| - 1)
    && (forall k {:trigger out[k].prev} :: 0 <= k < |out| ==> out[k].prev == At(out, k - 1))
    && (forall k {:trigger out[k].next} :: 0 <= k < |out| - 1 ==> out[k].next == At(out, k + 1))
  }

  /** What has been emitted is distinct and comes from s; what is still to come has not been emitted. */
  ghost predicate Apart(s: seq<FileEntry>, out: seq<FileEntry>, i: nat, m: nat, j: nat) {
    && Distinct(s) && Distinct(out) && (forall k :: 0 <= k < |out| ==> out[k] in s)
    && (forall k, l :: 0 <= k < |out| && 0 <= l < |s| && (i <= l < m || j <= l) ==> out[k] != s[l])
  }

  lemma ApartFirst(s: seq<FileEntry>, out: seq<FileEntry>, i: nat, m: nat, j: nat)
    requires Apart(s, out, i, m, j) && i < m <= j <= |s|
    ensures s[i] !in out && Apart(s, out + [s[i]], i + 1, m, j)
  {
  }

  lemma ApartSecond(s: seq<FileEntry>, out: seq<FileEntry>, i: nat, m: nat, j: nat)
    requires Apart(s, out, i, m, j) && m <= j < |s|
    ensures s[j] !in out && Apart(s, out + [s[j]], i, m, j + 1)
  {
  }

  /** Appends x to the list under construction. */
  method Emit(x: FileEntry, list: FileEntry?, tail: FileEntry?, ghost s: seq<FileEntry>, ghost out: seq<FileEntry>)
    returns (list': FileEntry?, tail': FileEntry?)
    requires OutLinked(out, list, tail) && Distinct(out) && x !in out && x in s && forall k :: 0 <= k < |out| ==> out[k] in s
    modifies s`prev, s`next
    ensures OutLinked(out + [x], list', tail')
    ensures forall y :: y in s && y !in out ==> y.next == old(y.next)
  {
    list' := list;
    if tail != null {
      tail.next := x;
    } else {
      list' := x;
    }
    x.prev := tail;
    tail' := x;
    ghost var r := out + [x];
    assert forall k :: 0 <= k < |out| ==> r[k] == out[k];
  }

  /** Where a merge stands, on the heap. */
  ghost predicate Stage(s: seq<FileEntry>, out: seq<FileEntry>, i: nat, m: nat, j: nat, p: FileEntry?, q: FileEntry?,
                        list: FileEntry?, tail: FileEntry?)
    reads s`next, out`prev, out`next
  {
    && i <= m <= j <= |s| && p == At(s, i) && q == At(s, j)
    && Apart(s, out, i, m, j) && OutLinked(out, list, tail) && Pending(s, i, m) && Pending(s, j, |s|)
  }

  method EmitFirst(p: FileEntry, list: FileEntry?, tail: FileEntry?, ghost q: FileEntry?,
                   ghost s: seq<FileEntry>, ghost out: seq<FileEntry>, ghost i: nat, ghost m: nat, ghost j: nat)
    returns (p': FileEntry?, list': FileEntry?, tail': FileEntry?)
    requires Stage(s, out, i, m, j, p, q, list, tail) && i < m
    modifies s`prev, s`next
    ensures Stage(s, out + [s[i]], i + 1, m, j, p', q, list', tail')
  {
    p' := p.next;
    ApartFirst(s, out, i, m, j);
    list', tail' := Emit(p, list, tail, s, out);
    assert forall l :: (i + 1 <= l < m || j <= l < |s|) ==> s[l] !in out;
  }

  method EmitSecond(q: FileEntry, list: FileEntry?, tail: FileEntry?, ghost p: FileEntry?,
                    ghost s: seq<FileEntry>, ghost out: seq<FileEntry>, ghost i: nat, ghost m: nat, ghost j: nat)
    returns (q': FileEntry?, list': FileEntry?, tail': FileEntry?)
    requires Stage(s, out, i, m, j, p, q, list, tail)
    modifies s`prev, s`next
    ensures Stage(s, out + [s[j]], i, m, j + 1, p, q', list', tail')
  {
    q' := q.next;
    ApartSecond(s, out, i, m, j);
    list', tail' := Emit(q, list, tail, s, out);
    assert forall l :: (i <= l < m || j + 1 <= l < |s|) ==> s[l] !in out;
  }

  /** The items of s still have the records the order goes by. */
  ghost predicate KeysHold(o: Order, s: seq<FileEntry>)
    reads s`dataSize, s`checkSum, s`updateTime, s`state
  {
    forall k :: 0 <= k < |s| ==> s[k].Rec() == o.key(s[k])
  }

  /** Mentioning Peep brings the contents of Progress into a proof. */
  ghost predicate Peep(k: int) {
    true
  }

  /** A merge of two runs under way. */
  ghost predicate Progress(o: Order, s: seq<FileEntry>, out: seq<FileEntry>, a: nat, i: nat, m: nat, j: nat, e: nat,
                           p: FileEntry?, q: FileEntry?, list: FileEntry?, tail: FileEntry?)
    reads s`dataSize, s`checkSum, s`updateTime, s`state, s`next, out`prev, out`next
  {
    && i <= m <= j <= e <= |s| && p == At(s, i) && q == At(s, j)
    && forall k {:trigger Peep(k)} :: Peep(k) ==>
         && Stage(s, out, i, m, j, p, q, list, tail) && Merging(o, s, out, a, i, m, j, e)
         && Run(o, s, a, m) && Run(o, s, m, e) && KeysHold(o, s)
  }

  method StepFirst(p: FileEntry, ghost q: FileEntry?, list: FileEntry?, tail: FileEntry?, ghost o: Order,
                   ghost s: seq<FileEntry>, ghost out: seq<FileEntry>,
                   ghost a: nat, ghost i: nat, ghost m: nat, ghost j: nat, ghost e: nat)
    returns (p': FileEntry?, list': FileEntry?, tail': FileEntry?)
    requires Progress(o, s, out, a, i, m, j, e, p, q, list, tail) && i < m
    requires j < e ==> o.cmp(s[i].Rec(), s[j].Rec()) <= 0
    modifies s`prev, s`next
    ensures Progress(o, s, out + [s[i]], a, i + 1, m, j, e, p', q, list', tail')
  {
    assert Peep(0);
    TakeFirst(o, s, out, a, i, m, j, e);
    p', list', tail' := EmitFirst(p, list, tail, q, s, out, i, m, j);
  }

  method StepSecond(ghost p: FileEntry?, q: FileEntry, list: FileEntry?, tail: FileEntry?, ghost o: Order,
                    ghost s: seq<FileEntry>, ghost out: seq<FileEntry>,
                    ghost a: nat, ghost i: nat, ghost m: nat, ghost j: nat, ghost e: nat)
    returns (q': FileEntry?, list': FileEntry?, tail': FileEntry?)
    requires Progress(o, s, out, a, i, m, j, e, p, q, list, tail) && j < e
    requires i < m ==> o.cmp(s[i].Rec(), s[j].Rec()) > 0
    modifies s`prev, s`next
    ensures Progress(o, s, out + [s[j]], a, i, m, j + 1, e, p, q', list', tail')
  {
    assert Peep(0);
    TakeSecond(o, s, out, a, i, m, j, e);
    q', list', tail' := EmitSecond(q, list, tail, p, s, out, i, m, j);
  }

  /** One turn of the merge loop. The two cases that take from the first run are one branch here. */
  method MergeStep(p: FileEntry?, psize: nat, q: FileEntry?, qsize: nat, list: FileEntry?, tail: FileEntry?, ghost w: nat,
                   cmp: Cmp, ghost o: Order, ghost s: seq<FileEntry>, ghost out: seq<FileEntry>,
                   ghost a: nat, ghost i: nat, ghost m: nat, ghost j: nat, ghost e: nat)
    returns (p': FileEntry?, psize': nat, q': FileEntry?, qsize': nat, list': FileEntry?, tail': FileEntry?,
             ghost out': seq<FileEntry>, ghost i': nat, ghost j': nat)
    requires Progress(o, s, out, a, i, m, j, e, p, q, list, tail) && o.cmp == cmp
    requires psize == m - i && qsize == m + w - j && e == Min(m + w, |s|)
    requires psize != 0 || (qsize != 0 && q != null)
    modifies s`prev, s`next
    ensures Progress(o, s, out', a, i', m, j', e, p', q', list', tail')
    ensures psize' == m - i' && qsize' == m + w - j' && psize' + qsize' == psize + qsize - 1
    ensures out <= out'
  {
    p', psize', q', qsize', i', j' := p, psize, q, qsize, i, j;
    if psize != 0 && (qsize == 0 || q == null || cmp(p.Rec(), q.Rec()) <= 0) {
      p', list', tail' := StepFirst(p, q, list, tail, o, s, out, a, i, m, j, e);
      psize', out', i' := psize - 1, out + [s[i]], i + 1;
    } else {
      q', list', tail' := StepSecond(p, q, list, tail, o, s, out, a, i, m, j, e);
      qsize', out', j' := qsize - 1, out + [s[j]], j + 1;
    }
  }

  /** Walks over the first run of a merge. */
  method SkipRun(p: FileEntry, insize: nat, ghost s: seq<FileEntry>, ghost a: nat) returns (q: FileEntry?, psize: nat)
    requires insize > 0 && p == At(s, a) && Pending(s, a, |s|)
    ensures psize == Min(insize, |s| - a) && q == At(s, a + psize)
  {
    q, psize := p, 0;
    var i := 0;
    while i < insize
      invariant i == psize <= insize && a + psize < |s| && q == At(s, a + psize)
    {
      psize := psize + 1;
      q := q.next;
      if q == null {
        break;
      }
      i := i + 1;
    }
  }

  /** Where a pass stands, on the heap: a items have been dealt with, and p is the next one. */
  ghost predicate Passing(s: seq<FileEntry>, out: seq<FileEntry>, a: nat, p: FileEntry?, list: FileEntry?, tail: FileEntry?)
    reads s`next, out`prev, out`next
  {
    a <= |s| && |out| == a && Stage(s, out, a, a, a, p, p, list, tail)
  }

  lemma MergeStarts(o: Order, s: seq<FileEntry>, out: seq<FileEntry>, a: nat, m: nat, e: nat,
                    p: FileEntry?, q: FileEntry?, list: FileEntry?, tail: FileEntry?)
    requires Passing(s, out, a, p, list, tail) && a <= m <= e <= |s| && q == At(s, m)
    requires Run(o, s, a, m) && Run(o, s, m, e) && KeysHold(o, s)
    ensures Progress(o, s, out, a, a, m, m, e, p, q, list, tail)
  {
  }

  lemma MergeEnds(o: Order, s: seq<FileEntry>, out: seq<FileEntry>, a: nat, m: nat, e: nat,
                  p: FileEntry?, q: FileEntry?, list: FileEntry?, tail: FileEntry?)
    requires Progress(o, s, out, a, m, m, e, e, p, q, list, tail)
    ensures Passing(s, out, e, q, list, tail) && Run(o, out, a, e)
  {
    assert Peep(0);
  }

  method MergeLoop(p0: FileEntry, psize0: nat, q0: FileEntry?, insize: nat, list0: FileEntry?, tail0: FileEntry?, cmp: Cmp,
                   ghost o: Order, ghost s: seq<FileEntry>, ghost out0: seq<FileEntry>,
                   ghost a: nat, ghost m: nat, ghost e: nat)
    returns (q: FileEntry?, list: FileEntry?, tail: FileEntry?, ghost out: seq<FileEntry>)
    requires Progress(o, s, out0, a, a, m, m, e, p0, q0, list0, tail0) && o.cmp == cmp
    requires psize0 == m - a && e == Min(m + insize, |s|)
    modifies s`prev, s`next
    ensures Progress(o, s, out, a, m, m, e, e, At(s, m), q, list, tail) && out0 <= out
  {
    ghost var i: nat, j: nat := a, m;
    var p: FileEntry?, psize, qsize := p0, psize0, insize;
    q, list, tail, out := q0, list0, tail0, out0;
    while psize != 0 || (qsize != 0 && q != null)
      invariant Progress(o, s, out, a, i, m, j, e, p, q, list, tail)
      invariant psize == m - i && qsize == m + insize - j && out0 <= out
      decreases psize + qsize
    {
      p, psize, q, qsize, list, tail, out, i, j :=
        MergeStep(p, psize, q, qsize, list, tail, insize, cmp, o, s, out, a, i, m, j, e);
    }
  }

  /** Merges the run that starts at p with the one behind it. */
  method MergeRuns(p: FileEntry, insize: nat, list0: FileEntry?, tail0: FileEntry?, cmp: Cmp,
                   ghost o: Order, ghost s: seq<FileEntry>, ghost out0: seq<FileEntry>, ghost a: nat, ghost m: nat, ghost e: nat)
    returns (q: FileEntry?, list: FileEntry?, tail: FileEntry?, ghost out: seq<FileEntry>)
    requires insize > 0 && Passing(s, out0, a, p, list0, tail0)
    requires m == Min(a + insize, |s|) && e == Min(m + insize, |s|) && Run(o, s, a, m) && Run(o, s, m, e)
    requires KeysHold(o, s) && o.cmp == cmp
    modifies s`prev, s`next
    ensures out0 <= out && Passing(s, out, e, q, list, tail) && Run(o, out, a, e)
  {
    var psize;
    q, psize := SkipRun(p, insize, s, a);
    MergeStarts(o, s, out0, a, m, e, p, q, list0, tail0);
    q, list, tail, out := MergeLoop(p, psize, q, insize, list0, tail0, cmp, o, s, out0, a, m, e);
    MergeEnds(o, s, out, a, m, e, At(s, m), q, list, tail);
  }

  lemma PairStarts(c: nat, w: nat)
    ensures c * (2 * w) == (2 * c) * w && c * (2 * w) + w == (2 * c + 1) * w && (c + 1) * (2 * w) == c * (2 * w) + 2 * w
  {
  }

  /** The two runs of width w that make the c-th run of width 2w. */
  lemma PairRuns(o: Order, s: seq<FileEntry>, w: nat, c: nat, a: nat, m: nat, e: nat)
    requires Runs(o, s, w) && a == c * (2 * w) <= |s| && m == Min(a + w, |s|) && e == Min(m + w, |s|)
    ensures Run(o, s, a, m) && Run(o, s, m, e)
  {
    PairStarts(c, w);
    assert RunAt(o, s, w, 2 * c);
    assert RunAt(o, s, w, 2 * c + 1);
  }

  lemma RunKept(o: Order, out: seq<FileEntry>, out': seq<FileEntry>, lo: nat, hi: nat)
    requires Run(o, out, lo, hi) && out <= out' && hi <= |out|
    ensures Run(o, out', lo, hi)
  {
  }

  lemma RunBefore(d: nat, c: nat, w: nat)
    requires d < c
    ensures d * w + w <= c * w
  {
    assert (c - d - 1) * w >= 0;
    assert c * w == d * w + w + (c - d - 1) * w;
  }

  /** Finished runs stay as they are when more is emitted. */
  lemma RunsKept(o: Order, out: seq<FileEntry>, out': seq<FileEntry>, w: nat, c: nat)
    requires RunsTo(o, out, w, c) && out <= out' && c * w <= |out|
    ensures RunsTo(o, out', w, c)
  {
    forall d: nat | d < c
      ensures RunAt(o, out', w, d)
    {
      assert RunAt(o, out, w, d);
      RunBefore(d, c, w);
      RunKept(o, out, out', d * w, d * w + w);
    }
  }

  lemma RunsMore(o: Order, out: seq<FileEntry>, w: nat, c: nat)
    requires RunsTo(o, out, w, c) && Run(o, out, c * w, |out|) && |out| <= c * w + w
    ensures RunsTo(o, out, w, c + 1)
  {
  }

  lemma RunsAll(o: Order, out: seq<FileEntry>, w: nat, c: nat)
    requires RunsTo(o, out, w, c) && |out| <= c * w && w > 0
    ensures Runs(o, out, w)
  {
    forall d: nat
      ensures RunAt(o, out, w, d)
    {
      if c < d {
        RunBefore(c, d, w);
      }
    }
  }

  /** A selection of as many items as there are is all of them. */
  lemma SameNodes(s: seq<FileEntry>, out: seq<FileEntry>)
    requires Distinct(s) && Distinct(out) && |out| == |s| && forall k :: 0 <= k < |out| ==> out[k] in s
    ensures NodeSet(out) == NodeSet(s)
  {
    ChainSize(s);
    ChainSize(out);
    SubsetFull(NodeSet(out), NodeSet(s));
  }

  lemma SubsetFull<T>(a: set<T>, b: set<T>)
    requires a <= b && |a| == |b|
    ensures a == b
  {
    assert |b - a| == |b| - |a| == 0;
    assert b == a + (b - a);
  }

  /** At the end of a pass: s sorted in runs of width w has become out, sorted in runs of double width,
      and if there was only one pair of runs the sort is over. */
  ghost predicate Passed(o: Order, s: seq<FileEntry>, out: seq<FileEntry>, w: nat, nmerges: nat,
                         list: FileEntry?, tail: FileEntry?)
    reads out`prev, out`next
  {
    && |out| == |s| && NodeSet(out) == NodeSet(s) && Distinct(out)
    && Runs(o, out, 2 * w) && (if nmerges <= 1 then |s| <= 2 * w else 2 * w < |s|)
    && AppLinked(out) && list == At(out, 0) && tail == At(out, |out| - 1)
  }

  /** The last forward link is cleared. */
  method CloseList(list: FileEntry?, tail: FileEntry, ghost s: seq<FileEntry>, ghost out: seq<FileEntry>, ghost p: FileEntry?)
    requires Passing(s, out, |s|, p, list, tail)
    modifies s`next
    ensures AppLinked(out) && list == At(out, 0) && tail == At(out, |out| - 1)
    ensures Distinct(out) && |out| == |s| && NodeSet(out) == NodeSet(s)
  {
    SameNodes(s, out);
    tail.next := null;
  }

  /** The state between two merges of a pass. */
  ghost predicate BetweenMerges(o: Order, s: seq<FileEntry>, out: seq<FileEntry>, w: nat, c: nat) {
    && |out| == Min(c * (2 * w), |s|) && RunsTo(o, out, 2 * w, c)
    && (c > 0 ==> (c - 1) * (2 * w) < |s|)
  }

  lemma OneMerge(o: Order, s: seq<FileEntry>, out: seq<FileEntry>, out': seq<FileEntry>, w: nat, c: nat, e: nat)
    requires w > 0 && BetweenMerges(o, s, out, w, c) && |out| < |s| && out <= out'
    requires e == Min(Min(|out| + w, |s|) + w, |s|) == |out'| && Run(o, out', |out|, e)
    ensures BetweenMerges(o, s, out', w, c + 1)
  {
    PairStarts(c, w);
    RunsKept(o, out, out', 2 * w, c);
    RunsMore(o, out', 2 * w, c);
  }

  lemma PassDone(o: Order, s: seq<FileEntry>, out: seq<FileEntry>, w: nat, c: nat)
    requires w > 0 && BetweenMerges(o, s, out, w, c) && |out| == |s| > 0
    ensures Runs(o, out, 2 * w) && if c <= 1 then |s| <= 2 * w else 2 * w < |s|
  {
    RunsAll(o, out, 2 * w, c);
    if c > 1 {
      RunBefore(0, c - 1, 2 * w);
    }
  }

  /** One pass over the list: runs of length insize are merged two by two. */
  method MergePass(list0: FileEntry, insize: nat, cmp: Cmp, ghost o: Order, ghost s: seq<FileEntry>)
    returns (list: FileEntry, tail: FileEntry, nmerges: nat, ghost out: seq<FileEntry>)
    requires insize > 0 && AppLinked(s) && Distinct(s) && list0 == At(s, 0) && Runs(o, s, insize)
    requires KeysHold(o, s) && o.cmp == cmp
    modifies s`prev, s`next
    ensures Passed(o, s, out, insize, nmerges, list, tail)
  {
    var p: FileEntry? := list0;
    var l: FileEntry?, t: FileEntry? := null, null;
    nmerges, out := 0, [];
    while p != null
      invariant Passing(s, out, |out|, p, l, t) && BetweenMerges(o, s, out, insize, nmerges)
      decreases |s| - |out|
    {
      ghost var a, m := |out|, Min(|out| + insize, |s|);
      ghost var e, was := Min(m + insize, |s|), out;
      PairRuns(o, s, insize, nmerges, a, m, e);
      p, l, t, out := MergeRuns(p, insize, l, t, cmp, o, s, out, a, m, e);
      OneMerge(o, s, was, out, insize, nmerges, e);
      nmerges := nmerges + 1;
    }
    PassDone(o, s, out, insize, nmerges);
    CloseList(l, t, s, out, p);
    list, tail := l, t;
  }

  /** Where e stands in s. */
  ghost function PosIn(s: seq<FileEntry>, e: FileEntry): (k: nat)
    ensures e in s ==> k < |s| && s[k] == e
  {
    if e in s then var k :| 0 <= k < |s| && s[k] == e; k else |s|
  }

  /** The order for sorting the items its, whose records are t. */
  ghost function OrderOf(cmp: Cmp, its: seq<FileEntry>, t: Table): (o: Order)
    requires |t| == |its| > 0
    ensures o.cmp == cmp && forall e :: e in its ==> o.rank(e) == PosIn(its, e) && o.key(e) == t[PosIn(its, e)]
  {
    Order(cmp, (e: FileEntry) => if PosIn(its, e) < |t| then t[PosIn(its, e)] else t[0], (e: FileEntry) => PosIn(its, e))
  }

  /** A list of single items consists of runs of width 1. */
  lemma SingleRuns(cmp: Cmp, its: seq<FileEntry>, t: Table)
    requires |t| == |its| > 0 && Distinct(its)
    ensures Runs(OrderOf(cmp, its, t), its, 1)
  {
  }

  /** t' is t reordered by perm, sorted, and with records that compare equal in their first order. */
  ghost predicate StablySorted(cmp: Cmp, t: Table, t': Table, perm: seq<nat>) {
    && |t'| == |t| == |perm|
    && (forall k :: 0 <= k < |perm| ==> perm[k] < |t| && t'[k] == t[perm[k]])
    && (forall k, l :: 0 <= k < l < |perm| ==> perm[k] != perm[l])
    && (Sensible(cmp) ==> forall k, l :: 0 <= k < l < |perm| ==> InOrder(cmp, t, perm[k], perm[l]))
  }

  ghost predicate InOrder(cmp: Cmp, t: Table, a: nat, b: nat) {
    a < |t| && b < |t| && cmp(t[a], t[b]) <= 0 && (cmp(t[b], t[a]) <= 0 ==> a < b)
  }

  /** The order an item list stands in, as positions in another one. */
  ghost function Perm(its: seq<FileEntry>, s: seq<FileEntry>): (r: seq<nat>)
    ensures |r| == |s| && forall k :: 0 <= k < |s| ==> r[k] == PosIn(its, s[k])
  {
    seq(|s|, k requires 0 <= k < |s| => PosIn(its, s[k]))
  }

  lemma SortedTable(cmp: Cmp, its: seq<FileEntry>, t: Table, s: seq<FileEntry>, t': Table)
    requires |t| == |its| > 0 && |s| == |its| == |t'| && NodeSet(s) == NodeSet(its) && Distinct(s)
    requires SortedIn(OrderOf(cmp, its, t), s, 0, |s|)
    requires forall k :: 0 <= k < |s| ==> PosIn(its, s[k]) < |t| && t'[k] == t[PosIn(its, s[k])]
    ensures StablySorted(cmp, t, t', Perm(its, s))
  {
    var perm, o := Perm(its, s), OrderOf(cmp, its, t);
    forall k | 0 <= k < |s|
      ensures s[k] in its && its[perm[k]] == s[k]
    {
      assert s[k] in NodeSet(s);
    }
    forall k, l | 0 <= k < l < |s| && Sensible(cmp)
      ensures InOrder(cmp, t, perm[k], perm[l])
    {
      assert o.Before(s[k], s[l]);
    }
  }

  lemma NotBoth(cmp: Cmp, t: Table, a: nat, b: nat)
    ensures !(InOrder(cmp, t, a, b) && InOrder(cmp, t, b, a))
  {
  }

  /** There is only one stably sorted order: what HASH_SRT leaves is determined by the records and cmp. */
  lemma {:induction false} SortedOnlyOnce(cmp: Cmp, t: Table, a: Table, p: seq<nat>, b: Table, q: seq<nat>, n: nat)
    requires StablySorted(cmp, t, a, p) && StablySorted(cmp, t, b, q) && Sensible(cmp) && n <= |t|
    ensures p[..n] == q[..n] && a[..n] == b[..n]
  {
    if n > 0 {
      SortedOnlyOnce(cmp, t, a, p, b, q, n - 1);
      var x, y := p[n - 1], q[n - 1];
      if x != y {
        NotBoth(cmp, t, x, y);
        var k := LaterIn(p, q, n - 1);
        var l := LaterIn(q, p, n - 1);
        assert false;
      }
      assert p[..n] == p[..n - 1] + [x] && q[..n] == q[..n - 1] + [y];
      assert a[..n] == a[..n - 1] + [t[x]] && b[..n] == b[..n - 1] + [t[y]];
    }
  }

  ghost predicate IsPerm(p: seq<nat>) {
    (forall k :: 0 <= k < |p| ==> p[k] < |p|) && forall k, l :: 0 <= k < l < |p| ==> p[k] != p[l]
  }

  ghost function UpTo(n: nat): (r: set<nat>)
    ensures |r| == n && forall x: nat :: x in r <==> x < n
  {
    if n == 0 then {} else UpTo(n - 1) + {n - 1}
  }

  ghost function FirstOf(p: seq<nat>, n: nat): set<nat>
    requires n <= |p|
  {
    if n == 0 then {} else FirstOf(p, n - 1) + {p[n - 1]}
  }

  lemma {:induction false} FirstOfHas(p: seq<nat>, n: nat, x: nat) returns (k: nat)
    requires n <= |p| && x in FirstOf(p, n)
    ensures k < n && p[k] == x
  {
    if p[n - 1] == x {
      k := n - 1;
    } else {
      k := FirstOfHas(p, n - 1, x);
    }
  }

  lemma {:induction false} FirstOfSize(p: seq<nat>, n: nat)
    requires IsPerm(p) && n <= |p|
    ensures |FirstOf(p, n)| == n && FirstOf(p, n) <= UpTo(|p|)
  {
    if n > 0 {
      FirstOfSize(p, n - 1);
      if p[n - 1] in FirstOf(p, n - 1) {
        var k := FirstOfHas(p, n - 1, p[n - 1]);
        assert false;
      }
    }
  }

  /** Every position occurs in a permutation. */
  lemma PermHas(p: seq<nat>, x: nat) returns (k: nat)
    requires IsPerm(p) && x < |p|
    ensures k < |p| && p[k] == x
  {
    FirstOfSize(p, |p|);
    SubsetFull(FirstOf(p, |p|), UpTo(|p|));
    k := FirstOfHas(p, |p|, x);
  }

  /** Of two permutations that agree on their first n places and differ in the next, what one has there
      comes later in the other. */
  lemma LaterIn(p: seq<nat>, q: seq<nat>, n: nat) returns (k: nat)
    requires IsPerm(p) && IsPerm(q) && n < |p| == |q| && p[..n] == q[..n] && p[n] != q[n]
    ensures n < k < |q| && q[k] == p[n]
  {
    k := PermHas(q, p[n]);
    assert forall i :: 0 <= i < n ==> p[i] == p[..n][i] && q[i] == q[..n][i];
  }

  lemma KeysPermuted(its: seq<FileEntry>, s: seq<FileEntry>, hash: Path -> nat)
    requires KeysOf(its, hash) && NodeSet(s) == NodeSet(its) && Distinct(s)
    ensures KeysOf(s, hash)
  {
    forall k | 0 <= k < |s|
      ensures s[k] in its
    {
      assert s[k] in NodeSet(s);
    }
    forall k, l | 0 <= k < l < |s|
      ensures s[k].path != s[l].path
    {
      var i, j := PosIn(its, s[k]), PosIn(its, s[l]);
      assert its[i] == s[k] && its[j] == s[l];
    }
  }

  lemma SameItems(its: seq<FileEntry>, s: seq<FileEntry>)
    requires NodeSet(s) == NodeSet(its)
    ensures forall k :: 0 <= k < |s| ==> s[k] in its
  {
    forall k | 0 <= k < |s|
      ensures s[k] in its
    {
      assert s[k] in NodeSet(s);
    }
  }

  lemma KeysStay(o: Order, its: seq<FileEntry>, s: seq<FileEntry>)
    requires NodeSet(s) == NodeSet(its) && KeysHold(o, its)
    ensures KeysHold(o, s)
  {
    SameItems(its, s);
  }

  /** Between two passes: the items its stand in the order s, in runs of width w. */
  ghost predicate BetweenPasses(o: Order, its: seq<FileEntry>, s: seq<FileEntry>, list: FileEntry, w: nat)
    reads its`dataSize, its`checkSum, its`updateTime, its`state, s`prev, s`next
  {
    && |s| == |its| && NodeSet(s) == NodeSet(its)
    && forall k {:trigger Peep(k)} :: Peep(k) ==>
         Distinct(s) && AppLinked(s) && list == At(s, 0) && KeysHold(o, its) && Runs(o, s, w)
  }

  /** After the last pass. */
  ghost predicate Finished(o: Order, its: seq<FileEntry>, s: seq<FileEntry>, list: FileEntry, tail: FileEntry)
    reads s`prev, s`next
  {
    && |s| == |its| && NodeSet(s) == NodeSet(its)
    && forall k {:trigger Peep(k)} :: Peep(k) ==>
         && Distinct(s) && AppLinked(s) && list == At(s, 0) && tail == At(s, |s| - 1)
         && SortedIn(o, s, 0, |s|)
  }

  /** One pass, on the items its in the order s. */
  method NextPass(list0: FileEntry, insize: nat, cmp: Cmp, ghost o: Order, ghost its: seq<FileEntry>, ghost s: seq<FileEntry>)
    returns (list: FileEntry, tail: FileEntry, nmerges: nat, ghost out: seq<FileEntry>)
    requires BetweenPasses(o, its, s, list0, insize) && insize > 0 && o.cmp == cmp
    modifies its`prev, its`next
    ensures if nmerges <= 1 then Finished(o, its, out, list, tail)
            else BetweenPasses(o, its, out, list, 2 * insize) && 2 * insize < |its|
  {
    assert Peep(0);
    SameItems(its, s);
    KeysStay(o, its, s);
    list, tail, nmerges, out := MergePass(list0, insize, cmp, o, s);
    assert RunAt(o, out, 2 * insize, 0);
  }

  /** The passes, from runs of length 1 on. insize wraps around as an unsigned int does, but only after
      the last pass. */
  method SortPasses(head: FileEntry, cmp: Cmp, ghost o: Order, ghost its: seq<FileEntry>)
    returns (list: FileEntry, tail: FileEntry, ghost s: seq<FileEntry>)
    requires BetweenPasses(o, its, its, head, 1) && 0 < |its| < UINT_BOUND && o.cmp == cmp
    modifies its`prev, its`next
    ensures Finished(o, its, s, list, tail)
  {
    var insize, looping := 1, true;
    list, tail, s := head, head, its;
    while looping
      invariant if looping then 0 < insize <= |its| && BetweenPasses(o, its, s, list, insize)
                else Finished(o, its, s, list, tail)
      decreases if looping then 1 + |its| - insize else 0
    {
      var nmerges;
      list, tail, nmerges, s := NextPass(list, insize, cmp, o, its, s);
      if nmerges <= 1 {
        looping := false;
      }
      insize := insize * 2 % UINT_BOUND;
    }
  }

  /** HASH_SRT on the file list: the items end up stably sorted by cmp, in a list that is intact in both
      directions, and no bucket chain has been touched. */
  method HashSrt(fl: FileList, cmp: Cmp) returns (ghost perm: seq<nat>)
    requires fl.Valid() && |fl.items| < UINT_BOUND
    modifies fl`head, fl`tail, fl`items, fl.items`prev, fl.items`next
    ensures fl.Valid() && NodeSet(fl.items) == NodeSet(old(fl.items))
    ensures StablySorted(cmp, old(fl.Contents()), fl.Contents(), perm)
  {
    perm := [];
    if fl.head != null {
      perm := SortItems(fl, fl.head, cmp);
    }
  }

  /** The sorted list is installed: head, tail and the order of the items. */
  method InstallOrder(fl: FileList, list: FileEntry, tail: FileEntry, ghost s: seq<FileEntry>)
    requires fl.InRepr() && fl.TableOk() && NodeSet(s) == fl.Nodes() && |s| == |fl.items|
    requires AppLinked(s) && list == At(s, 0) && tail == At(s, |s| - 1)
    modifies fl`head, fl`tail, fl`items
    ensures fl.InRepr() && fl.TableOk() && fl.AppOk() && fl.items == s
  {
    SameItems(fl.items, s);
    fl.head, fl.tail, fl.items := list, tail, s;
    assert fl.Nodes() == old(fl.Nodes());
  }

  lemma StillValid(fl: FileList)
    requires fl.InRepr() && fl.KeysOk() && fl.AppOk() && fl.TableOk()
    ensures fl.Valid()
  {
  }

  lemma SortStarts(fl: FileList, head: FileEntry, cmp: Cmp)
    requires fl.Valid() && fl.head == head
    ensures fl.items != [] && BetweenPasses(OrderOf(cmp, fl.items, fl.Contents()), fl.items, fl.items, head, 1)
  {
    fl.Elements();
    fl.EntriesDiffer();
    SingleRuns(cmp, fl.items, fl.Contents());
    assert Open(0);
  }

  method SortLinks(fl: FileList, head: FileEntry, cmp: Cmp, ghost o: Order)
    requires fl.Valid() && 0 < |fl.items| < UINT_BOUND && fl.head == head && o.cmp == cmp
    requires BetweenPasses(o, fl.items, fl.items, head, 1)
    modifies fl`head, fl`tail, fl`items, fl.items`prev, fl.items`next
    ensures fl.Valid() && NodeSet(fl.items) == NodeSet(old(fl.items)) && |fl.items| == |old(fl.items)|
    ensures Distinct(fl.items) && SortedIn(o, fl.items, 0, |fl.items|)
  {
    ghost var its := fl.items;
    assert Open(0);
    var list, tail;
    ghost var s;
    list, tail, s := SortPasses(head, cmp, o, its);
    assert Peep(0);
    KeysPermuted(its, s, fl.hash);
    InstallOrder(fl, list, tail, s);
    StillValid(fl);
  }

  lemma SortedContents(fl: FileList, cmp: Cmp, its: seq<FileEntry>, t: Table)
    requires fl.Valid() && |t| == |its| == |fl.items| > 0 && NodeSet(fl.items) == NodeSet(its) && Distinct(fl.items)
    requires SortedIn(OrderOf(cmp, its, t), fl.items, 0, |its|) && forall k :: 0 <= k < |its| ==> t[k] == its[k].Rec()
    ensures StablySorted(cmp, t, fl.Contents(), Perm(its, fl.items))
  {
    SameItems(its, fl.items);
    fl.Elements();
    SortedTable(cmp, its, t, fl.items, fl.Contents());
  }

  method SortItems(fl: FileList, head: FileEntry, cmp: Cmp) returns (ghost perm: seq<nat>)
    requires fl.Valid() && |fl.items| < UINT_BOUND && fl.head == head
    modifies fl`head, fl`tail, fl`items, fl.items`prev, fl.items`next
    ensures fl.Valid() && NodeSet(fl.items) == NodeSet(old(fl.items))
    ensures StablySorted(cmp, old(fl.Contents()), fl.Contents(), perm)
  {
    ghost var its, t := fl.items, fl.Contents();
    SortStarts(fl, head, cmp);
    fl.Elements();
    SortLinks(fl, head, cmp, OrderOf(cmp, its, t));
    SortedContents(fl, cmp, its, t);
    perm := Perm(its, fl.items);
  }
}
