/** The chained hash table behind the file list: its items are threaded at once through a
    doubly linked list in insertion order and through one doubly linked chain per bucket. */
module UtHash {
  import opened Bytes
  import opened BitArith
  import opened Records

  const INITIAL_NUM_BUCKETS: nat := 32
  const INITIAL_NUM_BUCKETS_LOG2: nat := 5
  const BKT_CAPACITY_THRESH: nat := 10

  /** A file record with its hash handle. The key and its hash value never change. */
  class FileEntry {
    const path: Path
    const hashv: nat
    var dataSize: nat
    var checkSum: Digest
    var updateTime: int
    var state: int

    var prev: FileEntry?
    var next: FileEntry?
    var hhPrev: FileEntry?
    var hhNext: FileEntry?

    constructor (path: Path, hashv: nat, dataSize: nat, checkSum: Digest, updateTime: int, state: int)
      ensures this.path == path && this.hashv == hashv
      ensures Rec() == Record(path, dataSize, checkSum, updateTime, state)
    {
      this.path, this.hashv := path, hashv;
      this.dataSize, this.checkSum, this.updateTime, this.state := dataSize, checkSum, updateTime, state;
      prev, next, hhPrev, hhNext := null, null, null, null;
    }

    function Rec(): Record
      reads this`dataSize, this`checkSum, this`updateTime, this`state
    {
      Record(path, dataSize, checkSum, updateTime, state)
    }
  }

  /** Mentioning Look brings the contents of an Intact table into a proof. */
  ghost predicate Look(k: int) {
    true
  }

  /** Mentioning Open brings the invariant of a Valid list into a proof. */
  ghost predicate Open(k: int) {
    true
  }

  datatype Bucket = Bucket(hhHead: FileEntry?, count: nat, expandMult: nat)

  type Chains = seq<seq<FileEntry>>

  function At(s: seq<FileEntry>, i: int): (e: FileEntry?)
    ensures e != null <==> 0 <= i < |s|
  {
    if 0 <= i < |s| then s[i] else null
  }

  ghost predicate Distinct(s: seq<FileEntry>) {
    forall i, j :: 0 <= i < j < |s| ==> s[i] != s[j]
  }

  /** s is a doubly linked list in application order. */
  ghost predicate AppLinked(s: seq<FileEntry>)
    reads s`prev, s`next
  {
    && (forall i {:trigger s[i].prev} :: 0 <= i < |s| ==> s[i].prev == At(s, i - 1))
    && (forall i {:trigger s[i].next} :: 0 <= i < |s| ==> s[i].next == At(s, i + 1))
  }

  /** From position k on, the forward links follow c. */
  ghost predicate ChainForward(c: seq<FileEntry>, k: nat)
    reads c`hhPrev, c`hhNext
  {
    forall j {:trigger c[j].hhNext} :: k <= j < |c| ==> c[j].hhNext == At(c, j + 1)
  }

  /** c is a doubly linked bucket chain. */
  ghost predicate ChainLinked(c: seq<FileEntry>)
    reads c`hhPrev, c`hhNext
  {
    && (forall j {:trigger c[j].hhPrev} :: 0 <= j < |c| ==> c[j].hhPrev == At(c, j - 1))
    && ChainForward(c, 0)
  }

  /** Every bucket of bk heads the chain of the same index and counts its items. */
  ghost predicate BucketsHold(bk: array<Bucket>, cs: Chains, nodes: set<FileEntry>)
    reads bk, nodes`hhPrev, nodes`hhNext
  {
    && |cs| == bk.Length
    && (forall b, j :: 0 <= b < |cs| && 0 <= j < |cs[b]| ==> cs[b][j] in nodes)
    && (forall b :: 0 <= b < |cs| ==>
          ChainLinked(cs[b]) && bk[b].hhHead == At(cs[b], 0) && bk[b].count == |cs[b]|)
  }

  /** The chains divide the items of s: each item lies once, in the chain its hash value selects. */
  ghost predicate Partition(cs: Chains, s: set<FileEntry>)
  {
    && |cs| > 0
    && (forall b, j :: 0 <= b < |cs| && 0 <= j < |cs[b]| ==>
          cs[b][j] in s && ToBkt(cs[b][j].hashv, |cs|) == b)
    && (forall b :: 0 <= b < |cs| ==> Distinct(cs[b]))
    && (forall e :: e in s ==> e in cs[ToBkt(e.hashv, |cs|)])
  }

  /** Keys are unique and every handle carries the hash value of its key. */
  ghost predicate KeysOf(s: seq<FileEntry>, hash: Path -> nat)
  {
    && (forall i :: 0 <= i < |s| ==> s[i].hashv == hash(s[i].path))
    && (forall i, j :: 0 <= i < j < |s| ==> s[i].path != s[j].path)
  }

  lemma KeysWithout(s: seq<FileEntry>, hash: Path -> nat, k: nat)
    requires KeysOf(s, hash) && k < |s|
    ensures Distinct(s) && KeysOf(Without(s, k), hash)
    ensures NodeSet(Without(s, k)) == NodeSet(s) - {s[k]}
  {
    var d := Without(s, k);
    forall i | 0 <= i < |s| && i != k
      ensures s[i] in d
    {
      assert d[if i < k then i else i - 1] == s[i];
    }
  }

  lemma KeysPlus(s: seq<FileEntry>, hash: Path -> nat, e: FileEntry)
    requires KeysOf(s, hash) && e.hashv == hash(e.path)
    requires forall i :: 0 <= i < |s| ==> s[i].path != e.path
    ensures Distinct(s) && e !in s && KeysOf(s + [e], hash)
  {
  }

  ghost function NodeSet(s: seq<FileEntry>): set<FileEntry>
  {
    set e | e in s
  }

  lemma NodesPlus(s: seq<FileEntry>, e: FileEntry)
    ensures NodeSet(s + [e]) == NodeSet(s) + {e}
  {
  }

  /** The items of s whose bucket, out of n, comes before bucket i. */
  ghost function Below(s: set<FileEntry>, n: nat, i: nat): set<FileEntry>
    requires n > 0
  {
    set e | e in s && ToBkt(e.hashv, n) < i
  }

  lemma BelowStep(cs: Chains, s: set<FileEntry>, i: nat)
    requires Partition(cs, s) && i < |cs|
    ensures Below(s, |cs|, i + 1) == Below(s, |cs|, i) + NodeSet(cs[i])
    ensures forall b, j :: i <= b < |cs| && 0 <= j < |cs[b]| ==> cs[b][j] !in Below(s, |cs|, i)
    ensures Below(s, |cs|, i) !! NodeSet(cs[i])
  {
  }

  lemma NodeSetStep(s: seq<FileEntry>, j: nat)
    requires j < |s|
    ensures NodeSet(s[..j + 1]) == NodeSet(s[..j]) + {s[j]}
  {
  }

  /** The number of items in the first n chains. */
  function SumLen(cs: Chains, n: nat): nat
    requires n <= |cs|
  {
    if n == 0 then 0 else SumLen(cs, n - 1) + |cs[n - 1]|
  }

  lemma {:induction false} DistinctSize(s: seq<FileEntry>, n: nat)
    requires n <= |s| && Distinct(s)
    ensures |NodeSet(s[..n])| == n
  {
    if n > 0 {
      DistinctSize(s, n - 1);
      NodeSetStep(s, n - 1);
    }
  }

  lemma UnionSize(a: set<FileEntry>, b: set<FileEntry>)
    requires a !! b
    ensures |a + b| == |a| + |b|
  {
  }

  lemma ChainSize(c: seq<FileEntry>)
    requires Distinct(c)
    ensures |NodeSet(c)| == |c|
  {
    DistinctSize(c, |c|);
    assert c[..|c|] == c;
  }

  lemma BelowSize(cs: Chains, s: set<FileEntry>, i: nat)
    requires Partition(cs, s) && i < |cs|
    ensures |Below(s, |cs|, i + 1)| == |Below(s, |cs|, i)| + |cs[i]|
  {
    BelowStep(cs, s, i);
    ChainSize(cs[i]);
    UnionSize(Below(s, |cs|, i), NodeSet(cs[i]));
  }

  lemma {:induction false} SumLenBelow(cs: Chains, s: set<FileEntry>, n: nat)
    requires Partition(cs, s) && n <= |cs|
    ensures SumLen(cs, n) == |Below(s, |cs|, n)|
  {
    if n == 0 {
      assert Below(s, |cs|, 0) == {};
    } else {
      SumLenBelow(cs, s, n - 1);
      BelowSize(cs, s, n - 1);
    }
  }

  /** The bucket counts add up to the number of items. */
  lemma CountsSum(cs: Chains, items: seq<FileEntry>)
    requires Distinct(items) && Partition(cs, NodeSet(items))
    ensures SumLen(cs, |cs|) == |items|
  {
    SumLenBelow(cs, NodeSet(items), |cs|);
    assert Below(NodeSet(items), |cs|, |cs|) == NodeSet(items);
    ChainSize(items);
  }

  /** The empty chains of a zeroed bucket array. */
  function NoChains(n: nat): (cs: Chains)
    ensures |cs| == n
    ensures forall b :: 0 <= b < n ==> cs[b] == []
  {
    seq(n, b => [])
  }

  function Pushed(cs: Chains, e: FileEntry): (r: Chains)
    requires |cs| > 0
    ensures |r| == |cs|
  {
    var b := ToBkt(e.hashv, |cs|);
    cs[b := [e] + cs[b]]
  }

  lemma PushedPartition(cs: Chains, s: set<FileEntry>, e: FileEntry)
    requires Partition(cs, s) && e !in s
    ensures Partition(Pushed(cs, e), s + {e})
  {
    var b := ToBkt(e.hashv, |cs|);
    var r := Pushed(cs, e);
    assert r[b] == [e] + cs[b];
    assert forall j :: 1 <= j < |r[b]| ==> r[b][j] == cs[b][j - 1];
    forall x | x in s + {e} ensures x in r[ToBkt(x.hashv, |r|)] {
      if x == e {
        assert r[b][0] == e;
      } else {
        var c := cs[ToBkt(x.hashv, |cs|)];
        var j :| 0 <= j < |c| && c[j] == x;
        if ToBkt(x.hashv, |cs|) == b {
          assert r[b][j + 1] == x;
        }
      }
    }
  }

  function Without(c: seq<FileEntry>, j: nat): (r: seq<FileEntry>)
    requires j < |c|
    ensures |r| == |c| - 1
    ensures forall i :: 0 <= i < |r| ==> r[i] == c[if i < j then i else i + 1]
  {
    c[..j] + c[j + 1..]
  }

  /** c is linked in application order except that position k is skipped. */
  ghost predicate Bypassed(c: seq<FileEntry>, k: nat)
    reads c`prev, c`next
  {
    && (forall m {:trigger c[m].prev} :: 0 <= m < |c| && m != k ==>
          c[m].prev == At(c, if m == k + 1 then k - 1 else m - 1))
    && (forall m {:trigger c[m].next} :: 0 <= m < |c| && m != k ==>
          c[m].next == At(c, if m == k - 1 then k + 1 else m + 1))
  }

  lemma BypassedLinks(c: seq<FileEntry>, k: nat)
    requires k < |c| && Bypassed(c, k)
    ensures AppLinked(Without(c, k))
  {
    var d := Without(c, k);
    forall i | 0 <= i < |d|
      ensures d[i].prev == At(d, i - 1) && d[i].next == At(d, i + 1)
    {
      var m := if i < k then i else i + 1;
      assert d[i] == c[m];
      assert c[m].prev == At(d, i - 1);
      assert c[m].next == At(d, i + 1);
    }
  }

  /** c is linked as a bucket chain except that position k is skipped. */
  ghost predicate ChainBypassed(c: seq<FileEntry>, k: nat)
    reads c`hhPrev, c`hhNext
  {
    && (forall m {:trigger c[m].hhPrev} :: 0 <= m < |c| && m != k ==>
          c[m].hhPrev == At(c, if m == k + 1 then k - 1 else m - 1))
    && (forall m {:trigger c[m].hhNext} :: 0 <= m < |c| && m != k ==>
          c[m].hhNext == At(c, if m == k - 1 then k + 1 else m + 1))
  }

  lemma ChainBypassedLinks(c: seq<FileEntry>, k: nat)
    requires k < |c| && ChainBypassed(c, k)
    ensures ChainLinked(Without(c, k))
  {
    var d := Without(c, k);
    forall i | 0 <= i < |d|
      ensures d[i].hhPrev == At(d, i - 1) && d[i].hhNext == At(d, i + 1)
    {
      var m := if i < k then i else i + 1;
      assert d[i] == c[m];
      assert c[m].hhPrev == At(d, i - 1);
      assert c[m].hhNext == At(d, i + 1);
    }
  }

  lemma WithoutPartition(cs: Chains, s: set<FileEntry>, b: nat, j: nat)
    requires Partition(cs, s) && b < |cs| && j < |cs[b]|
    ensures Partition(cs[b := Without(cs[b], j)], s - {cs[b][j]})
  {
    var c, d := cs[b], Without(cs[b], j);
    var r := cs[b := d];
    forall e | e in s - {c[j]} ensures e in r[ToBkt(e.hashv, |r|)] {
      if ToBkt(e.hashv, |cs|) == b {
        var i :| 0 <= i < |c| && c[i] == e;
        assert d[if i < j then i else i - 1] == e;
      }
    }
  }

  /** How far the first n chains exceed the ideal length, in all. */
  function Excess(cs: Chains, n: nat, ideal: nat): nat
    requires n <= |cs|
  {
    if n == 0 then 0 else Excess(cs, n - 1, ideal) + ExcessOf(|cs[n - 1]|, ideal)
  }

  function ExcessOf(count: nat, ideal: nat): nat {
    if count > ideal then count - ideal else 0
  }

  lemma {:induction false} ExcessUpdate(cs: Chains, n: nat, ideal: nat, b: nat, c: seq<FileEntry>)
    requires n <= |cs| && b < |cs|
    ensures Excess(cs[b := c], n, ideal) == Excess(cs, n, ideal) +
              if b < n then ExcessOf(|c|, ideal) - ExcessOf(|cs[b]|, ideal) else 0
  {
    if n > 0 {
      ExcessUpdate(cs, n - 1, ideal, b, c);
    }
  }

  lemma {:induction false} ExcessOfEmpty(cs: Chains, n: nat, ideal: nat)
    requires n <= |cs| && forall b :: 0 <= b < n ==> cs[b] == []
    ensures Excess(cs, n, ideal) == 0
  {
    if n > 0 {
      ExcessOfEmpty(cs, n - 1, ideal);
    }
  }

  /** The delay multiplier of a bucket after redistribution: 0 up to the ideal length, and beyond
      it the number of ideal lengths needed to hold the chain, give or take one item. */
  ghost predicate MultOk(count: nat, mult: nat, ideal: nat) {
    if count > ideal then mult > 0 && (mult - 1) * ideal < count <= mult * ideal + 1 else mult == 0
  }

  lemma MultStep(count: nat, mult: nat, ideal: nat)
    requires ideal > 0 && MultOk(count, mult, ideal) && count + 1 > ideal
    ensures MultOk(count + 1, if count + 1 > mult * ideal then mult + 1 else mult, ideal)
  {
    assert (mult + 1) * ideal == mult * ideal + ideal;
  }

  /** The redistribution counters agree with the chains built so far: nonideal counts the items
      beyond the ideal length, and every multiplier fits its chain. */
  ghost predicate CountersOk(bk: seq<Bucket>, cs: Chains, ideal: nat, nonideal: nat)
  {
    && ideal > 0
    && nonideal == Excess(cs, |cs|, ideal)
    && |cs| == |bk|
    && forall b :: 0 <= b < |cs| ==> bk[b].count == |cs[b]| && MultOk(bk[b].count, bk[b].expandMult, ideal)
  }

  lemma CountersPushed(bk: seq<Bucket>, cs: Chains, ideal: nat, nonideal: nat, e: FileEntry)
    requires |cs| > 0 && CountersOk(bk, cs, ideal, nonideal)
    ensures var b := ToBkt(e.hashv, |cs|);
      var count, mult := bk[b].count + 1, bk[b].expandMult;
      var mult' := if count > ideal && count > mult * ideal then mult + 1 else mult;
      CountersOk(bk[b := Bucket(e, count, mult')], Pushed(cs, e), ideal,
                 if count > ideal then nonideal + 1 else nonideal)
  {
    var b := ToBkt(e.hashv, |cs|);
    ExcessUpdate(cs, |cs|, ideal, b, [e] + cs[b]);
    if bk[b].count + 1 > ideal {
      MultStep(bk[b].count, bk[b].expandMult, ideal);
    }
  }

  /** The records of the first n entries of s, in order. */
  ghost function Recs(s: seq<FileEntry>, n: nat): (t: Table)
    requires n <= |s|
    reads s`dataSize, s`checkSum, s`updateTime, s`state
    ensures |t| == n
  {
    if n == 0 then [] else Recs(s, n - 1) + [s[n - 1].Rec()]
  }

  lemma RecsAre(s: seq<FileEntry>, n: nat)
    requires n <= |s|
    ensures forall i :: 0 <= i < n ==> Recs(s, n)[i] == s[i].Rec()
  {
    if n > 0 {
      RecsAre(s, n - 1);
    }
  }

  class FileList {
    const hash: Path -> nat

    var head: FileEntry?
    // the table proper, allocated with the first item and freed with the last
    var tail: FileEntry?
    var buckets: array<Bucket>
    var numBuckets: nat
    var log2NumBuckets: nat
    var numItems: nat
    var idealChainMaxlen: nat
    var nonidealItems: nat
    var ineffExpands: nat
    var noexpand: bool

    ghost var items: seq<FileEntry>
    ghost var chains: Chains
    ghost var Repr: set<object>

    ghost function Nodes(): set<FileEntry>
      reads this`items
    {
      NodeSet(items)
    }

    ghost predicate KeysOk()
      reads this`items
    {
      KeysOf(items, hash)
    }

    /** The application-order list, its head and its cached tail. */
    ghost predicate AppOk()
      reads this`head, this`tail, this`items, items`prev, items`next
    {
      && AppLinked(items)
      && head == At(items, 0)
      && (items != [] ==> tail == At(items, |items| - 1))
    }

    /** The bucket array and its chains hold exactly the nodes of s. */
    ghost predicate BktOk(s: set<FileEntry>)
      reads this`buckets, this`numBuckets, this`log2NumBuckets, this`chains, buckets, s`hhPrev, s`hhNext
    {
      && numBuckets == buckets.Length == Pow2(log2NumBuckets)
      && BucketsHold(buckets, chains, s)
      && Partition(chains, s)
    }

    /** BktOk, for the proofs that only carry it along: its contents stay out of them unless they
        mention Look. */
    ghost predicate Intact(s: set<FileEntry>)
      reads this`buckets, this`numBuckets, this`log2NumBuckets, this`chains, buckets, s`hhPrev, s`hhNext
    {
      forall k {:trigger Look(k)} :: Look(k) ==> BktOk(s)
    }

    ghost predicate InRepr()
      reads this`Repr, this`items, this`buckets
    {
      this in Repr && buckets in Repr && forall e :: e in items ==> e in Repr
    }

    ghost predicate Structure()
      reads this, buckets, items`prev, items`next, items`hhPrev, items`hhNext
    {
      KeysOk() && AppOk() && (items != [] ==> TableOk())
    }

    /** The representation invariant. Like Intact, it is carried along unopened by callers. */
    ghost predicate Valid()
      reads this, buckets, items`prev, items`next, items`hhPrev, items`hhNext
      ensures Valid() ==> this in Repr
    {
      && InRepr()
      && head == At(items, 0)
      && forall k {:trigger Open(k)} :: Open(k) ==> Structure()
    }

    lemma Elements()
      requires Valid()
      ensures forall i :: 0 <= i < |items| ==> Contents()[i] == items[i].Rec()
    {
      RecsAre(items, |items|);
    }

    /** What an iteration meets at position i. */
    lemma LinksAt(i: nat)
      requires Valid() && i < |items|
      ensures Contents()[i] == items[i].Rec()
      ensures items[i].next == At(items, i + 1)
      ensures items[i].hashv == hash(items[i].path)
    {
      Elements();
      assert Open(0);
    }

    /** The abstract value: the records in application order. */
    ghost function Contents(): (t: Table)
      reads this, buckets, items
      requires Valid()
      ensures |t| == |items|
    {
      Recs(items, |items|)
    }

    lemma NewKey(key: Path)
      requires Valid() && !HasPath(Contents(), key)
      ensures forall i :: 0 <= i < |items| ==> items[i].path != key
    {
      Elements();
      assert forall i :: 0 <= i < |items| ==> Contents()[i].path == items[i].path;
    }

    lemma EntriesDiffer()
      requires Valid()
      ensures Distinct(items)
    {
      assert Open(0);
    }

    lemma ContentsDistinct()
      requires Valid()
      ensures DistinctPaths(Contents())
    {
      Elements();
      assert Open(0);
      forall i, j | 0 <= i < j < |items|
        ensures Contents()[i].path != Contents()[j].path
      {
        assert Contents()[i].path == items[i].path && Contents()[j].path == items[j].path;
      }
    }

    lemma ContentsAre(t: Table)
      requires Valid() && |t| == |items|
      requires forall i :: 0 <= i < |t| ==> t[i] == items[i].Rec()
      ensures Contents() == t
    {
      Elements();
    }

    constructor (hash: Path -> nat)
      ensures Valid() && fresh(Repr) && Contents() == []
      ensures this.hash == hash
    {
      this.hash := hash;
      head, tail := null, null;
      buckets := new Bucket[0];
      items, chains := [], [];
      numBuckets, log2NumBuckets, numItems, idealChainMaxlen, nonidealItems, ineffExpands := 0, 0, 0, 0, 0, 0;
      noexpand := false;
      new;
      Repr := {this, buckets};
    }

    /** Links e in front of the chain c that starts at first. */
    static method LinkHead(e: FileEntry, first: FileEntry?, ghost c: seq<FileEntry>)
      requires ChainLinked(c) && first == At(c, 0) && Distinct(c) && e !in c
      modifies e`hhPrev, e`hhNext, c`hhPrev
      ensures ChainLinked([e] + c)
    {
      e.hhPrev := null;
      e.hhNext := first;
      if first != null {
        first.hhPrev := e;
      }
      assert forall j :: 1 <= j <= |c| ==> ([e] + c)[j] == c[j - 1];
    }

    /** Links e in as the head of its chain: the writes shared by insertion and redistribution. */
    static method LinkFront(e: FileEntry, bk: array<Bucket>, mult: nat, ghost cs: Chains, ghost s: set<FileEntry>)
      requires bk.Length > 0 && BucketsHold(bk, cs, s) && Partition(cs, s) && e !in s
      modifies bk, e`hhPrev, e`hhNext, s`hhPrev
      ensures BucketsHold(bk, Pushed(cs, e), s + {e})
      ensures var b := ToBkt(e.hashv, bk.Length);
        bk[..] == old(bk[..])[b := Bucket(e, old(bk[b].count) + 1, mult)]
    {
      var b := ToBkt(e.hashv, bk.Length);
      var bkt := bk[b];
      LinkHead(e, bkt.hhHead, cs[b]);
      bk[b] := Bucket(e, bkt.count + 1, mult);
      forall a | 0 <= a < |cs| && a != b
        ensures ChainLinked(cs[a])
      {
        assert old(ChainLinked(cs[a]));
        assert forall j :: 0 <= j < |cs[a]| ==> cs[a][j] !in cs[b];
      }
    }

    /** One step of the redistribution: e moves to the head of its new chain. */
    method MoveToNewBucket(e: FileEntry, nb: array<Bucket>, ghost cs: Chains, ghost moved: set<FileEntry>)
      requires nb.Length > 0 && BucketsHold(nb, cs, moved) && Partition(cs, moved) && e !in moved
      requires CountersOk(nb[..], cs, idealChainMaxlen, nonidealItems)
      modifies nb, e`hhPrev, e`hhNext, moved`hhPrev, this`nonidealItems
      ensures BucketsHold(nb, Pushed(cs, e), moved + {e}) && Partition(Pushed(cs, e), moved + {e})
      ensures CountersOk(nb[..], Pushed(cs, e), idealChainMaxlen, nonidealItems)
    {
      var b := ToBkt(e.hashv, nb.Length);
      var count, mult := nb[b].count + 1, nb[b].expandMult;
      CountersPushed(nb[..], cs, idealChainMaxlen, nonidealItems, e);
      if count > idealChainMaxlen {
        nonidealItems := nonidealItems + 1;
        if count > mult * idealChainMaxlen {
          mult := mult + 1;
        }
      }
      LinkFront(e, nb, mult, cs, moved);
      PushedPartition(cs, moved, e);
    }

    /** The state of the redistribution: cs holds the moved nodes, and from position j on the old
        chain c is intact. */
    ghost predicate Moving(nb: array<Bucket>, cs: Chains, moved: set<FileEntry>, c: seq<FileEntry>, j: nat)
      reads this`idealChainMaxlen, this`nonidealItems, nb, moved`hhPrev, moved`hhNext, c`hhPrev, c`hhNext
    {
      && nb.Length > 0 && BucketsHold(nb, cs, moved) && Partition(cs, moved)
      && CountersOk(nb[..], cs, idealChainMaxlen, nonidealItems)
      && Distinct(c)
      && (forall k :: j <= k < |c| ==> c[k] !in moved)
      && ChainForward(c, j)
    }

    method MoveNext(e: FileEntry, nb: array<Bucket>, ghost cs: Chains, ghost moved: set<FileEntry>,
                    ghost c: seq<FileEntry>, ghost j: nat)
      returns (nxt: FileEntry?)
      requires Moving(nb, cs, moved, c, j) && e == At(c, j)
      modifies nb, c`hhPrev, c`hhNext, moved`hhPrev, this`nonidealItems
      ensures Moving(nb, Pushed(cs, e), moved + {e}, c, j + 1) && nxt == At(c, j + 1)
    {
      nxt := e.hhNext;
      MoveToNewBucket(e, nb, cs, moved);
    }

    /** Moves the chain c, node by node, from its front. */
    method MoveChain(first: FileEntry?, nb: array<Bucket>, ghost c: seq<FileEntry>, ghost cs: Chains,
                     ghost moved: set<FileEntry>)
      returns (ghost r: Chains)
      requires Moving(nb, cs, moved, c, 0) && first == At(c, 0)
      modifies nb, c`hhPrev, c`hhNext, moved`hhPrev, this`nonidealItems
      ensures |r| == |cs| && Moving(nb, r, moved + NodeSet(c), [], 0)
    {
      var thh := first;
      ghost var j, m := 0, moved;
      r := cs;
      while thh != null
        invariant 0 <= j <= |c| && thh == At(c, j)
        invariant m == moved + NodeSet(c[..j]) && |r| == |cs|
        invariant Moving(nb, r, m, c, j)
        decreases |c| - j
      {
        var nxt := MoveNext(thh, nb, r, m, c, j);
        NodeSetStep(c, j);
        r, m, j := Pushed(r, thh), m + {thh}, j + 1;
        thh := nxt;
      }
      assert c[..j] == c;
    }

    /** The items of bucket i move into the bucket array nb. */
    method MoveBucket(i: nat, nb: array<Bucket>, ghost s: set<FileEntry>, ghost cs: Chains) returns (ghost r: Chains)
      requires Partition(chains, s) && |chains| == buckets.Length && i < |chains| && nb != buckets
      requires buckets[i].hhHead == At(chains[i], 0)
      requires Moving(nb, cs, Below(s, |chains|, i), [], 0)
      requires forall b :: i <= b < |chains| ==> ChainForward(chains[b], 0)
      modifies nb, this`nonidealItems, s`hhPrev, s`hhNext
      ensures |r| == |cs| && Moving(nb, r, Below(s, |chains|, i + 1), [], 0)
      ensures forall b :: i < b < |chains| ==> ChainForward(chains[b], 0)
    {
      BelowStep(chains, s, i);
      r := MoveChain(buckets[i].hhHead, nb, chains[i], cs, Below(s, |chains|, i));
    }

    /** Every item of the old chains moves into the zeroed bucket array nb. */
    method Redistribute(nb: array<Bucket>, ghost s: set<FileEntry>) returns (ghost cs: Chains)
      requires BktOk(s) && nb != buckets && nb.Length > 0
      requires Moving(nb, NoChains(nb.Length), {}, [], 0)
      modifies nb, this`nonidealItems, s`hhPrev, s`hhNext
      ensures Moving(nb, cs, s, [], 0)
    {
      cs := NoChains(nb.Length);
      var i := 0;
      assert Below(s, |chains|, 0) == {};
      while i < numBuckets
        invariant 0 <= i <= numBuckets
        invariant Moving(nb, cs, Below(s, |chains|, i), [], 0)
        invariant forall b :: i <= b < |chains| ==> ChainForward(chains[b], 0)
      {
        cs := MoveBucket(i, nb, s, cs);
        i := i + 1;
      }
      assert Below(s, |chains|, i) == s;
    }

    /** Allocates the doubled, zeroed bucket array and sets the ideal chain length for it. */
    method NewBuckets() returns (nb: array<Bucket>)
      requires numBuckets == Pow2(log2NumBuckets) && numItems > 0
      modifies this`idealChainMaxlen, this`nonidealItems
      ensures fresh(nb) && nb.Length == 2 * numBuckets
      ensures idealChainMaxlen == IdealMaxlen(numItems, log2NumBuckets, numBuckets)
      ensures Moving(nb, NoChains(nb.Length), {}, [], 0)
    {
      nb := new Bucket[numBuckets * 2](i => Bucket(null, 0, 0));
      idealChainMaxlen := IdealMaxlen(numItems, log2NumBuckets, numBuckets);
      IdealMaxlenIsCeil(numItems, log2NumBuckets);
      nonidealItems := 0;
      ExcessOfEmpty(NoChains(nb.Length), nb.Length, idealChainMaxlen);
    }

    method Rehash(ghost s: set<FileEntry>) returns (nb: array<Bucket>, ghost cs: Chains)
      requires BktOk(s) && numItems > 0
      modifies this`idealChainMaxlen, this`nonidealItems, s`hhPrev, s`hhNext
      ensures fresh(nb) && nb.Length == 2 * numBuckets
      ensures idealChainMaxlen == IdealMaxlen(numItems, log2NumBuckets, numBuckets)
      ensures Moving(nb, cs, s, [], 0)
    {
      nb := NewBuckets();
      cs := Redistribute(nb, s);
    }

    /** HASH_EXPAND_BUCKETS: doubles the bucket array and redistributes every item. */
    method ExpandBuckets(ghost s: set<FileEntry>)
      requires BktOk(s) && numItems > 0
      modifies this`buckets, this`numBuckets, this`log2NumBuckets, this`idealChainMaxlen, this`nonidealItems,
               this`ineffExpands, this`noexpand, this`chains, s`hhPrev, s`hhNext
      ensures BktOk(s) && fresh(buckets)
      ensures buckets.Length == 2 * old(numBuckets) && log2NumBuckets == old(log2NumBuckets) + 1
      ensures idealChainMaxlen == IdealMaxlen(numItems, old(log2NumBuckets), old(numBuckets))
      ensures CountersOk(buckets[..], chains, idealChainMaxlen, nonidealItems)
      ensures ineffExpands == if nonidealItems > numItems / 2 then old(ineffExpands) + 1 else 0
      ensures noexpand == (old(noexpand) || ineffExpands > 1)
    {
      var nb, cs := Rehash(s);
      Install(nb, cs, s);
    }

    /** The doubled bucket array replaces the old one, and the expansion is judged: two in a row that
        leave more than half the items beyond the ideal position stop all further ones. */
    method Install(nb: array<Bucket>, ghost cs: Chains, ghost s: set<FileEntry>)
      requires numBuckets == Pow2(log2NumBuckets) && nb.Length == 2 * numBuckets
      requires BucketsHold(nb, cs, s) && Partition(cs, s)
      modifies this`buckets, this`numBuckets, this`log2NumBuckets, this`ineffExpands, this`noexpand, this`chains
      ensures BktOk(s) && buckets == nb && chains == cs && log2NumBuckets == old(log2NumBuckets) + 1
      ensures ineffExpands == if nonidealItems > numItems / 2 then old(ineffExpands) + 1 else 0
      ensures noexpand == (old(noexpand) || ineffExpands > 1)
    {
      numBuckets := numBuckets * 2;
      log2NumBuckets := log2NumBuckets + 1;
      buckets, chains := nb, cs;
      ShiftIsDiv(numItems, 1);
      ineffExpands := if nonidealItems > ShiftRight(numItems, 1) then ineffExpands + 1 else 0;
      if ineffExpands > 1 {
        noexpand := true;
      }
    }

    /** e becomes the head of its chain. */
    method AddToBkt(e: FileEntry, ghost s: set<FileEntry>)
      requires BktOk(s) && e !in s
      modifies this`chains, buckets, e`hhPrev, e`hhNext, s`hhPrev
      ensures BktOk(s + {e})
      ensures var b := ToBkt(e.hashv, numBuckets);
        buckets[..] == old(buckets[..])[b := Bucket(e, old(buckets[b].count) + 1, old(buckets[b].expandMult))]
    {
      LinkFront(e, buckets, buckets[ToBkt(e.hashv, numBuckets)].expandMult, chains, s);
      PushedPartition(chains, s, e);
      chains := Pushed(chains, e);
    }

    /** The bucket that e belongs to. */
    ghost function BktOf(e: FileEntry): (b: Bucket)
      reads this`buckets, this`numBuckets, buckets
    {
      if numBuckets > 0 && ToBkt(e.hashv, numBuckets) < buckets.Length then buckets[ToBkt(e.hashv, numBuckets)]
      else Bucket(null, 0, 0)
    }

    /** One more item in the bucket of e makes the table grow. */
    ghost predicate Full(e: FileEntry)
      reads this`buckets, this`numBuckets, this`noexpand, buckets
    {
      BktOf(e).count + 1 >= (BktOf(e).expandMult + 1) * 10 && !noexpand
    }

    /** HASH_ADD_TO_TABLE with HASH_ADD_TO_BKT: e heads its chain. The buckets double exactly when the chain
        has reached ten times its multiplier plus one, and the table may still grow; otherwise only the
        count and the head of that one bucket change. */
    method AddToTable(e: FileEntry, ghost s: set<FileEntry>)
      requires Intact(s) && e !in s
      modifies this`buckets, this`numBuckets, this`log2NumBuckets, this`numItems, this`idealChainMaxlen,
               this`nonidealItems, this`ineffExpands, this`noexpand, this`chains,
               buckets, e`hhPrev, e`hhNext, s`hhPrev, s`hhNext
      ensures Intact(s + {e}) && numItems == old(numItems) + 1
      ensures buckets == old(buckets) || fresh(buckets)
      ensures numBuckets == old(if Full(e) then 2 * numBuckets else numBuckets)
      ensures if old(BktOf(e)).count + 1 >= (old(BktOf(e)).expandMult + 1) * 10 && !old(noexpand)
              then
                && numBuckets == 2 * old(numBuckets)
                && CountersOk(buckets[..], chains, idealChainMaxlen, nonidealItems)
              else
                && numBuckets == old(numBuckets) && buckets == old(buckets)
                && idealChainMaxlen == old(idealChainMaxlen) && nonidealItems == old(nonidealItems)
                && ineffExpands == old(ineffExpands) && noexpand == old(noexpand)
                && BktOf(e) == Bucket(e, old(BktOf(e)).count + 1, old(BktOf(e)).expandMult)
                && (forall b :: 0 <= b < buckets.Length && b != ToBkt(e.hashv, numBuckets) ==> buckets[b] == old(buckets[b]))
    {
      assert Look(0);
      numItems := numItems + 1;
      var bkt := buckets[ToBkt(e.hashv, numBuckets)];
      AddToBkt(e, s);
      if bkt.count + 1 >= (bkt.expandMult + 1) * BKT_CAPACITY_THRESH && !noexpand {
        ExpandBuckets(s + {e});
      }
    }

    /** Ten items whose hash values select the same one of 32 buckets, added to a table that has just been
        made: the first nine leave the 32 buckets, the tenth leaves 64. */
    method TenthDoubles(es: seq<FileEntry>)
      requires |es| == 10 && Distinct(es) && Intact({})
      requires forall i :: 0 <= i < 10 ==> ToBkt(es[i].hashv, 32) == ToBkt(es[0].hashv, 32)
      requires numBuckets == buckets.Length == 32 && !noexpand && forall b :: 0 <= b < 32 ==> buckets[b] == Bucket(null, 0, 0)
      modifies this, buckets, es`hhPrev, es`hhNext
      ensures numBuckets == 64
    {
      ghost var b := BktOf(es[0]);
      for i := 0 to 10
        invariant Intact(NodeSet(es[..i])) && (buckets == old(buckets) || fresh(buckets))
        invariant i < 10 ==> numBuckets == buckets.Length == 32 && !noexpand
        invariant i < 10 ==> BktOf(es[0]).count == i && BktOf(es[0]).expandMult == 0
        invariant i == 10 ==> numBuckets == 64
      {
        assert es[i] !in es[..i];
        assert forall e :: e in NodeSet(es[..i]) ==> e in es;
        AddToTable(es[i], NodeSet(es[..i]));
        assert es[..i + 1] == es[..i] + [es[i]];
        NodesPlus(es[..i], es[i]);
      }
    }

    /** HASH_MAKE_TABLE: an empty table whose only item in application order is e. */
    method MakeTable(e: FileEntry)
      modifies this`tail, this`buckets, this`numBuckets, this`log2NumBuckets, this`numItems,
               this`idealChainMaxlen, this`nonidealItems, this`ineffExpands, this`noexpand, this`chains
      ensures Intact({}) && numItems == 0 && tail == e && fresh(buckets)
      ensures numBuckets == buckets.Length == 32 && log2NumBuckets == 5 && !noexpand
      ensures idealChainMaxlen == 0 && nonidealItems == 0 && ineffExpands == 0
      ensures forall b :: 0 <= b < 32 ==> buckets[b] == Bucket(null, 0, 0)
    {
      tail := e;
      numBuckets, log2NumBuckets := INITIAL_NUM_BUCKETS, INITIAL_NUM_BUCKETS_LOG2;
      numItems, idealChainMaxlen, nonidealItems, ineffExpands, noexpand := 0, 0, 0, 0, false;
      buckets := new Bucket[INITIAL_NUM_BUCKETS](i => Bucket(null, 0, 0));
      chains := NoChains(INITIAL_NUM_BUCKETS);
    }

    /** HASH_APPEND_LIST: e becomes the last item in application order. */
    method AppendList(e: FileEntry)
      requires items != [] && AppOk() && Distinct(items) && e !in items
      modifies this`tail, this`items, e`prev, e`next, items`next
      ensures items == old(items) + [e] && AppOk()
    {
      e.next := null;
      e.prev := tail;
      tail.next := e;
      tail := e;
      items := items + [e];
    }

    ghost predicate TableOk()
      reads this`items, this`numItems, this`buckets, this`numBuckets, this`log2NumBuckets, this`chains, buckets,
            items`hhPrev, items`hhNext
    {
      numItems == |items| && Intact(Nodes())
    }

    /** The first half of HASH_ADD_KEYPTR_BYHASHVALUE: e joins the application order, and the table is
        made if e is its first item. */
    method ThreadApp(e: FileEntry)
      requires Distinct(items) && AppOk() && (items != [] ==> TableOk()) && e !in items
      modifies this, e`prev, e`next, items`next
      ensures items == old(items) + [e] && Repr == old(Repr)
      ensures AppOk()
      ensures numItems == |old(items)| && Intact(old(Nodes()))
      ensures buckets == old(buckets) || fresh(buckets)
      ensures if old(items) == []
              then numBuckets == 32 && !noexpand && ineffExpands == 0 && !Full(e)
              else numBuckets == old(numBuckets) && noexpand == old(noexpand) && ineffExpands == old(ineffExpands)
                   && Full(e) == old(Full(e))
    {
      if head == null {
        e.next, e.prev := null, null;
        MakeTable(e);
        head := e;
        items := [e];
        assert old(Nodes()) == {};
      } else {
        AppendList(e);
      }
    }

    /** HASH_ADD_KEYPTR_BYHASHVALUE: threads e through both lists. */
    method Thread(e: FileEntry)
      requires KeysOk() && AppOk() && (items != [] ==> TableOk()) && e !in items
      requires e.hashv == hash(e.path) && forall i :: 0 <= i < |items| ==> items[i].path != e.path
      modifies this, buckets, e`prev, e`next, e`hhPrev, e`hhNext,
               items`prev, items`next, items`hhPrev, items`hhNext
      ensures items == old(items) + [e] && Repr == old(Repr)
      ensures KeysOk() && AppOk() && TableOk()
      ensures buckets == old(buckets) || fresh(buckets)
      ensures if old(items) == [] then numBuckets == 32 && !noexpand
              else numBuckets == old(if Full(e) then 2 * numBuckets else numBuckets)
    {
      ghost var s := Nodes();
      KeysPlus(items, hash, e);
      NodesPlus(items, e);
      ThreadApp(e);
      Enter(e, s);
    }

    /** The application order does not notice that e enters the buckets. */
    method Enter(e: FileEntry, ghost s: set<FileEntry>)
      requires Intact(s) && e !in s && KeysOk() && AppOk()
      modifies this`buckets, this`numBuckets, this`log2NumBuckets, this`numItems, this`idealChainMaxlen,
               this`nonidealItems, this`ineffExpands, this`noexpand, this`chains,
               buckets, e`hhPrev, e`hhNext, s`hhPrev, s`hhNext
      ensures KeysOk() && AppOk() && Intact(s + {e}) && numItems == old(numItems) + 1
      ensures buckets == old(buckets) || fresh(buckets)
      ensures numBuckets == old(if Full(e) then 2 * numBuckets else numBuckets)
      ensures !old(Full(e)) ==> noexpand == old(noexpand)
    {
      AddToTable(e, s);
    }

    method AddHandle(e: FileEntry)
      requires Valid() && e !in Repr
      requires e.hashv == hash(e.path) && !HasPath(Contents(), e.path)
      modifies this, buckets, e`prev, e`next, e`hhPrev, e`hhNext,
               items`prev, items`next, items`hhPrev, items`hhNext
      ensures Valid() && fresh(Repr - old(Repr) - {e}) && old(Repr) <= Repr
      ensures items == old(items) + [e]
      ensures if old(items) == [] then numBuckets == 32 && !noexpand
              else numBuckets == old(if Full(e) then 2 * numBuckets else numBuckets)
    {
      NewKey(e.path);
      assert Open(0);
      Thread(e);
      Repr := Repr + {buckets, e};
    }

    /** HASH_ADD_KEYPTR: appends e, whose key must be new. */
    method Add(e: FileEntry)
      requires Valid() && e !in Repr
      requires e.hashv == hash(e.path) && !HasPath(Contents(), e.path)
      modifies Repr, e`prev, e`next, e`hhPrev, e`hhNext
      ensures Valid() && fresh(Repr - old(Repr) - {e}) && old(Repr) <= Repr
      ensures items == old(items) + [e]
      ensures Contents() == old(Contents()) + [e.Rec()]
      ensures if old(items) == [] then numBuckets == 32 && !noexpand
              else numBuckets == old(if Full(e) then 2 * numBuckets else numBuckets)
    {
      Elements();
      ghost var t := Contents() + [e.Rec()];
      AddHandle(e);
      ContentsAre(t);
    }

    /** HASH_FIND: walks one chain, yet answers what a scan of the whole list would. */
    method Find(key: Path) returns (out: FileEntry?)
      requires Valid()
      ensures out == At(items, IndexOf(Contents(), key))
    {
      assert Open(0);
      out := null;
      if head != null {
        var hashv := hash(key);
        out := FindInBkt(key, hashv);
      }
      FoundByScan(key, out);
    }

    /** HASH_FIND_IN_BKT. */
    method FindInBkt(key: Path, hashv: nat) returns (out: FileEntry?)
      requires KeysOk() && Intact(Nodes()) && hashv == hash(key)
      ensures out != null ==> out in items && out.path == key
      ensures out == null ==> forall i :: 0 <= i < |items| ==> items[i].path != key
    {
      assert Look(0);
      var b := ToBkt(hashv, numBuckets);
      out := buckets[b].hhHead;
      ghost var c, j := chains[b], 0;
      while out != null
        invariant 0 <= j <= |c| && out == At(c, j)
        invariant forall i :: 0 <= i < j ==> c[i].path != key
        decreases |c| - j
      {
        if out.hashv == hashv && |out.path| == |key| {
          if out.path == key {
            return;
          }
        }
        out := out.hhNext;
        j := j + 1;
      }
      assert forall e :: e in Nodes() && e.hashv == hashv ==> e in c;
    }

    lemma FoundByScan(key: Path, out: FileEntry?)
      requires Valid()
      requires out != null ==> out in items && out.path == key
      requires out == null ==> forall i :: 0 <= i < |items| ==> items[i].path != key
      ensures out == At(items, IndexOf(Contents(), key))
    {
      Elements();
      var k := IndexOf(Contents(), key);
      ContentsDistinct();
      assert forall i :: 0 <= i < |items| ==> Contents()[i].path == items[i].path;
      if out != null {
        var m :| 0 <= m < |items| && items[m] == out;
      }
    }

    /** Unlinks the node at position j of the chain c. */
    static method UnlinkChain(e: FileEntry, ghost c: seq<FileEntry>, ghost j: nat)
      requires j < |c| && e == c[j] && ChainLinked(c) && Distinct(c)
      modifies c`hhPrev, c`hhNext
      ensures ChainLinked(Without(c, j))
    {
      assert e.hhPrev == At(c, j - 1) && e.hhNext == At(c, j + 1);
      if e.hhPrev != null {
        e.hhPrev.hhNext := e.hhNext;
      }
      if e.hhNext != null {
        e.hhNext.hhPrev := e.hhPrev;
      }
      ChainBypassedLinks(c, j);
    }

    /** e leaves position j of chain b; the other chains stay as they are. */
    static method UnlinkFrom(e: FileEntry, ghost b: nat, ghost cs: Chains, ghost s: set<FileEntry>, ghost j: nat)
      requires Partition(cs, s) && b < |cs| && j < |cs[b]| && e == cs[b][j]
      requires forall a :: 0 <= a < |cs| ==> ChainLinked(cs[a])
      modifies cs[b]`hhPrev, cs[b]`hhNext
      ensures var r := cs[b := Without(cs[b], j)]; Partition(r, s - {e}) && forall a :: 0 <= a < |r| ==> ChainLinked(r[a])
    {
      WithoutPartition(cs, s, b, j);
      UnlinkChain(e, cs[b], j);
      forall a | 0 <= a < |cs| && a != b
        ensures ChainLinked(cs[a])
      {
        assert old(ChainLinked(cs[a]));
        assert forall i :: 0 <= i < |cs[a]| ==> cs[a][i] !in cs[b];
      }
    }

    /** The bucket as it will be without e. */
    static method Uncount(e: FileEntry, bk: array<Bucket>, b: nat, ghost c: seq<FileEntry>, ghost j: nat)
      requires b < bk.Length && ChainLinked(c) && Distinct(c) && bk[b].hhHead == At(c, 0) && bk[b].count == |c|
      requires j < |c| && e == c[j]
      modifies bk
      ensures bk[..] == old(bk[..])[b := Bucket(At(Without(c, j), 0), |c| - 1, old(bk[b].expandMult))]
    {
      var bkt := bk[b];
      assert e.hhNext == At(c, j + 1);
      bk[b] := Bucket(if bkt.hhHead == e then e.hhNext else bkt.hhHead, bkt.count - 1, bkt.expandMult);
    }

    /** HASH_DEL_IN_BKT: e leaves position j of chain b. */
    static method DelInBkt(e: FileEntry, bk: array<Bucket>, b: nat, ghost cs: Chains, ghost s: set<FileEntry>, ghost j: nat)
      requires BucketsHold(bk, cs, s) && Partition(cs, s)
      requires b < |cs| && j < |cs[b]| && e == cs[b][j]
      modifies bk, s`hhPrev, s`hhNext
      ensures BucketsHold(bk, cs[b := Without(cs[b], j)], s - {e})
      ensures bk[..] == old(bk[..])[b := Bucket(bk[b].hhHead, old(bk[b].count) - 1, old(bk[b].expandMult))]
    {
      Uncount(e, bk, b, cs[b], j);
      UnlinkFrom(e, b, cs, s, j);
      HeadsHold(bk, cs, cs[b := Without(cs[b], j)], s - {e}, b);
    }

    /** The buckets hold the chains r, which differ from cs in chain b only. */
    static lemma HeadsHold(bk: array<Bucket>, cs: Chains, r: Chains, s: set<FileEntry>, b: nat)
      requires Partition(r, s) && |r| == |cs| == bk.Length && b < |r|
      requires forall a :: 0 <= a < |r| ==> ChainLinked(r[a])
      requires forall a :: 0 <= a < |r| && a != b ==> r[a] == cs[a] && bk[a].hhHead == At(cs[a], 0) && bk[a].count == |cs[a]|
      requires bk[b].hhHead == At(r[b], 0) && bk[b].count == |r[b]|
      ensures BucketsHold(bk, r, s)
    {
    }

    /** The bucket half of HASH_DELETE_HH. */
    method UnlinkBkt(e: FileEntry, ghost s: set<FileEntry>)
      requires Intact(s) && e in s && numItems > 0
      modifies this`chains, this`numItems, buckets, s`hhPrev, s`hhNext
      ensures Intact(s - {e}) && numItems == old(numItems) - 1
      ensures forall b :: 0 <= b < buckets.Length ==> buckets[b].expandMult == old(buckets[b].expandMult)
    {
      assert Look(0);
      var b := ToBkt(e.hashv, numBuckets);
      ghost var j :| 0 <= j < |chains[b]| && chains[b][j] == e;
      DelInBkt(e, buckets, b, chains, s, j);
      WithoutPartition(chains, s, b, j);
      chains := chains[b := Without(chains[b], j)];
      numItems := numItems - 1;
    }

    /** The neighbours of e, at position k of c, are linked to each other. */
    method Bypass(e: FileEntry, ghost c: seq<FileEntry>, ghost k: nat)
      requires AppLinked(c) && Distinct(c) && |c| > 1 && k < |c| && e == c[k]
      modifies this`head, c`prev, c`next
      ensures Bypassed(c, k)
      ensures head == if k == 0 then c[1] else old(head)
    {
      assert e.prev == At(c, k - 1) && e.next == At(c, k + 1);
      if e.prev != null {
        e.prev.next := e.next;
      } else {
        head := e.next;
      }
      if e.next != null {
        e.next.prev := e.prev;
      }
    }

    /** The application-order half of HASH_DELETE_HH for an item that is not the only one. */
    method UnlinkApp(e: FileEntry, ghost k: nat)
      requires AppOk() && Distinct(items) && |items| > 1 && k < |items| && e == items[k]
      modifies this`head, this`tail, this`items, items`prev, items`next
      ensures AppOk() && items == Without(old(items), k)
    {
      assert e.prev == At(items, k - 1);
      assert e == tail <==> k == |items| - 1;
      if e == tail {
        tail := e.prev;
      }
      Bypass(e, items, k);
      BypassedLinks(items, k);
      items := Without(items, k);
    }

    /** HASH_DELETE_HH: the last item takes the whole table with it. */
    method Unthread(e: FileEntry, ghost k: nat)
      requires KeysOk() && AppOk() && TableOk() && k < |items| && e == items[k]
      modifies this`head, this`tail, this`items, this`chains, this`numItems, buckets,
               items`prev, items`next, items`hhPrev, items`hhNext
      ensures items == Without(old(items), k)
      ensures KeysOk() && AppOk() && (items != [] ==> TableOk())
    {
      KeysWithout(items, hash, k);
      if e.prev == null && e.next == null {
        head := null;
        items := [];
      } else {
        ghost var s := Nodes();
        UnlinkApp(e, k);
        UnlinkBkt(e, s);
      }
    }

    method DeleteHandle(e: FileEntry, ghost k: nat)
      requires Valid() && k < |items| && e == items[k]
      modifies this`head, this`tail, this`items, this`chains, this`numItems, buckets,
               items`prev, items`next, items`hhPrev, items`hhNext
      ensures Valid() && items == Without(old(items), k)
    {
      assert Open(0);
      Unthread(e, k);
    }

    /** HASH_DEL. */
    method Delete(e: FileEntry, ghost k: nat)
      requires Valid() && k < |items| && e == items[k]
      modifies Repr
      ensures Valid() && Repr == old(Repr)
      ensures items == Without(old(items), k)
      ensures Contents() == RemoveAt(old(Contents()), k)
    {
      Elements();
      ghost var t := RemoveAt(Contents(), k);
      DeleteHandle(e, k);
      ContentsAre(t);
    }

    /** HASH_FSCK's walk down one bucket chain. */
    static method FsckChain(bkt: Bucket, ghost c: seq<FileEntry>) returns (ok: bool, bktCount: nat)
      requires ChainLinked(c) && bkt.hhHead == At(c, 0) && bkt.count == |c|
      ensures ok && bktCount == |c|
    {
      bktCount := 0;
      var thh := bkt.hhHead;
      var prev: FileEntry? := null;
      while thh != null
        invariant bktCount <= |c| && thh == At(c, bktCount) && prev == At(c, bktCount - 1)
        decreases |c| - bktCount
      {
        if prev != thh.hhPrev {
          return false, bktCount;
        }
        bktCount := bktCount + 1;
        prev := thh;
        thh := thh.hhNext;
      }
      ok := bkt.count == bktCount;
    }

    method FsckBuckets() returns (ok: bool)
      requires TableOk() && Distinct(items)
      ensures ok
    {
      assert Look(0);
      var i, count := 0, 0;
      while i < numBuckets
        invariant i <= numBuckets && count == SumLen(chains, i)
      {
        var bktOk, bktCount := FsckChain(buckets[i], chains[i]);
        if !bktOk {
          return false;
        }
        count := count + bktCount;
        i := i + 1;
      }
      CountsSum(chains, items);
      ok := count == numItems;
    }

    method FsckApp() returns (ok: bool)
      requires AppOk() && numItems == |items|
      ensures ok
    {
      var count := 0;
      var thh := head;
      var prev: FileEntry? := null;
      while thh != null
        invariant count <= |items| && thh == At(items, count) && prev == At(items, count - 1)
        decreases |items| - count
      {
        if prev != thh.prev {
          return false;
        }
        count := count + 1;
        prev := thh;
        thh := thh.next;
      }
      ok := count == numItems;
    }

    /** HASH_FSCK: the table's own integrity check passes whenever Valid holds. */
    method Fsck() returns (ok: bool)
      requires Valid()
      ensures ok
    {
      assert Open(0);
      ok := true;
      if head != null {
        ok := FsckBuckets();
        if ok {
          ok := FsckApp();
        }
      }
    }
  }
}
