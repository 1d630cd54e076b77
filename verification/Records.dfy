/** The record kept for one file, and the insertion-ordered table of records as a value.
    Everything the program does to its table is specified here on sequences of records. */
module Records {
  import opened Bytes

  /** What a table entry says about its file. state is 0 (nothing to do), 1 (to be sent) or
      -1 (to be removed unless the next scan sees the path). */
  datatype Record = Record(path: Path, dataSize: nat, checkSum: Digest, mtime: int, state: int)

  type Table = seq<Record>

  ghost predicate DistinctPaths(t: Table) {
    forall i, j :: 0 <= i < j < |t| ==> t[i].path != t[j].path
  }

  ghost predicate HasPath(t: Table, p: Path) {
    exists i :: 0 <= i < |t| && t[i].path == p
  }

  /** Path p is to be sent. */
  ghost predicate Marked(t: Table, p: Path) {
    exists i :: 0 <= i < |t| && t[i].path == p && t[i].state == 1
  }

  /** The position of the first record of path p from position i on, or |t|. */
  function IndexFrom(t: Table, p: Path, i: nat): (k: nat)
    requires i <= |t|
    ensures i <= k <= |t|
    ensures k < |t| ==> t[k].path == p
    ensures forall j :: i <= j < k ==> t[j].path != p
    decreases |t| - i
  {
    if i == |t| || t[i].path == p then i else IndexFrom(t, p, i + 1)
  }

  /** A linear scan for path p in insertion order. */
  function IndexOf(t: Table, p: Path): (k: nat)
    ensures k <= |t|
    ensures k < |t| ==> t[k].path == p
    ensures forall j :: 0 <= j < k ==> t[j].path != p
  {
    IndexFrom(t, p, 0)
  }

  lemma IndexOfHas(t: Table, p: Path)
    ensures IndexOf(t, p) < |t| <==> HasPath(t, p)
  {
  }

  lemma IndexOfIs(t: Table, p: Path, k: nat)
    requires DistinctPaths(t) && k < |t| && t[k].path == p
    ensures IndexOf(t, p) == k
  {
  }

  function RemoveAt(t: Table, k: nat): Table
    requires k < |t|
  {
    t[..k] + t[k + 1..]
  }

  /** Those of the first n records whose state is not -1, in order. */
  function SweptTo(t: Table, n: nat): Table
    requires n <= |t|
  {
    if n == 0 then [] else SweptTo(t, n - 1) + if t[n - 1].state == -1 then [] else [t[n - 1]]
  }

  /** The records whose state is not -1, in order. */
  function Swept(t: Table): Table {
    SweptTo(t, |t|)
  }

  lemma RemoveMiddle(a: Table, r: Record, b: Table)
    ensures var c := a + ([r] + b); c[|a|] == r && RemoveAt(c, |a|) == a + b && c == (a + [r]) + b
  {
    var c := a + ([r] + b);
    assert c[..|a|] == a && c[|a| + 1..] == b;
  }

  /** Dealing with record i, kept or dropped, in a table swept up to it. */
  lemma SweptStep(t: Table, i: nat)
    requires i < |t|
    ensures var c := SweptTo(t, i) + t[i..]; var d := |SweptTo(t, i)|;
      && c[d] == t[i]
      && (if t[i].state == -1 then RemoveAt(c, d) else c) == SweptTo(t, i + 1) + t[i + 1..]
  {
    assert t[i..] == [t[i]] + t[i + 1..];
    RemoveMiddle(SweptTo(t, i), t[i], t[i + 1..]);
  }

  function WithStates(t: Table, state: int): (r: Table)
    ensures |r| == |t|
    ensures forall i :: 0 <= i < |t| ==> r[i] == t[i].(state := state)
  {
    seq(|t|, i requires 0 <= i < |t| => t[i].(state := state))
  }

  lemma {:induction false} SweptToIs(t: Table, n: nat)
    requires n <= |t|
    ensures forall r :: r in SweptTo(t, n) <==> r in t[..n] && r.state != -1
    ensures DistinctPaths(t) ==> DistinctPaths(SweptTo(t, n))
  {
    if n > 0 {
      SweptToIs(t, n - 1);
      assert t[..n] == t[..n - 1] + [t[n - 1]];
      if DistinctPaths(t) && t[n - 1].state != -1 {
        var s := SweptTo(t, n - 1);
        forall i | 0 <= i < |s|
          ensures s[i].path != t[n - 1].path
        {
          assert s[i] in t[..n - 1];
        }
      }
    }
  }

  /** The sweep keeps exactly the records that are not in state -1, each once. */
  lemma SweptIs(t: Table)
    ensures forall r :: r in Swept(t) <==> r in t && r.state != -1
    ensures DistinctPaths(t) ==> DistinctPaths(Swept(t))
  {
    SweptToIs(t, |t|);
    assert t[..|t|] == t;
  }
}
