/** Shifts and masks on unsigned numbers, and what they compute when the mask is a power of two. */
module BitArith {

  function Pow2(k: nat): (r: nat)
    ensures r > 0
  {
    if k == 0 then 1 else 2 * Pow2(k - 1)
  }

  /** Bitwise conjunction, bit by bit from the least significant one. */
  function BitAnd(a: nat, b: nat): (r: nat)
    ensures r <= b
    decreases b
  {
    if b == 0 then 0 else 2 * BitAnd(a / 2, b / 2) + (if a % 2 == 1 && b % 2 == 1 then 1 else 0)
  }

  function ShiftRight(a: nat, k: nat): nat
  {
    if k == 0 then a else ShiftRight(a / 2, k - 1)
  }

  function CeilDiv(n: nat, d: nat): nat
    requires d > 0
  {
    if n % d == 0 then n / d else n / d + 1
  }

  /** HASH_TO_BKT. */
  function ToBkt(hashv: nat, numBuckets: nat): (r: nat)
    requires numBuckets > 0
    ensures r < numBuckets
  {
    BitAnd(hashv, numBuckets - 1)
  }

  lemma HalfMod(a: nat, m: nat)
    requires m > 0
    ensures a % (2 * m) == 2 * ((a / 2) % m) + a % 2
    ensures a / (2 * m) == (a / 2) / m
  {
    var q, r := (a / 2) / m, (a / 2) % m;
    assert a / 2 == q * m + r;
    assert a == q * (2 * m) + (2 * r + a % 2);
    DivModUnique(a, 2 * m, q, 2 * r + a % 2);
  }

  lemma DivModUnique(a: nat, d: nat, q: nat, r: nat)
    requires 0 <= r < d && a == q * d + r
    ensures a / d == q && a % d == r
  {
    var q', r' := a / d, a % d;
    assert q' * d + r' == q * d + r;
    QuotientUnique(d, q, r, q', r');
  }

  lemma QuotientUnique(d: nat, q: int, r: nat, q': int, r': nat)
    requires r < d && r' < d && q' * d + r' == q * d + r
    ensures q == q' && r == r'
  {
    assert (q' - q) * d == r - r';
    assert (q - q') * d == r' - r;
    if q < q' {
      MulAtLeast(q' - q, d);
    } else if q' < q {
      MulAtLeast(q - q', d);
    }
  }

  lemma MulAtLeast(k: nat, d: nat)
    requires k > 0
    ensures k * d >= d
  {
  }

  /** The bucket mask selects the remainder modulo the number of buckets. */
  lemma {:induction false} MaskIsMod(h: nat, k: nat)
    ensures ToBkt(h, Pow2(k)) == h % Pow2(k)
  {
    if k != 0 {
      MaskIsMod(h / 2, k - 1);
      HalfMod(h, Pow2(k - 1));
      assert (Pow2(k) - 1) / 2 == Pow2(k - 1) - 1;
    }
  }

  lemma {:induction false} ShiftIsDiv(a: nat, k: nat)
    ensures ShiftRight(a, k) == a / Pow2(k)
  {
    if k != 0 {
      ShiftIsDiv(a / 2, k - 1);
      HalfMod(a, Pow2(k - 1));
    }
  }

  /** Doubling the table splits each chain in two: an item stays at its index or moves up by the
      old number of buckets. */
  lemma SplitOnDoubling(h: nat, k: nat)
    ensures var b := ToBkt(h, Pow2(k)); ToBkt(h, Pow2(k + 1)) in {b, b + Pow2(k)}
  {
    MaskIsMod(h, k);
    MaskIsMod(h, k + 1);
    ModOfDouble(h, Pow2(k));
  }

  lemma ModOfDouble(h: nat, n: nat)
    requires n > 0
    ensures h % (2 * n) in {h % n, h % n + n}
  {
    var q, r := h / n, h % n;
    var q2, o := q / 2, q % 2;
    assert h == q * n + r;
    Regroup(q2, o, n);
    DivModUnique(h, 2 * n, q2, o * n + r);
  }

  lemma Regroup(q: nat, o: nat, n: nat)
    requires o < 2
    ensures (2 * q + o) * n == q * (2 * n) + o * n
    ensures o * n == if o == 0 then 0 else n
  {
  }

  /** The chain length the doubled table would have if its items were spread evenly, as the table
      computes it with a shift and a mask. */
  function IdealMaxlen(numItems: nat, log2: nat, numBuckets: nat): nat
    requires numBuckets > 0
  {
    ShiftRight(numItems, log2 + 1) + (if BitAnd(numItems, numBuckets * 2 - 1) != 0 then 1 else 0)
  }

  lemma IdealMaxlenIsCeil(numItems: nat, log2: nat)
    ensures IdealMaxlen(numItems, log2, Pow2(log2)) == CeilDiv(numItems, 2 * Pow2(log2))
    ensures numItems > 0 ==> IdealMaxlen(numItems, log2, Pow2(log2)) > 0
  {
    ShiftIsDiv(numItems, log2 + 1);
    MaskIsMod(numItems, log2 + 1);
    assert Pow2(log2 + 1) == 2 * Pow2(log2);
    DivPositive(numItems, 2 * Pow2(log2));
  }

  lemma DivPositive(n: nat, d: nat)
    requires d > 0
    ensures n / d >= 0
    ensures n > 0 && n % d == 0 ==> n / d > 0
  {
    if n / d == 0 {
      assert n == d * (n / d) + n % d;
    }
  }
}
