/** Bytes and NUL-terminated strings, as the program stores and sends them. */
module Bytes {

  type Byte = x: int | 0 <= x < 256
  type Path = seq<Byte>

  const NUL: Byte := 0
  const NEWLINE: Byte := 10
  const SPACE: Byte := 32
  const DOT: Byte := 46
  const SLASH: Byte := 47

  /** SHA256_DIGEST_LENGTH. */
  const DIGEST_LENGTH: nat := 32
  type Digest = s: seq<Byte> | |s| == DIGEST_LENGTH witness seq(DIGEST_LENGTH, i => 0)

  /** MAX_LENGTH: the size of every path and line buffer. */
  const MAX_LENGTH: nat := 4096

  /** The range of unsigned int. */
  const UINT_BOUND: nat := 0x1_0000_0000

  /** A path the program can handle: it fits its buffer with its terminator, has no embedded
      terminator, and has a directory part. */
  predicate GoodPath(p: Path) {
    |p| < MAX_LENGTH && NUL !in p && SLASH in p
  }

  /** The first position from i on whose byte is (or is not) in d. */
  function Skip(s: seq<Byte>, d: set<Byte>, inside: bool, i: nat): (j: nat)
    requires i <= |s|
    ensures i <= j <= |s|
    ensures forall k :: i <= k < j ==> (s[k] in d) == inside
    ensures j < |s| ==> (s[j] in d) != inside
    decreases |s| - i
  {
    if i < |s| && (s[i] in d) == inside then Skip(s, d, inside, i + 1) else i
  }

  lemma SkipIs(s: seq<Byte>, d: set<Byte>, inside: bool, i: nat, j: nat)
    requires i <= j <= |s| && (forall k :: i <= k < j ==> (s[k] in d) == inside)
    requires j < |s| ==> (s[j] in d) != inside
    ensures Skip(s, d, inside, i) == j
  {
  }
}
