/**
 * Byte strings, 32-byte hashes and 20-byte addresses, the conversions
 * common.BytesToHash / common.BytesToAddress, and the byte-wise
 * lexicographic order in which a trie iterates its keys.
 */
module Common {
  newtype byte = x: int | 0 <= x < 256

  type Bytes = seq<byte>

  const HashLength: nat := 32
  const AddressLength: nat := 20

  /** A 32-byte Keccak hash (common.Hash). */
  type Hash = h: Bytes | |h| == HashLength witness ZeroHash()

  /** A 20-byte account address (common.Address). */
  type Address = a: Bytes | |a| == AddressLength witness seq(20, _ => 0)

  /** An unsigned 64-bit integer (uint64). */
  type u64 = x: nat | x < 0x1_0000_0000_0000_0000

  const MaxU64: u64 := 0xFFFF_FFFF_FFFF_FFFF

  function ZeroHash(): (h: Bytes)
    ensures |h| == HashLength
  {
    seq(32, _ => 0)
  }

  /** The root hash of the empty trie: Keccak-256 of the RLP encoding of the empty string. */
  const EmptyRoot: Hash := [0x56, 0xe8, 0x1f, 0x17, 0x1b, 0xcc, 0x55, 0xa6, 0xff, 0x83, 0x45, 0xe6, 0x92, 0xc0, 0xf8, 0x6e,
                            0x5b, 0x48, 0xe0, 0x1b, 0x99, 0x6c, 0xad, 0xc0, 0x01, 0x62, 0x2f, 0xb5, 0xe3, 0x63, 0xb4, 0x21]

  /** The two roots trie.New opens as the empty trie without consulting the database. */
  predicate IsEmptyRoot(root: Hash)
  {
    root == ZeroHash() || root == EmptyRoot
  }

  function Min(a: int, b: int): int { if a < b then a else b }

  /** Subtraction of one on uint64, which wraps 0 around to the largest value. */
  function Pred64(n: u64): (r: u64)
    ensures n > 0 ==> r + 1 == n
    ensures n == 0 ==> r == MaxU64
  {
    (n - 1) % 0x1_0000_0000_0000_0000
  }

  /**
   * The last n bytes of b, left-padded with zero bytes when b is shorter:
   * how common.BytesToHash and common.BytesToAddress fit a byte slice into
   * a fixed-size array.
   */
  function ToFixed(b: Bytes, n: nat): (r: Bytes)
    ensures |r| == n
    ensures forall i :: 0 <= i < n && n - |b| <= i ==> r[i] == b[|b| - n + i]
    ensures forall i :: 0 <= i < n - |b| ==> r[i] == 0
  {
    if |b| >= n then b[|b| - n..] else seq(n - |b|, _ => 0) + b
  }

  function BytesToHash(b: Bytes): (h: Hash)
    ensures |b| == HashLength ==> h == b
  {
    ToFixed(b, HashLength)
  }

  function BytesToAddress(b: Bytes): (a: Address)
    ensures |b| >= AddressLength ==> a == b[|b| - AddressLength..]
  {
    ToFixed(b, AddressLength)
  }

  /**
   * a sorts no later than b in byte-wise lexicographic order (bytes.Compare(a, b) <= 0),
   * a proper prefix sorting before the longer string.
   */
  predicate LexLe(a: Bytes, b: Bytes)
    decreases |a|
  {
    |a| == 0 || (|b| > 0 && (a[0] < b[0] || (a[0] == b[0] && LexLe(a[1..], b[1..]))))
  }

  predicate LexLess(a: Bytes, b: Bytes)
  {
    LexLe(a, b) && a != b
  }

  lemma {:induction false} LexLeReflexive(a: Bytes)
    ensures LexLe(a, a)
    decreases |a|
  {
    if |a| > 0 {
      LexLeReflexive(a[1..]);
    }
  }

  lemma {:induction false} LexLeTransitive(a: Bytes, b: Bytes, c: Bytes)
    requires LexLe(a, b) && LexLe(b, c)
    ensures LexLe(a, c)
    decreases |a|
  {
    if |a| > 0 && a[0] == b[0] && b[0] == c[0] {
      LexLeTransitive(a[1..], b[1..], c[1..]);
    }
  }

  lemma {:induction false} LexLeAntisymmetric(a: Bytes, b: Bytes)
    requires LexLe(a, b) && LexLe(b, a)
    ensures a == b
    decreases |a|
  {
    if |a| > 0 {
      LexLeAntisymmetric(a[1..], b[1..]);
      assert a == [a[0]] + a[1..] && b == [b[0]] + b[1..];
    }
  }

  /** Strictly before, then not at-or-after: the order is a strict total order. */
  lemma LexLessNotGe(a: Bytes, b: Bytes)
    requires LexLess(a, b)
    ensures !LexLe(b, a)
  {
    if LexLe(b, a) {
      LexLeAntisymmetric(a, b);
    }
  }
}
