/** Byte-level types shared by every component of the model. */
module Bytes {

  type Byte = b: int | 0 <= b < 256

  /** A 32-byte identifier: a TxID, ContentID, TopicID, SubtreeID or node hash. */
  type Hash = h: seq<Byte> | |h| == 32 witness seq(32, i => 0)

  const ZERO_HASH: Hash :=
    [0, 0, 0, 0, 0, 0, 0, 0, 0, 0, 0, 0, 0, 0, 0, 0,
     0, 0, 0, 0, 0, 0, 0, 0, 0, 0, 0, 0, 0, 0, 0, 0]

  /** The network magic every frame starts with. */
  predicate Magic(s: seq<Byte>) {
    |s| >= 4 && s[0] == 0xE3 && s[1] == 0xE1 && s[2] == 0xF3 && s[3] == 0xE8
  }

  /** The header of every frame version that is stamped (BRC-124 and its successors). */
  const HEADER: nat := 92

  /** 2^64, the modulus of the source's unsigned 64-bit counters. */
  const TWO64: int := 0x1_0000_0000_0000_0000

  /** The value a uint64 keeps of an integer. */
  function Wrap64(x: int): (r: nat)
    ensures r < TWO64
    ensures 0 <= x < TWO64 ==> r == x
  {
    x % 0x1_0000_0000_0000_0000
  }

  lemma Wrap64Back(x: int, n: int)
    ensures Wrap64(Wrap64(x + n) - n + 1) == Wrap64(x + 1)
    ensures Wrap64(Wrap64(x) + n) == Wrap64(x + n)
  {
    var q, p := (x + n) / TWO64, x / TWO64;
    assert Wrap64(x + n) - n + 1 == (x + 1) - q * TWO64;
    assert Wrap64(x) + n == (x + n) - p * TWO64;
  }

  /** Big-endian value of a byte string. */
  function BigEndian(s: seq<Byte>): (v: nat) {
    if s == [] then 0 else 256 * BigEndian(s[..|s| - 1]) + s[|s| - 1]
  }

  /** The low n bytes of v, big-endian. */
  function Put(v: nat, n: nat): (s: seq<Byte>)
    ensures |s| == n
  {
    if n == 0 then [] else Put(v / 256, n - 1) + [v % 256]
  }

  function Pow256(n: nat): nat {
    if n == 0 then 1 else 256 * Pow256(n - 1)
  }

  lemma {:induction false} PutBack(v: nat, n: nat)
    requires v < Pow256(n)
    ensures BigEndian(Put(v, n)) == v
  {
    if n > 0 {
      PutBack(v / 256, n - 1);
      assert Put(v, n)[..n - 1] == Put(v / 256, n - 1);
    }
  }

  /** A uint64 written to eight bytes reads back. */
  lemma Put64Back(v: nat)
    requires v < TWO64
    ensures BigEndian(Put(v, 8)) == v
  {
    assert Pow256(4) == 0x1_0000_0000;
    assert Pow256(8) == 256 * (256 * (256 * (256 * Pow256(4))));
    PutBack(v, 8);
  }

  datatype Option<+T> = None | Some(value: T)
}
