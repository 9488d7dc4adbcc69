/**
 HashKey and SeqNum stamping of a whole frame (forwarder/forwarder.go, stampInPlace): two 8-byte
 big-endian fields of the frame header, at offsets 40 and 48.
 */
module Stamping {
  import opened Bytes
  import opened SeqSpace
  import opened Fragment

  predicate Stampable(raw: seq<Byte>) {
    |raw| >= HEADER
  }

  function SeqOf(raw: seq<Byte>): nat
    requires Stampable(raw)
  {
    BigEndian(raw[48..56])
  }

  function KeyOf(raw: seq<Byte>): nat
    requires Stampable(raw)
  {
    BigEndian(raw[40..48])
  }

  function WithKey(raw: seq<Byte>, key: nat): (r: seq<Byte>)
    requires Stampable(raw)
    ensures |r| == |raw|
  {
    raw[..40] + Put(key, 8) + raw[48..]
  }

  function WithSeq(raw: seq<Byte>, seqNum: nat): (r: seq<Byte>)
    requires Stampable(raw)
    ensures |r| == |raw|
  {
    raw[..48] + Put(seqNum, 8) + raw[56..]
  }

  /** stampInPlace: a frame without a SeqNum draws one; a pre-stamped one draws none. */
  function Stamp(hashKey: Flow -> nat, own: bool, counts: map<Flow, nat>, raw: seq<Byte>, f: Flow)
    : (r: (map<Flow, nat>, seq<Byte>))
    requires Stampable(raw)
    ensures |r.1| == |raw|
  {
    if SeqOf(raw) == 0 then
      (Advance(counts, f, 1), WithSeq(WithKey(raw, hashKey(f)), Wrap64(Count(counts, f) + 1)))
    else if KeyOf(raw) == 0 || own then (counts, WithKey(raw, hashKey(f)))
    else (counts, raw)
  }

  /** The same frame but for the two stamped fields. */
  predicate OnlyStamped(data: seq<Byte>, raw: seq<Byte>) {
    |data| == |raw| && (data == raw || (Stampable(raw) && data[..40] == raw[..40] && data[56..] == raw[56..]))
  }

  lemma StampTouchesTwoFields(hashKey: Flow -> nat, own: bool, counts: map<Flow, nat>, raw: seq<Byte>, f: Flow)
    requires Stampable(raw)
    ensures OnlyStamped(Stamp(hashKey, own, counts, raw, f).1, raw)
  {
    hide SeqOf, KeyOf, Put, Wrap64;
    var key := WithKey(raw, hashKey(f));
    assert key[..40] == raw[..40] && key[56..] == raw[56..];
    var both := WithSeq(key, Wrap64(Count(counts, f) + 1));
    assert both[..40] == key[..40] && both[56..] == key[56..];
  }

  lemma FieldsRead(raw: seq<Byte>, key: nat, seqNum: nat)
    requires Stampable(raw) && key < TWO64 && seqNum < TWO64
    ensures KeyOf(WithKey(raw, key)) == key && SeqOf(WithKey(raw, key)) == SeqOf(raw)
    ensures SeqOf(WithSeq(raw, seqNum)) == seqNum && KeyOf(WithSeq(raw, seqNum)) == KeyOf(raw)
  {
    hide BigEndian, Put;
    Put64Back(key);
    Put64Back(seqNum);
    assert WithKey(raw, key)[40..48] == Put(key, 8) && WithKey(raw, key)[48..56] == raw[48..56];
    assert WithSeq(raw, seqNum)[48..56] == Put(seqNum, 8) && WithSeq(raw, seqNum)[40..48] == raw[40..48];
  }

  /**
   Stamping twice is stamping once: the second draws no number and changes no byte, unless the
   counter has wrapped to the value 0 that stands for "unstamped".
   */
  lemma RestampIffNotWrapped(hashKey: Flow -> nat, own: bool, counts: map<Flow, nat>, raw: seq<Byte>, f: Flow)
    requires Stampable(raw) && hashKey(f) < TWO64 && Count(counts, f) < TWO64
    ensures
      var (c1, r1) := Stamp(hashKey, own, counts, raw, f);
      Stamp(hashKey, own, c1, r1, f) == (c1, r1) <==> (SeqOf(raw) != 0 || Count(counts, f) < TWO64 - 1)
  {
    hide SeqOf, KeyOf, WithKey, WithSeq, Fragment.Advance;
    var key, n := hashKey(f), Wrap64(Count(counts, f) + 1);
    FieldsRead(raw, key, n);
    FieldsRead(WithKey(raw, key), key, n);
    KeyTwice(raw, key, n);
    AdvanceOne(counts, f);
  }

  lemma KeyTwice(raw: seq<Byte>, key: nat, seqNum: nat)
    requires Stampable(raw)
    ensures WithKey(WithKey(raw, key), key) == WithKey(raw, key)
    ensures
      var once := WithSeq(WithKey(raw, key), seqNum);
      WithKey(once, key) == once
  {
    hide Put;
    var once := WithSeq(WithKey(raw, key), seqNum);
    assert once[..40] == raw[..40] && once[40..48] == Put(key, 8);
  }

  lemma AdvanceOne(counts: map<Flow, nat>, f: Flow)
    requires Count(counts, f) < TWO64
    ensures
      var once := Fragment.Advance(counts, f, 1);
      && Wrap64(Count(counts, f) + 1) == (if Count(counts, f) == TWO64 - 1 then 0 else Count(counts, f) + 1)
      && (Count(counts, f) == TWO64 - 1 ==> Fragment.Advance(once, f, 1) != once)
  {
    if Count(counts, f) == TWO64 - 1 {
      assert Fragment.Advance(Fragment.Advance(counts, f, 1), f, 1)[f] == 1;
    }
  }

  /** binary.BigEndian.PutUint64 into raw[at..at+8]. */
  method PutUint64(raw: array<Byte>, at: nat, v: nat)
    requires at + 8 <= raw.Length
    modifies raw
    ensures raw[..] == old(raw[..at]) + Put(v, 8) + old(raw[at + 8..])
  {
    ghost var was := raw[..];
    var rest, n: nat := v, 8;
    while n > 0
      invariant n <= 8
      invariant raw[..at + n] == was[..at + n] && raw[at + 8..] == was[at + 8..]
      invariant Put(v, 8) == Put(rest, n) + raw[at + n..at + 8]
    {
      n := n - 1;
      raw[at + n] := rest % 256;
      rest := rest / 256;
    }
    assert raw[..] == raw[..at] + raw[at..at + 8] + raw[at + 8..];
  }

  method Uint64(raw: array<Byte>, at: nat) returns (v: nat)
    requires at + 8 <= raw.Length
    ensures v == BigEndian(raw[at..at + 8])
  {
    v := 0;
    for n := 0 to 8
      invariant v == BigEndian(raw[at..at + n])
    {
      assert raw[at..at + n + 1][..n] == raw[at..at + n];
      v := 256 * v + raw[at + n];
    }
  }

  method ReadStamp(raw: array<Byte>, n: nat) returns (key: nat, seqNum: nat)
    requires HEADER <= n <= raw.Length
    ensures key == KeyOf(raw[..n]) && seqNum == SeqOf(raw[..n])
  {
    hide BigEndian;
    key := Uint64(raw, 40);
    seqNum := Uint64(raw, 48);
    assert raw[48..56] == raw[..n][48..56] && raw[40..48] == raw[..n][40..48];
  }

  method PutKey(raw: array<Byte>, n: nat, key: nat)
    requires HEADER <= n <= raw.Length
    modifies raw
    ensures raw[..n] == WithKey(old(raw[..n]), key)
  {
    hide Put;
    PutUint64(raw, 40, key);
  }

  method PutSeq(raw: array<Byte>, n: nat, seqNum: nat)
    requires HEADER <= n <= raw.Length
    modifies raw
    ensures raw[..n] == WithSeq(old(raw[..n]), seqNum)
  {
    hide Put;
    PutUint64(raw, 48, seqNum);
  }

  /** stampInPlace on the first n bytes of a buffer, with own for the proxy's stampSource setting. */
  method StampInPlace(chains: Chains, own: bool, raw: array<Byte>, n: nat, f: Flow)
    requires chains.Valid() && HEADER <= n <= raw.Length
    modifies chains, chains.cells, raw
    ensures chains.Valid() && fresh(chains.cells - old(chains.cells))
    ensures (chains.counts, raw[..n]) == Stamp(chains.hashKey, own, old(chains.counts), old(raw[..n]), f)
  {
    hide BigEndian, Put, Wrap64, Chains.Valid, SeqOf, KeyOf, WithKey, WithSeq;
    var preHash, preSeq := ReadStamp(raw, n);
    if preSeq == 0 {
      var key, seqNum := chains.NextSeq(f);
      PutKey(raw, n, key);
      PutSeq(raw, n, seqNum);
    } else if preHash == 0 || own {
      PutKey(raw, n, chains.hashKey(f));
    }
  }
}
