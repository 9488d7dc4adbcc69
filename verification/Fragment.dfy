/**
 BRC-130 fragmentation (forwarder/forwarder.go fragment, fragmentBlock,
 fragmentSubtreeData; forwarder/beef.go fragmentBEEF).

 The four loops differ only in the identifiers, the version and byte 7 they put in
 the fragment header, so one parcel type carries those and one method runs the loop.
 */
module Fragment {
  import opened Bytes
  import opened SeqSpace

  /** IPv6 (section 3 of RFC 8200) and UDP (RFC 768) headers below every datagram. */
  const IP_UDP: nat := 40 + 8
  /** The BRC-130 header. */
  const FRAG_HEADER: nat := 104
  /** FragTotal is 16 bits wide. */
  const MAX_PIECES: nat := 65535

  /** SetFragMTU: payload bytes per fragment, 0 when fragmentation is off. */
  function DataSize(mtu: int): nat {
    if mtu > IP_UDP + FRAG_HEADER then mtu - (IP_UDP + FRAG_HEADER) else 0
  }

  datatype Kind = Tx | Block | Subtree | Beef

  /** What the four loops are handed: sub is a SubtreeID or TopicID, byte7 the MsgType or DeliverCount. */
  datatype Parcel = Parcel(kind: Kind, id: Hash, sub: Hash, byte7: Byte, flow: Flow, payload: seq<Byte>)

  datatype Piece = Piece(id: Hash, slot: Hash, hashKey: nat, seqNum: nat, origLen: nat,
                         index: nat, total: nat, version: Byte, data: seq<Byte>)

  /** EncodeFragment, kept abstract: None is its error return. */
  type Encoder = Piece -> Option<seq<Byte>>

  /** The codec law: EncodeFragment writes the header and the data. */
  ghost predicate Sized(enc: Encoder) {
    forall p: Piece :: enc(p).Some? ==> |enc(p).value| == FRAG_HEADER + |p.data|
  }

  /** A datagram as it is queued, with the group it goes to. */
  datatype Wire = Wire(data: seq<Byte>, group: nat)

  function ToGroup(raws: seq<seq<Byte>>, group: nat): (ws: seq<Wire>)
    ensures |ws| == |raws|
  {
    seq(|raws|, i requires 0 <= i < |raws| => Wire(raws[i], group))
  }

  /** The second identifier slot of the header: only transactions and BEEF objects fill it. */
  function Slot(p: Parcel): Hash {
    if p.kind == Tx || p.kind == Beef then p.sub else ZERO_HASH
  }

  /** OrigFrameVer; 0 stands for the default. */
  function Version(k: Kind): Byte {
    match k
    case Tx => 0
    case Block => 4
    case Subtree => 5
    case Beef => 9
  }

  function Ceil(len: nat, size: nat): nat
    requires size >= 1
  {
    (len + size - 1) / size
  }

  lemma Scales(a: nat, b: nat, size: nat)
    requires a <= b
    ensures a * size <= b * size
  {
    assert (b - a) * size >= 0;
  }

  /** The ceiling: as few pieces as hold the payload. */
  lemma CeilIsLeast(len: nat, size: nat)
    requires size >= 1
    ensures len <= Ceil(len, size) * size
    ensures if len > 0 then (Ceil(len, size) - 1) * size < len else Ceil(len, size) == 0
  {
    var k := Ceil(len, size);
    assert k * size == len + size - 1 - (len + size - 1) % size;
    assert (k - 1) * size == k * size - size;
  }

  lemma PieceBounds(len: nat, size: nat, i: nat)
    requires size >= 1 && i < Ceil(len, size)
    ensures i * size < len
    ensures i + 1 < Ceil(len, size) ==> (i + 1) * size < len
  {
    CeilIsLeast(len, size);
    hide Ceil;
    Scales(i, Ceil(len, size) - 1, size);
    if i + 1 < Ceil(len, size) {
      Scales(i + 1, Ceil(len, size) - 1, size);
    }
  }

  /** size bytes from start, or up to the end. */
  function Slice(payload: seq<Byte>, size: nat, start: nat): seq<Byte> {
    var end := if start + size > |payload| then |payload| else start + size;
    if start <= end then payload[start..end] else []
  }

  function PieceOf(p: Parcel, size: nat, i: nat, k: nat, hashKey: nat, seqNum: nat): Piece {
    Piece(p.id, Slot(p), hashKey, seqNum, |p.payload| % 0x1_0000_0000, i % 0x1_0000, k % 0x1_0000,
          Version(p.kind), Slice(p.payload, size, i * size))
  }

  /** The first n fragments of a parcel, stamped with the given SeqNums. */
  function Cut(p: Parcel, size: nat, k: nat, hashKey: nat, seqs: seq<nat>): (ps: seq<Piece>)
    ensures |ps| == |seqs|
  {
    seq(|seqs|, i requires 0 <= i < |seqs| => PieceOf(p, size, i, k, hashKey, seqs[i]))
  }

  function Pieces(p: Parcel, size: nat, hashKey: nat, seqs: seq<nat>): seq<Piece> {
    Cut(p, size, |seqs|, hashKey, seqs)
  }

  /** Byte 7 of an encoded fragment: all but transactions carry it through. */
  function Finish(p: Parcel, raw: seq<Byte>): seq<Byte> {
    if p.kind != Tx && |raw| > 7 then raw[7 := p.byte7] else raw
  }

  /** The datagrams of the pieces that encode, in order. */
  function Encoded(enc: Encoder, p: Parcel, pieces: seq<Piece>): seq<seq<Byte>> {
    if pieces == [] then []
    else
      var last := enc(pieces[|pieces| - 1]);
      Encoded(enc, p, pieces[..|pieces| - 1]) + if last.Some? then [Finish(p, last.value)] else []
  }

  /** What fragmenting puts on the queue, and how many SeqNums it draws. */
  function Fragmented(enc: Encoder, p: Parcel, size: nat, hashKey: nat, drawn: nat): (seq<seq<Byte>>, nat)
    requires size >= 1
  {
    var k := Ceil(|p.payload|, size);
    if k > MAX_PIECES then ([], 0)
    else (Encoded(enc, p, Pieces(p, size, hashKey, Draws(drawn, k))), k)
  }

  lemma OneMorePiece(enc: Encoder, p: Parcel, size: nat, hashKey: nat, drawn: nat, k: nat, i: nat)
    requires i < k
    ensures
      var all, raw := Pieces(p, size, hashKey, Draws(drawn, k)), enc(PieceOf(p, size, i, k, hashKey, Wrap64(drawn + 1 + i)));
      && |all| == k
      && Encoded(enc, p, all[..i + 1]) == Encoded(enc, p, all[..i]) + if raw.Some? then [Finish(p, raw.value)] else []
  {
    hide Finish, PieceOf;
    var all := Pieces(p, size, hashKey, Draws(drawn, k));
    assert all[..i + 1][..i] == all[..i];
  }

  lemma NothingYet(enc: Encoder, p: Parcel, size: nat, hashKey: nat, drawn: nat, k: nat)
    ensures |Pieces(p, size, hashKey, Draws(drawn, k))| == k
    ensures Encoded(enc, p, []) == []
  {
  }

  /** The flow counters after n draws on one flow. */
  function Advance(counts: map<Flow, nat>, f: Flow, n: nat): map<Flow, nat> {
    if n == 0 then counts else counts[f := Wrap64(Count(counts, f) + n)]
  }

  /** The fragment loop: a SeqNum per piece from the parcel's flow, an undecodable piece skipped. */
  method FragmentParcel(chains: Chains, enc: Encoder, p: Parcel, size: nat) returns (queued: seq<seq<Byte>>)
    requires chains.Valid() && size >= 1
    modifies chains, chains.cells
    ensures chains.Valid() && fresh(chains.cells - old(chains.cells))
    ensures
      var (out, n) := Fragmented(enc, p, size, chains.hashKey(p.flow), old(chains.Drawn(p.flow)));
      && queued == out
      && chains.counts == Advance(old(chains.counts), p.flow, n)
  {
    hide Ceil, Finish, PieceOf, Wrap64, Chains.Valid, Encoded, Draws, Pieces;
    queued := [];
    var k := Ceil(|p.payload|, size);
    if k > MAX_PIECES {
      return;
    }
    ghost var drawn := chains.Drawn(p.flow);
    ghost var key := chains.hashKey(p.flow);
    ghost var all := Pieces(p, size, key, Draws(drawn, k));
    NothingYet(enc, p, size, key, drawn, k);
    for i := 0 to k
      invariant chains.Valid() && fresh(chains.cells - old(chains.cells))
      invariant chains.counts == Advance(old(chains.counts), p.flow, i)
      invariant queued == Encoded(enc, p, all[..i])
    {
      var hashKey, seqNum := chains.NextSeq(p.flow);
      Wrap64Back(drawn + i, 1);
      OneMorePiece(enc, p, size, key, drawn, k, i);
      var raw := enc(PieceOf(p, size, i, k, hashKey, seqNum));
      if raw.Some? {
        queued := queued + [Finish(p, raw.value)];
      }
    }
    assert all[..k] == all;
  }

  // ----- Reassembly -----

  /** The data of the first fragment with the given index. */
  function DataAt(arrived: seq<Piece>, i: nat): seq<Byte> {
    if arrived == [] then []
    else if arrived[0].index == i then arrived[0].data
    else DataAt(arrived[1..], i)
  }

  /** Joins the pieces from index i on. */
  function Rebuild(arrived: seq<Piece>, total: nat, i: nat): seq<Byte>
    decreases total - i
  {
    if i >= total then [] else DataAt(arrived, i) + Rebuild(arrived, total, i + 1)
  }

  lemma {:induction false} DataAtFinds(arrived: seq<Piece>, i: nat, x: Piece)
    requires x in arrived && x.index == i
    requires forall y <- arrived :: y.index == i ==> y == x
    ensures DataAt(arrived, i) == x.data
  {
    if arrived[0].index != i {
      assert forall y <- arrived[1..] :: y in arrived;
      DataAtFinds(arrived[1..], i, x);
    } else {
      assert arrived[0] in arrived;
    }
  }

  lemma IndexNames(p: Parcel, size: nat, hashKey: nat, seqs: seq<nat>, i: nat)
    requires |seqs| <= MAX_PIECES && i < |seqs|
    ensures Pieces(p, size, hashKey, seqs)[i].index == i
    ensures Pieces(p, size, hashKey, seqs)[i].total == |seqs|
  {
  }

  lemma SliceJoins(payload: seq<Byte>, size: nat, start: nat)
    requires start <= |payload|
    ensures start + size <= |payload| ==> Slice(payload, size, start) + payload[start + size..] == payload[start..]
    ensures start + size >= |payload| ==> Slice(payload, size, start) == payload[start..]
  {
  }

  lemma {:induction false} RebuildFrom(p: Parcel, size: nat, hashKey: nat, seqs: seq<nat>, arrived: seq<Piece>, i: nat)
    requires size >= 1 && |seqs| == Ceil(|p.payload|, size) <= MAX_PIECES && i < |seqs|
    requires forall x :: x in arrived <==> x in Pieces(p, size, hashKey, seqs)
    ensures i * size <= |p.payload|
    ensures Rebuild(arrived, |seqs|, i) == p.payload[i * size..]
    decreases |seqs| - i
  {
    var all := Pieces(p, size, hashKey, seqs);
    IndexNames(p, size, hashKey, seqs, i);
    forall y | y in arrived && y.index == i
      ensures y == all[i]
    {
      var j :| 0 <= j < |all| && all[j] == y;
      IndexNames(p, size, hashKey, seqs, j);
    }
    assert all[i] in all;
    DataAtFinds(arrived, i, all[i]);
    PieceBounds(|p.payload|, size, i);
    CeilIsLeast(|p.payload|, size);
    SliceJoins(p.payload, size, i * size);
    assert (i + 1) * size == i * size + size;
    if i + 1 < |seqs| {
      RebuildFrom(p, size, hashKey, seqs, arrived, i + 1);
    }
  }

  /** In any order, and with any repeats, the fragments rebuild the payload. */
  lemma AnyArrivalRebuilds(p: Parcel, size: nat, hashKey: nat, seqs: seq<nat>, arrived: seq<Piece>)
    requires size >= 1 && |seqs| == Ceil(|p.payload|, size) <= MAX_PIECES
    requires forall x :: x in arrived <==> x in Pieces(p, size, hashKey, seqs)
    ensures Rebuild(arrived, |seqs|, 0) == p.payload
  {
    if p.payload != [] {
      PieceCount(|p.payload|, size);
      RebuildFrom(p, size, hashKey, seqs, arrived, 0);
      assert p.payload[0..] == p.payload;
    } else {
      CeilIsLeast(0, size);
    }
  }

  lemma PieceCount(len: nat, size: nat)
    requires size >= 1
    ensures Ceil(len, size) == 0 <==> len == 0
    ensures len > size ==> Ceil(len, size) >= 2
  {
    CeilIsLeast(len, size);
  }

  /** A permutation is such an arrival. */
  lemma PermutationRebuilds(p: Parcel, size: nat, hashKey: nat, seqs: seq<nat>, arrived: seq<Piece>)
    requires size >= 1 && |seqs| == Ceil(|p.payload|, size) <= MAX_PIECES
    requires multiset(arrived) == multiset(Pieces(p, size, hashKey, seqs))
    ensures Rebuild(arrived, |seqs|, 0) == p.payload
  {
    var all := Pieces(p, size, hashKey, seqs);
    forall x
      ensures x in arrived <==> x in all
    {
      assert x in arrived <==> x in multiset(arrived);
      assert x in all <==> x in multiset(all);
    }
    AnyArrivalRebuilds(p, size, hashKey, seqs, arrived);
  }

  /** Every fragment is a non-empty datagram that fits the path, carries its parcel's ids and names its place. */
  lemma PiecesFitThePath(p: Parcel, mtu: int, hashKey: nat, seqs: seq<nat>, i: nat)
    requires DataSize(mtu) >= 1 && |seqs| == Ceil(|p.payload|, DataSize(mtu)) <= MAX_PIECES && i < |seqs|
    ensures
      var x := Pieces(p, DataSize(mtu), hashKey, seqs)[i];
      && x.data != [] && IP_UDP + FRAG_HEADER + |x.data| <= mtu
      && x.id == p.id && x.seqNum == seqs[i] && x.index == i && x.total == |seqs|
      && (i + 1 < |seqs| ==> IP_UDP + FRAG_HEADER + |x.data| == mtu)
      && (|p.payload| < 0x1_0000_0000 ==> x.origLen == |p.payload|)
  {
    IndexNames(p, DataSize(mtu), hashKey, seqs, i);
    PieceBounds(|p.payload|, DataSize(mtu), i);
    assert (i + 1) * DataSize(mtu) == i * DataSize(mtu) + DataSize(mtu);
  }

  /** Without an encoding failure every piece is queued, in index order, with byte 7 where it is carried. */
  lemma {:induction false} AllPiecesQueued(enc: Encoder, p: Parcel, pieces: seq<Piece>)
    requires forall x <- pieces :: enc(x).Some?
    ensures |Encoded(enc, p, pieces)| == |pieces|
    ensures forall i | 0 <= i < |pieces| :: Encoded(enc, p, pieces)[i] == Finish(p, enc(pieces[i]).value)
  {
    if pieces != [] {
      var k := |pieces| - 1;
      assert pieces[k] in pieces;
      assert forall x <- pieces[..k] :: x in pieces;
      AllPiecesQueued(enc, p, pieces[..k]);
    }
  }

  /** Past 65535 pieces a payload emits nothing and draws nothing; the limit is met exactly up to 65535 full pieces. */
  lemma OverflowDrawsNothing(enc: Encoder, p: Parcel, size: nat, hashKey: nat, drawn: nat)
    requires size >= 1
    ensures |p.payload| > MAX_PIECES * size ==> Fragmented(enc, p, size, hashKey, drawn) == ([], 0)
    ensures |p.payload| <= MAX_PIECES * size ==> Fragmented(enc, p, size, hashKey, drawn).1 == Ceil(|p.payload|, size) <= MAX_PIECES
  {
    hide Encoded, Pieces, Draws;
    CeilIsLeast(|p.payload|, size);
    var k := Ceil(|p.payload|, size);
    hide Ceil;
    if k > MAX_PIECES {
      Scales(MAX_PIECES, k - 1, size);
    } else {
      Scales(k, MAX_PIECES, size);
    }
  }

  predicate AllEncode(enc: Encoder, pieces: seq<Piece>) {
    forall i | 0 <= i < |pieces| :: enc(pieces[i]).Some?
  }

  predicate NoneEncodes(enc: Encoder, pieces: seq<Piece>) {
    forall i | 0 <= i < |pieces| :: enc(pieces[i]).None?
  }

  lemma {:induction false} EncodedCount(enc: Encoder, p: Parcel, pieces: seq<Piece>)
    ensures |Encoded(enc, p, pieces)| <= |pieces|
    ensures Encoded(enc, p, pieces) == [] <==> NoneEncodes(enc, pieces)
  {
    if pieces != [] {
      var k := |pieces| - 1;
      EncodedCount(enc, p, pieces[..k]);
      assert forall i | 0 <= i < k :: pieces[..k][i] == pieces[i];
      if NoneEncodes(enc, pieces[..k]) && enc(pieces[k]).None? {
        forall i | 0 <= i < |pieces|
          ensures enc(pieces[i]).None?
        {
          assert i < k ==> pieces[..k][i] == pieces[i];
        }
      }
    }
  }

  lemma {:induction false} EncodedFits(enc: Encoder, p: Parcel, pieces: seq<Piece>, mtu: int)
    requires Sized(enc) && forall i | 0 <= i < |pieces| :: IP_UDP + FRAG_HEADER + |pieces[i].data| <= mtu
    ensures forall i | 0 <= i < |Encoded(enc, p, pieces)| :: IP_UDP + |Encoded(enc, p, pieces)[i]| <= mtu
  {
    if pieces != [] {
      var k := |pieces| - 1;
      EncodedFits(enc, p, pieces[..k], mtu);
      var before := Encoded(enc, p, pieces[..k]);
      assert Encoded(enc, p, pieces) == before + if enc(pieces[k]).Some? then [Finish(p, enc(pieces[k]).value)] else [];
    }
  }

  /** Every datagram a parcel is cut into fits the path it was cut for, headers included. */
  lemma FragmentsFitThePath(enc: Encoder, p: Parcel, mtu: int, hashKey: nat, drawn: nat)
    requires Sized(enc) && DataSize(mtu) >= 1
    ensures
      var out := Fragmented(enc, p, DataSize(mtu), hashKey, drawn).0;
      forall i | 0 <= i < |out| :: IP_UDP + |out[i]| <= mtu
  {
    hide Ceil, Encoded, Draws, PieceOf;
    var k := Ceil(|p.payload|, DataSize(mtu));
    if k <= MAX_PIECES {
      var pieces := Pieces(p, DataSize(mtu), hashKey, Draws(drawn, k));
      forall i | 0 <= i < k
        ensures IP_UDP + FRAG_HEADER + |pieces[i].data| <= mtu
      {
        PiecesFitThePath(p, mtu, hashKey, Draws(drawn, k), i);
      }
      EncodedFits(enc, p, pieces, mtu);
    }
  }
}
