/** What every single-worker run of the pipeline keeps: the order of SeqNums and the honesty of the queue. */
module PipelineOrder {
  import opened Bytes
  import opened SeqSpace
  import opened Fragment
  import opened Stamping
  import opened Pipeline
  import Claims
  import Coalesce

  /** The SeqNums drawn on a flow, in queue order, a bridged copy not counted again. */
  function Numbers(queue: seq<Item>, f: Flow): seq<nat> {
    if queue == [] then []
    else
      Numbers(queue[..|queue| - 1], f) + Contributes(queue[|queue| - 1], f)
  }

  /** The flow's datagrams leave with 1, 2, 3, ... (as a 64-bit counter counts), and the counter stands at the last. */
  ghost predicate Ordered(counts: map<Flow, nat>, queue: seq<Item>, f: Flow) {
    && Numbers(queue, f) == Draws(0, |Numbers(queue, f)|)
    && Count(counts, f) == Wrap64(|Numbers(queue, f)|)
  }

  function Contributes(x: Item, f: Flow): seq<nat> {
    if !x.second && x.draw.Some? && x.draw.value.flow == f then [x.draw.value.seqNum] else []
  }

  lemma NumbersOne(queue: seq<Item>, x: Item, f: Flow)
    ensures Numbers(queue + [x], f) == Numbers(queue, f) + Contributes(x, f)
  {
    assert (queue + [x])[..|queue|] == queue;
  }

  lemma {:induction false} NumbersAppend(a: seq<Item>, b: seq<Item>, f: Flow)
    ensures Numbers(a + b, f) == Numbers(a, f) + Numbers(b, f)
  {
    hide Contributes;
    if b == [] {
      assert a + b == a;
    } else {
      NumbersAppend(a, b[..|b| - 1], f);
      assert (a + b)[..|a + b| - 1] == a + b[..|b| - 1];
    }
  }

  lemma DrawsJoin(n: nat, k: nat)
    ensures Draws(0, n) + Draws(Wrap64(n), k) == Draws(0, n + k)
    ensures Wrap64(Wrap64(n) + k) == Wrap64(n + k)
  {
    hide Wrap64;
    Wrap64Back(n, k);
    forall i: nat | i < k
      ensures NthDraw(Wrap64(n), i) == NthDraw(0, n + i)
    {
      Wrap64Back(n, 1 + i);
    }
  }

  /** Queueing k datagrams that carry the next k numbers of g keeps every flow in order. */
  lemma Extends(counts: map<Flow, nat>, queue: seq<Item>, items: seq<Item>, g: Flow, k: nat, f: Flow)
    requires Ordered(counts, queue, f)
    requires f == g ==> Numbers(items, g) == Draws(Count(counts, g), k)
    requires f != g ==> Numbers(items, f) == []
    ensures Ordered(Fragment.Advance(counts, g, k), queue + items, f)
  {
    hide Numbers, Draws, Wrap64;
    NumbersAppend(queue, items, f);
    var n := |Numbers(queue, f)|;
    if f == g {
      DrawsJoin(n, k);
      assert Numbers(queue + items, f) == Draws(0, n + k);
      assert k == 0 ==> n + k == n;
    } else {
      assert Numbers(queue + items, f) == Numbers(queue, f);
    }
  }

  // ----- Fragments -----

  function SeqNums(pieces: seq<Piece>): (ns: seq<nat>)
    ensures |ns| == |pieces|
  {
    seq(|pieces|, i requires 0 <= i < |pieces| => pieces[i].seqNum)
  }

  /** When every fragment encodes, the queue carries their numbers. */
  lemma {:induction false} PieceNumbers(enc: Encoder, p: Parcel, pieces: seq<Piece>, group: nat, f: Flow)
    ensures |PieceItems(enc, p, pieces, group)| <= |pieces|
    ensures
      var items := PieceItems(enc, p, pieces, group);
      && (f != p.flow ==> Numbers(items, f) == [])
      && (f == p.flow && |items| == |pieces| ==> Numbers(items, f) == SeqNums(pieces))
  {
    if pieces != [] {
      var k := |pieces| - 1;
      PieceNumbers(enc, p, pieces[..k], group, f);
      var before := PieceItems(enc, p, pieces[..k], group);
      if enc(pieces[k]).Some? {
        var item := PieceItem(p, pieces[k], enc(pieces[k]).value, group);
        NumbersOne(before, item, f);
      } else {
        assert PieceItems(enc, p, pieces, group) == before;
      }
    }
  }

  lemma PiecesCarry(p: Parcel, size: nat, key: nat, seqs: seq<nat>)
    ensures SeqNums(Pieces(p, size, key, seqs)) == seqs
  {
  }

  lemma SplitOrdered(cfg: Setup, s: Pipe, p: Plan, f: Flow)
    requires Splits(cfg, p) && Split(cfg, s, p).clean && Ordered(s.counts, s.queue, f)
    ensures s.clean && Ordered(Split(cfg, s, p).counts, Split(cfg, s, p).queue, f)
  {
    hide Ceil, Pieces, PieceItems, Numbers, Draws, Wrap64, Ordered, SeqNums;
    var g, parcel := p.flow.value, ParcelOf(p, p.flow.value);
    var k := Ceil(|p.payload|, cfg.fragSize);
    if k <= MAX_PIECES {
      var seqs := Draws(Count(s.counts, g), k);
      var pieces := Pieces(parcel, cfg.fragSize, cfg.hashKey(g), seqs);
      PiecesCarry(parcel, cfg.fragSize, cfg.hashKey(g), seqs);
      assert |pieces| == k by { assert |SeqNums(pieces)| == |pieces|; }
      PieceNumbers(cfg.enc, parcel, pieces, p.group, f);
      Extends(s.counts, s.queue, PieceItems(cfg.enc, parcel, pieces, p.group), g, k, f);
    }
  }

  // ----- Whole frames -----

  lemma WholeNumbers(p: Plan, raw: seq<Byte>, draw: Option<Draw>, bridge: Bridge, f: Flow)
    ensures Numbers(WholeItems(p, raw, draw, bridge), f)
         == if draw.Some? && draw.value.flow == f then [draw.value.seqNum] else []
  {
    hide Numbers;
    var items := WholeItems(p, raw, draw, bridge);
    if |items| == 1 {
      NumbersOfOne(items[0], f);
      assert items == [items[0]];
    } else {
      NumbersOfTwo(items[0], items[1], f);
      assert items == [items[0], items[1]];
    }
  }

  lemma NumbersOfOne(x: Item, f: Flow)
    ensures Numbers([x], f) == Contributes(x, f)
  {
    assert [x][..0] == [];
  }

  lemma NumbersOfTwo(x: Item, y: Item, f: Flow)
    ensures Numbers([x, y], f) == Contributes(x, f) + Contributes(y, f)
  {
    NumbersOfOne(x, f);
    assert [x, y][..1] == [x];
  }

  lemma StampOrdered(cfg: Setup, s: Pipe, p: Plan, bridge: Bridge, f: Flow)
    requires p.flow.Some? && Sound(p) && Ordered(s.counts, s.queue, f)
    ensures Ordered(StampWhole(cfg, s, p, bridge).counts, StampWhole(cfg, s, p, bridge).queue, f)
  {
    hide Numbers, WholeItems, SeqOf, KeyOf, Ordered, Wrap64, WithKey, WithSeq;
    var g := p.flow.value;
    var raw := Stamp(cfg.hashKey, cfg.stampSource, s.counts, p.raw, g).1;
    if SeqOf(p.raw) == 0 {
      var n := Wrap64(Count(s.counts, g) + 1);
      WholeNumbers(p, raw, Some(Draw(g, n)), bridge, f);
      assert Draws(Count(s.counts, g), 1) == [n];
      Extends(s.counts, s.queue, WholeItems(p, raw, Some(Draw(g, n)), bridge), g, 1, f);
    } else {
      WholeNumbers(p, raw, None, bridge, f);
      Extends(s.counts, s.queue, WholeItems(p, raw, None, bridge), g, 0, f);
    }
  }

  // ----- Bundles -----

  lemma {:induction false} BundleNumbers(enc: Coalesce.BundleEncoder, bs: seq<Coalesce.Bundle>, g: Flow, ns: seq<nat>, f: Flow)
    requires |ns| == |bs| && forall i | 0 <= i < |bs| :: bs[i].flow == g && bs[i].seqNum == ns[i]
    ensures Numbers(BundleItems(enc, bs), f) == if f == g then ns else []
  {
    if bs != [] {
      var k := |bs| - 1;
      BundleNumbers(enc, bs[..k], g, ns[..k], f);
      assert BundleItems(enc, bs)[..k] == BundleItems(enc, bs[..k]);
    }
  }

  lemma {:induction false} EncodableAll(enc: Coalesce.BundleEncoder, bs: seq<Coalesce.Bundle>)
    ensures |Coalesce.Encodable(enc, bs)| <= |bs|
    ensures |Coalesce.Encodable(enc, bs)| == |bs| ==> Coalesce.Encodable(enc, bs) == bs
  {
    if bs != [] {
      EncodableAll(enc, bs[..|bs| - 1]);
    }
  }

  lemma {:induction false} FlushBound(lim: Coalesce.Limits, hashKey: Flow -> nat, enc: Coalesce.BundleEncoder,
                                      buckets: seq<Coalesce.Bucket>, counts: map<Flow, nat>)
    requires lim.cap >= 1
    ensures |Coalesce.Flushed(lim, hashKey, enc, buckets, counts).0| <= PartsTotal(lim, buckets)
  {
    hide Coalesce.Pack, Coalesce.Encodable, Coalesce.Stamped;
    if buckets != [] {
      var b, before := buckets[|buckets| - 1], buckets[..|buckets| - 1];
      FlushBound(lim, hashKey, enc, before, counts);
      var mid := Coalesce.Flushed(lim, hashKey, enc, before, counts).1;
      EncodableAll(enc, Coalesce.Stamped(hashKey(b.flow), b.flow, Coalesce.Pack(lim, b.members), Count(mid, b.flow)));
    }
  }

  lemma StampedNumbers(enc: Coalesce.BundleEncoder, key: nat, g: Flow, parts: seq<seq<Coalesce.Member>>, drawn: nat, f: Flow)
    ensures Numbers(BundleItems(enc, Coalesce.Stamped(key, g, parts, drawn)), f) == if f == g then Draws(drawn, |parts|) else []
  {
    BundleNumbers(enc, Coalesce.Stamped(key, g, parts, drawn), g, Draws(drawn, |parts|), f);
  }

  lemma BundleItemsJoin(enc: Coalesce.BundleEncoder, a: seq<Coalesce.Bundle>, b: seq<Coalesce.Bundle>)
    ensures BundleItems(enc, a + b) == BundleItems(enc, a) + BundleItems(enc, b)
  {
  }

  lemma {:induction false} FlushOrdered(cfg: Setup, lim: Coalesce.Limits, queue: seq<Item>, counts: map<Flow, nat>,
                                        buckets: seq<Coalesce.Bucket>, f: Flow)
    requires lim.cap >= 1 && Ordered(counts, queue, f)
    requires |Coalesce.Flushed(lim, cfg.hashKey, cfg.bundleEnc, buckets, counts).0| == PartsTotal(lim, buckets)
    ensures
      var (bundles, after) := Coalesce.Flushed(lim, cfg.hashKey, cfg.bundleEnc, buckets, counts);
      Ordered(after, queue + BundleItems(cfg.bundleEnc, bundles), f)
  {
    hide Coalesce.Pack, Coalesce.Encodable, Coalesce.Stamped, Numbers, Ordered, BundleItems, Wrap64, Draws;
    var enc := cfg.bundleEnc;
    if buckets == [] {
      assert queue + BundleItems(enc, []) == queue;
    } else {
      var b, before := buckets[|buckets| - 1], buckets[..|buckets| - 1];
      var (out, mid) := Coalesce.Flushed(lim, cfg.hashKey, enc, before, counts);
      var parts := Coalesce.Pack(lim, b.members);
      var mine := Coalesce.Stamped(cfg.hashKey(b.flow), b.flow, parts, Count(mid, b.flow));
      FlushBound(lim, cfg.hashKey, enc, before, counts);
      EncodableAll(enc, mine);
      FlushOrdered(cfg, lim, queue, counts, before, f);
      StampedNumbers(enc, cfg.hashKey(b.flow), b.flow, parts, Count(mid, b.flow), f);
      Extends(mid, queue + BundleItems(enc, out), BundleItems(enc, mine), b.flow, |parts|, f);
      BundleItemsJoin(enc, out, mine);
      assert queue + (BundleItems(enc, out) + BundleItems(enc, mine)) == queue + BundleItems(enc, out) + BundleItems(enc, mine);
    }
  }

  // ----- Runs -----

  lemma EmitOrdered(cfg: Setup, s: Pipe, p: Plan, bridge: Bridge, f: Flow)
    requires Sound(p) && Ordered(s.counts, s.queue, f) && Emit(cfg, s, p, bridge).clean
    ensures s.clean && Ordered(Emit(cfg, s, p, bridge).counts, Emit(cfg, s, p, bridge).queue, f)
  {
    hide Ordered, Split, WholeItems, StampWhole;
    if p.flow.None? {
      WholeNumbers(p, p.raw, None, bridge, f);
      var g := Flow(f.ip, f.group + 1, f.sub);
      Extends(s.counts, s.queue, WholeItems(p, p.raw, None, bridge), g, 0, f);
    } else if Splits(cfg, p) {
      SplitOrdered(cfg, s, p, f);
    } else if !Bundles(cfg, p, bridge) {
      StampOrdered(cfg, s, p, bridge, f);
      assert StampWhole(cfg, s, p, bridge).clean == s.clean by { StampClean(cfg, s, p, bridge); }
    }
  }

  lemma StampClean(cfg: Setup, s: Pipe, p: Plan, bridge: Bridge)
    requires p.flow.Some? && Sound(p)
    ensures StampWhole(cfg, s, p, bridge).clean == s.clean
  {
    hide Stamp, WholeItems;
  }

  lemma StepOrdered(cfg: Setup, s: Pipe, e: Event, f: Flow)
    requires Ordered(s.counts, s.queue, f) && Handle(cfg, s, e).clean
    ensures s.clean && Ordered(Handle(cfg, s, e).counts, Handle(cfg, s, e).queue, f)
  {
    hide Ordered, Emit, PlanFor, BridgeOf, Coalesce.Flushed, PartsTotal, BundleItems;
    if e.BatchEnd? {
      FlushOrdered(cfg, LimitsOf(cfg), s.queue, s.counts, s.buckets, f);
    } else {
      var p, bridge := PlanFor(cfg, e), BridgeOf(e);
      if p.Some? {
        PlanForSound(cfg, e);
        var store := if p.value.key.None? then s.store else Claims.Claim(cfg.dedup, s.store, p.value.key.value).0;
        var t := s.(store := store);
        if p.value.key.None? || Claims.Claim(cfg.dedup, s.store, p.value.key.value).1 {
          EmitOrdered(cfg, t, p.value, bridge, f);
        }
      }
    }
  }

  lemma CleanBefore(cfg: Setup, s: Pipe, e: Event)
    requires Handle(cfg, s, e).clean
    ensures s.clean
  {
    hide Coalesce.Flushed, PartsTotal, BundleItems, PlanFor, BridgeOf, Stamp, WholeItems, Ceil, PieceItems;
  }

  /**
   In every run of one worker in which no encoding failed, the datagrams the proxy stamped on a flow
   leave the queue with SeqNums 1, 2, 3, ..., whole frames, fragments and bundles alike.
   */
  lemma {:induction false} EveryFlowLeavesInOrder(cfg: Setup, events: seq<Event>, f: Flow)
    requires Served(cfg, events).clean
    ensures Ordered(Served(cfg, events).counts, Served(cfg, events).queue, f)
  {
    if events != [] {
      hide Ordered, Handle;
      var s := Served(cfg, events[..|events| - 1]);
      CleanBefore(cfg, s, events[|events| - 1]);
      EveryFlowLeavesInOrder(cfg, events[..|events| - 1], f);
      StepOrdered(cfg, s, events[|events| - 1], f);
    }
  }

  // ----- What each datagram says of itself -----

  /** The number a datagram was given is the number it carries. */
  ghost predicate Honest(cfg: Setup, x: Item) {
    match x.form
    case Whole =>
      x.draw.Some? ==>
        && Stampable(x.data) && SeqOf(x.data) == x.draw.value.seqNum
        && (cfg.hashKey(x.draw.value.flow) < TWO64 ==> KeyOf(x.data) == cfg.hashKey(x.draw.value.flow))
    case Part(parcel, piece) =>
      && x.draw == Some(Draw(parcel.flow, piece.seqNum)) && piece.hashKey == cfg.hashKey(parcel.flow)
      && piece.id == parcel.id && cfg.enc(piece).Some? && x.data == Finish(parcel, cfg.enc(piece).value)
    case Pack(b) =>
      x.draw == Some(Draw(b.flow, b.seqNum)) && b.hashKey == cfg.hashKey(b.flow) && cfg.bundleEnc(b) == Some(x.data)
  }

  /** A second copy follows its first, with the same bytes and number, for another group. */
  ghost predicate Twinned(queue: seq<Item>) {
    forall j | 0 <= j < |queue| && queue[j].second ::
      && j > 0 && !queue[j - 1].second && queue[j - 1].group != queue[j].group
      && queue[j] == queue[j - 1].(group := queue[j].group, second := true)
  }

  ghost predicate Truthful(cfg: Setup, queue: seq<Item>) {
    Twinned(queue) && forall j | 0 <= j < |queue| :: Honest(cfg, queue[j])
  }

  lemma TruthfulJoin(cfg: Setup, a: seq<Item>, b: seq<Item>)
    requires Truthful(cfg, a) && Truthful(cfg, b)
    ensures Truthful(cfg, a + b)
  {
    hide Honest;
    forall j | 0 <= j < |a + b| && (a + b)[j].second
      ensures j > 0 && !(a + b)[j - 1].second && (a + b)[j - 1].group != (a + b)[j].group
      ensures (a + b)[j] == (a + b)[j - 1].(group := (a + b)[j].group, second := true)
    {
      if j >= |a| {
        assert b[j - |a|].second;
      }
    }
  }

  lemma {:induction false} PiecesTruthful(cfg: Setup, p: Parcel, pieces: seq<Piece>, group: nat)
    requires forall i | 0 <= i < |pieces| :: pieces[i].hashKey == cfg.hashKey(p.flow) && pieces[i].id == p.id
    ensures Truthful(cfg, PieceItems(cfg.enc, p, pieces, group))
  {
    if pieces != [] {
      var k := |pieces| - 1;
      PiecesTruthful(cfg, p, pieces[..k], group);
      if cfg.enc(pieces[k]).Some? {
        TruthfulJoin(cfg, PieceItems(cfg.enc, p, pieces[..k], group), [PieceItem(p, pieces[k], cfg.enc(pieces[k]).value, group)]);
      } else {
        assert PieceItems(cfg.enc, p, pieces, group) == PieceItems(cfg.enc, p, pieces[..k], group);
      }
    }
  }

  ghost predicate AllEncoded(cfg: Setup, bs: seq<Coalesce.Bundle>) {
    forall i | 0 <= i < |bs| :: cfg.bundleEnc(bs[i]).Some? && bs[i].hashKey == cfg.hashKey(bs[i].flow)
  }

  lemma EncodedJoin(cfg: Setup, a: seq<Coalesce.Bundle>, b: seq<Coalesce.Bundle>)
    requires AllEncoded(cfg, a) && AllEncoded(cfg, b)
    ensures AllEncoded(cfg, a + b)
  {
  }

  lemma {:induction false} EncodableBundles(cfg: Setup, bs: seq<Coalesce.Bundle>)
    requires forall i | 0 <= i < |bs| :: bs[i].hashKey == cfg.hashKey(bs[i].flow)
    ensures AllEncoded(cfg, Coalesce.Encodable(cfg.bundleEnc, bs))
  {
    if bs != [] {
      var k := |bs| - 1;
      EncodableBundles(cfg, bs[..k]);
      EncodedJoin(cfg, Coalesce.Encodable(cfg.bundleEnc, bs[..k]), if cfg.bundleEnc(bs[k]).Some? then [bs[k]] else []);
    }
  }

  lemma {:induction false} FlushedBundles(cfg: Setup, lim: Coalesce.Limits, buckets: seq<Coalesce.Bucket>, counts: map<Flow, nat>)
    requires lim.cap >= 1
    ensures AllEncoded(cfg, Coalesce.Flushed(lim, cfg.hashKey, cfg.bundleEnc, buckets, counts).0)
  {
    hide Coalesce.Pack, Coalesce.Encodable;
    if buckets != [] {
      var b, before := buckets[|buckets| - 1], buckets[..|buckets| - 1];
      FlushedBundles(cfg, lim, before, counts);
      var (out, mid) := Coalesce.Flushed(lim, cfg.hashKey, cfg.bundleEnc, before, counts);
      var mine := Coalesce.Stamped(cfg.hashKey(b.flow), b.flow, Coalesce.Pack(lim, b.members), Count(mid, b.flow));
      EncodableBundles(cfg, mine);
      hide AllEncoded;
      EncodedJoin(cfg, out, Coalesce.Encodable(cfg.bundleEnc, mine));
    }
  }

  lemma WholeTruthful(cfg: Setup, s: Pipe, p: Plan, bridge: Bridge)
    requires p.flow.Some? && Sound(p)
    ensures
      var f := p.flow.value;
      var raw := Stamp(cfg.hashKey, cfg.stampSource, s.counts, p.raw, f).1;
      var draw := if SeqOf(p.raw) == 0 then Some(Draw(f, Wrap64(Count(s.counts, f) + 1))) else None;
      Truthful(cfg, WholeItems(p, raw, draw, bridge))
  {
    hide SeqOf, KeyOf, WithKey, WithSeq;
    var f := p.flow.value;
    var key, n := cfg.hashKey(f), Wrap64(Count(s.counts, f) + 1);
    FieldsRead(WithKey(p.raw, key), 0, n);
    if key < TWO64 {
      FieldsRead(p.raw, key, n);
    }
  }

  lemma EmitTruthful(cfg: Setup, s: Pipe, p: Plan, bridge: Bridge)
    requires Sound(p) && Truthful(cfg, s.queue)
    ensures Truthful(cfg, Emit(cfg, s, p, bridge).queue)
  {
    hide Honest, Twinned, Truthful, Stamp, Ceil, SeqOf, WholeItems, PieceItems;
    if p.flow.None? {
      PlainTruthful(cfg, p, bridge);
      TruthfulJoin(cfg, s.queue, WholeItems(p, p.raw, None, bridge));
    } else if Splits(cfg, p) {
      var f, parcel, k := p.flow.value, ParcelOf(p, p.flow.value), Ceil(|p.payload|, cfg.fragSize);
      var pieces := Pieces(parcel, cfg.fragSize, cfg.hashKey(f), Draws(Count(s.counts, f), k));
      PiecesTruthful(cfg, parcel, pieces, p.group);
      TruthfulJoin(cfg, s.queue, PieceItems(cfg.enc, parcel, pieces, p.group));
    } else if !Bundles(cfg, p, bridge) {
      WholeTruthful(cfg, s, p, bridge);
      var f := p.flow.value;
      var raw := Stamp(cfg.hashKey, cfg.stampSource, s.counts, p.raw, f).1;
      var draw := if SeqOf(p.raw) == 0 then Some(Draw(f, Wrap64(Count(s.counts, f) + 1))) else None;
      TruthfulJoin(cfg, s.queue, WholeItems(p, raw, draw, bridge));
    }
  }

  lemma PlainTruthful(cfg: Setup, p: Plan, bridge: Bridge)
    ensures Truthful(cfg, WholeItems(p, p.raw, None, bridge))
  {
  }

  lemma BundlesTruthful(cfg: Setup, s: Pipe)
    ensures Truthful(cfg, BundleItems(cfg.bundleEnc, Coalesce.Flushed(LimitsOf(cfg), cfg.hashKey, cfg.bundleEnc, s.buckets, s.counts).0))
  {
    FlushedBundles(cfg, LimitsOf(cfg), s.buckets, s.counts);
    hide Coalesce.Flushed;
  }

  lemma HandleTruthful(cfg: Setup, s: Pipe, e: Event)
    requires Truthful(cfg, s.queue)
    ensures Truthful(cfg, Handle(cfg, s, e).queue)
  {
    hide Truthful, Emit, PlanFor, BridgeOf, Coalesce.Flushed, PartsTotal, BundleItems;
    if e.BatchEnd? {
      BundlesTruthful(cfg, s);
      TruthfulJoin(cfg, s.queue,
                   BundleItems(cfg.bundleEnc, Coalesce.Flushed(LimitsOf(cfg), cfg.hashKey, cfg.bundleEnc, s.buckets, s.counts).0));
    } else {
      var p, bridge := PlanFor(cfg, e), BridgeOf(e);
      if p.Some? {
        PlanForSound(cfg, e);
        if p.value.key.None? {
          EmitTruthful(cfg, s, p.value, bridge);
        } else {
          EmitTruthful(cfg, s.(store := Claims.Claim(cfg.dedup, s.store, p.value.key.value).0), p.value, bridge);
        }
      }
    }
  }

  /**
   In every run each queued datagram carries the number it was given, and a bridged second copy
   follows its first with the same bytes, to a different group.
   */
  lemma {:induction false} QueueIsTruthful(cfg: Setup, events: seq<Event>)
    ensures Truthful(cfg, Served(cfg, events).queue)
  {
    if events != [] {
      hide Truthful, Handle;
      QueueIsTruthful(cfg, events[..|events| - 1]);
      HandleTruthful(cfg, Served(cfg, events[..|events| - 1]), events[|events| - 1]);
    }
  }
}
