/** Every fragment and bundle a worker queues fits the path (SetFragMTU, SetCoalesce and process in forwarder/forwarder.go). */
module PipelineSizes {
  import opened Bytes
  import opened SeqSpace
  import opened Fragment
  import opened Stamping
  import opened Pipeline
  import Claims
  import Coalesce

  /** A set-up made by SetFragMTU(mtu) and SetCoalesce(.., maxBytes, ..), with codecs that write what they announce. */
  ghost predicate Configured(cfg: Setup, mtu: int, maxBytes: int) {
    && cfg.fragSize == DataSize(mtu) && cfg.budget == Coalesce.BodyBudget(maxBytes)
    && Sized(cfg.enc) && Coalesce.SizedBundles(cfg.overhead, cfg.bundleEnc)
  }

  predicate Fitting(x: Item, mtu: int, maxBytes: int) {
    match x.form
    case Whole => true
    case Part(_, _) => IP_UDP + |x.data| <= mtu
    case Pack(_) => IP_UDP + |x.data| <= Coalesce.Mtu(maxBytes)
  }

  predicate AllFitting(items: seq<Item>, mtu: int, maxBytes: int) {
    forall i | 0 <= i < |items| :: Fitting(items[i], mtu, maxBytes)
  }

  predicate EligibleMembers(cfg: Setup, ms: seq<Coalesce.Member>) {
    forall i | 0 <= i < |ms| :: Coalesce.Eligible(cfg.overhead, cfg.budget, ms[i].tx)
  }

  /** Whatever is buffered passed the gate of process. */
  predicate AllEligible(cfg: Setup, buckets: seq<Coalesce.Bucket>) {
    forall i | 0 <= i < |buckets| :: EligibleMembers(cfg, buckets[i].members)
  }

  lemma {:induction false} AddEligible(cfg: Setup, buckets: seq<Coalesce.Bucket>, f: Flow, m: Coalesce.Member)
    requires AllEligible(cfg, buckets) && Coalesce.Eligible(cfg.overhead, cfg.budget, m.tx)
    ensures AllEligible(cfg, Coalesce.AddTo(buckets, f, m))
  {
    if buckets != [] && buckets[0].flow != f {
      AddEligible(cfg, buckets[1..], f, m);
    }
  }

  lemma PartsFit(cfg: Setup, maxBytes: int, ms: seq<Coalesce.Member>, i: nat)
    requires cfg.budget == Coalesce.BodyBudget(maxBytes) && EligibleMembers(cfg, ms) && i < |Coalesce.Pack(LimitsOf(cfg), ms)|
    ensures IP_UDP + Coalesce.BodySize(cfg.overhead, Coalesce.Pack(LimitsOf(cfg), ms)[i]) <= Coalesce.Mtu(maxBytes)
  {
    hide Coalesce.Pack, Coalesce.BodySize;
    var part := Coalesce.Pack(LimitsOf(cfg), ms)[i];
    assert part in Coalesce.Pack(LimitsOf(cfg), ms);
    Coalesce.BundlesFitTheMtu(cfg.overhead, maxBytes, Coalesce.MemberCap(cfg.cap), ms, part);
  }

  predicate BodiesFit(cfg: Setup, maxBytes: int, bs: seq<Coalesce.Bundle>) {
    forall i | 0 <= i < |bs| ::
      && cfg.bundleEnc(bs[i]).Some?
      && IP_UDP + Coalesce.BodySize(cfg.overhead, bs[i].members) <= Coalesce.Mtu(maxBytes)
  }

  lemma BodiesJoin(cfg: Setup, maxBytes: int, a: seq<Coalesce.Bundle>, b: seq<Coalesce.Bundle>)
    requires BodiesFit(cfg, maxBytes, a) && BodiesFit(cfg, maxBytes, b)
    ensures BodiesFit(cfg, maxBytes, a + b)
  {
    hide Coalesce.BodySize;
  }

  lemma {:induction false} EncodableFit(cfg: Setup, maxBytes: int, bs: seq<Coalesce.Bundle>)
    requires forall i | 0 <= i < |bs| ::
               IP_UDP + Coalesce.BodySize(cfg.overhead, bs[i].members) <= Coalesce.Mtu(maxBytes)
    ensures BodiesFit(cfg, maxBytes, Coalesce.Encodable(cfg.bundleEnc, bs))
  {
    hide Coalesce.BodySize;
    if bs != [] {
      var k := |bs| - 1;
      EncodableFit(cfg, maxBytes, bs[..k]);
      BodiesJoin(cfg, maxBytes, Coalesce.Encodable(cfg.bundleEnc, bs[..k]),
                 if cfg.bundleEnc(bs[k]).Some? then [bs[k]] else []);
    }
  }

  lemma {:induction false} FlushedFit(cfg: Setup, maxBytes: int, buckets: seq<Coalesce.Bucket>, counts: map<Flow, nat>)
    requires cfg.budget == Coalesce.BodyBudget(maxBytes) && AllEligible(cfg, buckets)
    ensures BodiesFit(cfg, maxBytes, Coalesce.Flushed(LimitsOf(cfg), cfg.hashKey, cfg.bundleEnc, buckets, counts).0)
  {
    hide Coalesce.Pack, Coalesce.Encodable, Coalesce.BodySize, BodiesFit, EligibleMembers;
    if buckets == [] {
      NoBodies(cfg, maxBytes);
    } else {
      var k, lim := |buckets| - 1, LimitsOf(cfg);
      var b, before := buckets[k], buckets[..k];
      FlushedFit(cfg, maxBytes, before, counts);
      var (out, mid) := Coalesce.Flushed(lim, cfg.hashKey, cfg.bundleEnc, before, counts);
      var parts := Coalesce.Pack(lim, b.members);
      var mine := Coalesce.Stamped(cfg.hashKey(b.flow), b.flow, parts, Count(mid, b.flow));
      forall i | 0 <= i < |mine|
        ensures IP_UDP + Coalesce.BodySize(cfg.overhead, mine[i].members) <= Coalesce.Mtu(maxBytes)
      {
        PartsFit(cfg, maxBytes, b.members, i);
      }
      EncodableFit(cfg, maxBytes, mine);
      BodiesJoin(cfg, maxBytes, out, Coalesce.Encodable(cfg.bundleEnc, mine));
    }
  }

  lemma NoBodies(cfg: Setup, maxBytes: int)
    ensures BodiesFit(cfg, maxBytes, [])
  {
  }

  // ----- Runs -----

  ghost predicate FitInv(cfg: Setup, mtu: int, maxBytes: int, s: Pipe) {
    AllEligible(cfg, s.buckets) && AllFitting(s.queue, mtu, maxBytes)
  }

  lemma SplitFits(cfg: Setup, mtu: int, maxBytes: int, s: Pipe, p: Plan)
    requires Configured(cfg, mtu, maxBytes) && Splits(cfg, p) && FitInv(cfg, mtu, maxBytes, s)
    ensures FitInv(cfg, mtu, maxBytes, Split(cfg, s, p))
  {
    hide Ceil, PieceItems, Pieces, Draws, Encoded, AllEligible;
    var f, parcel, k := p.flow.value, ParcelOf(p, p.flow.value), Ceil(|p.payload|, cfg.fragSize);
    if k <= MAX_PIECES {
      var pieces := Pieces(parcel, cfg.fragSize, cfg.hashKey(f), Draws(Count(s.counts, f), k));
      var items := PieceItems(cfg.enc, parcel, pieces, p.group);
      FragmentsFitThePath(cfg.enc, parcel, mtu, cfg.hashKey(f), Count(s.counts, f));
      WiresOfPieces(cfg.enc, parcel, pieces, p.group);
      forall i | 0 <= i < |items|
        ensures Fitting(items[i], mtu, maxBytes)
      {
        assert Wires(items)[i].data == items[i].data;
        PieceItemsAreParts(cfg.enc, parcel, pieces, p.group, i);
      }
    }
  }

  lemma {:induction false} PieceItemsAreParts(enc: Encoder, p: Parcel, pieces: seq<Piece>, group: nat, i: nat)
    requires i < |PieceItems(enc, p, pieces, group)|
    ensures PieceItems(enc, p, pieces, group)[i].form.Part?
  {
    var before := PieceItems(enc, p, pieces[..|pieces| - 1], group);
    if i < |before| {
      PieceItemsAreParts(enc, p, pieces[..|pieces| - 1], group, i);
    }
  }

  lemma EmitFits(cfg: Setup, mtu: int, maxBytes: int, s: Pipe, p: Plan, bridge: Bridge)
    requires Configured(cfg, mtu, maxBytes) && Sound(p) && FitInv(cfg, mtu, maxBytes, s)
    ensures FitInv(cfg, mtu, maxBytes, Emit(cfg, s, p, bridge))
  {
    hide Split, Stamp, SeqOf, Coalesce.AddTo, AllEligible;
    if Splits(cfg, p) {
      SplitFits(cfg, mtu, maxBytes, s, p);
    } else if Bundles(cfg, p, bridge) {
      AddEligible(cfg, s.buckets, p.flow.value, Coalesce.Member(p.id, p.payload));
    }
  }

  lemma FlushFits(cfg: Setup, mtu: int, maxBytes: int, s: Pipe)
    requires Configured(cfg, mtu, maxBytes) && FitInv(cfg, mtu, maxBytes, s)
    ensures FitInv(cfg, mtu, maxBytes, EndBatch(cfg, s))
  {
    hide PartsTotal;
    FlushedFit(cfg, maxBytes, s.buckets, s.counts);
    hide Coalesce.Flushed, Coalesce.BodySize;
    var bundles := Coalesce.Flushed(LimitsOf(cfg), cfg.hashKey, cfg.bundleEnc, s.buckets, s.counts).0;
    assert AllFitting(BundleItems(cfg.bundleEnc, bundles), mtu, maxBytes);
  }

  lemma HandleFits(cfg: Setup, mtu: int, maxBytes: int, s: Pipe, e: Event)
    requires Configured(cfg, mtu, maxBytes) && FitInv(cfg, mtu, maxBytes, s)
    ensures FitInv(cfg, mtu, maxBytes, Handle(cfg, s, e))
  {
    hide Emit, PlanFor, BridgeOf, EndBatch, Configured, AllEligible, AllFitting;
    if e.BatchEnd? {
      FlushFits(cfg, mtu, maxBytes, s);
    } else {
      var p, bridge := PlanFor(cfg, e), BridgeOf(e);
      if p.Some? {
        PlanForSound(cfg, e);
        if p.value.key.None? {
          EmitFits(cfg, mtu, maxBytes, s, p.value, bridge);
        } else {
          EmitFits(cfg, mtu, maxBytes, s.(store := Claims.Claim(cfg.dedup, s.store, p.value.key.value).0), p.value, bridge);
        }
      }
    }
  }

  /**
   In every run each fragment queued, with its IPv6 and UDP headers, fits the fragmentation MTU, and each
   bundle the coalescing MTU: the bound is on the bytes in the queue.
   */
  lemma {:induction false} EveryDatagramFits(cfg: Setup, mtu: int, maxBytes: int, events: seq<Event>)
    requires Configured(cfg, mtu, maxBytes)
    ensures FitInv(cfg, mtu, maxBytes, Served(cfg, events))
  {
    hide Configured;
    if events != [] {
      hide Handle, FitInv;
      EveryDatagramFits(cfg, mtu, maxBytes, events[..|events| - 1]);
      HandleFits(cfg, mtu, maxBytes, Served(cfg, events[..|events| - 1]), events[|events| - 1]);
    }
  }
}
