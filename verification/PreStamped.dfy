/** What frames that arrive with a SeqNum do to the flow counters (forwarder/forwarder.go, forwarder/coalesce.go). */
module PreStamped {
  import opened Bytes
  import opened SeqSpace
  import opened Fragment
  import opened Stamping
  import opened Pipeline
  import opened PipelineSizes
  import Claims
  import Coalesce

  // ----- What a flush adds to each counter -----

  lemma AdvanceCount(counts: map<Flow, nat>, f: Flow, n: nat, g: Flow)
    requires Count(counts, g) < TWO64
    ensures Count(Fragment.Advance(counts, f, n), g) == if f == g then Wrap64(Count(counts, g) + n) else Count(counts, g)
  {
  }

  /** A flush draws one number for each bundle of a flow and none for any other. */
  lemma {:induction false} FlushCount(
      cfg: Setup, lim: Coalesce.Limits, buckets: seq<Coalesce.Bucket>, counts: map<Flow, nat>, f: Flow)
    requires lim.cap >= 1 && Coalesce.Distinct(buckets) && Count(counts, f) < TWO64
    ensures Count(Coalesce.Flushed(lim, cfg.hashKey, cfg.bundleEnc, buckets, counts).1, f)
         == Wrap64(Count(counts, f) + |Coalesce.Pack(lim, Coalesce.MembersOf(buckets, f))|)
  {
    hide Coalesce.Pack, Coalesce.Encodable, Coalesce.Stamped, Wrap64, Fragment.Advance, Coalesce.MembersOf;
    if buckets == [] {
      Coalesce.NotHeld(buckets, f);
      Coalesce.PackNothing(lim);
    } else {
      var k := |buckets| - 1;
      var before, b := buckets[..k], buckets[k];
      FlushCount(cfg, lim, before, counts, f);
      var mid := Coalesce.Flushed(lim, cfg.hashKey, cfg.bundleEnc, before, counts).1;
      AdvanceCount(mid, b.flow, |Coalesce.Pack(lim, b.members)|, f);
      assert before + [b] == buckets;
      Coalesce.MembersOfMore(before, b, f);
      if b.flow == f {
        Coalesce.NotHeld(before, f);
        Coalesce.PackNothing(lim);
        assert [] + b.members == b.members;
      } else {
        assert Coalesce.MembersOf(before, f) + [] == Coalesce.MembersOf(before, f);
      }
    }
  }

  // ----- What every run keeps -----

  /** One bucket a flow, counters of 64 bits, and members that passed the gate of process. */
  ghost predicate Tidy(cfg: Setup, s: Pipe) {
    && Coalesce.Distinct(s.buckets)
    && (forall f :: Count(s.counts, f) < TWO64)
    && (forall f :: EligibleMembers(cfg, Coalesce.MembersOf(s.buckets, f)))
  }

  /** A number for each fragment. */
  function PieceDraws(cfg: Setup, p: Plan): nat {
    if Fragments(cfg, p) then Ceil(|p.payload|, cfg.fragSize) else 0
  }

  /** How many numbers a frame draws on its flow once it is past its claim, bundles aside. */
  function Drawn(cfg: Setup, p: Plan, bridge: Bridge): nat {
    if p.flow.None? || Bundles(cfg, p, bridge) then 0
    else if Splits(cfg, p) then PieceDraws(cfg, p)
    else if Stampable(p.raw) && SeqOf(p.raw) == 0 then 1
    else 0
  }

  lemma EmitEffect(cfg: Setup, s: Pipe, p: Plan, bridge: Bridge)
    requires Sound(p)
    ensures
      var t := Emit(cfg, s, p, bridge);
      && t.store == s.store
      && t.counts == (if p.flow.Some? then Fragment.Advance(s.counts, p.flow.value, Drawn(cfg, p, bridge)) else s.counts)
      && t.buckets == if Bundles(cfg, p, bridge)
                      then Coalesce.AddTo(s.buckets, p.flow.value, Coalesce.Member(p.id, p.payload)) else s.buckets
  {
    hide Coalesce.AddTo, WholeItems, PieceItems, SeqOf, KeyOf, WithKey, WithSeq, Ceil, Wrap64;
  }

  lemma EmitQuiet(cfg: Setup, s: Pipe, p: Plan, bridge: Bridge)
    requires Sound(p) && Bundles(cfg, p, bridge)
    ensures Emit(cfg, s, p, bridge).queue == s.queue
  {
  }

  lemma EmitTidy(cfg: Setup, s: Pipe, p: Plan, bridge: Bridge)
    requires Sound(p) && Tidy(cfg, s)
    ensures Tidy(cfg, Emit(cfg, s, p, bridge))
  {
    hide Coalesce.AddTo, Emit, Drawn, Coalesce.Distinct, Fragment.Advance, Coalesce.MembersOf;
    EmitEffect(cfg, s, p, bridge);
    if p.flow.Some? {
      var f, t := p.flow.value, Emit(cfg, s, p, bridge);
      Coalesce.AddToKeeps(s.buckets, f, Coalesce.Member(p.id, p.payload));
      forall g
        ensures Count(t.counts, g) < TWO64
      {
        AdvanceCount(s.counts, f, Drawn(cfg, p, bridge), g);
      }
    }
  }

  lemma NothingEligible(cfg: Setup, f: Flow)
    ensures EligibleMembers(cfg, Coalesce.MembersOf([], f))
  {
  }

  lemma HandleTidy(cfg: Setup, s: Pipe, e: Event)
    requires Tidy(cfg, s)
    ensures Tidy(cfg, Handle(cfg, s, e))
  {
    hide Emit, PlanFor, BridgeOf, Coalesce.Flushed, PartsTotal, BundleItems, EligibleMembers, Coalesce.MembersOf;
    if e.BatchEnd? {
      forall f
        ensures Count(EndBatch(cfg, s).counts, f) < TWO64
        ensures EligibleMembers(cfg, Coalesce.MembersOf([], f))
      {
        FlushCount(cfg, LimitsOf(cfg), s.buckets, s.counts, f);
        NothingEligible(cfg, f);
      }
    } else {
      var p, bridge := PlanFor(cfg, e), BridgeOf(e);
      if p.Some? {
        PlanForSound(cfg, e);
        if p.value.key.None? {
          EmitTidy(cfg, s, p.value, bridge);
        } else {
          EmitTidy(cfg, s.(store := Claims.Claim(cfg.dedup, s.store, p.value.key.value).0), p.value, bridge);
        }
      }
    }
  }

  lemma {:induction false} RunTidy(cfg: Setup, events: seq<Event>)
    ensures Tidy(cfg, Served(cfg, events))
  {
    if events == [] {
      forall f
        ensures EligibleMembers(cfg, Coalesce.MembersOf([], f))
      {
        NothingEligible(cfg, f);
      }
    } else {
      hide Handle, Tidy;
      RunTidy(cfg, events[..|events| - 1]);
      HandleTidy(cfg, Served(cfg, events[..|events| - 1]), events[|events| - 1]);
    }
  }

  // ----- Two runs a shift apart -----

  /** The pipe after more events. */
  function After(cfg: Setup, s: Pipe, events: seq<Event>): Pipe {
    if events == [] then s else Handle(cfg, After(cfg, s, events[..|events| - 1]), events[|events| - 1])
  }

  /** b is a with k numbers more drawn on f, and put among f's members at position j. */
  ghost predicate Shifted(a: Pipe, b: Pipe, f: Flow, k: nat, j: nat, put: seq<Coalesce.Member>) {
    && a.store == b.store
    && (forall g :: Count(b.counts, g) == if g == f then Wrap64(Count(a.counts, g) + k) else Count(a.counts, g))
    && j <= |Coalesce.MembersOf(a.buckets, f)|
    && forall g :: Coalesce.MembersOf(b.buckets, g)
                   == if g == f then Coalesce.Insert(Coalesce.MembersOf(a.buckets, g), j, put)
                      else Coalesce.MembersOf(a.buckets, g)
  }

  lemma WrapsJoin(c: nat, k: nat, n: nat)
    ensures Wrap64(Wrap64(c + k) + n) == Wrap64(Wrap64(c + n) + k) == Wrap64(c + k + n)
  {
    Wrap64Back(c + k, n);
    Wrap64Back(c + n, k);
    assert c + n + k == c + k + n;
  }

  lemma CountsShift(a: map<Flow, nat>, b: map<Flow, nat>, f: Flow, k: nat, x: Flow, n: nat, g: Flow)
    requires Count(a, g) < TWO64 && Count(b, g) < TWO64
    requires Count(b, g) == if g == f then Wrap64(Count(a, g) + k) else Count(a, g)
    ensures
      var aa, bb := Fragment.Advance(a, x, n), Fragment.Advance(b, x, n);
      Count(bb, g) == if g == f then Wrap64(Count(aa, g) + k) else Count(aa, g)
  {
    hide Fragment.Advance, Wrap64, Count;
    AdvanceCount(a, x, n, g);
    AdvanceCount(b, x, n, g);
    WrapsJoin(Count(a, g), k, n);
  }

  lemma InsertThenAdd(ms: seq<Coalesce.Member>, j: nat, put: seq<Coalesce.Member>, more: seq<Coalesce.Member>)
    requires j <= |ms|
    ensures Coalesce.Insert(ms + more, j, put) == Coalesce.Insert(ms, j, put) + more
  {
    assert (ms + more)[..j] == ms[..j] && (ms + more)[j..] == ms[j..] + more;
  }

  lemma EmitShifted(cfg: Setup, a: Pipe, b: Pipe, p: Plan, bridge: Bridge,
                    f: Flow, k: nat, j: nat, put: seq<Coalesce.Member>)
    requires Sound(p) && Tidy(cfg, a) && Tidy(cfg, b) && Shifted(a, b, f, k, j, put)
    ensures Shifted(Emit(cfg, a, p, bridge), Emit(cfg, b, p, bridge), f, k, j, put)
  {
    hide Coalesce.AddTo, Emit, Drawn, Bundles, Fragment.Advance, Coalesce.MembersOf, Coalesce.Insert, EligibleMembers,
      Coalesce.Distinct, Wrap64, Count;
    EmitEffect(cfg, a, p, bridge);
    EmitEffect(cfg, b, p, bridge);
    if p.flow.Some? {
      var x, m := p.flow.value, Coalesce.Member(p.id, p.payload);
      var aa, bb := Emit(cfg, a, p, bridge), Emit(cfg, b, p, bridge);
      Coalesce.AddToKeeps(a.buckets, x, m);
      Coalesce.AddToKeeps(b.buckets, x, m);
      forall g
        ensures Count(bb.counts, g) == if g == f then Wrap64(Count(aa.counts, g) + k) else Count(aa.counts, g)
      {
        CountsShift(a.counts, b.counts, f, k, x, Drawn(cfg, p, bridge), g);
      }
      InsertThenAdd(Coalesce.MembersOf(a.buckets, f), j, put, if x == f then [m] else []);
    } else {
      NotBundled(cfg, p, bridge);
    }
  }

  lemma NotBundled(cfg: Setup, p: Plan, bridge: Bridge)
    requires p.flow.None?
    ensures !Bundles(cfg, p, bridge)
  {
  }

  lemma HandleShifted(cfg: Setup, a: Pipe, b: Pipe, e: Event, f: Flow, k: nat, j: nat, put: seq<Coalesce.Member>)
    requires Tidy(cfg, a) && Tidy(cfg, b) && Shifted(a, b, f, k, j, put) && !e.BatchEnd?
    ensures Shifted(Handle(cfg, a, e), Handle(cfg, b, e), f, k, j, put)
  {
    hide Emit, PlanFor, BridgeOf, EligibleMembers, Coalesce.MembersOf, Coalesce.Insert, Coalesce.Distinct, Wrap64, Count;
    var p, bridge := PlanFor(cfg, e), BridgeOf(e);
    if p.Some? {
      PlanForSound(cfg, e);
      var store := if p.value.key.None? then a.store else Claims.Claim(cfg.dedup, a.store, p.value.key.value).0;
      EmitShifted(cfg, a.(store := store), b.(store := store), p.value, bridge, f, k, j, put);
    }
  }

  lemma FlushCountShifts(cfg: Setup, a: Pipe, b: Pipe, g: Flow, k: nat, more: nat)
    requires Tidy(cfg, a) && Tidy(cfg, b) && Count(b.counts, g) == Wrap64(Count(a.counts, g) + k)
    requires
      var lim := LimitsOf(cfg);
      k + |Coalesce.Pack(lim, Coalesce.MembersOf(b.buckets, g))| == more + |Coalesce.Pack(lim, Coalesce.MembersOf(a.buckets, g))|
    ensures Count(EndBatch(cfg, b).counts, g) == Wrap64(Count(EndBatch(cfg, a).counts, g) + more)
  {
    hide Coalesce.Flushed, PartsTotal, BundleItems, EligibleMembers, Coalesce.Distinct, Wrap64, Count, Coalesce.Pack,
      Coalesce.MembersOf;
    var lim, c := LimitsOf(cfg), Count(a.counts, g);
    var n, m := |Coalesce.Pack(lim, Coalesce.MembersOf(a.buckets, g))|, |Coalesce.Pack(lim, Coalesce.MembersOf(b.buckets, g))|;
    FlushCount(cfg, lim, a.buckets, a.counts, g);
    FlushCount(cfg, lim, b.buckets, b.counts, g);
    WrapsJoin(c, k, m);
    WrapsJoin(c, n, more);
    assert c + k + m == c + n + more;
  }

  lemma CountsBounded(cfg: Setup, s: Pipe, g: Flow)
    requires Tidy(cfg, s)
    ensures Wrap64(Count(s.counts, g) + 0) == Count(s.counts, g)
  {
    hide EligibleMembers, Coalesce.MembersOf, Coalesce.Distinct;
  }

  lemma EndTidy(cfg: Setup, s: Pipe)
    requires Tidy(cfg, s)
    ensures
      var t := EndBatch(cfg, s);
      Tidy(cfg, t) && t.store == s.store && t.buckets == []
  {
    hide Tidy, Coalesce.Flushed, PartsTotal, BundleItems;
    EndIsEndBatch(cfg, s);
    HandleTidy(cfg, s, BatchEnd);
  }

  lemma NoMembers(g: Flow)
    ensures Coalesce.MembersOf([], g) == [] && Coalesce.Insert([], 0, []) == []
  {
  }

  /** The end of the batch turns what was put in into numbers drawn. */
  lemma FlushShifted(cfg: Setup, a: Pipe, b: Pipe, f: Flow, k: nat, j: nat, put: seq<Coalesce.Member>, more: nat)
    requires Tidy(cfg, a) && Tidy(cfg, b) && Shifted(a, b, f, k, j, put)
    requires
      var ms, lim := Coalesce.MembersOf(a.buckets, f), LimitsOf(cfg);
      k + |Coalesce.Pack(lim, Coalesce.Insert(ms, j, put))| == more + |Coalesce.Pack(lim, ms)|
    ensures Shifted(EndBatch(cfg, a), EndBatch(cfg, b), f, more, 0, [])
  {
    var aa, bb := EndBatch(cfg, a), EndBatch(cfg, b);
    hide Tidy, EndBatch, Coalesce.Insert, Wrap64, Count, Coalesce.Pack, Coalesce.MembersOf, LimitsOf;
    EndTidy(cfg, a);
    EndTidy(cfg, b);
    forall g
      ensures Count(bb.counts, g) == if g == f then Wrap64(Count(aa.counts, g) + more) else Count(aa.counts, g)
      ensures Coalesce.MembersOf([], g) == [] && Coalesce.Insert([], 0, []) == []
    {
      NoMembers(g);
      if g == f {
        FlushCountShifts(cfg, a, b, g, k, more);
      } else {
        CountsBounded(cfg, a, g);
        CountsBounded(cfg, aa, g);
        FlushCountShifts(cfg, a, b, g, 0, 0);
      }
    }
  }

  lemma PutNothing(a: Pipe, b: Pipe, f: Flow, k: nat)
    requires Shifted(a, b, f, k, 0, [])
    ensures Coalesce.Insert(Coalesce.MembersOf(a.buckets, f), 0, []) == Coalesce.MembersOf(a.buckets, f)
  {
  }

  lemma {:induction false} AfterTidy(cfg: Setup, s: Pipe, events: seq<Event>)
    requires Tidy(cfg, s)
    ensures Tidy(cfg, After(cfg, s, events))
  {
    hide Tidy, Handle;
    if events != [] {
      AfterTidy(cfg, s, events[..|events| - 1]);
      HandleTidy(cfg, After(cfg, s, events[..|events| - 1]), events[|events| - 1]);
    }
  }

  /** Through the rest of a batch the two stay so; with nothing put in, through any run. */
  lemma {:induction false} AfterShifted(cfg: Setup, a: Pipe, b: Pipe, events: seq<Event>,
                                        f: Flow, k: nat, j: nat, put: seq<Coalesce.Member>)
    requires Tidy(cfg, a) && Tidy(cfg, b) && Shifted(a, b, f, k, j, put)
    requires (forall e <- events :: !e.BatchEnd?) || (j == 0 && put == [])
    ensures Shifted(After(cfg, a, events), After(cfg, b, events), f, k, j, put)
  {
    hide Tidy, Shifted, Handle, Coalesce.Insert, Coalesce.MembersOf, Coalesce.Pack;
    if events != [] {
      var before, e := events[..|events| - 1], events[|events| - 1];
      AfterShifted(cfg, a, b, before, f, k, j, put);
      var aa, bb := After(cfg, a, before), After(cfg, b, before);
      AfterTidy(cfg, a, before);
      AfterTidy(cfg, b, before);
      if e.BatchEnd? {
        assert e in events;
        PutNothing(aa, bb, f, k);
        FlushShifted(cfg, aa, bb, f, k, 0, [], k);
        EndIsEndBatch(cfg, aa);
        EndIsEndBatch(cfg, bb);
      } else {
        HandleShifted(cfg, aa, bb, e, f, k, j, put);
      }
    }
  }

  lemma {:induction false} AfterJoin(cfg: Setup, s: Pipe, before: seq<Event>, later: seq<Event>)
    ensures After(cfg, s, before + later) == After(cfg, After(cfg, s, before), later)
  {
    hide Handle;
    if later == [] {
      assert before + later == before;
    } else {
      var k, all := |later| - 1, before + later;
      AfterJoin(cfg, s, before, later[..k]);
      assert all[..|all| - 1] == before + later[..k];
    }
  }

  // ----- The theorem -----

  predicate WinsClaim(cfg: Setup, s: Pipe, p: Plan) {
    p.key.None? || Claims.Claim(cfg.dedup, s.store, p.key.value).1
  }

  predicate Fragments(cfg: Setup, p: Plan) {
    Splits(cfg, p) && Ceil(|p.payload|, cfg.fragSize) <= MAX_PIECES
  }

  /** s with the frame's claim made and nothing emitted. */
  function Claimed(cfg: Setup, s: Pipe, e: Event): Pipe {
    s.(store := Handle(cfg, s, e).store)
  }

  /** The bundles a flow with members ms fills, and those it fills with the frame's own put in at position j. */
  function Filled(cfg: Setup, ms: seq<Coalesce.Member>): nat {
    |Coalesce.Pack(LimitsOf(cfg), ms)|
  }

  function FilledWith(cfg: Setup, ms: seq<Coalesce.Member>, j: nat, p: Plan): nat {
    Filled(cfg, Coalesce.Insert(ms, j, [Coalesce.Member(p.id, p.payload)]))
  }

  /**
   The numbers a pre-stamped frame costs its flow: r is the batch's end without its emission, where the
   members of its flow that came before it are those of s.
   */
  function Extra(cfg: Setup, s: Pipe, r: Pipe, p: Plan, bridge: Bridge): int {
    if p.flow.None? || !WinsClaim(cfg, s, p) then 0
    else if Fragments(cfg, p) then PieceDraws(cfg, p)
    else if Bundles(cfg, p, bridge) then
      var ms := Coalesce.MembersOf(r.buckets, p.flow.value);
      FilledWith(cfg, ms, |Coalesce.MembersOf(s.buckets, p.flow.value)|, p) - Filled(cfg, ms)
    else 0
  }

  lemma ShiftShows(x: nat, k: nat)
    requires 1 <= k < TWO64
    ensures Wrap64(x + k) != Wrap64(x)
  {
    Wrap64Back(x, k);
    var c := Wrap64(x);
    if c + k >= TWO64 {
      assert Wrap64(c + k) == c + k - TWO64;
    }
  }

  ghost predicate CountsDiffer(a: map<Flow, nat>, b: map<Flow, nat>) {
    exists f :: Count(a, f) != Count(b, f)
  }

  /** Emitting shifts the frame's flow: by its fragments at once, or by a member to be bundled. */
  lemma HandledIsShifted(cfg: Setup, s: Pipe, e: Event, p: Plan, f: Flow)
    requires PlanFor(cfg, e) == Some(p) && Tidy(cfg, s) && Stampable(p.raw) && SeqOf(p.raw) != 0
    requires p.flow.Some? ==> p.flow.value == f
    ensures
      var ms, won := Coalesce.MembersOf(s.buckets, f), p.flow.Some? && WinsClaim(cfg, s, p);
      var k := if won then PieceDraws(cfg, p) else 0;
      var put := if won && Bundles(cfg, p, BridgeOf(e)) then [Coalesce.Member(p.id, p.payload)] else [];
      Shifted(Claimed(cfg, s, e), Handle(cfg, s, e), f, k, |ms|, put)
  {
    hide PlanFor, BridgeOf, Emit, Coalesce.AddTo, SeqOf, PieceDraws, Coalesce.MembersOf, EligibleMembers, Coalesce.Distinct,
      Bundles, Splits, Shifted, Tidy;
    PlanForSound(cfg, e);
    var a, b, bridge := Claimed(cfg, s, e), Handle(cfg, s, e), BridgeOf(e);
    StoreIsIdle(cfg, s, b.store);
    var t := s.(store := if p.key.None? then s.store else Claims.Claim(cfg.dedup, s.store, p.key.value).0);
    EmitEffect(cfg, t, p, bridge);
    SplitsOrBundles(cfg, p, bridge);
    assert a == t;
    if p.flow.Some? && WinsClaim(cfg, s, p) {
      SplitToFragment(cfg, p);
      if Bundles(cfg, p, bridge) {
        BufferedShift(cfg, a, b, f, Coalesce.Member(p.id, p.payload));
      } else {
        DrawnShift(cfg, a, b, f, PieceDraws(cfg, p));
      }
    } else {
      DrawnShift(cfg, a, b, f, 0);
    }
  }

  lemma DrawnShift(cfg: Setup, a: Pipe, b: Pipe, f: Flow, k: nat)
    requires Tidy(cfg, a) && b.store == a.store && b.buckets == a.buckets && b.counts == Fragment.Advance(a.counts, f, k)
    ensures Shifted(a, b, f, k, |Coalesce.MembersOf(a.buckets, f)|, [])
  {
    hide Coalesce.MembersOf, Coalesce.Insert, EligibleMembers, Fragment.Advance, Wrap64;
    InsertAtTheEnd(Coalesce.MembersOf(a.buckets, f), []);
    forall g
      ensures Count(b.counts, g) == if g == f then Wrap64(Count(a.counts, g) + k) else Count(a.counts, g)
    {
      AdvanceCount(a.counts, f, k, g);
    }
  }

  lemma BufferedShift(cfg: Setup, a: Pipe, b: Pipe, f: Flow, m: Coalesce.Member)
    requires Tidy(cfg, a) && b.store == a.store && b.counts == a.counts && b.buckets == Coalesce.AddTo(a.buckets, f, m)
    ensures Shifted(a, b, f, 0, |Coalesce.MembersOf(a.buckets, f)|, [m])
  {
    hide Coalesce.MembersOf, Coalesce.Insert, EligibleMembers, Coalesce.AddTo, Coalesce.Distinct, Wrap64;
    Coalesce.AddToKeeps(a.buckets, f, m);
    InsertAtTheEnd(Coalesce.MembersOf(a.buckets, f), [m]);
    assert Wrap64(Count(a.counts, f) + 0) == Count(a.counts, f);
  }

  lemma SplitToFragment(cfg: Setup, p: Plan)
    ensures !Splits(cfg, p) ==> PieceDraws(cfg, p) == 0
  {
  }

  lemma SplitsOrBundles(cfg: Setup, p: Plan, bridge: Bridge)
    ensures !(Splits(cfg, p) && Bundles(cfg, p, bridge))
    ensures p.flow.None? ==> !Splits(cfg, p) && !Bundles(cfg, p, bridge)
  {
  }

  lemma InsertAtTheEnd(ms: seq<Coalesce.Member>, put: seq<Coalesce.Member>)
    ensures Coalesce.Insert(ms, |ms|, put) == ms + put
    ensures put == [] ==> Coalesce.Insert(ms, |ms|, put) == ms
  {
    assert ms[..|ms|] + put + ms[|ms|..] == ms + put;
  }

  lemma EligibleFitAlone(cfg: Setup, ms: seq<Coalesce.Member>)
    requires EligibleMembers(cfg, ms)
    ensures Coalesce.AloneFit(LimitsOf(cfg), ms)
  {
    forall m <- ms
      ensures Coalesce.Fits(LimitsOf(cfg), [m])
    {
      assert [m][..0] == [];
      assert Coalesce.BodySize(cfg.overhead, [m]) == Coalesce.BUNDLE_HEADER + cfg.overhead + |m.tx|;
    }
  }

  /** A member put in costs its flow no number, one or two. */
  lemma ExtraBounds(cfg: Setup, r: Pipe, p: Plan, bridge: Bridge, j: nat)
    requires Tidy(cfg, r) && Bundles(cfg, p, bridge) && j <= |Coalesce.MembersOf(r.buckets, p.flow.value)|
    ensures
      var ms := Coalesce.MembersOf(r.buckets, p.flow.value);
      0 <= FilledWith(cfg, ms, j, p) - Filled(cfg, ms) <= 2
  {
    var ms, m := Coalesce.MembersOf(r.buckets, p.flow.value), Coalesce.Member(p.id, p.payload);
    EligibleFitAlone(cfg, ms);
    EligibleFitAlone(cfg, [m]);
    hide Coalesce.Pack, Coalesce.Fits, Coalesce.MembersOf, Coalesce.Insert;
    assert m in [m];
    Coalesce.InsertingAddsAtMostTwo(LimitsOf(cfg), ms, j, m);
  }

  /** What pre-stamping promises, and what is true: with and without the emission, the counters are this far apart. */
  lemma PreStampedCosts(cfg: Setup, events: seq<Event>, e: Event, p: Plan, rest: seq<Event>, later: seq<Event>, f: Flow)
    requires PlanFor(cfg, e) == Some(p) && Stampable(p.raw) && SeqOf(p.raw) != 0
    requires (forall x <- rest :: !x.BatchEnd?) && (p.flow.Some? ==> p.flow.value == f)
    ensures
      var s := Served(cfg, events);
      var r, tail := After(cfg, Claimed(cfg, s, e), rest), rest + [BatchEnd] + later;
      var n := Extra(cfg, s, r, p, BridgeOf(e));
      && 0 <= n <= MAX_PIECES && (n > 2 ==> Fragments(cfg, p))
      && Shifted(After(cfg, Claimed(cfg, s, e), tail), After(cfg, Handle(cfg, s, e), tail), f, n, 0, [])
  {
    hide PlanFor, BridgeOf, Handle, Shifted, SeqOf, Ceil, Coalesce.MembersOf, Coalesce.Insert, Coalesce.Pack, Bundles, Splits,
      Tidy;
    var s := Served(cfg, events);
    RunTidy(cfg, events);
    var a, b := Claimed(cfg, s, e), Handle(cfg, s, e);
    StoreIsIdle(cfg, s, b.store);
    HandleTidy(cfg, s, e);
    HandledIsShifted(cfg, s, e, p, f);
    var j, won := |Coalesce.MembersOf(s.buckets, f)|, p.flow.Some? && WinsClaim(cfg, s, p);
    var k := if won then PieceDraws(cfg, p) else 0;
    var put := if won && Bundles(cfg, p, BridgeOf(e)) then [Coalesce.Member(p.id, p.payload)] else [];
    AfterShifted(cfg, a, b, rest, f, k, j, put);
    AfterTidy(cfg, a, rest);
    AfterTidy(cfg, b, rest);
    var ra, rb := After(cfg, a, rest), After(cfg, b, rest);
    var n := Extra(cfg, s, ra, p, BridgeOf(e));
    SplitsOrBundles(cfg, p, BridgeOf(e));
    ShiftedInside(ra, rb, f, k, j, put);
    if put != [] {
      ExtraBounds(cfg, ra, p, BridgeOf(e), j);
    }
    FlushShifted(cfg, ra, rb, f, k, j, put, n);
    EndIsEndBatch(cfg, ra);
    EndIsEndBatch(cfg, rb);
    HandleTidy(cfg, ra, BatchEnd);
    HandleTidy(cfg, rb, BatchEnd);
    AfterShifted(cfg, EndBatch(cfg, ra), EndBatch(cfg, rb), later, f, n, 0, []);
    ThroughTheBatch(cfg, a, rest, later);
    ThroughTheBatch(cfg, b, rest, later);
  }

  lemma StoreIsIdle(cfg: Setup, s: Pipe, store: set<Hash>)
    requires Tidy(cfg, s)
    ensures Tidy(cfg, s.(store := store))
  {
  }

  lemma ShiftedInside(a: Pipe, b: Pipe, f: Flow, k: nat, j: nat, put: seq<Coalesce.Member>)
    requires Shifted(a, b, f, k, j, put)
    ensures j <= |Coalesce.MembersOf(a.buckets, f)|
    ensures put == [] ==>
      Coalesce.Insert(Coalesce.MembersOf(a.buckets, f), j, put) == Coalesce.MembersOf(a.buckets, f)
  {
    var ms := Coalesce.MembersOf(a.buckets, f);
    assert ms[..j] + [] + ms[j..] == ms;
  }

  lemma ThroughTheBatch(cfg: Setup, s: Pipe, rest: seq<Event>, later: seq<Event>)
    ensures After(cfg, s, rest + [BatchEnd] + later) == After(cfg, Handle(cfg, After(cfg, s, rest), BatchEnd), later)
  {
    hide Handle;
    AfterJoin(cfg, s, rest + [BatchEnd], later);
    AfterJoin(cfg, s, rest, [BatchEnd]);
    assert [BatchEnd][..0] == [];
    assert After(cfg, After(cfg, s, rest), [BatchEnd]) == Handle(cfg, After(cfg, s, rest), BatchEnd);
  }

  /**
   A frame that arrives with a SeqNum is said never to advance its flow's counter. Take any run, the frame at
   any place of a batch, whatever follows it in the batch and after: the counters differ from those of the
   run in which the frame keeps its claim and emits nothing if and only if it won its claim and was either
   cut into at most 65535 fragments, each of which draws a number, or bundled at a place where the batch's
   members of its flow need more bundles with it than without.
   */
  lemma PreStampedAdvancesIff(cfg: Setup, events: seq<Event>, e: Event, rest: seq<Event>, later: seq<Event>)
    requires PlanFor(cfg, e).Some? && Stampable(PlanFor(cfg, e).value.raw) && SeqOf(PlanFor(cfg, e).value.raw) != 0
    requires forall x <- rest :: !x.BatchEnd?
    ensures
      var s, p, bridge := Served(cfg, events), PlanFor(cfg, e).value, BridgeOf(e);
      var idle, tail := Claimed(cfg, s, e), rest + [BatchEnd] + later;
      CountsDiffer(After(cfg, Handle(cfg, s, e), tail).counts, After(cfg, idle, tail).counts)
      <==> WinsClaim(cfg, s, p)
           && (Fragments(cfg, p)
               || (Bundles(cfg, p, bridge)
                   && var ms := Coalesce.MembersOf(After(cfg, idle, rest).buckets, p.flow.value);
                      FilledWith(cfg, ms, |Coalesce.MembersOf(s.buckets, p.flow.value)|, p) != Filled(cfg, ms)))
  {
    hide PlanFor, BridgeOf, Handle, SeqOf, Ceil, Coalesce.MembersOf, Coalesce.Insert, Coalesce.Pack, Wrap64, Splits, Bundles,
      After, Served;
    var s, p, bridge := Served(cfg, events), PlanFor(cfg, e).value, BridgeOf(e);
    var f := if p.flow.Some? then p.flow.value else Flow(seq(16, i => 0), 0, ZERO_HASH);
    PreStampedCosts(cfg, events, e, p, rest, later, f);
    SplitsOrBundles(cfg, p, bridge);
    FragmentsDraw(cfg, p);
    var idle, tail := Claimed(cfg, s, e), rest + [BatchEnd] + later;
    var a, b := After(cfg, idle, tail), After(cfg, Handle(cfg, s, e), tail);
    var n := Extra(cfg, s, After(cfg, idle, rest), p, bridge);
    AfterBounds(cfg, events, e, tail, f);
    assert Wrap64(Count(a.counts, f) + 0) == Count(a.counts, f);
    if n > 0 {
      ShiftShows(Count(a.counts, f), n);
      assert Count(b.counts, f) != Count(a.counts, f);
    }
  }

  lemma FragmentsDraw(cfg: Setup, p: Plan)
    ensures Fragments(cfg, p) ==> p.flow.Some? && Ceil(|p.payload|, cfg.fragSize) >= 1
  {
    if Fragments(cfg, p) {
      PieceCount(|p.payload|, cfg.fragSize);
    }
  }

  lemma AfterBounds(cfg: Setup, events: seq<Event>, e: Event, tail: seq<Event>, f: Flow)
    ensures Count(After(cfg, Claimed(cfg, Served(cfg, events), e), tail).counts, f) < TWO64
  {
    hide Handle, After, Served;
    var s := Served(cfg, events);
    RunTidy(cfg, events);
    StoreIsIdle(cfg, s, Handle(cfg, s, e).store);
    AfterTidy(cfg, Claimed(cfg, s, e), tail);
  }

  /** The member finds no room in the last bundle its flow would otherwise fill. */
  predicate OpensABundle(cfg: Setup, ms: seq<Coalesce.Member>, p: Plan) {
    Coalesce.Opens(LimitsOf(cfg), ms, Coalesce.Member(p.id, p.payload))
  }

  /** For the last of its flow in a batch that is to find no room in the flow's last bundle. */
  lemma LastOfItsFlow(cfg: Setup, ms: seq<Coalesce.Member>, p: Plan)
    ensures FilledWith(cfg, ms, |ms|, p) != Filled(cfg, ms) <==> OpensABundle(cfg, ms, p)
  {
    hide Coalesce.Pack, Coalesce.Insert, Coalesce.Opens;
    InsertAtTheEnd(ms, [Coalesce.Member(p.id, p.payload)]);
    Coalesce.PackOneMore(LimitsOf(cfg), ms, Coalesce.Member(p.id, p.payload));
  }

  /** No frame of these events claims key. */
  ghost predicate Unclaimed(cfg: Setup, events: seq<Event>, key: Hash) {
    forall e <- events :: PlanFor(cfg, e).Some? ==> PlanFor(cfg, e).value.key != Some(key)
  }

  lemma StoreOnly(cfg: Setup, s: Pipe, e: Event, key: Hash)
    requires PlanFor(cfg, e).Some? ==> PlanFor(cfg, e).value.key != Some(key)
    ensures
      var t := Handle(cfg, s, e);
      Handle(cfg, s.(store := s.store + {key}), e) == t.(store := t.store + {key})
  {
    hide PlanFor, BridgeOf, Emit, Coalesce.Flushed, PartsTotal, BundleItems;
    var p := PlanFor(cfg, e);
    if p.Some? {
      PlanForSound(cfg, e);
      var won := s.(store := if p.value.key.None? then s.store else Claims.Claim(cfg.dedup, s.store, p.value.key.value).0);
      EmitIgnoresTheStore(cfg, won, won.store + {key}, p.value, BridgeOf(e));
      EmitEffect(cfg, won, p.value, BridgeOf(e));
      if p.value.key.Some? {
        assert s.store + {p.value.key.value} + {key} == s.store + {key} + {p.value.key.value};
      }
    }
  }

  /** Keeping its claim makes no difference unless a later frame carries its key: then the run is the one without it. */
  lemma {:induction false} ClaimAloneIsIdle(cfg: Setup, s: Pipe, key: Hash, events: seq<Event>)
    requires Unclaimed(cfg, events, key)
    ensures
      var t := After(cfg, s, events);
      After(cfg, s.(store := s.store + {key}), events) == t.(store := t.store + {key})
  {
    hide Handle, PlanFor;
    if events != [] {
      var before, e := events[..|events| - 1], events[|events| - 1];
      assert e in events && forall x <- before :: x in events;
      ClaimAloneIsIdle(cfg, s, key, before);
      StoreOnly(cfg, After(cfg, s, before), e, key);
    }
  }

  /** A relay lane that cuts its payloads into single bytes, with codecs that work. */
  function OneByteLane(): Setup {
    Setup(
      allowStamped := true, requireEf := false, verifyHash := false, requirePow := false, verifyRoot := false,
      dedup := true, fragSize := 1, stampSource := false, coalesce := false, overhead := 0, budget := 0, cap := 0,
      announce := 1, coinbase := 2, blockGroup := 1, coinbaseFlow := 2, anchorFlow := 3, subtreeGroup := 4, announceGroup := 5,
      decodeTx := (raw: seq<Byte>) => if |raw| < HEADER then None else Some(TxFrame(true, ZERO_HASH, ZERO_HASH, raw[HEADER..])),
      decodeBlock := raw => None, decodeSubtree := raw => None, decodeAnchor := raw => None,
      isEf := tx => true, txSize := (tx: seq<Byte>) => Some(|tx|), txid := tx => Some(ZERO_HASH),
      frameTx := (tx: seq<Byte>) => Some(Put(0, HEADER) + tx), pow := h => true, root := (id, t, payload) => true,
      groupIndex := id => 0, hashKey := f => 0,
      enc := (p: Piece) => Some(Put(0, FRAG_HEADER) + p.data), bundleEnc := b => None)
  }

  /**
   Such a frame: BRC-124, SeqNum 0x0101010101010101, two payload bytes. Admitted by a lane that takes
   stamped frames, it leaves as two fragments numbered 1 and 2, and its flow's counter stands at 2.
   */
  lemma PreStampedCanAdvance() returns (e: Event, f: Flow)
    ensures e.Datagram? && Stampable(e.raw) && SeqOf(e.raw) != 0 && Sized(OneByteLane().enc)
    ensures
      var t := Served(OneByteLane(), [e]);
      t.clean && t.counts == map[f := 2] && |t.queue| == 2
  {
    f := Flow(seq(16, i => 0), 0, ZERO_HASH);
    var raw: seq<Byte> := [0xE3, 0xE1, 0xF3, 0xE8, 0, 0, 2] + seq(87, i => 1);
    e := Datagram(raw, Some(f.ip), Transaction, NO_BRIDGE);
    assert SeqOf(raw) != 0 by {
      assert raw[48..56][7] == 1;
    }
    LaneAdmits(raw, f);
    LaneSplits(raw, f);
    assert [e][..0] == [];
    hide SeqOf, Gate, Emit, ZERO_HASH, OneByteLane;
    assert Served(OneByteLane(), [e]) == Handle(OneByteLane(), FRESH, e);
  }

  function LanePlan(raw: seq<Byte>, f: Flow): Plan
    requires |raw| >= HEADER
  {
    Plan(raw, Some(ZERO_HASH), Some(f), 0, true, Kind.Tx, ZERO_HASH, ZERO_HASH, 0, raw[HEADER..])
  }

  lemma LaneAdmits(raw: seq<Byte>, f: Flow)
    requires Magic(raw) && |raw| >= HEADER && raw[6] == 2 && f == Flow(f.ip, 0, ZERO_HASH)
    ensures Gate(OneByteLane(), raw, Some(f.ip), Transaction) == Some(LanePlan(raw, f))
  {
    hide SeqOf, ZERO_HASH, Put;
  }

  lemma LaneSplits(raw: seq<Byte>, f: Flow)
    requires |raw| == HEADER + 2
    ensures
      var t := Emit(OneByteLane(), FRESH.(store := {ZERO_HASH}), LanePlan(raw, f), NO_BRIDGE);
      t.clean && t.counts == map[f := 2] && |t.queue| == 2
    ensures Sized(OneByteLane().enc)
  {
    hide SeqOf, PieceItems, Draws, PieceOf, ZERO_HASH, Put;
    assert Ceil(2, 1) == 2;
    var parcel := ParcelOf(LanePlan(raw, f), f);
    TwoPieces(OneByteLane(), parcel, Pieces(parcel, 1, 0, Draws(0, 2)));
  }

  lemma TwoPieces(cfg: Setup, p: Parcel, pieces: seq<Piece>)
    requires |pieces| == 2 && cfg.enc(pieces[0]).Some? && cfg.enc(pieces[1]).Some?
    ensures |PieceItems(cfg.enc, p, pieces, 0)| == 2
  {
    var one := pieces[..1];
    assert one[..0] == [] && PieceItems(cfg.enc, p, one[..0], 0) == [];
    assert |PieceItems(cfg.enc, p, one, 0)| == 1;
  }
}
