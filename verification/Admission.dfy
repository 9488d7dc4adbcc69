/**
 Admission by many workers at once (forwarder/forwarder.go, DispatchClass to claimIngressIn and the Process
 methods; forwarder/beef.go, checkBEEF). Each worker takes real datagrams through the gates of Pipeline and
 Beef; the gates, the rate budget, the claim and the emission are separate steps, and the claim store, the
 limiter and the flow counters are shared.
 */
module Admission {
  import opened Bytes
  import opened SeqSpace
  import opened Fragment
  import opened Stamping
  import P = Pipeline
  import Beef
  import Claims
  import Coalesce
  import RateLimit

  /** ownStore: SetBEEFDedup gave the object plane a store of its own. */
  datatype Setup = Setup(tx: P.Setup, beef: Beef.Setup, ownStore: bool)

  datatype Plane = TxPlane | BeefPlane

  /** A key in the store of a plane. */
  datatype Slot = Slot(plane: Plane, key: Hash)

  datatype Datagram = Datagram(raw: seq<Byte>, src: Option<Beef.Source>, lane: P.Class)

  type Bridge = P.Bridge

  /** How far a worker is with a datagram. */
  datatype Stage =
    | Gated(plan: P.Plan)                                  // past the gates of process and its like
    | Won(plan: P.Plan)                                    // past the claim
    | Conforming(frame: seq<Byte>, checkId: bool)          // past the conformance gates of checkBEEF
    | Budgeted(bf: Beef.BeefFrame, bytes: seq<Byte>)       // past the budget and the content check
    | BeefWon(bf: Beef.BeefFrame, bytes: seq<Byte>)

  datatype Pc = Free | Busy(d: Datagram, stage: Stage)

  datatype Worker = Worker(pc: Pc, buckets: seq<Coalesce.Bucket>, sent: seq<Wire>)

  /** What became of an admitted frame. */
  datatype Outcome = Whole | Buffered(flow: Flow, member: Coalesce.Member) | Cut(parcel: Parcel, pieces: seq<Piece>)
    | Overflowed

  /** A worker emitted an admitted frame, or stamped the bundles of its batch. */
  datatype Entry =
    | Emission(w: nat, d: Datagram, slot: Option<Slot>, groups: seq<nat>, outcome: Outcome, wires: seq<Wire>)
    | Bundled(w: nat, stamped: seq<Coalesce.Bundle>, wires: seq<Wire>)

  /** A worker charged the limiter for its datagram. */
  datatype Charged = Charged(w: nat, d: Datagram, request: RateLimit.Request, verdict: RateLimit.Decision)

  datatype Fleet = Fleet(store: set<Slot>, limiter: RateLimit.Limiter, counts: map<Flow, nat>,
                         workers: seq<Worker>, log: seq<Entry>, charges: seq<Charged>)

  datatype Action =
    | Arrive(w: nat, d: Datagram)
    | Charge(w: nat, at: Beef.Moment)
    | Race(w: nat)
    | Finish(w: nat, bridge: Bridge)
    | EndBatch(w: nat)

  // ----- Gates -----

  /** The FrameVer 0x09 frame of a datagram, prepared from a record or pre-framed; the latter's ContentID is checked. */
  function BeefInput(cfg: Setup, d: Datagram): Option<(seq<Byte>, bool)> {
    if Magic(d.raw) then if P.Version(d.raw) == 9 then Some((d.raw, true)) else None
    else if !P.BeefRecord(d.raw) || Beef.Prepare(cfg.beef, d.raw, d.src).None? then None
    else Some((Beef.Prepare(cfg.beef, d.raw, d.src).value, false))
  }

  /** The stage a datagram enters, or none when a gate refuses it. */
  function Enter(cfg: Setup, d: Datagram): (r: Option<Stage>)
    ensures r.Some? ==> r.value.Gated? || r.value.Conforming?
  {
    if P.Elsewhere(d.raw) then
      var input := BeefInput(cfg, d);
      if input.None? || Beef.Conformance(cfg.beef, input.value.0, d.src).Some? then None
      else Some(Conforming(input.value.0, input.value.1))
    else
      var plan := P.Gate(cfg.tx, d.raw, Beef.SrcIp(d.src), d.lane);
      if plan.None? then None else Some(Gated(plan.value))
  }

  /** The plane's store is set; without one every claim is won. */
  predicate Keeps(cfg: Setup, plane: Plane) {
    if plane.TxPlane? then cfg.tx.dedup else cfg.ownStore
  }

  function PlanSlot(p: P.Plan): Option<Slot> {
    if p.key.Some? then Some(Slot(TxPlane, p.key.value)) else None
  }

  function BeefSlot(cfg: Setup, bf: Beef.BeefFrame): Slot {
    Slot(if cfg.ownStore then BeefPlane else TxPlane, cfg.beef.claimKey(bf.contentId, bf.topicId))
  }

  // ----- Emission -----

  /** One group; two while a bridging window dual-emits a whole frame. */
  function GroupsOf(cfg: Setup, p: P.Plan, bridge: Bridge): seq<nat> {
    if p.kind == Kind.Tx && bridge.successor.Some? && bridge.successor.value(p.id) != p.group
       && !P.Splits(cfg.tx, p) && !P.Bundles(cfg.tx, p, bridge)
    then [p.group, bridge.successor.value(p.id)] else [p.group]
  }

  function CutOutcome(size: nat, parcel: Parcel, hashKey: nat, drawn: nat): Outcome
    requires size >= 1
  {
    var k := Ceil(|parcel.payload|, size);
    if k > MAX_PIECES then Overflowed else Cut(parcel, Pieces(parcel, size, hashKey, Draws(drawn, k)))
  }

  function PlanOutcome(cfg: Setup, counts: map<Flow, nat>, p: P.Plan, bridge: Bridge): Outcome {
    if P.Splits(cfg.tx, p) then
      CutOutcome(cfg.tx.fragSize, P.ParcelOf(p, p.flow.value), cfg.tx.hashKey(p.flow.value), Count(counts, p.flow.value))
    else if P.Bundles(cfg.tx, p, bridge) then Buffered(p.flow.value, Coalesce.Member(p.id, p.payload))
    else Whole
  }

  function BeefOutcome(cfg: Setup, counts: map<Flow, nat>, bf: Beef.BeefFrame, src: Option<Beef.Source>): Outcome {
    if src.Some? && Beef.Oversized(cfg.beef, bf) then
      var group := cfg.beef.groupIndex(bf.topicId);
      var f := Beef.FlowOf(src.value, group);
      CutOutcome(cfg.beef.fragSize, Beef.ParcelOf(bf, src.value, group), cfg.beef.hashKey(f), Count(counts, f))
    else Whole
  }

  /** A worker's share of the pipeline, with an empty queue. */
  function PipeOf(s: Fleet, wk: Worker): P.Pipe {
    P.Pipe({}, s.counts, wk.buckets, [], true)
  }

  function FinishPlan(cfg: Setup, s: Fleet, w: nat, d: Datagram, p: P.Plan, bridge: Bridge): Fleet
    requires w < |s.workers| && P.Sound(p)
  {
    var wk := s.workers[w];
    var t := P.Emit(cfg.tx, PipeOf(s, wk), p, bridge);
    var wires := P.Wires(t.queue);
    s.(counts := t.counts,
       workers := s.workers[w := Worker(Free, t.buckets, wk.sent + wires)],
       log := s.log + [Emission(w, d, PlanSlot(p), GroupsOf(cfg, p, bridge), PlanOutcome(cfg, s.counts, p, bridge), wires)])
  }

  function FinishBeef(cfg: Setup, s: Fleet, w: nat, d: Datagram, bf: Beef.BeefFrame, bytes: seq<Byte>): Fleet
    requires w < |s.workers| && Stampable(bytes)
  {
    var wk, group := s.workers[w], cfg.beef.groupIndex(bf.topicId);
    var (t, wires) := Beef.EmitNow(cfg.beef, Beef.Plane(s.limiter, {}, s.counts), bytes, bf, group, d.src);
    s.(counts := t.counts,
       workers := s.workers[w := wk.(pc := Free, sent := wk.sent + wires)],
       log := s.log + [Emission(w, d, Some(BeefSlot(cfg, bf)), [group], BeefOutcome(cfg, s.counts, bf, d.src), wires)])
  }

  // ----- Steps -----

  function Goto(s: Fleet, w: nat, pc: Pc): Fleet
    requires w < |s.workers|
  {
    s.(workers := s.workers[w := s.workers[w].(pc := pc)])
  }

  /** The rate budget, then the content check of a pre-framed object. */
  function Pay(cfg: Setup, s: Fleet, w: nat, d: Datagram, frame: seq<Byte>, checkId: bool, at: Beef.Moment): Fleet
    requires w < |s.workers|
  {
    if Beef.Conformance(cfg.beef, frame, d.src).Some? then s
    else
      var (bf, bytes) := Beef.Delivered(cfg.beef, frame, d.src);
      var r := RateLimit.Request(Beef.LimiterKey(d.src), |frame|, at.now, at.scan);
      var (limiter, verdict) := RateLimit.AllowObject(cfg.beef.limits, s.limiter, r.src, r.n, r.now, r.scan);
      var refused := verdict != RateLimit.Allow
                     || (checkId && d.src.Some? && bf.contentId != cfg.beef.contentId(bf.payload));
      Goto(s.(limiter := limiter, charges := s.charges + [Charged(w, d, r, verdict)]),
           w, if refused then Free else Busy(d, Budgeted(bf, bytes)))
  }

  function ClaimFor(cfg: Setup, s: Fleet, w: nat, slot: Slot, won: Pc): Fleet
    requires w < |s.workers|
  {
    var (store, ok) := Claims.Claim(Keeps(cfg, slot.plane), s.store, slot);
    Goto(s.(store := store), w, if ok then won else Free)
  }

  function Flush(cfg: Setup, s: Fleet, w: nat): Fleet
    requires w < |s.workers|
  {
    var wk, lim, enc := s.workers[w], P.LimitsOf(cfg.tx), cfg.tx.bundleEnc;
    var (bundles, counts) := Coalesce.Flushed(lim, cfg.tx.hashKey, enc, wk.buckets, s.counts);
    var wires := P.BundleWires(enc, bundles);
    s.(counts := counts,
       workers := s.workers[w := wk.(buckets := [], sent := wk.sent + wires)],
       log := s.log + [Bundled(w, Coalesce.Sealed(lim, cfg.tx.hashKey, wk.buckets, s.counts).0, wires)])
  }

  function Step(cfg: Setup, s: Fleet, a: Action): Fleet {
    if a.w >= |s.workers| then s
    else
      match (a, s.workers[a.w].pc)
      case (Arrive(w, d), Free) => if Enter(cfg, d).Some? then Goto(s, w, Busy(d, Enter(cfg, d).value)) else s
      case (Charge(w, at), Busy(d, Conforming(frame, checkId))) => Pay(cfg, s, w, d, frame, checkId, at)
      case (Race(w), Busy(d, Gated(p))) =>
        if p.key.None? then Goto(s, w, Busy(d, Won(p)))
        else ClaimFor(cfg, s, w, PlanSlot(p).value, Busy(d, Won(p)))
      case (Race(w), Busy(d, Budgeted(bf, bytes))) =>
        ClaimFor(cfg, s, w, BeefSlot(cfg, bf), Busy(d, BeefWon(bf, bytes)))
      case (Finish(w, bridge), Busy(d, Won(p))) => if P.Sound(p) then FinishPlan(cfg, s, w, d, p, bridge) else s
      case (Finish(w, _), Busy(d, BeefWon(bf, bytes))) => if Stampable(bytes) then FinishBeef(cfg, s, w, d, bf, bytes) else s
      case (EndBatch(w), Free) => Flush(cfg, s, w)
      case _ => s
  }

  function Init(cfg: Setup, workers: nat): Fleet {
    Fleet({}, RateLimit.NewLimiter(cfg.beef.limits), map[], seq(workers, i => Worker(Free, [], [])), [], [])
  }

  function Run(cfg: Setup, workers: nat, actions: seq<Action>): Fleet {
    if actions == [] then Init(cfg, workers)
    else Step(cfg, Run(cfg, workers, actions[..|actions| - 1]), actions[|actions| - 1])
  }

  // ----- What a datagram must be to hold a key -----

  predicate PlanOf(cfg: Setup, d: Datagram, p: P.Plan) {
    !P.Elsewhere(d.raw) && P.Gate(cfg.tx, d.raw, Beef.SrcIp(d.src), d.lane) == Some(p)
  }

  predicate BeefOf(cfg: Setup, d: Datagram, bf: Beef.BeefFrame, bytes: seq<Byte>) {
    && P.Elsewhere(d.raw)
    && var input := BeefInput(cfg, d);
    && input.Some? && Beef.Conformance(cfg.beef, input.value.0, d.src).None?
    && (bf, bytes) == Beef.Delivered(cfg.beef, input.value.0, d.src)
    && (input.value.1 && d.src.Some? ==> bf.contentId == cfg.beef.contentId(bf.payload))
  }

  /** The facts a frame's gates establish, whichever way it came in. */
  ghost predicate Entitled(cfg: Setup, d: Datagram, slot: Option<Slot>) {
    if P.Elsewhere(d.raw) then exists bf, bytes :: BeefOf(cfg, d, bf, bytes) && slot == Some(BeefSlot(cfg, bf))
    else exists p :: PlanOf(cfg, d, p) && slot == PlanSlot(p)
  }

  ghost predicate WorkerInv(cfg: Setup, wk: Worker) {
    match wk.pc
    case Free => true
    case Busy(d, stage) =>
      match stage
      case Gated(p) => PlanOf(cfg, d, p)
      case Won(p) => PlanOf(cfg, d, p)
      case Conforming(frame, checkId) =>
        P.Elsewhere(d.raw) && BeefInput(cfg, d) == Some((frame, checkId)) && Beef.Conformance(cfg.beef, frame, d.src).None?
      case Budgeted(bf, bytes) => BeefOf(cfg, d, bf, bytes)
      case BeefWon(bf, bytes) => BeefOf(cfg, d, bf, bytes)
  }

  function EncoderOf(cfg: Setup, d: Datagram): Encoder {
    if P.Elsewhere(d.raw) then cfg.beef.enc else cfg.tx.enc
  }

  /** The payload of a frame that is stamped and may be split, and the fragment size of its plane. */
  ghost predicate Overflows(cfg: Setup, d: Datagram) {
    if P.Elsewhere(d.raw) then
      exists bf, bytes :: BeefOf(cfg, d, bf, bytes) && d.src.Some?
                          && 0 < MAX_PIECES * cfg.beef.fragSize < |bf.payload|
    else exists p :: PlanOf(cfg, d, p) && p.flow.Some? && p.splits
                     && 0 < MAX_PIECES * cfg.tx.fragSize < |p.payload|
  }

  /** The member is the datagram's own transaction, on its own flow and key, for its own group. */
  ghost predicate OwnMember(cfg: Setup, e: Entry)
    requires e.Emission? && e.outcome.Buffered?
  {
    exists p :: PlanOf(cfg, e.d, p) && p.flow == Some(e.outcome.flow) && e.outcome.member == Coalesce.Member(p.id, p.payload)
                && e.slot == Some(Slot(TxPlane, p.id)) && e.groups == [e.outcome.flow.group]
  }

  /** An admitted frame goes to one group or to two distinct ones, and its datagrams nowhere else. */
  ghost predicate WellSent(cfg: Setup, e: Entry)
    requires e.Emission?
  {
    && 1 <= |e.groups| <= 2 && (|e.groups| == 2 ==> e.groups[0] != e.groups[1] && e.outcome.Whole?)
    && (forall i | 0 <= i < |e.wires| :: e.wires[i].group in e.groups)
    && (e.outcome.Whole? ==> |e.wires| == |e.groups| && forall i | 0 <= i < |e.groups| :: e.wires[i].group == e.groups[i])
    && (e.outcome.Buffered? || e.outcome.Overflowed? ==> e.wires == [])
    && (e.outcome.Cut? ==> (e.wires == [] <==> NoneEncodes(EncoderOf(cfg, e.d), e.outcome.pieces)))
    && (e.outcome.Overflowed? <==> Overflows(cfg, e.d))
    && (e.outcome.Buffered? ==> OwnMember(cfg, e))
  }

  // ----- The bytes that are sent -----

  /** The datagram as its path emits it: as it came, framed by the proxy, or with its DeliverCount written. */
  ghost predicate FrameOf(cfg: Setup, d: Datagram, raw: seq<Byte>) {
    if P.Elsewhere(d.raw) then exists bf :: BeefOf(cfg, d, bf, raw) else exists p :: PlanOf(cfg, d, p) && p.raw == raw
  }

  /** The frame's payload, identifiers and flow, as its path fragments it. */
  ghost predicate ParcelFor(cfg: Setup, d: Datagram, parcel: Parcel) {
    if P.Elsewhere(d.raw) then
      exists bf, bytes :: BeefOf(cfg, d, bf, bytes) && d.src.Some?
                          && parcel == Beef.ParcelOf(bf, d.src.value, cfg.beef.groupIndex(bf.topicId))
    else exists p :: PlanOf(cfg, d, p) && p.flow.Some? && parcel == P.ParcelOf(p, p.flow.value)
  }

  function SizeFor(cfg: Setup, d: Datagram): nat {
    if P.Elsewhere(d.raw) then cfg.beef.fragSize else cfg.tx.fragSize
  }

  function KeyFor(cfg: Setup, d: Datagram, f: Flow): nat {
    if P.Elsewhere(d.raw) then cfg.beef.hashKey(f) else cfg.tx.hashKey(f)
  }

  /** The pieces of the parcel, numbered from the flow's counter as it stood. */
  ghost predicate CutFrom(cfg: Setup, d: Datagram, parcel: Parcel, pieces: seq<Piece>, drawn: nat) {
    var size := SizeFor(cfg, d);
    size >= 1 && pieces == Pieces(parcel, size, KeyFor(cfg, d, parcel.flow), Draws(drawn, Ceil(|parcel.payload|, size)))
  }

  /** Whole frames are sent as they are but for the stamp; fragments are the encodable pieces of the frame's payload. */
  ghost predicate OwnBytes(cfg: Setup, e: Entry)
    requires e.Emission? && e.groups != []
  {
    match e.outcome
    case Whole => exists raw :: FrameOf(cfg, e.d, raw) && forall i | 0 <= i < |e.wires| :: OnlyStamped(e.wires[i].data, raw)
    case Cut(parcel, pieces) =>
      && ParcelFor(cfg, e.d, parcel) && (exists drawn: nat :: CutFrom(cfg, e.d, parcel, pieces, drawn))
      && e.wires == ToGroup(Encoded(EncoderOf(cfg, e.d), parcel, pieces), e.groups[0])
    case _ => true
  }

  /** A frame's emission is entitled and well sent; a batch's bundles are sent to their groups, those that encode. */
  ghost predicate EntryInv(cfg: Setup, e: Entry) {
    if e.Emission? then Entitled(cfg, e.d, e.slot) && WellSent(cfg, e) && OwnBytes(cfg, e)
    else e.wires == P.BundleWires(cfg.tx.bundleEnc, Coalesce.Encodable(cfg.tx.bundleEnc, e.stamped))
  }

  ghost predicate FramesInv(cfg: Setup, s: Fleet) {
    && (forall w | 0 <= w < |s.workers| :: WorkerInv(cfg, s.workers[w]))
    && (forall i | 0 <= i < |s.log| :: EntryInv(cfg, s.log[i]))
  }

  // ----- Emissions are well sent -----

  lemma OverflowsIff(size: nat, len: nat)
    requires size >= 1
    ensures Ceil(len, size) > MAX_PIECES <==> len > MAX_PIECES * size
    ensures Ceil(len, size) > MAX_PIECES ==> len > size
  {
    CeilIsLeast(len, size);
    var k := Ceil(len, size);
    hide Ceil;
    if k > MAX_PIECES {
      Scales(MAX_PIECES, k - 1, size);
      Scales(1, MAX_PIECES, size);
    } else {
      Scales(k, MAX_PIECES, size);
    }
  }

  /** A fragmented parcel: nothing is queued exactly when no piece encodes. */
  lemma CutSent(enc: Encoder, parcel: Parcel, pieces: seq<Piece>, group: nat)
    ensures
      var wires := ToGroup(Encoded(enc, parcel, pieces), group);
      && (wires == [] <==> NoneEncodes(enc, pieces))
      && forall i | 0 <= i < |wires| :: wires[i].group == group
  {
    EncodedCount(enc, parcel, pieces);
    hide Encoded, NoneEncodes;
  }

  lemma PlanIsTheOnlyOne(cfg: Setup, d: Datagram, p: P.Plan)
    requires PlanOf(cfg, d, p)
    ensures P.Sound(p)
    ensures Overflows(cfg, d) <==> p.flow.Some? && p.splits && 0 < MAX_PIECES * cfg.tx.fragSize < |p.payload|
    ensures Entitled(cfg, d, PlanSlot(p))
    ensures p.kind == Kind.Tx && p.flow.Some? ==> p.flow.value.group == p.group && p.key == Some(p.id)
  {
    P.GateSound(cfg.tx, d.raw, Beef.SrcIp(d.src), d.lane);
    hide P.Gate;
  }

  lemma PlanWellSent(cfg: Setup, s: Fleet, w: nat, wk: Worker, d: Datagram, p: P.Plan, bridge: Bridge)
    requires PlanOf(cfg, d, p) && P.Sound(p)
    ensures
      var t := P.Emit(cfg.tx, PipeOf(s, wk), p, bridge);
      WellSent(cfg, Emission(w, d, PlanSlot(p), GroupsOf(cfg, p, bridge), PlanOutcome(cfg, s.counts, p, bridge),
                             P.Wires(t.queue)))
  {
    hide PlanOf, WellSent, P.Emit, P.Wires, GroupsOf, P.Splits, P.Bundles, P.Sound, PlanSlot, PlanOutcome;
    if P.Splits(cfg.tx, p) {
      SplitPlanWellSent(cfg, s, w, wk, d, p, bridge);
    } else {
      UnsplitPlanWellSent(cfg, s, w, wk, d, p, bridge);
    }
  }

  lemma SplitPlanWellSent(cfg: Setup, s: Fleet, w: nat, wk: Worker, d: Datagram, p: P.Plan, bridge: Bridge)
    requires PlanOf(cfg, d, p) && P.Sound(p) && P.Splits(cfg.tx, p)
    ensures
      var t := P.Emit(cfg.tx, PipeOf(s, wk), p, bridge);
      WellSent(cfg, Emission(w, d, PlanSlot(p), GroupsOf(cfg, p, bridge), PlanOutcome(cfg, s.counts, p, bridge),
                             P.Wires(t.queue)))
  {
    PlanIsTheOnlyOne(cfg, d, p);
    GroupsShape(cfg, p, bridge);
    assert !P.Elsewhere(d.raw);
    var f, parcel, size := p.flow.value, P.ParcelOf(p, p.flow.value), cfg.tx.fragSize;
    var k := Ceil(|p.payload|, size);
    OverflowsIff(size, |p.payload|);
    SplitWires(cfg, PipeOf(s, wk), p, bridge);
    hide PlanOf, Overflows, P.Emit, Ceil, Encoded, Pieces, Draws, NoneEncodes, P.Wires, ToGroup, GroupsOf, P.Elsewhere,
      P.Sound, PlanSlot, P.Splits, P.Bundles;
    if k <= MAX_PIECES {
      CutSent(cfg.tx.enc, parcel, Pieces(parcel, size, cfg.tx.hashKey(f), Draws(Count(s.counts, f), k)), p.group);
    }
  }

  lemma UnsplitPlanWellSent(cfg: Setup, s: Fleet, w: nat, wk: Worker, d: Datagram, p: P.Plan, bridge: Bridge)
    requires PlanOf(cfg, d, p) && P.Sound(p) && !P.Splits(cfg.tx, p)
    ensures
      var t := P.Emit(cfg.tx, PipeOf(s, wk), p, bridge);
      WellSent(cfg, Emission(w, d, PlanSlot(p), GroupsOf(cfg, p, bridge), PlanOutcome(cfg, s.counts, p, bridge),
                             P.Wires(t.queue)))
  {
    PlanIsTheOnlyOne(cfg, d, p);
    GroupsShape(cfg, p, bridge);
    NotSplitNotOver(cfg, p);
    UnsplitWires(cfg, PipeOf(s, wk), p, bridge);
    BundledTx(cfg, p, bridge);
    hide PlanOf, Overflows, P.Emit, P.Wires, GroupsOf, P.Elsewhere, P.Sound, P.Splits, P.Bundles, NoneEncodes;
  }

  lemma BundledTx(cfg: Setup, p: P.Plan, bridge: Bridge)
    ensures P.Bundles(cfg.tx, p, bridge) ==> p.flow.Some? && p.kind == Kind.Tx && GroupsOf(cfg, p, bridge) == [p.group]
  {
  }

  lemma GroupsShape(cfg: Setup, p: P.Plan, bridge: Bridge)
    ensures
      var groups := GroupsOf(cfg, p, bridge);
      && 1 <= |groups| <= 2 && p.group in groups && (|groups| == 2 ==> groups[0] != groups[1])
      && (P.Splits(cfg.tx, p) || P.Bundles(cfg.tx, p, bridge) ==> groups == [p.group])
    ensures P.Splits(cfg.tx, p) ==> p.flow.Some? && p.splits && cfg.tx.fragSize >= 1
  {
  }

  lemma SplitWires(cfg: Setup, s: P.Pipe, p: P.Plan, bridge: Bridge)
    requires P.Splits(cfg.tx, p) && P.Sound(p) && s.queue == []
    ensures
      var f, parcel := p.flow.value, P.ParcelOf(p, p.flow.value);
      var k := Ceil(|p.payload|, cfg.tx.fragSize);
      P.Wires(P.Emit(cfg.tx, s, p, bridge).queue) ==
      if k > MAX_PIECES then []
      else ToGroup(Encoded(cfg.tx.enc, parcel, Pieces(parcel, cfg.tx.fragSize, cfg.tx.hashKey(f), Draws(Count(s.counts, f), k))),
                   p.group)
  {
    hide Ceil, Encoded, Pieces, Draws, P.PieceItems;
    var f, parcel, k := p.flow.value, P.ParcelOf(p, p.flow.value), Ceil(|p.payload|, cfg.tx.fragSize);
    if k <= MAX_PIECES {
      var pieces := Pieces(parcel, cfg.tx.fragSize, cfg.tx.hashKey(f), Draws(Count(s.counts, f), k));
      P.WiresOfPieces(cfg.tx.enc, parcel, pieces, p.group);
      assert [] + P.PieceItems(cfg.tx.enc, parcel, pieces, p.group) == P.PieceItems(cfg.tx.enc, parcel, pieces, p.group);
    }
  }

  lemma UnsplitWires(cfg: Setup, s: P.Pipe, p: P.Plan, bridge: Bridge)
    requires !P.Splits(cfg.tx, p) && P.Sound(p) && s.queue == []
    ensures
      var wires, groups := P.Wires(P.Emit(cfg.tx, s, p, bridge).queue), GroupsOf(cfg, p, bridge);
      if P.Bundles(cfg.tx, p, bridge) then wires == [] && |groups| == 1
      else |wires| == |groups| && forall i | 0 <= i < |groups| :: wires[i].group == groups[i]
  {
    hide Stamp, SeqOf, Coalesce.AddTo;
  }

  lemma NotSplitNotOver(cfg: Setup, p: P.Plan)
    requires !P.Splits(cfg.tx, p)
    ensures !(p.flow.Some? && p.splits && 0 < MAX_PIECES * cfg.tx.fragSize < |p.payload|)
  {
    if cfg.tx.fragSize > 0 {
      Scales(1, MAX_PIECES, cfg.tx.fragSize);
    }
  }

  lemma BeefIsTheOnlyOne(cfg: Setup, d: Datagram, bf: Beef.BeefFrame, bytes: seq<Byte>)
    requires BeefOf(cfg, d, bf, bytes)
    ensures Stampable(bytes)
    ensures Overflows(cfg, d) <==> d.src.Some? && 0 < MAX_PIECES * cfg.beef.fragSize < |bf.payload|
    ensures Entitled(cfg, d, Some(BeefSlot(cfg, bf)))
  {
    hide Beef.Conformance, BeefInput;
  }

  lemma BeefWellSent(cfg: Setup, s: Fleet, w: nat, d: Datagram, bf: Beef.BeefFrame, bytes: seq<Byte>)
    requires BeefOf(cfg, d, bf, bytes) && Stampable(bytes)
    ensures
      var group := cfg.beef.groupIndex(bf.topicId);
      var wires := Beef.EmitNow(cfg.beef, Beef.Plane(s.limiter, {}, s.counts), bytes, bf, group, d.src).1;
      WellSent(cfg, Emission(w, d, Some(BeefSlot(cfg, bf)), [group], BeefOutcome(cfg, s.counts, bf, d.src), wires))
  {
    BeefIsTheOnlyOne(cfg, d, bf, bytes);
    assert P.Elsewhere(d.raw);
    hide BeefOf, Overflows, Stamp, Ceil, Encoded, Pieces, Draws, NoneEncodes;
    var group, size := cfg.beef.groupIndex(bf.topicId), cfg.beef.fragSize;
    if d.src.Some? && Beef.Oversized(cfg.beef, bf) {
      var f, parcel := Beef.FlowOf(d.src.value, group), Beef.ParcelOf(bf, d.src.value, group);
      OverflowsIff(size, |bf.payload|);
      var k := Ceil(|bf.payload|, size);
      if k <= MAX_PIECES {
        CutSent(cfg.beef.enc, parcel, Pieces(parcel, size, cfg.beef.hashKey(f), Draws(Count(s.counts, f), k)), group);
      }
    } else if size > 0 {
      Scales(1, MAX_PIECES, size);
    }
  }

  // ----- Emissions carry their own bytes -----

  lemma PlanOwnBytes(cfg: Setup, s: Fleet, w: nat, wk: Worker, d: Datagram, p: P.Plan, bridge: Bridge)
    requires PlanOf(cfg, d, p) && P.Sound(p)
    ensures
      var t := P.Emit(cfg.tx, PipeOf(s, wk), p, bridge);
      OwnBytes(cfg, Emission(w, d, PlanSlot(p), GroupsOf(cfg, p, bridge), PlanOutcome(cfg, s.counts, p, bridge),
                             P.Wires(t.queue)))
  {
    if P.Splits(cfg.tx, p) {
      SplitPlanBytes(cfg, s, w, wk, d, p, bridge);
    } else {
      WholePlanBytes(cfg, s, w, wk, d, p, bridge);
    }
  }

  lemma SplitPlanBytes(cfg: Setup, s: Fleet, w: nat, wk: Worker, d: Datagram, p: P.Plan, bridge: Bridge)
    requires PlanOf(cfg, d, p) && P.Sound(p) && P.Splits(cfg.tx, p)
    ensures
      var t := P.Emit(cfg.tx, PipeOf(s, wk), p, bridge);
      OwnBytes(cfg, Emission(w, d, PlanSlot(p), GroupsOf(cfg, p, bridge), PlanOutcome(cfg, s.counts, p, bridge),
                             P.Wires(t.queue)))
  {
    assert !P.Elsewhere(d.raw);
    GroupsShape(cfg, p, bridge);
    SplitWires(cfg, PipeOf(s, wk), p, bridge);
    hide PlanOf, P.Emit, Ceil, Encoded, Pieces, Draws, P.Wires, ToGroup, GroupsOf, P.Elsewhere, P.Sound, PlanSlot, P.Splits,
      P.Bundles;
    var f, parcel, size := p.flow.value, P.ParcelOf(p, p.flow.value), cfg.tx.fragSize;
    var pieces := Pieces(parcel, size, cfg.tx.hashKey(f), Draws(Count(s.counts, f), Ceil(|p.payload|, size)));
    assert CutFrom(cfg, d, parcel, pieces, Count(s.counts, f));
    assert ParcelFor(cfg, d, parcel);
  }

  lemma WholePlanBytes(cfg: Setup, s: Fleet, w: nat, wk: Worker, d: Datagram, p: P.Plan, bridge: Bridge)
    requires PlanOf(cfg, d, p) && P.Sound(p) && !P.Splits(cfg.tx, p)
    ensures
      var t := P.Emit(cfg.tx, PipeOf(s, wk), p, bridge);
      OwnBytes(cfg, Emission(w, d, PlanSlot(p), GroupsOf(cfg, p, bridge), PlanOutcome(cfg, s.counts, p, bridge),
                             P.Wires(t.queue)))
  {
    UnsplitData(cfg, PipeOf(s, wk), p, bridge);
    assert FrameOf(cfg, d, p.raw);
    hide PlanOf, FrameOf, P.Emit, P.Wires, GroupsOf, P.Elsewhere, P.Sound, PlanSlot, P.Splits, P.Bundles, OnlyStamped;
  }

  lemma UnsplitData(cfg: Setup, s: P.Pipe, p: P.Plan, bridge: Bridge)
    requires !P.Splits(cfg.tx, p) && P.Sound(p) && s.queue == []
    ensures
      var wires := P.Wires(P.Emit(cfg.tx, s, p, bridge).queue);
      forall i | 0 <= i < |wires| :: OnlyStamped(wires[i].data, p.raw)
  {
    if p.flow.Some? {
      StampTouchesTwoFields(cfg.tx.hashKey, cfg.tx.stampSource, s.counts, p.raw, p.flow.value);
    }
    hide Stamp, SeqOf, Coalesce.AddTo;
  }

  lemma BeefOwnBytes(cfg: Setup, s: Fleet, w: nat, d: Datagram, bf: Beef.BeefFrame, bytes: seq<Byte>)
    requires BeefOf(cfg, d, bf, bytes) && Stampable(bytes)
    ensures
      var group := cfg.beef.groupIndex(bf.topicId);
      var wires := Beef.EmitNow(cfg.beef, Beef.Plane(s.limiter, {}, s.counts), bytes, bf, group, d.src).1;
      OwnBytes(cfg, Emission(w, d, Some(BeefSlot(cfg, bf)), [group], BeefOutcome(cfg, s.counts, bf, d.src), wires))
  {
    assert P.Elsewhere(d.raw);
    assert FrameOf(cfg, d, bytes);
    var group, size := cfg.beef.groupIndex(bf.topicId), cfg.beef.fragSize;
    hide BeefOf, FrameOf, Stamp, OnlyStamped, Ceil, Encoded, Pieces, Draws, P.Elsewhere, BeefSlot;
    if d.src.Some? {
      var f, parcel := Beef.FlowOf(d.src.value, group), Beef.ParcelOf(bf, d.src.value, group);
      StampTouchesTwoFields(cfg.beef.hashKey, cfg.beef.stampSource, s.counts, bytes, f);
      if size > 0 {
        var pieces := Pieces(parcel, size, cfg.beef.hashKey(f), Draws(Count(s.counts, f), Ceil(|bf.payload|, size)));
        assert CutFrom(cfg, d, parcel, pieces, Count(s.counts, f));
      }
      assert ParcelFor(cfg, d, parcel);
    } else {
      Unstamped(bytes);
    }
  }

  lemma Unstamped(raw: seq<Byte>)
    ensures OnlyStamped(raw, raw)
  {
  }

  // ----- Frames over every interleaving -----

  lemma GotoFrames(cfg: Setup, s: Fleet, w: nat, pc: Pc)
    requires FramesInv(cfg, s) && w < |s.workers| && WorkerInv(cfg, s.workers[w].(pc := pc))
    ensures FramesInv(cfg, Goto(s, w, pc))
  {
    hide WorkerInv, EntryInv;
  }

  lemma LogFrames(cfg: Setup, s: Fleet, t: Fleet, w: nat, e: Entry)
    requires FramesInv(cfg, s) && w < |s.workers| && EntryInv(cfg, e)
    requires |t.workers| == |s.workers| && t.workers[w].pc.Free? && t.log == s.log + [e]
    requires forall i | 0 <= i < |s.workers| && i != w :: t.workers[i] == s.workers[i]
    ensures FramesInv(cfg, t)
  {
    hide EntryInv;
    assert WorkerInv(cfg, t.workers[w]);
    hide WorkerInv;
  }

  lemma PayFrames(cfg: Setup, s: Fleet, w: nat, at: Beef.Moment)
    requires FramesInv(cfg, s) && w < |s.workers| && s.workers[w].pc.Busy? && s.workers[w].pc.stage.Conforming?
    ensures FramesInv(cfg, Step(cfg, s, Charge(w, at)))
  {
    hide Beef.Conformance, RateLimit.AllowObject, BeefInput, EntryInv, Beef.Delivered, P.Elsewhere;
    assert WorkerInv(cfg, s.workers[w]);
    var pc := s.workers[w].pc;
    var t := Step(cfg, s, Charge(w, at));
    assert WorkerInv(cfg, t.workers[w]);
    hide WorkerInv;
    GotoFrames(cfg, s.(limiter := t.limiter), w, t.workers[w].pc);
  }

  lemma RaceFrames(cfg: Setup, s: Fleet, w: nat)
    requires FramesInv(cfg, s) && w < |s.workers|
    ensures FramesInv(cfg, Step(cfg, s, Race(w)))
  {
    hide PlanOf, BeefOf, EntryInv, Beef.Conformance, BeefInput, P.Elsewhere;
    assert WorkerInv(cfg, s.workers[w]);
    var t := Step(cfg, s, Race(w));
    assert WorkerInv(cfg, t.workers[w]);
    hide WorkerInv;
  }

  lemma FinishFrames(cfg: Setup, s: Fleet, w: nat, bridge: Bridge)
    requires FramesInv(cfg, s) && w < |s.workers|
    ensures FramesInv(cfg, Step(cfg, s, Finish(w, bridge)))
  {
    assert WorkerInv(cfg, s.workers[w]);
    hide PlanOf, BeefOf, WellSent, OwnBytes, Entitled, P.Emit, Beef.EmitNow, GroupsOf, PlanOutcome, BeefOutcome, P.Wires, FramesInv;
    match s.workers[w].pc
    case Busy(d, Won(p)) =>
      PlanIsTheOnlyOne(cfg, d, p);
      PlanWellSent(cfg, s, w, s.workers[w], d, p, bridge);
      PlanOwnBytes(cfg, s, w, s.workers[w], d, p, bridge);
      var t := FinishPlan(cfg, s, w, d, p, bridge);
      LogFrames(cfg, s, t, w, t.log[|s.log|]);
    case Busy(d, BeefWon(bf, bytes)) =>
      BeefIsTheOnlyOne(cfg, d, bf, bytes);
      BeefWellSent(cfg, s, w, d, bf, bytes);
      BeefOwnBytes(cfg, s, w, d, bf, bytes);
      var t := FinishBeef(cfg, s, w, d, bf, bytes);
      LogFrames(cfg, s, t, w, t.log[|s.log|]);
    case _ =>
  }

  lemma ArriveFrames(cfg: Setup, s: Fleet, w: nat, d: Datagram)
    requires FramesInv(cfg, s) && w < |s.workers|
    ensures FramesInv(cfg, Step(cfg, s, Arrive(w, d)))
  {
    hide Beef.Conformance, BeefInput, P.Gate, P.Elsewhere, EntryInv;
    var t := Step(cfg, s, Arrive(w, d));
    assert WorkerInv(cfg, s.workers[w]);
    assert WorkerInv(cfg, t.workers[w]);
    hide WorkerInv;
  }

  lemma FlushFrames(cfg: Setup, s: Fleet, w: nat)
    requires FramesInv(cfg, s) && w < |s.workers|
    ensures FramesInv(cfg, Step(cfg, s, EndBatch(w)))
  {
    hide Coalesce.Flushed, Coalesce.Sealed, PlanOf, BeefOf, P.BundleWires, Coalesce.Encodable, Entitled, WellSent, OwnBytes;
    if s.workers[w].pc.Free? {
      var t := Step(cfg, s, EndBatch(w));
      Coalesce.FlushedIsSealed(P.LimitsOf(cfg.tx), cfg.tx.hashKey, cfg.tx.bundleEnc, s.workers[w].buckets, s.counts);
      LogFrames(cfg, s, t, w, t.log[|s.log|]);
    }
  }

  lemma StepFrames(cfg: Setup, s: Fleet, a: Action)
    requires FramesInv(cfg, s)
    ensures FramesInv(cfg, Step(cfg, s, a))
  {
    hide FramesInv, Pay, FinishPlan, FinishBeef, Flush, Enter;
    if a.w < |s.workers| {
      match a
      case Arrive(w, d) => ArriveFrames(cfg, s, w, d);
      case Charge(w, at) =>
        if s.workers[w].pc.Busy? && s.workers[w].pc.stage.Conforming? {
          PayFrames(cfg, s, w, at);
        }
      case Race(w) => RaceFrames(cfg, s, w);
      case Finish(w, bridge) => FinishFrames(cfg, s, w, bridge);
      case EndBatch(w) => FlushFrames(cfg, s, w);
    }
  }

  lemma {:induction false} RunFrames(cfg: Setup, workers: nat, actions: seq<Action>)
    ensures FramesInv(cfg, Run(cfg, workers, actions))
  {
    if actions != [] {
      hide FramesInv, Step;
      RunFrames(cfg, workers, actions[..|actions| - 1]);
      StepFrames(cfg, Run(cfg, workers, actions[..|actions| - 1]), actions[|actions| - 1]);
    }
  }

  // ----- Claims over every interleaving -----

  /** A worker that has won a slot and not yet emitted. */
  function Holds(cfg: Setup, wk: Worker, slot: Slot): nat {
    match wk.pc
    case Busy(_, Won(p)) => if PlanSlot(p) == Some(slot) then 1 else 0
    case Busy(_, BeefWon(bf, _)) => if BeefSlot(cfg, bf) == slot then 1 else 0
    case _ => 0
  }

  function Holders(cfg: Setup, workers: seq<Worker>, slot: Slot): nat {
    if workers == [] then 0
    else Holders(cfg, workers[..|workers| - 1], slot) + Holds(cfg, workers[|workers| - 1], slot)
  }

  /** The entry is an admission of the slot. */
  predicate Admits(e: Entry, slot: Slot) {
    e.Emission? && e.slot == Some(slot)
  }

  /** How often a slot was admitted and emitted. */
  function Times(log: seq<Entry>, slot: Slot): nat {
    if log == [] then 0
    else Times(log[..|log| - 1], slot) + if Admits(log[|log| - 1], slot) then 1 else 0
  }

  lemma {:induction false} HoldersChange(cfg: Setup, workers: seq<Worker>, w: nat, x: Worker, slot: Slot)
    requires w < |workers|
    ensures Holders(cfg, workers[w := x], slot) + Holds(cfg, workers[w], slot)
         == Holders(cfg, workers, slot) + Holds(cfg, x, slot)
  {
    hide Holds;
    var k := |workers| - 1;
    if w == k {
      assert workers[w := x][..k] == workers[..k];
    } else {
      HoldersChange(cfg, workers[..k], w, x, slot);
      assert workers[w := x][..k] == workers[..k][w := x];
    }
  }

  lemma {:induction false} FreeHoldNothing(cfg: Setup, workers: seq<Worker>, slot: Slot)
    requires forall i | 0 <= i < |workers| :: workers[i].pc.Free?
    ensures Holders(cfg, workers, slot) == 0
  {
    if workers != [] {
      FreeHoldNothing(cfg, workers[..|workers| - 1], slot);
    }
  }

  lemma TimesMore(log: seq<Entry>, e: Entry, slot: Slot)
    ensures Times(log + [e], slot) == Times(log, slot) + if Admits(e, slot) then 1 else 0
  {
    assert (log + [e])[..|log|] == log;
  }

  /** A slot in the store was admitted once, by an emission or by a worker about to emit; a free one never. */
  ghost predicate ClaimsInv(cfg: Setup, s: Fleet) {
    forall slot: Slot | Keeps(cfg, slot.plane) ::
      Times(s.log, slot) + Holders(cfg, s.workers, slot) == if slot in s.store then 1 else 0
  }

  /** A step that changes one worker, adds at most one log entry and claims at most one slot. */
  lemma ClaimsMove(cfg: Setup, s: Fleet, t: Fleet, w: nat, slot: Slot)
    requires ClaimsInv(cfg, s) && Keeps(cfg, slot.plane) && w < |s.workers|
    requires |t.workers| == |s.workers| && t.workers == s.workers[w := t.workers[w]]
    requires t.log == s.log || (|t.log| == |s.log| + 1 && t.log == s.log + [t.log[|s.log|]])
    requires
      var logged := if t.log != s.log && Admits(t.log[|s.log|], slot) then 1 else 0;
      logged + Holds(cfg, t.workers[w], slot) + (if slot in s.store then 1 else 0)
      == Holds(cfg, s.workers[w], slot) + if slot in t.store then 1 else 0
    ensures Times(t.log, slot) + Holders(cfg, t.workers, slot) == if slot in t.store then 1 else 0
  {
    hide Holders, Times, Holds;
    HoldersChange(cfg, s.workers, w, t.workers[w], slot);
    if t.log != s.log {
      TimesMore(s.log, t.log[|s.log|], slot);
    }
  }

  lemma NobodySteps(cfg: Setup, s: Fleet, a: Action)
    requires a.w >= |s.workers|
    ensures Step(cfg, s, a) == s
  {
  }

  /** A step changes one worker and logs at most one entry, of that worker. */
  lemma StepShape(cfg: Setup, s: Fleet, a: Action)
    requires a.w < |s.workers|
    ensures
      var t := Step(cfg, s, a);
      && |t.workers| == |s.workers| && t.workers == s.workers[a.w := t.workers[a.w]]
      && (t.log == s.log
          || (|t.log| == |s.log| + 1 && t.log == s.log + [t.log[|s.log|]] && t.log[|s.log|].w == a.w))
  {
    hide Enter, P.Emit, Beef.EmitNow, GroupsOf, PlanOutcome, BeefOutcome, P.Wires, Coalesce.Flushed, P.Sound, BeefSlot,
      Beef.Conformance, Beef.Delivered, RateLimit.AllowObject, Coalesce.Sealed, P.BundleWires;
  }

  /** What a step adds to the store it hands to its worker, and what it logs its worker gives up. */
  ghost predicate Hands(cfg: Setup, s: Fleet, t: Fleet, w: nat, slot: Slot) {
    && w < |s.workers| == |t.workers|
    && var logged := if |t.log| > |s.log| && Admits(t.log[|s.log|], slot) then 1 else 0;
    logged + Holds(cfg, t.workers[w], slot) + (if slot in s.store then 1 else 0)
    == Holds(cfg, s.workers[w], slot) + if slot in t.store then 1 else 0
  }

  lemma RaceHands(cfg: Setup, s: Fleet, w: nat, slot: Slot)
    requires w < |s.workers| && Keeps(cfg, slot.plane)
    ensures Hands(cfg, s, Step(cfg, s, Race(w)), w, slot)
  {
    hide BeefSlot;
  }

  lemma FinishHands(cfg: Setup, s: Fleet, w: nat, bridge: Bridge, slot: Slot)
    requires w < |s.workers|
    ensures Hands(cfg, s, Step(cfg, s, Finish(w, bridge)), w, slot)
  {
    hide P.Emit, Beef.EmitNow, GroupsOf, PlanOutcome, BeefOutcome, P.Wires, P.Sound, BeefSlot, PlanSlot;
  }

  lemma StepHands(cfg: Setup, s: Fleet, a: Action, slot: Slot)
    requires a.w < |s.workers| && Keeps(cfg, slot.plane)
    ensures Hands(cfg, s, Step(cfg, s, a), a.w, slot)
  {
    hide Enter, FinishPlan, FinishBeef, ClaimFor, P.Sound, Coalesce.Flushed, Coalesce.Sealed, P.BundleWires, Beef.Conformance,
      Beef.Delivered, RateLimit.AllowObject, BeefSlot, PlanSlot, Keeps;
    match a
    case Race(w) => RaceHands(cfg, s, w, slot);
    case Finish(w, bridge) => FinishHands(cfg, s, w, bridge, slot);
    case _ =>
  }

  lemma StepClaims(cfg: Setup, s: Fleet, a: Action)
    requires ClaimsInv(cfg, s)
    ensures ClaimsInv(cfg, Step(cfg, s, a))
  {
    var t := Step(cfg, s, a);
    if a.w < |s.workers| {
      hide Step, ClaimsInv, Holders, Times, Holds, Keeps;
      StepShape(cfg, s, a);
      forall slot: Slot | Keeps(cfg, slot.plane)
        ensures Times(t.log, slot) + Holders(cfg, t.workers, slot) == if slot in t.store then 1 else 0
      {
        StepHands(cfg, s, a, slot);
        ClaimsMove(cfg, s, t, a.w, slot);
      }
      ClaimsAll(cfg, t);
    }
  }

  lemma ClaimsAll(cfg: Setup, t: Fleet)
    requires forall slot: Slot | Keeps(cfg, slot.plane) ::
               Times(t.log, slot) + Holders(cfg, t.workers, slot) == if slot in t.store then 1 else 0
    ensures ClaimsInv(cfg, t)
  {
  }

  lemma {:induction false} RunClaims(cfg: Setup, workers: nat, actions: seq<Action>)
    ensures ClaimsInv(cfg, Run(cfg, workers, actions))
  {
    if actions == [] {
      forall slot
        ensures Holders(cfg, Init(cfg, workers).workers, slot) == 0
      {
        FreeHoldNothing(cfg, Init(cfg, workers).workers, slot);
      }
    } else {
      hide ClaimsInv, Step;
      RunClaims(cfg, workers, actions[..|actions| - 1]);
      StepClaims(cfg, Run(cfg, workers, actions[..|actions| - 1]), actions[|actions| - 1]);
    }
  }

  /** Over every interleaving of workers and datagrams, each key of a store that is set admits at most one frame. */
  lemma EachKeyOnce(cfg: Setup, workers: nat, actions: seq<Action>, slot: Slot)
    requires Keeps(cfg, slot.plane)
    ensures Times(Run(cfg, workers, actions).log, slot) <= 1
    ensures Times(Run(cfg, workers, actions).log, slot) == 1 ==> slot in Run(cfg, workers, actions).store
  {
    RunClaims(cfg, workers, actions);
  }

  lemma {:induction false} OneIndex(log: seq<Entry>, slot: Slot) returns (i: nat)
    requires Times(log, slot) == 1
    ensures i < |log| && Admits(log[i], slot)
    ensures forall j | 0 <= j < |log| && Admits(log[j], slot) :: j == i
  {
    var k := |log| - 1;
    if Admits(log[k], slot) {
      i := k;
      NoIndex(log[..k], slot);
      assert forall j | 0 <= j < k :: log[..k][j] == log[j];
    } else {
      i := OneIndex(log[..k], slot);
      assert forall j | 0 <= j < k :: log[..k][j] == log[j];
    }
  }

  lemma {:induction false} NoIndex(log: seq<Entry>, slot: Slot)
    requires Times(log, slot) == 0
    ensures forall j | 0 <= j < |log| :: !Admits(log[j], slot)
  {
    if log != [] {
      NoIndex(log[..|log| - 1], slot);
    }
  }

  ghost predicate FailsToEncode(cfg: Setup, e: Entry)
    requires e.Emission?
  {
    e.outcome.Cut? && NoneEncodes(EncoderOf(cfg, e.d), e.outcome.pieces)
  }

  // ----- What an admission tells of its frame -----

  /** The promises of the gates to a transaction, block, subtree or anchor that holds a key. */
  predicate TxFacts(cfg: Setup, d: Datagram, p: P.Plan) {
    && (p.kind == Kind.Tx ==> !d.lane.BeefLane?)
    && (p.kind == Kind.Subtree || (p.kind == Kind.Block && p.splits) ==> d.lane.Privileged?)
    && (p.kind == Kind.Tx && p.flow.Some? && !cfg.tx.allowStamped ==> Stampable(p.raw) && SeqOf(p.raw) == 0)
    && (p.kind == Kind.Tx && cfg.tx.requireEf ==> p.key == Some(p.id) && cfg.tx.isEf(p.payload))
    && (p.kind == Kind.Tx && p.key.Some? && cfg.tx.verifyHash && Magic(d.raw) ==>
          cfg.tx.txid(p.payload) == p.key && cfg.tx.txSize(p.payload) == Some(|p.payload|))
    && (p.kind == Kind.Subtree && cfg.tx.verifyRoot ==>
          cfg.tx.decodeSubtree(d.raw).Some? && cfg.tx.root(p.id, cfg.tx.decodeSubtree(d.raw).value.msgType, p.payload))
  }

  /** And to an object: within its submitter's bound, marked, topical, and bound to its content. */
  predicate BeefFacts(cfg: Setup, d: Datagram, bf: Beef.BeefFrame) {
    && cfg.beef.split(bf.payload).Some?
    && var parts := cfg.beef.split(bf.payload).value;
    && (cfg.beef.maxObject > 0 ==> |parts.obj| <= Beef.BoundFor(cfg.beef, d.src))
    && cfg.beef.isBeef(parts.obj) && bf.topicId != ZERO_HASH
    && (parts.topics != [] ==> bf.topicId == cfg.beef.topicId(parts.topics[0]))
    && (Magic(d.raw) && d.src.Some? ==> bf.contentId == cfg.beef.contentId(bf.payload))
    && (d.src.Some? && |parts.topics| < 256 ==> 1 <= bf.deliver <= if parts.topics == [] then 1 else |parts.topics|)
  }

  lemma PlanFacts(cfg: Setup, d: Datagram, p: P.Plan)
    requires PlanOf(cfg, d, p)
    ensures TxFacts(cfg, d, p)
  {
    P.PlannedPassedItsGates(cfg.tx, d.raw, Beef.SrcIp(d.src), d.lane);
    P.GateSound(cfg.tx, d.raw, Beef.SrcIp(d.src), d.lane);
    hide P.Gate, SeqOf;
  }

  lemma ObjectFacts(cfg: Setup, d: Datagram, bf: Beef.BeefFrame, bytes: seq<Byte>)
    requires BeefOf(cfg, d, bf, bytes)
    ensures BeefFacts(cfg, d, bf)
  {
    hide Beef.Prepare;
  }

  /**
   Every admission of every run is of a datagram that met all its gates, to one group or to two distinct
   ones while bridging, with its datagrams sent there and nowhere else: the frame itself but for its stamp, or
   the pieces of its own payload.
   */
  lemma EveryAdmissionIsEntitled(cfg: Setup, workers: nat, actions: seq<Action>, i: nat)
    requires i < |Run(cfg, workers, actions).log| && Run(cfg, workers, actions).log[i].Emission?
    ensures
      var e := Run(cfg, workers, actions).log[i];
      && WellSent(cfg, e) && OwnBytes(cfg, e)
      && if P.Elsewhere(e.d.raw)
         then exists bf, bytes :: BeefOf(cfg, e.d, bf, bytes) && e.slot == Some(BeefSlot(cfg, bf)) && BeefFacts(cfg, e.d, bf)
         else exists p :: PlanOf(cfg, e.d, p) && e.slot == PlanSlot(p) && TxFacts(cfg, e.d, p)
  {
    RunFrames(cfg, workers, actions);
    hide Run, WellSent, OwnBytes, PlanOf, BeefOf, TxFacts, BeefFacts;
    var e := Run(cfg, workers, actions).log[i];
    assert EntryInv(cfg, e);
    if P.Elsewhere(e.d.raw) {
      var bf, bytes :| BeefOf(cfg, e.d, bf, bytes) && e.slot == Some(BeefSlot(cfg, bf));
      ObjectFacts(cfg, e.d, bf, bytes);
    } else {
      var p :| PlanOf(cfg, e.d, p) && e.slot == PlanSlot(p);
      PlanFacts(cfg, e.d, p);
    }
  }

  // ----- Refusals -----

  /** A datagram refused by a gate may be struck out of any run, wherever it came in it. */
  lemma {:induction false} RefusalsCanBeStruck(
      cfg: Setup, workers: nat, before: seq<Action>, w: nat, d: Datagram, after: seq<Action>)
    requires Enter(cfg, d).None?
    ensures Run(cfg, workers, before + [Arrive(w, d)] + after) == Run(cfg, workers, before + after)
  {
    hide Step, Enter, Init;
    var with, without := before + [Arrive(w, d)] + after, before + after;
    if after == [] {
      assert with[..|with| - 1] == before && with[|with| - 1] == Arrive(w, d) && without == before;
      RefusedStands(cfg, Run(cfg, workers, before), w, d);
    } else {
      var k := |after| - 1;
      RefusalsCanBeStruck(cfg, workers, before, w, d, after[..k]);
      assert with[..|with| - 1] == before + [Arrive(w, d)] + after[..k];
      assert without[..|without| - 1] == before + after[..k];
    }
  }

  lemma RefusedStands(cfg: Setup, s: Fleet, w: nat, d: Datagram)
    requires Enter(cfg, d).None?
    ensures Step(cfg, s, Arrive(w, d)) == s
  {
    hide Enter;
  }

  // ----- What a claim costs -----

  predicate PaidBy(c: Charged, w: nat, d: Datagram) {
    c.w == w && c.d == d && c.verdict.Allow?
  }

  /** The limiter allowed the worker's charge for this datagram. */
  ghost predicate Paid(charges: seq<Charged>, w: nat, d: Datagram) {
    exists i :: 0 <= i < |charges| && PaidBy(charges[i], w, d)
  }

  /** A worker past the budget of an object was allowed its charge. */
  ghost predicate PaidInv(s: Fleet) {
    forall w | 0 <= w < |s.workers| && s.workers[w].pc.Busy? ::
      var pc := s.workers[w].pc;
      pc.stage.Budgeted? || pc.stage.BeefWon? ==> Paid(s.charges, w, pc.d)
  }

  lemma PaidMore(charges: seq<Charged>, c: Charged, w: nat, d: Datagram)
    requires Paid(charges, w, d) || PaidBy(c, w, d)
    ensures Paid(charges + [c], w, d)
  {
    if Paid(charges, w, d) {
      var i :| 0 <= i < |charges| && PaidBy(charges[i], w, d);
      assert (charges + [c])[i] == charges[i];
    } else {
      assert (charges + [c])[|charges|] == c;
    }
  }

  lemma StepPaid(cfg: Setup, s: Fleet, a: Action)
    requires PaidInv(s)
    ensures PaidInv(Step(cfg, s, a))
  {
    hide Enter, P.Sound, P.Emit, P.Wires, Beef.EmitNow, Beef.Conformance, Beef.Delivered, BeefSlot, BeefOutcome, PlanOutcome,
      GroupsOf, Coalesce.Flushed, Coalesce.Sealed, P.BundleWires, RateLimit.AllowObject, Paid;
    var t := Step(cfg, s, a);
    if t.charges != s.charges {
      var c := t.charges[|s.charges|];
      assert t.charges == s.charges + [c];
      forall w | 0 <= w < |t.workers| && t.workers[w].pc.Busy?
        ensures
          var pc := t.workers[w].pc;
          pc.stage.Budgeted? || pc.stage.BeefWon? ==> Paid(t.charges, w, pc.d)
      {
        var pc := t.workers[w].pc;
        if pc.stage.Budgeted? || pc.stage.BeefWon? {
          PaidMore(s.charges, c, w, pc.d);
        }
      }
    }
  }

  lemma {:induction false} RunPaid(cfg: Setup, workers: nat, actions: seq<Action>)
    ensures PaidInv(Run(cfg, workers, actions))
  {
    if actions != [] {
      hide PaidInv, Step;
      RunPaid(cfg, workers, actions[..|actions| - 1]);
      StepPaid(cfg, Run(cfg, workers, actions[..|actions| - 1]), actions[|actions| - 1]);
    }
  }

  /**
   From s to t the worker won slot for the datagram it was busy with, and holds it. The datagram had passed
   its gates, and as an object its charge had been allowed.
   */
  ghost predicate Wins(cfg: Setup, s: Fleet, t: Fleet, w: nat, slot: Slot) {
    && w < |s.workers| && w < |t.workers| && s.workers[w].pc.Busy?
    && Entitled(cfg, s.workers[w].pc.d, Some(slot))
    && (match s.workers[w].pc.stage
        case Gated(p) => PlanSlot(p) == Some(slot)
        case Budgeted(bf, _) => BeefSlot(cfg, bf) == slot && Paid(s.charges, w, s.workers[w].pc.d)
        case _ => false)
    && slot !in s.store && t.store == s.store + {slot} && Holds(cfg, t.workers[w], slot) == 1
  }

  lemma StepSpends(cfg: Setup, s: Fleet, a: Action) returns (slot: Slot)
    requires FramesInv(cfg, s) && PaidInv(s) && Step(cfg, s, a).store != s.store
    ensures a.Race? && Wins(cfg, s, Step(cfg, s, a), a.w, slot)
  {
    StoreStays(cfg, s, a);
    assert WorkerInv(cfg, s.workers[a.w]);
    assert PaidInv(s);
    hide Step, PlanOf, BeefOf, Entitled, BeefSlot, FramesInv, ClaimFor, WorkerInv, Paid;
    match s.workers[a.w].pc
    case Busy(d, Gated(p)) =>
      slot := PlanSlot(p).value;
      GatedIsPlanned(cfg, s.workers[a.w]);
      PlanIsTheOnlyOne(cfg, d, p);
      SpentBy(cfg, s, a.w, slot, Busy(d, Won(p)));
    case Busy(d, Budgeted(bf, bytes)) =>
      slot := BeefSlot(cfg, bf);
      BudgetedConforms(cfg, s.workers[a.w]);
      BeefIsTheOnlyOne(cfg, d, bf, bytes);
      SpentBy(cfg, s, a.w, slot, Busy(d, BeefWon(bf, bytes)));
  }

  lemma GatedIsPlanned(cfg: Setup, wk: Worker)
    requires WorkerInv(cfg, wk) && wk.pc.Busy? && wk.pc.stage.Gated?
    ensures PlanOf(cfg, wk.pc.d, wk.pc.stage.plan)
  {
    hide PlanOf;
  }

  lemma BudgetedConforms(cfg: Setup, wk: Worker)
    requires WorkerInv(cfg, wk) && wk.pc.Busy? && wk.pc.stage.Budgeted?
    ensures BeefOf(cfg, wk.pc.d, wk.pc.stage.bf, wk.pc.stage.bytes)
  {
    hide BeefOf;
  }

  /**
   The store changes only when a worker whose datagram passed every gate, and whose charge the limiter allowed
   if it is an object, wins the claim: by that one key, which the worker then holds. A refusal at any gate, or
   by the rate, spends none.
   */
  lemma OnlyAWonClaimSpends(cfg: Setup, workers: nat, actions: seq<Action>, a: Action) returns (slot: Slot)
    requires Run(cfg, workers, actions + [a]).store != Run(cfg, workers, actions).store
    ensures a.Race? && Wins(cfg, Run(cfg, workers, actions), Run(cfg, workers, actions + [a]), a.w, slot)
  {
    hide Step, Wins, FramesInv, PaidInv;
    assert (actions + [a])[..|actions|] == actions;
    RunFrames(cfg, workers, actions);
    RunPaid(cfg, workers, actions);
    slot := StepSpends(cfg, Run(cfg, workers, actions), a);
  }

  /** Which steps can change the store, and how. */
  lemma StoreStays(cfg: Setup, s: Fleet, a: Action)
    requires Step(cfg, s, a).store != s.store
    ensures a.Race? && a.w < |s.workers| && s.workers[a.w].pc.Busy?
    ensures
      match s.workers[a.w].pc.stage
      case Gated(p) =>
        p.key.Some?
        && Step(cfg, s, a)
           == ClaimFor(cfg, s, a.w, PlanSlot(p).value, Busy(s.workers[a.w].pc.d, Won(p)))
      case Budgeted(bf, bytes) =>
        Step(cfg, s, a)
        == ClaimFor(cfg, s, a.w, BeefSlot(cfg, bf), Busy(s.workers[a.w].pc.d, BeefWon(bf, bytes)))
      case _ => false
  {
    hide Enter, P.Emit, Beef.EmitNow, Coalesce.Flushed, Beef.Conformance, Beef.Delivered, RateLimit.AllowObject, BeefSlot,
      P.Sound, P.Wires, GroupsOf, PlanOutcome, BeefOutcome;
  }

  lemma SpentBy(cfg: Setup, s: Fleet, w: nat, slot: Slot, won: Pc)
    requires w < |s.workers| && ClaimFor(cfg, s, w, slot, won).store != s.store
    ensures
      var t := ClaimFor(cfg, s, w, slot, won);
      t.store == s.store + {slot} && slot !in s.store && t.workers[w].pc == won
  {
  }

  // ----- One worker left alone -----

  function TxKeys(store: set<Slot>): set<Hash> {
    set slot <- store | slot.plane.TxPlane? :: slot.key
  }

  /** A worker takes a datagram from arrival to emission with nothing in between. */
  function Alone(cfg: Setup, s: Fleet, w: nat, d: Datagram, bridge: Bridge): Fleet {
    Step(cfg, Step(cfg, Step(cfg, s, Arrive(w, d)), Race(w)), Finish(w, bridge))
  }

  lemma AloneCount(cfg: Setup, s: Fleet, w: nat, d: Datagram, bridge: Bridge)
    requires w < |s.workers|
    ensures |Alone(cfg, s, w, d, bridge).workers| == |s.workers|
  {
    hide Step;
    StepShape(cfg, s, Arrive(w, d));
    StepShape(cfg, Step(cfg, s, Arrive(w, d)), Race(w));
    StepShape(cfg, Step(cfg, Step(cfg, s, Arrive(w, d)), Race(w)), Finish(w, bridge));
  }

  /** Then its steps are the pipeline's handling of the datagram. */
  lemma AloneItIsThePipeline(cfg: Setup, s: Fleet, w: nat, d: Datagram, bridge: Bridge)
    requires w < |s.workers| && s.workers[w].pc.Free? && !P.Elsewhere(d.raw)
    ensures
      var wk, t := s.workers[w], Alone(cfg, s, w, d, bridge);
      var h := P.Handle(cfg.tx, PipeOf(s, wk).(store := TxKeys(s.store)),
                        P.Datagram(d.raw, Beef.SrcIp(d.src), d.lane, bridge));
      && t.counts == h.counts && TxKeys(t.store) == h.store && |t.workers| == |s.workers|
      && t.workers[w] == Worker(Free, h.buckets, wk.sent + P.Wires(h.queue))
  {
    NoWires();
    AloneCount(cfg, s, w, d, bridge);
    var plan := P.Gate(cfg.tx, d.raw, Beef.SrcIp(d.src), d.lane);
    var wk := s.workers[w];
    if plan.None? {
      RefusedAlone(cfg, s, w, d, bridge);
      hide Alone, P.Gate, P.Elsewhere, P.Wires;
      assert wk.sent + [] == wk.sent;
    } else {
      var p := plan.value;
      P.GateSound(cfg.tx, d.raw, Beef.SrcIp(d.src), d.lane);
      ThreeSteps(cfg, s, w, d, p, bridge);
      hide Alone, P.Gate, P.Elsewhere, P.Wires, P.Emit, TxKeys, P.Sound;
      P.EmitIgnoresTheStore(cfg.tx, PipeOf(s, wk), TxKeys(s.store), p, bridge);
      if p.key.Some? {
        TxKeysMore(s.store, p.key.value);
        P.EmitIgnoresTheStore(cfg.tx, PipeOf(s, wk), TxKeys(s.store) + {p.key.value}, p, bridge);
      }
      assert wk.sent + [] == wk.sent;
    }
  }

  lemma RefusedAlone(cfg: Setup, s: Fleet, w: nat, d: Datagram, bridge: Bridge)
    requires w < |s.workers| && s.workers[w].pc.Free? && Enter(cfg, d).None?
    ensures Alone(cfg, s, w, d, bridge) == s
  {
    hide Enter;
  }

  /** The three steps of a planned frame, with nothing in between. */
  lemma ThreeSteps(cfg: Setup, s: Fleet, w: nat, d: Datagram, p: P.Plan, bridge: Bridge)
    requires w < |s.workers| && s.workers[w].pc.Free? && PlanOf(cfg, d, p) && P.Sound(p)
    ensures
      var wk := s.workers[w];
      var u := Alone(cfg, s, w, d, bridge);
      var t := P.Emit(cfg.tx, PipeOf(s, wk), p, bridge);
      var (store, won) := if p.key.None? then (s.store, true) else Claims.Claim(cfg.tx.dedup, s.store, PlanSlot(p).value);
      && u.store == store && w < |u.workers|
      && (won ==> u.counts == t.counts && u.workers[w] == Worker(Free, t.buckets, wk.sent + P.Wires(t.queue)))
      && (!won ==> u.counts == s.counts && u.workers[w] == wk)
  {
    hide P.Gate, P.Elsewhere, P.Wires, GroupsOf, PlanOutcome, P.Emit, P.Sound;
    var s1 := Step(cfg, s, Arrive(w, d));
    assert s1 == Goto(s, w, Busy(d, Gated(p)));
    var s2 := Step(cfg, s1, Race(w));
    var wk := s.workers[w];
    var won := p.key.None? || Claims.Claim(cfg.tx.dedup, s.store, PlanSlot(p).value).1;
    assert s2.counts == s.counts && s2.workers[w] == wk.(pc := if won then Busy(d, Won(p)) else Free);
    if won {
      assert Step(cfg, s2, Finish(w, bridge)) == FinishPlan(cfg, s2, w, d, p, bridge);
      assert PipeOf(s2, s2.workers[w]) == PipeOf(s, wk);
    }
  }

  lemma NoWires()
    ensures P.Wires([]) == []
  {
  }

  lemma TxKeysMore(store: set<Slot>, key: Hash)
    ensures TxKeys(store + {Slot(TxPlane, key)}) == TxKeys(store) + {key}
    ensures Slot(TxPlane, key) in store <==> key in TxKeys(store)
    ensures Slot(TxPlane, key) in store ==> TxKeys(store) + {key} == TxKeys(store)
  {
    assert forall slot :: slot in store + {Slot(TxPlane, key)} <==> slot in store || slot == Slot(TxPlane, key);
    assert Slot(TxPlane, key) in store ==> key in TxKeys(store);
  }

}
