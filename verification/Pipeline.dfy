/**
 The single-worker pipeline (forwarder/forwarder.go, DispatchClass and the Process methods, and the
 flush of forwarder/coalesce.go): gates, claim, then fragments, a bundle member or a stamped frame.
 */
module Pipeline {
  import opened Bytes
  import opened SeqSpace
  import opened Fragment
  import opened Stamping
  import Claims
  import Coalesce

  datatype TxFrame = TxFrame(v2: bool, txid: Hash, sub: Hash, payload: seq<Byte>)

  /** A block, subtree-data or anchor frame: its identifier, byte 7 and payload. */
  datatype ControlFrame = ControlFrame(id: Hash, msgType: Byte, payload: seq<Byte>)

  datatype Setup = Setup(
    allowStamped: bool, requireEf: bool, verifyHash: bool, requirePow: bool, verifyRoot: bool,
    dedup: bool, fragSize: nat, stampSource: bool,
    coalesce: bool, overhead: nat, budget: int, cap: nat,
    announce: Byte, coinbase: Byte, blockGroup: nat, coinbaseFlow: nat, anchorFlow: nat, subtreeGroup: nat, announceGroup: nat,
    decodeTx: seq<Byte> -> Option<TxFrame>, decodeBlock: seq<Byte> -> Option<ControlFrame>,
    decodeSubtree: seq<Byte> -> Option<ControlFrame>, decodeAnchor: seq<Byte> -> Option<ControlFrame>,
    isEf: seq<Byte> -> bool, txSize: seq<Byte> -> Option<nat>, txid: seq<Byte> -> Option<Hash>,
    frameTx: seq<Byte> -> Option<seq<Byte>>, pow: seq<Byte> -> bool, root: (Hash, Byte, seq<Byte>) -> bool,
    groupIndex: Hash -> nat, hashKey: Flow -> nat, enc: Encoder, bundleEnc: Coalesce.BundleEncoder)

  datatype Class = Privileged | Transaction | BeefLane

  // ----- Gates: everything that may refuse a frame before it claims -----

  /**
   A frame past its gates. Only a transaction may be bundled or bridged. An anchor, a relayed bundle and an
   announcement are never split, and only the anchor of these is claimed and stamped.
   */
  datatype Plan = Plan(raw: seq<Byte>, key: Option<Hash>, flow: Option<Flow>, group: nat, splits: bool,
                       kind: Kind, id: Hash, sub: Hash, byte7: Byte, payload: seq<Byte>)

  function FlowFrom(src: Option<Ip>, group: nat, sub: Hash): Option<Flow> {
    if src.Some? then Some(Flow(src.value, group, sub)) else None
  }

  /** process ahead of the claim. */
  function GateTx(cfg: Setup, raw: seq<Byte>, src: Option<Ip>, verify: bool): Option<Plan> {
    var d := cfg.decodeTx(raw);
    if d.None? || (d.value.v2 && |raw| < HEADER) then None
    else
      var f := d.value;
      var group := cfg.groupIndex(f.txid);
      if !cfg.allowStamped && f.v2 && SeqOf(raw) != 0 then None
      else if cfg.requireEf && (!f.v2 || !cfg.isEf(f.payload)) then None
      else if verify && f.v2 && cfg.txSize(f.payload) != Some(|f.payload|) then None
      else if verify && f.v2 && cfg.txid(f.payload) != Some(f.txid) then None
      else
        Some(Plan(raw, if f.v2 then Some(f.txid) else None, if f.v2 then FlowFrom(src, group, f.sub) else None,
                  group, true, Kind.Tx, f.txid, f.sub, 0, f.payload))
  }

  /** ProcessBlock ahead of the claim: announces carry proof of work; coinbases keep a flow of their own. */
  function GateBlock(cfg: Setup, raw: seq<Byte>, src: Option<Ip>): Option<Plan> {
    var d := cfg.decodeBlock(raw);
    if d.None? || |raw| < HEADER then None
    else
      var f := d.value;
      if cfg.requirePow && f.msgType == cfg.announce && !cfg.pow(f.payload) then None
      else
        var index := if f.msgType == cfg.coinbase then cfg.coinbaseFlow else cfg.blockGroup;
        Some(Plan(raw, Some(f.id), FlowFrom(src, index, ZERO_HASH), cfg.blockGroup, true,
                  Kind.Block, f.id, ZERO_HASH, raw[7], f.payload))
  }

  /** ProcessSubtreeData ahead of the claim. */
  function GateSubtree(cfg: Setup, raw: seq<Byte>, src: Option<Ip>): Option<Plan> {
    var d := cfg.decodeSubtree(raw);
    if d.None? || |raw| < HEADER then None
    else
      var f := d.value;
      if cfg.verifyRoot && !cfg.root(f.id, f.msgType, f.payload) then None
      else
        Some(Plan(raw, Some(f.id), FlowFrom(src, cfg.subtreeGroup, f.id), cfg.subtreeGroup, true,
                  Kind.Subtree, f.id, ZERO_HASH, raw[7], f.payload))
  }

  /** ProcessAnchor ahead of the claim. */
  function GateAnchor(cfg: Setup, raw: seq<Byte>, src: Option<Ip>): Option<Plan> {
    var d := cfg.decodeAnchor(raw);
    if d.None? || |raw| < HEADER then None
    else
      Some(Plan(raw, Some(d.value.id), FlowFrom(src, cfg.anchorFlow, ZERO_HASH), cfg.blockGroup, false,
                Kind.Block, d.value.id, ZERO_HASH, raw[7], d.value.payload))
  }

  /** dispatchBareTx ahead of process: the proxy frames the transaction, so its hash is not checked again. */
  function GateBare(cfg: Setup, tx: seq<Byte>, src: Option<Ip>): Option<Plan> {
    if cfg.txSize(tx) != Some(|tx|) || (cfg.requireEf && !cfg.isEf(tx)) || cfg.frameTx(tx).None? then None
    else GateTx(cfg, cfg.frameTx(tx).value, src, false)
  }

  predicate BeefRecord(raw: seq<Byte>) {
    |raw| >= 2 && raw[0] == 0xBE && raw[1] == 0xEF
  }

  function Version(raw: seq<Byte>): int {
    if |raw| > 6 then raw[6] else -1
  }

  /** Re-emitted to a group as it is: neither claimed nor stamped, split, bundled or bridged. */
  function Verbatim(raw: seq<Byte>, group: nat): Plan {
    Plan(raw, None, None, group, false, Kind.Block, ZERO_HASH, ZERO_HASH, 0, [])
  }

  /** ProcessBundle: a bundle is relayed to the group in its header when its declared length fits the datagram. */
  function GateBundle(raw: seq<Byte>): Option<Plan> {
    if |raw| < Coalesce.BUNDLE_HEADER || Coalesce.BUNDLE_HEADER + BigEndian(raw[62..66]) > |raw| then None
    else Some(Verbatim(raw, BigEndian(raw[56..58])))
  }

  /** BEEF records and frames leave DispatchClass for a path of their own. */
  predicate Elsewhere(raw: seq<Byte>) {
    if Magic(raw) then Version(raw) == 9 else BeefRecord(raw)
  }

  /** DispatchClass up to the claim, for the frames it hands to the transaction, control and relay paths. */
  function Gate(cfg: Setup, raw: seq<Byte>, src: Option<Ip>, lane: Class): Option<Plan> {
    if Elsewhere(raw) then None
    else if !Magic(raw) then if lane.BeefLane? then None else GateBare(cfg, raw, src)
    else if Version(raw) == 4 then if lane.Privileged? then GateBlock(cfg, raw, src) else None
    else if Version(raw) == 5 then if lane.Privileged? then GateSubtree(cfg, raw, src) else None
    else if lane.BeefLane? then None
    else if Version(raw) == 6 then GateAnchor(cfg, raw, src)
    else if Version(raw) == 8 then GateBundle(raw)
    else GateTx(cfg, raw, src, cfg.verifyHash)
  }

  predicate Sound(p: Plan) {
    p.flow.Some? ==> Stampable(p.raw)
  }

  /** A planned frame that will be stamped is long enough, and control frames enter privileged sockets only. */
  lemma GateSound(cfg: Setup, raw: seq<Byte>, src: Option<Ip>, lane: Class)
    requires Gate(cfg, raw, src, lane).Some?
    ensures
      var p := Gate(cfg, raw, src, lane).value;
      && Sound(p)
      && (p.kind == Kind.Subtree || (p.kind == Kind.Block && p.splits) ==> lane.Privileged?)
      && (src.None? ==> p.flow.None?)
      && (p.kind == Kind.Tx && p.flow.Some? ==> p.flow.value.group == p.group && p.key == Some(p.id))
  {
    hide SeqOf, BigEndian;
  }

  /**
   What a planned frame is known to satisfy, whichever way it came in: unless relaying is allowed it was
   not stamped by its sender, under the EF posture it is Extended Format, and a checked identifier is
   that of its own payload, which is one transaction and no more.
   */
  lemma PlannedPassedItsGates(cfg: Setup, raw: seq<Byte>, src: Option<Ip>, lane: Class)
    requires Gate(cfg, raw, src, lane).Some?
    ensures
      var p := Gate(cfg, raw, src, lane).value;
      && (p.kind == Kind.Tx ==> !lane.BeefLane?)
      && (p.kind == Kind.Tx && p.flow.Some? && !cfg.allowStamped ==> Stampable(p.raw) && SeqOf(p.raw) == 0)
      && (p.kind == Kind.Tx && cfg.requireEf ==> p.key == Some(p.id) && cfg.isEf(p.payload))
      && (p.kind == Kind.Tx && p.key.Some? && cfg.verifyHash && Magic(raw) ==>
            cfg.txid(p.payload) == p.key && cfg.txSize(p.payload) == Some(|p.payload|))
      && (p.kind == Kind.Tx && !Magic(raw) ==> cfg.txSize(raw) == Some(|raw|))
      && (p.kind == Kind.Subtree && cfg.verifyRoot ==>
            cfg.decodeSubtree(raw).Some? && cfg.root(p.id, cfg.decodeSubtree(raw).value.msgType, p.payload))
  {
    hide SeqOf, BigEndian;
  }

  // ----- What is queued -----

  /**
   The bridging state of one frame, loaded twice: whether a window is open when bundling is decided, and the
   successor's grouping when the frame is queued.
   */
  datatype Bridge = Bridge(open: bool, successor: Option<Hash -> nat>)

  const NO_BRIDGE := Bridge(false, None)

  datatype Form = Whole | Part(parcel: Parcel, piece: Piece) | Pack(bundle: Coalesce.Bundle)

  /** A SeqNum the proxy drew on a flow. */
  datatype Draw = Draw(flow: Flow, seqNum: nat)

  /** A queued datagram; second marks the copy a bridging window adds. */
  datatype Item = Item(data: seq<Byte>, group: nat, form: Form, draw: Option<Draw>, second: bool)

  /** clean: no drawn number was lost to a failed encoding. */
  datatype Pipe = Pipe(store: set<Hash>, counts: map<Flow, nat>, buckets: seq<Coalesce.Bucket>,
                       queue: seq<Item>, clean: bool)

  const FRESH := Pipe({}, map[], [], [], true)

  function PieceItem(p: Parcel, piece: Piece, raw: seq<Byte>, group: nat): Item {
    Item(Finish(p, raw), group, Part(p, piece), Some(Draw(p.flow, piece.seqNum)), false)
  }

  /** The fragments that encode, in order. */
  function PieceItems(enc: Encoder, p: Parcel, pieces: seq<Piece>, group: nat): seq<Item> {
    if pieces == [] then []
    else
      var last := pieces[|pieces| - 1];
      PieceItems(enc, p, pieces[..|pieces| - 1], group)
      + if enc(last).Some? then [PieceItem(p, last, enc(last).value, group)] else []
  }

  function BundleItem(enc: Coalesce.BundleEncoder, b: Coalesce.Bundle): Item {
    var raw := enc(b);
    Item(if raw.Some? then raw.value else [], b.flow.group, Pack(b), Some(Draw(b.flow, b.seqNum)), false)
  }

  function BundleItems(enc: Coalesce.BundleEncoder, bs: seq<Coalesce.Bundle>): (items: seq<Item>)
    ensures |items| == |bs|
  {
    seq(|bs|, i requires 0 <= i < |bs| => BundleItem(enc, bs[i]))
  }

  /** The frame itself, and while bridging a second copy for the successor's group when that differs. */
  function WholeItems(p: Plan, raw: seq<Byte>, draw: Option<Draw>, bridge: Bridge): seq<Item> {
    var first := Item(raw, p.group, Whole, draw, false);
    if p.kind == Kind.Tx && bridge.successor.Some? && bridge.successor.value(p.id) != p.group
    then [first, first.(group := bridge.successor.value(p.id), second := true)]
    else [first]
  }

  function ParcelOf(p: Plan, f: Flow): Parcel {
    Parcel(p.kind, p.id, p.sub, p.byte7, f, p.payload)
  }

  predicate Splits(cfg: Setup, p: Plan) {
    p.flow.Some? && p.splits && cfg.fragSize > 0 && |p.payload| > cfg.fragSize
  }

  predicate Bundles(cfg: Setup, p: Plan, bridge: Bridge) {
    p.flow.Some? && p.kind == Kind.Tx && !Splits(cfg, p) && cfg.coalesce && !bridge.open
    && Coalesce.Eligible(cfg.overhead, cfg.budget, p.payload)
  }

  function Split(cfg: Setup, s: Pipe, p: Plan): Pipe
    requires Splits(cfg, p)
  {
    var f, parcel := p.flow.value, ParcelOf(p, p.flow.value);
    var k := Ceil(|p.payload|, cfg.fragSize);
    if k > MAX_PIECES then s
    else
      var items := PieceItems(cfg.enc, parcel, Pieces(parcel, cfg.fragSize, cfg.hashKey(f), Draws(Count(s.counts, f), k)), p.group);
      s.(counts := Fragment.Advance(s.counts, f, k), queue := s.queue + items, clean := s.clean && |items| == k)
  }

  function StampWhole(cfg: Setup, s: Pipe, p: Plan, bridge: Bridge): Pipe
    requires p.flow.Some? && Sound(p)
  {
    var f := p.flow.value;
    var (counts, raw) := Stamp(cfg.hashKey, cfg.stampSource, s.counts, p.raw, f);
    var draw := if SeqOf(p.raw) == 0 then Some(Draw(f, Wrap64(Count(s.counts, f) + 1))) else None;
    s.(counts := counts, queue := s.queue + WholeItems(p, raw, draw, bridge))
  }

  /** After the claim. */
  function Emit(cfg: Setup, s: Pipe, p: Plan, bridge: Bridge): Pipe
    requires Sound(p)
  {
    if p.flow.None? then s.(queue := s.queue + WholeItems(p, p.raw, None, bridge))
    else if Splits(cfg, p) then Split(cfg, s, p)
    else if Bundles(cfg, p, bridge) then
      s.(buckets := Coalesce.AddTo(s.buckets, p.flow.value, Coalesce.Member(p.id, p.payload)))
    else StampWhole(cfg, s, p, bridge)
  }

  /** The claim and what follows it. */
  function Perform(cfg: Setup, s: Pipe, p: Plan, bridge: Bridge): Pipe
    requires Sound(p)
  {
    if p.key.None? then Emit(cfg, s, p, bridge)
    else
      var (store, won) := Claims.Claim(cfg.dedup, s.store, p.key.value);
      var t := s.(store := store);
      if won then Emit(cfg, t, p, bridge) else t
  }

  function LimitsOf(cfg: Setup): Coalesce.Limits {
    Coalesce.Limits(cfg.overhead, Coalesce.PackBudget(cfg.budget), Coalesce.MemberCap(cfg.cap))
  }

  function PartsTotal(lim: Coalesce.Limits, buckets: seq<Coalesce.Bucket>): nat
    requires lim.cap >= 1
  {
    if buckets == [] then 0
    else PartsTotal(lim, buckets[..|buckets| - 1]) + |Coalesce.Pack(lim, buckets[|buckets| - 1].members)|
  }

  /** FlushCoalesced at the end of a batch. */
  function EndBatch(cfg: Setup, s: Pipe): Pipe {
    var lim := LimitsOf(cfg);
    var (bundles, counts) := Coalesce.Flushed(lim, cfg.hashKey, cfg.bundleEnc, s.buckets, s.counts);
    s.(counts := counts, buckets := [], queue := s.queue + BundleItems(cfg.bundleEnc, bundles),
       clean := s.clean && |bundles| == PartsTotal(lim, s.buckets))
  }

  /** One worker's events: a datagram, a bare transaction of a stream, an announcement of a stream, a batch's end. */
  datatype Event =
    | Datagram(raw: seq<Byte>, src: Option<Ip>, lane: Class, bridge: Bridge)
    | Bare(tx: seq<Byte>, src: Option<Ip>, bridge: Bridge)
    | Announce(raw: seq<Byte>)
    | BatchEnd

  /** What an event asks to emit, when its gates let it. */
  function PlanFor(cfg: Setup, e: Event): Option<Plan> {
    match e
    case Datagram(raw, src, lane, _) => Gate(cfg, raw, src, lane)
    case Bare(tx, src, _) => GateBare(cfg, tx, src)
    case Announce(raw) => Some(Verbatim(raw, cfg.announceGroup))
    case BatchEnd => None
  }

  function BridgeOf(e: Event): Bridge {
    match e
    case Datagram(_, _, _, bridge) => bridge
    case Bare(_, _, bridge) => bridge
    case _ => NO_BRIDGE
  }

  lemma PlanForSound(cfg: Setup, e: Event)
    requires PlanFor(cfg, e).Some?
    ensures Sound(PlanFor(cfg, e).value) && !e.BatchEnd?
  {
    hide SeqOf, BigEndian;
  }

  function Handle(cfg: Setup, s: Pipe, e: Event): Pipe {
    var p := PlanFor(cfg, e);
    if e.BatchEnd? then EndBatch(cfg, s)
    else if p.None? then s
    else
      PlanForSound(cfg, e);
      Perform(cfg, s, p.value, BridgeOf(e))
  }

  function Served(cfg: Setup, events: seq<Event>): Pipe {
    if events == [] then FRESH
    else Handle(cfg, Served(cfg, events[..|events| - 1]), events[|events| - 1])
  }

  lemma ServedOne(cfg: Setup, events: seq<Event>, e: Event)
    ensures Served(cfg, events + [e]) == Handle(cfg, Served(cfg, events), e)
  {
    assert (events + [e])[..|events|] == events;
  }

  lemma EndIsEndBatch(cfg: Setup, s: Pipe)
    ensures Handle(cfg, s, BatchEnd) == EndBatch(cfg, s) && EndBatch(cfg, s).buckets == []
  {
    hide Coalesce.Flushed, PartsTotal, BundleItems;
  }

  lemma EmitIgnoresTheStore(cfg: Setup, s: Pipe, store: set<Hash>, p: Plan, bridge: Bridge)
    requires Sound(p)
    ensures Emit(cfg, s.(store := store), p, bridge) == Emit(cfg, s, p, bridge).(store := store)
  {
    hide Stamp, SeqOf, Ceil, PieceItems, WholeItems, Coalesce.AddTo, Pieces, Draws;
  }

  // ----- The queue as bytes -----

  function WireOf(x: Item): Wire {
    Wire(x.data, x.group)
  }

  function Wires(items: seq<Item>): (ws: seq<Wire>)
    ensures |ws| == |items|
  {
    seq(|items|, i requires 0 <= i < |items| => WireOf(items[i]))
  }

  lemma WiresJoin(a: seq<Item>, b: seq<Item>)
    ensures Wires(a + b) == Wires(a) + Wires(b)
  {
  }

  /** The fragments in the queue are the bytes the fragment loop produced. */
  lemma {:induction false} WiresOfPieces(enc: Encoder, p: Parcel, pieces: seq<Piece>, group: nat)
    ensures Wires(PieceItems(enc, p, pieces, group)) == ToGroup(Encoded(enc, p, pieces), group)
  {
    if pieces != [] {
      var k := |pieces| - 1;
      WiresOfPieces(enc, p, pieces[..k], group);
      var before, raws := PieceItems(enc, p, pieces[..k], group), Encoded(enc, p, pieces[..k]);
      if enc(pieces[k]).Some? {
        WiresJoin(before, [PieceItem(p, pieces[k], enc(pieces[k]).value, group)]);
        assert ToGroup(raws + [Finish(p, enc(pieces[k]).value)], group)
            == ToGroup(raws, group) + [Wire(Finish(p, enc(pieces[k]).value), group)];
      } else {
        assert PieceItems(enc, p, pieces, group) == before && Encoded(enc, p, pieces) == raws;
      }
    }
  }

  function BundleWires(enc: Coalesce.BundleEncoder, bs: seq<Coalesce.Bundle>): (ws: seq<Wire>)
    ensures |ws| == |bs|
  {
    seq(|bs|, i requires 0 <= i < |bs| => WireOf(BundleItem(enc, bs[i])))
  }

  lemma WiresOfBundles(enc: Coalesce.BundleEncoder, bs: seq<Coalesce.Bundle>)
    ensures Wires(BundleItems(enc, bs)) == BundleWires(enc, bs)
  {
  }
}
