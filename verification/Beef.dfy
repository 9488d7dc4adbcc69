/**
 BEEF admission (forwarder/beef.go): the in-line path, which checks, stamps and queues a prepared
 record at once, and the split path, which reserves a block of SeqNums and builds the datagrams later.

 The codecs and hashes of the shared library are parameters of the model (Setup).
 */
module Beef {
  import opened Bytes
  import opened SeqSpace
  import opened Fragment
  import opened Stamping
  import Claims
  import RateLimit

  /** A decoded FrameVer 0x09 frame. */
  datatype BeefFrame = BeefFrame(contentId: Hash, topicId: Hash, deliver: Byte, payload: seq<Byte>)

  /** A payload taken apart: the object, and the record's topics ([] for a bare object). */
  datatype Parts = Parts(obj: seq<Byte>, topics: seq<string>)

  /** A known source: the address its flow is keyed on, and the limiter's key for it. */
  datatype Source = Source(ip: Ip, key: string)

  datatype Policy = Policy(deliverCount: (Ip, nat) -> int, maxObject: Option<Ip> -> int)

  datatype Setup = Setup(
    enabled: bool, maxObject: int, policy: Option<Policy>, dedup: bool, fragSize: nat, stampSource: bool,
    limits: RateLimit.Config,
    decode: seq<Byte> -> Option<BeefFrame>, split: seq<Byte> -> Option<Parts>,
    topicId: string -> Hash, isBeef: seq<Byte> -> bool, contentId: seq<Byte> -> Hash,
    claimKey: (Hash, Hash) -> Hash, groupIndex: Hash -> nat,
    hashKey: Flow -> nat, enc: Encoder,
    record: seq<Byte> -> Option<(Parts, nat)>, multicast: (seq<Byte>, int) -> Option<seq<Byte>>)

  /** The state both paths share. */
  datatype Plane = Plane(limiter: RateLimit.Limiter, store: set<Hash>, counts: map<Flow, nat>)

  // ----- Policy -----

  function SrcIp(src: Option<Source>): Option<Ip> {
    if src.Some? then Some(src.value.ip) else None
  }

  /** beefDeliverCount: the policy's answer clamped to [1, n]. */
  function DeliverCount(cfg: Setup, src: Option<Source>, n: nat): (d: int)
    ensures n >= 1 ==> 1 <= d <= n
    ensures n == 0 ==> d == 0
    ensures cfg.policy.None? || src.None? ==> d <= 1
  {
    var asked := if cfg.policy.Some? && src.Some? then cfg.policy.value.deliverCount(src.value.ip, n) else 1;
    var least := if asked < 1 then 1 else asked;
    if least > n then n else least
  }

  /** beefObjectBoundFor: a policy may lift a source above the operator's bound, never below it. */
  function BoundFor(cfg: Setup, src: Option<Source>): (b: int)
    ensures b >= cfg.maxObject
  {
    if cfg.policy.None? then cfg.maxObject
    else
      var lifted := cfg.policy.value.maxObject(SrcIp(src));
      if lifted > cfg.maxObject then lifted else cfg.maxObject
  }

  // ----- checkBEEF -----

  datatype Refusal =
    | Disabled | DecodeError | BadRecord | Oversize | NoTopic | TopicMismatch | BadMarker
    | RateLimited(decision: RateLimit.Decision) | BadContentId | Duplicate

  /** A frame that passed: its bytes with the DeliverCount overwritten, and its plane group. */
  datatype Checked = Admitted(frame: BeefFrame, group: nat) | Refused(why: Refusal)

  /** A frame shorter than its header does not decode. */
  function Decode(cfg: Setup, raw: seq<Byte>): (f: Option<BeefFrame>)
    ensures f.Some? ==> |raw| >= HEADER
  {
    if |raw| < HEADER then None else cfg.decode(raw)
  }

  /** The conformance gates, in order; they read the frame and touch nothing. */
  function Conformance(cfg: Setup, raw: seq<Byte>, src: Option<Source>): Option<Refusal> {
    if !cfg.enabled then Some(Disabled)
    else if Decode(cfg, raw).None? then Some(DecodeError)
    else
      var bf := Decode(cfg, raw).value;
      var parts := cfg.split(bf.payload);
      if parts.None? then Some(BadRecord)
      else
        var obj, topics := parts.value.obj, parts.value.topics;
        if cfg.maxObject > 0 && |obj| > cfg.maxObject && |obj| > BoundFor(cfg, src) then Some(Oversize)
        else if bf.topicId == ZERO_HASH then Some(NoTopic)
        else if topics != [] && bf.topicId != cfg.topicId(topics[0]) then Some(TopicMismatch)
        else if !cfg.isBeef(obj) then Some(BadMarker)
        else None
  }

  function Low8(x: int): Byte {
    x % 256
  }

  /** The DeliverCount the ingress writes over the publisher's. */
  function Deliver(cfg: Setup, src: Option<Source>, topics: nat, own: Byte): Byte {
    if src.None? then own else Low8(DeliverCount(cfg, src, if topics == 0 then 1 else topics))
  }

  /** The frame and its bytes once the gates are passed. */
  function Delivered(cfg: Setup, raw: seq<Byte>, src: Option<Source>): (r: (BeefFrame, seq<Byte>))
    requires Conformance(cfg, raw, src).None?
    ensures |r.1| == |raw| >= HEADER
  {
    var bf := Decode(cfg, raw).value;
    var d := Deliver(cfg, src, |cfg.split(bf.payload).value.topics|, bf.deliver);
    (bf.(deliver := d), if src.None? then raw else raw[7 := d])
  }

  /** What surrounds one call: the clock, and the order in which the limiter's map is scanned. */
  datatype Moment = Moment(now: RateLimit.Time, scan: seq<string>)

  function LimiterKey(src: Option<Source>): Option<string> {
    if src.Some? then Some(src.value.key) else None
  }

  /** checkBEEF: the plane, the frame's bytes and the verdict. */
  function Check(cfg: Setup, s: Plane, raw: seq<Byte>, src: Option<Source>, at: Moment, checkId: bool)
    : (r: (Plane, seq<Byte>, Checked))
    ensures |r.1| == |raw| && (r.2.Admitted? ==> |raw| >= HEADER)
  {
    var bad := Conformance(cfg, raw, src);
    if bad.Some? then (s, raw, Refused(bad.value))
    else
      var (bf, bytes) := Delivered(cfg, raw, src);
      var (limiter, d) := RateLimit.AllowObject(cfg.limits, s.limiter, LimiterKey(src), |raw|, at.now, at.scan);
      var t := s.(limiter := limiter);
      if d != RateLimit.Allow then (t, bytes, Refused(RateLimited(d)))
      else if checkId && src.Some? && bf.contentId != cfg.contentId(bf.payload) then (t, bytes, Refused(BadContentId))
      else
        var (store, won) := Claims.Claim(cfg.dedup, s.store, cfg.claimKey(bf.contentId, bf.topicId));
        (t.(store := store), bytes, if won then Admitted(bf, cfg.groupIndex(bf.topicId)) else Refused(Duplicate))
  }

  /** A refusal, other than as a duplicate, never spends a claim, and one before the budget touches nothing. */
  lemma RefusalKeepsTheStore(cfg: Setup, s: Plane, raw: seq<Byte>, src: Option<Source>, at: Moment, checkId: bool)
    ensures
      var (t, bytes, c) := Check(cfg, s, raw, src, at, checkId);
      && t.counts == s.counts
      && (c.Refused? ==> t.store == s.store)
      && (Conformance(cfg, raw, src).Some? ==> t == s && bytes == raw && c.Refused?)
      && (c.Admitted? && cfg.dedup ==>
            var key := cfg.claimKey(c.frame.contentId, c.frame.topicId);
            key !in s.store && t.store == s.store + {key})
  {
    hide RateLimit.AllowObject, Conformance;
    if Conformance(cfg, raw, src).None? {
      var bf := Delivered(cfg, raw, src).0;
      var key := cfg.claimKey(bf.contentId, bf.topicId);
      assert key in s.store ==> s.store + {key} == s.store;
    }
  }

  // ----- The in-line path -----

  /** A prepared record as it reaches the plane; None stands for a record PrepareBEEF refused. */
  datatype Record = Record(frame: Option<seq<Byte>>, src: Option<Source>, at: Moment)

  /** BEEF flows are per (sender, group): the ingredient is zero, not the topic. */
  function FlowOf(src: Source, group: nat): Flow {
    Flow(src.ip, group, ZERO_HASH)
  }

  function ParcelOf(bf: BeefFrame, src: Source, group: nat): Parcel {
    Parcel(Kind.Beef, bf.contentId, bf.topicId, bf.deliver, FlowOf(src, group), bf.payload)
  }

  predicate Oversized(cfg: Setup, bf: BeefFrame) {
    cfg.fragSize > 0 && |bf.payload| > cfg.fragSize
  }

  /** processBEEF after the checks. */
  function EmitNow(cfg: Setup, s: Plane, raw: seq<Byte>, bf: BeefFrame, group: nat, src: Option<Source>): (Plane, seq<Wire>)
    requires Stampable(raw)
  {
    if src.None? then (s, [Wire(raw, group)])
    else
      var f := FlowOf(src.value, group);
      if Oversized(cfg, bf) then
        var (out, n) := Fragmented(cfg.enc, ParcelOf(bf, src.value, group), cfg.fragSize, cfg.hashKey(f), Count(s.counts, f));
        (s.(counts := Fragment.Advance(s.counts, f, n)), ToGroup(out, group))
      else
        var (counts, stamped) := Stamp(cfg.hashKey, cfg.stampSource, s.counts, raw, f);
        (s.(counts := counts), [Wire(stamped, group)])
  }

  /** DispatchBEEF. */
  function InLine(cfg: Setup, s: Plane, r: Record): (Plane, seq<Wire>) {
    if r.frame.None? then (s, [])
    else
      var (t, raw, c) := Check(cfg, s, r.frame.value, r.src, r.at, false);
      if c.Refused? then (t, []) else EmitNow(cfg, t, raw, c.frame, c.group, r.src)
  }

  // ----- The split path -----

  /** BEEFAdmission; pieces is 0 for a whole frame. */
  datatype Admission = Admission(raw: seq<Byte>, parcel: Parcel, group: nat, hashKey: nat, first: nat, pieces: nat)

  function Unsent(raw: seq<Byte>, bf: BeefFrame, group: nat): Admission {
    Admission(raw, Parcel(Kind.Beef, bf.contentId, bf.topicId, bf.deliver, Flow(seq(16, i => 0), group, ZERO_HASH), bf.payload),
              group, 0, 0, 0)
  }

  /** AdmitBEEF after the checks. */
  function Reserve(cfg: Setup, s: Plane, raw: seq<Byte>, bf: BeefFrame, group: nat, src: Option<Source>)
    : (Plane, Option<Admission>)
    requires Stampable(raw)
  {
    if src.None? then (s, Some(Unsent(raw, bf, group)))
    else
      var f, parcel := FlowOf(src.value, group), ParcelOf(bf, src.value, group);
      if Oversized(cfg, bf) then
        var k := Ceil(|bf.payload|, cfg.fragSize);
        if k > MAX_PIECES then (s, None)
        else
          (s.(counts := s.counts[f := Wrap64(Count(s.counts, f) + k)]),
           Some(Admission(raw, parcel, group, cfg.hashKey(f), Wrap64(Count(s.counts, f) + 1), k)))
      else
        var (counts, stamped) := Stamp(cfg.hashKey, cfg.stampSource, s.counts, raw, f);
        (s.(counts := counts), Some(Admission(stamped, parcel, group, KeyOf(stamped), SeqOf(stamped), 0)))
  }

  /** AdmitBEEF. */
  function Admit(cfg: Setup, s: Plane, r: Record): (Plane, Option<Admission>) {
    if r.frame.None? then (s, None)
    else
      var (t, raw, c) := Check(cfg, s, r.frame.value, r.src, r.at, false);
      if c.Refused? then (t, None) else Reserve(cfg, t, raw, c.frame, c.group, r.src)
  }

  function NthFrom(first: nat, i: nat): nat {
    Wrap64(first + i)
  }

  /** The SeqNums of a reserved block. */
  function Block(first: nat, n: nat): (ds: seq<nat>)
    ensures |ds| == n
  {
    seq(n, (i: nat) => NthFrom(first, i))
  }

  function PiecesOf(cfg: Setup, a: Admission): (ps: seq<Piece>)
    ensures |ps| == a.pieces
  {
    Pieces(a.parcel, cfg.fragSize, a.hashKey, Block(a.first, a.pieces))
  }

  /** FragmentBEEFInto with an allocator that returns what it is asked for: all the datagrams, or an error. */
  function Build(cfg: Setup, a: Admission): Option<seq<seq<Byte>>> {
    if a.pieces == 0 then Some([a.raw])
    else if AllEncode(cfg.enc, PiecesOf(cfg, a)) then Some(Encoded(cfg.enc, a.parcel, PiecesOf(cfg, a)))
    else None
  }

  /** What a caller sends for an admission; a record that fails to build is dropped whole. */
  function SendLater(cfg: Setup, a: Option<Admission>): seq<Wire> {
    if a.None? || Build(cfg, a.value).None? then [] else ToGroup(Build(cfg, a.value).value, a.value.group)
  }

  function Datagrams(a: Admission): nat {
    if a.pieces > 0 then a.pieces else 1
  }

  function TotalBytes(a: Admission): nat {
    if a.pieces > 0 then a.pieces * FRAG_HEADER + |a.parcel.payload| else |a.raw|
  }

  // ----- The two paths agree -----

  /** A block reserved at once holds the numbers that many single draws would give. */
  lemma BlockIsDraws(drawn: nat, n: nat)
    ensures Block(Wrap64(drawn + 1), n) == Draws(drawn, n)
  {
    hide Wrap64;
    forall i | 0 <= i < n
      ensures NthFrom(Wrap64(drawn + 1), i) == NthDraw(drawn, i)
    {
      Wrap64Back(drawn + 1, i);
    }
  }

  /** The condition under which the admission's fragments make the same datagrams on both paths. */
  predicate AllOrNone(cfg: Setup, a: Option<Admission>) {
    a.None? || a.value.pieces == 0 || AllEncode(cfg.enc, PiecesOf(cfg, a.value)) || NoneEncodes(cfg.enc, PiecesOf(cfg, a.value))
  }

  lemma ToGroupOfNothing(raws: seq<seq<Byte>>, group: nat)
    ensures ToGroup(raws, group) == [] <==> raws == []
  {
  }

  /** After the checks both paths leave the same plane; their datagrams agree exactly under AllOrNone. */
  lemma ReserveLikeEmit(cfg: Setup, s: Plane, raw: seq<Byte>, bf: BeefFrame, group: nat, src: Option<Source>)
    requires Stampable(raw)
    ensures
      var (now, out) := EmitNow(cfg, s, raw, bf, group, src);
      var (later, a) := Reserve(cfg, s, raw, bf, group, src);
      && now == later
      && (out == SendLater(cfg, a) <==> AllOrNone(cfg, a))
  {
    hide Stamp, Ceil, Encoded, Pieces, Draws, Block, Wrap64, ToGroup, KeyOf, SeqOf, AllEncode, NoneEncodes;
    if src.None? || !Oversized(cfg, bf) {
      OneDatagram(cfg, s, raw, bf, group, src);
    } else {
      var f, p := FlowOf(src.value, group), ParcelOf(bf, src.value, group);
      var k, drawn := Ceil(|bf.payload|, cfg.fragSize), Count(s.counts, f);
      PieceCount(|bf.payload|, cfg.fragSize);
      if k <= MAX_PIECES {
        BlockIsDraws(drawn, k);
        EncodedCount(cfg.enc, p, Pieces(p, cfg.fragSize, cfg.hashKey(f), Draws(drawn, k)));
        ToGroupOfNothing(Encoded(cfg.enc, p, Pieces(p, cfg.fragSize, cfg.hashKey(f), Draws(drawn, k))), group);
      } else {
        ToGroupOfNothing([], group);
      }
    }
  }

  lemma OneDatagram(cfg: Setup, s: Plane, raw: seq<Byte>, bf: BeefFrame, group: nat, src: Option<Source>)
    requires Stampable(raw) && (src.None? || !Oversized(cfg, bf))
    ensures EmitNow(cfg, s, raw, bf, group, src).0 == Reserve(cfg, s, raw, bf, group, src).0
    ensures EmitNow(cfg, s, raw, bf, group, src).1 == SendLater(cfg, Reserve(cfg, s, raw, bf, group, src).1)
    ensures Reserve(cfg, s, raw, bf, group, src).1.Some? && Reserve(cfg, s, raw, bf, group, src).1.value.pieces == 0
  {
    hide Stamp, KeyOf, SeqOf;
  }

  /** One record: same plane on both paths, and the same datagrams exactly when all its fragments encode or none does. */
  lemma PathsAgreeIff(cfg: Setup, s: Plane, r: Record)
    ensures InLine(cfg, s, r).0 == Admit(cfg, s, r).0
    ensures InLine(cfg, s, r).1 == SendLater(cfg, Admit(cfg, s, r).1) <==> AllOrNone(cfg, Admit(cfg, s, r).1)
  {
    hide Check, EmitNow, Reserve, SendLater, AllOrNone;
    if r.frame.Some? {
      var (t, raw, c) := Check(cfg, s, r.frame.value, r.src, r.at, false);
      if c.Admitted? {
        ReserveLikeEmit(cfg, t, raw, c.frame, c.group, r.src);
      }
    }
    NothingToSend(cfg);
  }

  lemma NothingToSend(cfg: Setup)
    ensures SendLater(cfg, None) == [] && AllOrNone(cfg, None)
  {
  }

  // ----- Whole runs -----

  /** What a record left behind: datagrams already queued, or an admission to build when convenient. */
  datatype Slot = Queued(outs: seq<Wire>) | Held(admission: Option<Admission>)

  /** A run in which each record takes the path split says. */
  function Mixed(cfg: Setup, s: Plane, records: seq<Record>, split: seq<bool>): (r: (Plane, seq<Slot>))
    requires |split| == |records|
    ensures |r.1| == |records|
  {
    if records == [] then (s, [])
    else
      var k := |records| - 1;
      var (t, slots) := Mixed(cfg, s, records[..k], split[..k]);
      if split[k] then
        var (u, a) := Admit(cfg, t, records[k]);
        (u, slots + [Held(a)])
      else
        var (u, outs) := InLine(cfg, t, records[k]);
        (u, slots + [Queued(outs)])
  }

  /** The datagrams of a run in admission order, the held ones built only now. */
  function Emitted(cfg: Setup, slots: seq<Slot>): seq<Wire> {
    if slots == [] then []
    else
      var k := |slots| - 1;
      Emitted(cfg, slots[..k]) + match slots[k]
                                 case Queued(outs) => outs
                                 case Held(a) => SendLater(cfg, a)
  }

  /** The plane after the records, on the in-line path throughout. */
  function After(cfg: Setup, s: Plane, records: seq<Record>): Plane {
    if records == [] then s
    else InLine(cfg, After(cfg, s, records[..|records| - 1]), records[|records| - 1]).0
  }

  /** The datagrams of the records, on the in-line path throughout. */
  function AllInLine(cfg: Setup, s: Plane, records: seq<Record>): seq<Wire> {
    if records == [] then []
    else
      var k := |records| - 1;
      AllInLine(cfg, s, records[..k]) + InLine(cfg, After(cfg, s, records[..k]), records[k]).1
  }

  /** No record of the run has some fragments that encode and some that do not. */
  predicate EncodesCleanly(cfg: Setup, s: Plane, records: seq<Record>) {
    records != [] ==>
      var k := |records| - 1;
      EncodesCleanly(cfg, s, records[..k]) && AllOrNone(cfg, Admit(cfg, After(cfg, s, records[..k]), records[k]).1)
  }

  /** Whatever path each record takes, limiter, dedup store and flow counters end the same. */
  lemma {:induction false} AnySplitLeavesTheSamePlane(cfg: Setup, s: Plane, records: seq<Record>, split: seq<bool>)
    requires |split| == |records|
    ensures Mixed(cfg, s, records, split).0 == After(cfg, s, records)
  {
    hide InLine, Admit;
    if records != [] {
      var k := |records| - 1;
      AnySplitLeavesTheSamePlane(cfg, s, records[..k], split[..k]);
      PathsAgreeIff(cfg, After(cfg, s, records[..k]), records[k]);
    }
  }

  /** And the datagrams, their groups and their order are the same. */
  lemma {:induction false} AnySplitEmitsTheSame(cfg: Setup, s: Plane, records: seq<Record>, split: seq<bool>)
    requires |split| == |records|
    requires EncodesCleanly(cfg, s, records)
    ensures Emitted(cfg, Mixed(cfg, s, records, split).1) == AllInLine(cfg, s, records)
  {
    hide InLine, Admit, SendLater, AllOrNone;
    if records != [] {
      var k := |records| - 1;
      AnySplitEmitsTheSame(cfg, s, records[..k], split[..k]);
      AnySplitLeavesTheSamePlane(cfg, s, records[..k], split[..k]);
      PathsAgreeIff(cfg, After(cfg, s, records[..k]), records[k]);
      var slots := Mixed(cfg, s, records, split).1;
      assert slots[..k] == Mixed(cfg, s, records[..k], split[..k]).1;
    }
  }

  /** One record taken off a run, on either path. */
  lemma MixedLast(cfg: Setup, s: Plane, records: seq<Record>, split: seq<bool>, r: Record, later: bool)
    requires |split| == |records|
    ensures
      var slots, t := Mixed(cfg, s, records, split).1, Mixed(cfg, s, records, split).0;
      Emitted(cfg, Mixed(cfg, s, records + [r], split + [later]).1)
      == Emitted(cfg, slots) + if later then SendLater(cfg, Admit(cfg, t, r).1) else InLine(cfg, t, r).1
  {
    hide InLine, Admit, SendLater;
    assert (records + [r])[..|records|] == records && (split + [later])[..|split|] == split;
    var slots := Mixed(cfg, s, records, split).1;
    assert Mixed(cfg, s, records + [r], split + [later]).1[..|slots|] == slots;
  }

  lemma {:induction false} AllInLineIsASplit(cfg: Setup, s: Plane, records: seq<Record>)
    ensures Emitted(cfg, Mixed(cfg, s, records, seq(|records|, i => false)).1) == AllInLine(cfg, s, records)
  {
    hide InLine, Admit, SendLater;
    if records != [] {
      var k := |records| - 1;
      AllInLineIsASplit(cfg, s, records[..k]);
      AnySplitLeavesTheSamePlane(cfg, s, records[..k], seq(k, i => false));
      MixedLast(cfg, s, records[..k], seq(k, i => false), records[k], false);
      assert records[..k] + [records[k]] == records && seq(k, i => false) + [false] == seq(|records|, i => false);
    }
  }

  /** Where a run does not encode cleanly, some choice of paths emits something else. */
  lemma {:induction false} UncleanRunsDiffer(cfg: Setup, s: Plane, records: seq<Record>) returns (split: seq<bool>)
    requires !EncodesCleanly(cfg, s, records)
    ensures |split| == |records| && Emitted(cfg, Mixed(cfg, s, records, split).1) != AllInLine(cfg, s, records)
  {
    hide InLine, Admit, SendLater, AllOrNone;
    var k := |records| - 1;
    var before, r := records[..k], records[k];
    assert before + [r] == records;
    if EncodesCleanly(cfg, s, before) {
      var inLine := seq(k, i => false);
      AllInLineIsASplit(cfg, s, before);
      AnySplitLeavesTheSamePlane(cfg, s, before, inLine);
      MixedLast(cfg, s, before, inLine, r, true);
      PathsAgreeIff(cfg, After(cfg, s, before), r);
      split := inLine + [true];
      var now, later := InLine(cfg, After(cfg, s, before), r).1, SendLater(cfg, Admit(cfg, After(cfg, s, before), r).1);
      JoinsDiffer(AllInLine(cfg, s, before), AllInLine(cfg, s, before), now, later);
    } else {
      var earlier := UncleanRunsDiffer(cfg, s, before);
      AnySplitLeavesTheSamePlane(cfg, s, before, earlier);
      MixedLast(cfg, s, before, earlier, r, false);
      split := earlier + [false];
      var now := InLine(cfg, After(cfg, s, before), r).1;
      JoinsDiffer(Emitted(cfg, Mixed(cfg, s, before, earlier).1), AllInLine(cfg, s, before), now, now);
    }
  }

  lemma JoinsDiffer(a: seq<Wire>, b: seq<Wire>, x: seq<Wire>, y: seq<Wire>)
    requires (a == b && x != y) || (a != b && x == y)
    ensures a + x != b + y
  {
    assert a == (a + x)[..|a|] && x == (a + x)[|a|..];
    assert b == (b + y)[..|b|] && y == (b + y)[|b|..];
  }

  /** For every run: the choice of paths never shows in what is emitted, if and only if the run encodes cleanly. */
  lemma PathsAreOneIff(cfg: Setup, s: Plane, records: seq<Record>)
    ensures (forall split: seq<bool> | |split| == |records| ::
               Emitted(cfg, Mixed(cfg, s, records, split).1) == AllInLine(cfg, s, records))
       <==> EncodesCleanly(cfg, s, records)
  {
    hide Mixed, Emitted, AllInLine, EncodesCleanly;
    if EncodesCleanly(cfg, s, records) {
      forall split: seq<bool> | |split| == |records|
        ensures Emitted(cfg, Mixed(cfg, s, records, split).1) == AllInLine(cfg, s, records)
      {
        AnySplitEmitsTheSame(cfg, s, records, split);
      }
    } else {
      var split := UncleanRunsDiffer(cfg, s, records);
    }
  }

  /**
   Such a record: two payload bytes, one to a fragment, and an encoder that refuses the second fragment.
   In-line its first fragment is queued; on the split path the record is dropped whole.
   */
  lemma UncleanRecord() returns (cfg: Setup, s: Plane, r: Record)
    ensures !EncodesCleanly(cfg, s, [r])
    ensures |InLine(cfg, s, r).1| == 1 && SendLater(cfg, Admit(cfg, s, r).1) == []
  {
    var topic: Hash := seq(32, i => 1);
    var enc: Encoder := (p: Piece) => if p.index == 0 then Some(Put(0, FRAG_HEADER) + p.data) else None;
    cfg := Setup(
      true, 0, None, true, 1, false, RateLimit.Config(0.0, 0.0, 0.0, 0.0, 0),
      (raw: seq<Byte>) => if |raw| >= HEADER then Some(BeefFrame(ZERO_HASH, topic, 0, raw[HEADER..])) else None,
      payload => Some(Parts(payload, [])),
      name => topic, obj => true, payload => ZERO_HASH, (c, t) => t, t => 0, f => 0, enc,
      rec => None, (rec, d) => None);
    var src := Source(seq(16, i => 0), "a");
    s := Plane(RateLimit.NewLimiter(cfg.limits), {}, map[]);
    var raw: seq<Byte> := seq(94, i => 1);
    r := Record(Some(raw), Some(src), Moment(1.0, []));
    var f, bf := FlowOf(src, 0), BeefFrame(ZERO_HASH, topic, 1, raw[HEADER..]);
    assert topic != ZERO_HASH by {
      assert topic[0] == 1;
    }
    var (t, bytes, c) := Check(cfg, s, raw, Some(src), r.at, false);
    assert c == Admitted(bf, 0) && t.counts == map[];
    UncleanCut(cfg, t, bytes, bf, src);
    assert [r][..0] == [] && After(cfg, s, []) == s;
    hide Check, EmitNow, Reserve, SendLater, AllOrNone;
    PathsAgreeIff(cfg, s, r);
    assert InLine(cfg, s, r) == EmitNow(cfg, t, bytes, bf, 0, Some(src));
  }

  lemma UncleanCut(cfg: Setup, s: Plane, raw: seq<Byte>, bf: BeefFrame, src: Source)
    requires Stampable(raw) && |bf.payload| == 2 && cfg.fragSize == 1
    requires forall p: Piece :: cfg.enc(p).Some? <==> p.index == 0
    ensures |EmitNow(cfg, s, raw, bf, 0, Some(src)).1| == 1
    ensures SendLater(cfg, Reserve(cfg, s, raw, bf, 0, Some(src)).1) == []
  {
    hide Wrap64;
    var f, p := FlowOf(src, 0), ParcelOf(bf, src, 0);
    assert Ceil(2, 1) == 2;
    var all := Pieces(p, 1, cfg.hashKey(f), Draws(Count(s.counts, f), 2));
    assert all[0].index == 0 && all[1].index == 1;
    assert all[..1][..0] == [] && all[..1] == [all[0]];
    assert Encoded(cfg.enc, p, all[..1]) == [Finish(p, cfg.enc(all[0]).value)];
    assert Encoded(cfg.enc, p, all) == Encoded(cfg.enc, p, all[..1]);
    BlockIsDraws(Count(s.counts, f), 2);
    hide Encoded, Draws, Block, PieceOf;
    assert !AllEncode(cfg.enc, all);
  }

  // ----- Each key is claimed once -----

  /** The keys of the records admitted, in order. */
  function ClaimedKeys(cfg: Setup, s: Plane, records: seq<Record>): seq<Hash> {
    if records == [] then []
    else
      var k := |records| - 1;
      var r, t := records[k], After(cfg, s, records[..k]);
      ClaimedKeys(cfg, s, records[..k])
      + if r.frame.None? then []
        else
          var c := Check(cfg, t, r.frame.value, r.src, r.at, false).2;
          if c.Refused? then [] else [cfg.claimKey(c.frame.contentId, c.frame.topicId)]
  }

  lemma EmitKeepsTheStore(cfg: Setup, s: Plane, r: Record)
    ensures
      InLine(cfg, s, r).0.store ==
      if r.frame.None? then s.store else Check(cfg, s, r.frame.value, r.src, r.at, false).0.store
  {
    hide Check, Stamp, Fragmented;
  }

  /** With a store, no key is admitted twice in a run, and the store holds just the admitted keys. */
  lemma {:induction false} EachKeyOnce(cfg: Setup, s: Plane, records: seq<Record>)
    requires cfg.dedup
    ensures
      var keys := ClaimedKeys(cfg, s, records);
      && (forall i, j | 0 <= i < j < |keys| :: keys[i] != keys[j])
      && (forall i | 0 <= i < |keys| :: keys[i] !in s.store)
      && After(cfg, s, records).store == s.store + set k <- keys
  {
    if records != [] {
      var k := |records| - 1;
      var r, t := records[k], After(cfg, s, records[..k]);
      EachKeyOnce(cfg, s, records[..k]);
      EmitKeepsTheStore(cfg, t, r);
      if r.frame.Some? {
        RefusalKeepsTheStore(cfg, t, r.frame.value, r.src, r.at, false);
      }
      hide Check, InLine;
      var before, keys := ClaimedKeys(cfg, s, records[..k]), ClaimedKeys(cfg, s, records);
      assert forall x <- before :: x in t.store;
    }
  }

  // ----- Datagrams and Bytes -----

  function Lengths(raws: seq<seq<Byte>>): nat {
    if raws == [] then 0 else Lengths(raws[..|raws| - 1]) + |raws[|raws| - 1]|
  }

  lemma {:induction false} EncodedLengths(cfg: Setup, p: Parcel, size: nat, key: nat, seqs: seq<nat>, n: nat)
    requires Sized(cfg.enc) && size >= 1 && |seqs| == Ceil(|p.payload|, size) && n <= |seqs|
    requires AllEncode(cfg.enc, Pieces(p, size, key, seqs))
    ensures
      var raws := Encoded(cfg.enc, p, Pieces(p, size, key, seqs)[..n]);
      |raws| == n && Lengths(raws) == n * FRAG_HEADER + if n < |seqs| then n * size else |p.payload|
  {
    hide Ceil, Finish, Pieces, Encoded;
    var all := Pieces(p, size, key, seqs);
    assert |all| == |seqs| by { CutLength(p, size, key, seqs); }
    PieceCount(|p.payload|, size);
    if n == 0 {
      assert all[..0] == [];
      NothingYet(cfg.enc, p, size, key, 0, 0);
    } else {
      EncodedLengths(cfg, p, size, key, seqs, n - 1);
      OneMoreLength(cfg, p, size, key, seqs, n - 1);
      assert n * size == (n - 1) * size + size;
    }
  }

  lemma CutLength(p: Parcel, size: nat, key: nat, seqs: seq<nat>)
    ensures |Pieces(p, size, key, seqs)| == |seqs|
  {
  }

  lemma PieceLength(p: Parcel, size: nat, key: nat, seqs: seq<nat>, k: nat)
    requires size >= 1 && |seqs| == Ceil(|p.payload|, size) && k < |seqs|
    ensures |Pieces(p, size, key, seqs)[k].data| == if k + 1 < |seqs| then size else |p.payload| - k * size
  {
    PieceBounds(|p.payload|, size, k);
    CeilIsLeast(|p.payload|, size);
    assert (k + 1) * size == k * size + size;
    hide Ceil;
  }

  lemma OneMoreLength(cfg: Setup, p: Parcel, size: nat, key: nat, seqs: seq<nat>, k: nat)
    requires Sized(cfg.enc) && size >= 1 && |seqs| == Ceil(|p.payload|, size) && k < |seqs|
    requires AllEncode(cfg.enc, Pieces(p, size, key, seqs))
    ensures
      var all := Pieces(p, size, key, seqs);
      var before, raws := Encoded(cfg.enc, p, all[..k]), Encoded(cfg.enc, p, all[..k + 1]);
      && |raws| == |before| + 1
      && Lengths(raws) == Lengths(before) + FRAG_HEADER + if k + 1 < |seqs| then size else |p.payload| - k * size
  {
    PieceLength(p, size, key, seqs, k);
    CutLength(p, size, key, seqs);
    hide Ceil, Pieces;
    var all := Pieces(p, size, key, seqs);
    assert all[..k + 1][..k] == all[..k];
    assert cfg.enc(all[k]).Some?;
    var before, raw := Encoded(cfg.enc, p, all[..k]), Finish(p, cfg.enc(all[k]).value);
    assert (before + [raw])[..|before|] == before;
  }

  /** Datagrams and Bytes announce exactly what FragmentBEEFInto then builds. */
  lemma AdmissionAnnouncesItself(cfg: Setup, s: Plane, r: Record)
    requires Sized(cfg.enc) && Admit(cfg, s, r).1.Some?
    requires Build(cfg, Admit(cfg, s, r).1.value).Some?
    ensures
      var a := Admit(cfg, s, r).1.value;
      |Build(cfg, a).value| == Datagrams(a) && Lengths(Build(cfg, a).value) == TotalBytes(a)
  {
    hide Check, Stamp, Ceil, Encoded, Pieces, KeyOf, SeqOf;
    var a := Admit(cfg, s, r).1.value;
    if a.pieces > 0 {
      EncodedLengths(cfg, a.parcel, cfg.fragSize, a.hashKey, Block(a.first, a.pieces), a.pieces);
      assert PiecesOf(cfg, a)[..a.pieces] == PiecesOf(cfg, a);
    }
  }

  // ----- PrepareBEEF -----

  /** PrepareBEEF: the frame, or None for a record refused as disabled, malformed, oversize or unmarked. */
  function Prepare(cfg: Setup, rec: seq<Byte>, src: Option<Source>): Option<seq<Byte>> {
    if !cfg.enabled then None
    else
      match cfg.record(rec)
      case None => None
      case Some((parts, n)) =>
        if n != |rec| then None
        else if BoundFor(cfg, src) > 0 && |parts.obj| > BoundFor(cfg, src) then None
        else if !cfg.isBeef(parts.obj) then None
        else cfg.multicast(rec, DeliverCount(cfg, src, |parts.topics|))
  }

  /** The codec law: a record, framed, decodes to its own content, first topic and DeliverCount. */
  ghost predicate FramesRecords(cfg: Setup) {
    forall rec: seq<Byte>, d: int ::
      cfg.record(rec).Some? && cfg.record(rec).value.1 == |rec| && cfg.multicast(rec, d).Some? ==>
        var parts := cfg.record(rec).value.0;
        && parts.topics != [] && cfg.topicId(parts.topics[0]) != ZERO_HASH
        && cfg.split(rec) == Some(parts)
        && Decode(cfg, cfg.multicast(rec, d).value)
           == Some(BeefFrame(cfg.contentId(rec), cfg.topicId(parts.topics[0]), Low8(d), rec))
  }

  /**
   A prepared record meets every conformance gate of the plane, at the same per-source bound, and the
   ContentID check that is skipped for it would have passed: only the budget or a duplicate refuses it.
   */
  lemma PreparedPassesTheGates(cfg: Setup, s: Plane, rec: seq<Byte>, src: Option<Source>, at: Moment)
    requires FramesRecords(cfg) && Prepare(cfg, rec, src).Some?
    ensures
      var raw := Prepare(cfg, rec, src).value;
      && Conformance(cfg, raw, src).None?
      && Check(cfg, s, raw, src, at, true) == Check(cfg, s, raw, src, at, false)
      && var c := Check(cfg, s, raw, src, at, false).2; c.Refused? ==> c.why.RateLimited? || c.why.Duplicate?
  {
    hide RateLimit.AllowObject, DeliverCount;
    var parts := cfg.record(rec).value.0;
    var d := DeliverCount(cfg, src, |parts.topics|);
    assert cfg.multicast(rec, d).Some?;
  }
}
