/**
 What becomes of every admitted frame (forwarder/forwarder.go, process and its fragment loops;
 forwarder/coalesce.go, FlushCoalesced): over every interleaving of workers, from the admission to the bytes sent.
 */
module Delivery {
  import opened Bytes
  import opened Admission
  import P = Pipeline
  import Beef
  import Coalesce
  import Fragment
  import PreStamped
  import SeqSpace
  import Stamping

  type Flow = SeqSpace.Flow

  // ----- Members are conserved -----

  predicate Buffers(e: Entry, f: Flow, m: Coalesce.Member) {
    e.Emission? && e.outcome == Buffered(f, m)
  }

  /** How often a member was admitted for bundling. */
  function InLog(log: seq<Entry>, f: Flow, m: Coalesce.Member): nat {
    if log == [] then 0
    else InLog(log[..|log| - 1], f, m) + if Buffers(log[|log| - 1], f, m) then 1 else 0
  }

  function Weight(e: Entry, f: Flow, m: Coalesce.Member): nat {
    if e.Bundled? then Coalesce.InBundles(e.stamped, f, m) else 0
  }

  /** How often it was stamped into a bundle of its flow. */
  function InBundled(log: seq<Entry>, f: Flow, m: Coalesce.Member): nat {
    if log == [] then 0 else InBundled(log[..|log| - 1], f, m) + Weight(log[|log| - 1], f, m)
  }

  function Held(wk: Worker, f: Flow, m: Coalesce.Member): nat {
    Coalesce.Occurs(Coalesce.MembersOf(wk.buckets, f), m)
  }

  /** How often it waits in a worker's buffer. */
  function InWorkers(workers: seq<Worker>, f: Flow, m: Coalesce.Member): nat {
    if workers == [] then 0 else InWorkers(workers[..|workers| - 1], f, m) + Held(workers[|workers| - 1], f, m)
  }

  /** Every member admitted for bundling waits in a buffer or was bundled. */
  predicate Conserved(s: Fleet, f: Flow, m: Coalesce.Member) {
    InLog(s.log, f, m) == InWorkers(s.workers, f, m) + InBundled(s.log, f, m)
  }

  lemma {:induction false} WorkersChange(workers: seq<Worker>, w: nat, x: Worker, f: Flow, m: Coalesce.Member)
    requires w < |workers|
    ensures InWorkers(workers[w := x], f, m) + Held(workers[w], f, m) == InWorkers(workers, f, m) + Held(x, f, m)
  {
    hide Held;
    var k := |workers| - 1;
    if w == k {
      assert workers[w := x][..k] == workers[..k];
    } else {
      WorkersChange(workers[..k], w, x, f, m);
      assert workers[w := x][..k] == workers[..k][w := x];
    }
  }

  lemma LogMore(log: seq<Entry>, e: Entry, f: Flow, m: Coalesce.Member)
    ensures InLog(log + [e], f, m) == InLog(log, f, m) + if Buffers(e, f, m) then 1 else 0
    ensures InBundled(log + [e], f, m) == InBundled(log, f, m) + Weight(e, f, m)
  {
    hide Weight, Buffers;
    assert (log + [e])[..|log|] == log;
  }

  /** One worker changes, and at most one entry is logged, with as much in as out. */
  ghost predicate Balances(s: Fleet, t: Fleet, w: nat, f: Flow, m: Coalesce.Member) {
    && w < |s.workers| == |t.workers| && t.workers == s.workers[w := t.workers[w]]
    && if t.log == s.log then Held(t.workers[w], f, m) == Held(s.workers[w], f, m)
       else
         && |t.log| == |s.log| + 1 && t.log == s.log + [t.log[|s.log|]]
         && Held(s.workers[w], f, m) + (if Buffers(t.log[|s.log|], f, m) then 1 else 0)
            == Held(t.workers[w], f, m) + Weight(t.log[|s.log|], f, m)
  }

  lemma BalanceKeeps(s: Fleet, t: Fleet, w: nat, f: Flow, m: Coalesce.Member)
    requires Balances(s, t, w, f, m) && Conserved(s, f, m)
    ensures Conserved(t, f, m)
  {
    hide Held, Weight, Buffers, InLog, InBundled, InWorkers;
    WorkersChange(s.workers, w, t.workers[w], f, m);
    if t.log != s.log {
      LogMore(s.log, t.log[|s.log|], f, m);
    }
  }

  lemma PlanBalances(cfg: Setup, s: Fleet, w: nat, d: Datagram, p: P.Plan, bridge: P.Bridge, f: Flow, m: Coalesce.Member)
    requires w < |s.workers| && P.Sound(p)
    ensures Balances(s, FinishPlan(cfg, s, w, d, p, bridge), w, f, m)
  {
    hide P.Emit, P.Wires, P.Sound, P.Bundles, P.Splits, GroupsOf, PlanSlot, Coalesce.Occurs, Coalesce.MembersOf,
      Coalesce.AddTo;
    PreStamped.EmitEffect(cfg.tx, PipeOf(s, s.workers[w]), p, bridge);
    PreStamped.SplitsOrBundles(cfg.tx, p, bridge);
    if P.Bundles(cfg.tx, p, bridge) {
      Coalesce.AddToOccurs(s.workers[w].buckets, p.flow.value, Coalesce.Member(p.id, p.payload), f, m);
    }
  }

  lemma FlushBalances(cfg: Setup, s: Fleet, w: nat, f: Flow, m: Coalesce.Member)
    requires w < |s.workers|
    ensures Balances(s, Flush(cfg, s, w), w, f, m)
  {
    hide Coalesce.Flushed, Coalesce.Sealed, P.BundleWires, Coalesce.MembersOf, Coalesce.InBundles;
    Coalesce.SealedOnce(P.LimitsOf(cfg.tx), cfg.tx.hashKey, s.workers[w].buckets, s.counts, f, m);
    Coalesce.NotHeld([], f);
  }

  lemma StepBalances(cfg: Setup, s: Fleet, a: Action, f: Flow, m: Coalesce.Member)
    requires a.w < |s.workers|
    ensures Balances(s, Step(cfg, s, a), a.w, f, m)
  {
    hide Enter, P.Sound, Beef.EmitNow, Beef.Conformance, Beef.Delivered, FinishPlan, Flush, BeefSlot, BeefOutcome,
      Coalesce.Occurs, Coalesce.MembersOf;
    match (a, s.workers[a.w].pc)
    case (Finish(w, bridge), Busy(d, Won(p))) =>
      if P.Sound(p) {
        PlanBalances(cfg, s, w, d, p, bridge, f, m);
      }
    case (EndBatch(w), Free) => FlushBalances(cfg, s, w, f, m);
    case (Finish(w, _), Busy(d, BeefWon(bf, bytes))) => BeefNotBuffered(cfg, s.counts, bf, d.src);
    case _ =>
  }

  lemma BeefNotBuffered(cfg: Setup, counts: map<Flow, nat>, bf: Beef.BeefFrame, src: Option<Beef.Source>)
    ensures !BeefOutcome(cfg, counts, bf, src).Buffered?
  {
    hide Fragment.Pieces, Fragment.Ceil;
  }

  lemma {:induction false} NobodyHolds(workers: seq<Worker>, f: Flow, m: Coalesce.Member)
    requires forall i | 0 <= i < |workers| :: workers[i].buckets == []
    ensures InWorkers(workers, f, m) == 0
  {
    if workers != [] {
      NobodyHolds(workers[..|workers| - 1], f, m);
    }
  }

  lemma {:induction false} RunConserves(cfg: Setup, workers: nat, actions: seq<Action>, f: Flow, m: Coalesce.Member)
    ensures Conserved(Run(cfg, workers, actions), f, m)
  {
    hide Step, InWorkers;
    if actions == [] {
      NobodyHolds(Init(cfg, workers).workers, f, m);
    } else {
      var s, a := Run(cfg, workers, actions[..|actions| - 1]), actions[|actions| - 1];
      RunConserves(cfg, workers, actions[..|actions| - 1], f, m);
      if a.w < |s.workers| {
        StepBalances(cfg, s, a, f, m);
        BalanceKeeps(s, Step(cfg, s, a), a.w, f, m);
      } else {
        NobodySteps(cfg, s, a);
      }
    }
  }

  /** Every worker is between batches. */
  ghost predicate AtRest(s: Fleet) {
    forall w | 0 <= w < |s.workers| :: s.workers[w].pc.Free? && s.workers[w].buckets == []
  }

  /**
   Between batches, whatever the interleaving, each member admitted for bundling was stamped into bundles of
   its own flow exactly as often as it was admitted: none is lost, doubled or moved to another flow.
   */
  lemma EveryMemberIsBundled(cfg: Setup, workers: nat, actions: seq<Action>, f: Flow, m: Coalesce.Member)
    requires AtRest(Run(cfg, workers, actions))
    ensures InBundled(Run(cfg, workers, actions).log, f, m) == InLog(Run(cfg, workers, actions).log, f, m)
  {
    hide Run;
    RunConserves(cfg, workers, actions, f, m);
    NobodyHolds(Run(cfg, workers, actions).workers, f, m);
  }

  // ----- What a worker sent is what the log says -----

  function SentBy(log: seq<Entry>, w: nat): seq<Fragment.Wire> {
    if log == [] then []
    else SentBy(log[..|log| - 1], w) + if log[|log| - 1].w == w then log[|log| - 1].wires else []
  }

  lemma StepSends(cfg: Setup, s: Fleet, a: Action)
    requires a.w < |s.workers|
    ensures
      var t := Step(cfg, s, a);
      && |t.workers| == |s.workers|
      && t.workers[a.w].sent == s.workers[a.w].sent + if |t.log| > |s.log| then t.log[|s.log|].wires else []
  {
    hide Enter, P.Sound, P.Emit, P.Wires, Beef.EmitNow, Beef.Conformance, Beef.Delivered, BeefSlot, BeefOutcome, PlanOutcome,
      GroupsOf, Coalesce.Flushed, Coalesce.Sealed, P.BundleWires;
    assert s.workers[a.w].sent + [] == s.workers[a.w].sent;
  }

  lemma SentMore(log: seq<Entry>, e: Entry, w: nat)
    ensures SentBy(log + [e], w) == SentBy(log, w) + if e.w == w then e.wires else []
  {
    assert (log + [e])[..|log|] == log;
  }

  /** What each worker sent, in order, is what its admissions and its batches' bundles put on the wire. */
  lemma {:induction false} SentIsTheLog(cfg: Setup, workers: nat, actions: seq<Action>, w: nat)
    requires w < workers
    ensures
      var s := Run(cfg, workers, actions);
      |s.workers| == workers && s.workers[w].sent == SentBy(s.log, w)
  {
    hide Step, SentBy;
    if actions == [] {
      NothingSent(w);
    } else {
      hide Init;
      var s, a := Run(cfg, workers, actions[..|actions| - 1]), actions[|actions| - 1];
      SentIsTheLog(cfg, workers, actions[..|actions| - 1], w);
      if a.w < |s.workers| {
        StepSends(cfg, s, a);
        StepShape(cfg, s, a);
        var t := Step(cfg, s, a);
        if t.log == s.log {
          assert s.workers[a.w].sent + [] == s.workers[a.w].sent;
        } else {
          SentMore(s.log, t.log[|s.log|], w);
          assert SentBy(s.log, w) + [] == SentBy(s.log, w);
        }
      } else {
        NobodySteps(cfg, s, a);
      }
    }
  }

  lemma NothingSent(w: nat)
    ensures SentBy([], w) == []
  {
  }

  // ----- Which bundle carries a member -----

  predicate Carries(log: seq<Entry>, k: nat, j: nat, f: Flow, m: Coalesce.Member) {
    && k < |log| && log[k].Bundled? && j < |log[k].stamped|
    && log[k].stamped[j].flow == f && m in log[k].stamped[j].members
  }

  predicate Packs(bs: seq<Coalesce.Bundle>, j: nat, f: Flow, m: Coalesce.Member) {
    j < |bs| && bs[j].flow == f && m in bs[j].members
  }

  lemma {:induction false} NoBundle(bs: seq<Coalesce.Bundle>, f: Flow, m: Coalesce.Member)
    requires Coalesce.InBundles(bs, f, m) == 0
    ensures forall j: nat :: !Packs(bs, j, f, m)
  {
    if bs != [] {
      NoBundle(bs[1..], f, m);
      Coalesce.OccursIn(bs[0].members, m);
      forall j: nat
        ensures !Packs(bs, j, f, m)
      {
        if j > 0 {
          assert !Packs(bs[1..], j - 1, f, m);
        }
      }
    }
  }

  lemma {:induction false} OneBundle(bs: seq<Coalesce.Bundle>, f: Flow, m: Coalesce.Member) returns (j: nat)
    requires Coalesce.InBundles(bs, f, m) == 1
    ensures Packs(bs, j, f, m) && forall i: nat :: Packs(bs, i, f, m) ==> i == j
  {
    Coalesce.OccursIn(bs[0].members, m);
    if bs[0].flow == f && m in bs[0].members {
      j := 0;
      NoBundle(bs[1..], f, m);
      forall i: nat | Packs(bs, i, f, m)
        ensures i == 0
      {
        assert i > 0 ==> Packs(bs[1..], i - 1, f, m);
      }
    } else {
      var k := OneBundle(bs[1..], f, m);
      j := k + 1;
      assert Packs(bs, j, f, m);
      forall i: nat | Packs(bs, i, f, m)
        ensures i == j
      {
        assert i > 0 && Packs(bs[1..], i - 1, f, m);
      }
    }
  }

  lemma CarriesSplit(log: seq<Entry>, k: nat, j: nat, f: Flow, m: Coalesce.Member)
    requires log != []
    ensures
      var n := |log| - 1;
      Carries(log, k, j, f, m)
      <==> Carries(log[..n], k, j, f, m) || (k == n && log[n].Bundled? && Packs(log[n].stamped, j, f, m))
  {
  }

  lemma {:induction false} NoCarrier(log: seq<Entry>, f: Flow, m: Coalesce.Member)
    requires InBundled(log, f, m) == 0
    ensures forall k: nat, j: nat :: !Carries(log, k, j, f, m)
  {
    if log != [] {
      var n := |log| - 1;
      NoCarrier(log[..n], f, m);
      if log[n].Bundled? {
        NoBundle(log[n].stamped, f, m);
      }
      forall k: nat, j: nat
        ensures !Carries(log, k, j, f, m)
      {
        CarriesSplit(log, k, j, f, m);
      }
    }
  }

  /** A member bundled once has one carrier. */
  lemma {:induction false} OneCarrier(log: seq<Entry>, f: Flow, m: Coalesce.Member) returns (k: nat, j: nat)
    requires InBundled(log, f, m) == 1
    ensures Carries(log, k, j, f, m) && forall x: nat, y: nat :: Carries(log, x, y, f, m) ==> x == k && y == j
  {
    hide Carries, Packs, Coalesce.InBundles;
    var n := |log| - 1;
    if Weight(log[n], f, m) == 0 {
      k, j := OneCarrier(log[..n], f, m);
      if log[n].Bundled? {
        NoBundle(log[n].stamped, f, m);
      }
    } else {
      NoCarrier(log[..n], f, m);
      k := n;
      j := OneBundle(log[n].stamped, f, m);
    }
    CarriesSplit(log, k, j, f, m);
    forall x: nat, y: nat | Carries(log, x, y, f, m)
      ensures x == k && y == j
    {
      CarriesSplit(log, x, y, f, m);
    }
  }

  /** A key claimed once is buffered at most once. */
  lemma {:induction false} BufferedAtMost(cfg: Setup, log: seq<Entry>, f: Flow, m: Coalesce.Member)
    requires forall i | 0 <= i < |log| :: EntryInv(cfg, log[i])
    ensures InLog(log, f, m) <= Times(log, Slot(TxPlane, m.txid))
  {
    hide EntryInv;
    if log != [] {
      var n := |log| - 1;
      BufferedAtMost(cfg, log[..n], f, m);
      if Buffers(log[n], f, m) {
        OwnKey(cfg, log[n]);
      }
    }
  }

  lemma OwnKey(cfg: Setup, e: Entry)
    requires e.Emission? && e.outcome.Buffered? && EntryInv(cfg, e)
    ensures Admits(e, Slot(TxPlane, e.outcome.member.txid)) && e.groups == [e.outcome.flow.group]
  {
    hide Entitled, Overflows, Fragment.NoneEncodes, PlanOf, OwnBytes;
  }

  lemma {:induction false} BufferedHere(log: seq<Entry>, i: nat, f: Flow, m: Coalesce.Member)
    requires i < |log| && Buffers(log[i], f, m)
    ensures InLog(log, f, m) >= 1
  {
    if i < |log| - 1 {
      BufferedHere(log[..|log| - 1], i, f, m);
    }
  }

  // ----- The theorem -----

  /** A datagram made of the admitted frame was sent: its own, or the bundle that carries it, to its own group. */
  ghost predicate Reached(cfg: Setup, log: seq<Entry>, e: Entry)
    requires e.Emission? && (e.outcome.Buffered? ==> |e.groups| == 1)
  {
    if e.outcome.Buffered? then
      exists k: nat, j: nat ::
        && Carries(log, k, j, e.outcome.flow, e.outcome.member)
        && var raw := cfg.tx.bundleEnc(log[k].stamped[j]);
        raw.Some? && Fragment.Wire(raw.value, e.groups[0]) in log[k].wires
    else e.wires != []
  }

  lemma BundleSent(cfg: Setup, e: Entry, j: nat)
    requires e.Bundled? && EntryInv(cfg, e) && j < |e.stamped| && cfg.tx.bundleEnc(e.stamped[j]).Some?
    ensures Fragment.Wire(cfg.tx.bundleEnc(e.stamped[j]).value, e.stamped[j].flow.group) in e.wires
  {
    hide Coalesce.Encodable;
    var enc := cfg.tx.bundleEnc;
    var bs := Coalesce.Encodable(enc, e.stamped);
    Coalesce.EncodableHas(enc, e.stamped, j);
    var i :| 0 <= i < |bs| && bs[i] == e.stamped[j];
    assert e.wires[i] == P.WireOf(P.BundleItem(enc, bs[i]));
  }

  /** The only admission of a claimed key, at rest. */
  lemma OnlyAdmission(cfg: Setup, workers: nat, actions: seq<Action>, slot: Slot) returns (i: nat)
    requires Keeps(cfg, slot.plane) && slot in Run(cfg, workers, actions).store && AtRest(Run(cfg, workers, actions))
    ensures
      var log := Run(cfg, workers, actions).log;
      && i < |log| && Admits(log[i], slot) && EntryInv(cfg, log[i]) && Times(log, slot) == 1
      && (forall j | 0 <= j < |log| && Admits(log[j], slot) :: j == i)
  {
    hide Run, EntryInv;
    var s := Run(cfg, workers, actions);
    RunClaims(cfg, workers, actions);
    FreeHoldNothing(cfg, s.workers, slot);
    assert Times(s.log, slot) == 1;
    i := OneIndex(s.log, slot);
    RunFrames(cfg, workers, actions);
  }

  /** A buffered admission of a key claimed once is carried by one bundle. */
  lemma OnlyCarrier(cfg: Setup, workers: nat, actions: seq<Action>, i: nat) returns (k: nat, j: nat)
    requires AtRest(Run(cfg, workers, actions)) && i < |Run(cfg, workers, actions).log|
    requires
      var e := Run(cfg, workers, actions).log[i];
      && e.Emission? && e.outcome.Buffered?
      && Times(Run(cfg, workers, actions).log, Slot(TxPlane, e.outcome.member.txid)) <= 1
    ensures
      var log := Run(cfg, workers, actions).log;
      && Carries(log, k, j, log[i].outcome.flow, log[i].outcome.member)
      && EntryInv(cfg, log[k])
      && forall x: nat, y: nat :: Carries(log, x, y, log[i].outcome.flow, log[i].outcome.member) ==> x == k && y == j
  {
    hide Run, EntryInv, InLog, Times, InBundled, Carries;
    var log := Run(cfg, workers, actions).log;
    var f, m := log[i].outcome.flow, log[i].outcome.member;
    RunFrames(cfg, workers, actions);
    BufferedAtMost(cfg, log, f, m);
    BufferedHere(log, i, f, m);
    EveryMemberIsBundled(cfg, workers, actions, f, m);
    k, j := OneCarrier(log, f, m);
    CarrierIsLogged(log, k, j, f, m);
  }

  lemma CarrierIsLogged(log: seq<Entry>, k: nat, j: nat, f: Flow, m: Coalesce.Member)
    requires Carries(log, k, j, f, m)
    ensures k < |log|
  {
  }

  /** What is known of an admission whose bundle, if it has one, is bundle j of entry k. */
  ghost predicate CameToNothingIff(cfg: Setup, log: seq<Entry>, i: nat, k: nat, j: nat)
    requires i < |log| && log[i].Emission? && (log[i].outcome.Buffered? ==> |log[i].groups| == 1)
    requires log[i].outcome.Buffered? ==> Carries(log, k, j, log[i].outcome.flow, log[i].outcome.member)
  {
    !Reached(cfg, log, log[i]) <==>
      || Overflows(cfg, log[i].d) || FailsToEncode(cfg, log[i])
      || (log[i].outcome.Buffered? && cfg.tx.bundleEnc(log[k].stamped[j]).None?)
  }

  lemma BundledReach(cfg: Setup, log: seq<Entry>, i: nat, k: nat, j: nat)
    requires i < |log| && log[i].Emission? && log[i].outcome.Buffered? && EntryInv(cfg, log[i])
    requires Carries(log, k, j, log[i].outcome.flow, log[i].outcome.member) && EntryInv(cfg, log[k])
    requires forall x: nat, y: nat :: Carries(log, x, y, log[i].outcome.flow, log[i].outcome.member) ==> x == k && y == j
    ensures |log[i].groups| == 1 && CameToNothingIff(cfg, log, i, k, j)
  {
    OwnKey(cfg, log[i]);
    if cfg.tx.bundleEnc(log[k].stamped[j]).Some? {
      BundleSent(cfg, log[k], j);
    }
    hide Entitled, Overflows, Fragment.NoneEncodes, OwnBytes, OwnMember, P.BundleWires, Coalesce.Encodable;
  }

  lemma SentReach(cfg: Setup, log: seq<Entry>, i: nat)
    requires i < |log| && log[i].Emission? && !log[i].outcome.Buffered? && EntryInv(cfg, log[i])
    ensures CameToNothingIff(cfg, log, i, 0, 0)
  {
    hide Entitled, Overflows, Fragment.NoneEncodes, OwnBytes, OwnMember;
  }

  /**
   Between batches a claimed key was admitted exactly once, whoever raced for it, and if its frame was small
   enough to be bundled it is in exactly one stamped bundle, of its own flow. The frame came to nothing if and
   only if it needs more than 65535 fragments, not one of its fragments encodes, or its bundle does not encode.
   */
  lemma AClaimedKeyIsAdmittedOnce(cfg: Setup, workers: nat, actions: seq<Action>, slot: Slot)
    returns (i: nat, k: nat, j: nat)
    requires Keeps(cfg, slot.plane) && slot in Run(cfg, workers, actions).store && AtRest(Run(cfg, workers, actions))
    ensures
      var log := Run(cfg, workers, actions).log;
      && i < |log| && Admits(log[i], slot) && (forall x | 0 <= x < |log| && Admits(log[x], slot) :: x == i)
      && (log[i].outcome.Buffered? ==>
            && log[i].groups == [log[i].outcome.flow.group]
            && Carries(log, k, j, log[i].outcome.flow, log[i].outcome.member)
            && forall x: nat, y: nat :: Carries(log, x, y, log[i].outcome.flow, log[i].outcome.member) ==> x == k && y == j)
      && CameToNothingIff(cfg, log, i, k, j)
  {
    hide Run, EntryInv, CameToNothingIff, Times, Carries;
    var log := Run(cfg, workers, actions).log;
    i := OnlyAdmission(cfg, workers, actions, slot);
    k, j := 0, 0;
    if log[i].outcome.Buffered? {
      OwnKey(cfg, log[i]);
      k, j := OnlyCarrier(cfg, workers, actions, i);
      BundledReach(cfg, log, i, k, j);
    } else {
      SentReach(cfg, log, i);
    }
  }

  // ----- A bundle that does not encode takes its members with it -----

  /** A lane that bundles what fits, with a bundle codec that fails. */
  function DeafLane(): P.Setup {
    PreStamped.OneByteLane().(fragSize := 0, coalesce := true, budget := 1000, cap := 8)
  }

  lemma {:induction false} NoneEncodable(enc: Coalesce.BundleEncoder, bs: seq<Coalesce.Bundle>)
    requires forall b :: enc(b).None?
    ensures Coalesce.Encodable(enc, bs) == []
  {
    if bs != [] {
      NoneEncodable(enc, bs[..|bs| - 1]);
    }
  }

  lemma DeafAdmits(raw: seq<Byte>, f: Flow)
    requires Magic(raw) && |raw| == HEADER + 2 && raw[6] == 2 && f == SeqSpace.Flow(f.ip, 0, ZERO_HASH)
    ensures P.Gate(DeafLane(), raw, Some(f.ip), P.Transaction) == Some(PreStamped.LanePlan(raw, f))
    ensures P.Sound(PreStamped.LanePlan(raw, f)) && P.Bundles(DeafLane(), PreStamped.LanePlan(raw, f), P.NO_BRIDGE)
  {
    hide Stamping.SeqOf, ZERO_HASH, Put;
  }

  lemma FlushFails(cfg: Setup, s: Fleet, w: nat)
    requires w < |s.workers| && s.workers[w].pc.Free? && forall b :: cfg.tx.bundleEnc(b).None?
    ensures
      var t := Step(cfg, s, EndBatch(w));
      && t.store == s.store && |t.workers| == |s.workers|
      && t.workers[w] == s.workers[w].(buckets := [])
  {
    var lim, bs := P.LimitsOf(cfg.tx), s.workers[w].buckets;
    Coalesce.FlushedIsSealed(lim, cfg.tx.hashKey, cfg.tx.bundleEnc, bs, s.counts);
    hide Coalesce.Flushed, Coalesce.Sealed;
    NoneEncodable(cfg.tx.bundleEnc, Coalesce.Sealed(lim, cfg.tx.hashKey, bs, s.counts).0);
    assert s.workers[w].sent + [] == s.workers[w].sent;
  }

  lemma OneStepMore(cfg: Setup, workers: nat, before: seq<Action>, a: Action)
    ensures Run(cfg, workers, before + [a]) == Step(cfg, Run(cfg, workers, before), a)
  {
    assert (before + [a])[..|before|] == before;
  }

  lemma TwoSteps(cfg: Setup, workers: nat, before: seq<Action>, a: Action, b: Action)
    ensures Run(cfg, workers, before + [a, b]) == Step(cfg, Step(cfg, Run(cfg, workers, before), a), b)
  {
    hide Step, Run;
    OneStepMore(cfg, workers, before, a);
    OneStepMore(cfg, workers, before + [a], b);
    assert before + [a] + [b] == before + [a, b];
  }

  lemma FourSteps(cfg: Setup, workers: nat, a: Action, b: Action, c: Action, d: Action)
    ensures Run(cfg, workers, [a, b, c, d]) == Step(cfg, Step(cfg, Step(cfg, Step(cfg, Init(cfg, workers), a), b), c), d)
  {
    assert Run(cfg, workers, []) == Init(cfg, workers);
    hide Step, Init, Run;
    TwoSteps(cfg, workers, [], a, b);
    TwoSteps(cfg, workers, [] + [a, b], c, d);
    assert [a, b, c, d] == [] + [a, b] + [c, d];
  }

  /** The one worker of a new fleet takes a datagram that is bundled. */
  lemma BuffersAlone(cfg: Setup, d: Datagram, p: P.Plan, bridge: P.Bridge)
    requires PlanOf(cfg, d, p) && P.Sound(p) && P.Bundles(cfg.tx, p, bridge) && p.key.Some? && cfg.tx.dedup
    ensures
      var u := Alone(cfg, Init(cfg, 1), 0, d, bridge);
      && u.store == {Slot(TxPlane, p.key.value)} && |u.workers| == 1
      && u.workers[0].pc.Free? && u.workers[0].sent == []
  {
    hide PlanOf, P.Sound, P.Bundles, Alone, P.Emit, P.Wires;
    var s := Init(cfg, 1);
    ThreeSteps(cfg, s, 0, d, p, bridge);
    AloneCount(cfg, s, 0, d, bridge);
    PreStamped.EmitQuiet(cfg.tx, PipeOf(s, s.workers[0]), p, bridge);
    NoWires();
    assert {} + {Slot(TxPlane, p.key.value)} == {Slot(TxPlane, p.key.value)};
  }

  /** And when its batch ends, with a codec that fails, nothing was sent. */
  lemma FailsAlone(cfg: Setup, d: Datagram, p: P.Plan, bridge: P.Bridge)
    requires PlanOf(cfg, d, p) && P.Sound(p) && P.Bundles(cfg.tx, p, bridge) && p.key.Some? && cfg.tx.dedup
    requires forall b :: cfg.tx.bundleEnc(b).None?
    ensures
      var s := Run(cfg, 1, [Arrive(0, d), Race(0), Finish(0, bridge), EndBatch(0)]);
      Slot(TxPlane, p.key.value) in s.store && AtRest(s) && |s.workers| == 1 && s.workers[0].sent == []
  {
    hide PlanOf, P.Sound, P.Bundles, Step, Init, Run;
    FourSteps(cfg, 1, Arrive(0, d), Race(0), Finish(0, bridge), EndBatch(0));
    BuffersAlone(cfg, d, p, bridge);
    FlushFails(cfg, Alone(cfg, Init(cfg, 1), 0, d, bridge), 0);
  }

  /**
   One worker, one transaction of two bytes: its key is claimed, it is neither too big nor fragmented, and
   when the batch ends nothing was sent.
   */
  lemma ABundleCanFail(beef: Beef.Setup) returns (d: Datagram)
    ensures
      var cfg := Setup(DeafLane(), beef, false);
      var s := Run(cfg, 1, [Arrive(0, d), Race(0), Finish(0, P.NO_BRIDGE), EndBatch(0)]);
      && Keeps(cfg, TxPlane) && Slot(TxPlane, ZERO_HASH) in s.store && AtRest(s)
      && |s.workers| == 1 && s.workers[0].sent == []
  {
    hide Run, AtRest, ZERO_HASH, P.Gate, P.Bundles, P.Sound;
    var raw: seq<Byte> := [0xE3, 0xE1, 0xF3, 0xE8, 0, 0, 2] + seq(87, i => 0);
    var f := SeqSpace.Flow(seq(16, i => 0), 0, ZERO_HASH);
    d := Datagram(raw, Some(Beef.Source(f.ip, "")), P.Transaction);
    DeafAdmits(raw, f);
    FailsAlone(Setup(DeafLane(), beef, false), d, PreStamped.LanePlan(raw, f), P.NO_BRIDGE);
  }
}
