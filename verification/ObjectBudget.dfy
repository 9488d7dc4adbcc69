/**
 What the rate budget promises about objects that reach the fabric (forwarder/ratelimit.go, allow;
 forwarder/beef.go, checkBEEF): the limiter's bounds carried over every interleaving of workers to what they emit.
 */
module ObjectBudget {
  import opened Bytes
  import opened Admission
  import P = Pipeline
  import Beef
  import Coalesce
  import RateLimit

  // ----- The fleet's charges are a run of the limiter -----

  function Requests(charges: seq<Charged>): (rs: seq<RateLimit.Request>)
    ensures |rs| == |charges|
  {
    seq(|charges|, i requires 0 <= i < |charges| => charges[i].request)
  }

  predicate Bought(c: Charged, key: string) {
    c.request.src == Some(key) && c.verdict.Allow?
  }

  /** How many of the source's charges were allowed. */
  function Allowed(charges: seq<Charged>, key: string): nat {
    if charges == [] then 0
    else Allowed(charges[..|charges| - 1], key) + if Bought(charges[|charges| - 1], key) then 1 else 0
  }

  function Books(cfg: Setup, charges: seq<Charged>, key: string): RateLimit.Ledger {
    RateLimit.AccountRun(cfg.beef.limits, key, false, Requests(charges))
  }

  lemma RequestsMore(charges: seq<Charged>, c: Charged)
    ensures Requests(charges + [c])[..|charges|] == Requests(charges)
    ensures Requests(charges + [c])[|charges|] == c.request
  {
  }

  /** A step leaves the limiter alone or makes one charge, whose verdict is the limiter's. */
  lemma StepCharges(cfg: Setup, s: Fleet, a: Action)
    ensures
      var t := Step(cfg, s, a);
      if t.charges == s.charges then t.limiter == s.limiter
      else
        && |t.charges| == |s.charges| + 1 && t.charges == s.charges + [t.charges[|s.charges|]]
        && var c := t.charges[|s.charges|];
        (t.limiter, c.verdict)
        == RateLimit.AllowObject(cfg.beef.limits, s.limiter, c.request.src, c.request.n, c.request.now, c.request.scan)
  {
    hide Enter, P.Sound, P.Emit, P.Wires, Beef.EmitNow, Beef.Conformance, Beef.Delivered, BeefSlot, BeefOutcome, PlanOutcome,
      GroupsOf, Coalesce.Flushed, Coalesce.Sealed, P.BundleWires, RateLimit.AllowObject;
  }

  ghost predicate Replayed(cfg: Setup, s: Fleet, key: string) {
    && s.limiter == Books(cfg, s.charges, key).limiter
    && Allowed(s.charges, key) == RateLimit.AllowedFor(cfg.beef.limits, key, Requests(s.charges))
  }

  lemma ChargeReplays(cfg: Setup, s: Fleet, t: Fleet, key: string, c: Charged)
    requires Replayed(cfg, s, key) && t.charges == s.charges + [c]
    requires (t.limiter, c.verdict)
          == RateLimit.AllowObject(cfg.beef.limits, s.limiter, c.request.src, c.request.n, c.request.now, c.request.scan)
    ensures Replayed(cfg, t, key)
  {
    hide RateLimit.AllowObject, RateLimit.Account, Requests;
    RequestsMore(s.charges, c);
    assert t.charges[..|s.charges|] == s.charges;
    RateLimit.AccountedLimiter(cfg.beef.limits, key, false, Books(cfg, s.charges, key), c.request);
  }

  lemma {:induction false} RunReplays(cfg: Setup, workers: nat, actions: seq<Action>, key: string)
    ensures Replayed(cfg, Run(cfg, workers, actions), key)
  {
    if actions != [] {
      var s, a := Run(cfg, workers, actions[..|actions| - 1]), actions[|actions| - 1];
      hide Step, Replayed, RateLimit.AllowObject;
      RunReplays(cfg, workers, actions[..|actions| - 1], key);
      StepCharges(cfg, s, a);
      var t := Step(cfg, s, a);
      if t.charges == s.charges {
        SameReplay(cfg, s, t, key);
      } else {
        ChargeReplays(cfg, s, t, key, t.charges[|s.charges|]);
      }
    }
  }

  lemma SameReplay(cfg: Setup, s: Fleet, t: Fleet, key: string)
    requires Replayed(cfg, s, key) && t.charges == s.charges && t.limiter == s.limiter
    ensures Replayed(cfg, t, key)
  {
  }

  // ----- Objects and what was paid for them -----

  predicate From(d: Datagram, key: string) {
    P.Elsewhere(d.raw) && Beef.LimiterKey(d.src) == Some(key)
  }

  /** How many of the source's objects were emitted. */
  function Objects(log: seq<Entry>, key: string): nat {
    if log == [] then 0
    else
      var e := log[|log| - 1];
      Objects(log[..|log| - 1], key) + if e.Emission? && From(e.d, key) then 1 else 0
  }

  function Owes(wk: Worker, key: string): nat {
    if wk.pc.Busy? && (wk.pc.stage.Budgeted? || wk.pc.stage.BeefWon?) && From(wk.pc.d, key) then 1 else 0
  }

  /** How many more are past the budget. */
  function Owing(workers: seq<Worker>, key: string): nat {
    if workers == [] then 0 else Owing(workers[..|workers| - 1], key) + Owes(workers[|workers| - 1], key)
  }

  lemma {:induction false} OwingChange(workers: seq<Worker>, w: nat, x: Worker, key: string)
    requires w < |workers|
    ensures Owing(workers[w := x], key) + Owes(workers[w], key) == Owing(workers, key) + Owes(x, key)
  {
    hide Owes;
    var k := |workers| - 1;
    if w == k {
      assert workers[w := x][..k] == workers[..k];
    } else {
      OwingChange(workers[..k], w, x, key);
      assert workers[w := x][..k] == workers[..k][w := x];
    }
  }

  lemma {:induction false} NobodyOwes(workers: seq<Worker>, key: string)
    requires forall i | 0 <= i < |workers| :: workers[i].pc.Free?
    ensures Owing(workers, key) == 0
  {
    if workers != [] {
      NobodyOwes(workers[..|workers| - 1], key);
    }
  }

  function LastObject(s: Fleet, t: Fleet, key: string): nat {
    if |t.log| > |s.log| && t.log[|s.log|].Emission? && From(t.log[|s.log|].d, key) then 1 else 0
  }

  function LastBought(s: Fleet, t: Fleet, key: string): nat {
    if |t.charges| > |s.charges| && Bought(t.charges[|s.charges|], key) then 1 else 0
  }

  /** Nothing gets by unpaid. */
  ghost predicate PaysFor(s: Fleet, t: Fleet, w: nat, key: string) {
    && w < |s.workers| == |t.workers|
    && LastObject(s, t, key) + Owes(t.workers[w], key) <= Owes(s.workers[w], key) + LastBought(s, t, key)
  }

  lemma ChargePays(cfg: Setup, s: Fleet, w: nat, at: Beef.Moment, key: string)
    requires w < |s.workers|
    ensures PaysFor(s, Step(cfg, s, Charge(w, at)), w, key)
  {
    hide Beef.Conformance, Beef.Delivered, RateLimit.AllowObject, P.Elsewhere;
  }

  lemma FinishPays(cfg: Setup, s: Fleet, w: nat, bridge: P.Bridge, key: string)
    requires w < |s.workers| && WorkerInv(cfg, s.workers[w])
    ensures PaysFor(s, Step(cfg, s, Finish(w, bridge)), w, key)
  {
    hide P.Sound, P.Emit, P.Wires, Beef.EmitNow, BeefSlot, BeefOutcome, PlanOutcome, GroupsOf, PlanSlot, P.Gate, P.Elsewhere,
      BeefInput, Beef.Conformance, Beef.Delivered;
  }

  lemma StepPays(cfg: Setup, s: Fleet, a: Action, key: string)
    requires FramesInv(cfg, s) && a.w < |s.workers|
    ensures PaysFor(s, Step(cfg, s, a), a.w, key)
  {
    assert WorkerInv(cfg, s.workers[a.w]);
    hide FramesInv, WorkerInv, Enter, P.Sound, FinishPlan, FinishBeef, Pay, Coalesce.Flushed, Coalesce.Sealed, P.BundleWires,
      BeefSlot, PlanSlot, P.Elsewhere;
    match a
    case Charge(w, at) => ChargePays(cfg, s, w, at, key);
    case Finish(w, bridge) => FinishPays(cfg, s, w, bridge, key);
    case _ =>
  }

  lemma LogsMore(log: seq<Entry>, e: Entry, key: string)
    ensures Objects(log + [e], key) == Objects(log, key) + if e.Emission? && From(e.d, key) then 1 else 0
  {
    hide From;
    assert (log + [e])[..|log|] == log;
  }

  lemma ChargesMore(charges: seq<Charged>, c: Charged, key: string)
    ensures Allowed(charges + [c], key) == Allowed(charges, key) + if Bought(c, key) then 1 else 0
  {
    hide Bought;
    assert (charges + [c])[..|charges|] == charges;
  }

  /** Over every interleaving, the source's objects emitted or under way are no more than its charges allowed. */
  lemma {:induction false} EveryObjectIsPaidFor(cfg: Setup, workers: nat, actions: seq<Action>, key: string)
    ensures
      var s := Run(cfg, workers, actions);
      Objects(s.log, key) + Owing(s.workers, key) <= Allowed(s.charges, key)
  {
    if actions == [] {
      NobodyOwes(Init(cfg, workers).workers, key);
    } else {
      hide Step, Objects, Owing, Owes, Allowed, From, Bought, FramesInv;
      var before := actions[..|actions| - 1];
      var s, a := Run(cfg, workers, before), actions[|actions| - 1];
      EveryObjectIsPaidFor(cfg, workers, before, key);
      if a.w < |s.workers| {
        RunFrames(cfg, workers, before);
        StepPays(cfg, s, a, key);
        StepShape(cfg, s, a);
        StepCharges(cfg, s, a);
        var t := Step(cfg, s, a);
        OwingChange(s.workers, a.w, t.workers[a.w], key);
        if t.log != s.log {
          LogsMore(s.log, t.log[|s.log|], key);
        }
        if t.charges != s.charges {
          ChargesMore(s.charges, t.charges[|s.charges|], key);
        }
      } else {
        NobodySteps(cfg, s, a);
      }
    }
  }

  /** A burst for each of the source's lifetimes in the table and the refill of a span. */
  function Allowance(cfg: Setup, g: RateLimit.Ledger, span: real): real {
    var d := RateLimit.Depth(cfg.beef.limits, false);
    (g.evictions + 1) as real * d.burst + RateLimit.Worth(d.rate, span)
  }

  lemma {:induction false} SpentWhileCovered(cfg: Setup, key: string, reqs: seq<RateLimit.Request>)
    requires RateLimit.Depth(cfg.beef.limits, false).rate > 0.0 && key != ""
    requires RateLimit.Observed(cfg.beef.limits, key, false, reqs)
    ensures
      var g := RateLimit.AccountRun(cfg.beef.limits, key, false, reqs);
      g.spent <= Allowance(cfg, g, RateLimit.Covered(key, g))
  {
    hide RateLimit.AccountRun, RateLimit.Worth, RateLimit.Observed, RateLimit.Covered, RateLimit.Depth;
    RateLimit.LifetimeBound(cfg.beef.limits, key, false, reqs);
  }

  lemma {:induction false} SpentOverSpan(cfg: Setup, key: string, reqs: seq<RateLimit.Request>)
    requires RateLimit.Depth(cfg.beef.limits, false).rate > 0.0 && key != ""
    requires RateLimit.Observed(cfg.beef.limits, key, false, reqs) && RateLimit.Guarded(cfg.beef.limits, key, false, reqs)
    ensures
      var g := RateLimit.AccountRun(cfg.beef.limits, key, false, reqs);
      g.spent <= Allowance(cfg, g, g.latest - g.first)
  {
    hide RateLimit.AccountRun, RateLimit.Worth, RateLimit.Observed, RateLimit.Guarded, RateLimit.Depth;
    RateLimit.SourceBound(cfg.beef.limits, key, false, reqs);
  }

  lemma RatePositive(cfg: Setup)
    requires cfg.beef.limits.srcObj >= 1.0
    ensures RateLimit.Depth(cfg.beef.limits, false).rate > 0.0
  {
  }

  /** What the source's emitted objects cost it. */
  lemma {:induction false} ObjectsSpent(cfg: Setup, workers: nat, actions: seq<Action>, key: string)
    requires cfg.beef.limits.srcObj >= 1.0 && key != ""
    requires RateLimit.Observed(cfg.beef.limits, key, false, Requests(Run(cfg, workers, actions).charges))
    ensures
      var s := Run(cfg, workers, actions);
      Objects(s.log, key) as real <= RateLimit.AccountRun(cfg.beef.limits, key, false, Requests(s.charges)).spent
  {
    hide Run, Requests, RateLimit.AccountRun, RateLimit.Observed, RateLimit.AllowedFor, Objects, Allowed, Owing;
    EveryObjectIsPaidFor(cfg, workers, actions, key);
    RunReplays(cfg, workers, actions, key);
    RateLimit.AllowedIsPaid(cfg.beef.limits, key, Requests(Run(cfg, workers, actions).charges));
  }

  /**
   With a budget of at least one object a second, the objects of a source that all the workers together put on
   the fabric are bounded by its bursts, one more than its evictions, and its refill: over the time it stayed in
   the limiter's table, and over its own span when its clock has not gone back whenever it had to enter again.
   */
  lemma {:induction false} ObjectsWithinBudget(cfg: Setup, workers: nat, actions: seq<Action>, key: string)
    requires cfg.beef.limits.srcObj >= 1.0 && key != ""
    requires RateLimit.Observed(cfg.beef.limits, key, false, Requests(Run(cfg, workers, actions).charges))
    ensures
      var s := Run(cfg, workers, actions);
      var g := RateLimit.AccountRun(cfg.beef.limits, key, false, Requests(s.charges));
      && Objects(s.log, key) as real <= Allowance(cfg, g, RateLimit.Covered(key, g))
      && (RateLimit.Guarded(cfg.beef.limits, key, false, Requests(s.charges)) ==>
            Objects(s.log, key) as real <= Allowance(cfg, g, g.latest - g.first))
  {
    hide Run, Requests, RateLimit.AccountRun, RateLimit.Observed, RateLimit.Guarded, RateLimit.Covered, RateLimit.Depth,
      Objects, Allowance;
    RatePositive(cfg);
    ObjectsSpent(cfg, workers, actions, key);
    var reqs := Requests(Run(cfg, workers, actions).charges);
    SpentWhileCovered(cfg, key, reqs);
    if RateLimit.Guarded(cfg.beef.limits, key, false, reqs) {
      SpentOverSpan(cfg, key, reqs);
    }
  }
}
