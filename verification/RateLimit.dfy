/**
 Token-bucket admission of the open BEEF class (forwarder/ratelimit.go).

 Time is a real parameter; 0.0 is Go's zero time, which the code reads as "never".
 The order in which Go visits the source table is a parameter too, so every result
 holds for each order the runtime may choose.
 */
module RateLimit {
  import opened Bytes

  type Time = t: real | t > 0.0 witness 1.0

  type Amount = x: real | x >= 0.0

  datatype Bucket = Bucket(rate: real, burst: real, tokens: real, last: real)

  function Min(a: real, b: real): real {
    if a < b then a else b
  }

  function Max(a: real, b: real): real {
    if a < b then b else a
  }

  function NewBucket(ratePerSec: real, burst: real): Bucket {
    if ratePerSec <= 0.0 then Bucket(0.0, 0.0, 0.0, 0.0)
    else
      var depth := Max(burst, ratePerSec);
      Bucket(ratePerSec, depth, depth, 0.0)
  }

  /** The refill half of allowN. */
  function Refill(b: Bucket, now: Time): Bucket {
    var from: real := if b.last == 0.0 then now else b.last;
    if now - from > 0.0 then b.(tokens := Min(b.tokens + (now - from) * b.rate, b.burst), last := now)
    else b.(last := from)
  }

  /** allowN: the bucket after it and whether n tokens were there. */
  function AllowN(b: Bucket, now: Time, n: Amount): (Bucket, bool) {
    if b.rate <= 0.0 then (b, true)
    else
      var c := Refill(b, now);
      var need := Min(n, c.burst);
      if c.tokens < need then (c, false) else (c.(tokens := c.tokens - need), true)
  }

  /** What an admitted request costs: never more than the bucket's depth. */
  function Cost(b: Bucket, now: Time, n: Amount): Amount
    requires Sound(b)
  {
    if b.rate > 0.0 && AllowN(b, now, n).1 then Min(n, b.burst) else 0.0
  }

  predicate Sound(b: Bucket) {
    && b.last >= 0.0
    && (b.rate > 0.0 ==> b.rate <= b.burst && 0.0 <= b.tokens <= b.burst)
  }

  // ----- One bucket over any arrivals, in any order of time -----

  datatype Arrival = Arrival(now: Time, n: Amount)

  function After(b: Bucket, arrivals: seq<Arrival>): Bucket {
    if arrivals == [] then b
    else
      var a := arrivals[|arrivals| - 1];
      AllowN(After(b, arrivals[..|arrivals| - 1]), a.now, a.n).0
  }

  lemma {:induction false} SoundForever(b: Bucket, arrivals: seq<Arrival>)
    requires Sound(b)
    ensures Sound(After(b, arrivals))
    ensures After(b, arrivals).rate == b.rate && After(b, arrivals).burst == b.burst
  {
    if arrivals != [] {
      var a := arrivals[|arrivals| - 1];
      var c := After(b, arrivals[..|arrivals| - 1]);
      SoundForever(b, arrivals[..|arrivals| - 1]);
      if c.rate > 0.0 {
        RefillSound(c, a.now);
      }
    }
  }

  lemma RefillSound(b: Bucket, now: Time)
    requires Sound(b) && b.rate > 0.0
    ensures Sound(Refill(b, now))
  {
    var from := if b.last == 0.0 then now else b.last;
    if now - from > 0.0 {
      ProductPositive(now - from, b.rate);
    }
  }

  lemma ProductPositive(a: real, b: real)
    requires a >= 0.0 && b >= 0.0
    ensures a * b >= 0.0
  {
  }

  /** Tokens the arrivals took. */
  function Spent(b: Bucket, arrivals: seq<Arrival>): Amount
    requires Sound(b)
  {
    if arrivals == [] then 0.0
    else
      var a, before := arrivals[|arrivals| - 1], arrivals[..|arrivals| - 1];
      SoundForever(b, before);
      Spent(b, before) + Cost(After(b, before), a.now, a.n)
  }

  function Latest(start: real, arrivals: seq<Arrival>): real {
    if arrivals == [] then start
    else Max(Latest(start, arrivals[..|arrivals| - 1]), arrivals[|arrivals| - 1].now)
  }

  /** The instant a bucket's refill counts from: its last one, or the first arrival's. */
  function Start(b: Bucket, arrivals: seq<Arrival>): real {
    if b.last == 0.0 && arrivals != [] then arrivals[0].now else b.last
  }

  /** What a span of time is worth in tokens. */
  function Worth(rate: real, span: real): real {
    rate * span
  }

  lemma WorthAdds(rate: real, a: real, b: real, c: real)
    ensures Worth(rate, a - c) == Worth(rate, a - b) + Worth(rate, b - c)
  {
    assert rate * (a - c) == rate * ((a - b) + (b - c));
  }

  /** One request never takes more than the refill since the last one brought. */
  lemma StepPotential(b: Bucket, now: Time, n: Amount, start: real)
    requires Sound(b) && b.rate > 0.0
    ensures
      var c, from := AllowN(b, now, n).0, if b.last == 0.0 then now else b.last;
      && c.last == Max(from, now)
      && Cost(b, now, n) + c.tokens + Worth(b.rate, from - start) <= b.tokens + Worth(b.rate, c.last - start)
      && Worth(b.rate, 0.0) == 0.0
  {
    var from := if b.last == 0.0 then now else b.last;
    WorthAdds(b.rate, now, from, start);
  }

  lemma {:induction false} SpentPotential(b: Bucket, arrivals: seq<Arrival>)
    requires Sound(b) && b.rate > 0.0 && arrivals != []
    ensures
      var c, start := After(b, arrivals), Start(b, arrivals);
      && c.last == Latest(start, arrivals)
      && Spent(b, arrivals) + c.tokens <= b.tokens + Worth(b.rate, c.last - start)
  {
    hide AllowN, Cost, Worth;
    var k := |arrivals| - 1;
    var a, before := arrivals[k], arrivals[..k];
    var start := Start(b, arrivals);
    SoundForever(b, before);
    StepPotential(After(b, before), a.now, a.n, start);
    if before != [] {
      assert Start(b, before) == start;
      SpentPotential(b, before);
      LatestPositive(start, before);
    }
  }

  lemma {:induction false} LatestPositive(start: real, arrivals: seq<Arrival>)
    requires start >= 0.0 && arrivals != []
    ensures Latest(start, arrivals) > 0.0
  {
    if |arrivals| > 1 {
      LatestPositive(start, arrivals[..|arrivals| - 1]);
    }
  }

  /** Over any arrivals, even out of order, a bucket gives at most its depth plus its rate times the span. */
  lemma SpentBound(ratePerSec: real, burst: real, arrivals: seq<Arrival>)
    requires ratePerSec > 0.0 && arrivals != []
    ensures
      var b := NewBucket(ratePerSec, burst);
      && Sound(b)
      && Spent(b, arrivals) <= b.burst + Worth(ratePerSec, Latest(arrivals[0].now, arrivals) - arrivals[0].now)
  {
    var b := NewBucket(ratePerSec, burst);
    SpentPotential(b, arrivals);
    SoundForever(b, arrivals);
  }

  /** After burst/rate idle seconds any request is admitted, whatever it asks. */
  lemma AdmittedAfterIdle(b: Bucket, now: Time, n: Amount)
    requires Sound(b) && b.rate > 0.0 && b.last > 0.0
    requires now - b.last >= b.burst / b.rate
    ensures AllowN(b, now, n).1
  {
    var idle := now - b.last;
    assert b.burst / b.rate > 0.0;
    assert idle * b.rate >= b.burst / b.rate * b.rate == b.burst;
  }

  // ----- Objects, as opposed to tokens -----

  function Admitted(b: Bucket, arrivals: seq<Arrival>): nat {
    if arrivals == [] then 0
    else
      var a, before := arrivals[|arrivals| - 1], arrivals[..|arrivals| - 1];
      Admitted(b, before) + if AllowN(After(b, before), a.now, a.n).1 then 1 else 0
  }

  predicate OneEach(arrivals: seq<Arrival>) {
    forall a <- arrivals :: a.n == 1.0
  }

  /** Where the depth is at least one, an admitted object costs one token. */
  lemma {:induction false} ObjectsCost(b: Bucket, arrivals: seq<Arrival>)
    requires Sound(b) && b.rate > 0.0 && b.burst >= 1.0 && OneEach(arrivals)
    ensures Spent(b, arrivals) == Admitted(b, arrivals) as real
  {
    if arrivals != [] {
      hide AllowN;
      var a, before := arrivals[|arrivals| - 1], arrivals[..|arrivals| - 1];
      SoundForever(b, before);
      ObjectsCost(b, before);
      assert a in arrivals;
    }
  }

  /** The objects-per-second budget, as its name promises it: depth and rate in objects. */
  ghost predicate ObjectBudgetHolds(ratePerSec: real)
    requires ratePerSec > 0.0
  {
    forall arrivals: seq<Arrival> | arrivals != [] && OneEach(arrivals) ::
      Admitted(NewBucket(ratePerSec, ratePerSec), arrivals) as real
      <= ratePerSec + Worth(ratePerSec, Latest(arrivals[0].now, arrivals) - arrivals[0].now)
  }

  /** It holds exactly for rates of at least one: below, an object costs a full bucket and no more. */
  lemma ObjectBudgetIffAtLeastOne(ratePerSec: real)
    requires ratePerSec > 0.0
    ensures ObjectBudgetHolds(ratePerSec) <==> ratePerSec >= 1.0
  {
    var b := NewBucket(ratePerSec, ratePerSec);
    if ratePerSec >= 1.0 {
      forall arrivals: seq<Arrival> | arrivals != [] && OneEach(arrivals)
        ensures Admitted(b, arrivals) as real
                <= ratePerSec + Worth(ratePerSec, Latest(arrivals[0].now, arrivals) - arrivals[0].now)
      {
        SpentBound(ratePerSec, ratePerSec, arrivals);
        ObjectsCost(b, arrivals);
      }
    } else {
      var one := [Arrival(1.0, 1.0)];
      assert one[..0] == [];
      assert Latest(1.0, one) == 1.0;
      assert Admitted(b, one) == 1;
    }
  }

  // ----- The two-tier limiter -----

  datatype Config = Config(srcObj: real, srcByt: real, planeObj: real, planeByt: real, cap: int)

  /** Budgets of one source, keyed by its masked address. */
  datatype Source = Source(obj: Bucket, byt: Bucket, seen: real)

  datatype Limiter = Limiter(planeObj: Bucket, planeByt: Bucket, srcs: map<string, Source>)

  datatype Decision = Allow | DenySource | DenyPlane

  const DEFAULT_CAP: nat := 65536

  function Cap(cfg: Config): (c: nat)
    ensures c >= 1
  {
    if cfg.cap <= 0 then DEFAULT_CAP else cfg.cap
  }

  function NewLimiter(cfg: Config): Limiter {
    Limiter(NewBucket(cfg.planeObj, cfg.planeObj), NewBucket(cfg.planeByt, cfg.planeByt), map[])
  }

  predicate Enabled(cfg: Config) {
    cfg.srcObj > 0.0 || cfg.srcByt > 0.0 || cfg.planeObj > 0.0 || cfg.planeByt > 0.0
  }

  predicate SourceTier(cfg: Config) {
    cfg.srcObj > 0.0 || cfg.srcByt > 0.0
  }

  /** The scan of evictOldestLocked over the first k keys visited: the key kept, "" for none, and its time. */
  function Oldest(srcs: map<string, Source>, scan: seq<string>): (string, real) {
    if scan == [] then ("", 0.0)
    else
      var (key, oldest) := Oldest(srcs, scan[..|scan| - 1]);
      var k := scan[|scan| - 1];
      if k in srcs && (oldest == 0.0 || srcs[k].seen < oldest) then (k, srcs[k].seen) else (key, oldest)
  }

  function Evict(srcs: map<string, Source>, scan: seq<string>): map<string, Source> {
    var key := Oldest(srcs, scan).0;
    if key != "" then srcs - {key} else srcs
  }

  /** The source's budgets after its table lookup, charged at now. */
  function Admit(cfg: Config, srcs: map<string, Source>, key: string, now: Time, scan: seq<string>)
    : (t: map<string, Source>)
    ensures key in t
  {
    if key in srcs then srcs[key := srcs[key].(seen := now)]
    else
      var room := if |srcs| >= Cap(cfg) then Evict(srcs, scan) else srcs;
      room[key := Source(NewBucket(cfg.srcObj, cfg.srcObj), NewBucket(cfg.srcByt, cfg.srcByt), now)]
  }

  /** The object token is taken first; a byte refusal does not give it back. */
  function ChargeSource(s: Source, n: nat, now: Time): (Source, bool) {
    var (obj, ok) := AllowN(s.obj, now, 1.0);
    if !ok then (s.(obj := obj), false)
    else
      var (byt, enough) := AllowN(s.byt, now, n as real);
      (s.(obj := obj, byt := byt), enough)
  }

  function AllowSource(cfg: Config, l: Limiter, key: string, n: nat, now: Time, scan: seq<string>): (Limiter, bool) {
    if !SourceTier(cfg) then (l, true)
    else
      var t := Admit(cfg, l.srcs, key, now, scan);
      var (s, ok) := ChargeSource(t[key], n, now);
      (l.(srcs := t[key := s]), ok)
  }

  /** allow: the source tier is charged first, the plane only when the source permits. */
  function AllowObject(cfg: Config, l: Limiter, src: Option<string>, n: nat, now: Time, scan: seq<string>)
    : (Limiter, Decision)
  {
    if !Enabled(cfg) || src.None? then (l, Allow)
    else
      var (m, ok) := AllowSource(cfg, l, src.value, n, now, scan);
      if !ok then (m, DenySource)
      else
        var (obj, okObj) := AllowN(m.planeObj, now, 1.0);
        if !okObj then (m.(planeObj := obj), DenyPlane)
        else
          var (byt, okByt) := AllowN(m.planeByt, now, n as real);
          (m.(planeObj := obj, planeByt := byt), if okByt then Allow else DenyPlane)
  }

  class BeefLimiter {
    const cfg: Config
    var planeObj: Bucket
    var planeByt: Bucket
    var srcs: map<string, Source>

    ghost function View(): Limiter
      reads this
    {
      Limiter(planeObj, planeByt, srcs)
    }

    constructor (cfg: Config)
      ensures this.cfg == cfg && View() == NewLimiter(cfg)
    {
      this.cfg := cfg;
      planeObj := NewBucket(cfg.planeObj, cfg.planeObj);
      planeByt := NewBucket(cfg.planeByt, cfg.planeByt);
      srcs := map[];
    }

    method EvictOldest(scan: seq<string>)
      modifies this`srcs
      ensures srcs == Evict(old(srcs), scan)
    {
      var oldestKey, oldest := "", 0.0;
      for i := 0 to |scan|
        invariant (oldestKey, oldest) == Oldest(srcs, scan[..i])
      {
        var k := scan[i];
        assert scan[..i + 1][..i] == scan[..i];
        if k in srcs && (oldest == 0.0 || srcs[k].seen < oldest) {
          oldest, oldestKey := srcs[k].seen, k;
        }
      }
      assert scan[..|scan|] == scan;
      if oldestKey != "" {
        srcs := srcs - {oldestKey};
      }
    }

    method AllowFromSource(key: string, n: nat, now: Time, scan: seq<string>) returns (ok: bool)
      modifies this`srcs
      ensures (View(), ok) == AllowSource(cfg, old(View()), key, n, now, scan)
    {
      if cfg.srcObj <= 0.0 && cfg.srcByt <= 0.0 {
        return true;
      }
      if key !in srcs {
        if |srcs| >= Cap(cfg) {
          EvictOldest(scan);
        }
        srcs := srcs[key := Source(NewBucket(cfg.srcObj, cfg.srcObj), NewBucket(cfg.srcByt, cfg.srcByt), now)];
      } else {
        srcs := srcs[key := srcs[key].(seen := now)];
      }
      var s := srcs[key];
      var obj, okObj := AllowN(s.obj, now, 1.0).0, AllowN(s.obj, now, 1.0).1;
      s := s.(obj := obj);
      ok := okObj;
      if okObj {
        var byt := AllowN(s.byt, now, n as real);
        s := s.(byt := byt.0);
        ok := byt.1;
      }
      srcs := srcs[key := s];
    }

    method AllowOne(src: Option<string>, n: nat, now: Time, scan: seq<string>) returns (d: Decision)
      modifies this
      ensures (View(), d) == AllowObject(cfg, old(View()), src, n, now, scan)
    {
      if !Enabled(cfg) || src.None? {
        return Allow;
      }
      var ok := AllowFromSource(src.value, n, now, scan);
      if !ok {
        return DenySource;
      }
      var obj := AllowN(planeObj, now, 1.0);
      planeObj := obj.0;
      if !obj.1 {
        return DenyPlane;
      }
      var byt := AllowN(planeByt, now, n as real);
      planeByt := byt.0;
      d := if byt.1 then Allow else DenyPlane;
    }
  }

  // ----- What the limiter keeps -----

  /** The scan visits exactly the tracked keys; keys are non-empty and charged at non-zero times. */
  ghost predicate Visits(scan: seq<string>, srcs: map<string, Source>) {
    forall k :: k in scan <==> k in srcs
  }

  ghost predicate Tracked(srcs: map<string, Source>) {
    forall k | k in srcs :: k != "" && srcs[k].seen > 0.0
  }

  lemma {:induction false} OldestIsLeast(srcs: map<string, Source>, scan: seq<string>)
    requires Tracked(srcs)
    ensures
      var (key, oldest) := Oldest(srcs, scan);
      && (oldest == 0.0 <==> key == "")
      && (key != "" ==> key in srcs && srcs[key].seen == oldest > 0.0)
      && (forall k | k in scan && k in srcs :: key != "" && oldest <= srcs[k].seen)
  {
    if scan != [] {
      OldestIsLeast(srcs, scan[..|scan| - 1]);
      assert scan == scan[..|scan| - 1] + [scan[|scan| - 1]];
    }
  }

  /** Eviction from a full table drops one source, none charged longer ago. */
  lemma EvictsTheLeastRecent(srcs: map<string, Source>, scan: seq<string>)
    requires Tracked(srcs) && Visits(scan, srcs) && srcs != map[]
    ensures exists key ::
      && key in srcs
      && Evict(srcs, scan) == srcs - {key}
      && forall k | k in srcs :: srcs[key].seen <= srcs[k].seen
  {
    OldestIsLeast(srcs, scan);
    var any :| any in srcs;
    assert any in scan;
  }

  /** A source's buckets are the configured ones, between empty and full. */
  ghost predicate SourceInv(cfg: Config, s: Source) {
    && s.seen > 0.0
    && Sound(s.obj) && SameShape(s.obj, NewBucket(cfg.srcObj, cfg.srcObj))
    && Sound(s.byt) && SameShape(s.byt, NewBucket(cfg.srcByt, cfg.srcByt))
  }

  predicate SameShape(a: Bucket, b: Bucket) {
    a.rate == b.rate && a.burst == b.burst
  }

  ghost predicate TableInv(cfg: Config, srcs: map<string, Source>) {
    && |srcs| <= Cap(cfg)
    && forall k | k in srcs :: k != "" && SourceInv(cfg, srcs[k])
  }

  lemma PutSize(m: map<string, Source>, k: string, s: Source)
    ensures |m[k := s]| == |m| + if k in m then 0 else 1
  {
    if k in m {
      assert m[k := s].Keys == m.Keys;
    } else {
      assert m[k := s].Keys == m.Keys + {k};
    }
  }

  lemma DropSize(m: map<string, Source>, k: string)
    requires k in m
    ensures |m - {k}| == |m| - 1
  {
    assert (m - {k}).Keys == m.Keys - {k};
  }

  lemma AllowNSound(b: Bucket, now: Time, n: Amount)
    requires Sound(b)
    ensures
      var c := AllowN(b, now, n).0;
      Sound(c) && SameShape(c, b)
  {
    if b.rate > 0.0 {
      RefillSound(b, now);
    }
  }

  lemma AdmitKeeps(cfg: Config, srcs: map<string, Source>, key: string, now: Time, scan: seq<string>)
    requires TableInv(cfg, srcs) && Visits(scan, srcs) && key != ""
    ensures TableInv(cfg, Admit(cfg, srcs, key, now, scan))
  {
    hide Evict, Cap, SourceInv;
    var room := srcs;
    if key !in srcs && |srcs| >= Cap(cfg) {
      assert Tracked(srcs) by {
        TableIsTracked(cfg, srcs);
      }
      EvictsTheLeastRecent(srcs, scan);
      var victim :| victim in srcs && Evict(srcs, scan) == srcs - {victim};
      DropSize(srcs, victim);
      room := srcs - {victim};
    }
    var s := Admit(cfg, srcs, key, now, scan)[key];
    NewSourceSound(cfg, srcs, key, now, scan);
    PutSize(room, key, s);
  }

  lemma TableIsTracked(cfg: Config, srcs: map<string, Source>)
    requires TableInv(cfg, srcs)
    ensures Tracked(srcs)
  {
  }

  lemma NewSourceSound(cfg: Config, srcs: map<string, Source>, key: string, now: Time, scan: seq<string>)
    requires TableInv(cfg, srcs)
    ensures SourceInv(cfg, Admit(cfg, srcs, key, now, scan)[key])
  {
  }

  ghost predicate LimiterInv(cfg: Config, l: Limiter) {
    TableInv(cfg, l.srcs) && Sound(l.planeObj) && Sound(l.planeByt)
  }

  /** Every decision keeps the table within its cap and every bucket between empty and full. */
  lemma AllowKeeps(cfg: Config, l: Limiter, src: Option<string>, n: nat, now: Time, scan: seq<string>)
    requires LimiterInv(cfg, l) && Visits(scan, l.srcs) && src != Some("")
    ensures LimiterInv(cfg, AllowObject(cfg, l, src, n, now, scan).0)
  {
    hide AllowN, Admit, Sound;
    if Enabled(cfg) && src.Some? {
      var m := AllowSource(cfg, l, src.value, n, now, scan).0;
      if SourceTier(cfg) {
        var t := Admit(cfg, l.srcs, src.value, now, scan);
        AdmitKeeps(cfg, l.srcs, src.value, now, scan);
        AllowNSound(t[src.value].obj, now, 1.0);
        AllowNSound(t[src.value].byt, now, n as real);
        assert m.srcs.Keys == t.Keys;
        assert |m.srcs| == |t|;
      }
      AllowNSound(m.planeObj, now, 1.0);
      AllowNSound(m.planeByt, now, n as real);
    }
  }

  /** A source over its own budget costs the shared budget nothing; a relayed object costs nobody anything. */
  lemma SourceRefusalSparesThePlane(cfg: Config, l: Limiter, src: Option<string>, n: nat, now: Time, scan: seq<string>)
    ensures
      var (m, d) := AllowObject(cfg, l, src, n, now, scan);
      && (d == DenySource ==> m.planeObj == l.planeObj && m.planeByt == l.planeByt)
      && (src.None? ==> d == Allow && m == l)
      && (forall k | k in l.srcs && src != Some(k) :: k in m.srcs ==> m.srcs[k] == l.srcs[k])
  {
  }

  // ----- What one source may take over a whole run -----

  datatype Request = Request(src: Option<string>, n: nat, now: Time, scan: seq<string>)

  /**
   A run seen from one source. A lifetime is a stay in the table, from the request that enters it to an
   eviction: since and till are the first and latest instants of the current one, past is how long the
   ended ones lasted together. first and latest are the source's own over the whole run, 0.0 for none.
   */
  datatype Ledger = Ledger(limiter: Limiter, spent: real, evictions: nat, past: real, since: real, till: real,
                           first: real, latest: real)

  function Pick(s: Source, byt: bool): Bucket {
    if byt then s.byt else s.obj
  }

  /** What a request takes from its source's object or byte bucket. */
  function SourceCost(s: Source, byt: bool, n: nat, now: Time): real
    requires Sound(s.obj) && Sound(s.byt)
  {
    if !byt then Cost(s.obj, now, 1.0)
    else if AllowN(s.obj, now, 1.0).1 then Cost(s.byt, now, n as real)
    else 0.0
  }

  /** The books after the table lookup t of a request by src at now. */
  function Entered(key: string, g: Ledger, src: string, now: Time, t: map<string, Source>): Ledger {
    var had, mine := key in g.limiter.srcs, src == key;
    var gone := had && key !in t;
    Ledger(g.limiter.(srcs := t), g.spent,
           g.evictions + (if gone then 1 else 0),
           g.past + (if gone then g.till - g.since else 0.0),
           if mine && !had then now else g.since,
           if !mine then g.till else if had then Max(g.till, now) else now,
           if mine && g.first == 0.0 then now else g.first,
           if mine then Max(g.latest, now) else g.latest)
  }

  function Account(cfg: Config, key: string, byt: bool, g: Ledger, r: Request): Ledger {
    var after := AllowObject(cfg, g.limiter, r.src, r.n, r.now, r.scan).0;
    if !SourceTier(cfg) || r.src.None? then g.(limiter := after)
    else
      var t := Admit(cfg, g.limiter.srcs, r.src.value, r.now, r.scan);
      var s := t[r.src.value];
      var cost := if r.src.value == key && Sound(s.obj) && Sound(s.byt) then SourceCost(s, byt, r.n, r.now) else 0.0;
      Entered(key, g, r.src.value, r.now, t).(limiter := after, spent := g.spent + cost)
  }

  function Opening(cfg: Config): Ledger {
    Ledger(NewLimiter(cfg), 0.0, 0, 0.0, 0.0, 0.0, 0.0, 0.0)
  }

  function AccountRun(cfg: Config, key: string, byt: bool, reqs: seq<Request>): Ledger {
    if reqs == [] then Opening(cfg)
    else Account(cfg, key, byt, AccountRun(cfg, key, byt, reqs[..|reqs| - 1]), reqs[|reqs| - 1])
  }

  /** How long the source's lifetimes lasted together. */
  function Covered(key: string, g: Ledger): real {
    g.past + if key in g.limiter.srcs then g.till - g.since else 0.0
  }

  /** Each scan visits the table as it then is, and sources have names. */
  ghost predicate Observed(cfg: Config, key: string, byt: bool, reqs: seq<Request>) {
    reqs != [] ==>
      var before, r := reqs[..|reqs| - 1], reqs[|reqs| - 1];
      && Observed(cfg, key, byt, before)
      && r.src != Some("") && Visits(r.scan, AccountRun(cfg, key, byt, before).limiter.srcs)
  }

  /** The guard: when the source has to enter the table again, its clock has not gone back. */
  ghost predicate Guarded(cfg: Config, key: string, byt: bool, reqs: seq<Request>) {
    reqs != [] ==>
      var before, r := reqs[..|reqs| - 1], reqs[|reqs| - 1];
      var g := AccountRun(cfg, key, byt, before);
      && Guarded(cfg, key, byt, before)
      && (r.src == Some(key) && key !in g.limiter.srcs ==> g.latest <= r.now)
  }

  function Bursts(burst: real, n: nat): real {
    if n == 0 then 0.0 else Bursts(burst, n - 1) + burst
  }

  lemma {:induction false} BurstsIsProduct(burst: real, n: nat)
    ensures Bursts(burst, n) == n as real * burst
  {
    if n > 0 {
      BurstsIsProduct(burst, n - 1);
      OneMoreTime(burst, n - 1);
    }
  }

  lemma OneMoreTime(burst: real, m: nat)
    ensures (m + 1) as real * burst == m as real * burst + burst
  {
    assert (m + 1) as real == m as real + 1.0;
  }

  function Depth(cfg: Config, byt: bool): Bucket {
    if byt then NewBucket(cfg.srcByt, cfg.srcByt) else NewBucket(cfg.srcObj, cfg.srcObj)
  }

  lemma WorthGrows(rate: real, a: real, b: real)
    requires rate >= 0.0 && a <= b
    ensures Worth(rate, a) <= Worth(rate, b)
  {
    ProductPositive(rate, b - a);
    WorthAdds(rate, b, a, 0.0);
  }

  /** What the source took, plus what its bucket still holds, is paid for by its bursts and its lifetimes. */
  ghost predicate Balanced(cfg: Config, key: string, byt: bool, g: Ledger) {
    var d := Depth(cfg, byt);
    && g.past >= 0.0
    && if key in g.limiter.srcs then
         var b := Pick(g.limiter.srcs[key], byt);
         && 0.0 < b.last <= g.till && g.since <= g.till
         && g.spent + b.tokens <= Bursts(d.burst, g.evictions + 1) + Worth(d.rate, b.last - (g.since - g.past))
       else g.spent <= Bursts(d.burst, g.evictions) + Worth(d.rate, g.past)
  }

  /** A charge of a source already in the table. */
  lemma ChargeOld(s: Source, byt: bool, n: nat, now: Time, start: real)
    requires Sound(s.obj) && Sound(s.byt) && Pick(s, byt).rate > 0.0 && Pick(s, byt).last > 0.0
    ensures
      var b, c := Pick(s, byt), Pick(ChargeSource(s, n, now).0, byt);
      && 0.0 < c.last <= Max(b.last, now)
      && SourceCost(s, byt, n, now) + c.tokens + Worth(b.rate, b.last - start) <= b.tokens + Worth(b.rate, c.last - start)
  {
    hide Worth, AllowN, Cost;
    StepPotential(Pick(s, byt), now, if byt then n as real else 1.0, start);
  }

  /** The charge that follows a source's entry: its object bucket is full, so its byte bucket is charged too. */
  lemma ChargeNew(cfg: Config, byt: bool, n: nat, now: Time, s: Source)
    requires s == Source(Depth(cfg, false), Depth(cfg, true), now) && Pick(s, byt).rate > 0.0
    ensures Sound(s.obj) && Sound(s.byt)
    ensures
      var c := Pick(ChargeSource(s, n, now).0, byt);
      c.last == now && SourceCost(s, byt, n, now) + c.tokens <= Pick(s, byt).burst
  {
    hide Worth;
  }

  /** Another source's request at any instant keeps the books balanced: it can only end this source's lifetime. */
  lemma OtherBalanced(cfg: Config, key: string, byt: bool, g: Ledger, r: Request)
    requires Depth(cfg, byt).rate > 0.0 && TableInv(cfg, g.limiter.srcs) && Balanced(cfg, key, byt, g)
    requires r.src.Some? && r.src.value != key
    ensures
      var t := Admit(cfg, g.limiter.srcs, r.src.value, r.now, r.scan);
      Balanced(cfg, key, byt, Entered(key, g, r.src.value, r.now, t))
  {
    hide Worth, Cap, Oldest, Bursts;
    BurstsStep(Depth(cfg, byt).burst, g.evictions);
    if key in g.limiter.srcs {
      assert SourceInv(cfg, g.limiter.srcs[key]);
      var b := Pick(g.limiter.srcs[key], byt);
      WorthGrows(Depth(cfg, byt).rate, b.last - (g.since - g.past), g.past + (g.till - g.since));
    }
  }

  lemma BurstsStep(burst: real, n: nat)
    ensures Bursts(burst, n + 1) == Bursts(burst, n) + burst
  {
  }

  /** The source's own request, with c for its bucket after the charge. */
  lemma OwnBalanced(cfg: Config, key: string, byt: bool, g: Ledger, r: Request, k: Ledger)
    requires Depth(cfg, byt).rate > 0.0 && TableInv(cfg, g.limiter.srcs) && Balanced(cfg, key, byt, g)
    requires r.src == Some(key)
    requires
      var t := Admit(cfg, g.limiter.srcs, key, r.now, r.scan);
      && Sound(t[key].obj) && Sound(t[key].byt)
      && k == Entered(key, g, key, r.now, t).(
                limiter := k.limiter, spent := g.spent + SourceCost(t[key], byt, r.n, r.now))
      && key in k.limiter.srcs && k.limiter.srcs[key] == ChargeSource(t[key], r.n, r.now).0
    ensures Balanced(cfg, key, byt, k)
  {
    hide Worth, Cap, Evict, Bursts, AllowN, SourceCost, ChargeSource, NewBucket, Balanced;
    if key in g.limiter.srcs {
      OwnBalancedOld(cfg, key, byt, g, r, k);
    } else {
      OwnBalancedNew(cfg, key, byt, g, r, k);
    }
  }

  lemma OwnBalancedOld(cfg: Config, key: string, byt: bool, g: Ledger, r: Request, k: Ledger)
    requires Depth(cfg, byt).rate > 0.0 && TableInv(cfg, g.limiter.srcs) && Balanced(cfg, key, byt, g)
    requires key in g.limiter.srcs && Sound(g.limiter.srcs[key].obj) && Sound(g.limiter.srcs[key].byt)
    requires
      var s := g.limiter.srcs[key].(seen := r.now);
      && k.spent == g.spent + SourceCost(s, byt, r.n, r.now)
      && k.evictions == g.evictions && k.past == g.past && k.since == g.since && k.till == Max(g.till, r.now)
      && key in k.limiter.srcs && k.limiter.srcs[key] == ChargeSource(s, r.n, r.now).0
    ensures Balanced(cfg, key, byt, k)
  {
    hide Worth, Cap, Bursts, AllowN, SourceCost, ChargeSource;
    assert SourceInv(cfg, g.limiter.srcs[key]);
    ChargeOld(g.limiter.srcs[key].(seen := r.now), byt, r.n, r.now, g.since - g.past);
  }

  lemma OwnBalancedNew(cfg: Config, key: string, byt: bool, g: Ledger, r: Request, k: Ledger)
    requires Depth(cfg, byt).rate > 0.0 && Balanced(cfg, key, byt, g) && key !in g.limiter.srcs
    requires
      var s := Source(Depth(cfg, false), Depth(cfg, true), r.now);
      && Sound(s.obj) && Sound(s.byt)
      && k.spent == g.spent + SourceCost(s, byt, r.n, r.now)
      && k.evictions == g.evictions && k.past == g.past && k.since == k.till == r.now
      && key in k.limiter.srcs && k.limiter.srcs[key] == ChargeSource(s, r.n, r.now).0
    ensures Balanced(cfg, key, byt, k)
  {
    hide Worth, Bursts, AllowN, SourceCost, ChargeSource;
    var s := Source(Depth(cfg, false), Depth(cfg, true), r.now);
    ChargeNew(cfg, byt, r.n, r.now, s);
    BurstsStep(Depth(cfg, byt).burst, g.evictions);
    assert r.now - (k.since - k.past) == g.past;
  }

  lemma AccountBalanced(cfg: Config, key: string, byt: bool, g: Ledger, r: Request)
    requires Depth(cfg, byt).rate > 0.0 && key != "" && r.src != Some("")
    requires LimiterInv(cfg, g.limiter) && Visits(r.scan, g.limiter.srcs) && Balanced(cfg, key, byt, g)
    ensures Balanced(cfg, key, byt, Account(cfg, key, byt, g, r))
  {
    hide Balanced, Admit, AllowN, Evict, Sound, SourceCost, ChargeSource, Entered;
    var k := Account(cfg, key, byt, g, r);
    if r.src.Some? {
      var src := r.src.value;
      var t := Admit(cfg, g.limiter.srcs, src, r.now, r.scan);
      AdmitKeeps(cfg, g.limiter.srcs, src, r.now, r.scan);
      AccountedTable(cfg, key, byt, g, r);
      assert SourceInv(cfg, t[src]);
      if src == key {
        OwnBalanced(cfg, key, byt, g, r, k);
      } else {
        OtherBalanced(cfg, key, byt, g, r);
        SameSource(cfg, key, byt, Entered(key, g, src, r.now, t), k);
      }
    } else {
      assert k == g;
    }
  }

  lemma SameSource(cfg: Config, key: string, byt: bool, h: Ledger, k: Ledger)
    requires Balanced(cfg, key, byt, h)
    requires k == h.(limiter := k.limiter)
    requires key in k.limiter.srcs <==> key in h.limiter.srcs
    requires key in h.limiter.srcs ==> k.limiter.srcs[key] == h.limiter.srcs[key]
    ensures Balanced(cfg, key, byt, k)
  {
  }

  /** A charged request leaves every other source as the lookup left it. */
  lemma AccountedTable(cfg: Config, key: string, byt: bool, g: Ledger, r: Request)
    requires Depth(cfg, byt).rate > 0.0 && r.src.Some?
    ensures
      var t := Admit(cfg, g.limiter.srcs, r.src.value, r.now, r.scan);
      && Account(cfg, key, byt, g, r).limiter.srcs == t[r.src.value := ChargeSource(t[r.src.value], r.n, r.now).0]
      && Entered(key, g, r.src.value, r.now, t).limiter.srcs == t
      && Entered(key, g, r.src.value, r.now, t).spent == g.spent
  {
    hide AllowN, Admit;
  }

  lemma AccountedLimiter(cfg: Config, key: string, byt: bool, g: Ledger, r: Request)
    ensures Account(cfg, key, byt, g, r).limiter == AllowObject(cfg, g.limiter, r.src, r.n, r.now, r.scan).0
  {
    hide AllowObject;
  }

  lemma {:induction false} RunBalanced(cfg: Config, key: string, byt: bool, reqs: seq<Request>)
    requires Depth(cfg, byt).rate > 0.0 && key != "" && Observed(cfg, key, byt, reqs)
    ensures LimiterInv(cfg, AccountRun(cfg, key, byt, reqs).limiter)
    ensures Balanced(cfg, key, byt, AccountRun(cfg, key, byt, reqs))
  {
    hide AllowObject, Account, LimiterInv, Balanced, Depth, Visits;
    if reqs == [] {
      OpeningBalanced(cfg, key, byt);
    } else {
      var before, r := reqs[..|reqs| - 1], reqs[|reqs| - 1];
      RunBalanced(cfg, key, byt, before);
      var g := AccountRun(cfg, key, byt, before);
      AllowKeeps(cfg, g.limiter, r.src, r.n, r.now, r.scan);
      AccountedLimiter(cfg, key, byt, g, r);
      AccountBalanced(cfg, key, byt, g, r);
    }
  }

  lemma OpeningBalanced(cfg: Config, key: string, byt: bool)
    ensures LimiterInv(cfg, NewLimiter(cfg)) && Balanced(cfg, key, byt, Opening(cfg))
  {
  }

  /**
   Whatever the clock does, a source takes at most a burst for each of its lifetimes in the table and
   the refill of the time those lifetimes cover.
   */
  lemma LifetimeBound(cfg: Config, key: string, byt: bool, reqs: seq<Request>)
    requires Depth(cfg, byt).rate > 0.0 && key != "" && Observed(cfg, key, byt, reqs)
    ensures
      var g, d := AccountRun(cfg, key, byt, reqs), Depth(cfg, byt);
      g.spent <= (g.evictions + 1) as real * d.burst + Worth(d.rate, Covered(key, g))
  {
    hide AccountRun, Worth, Bursts, Balanced, Depth, Observed, Covered, LimiterInv;
    var g, d := AccountRun(cfg, key, byt, reqs), Depth(cfg, byt);
    RunBalanced(cfg, key, byt, reqs);
    BalancedBound(cfg, key, byt, g);
    BurstsIsProduct(d.burst, g.evictions + 1);
  }

  lemma BalancedBound(cfg: Config, key: string, byt: bool, g: Ledger)
    requires Depth(cfg, byt).rate > 0.0 && LimiterInv(cfg, g.limiter) && Balanced(cfg, key, byt, g)
    ensures g.spent <= Bursts(Depth(cfg, byt).burst, g.evictions + 1) + Worth(Depth(cfg, byt).rate, Covered(key, g))
  {
    hide Worth, Bursts;
    var d := Depth(cfg, byt);
    BurstsStep(d.burst, g.evictions);
    if key in g.limiter.srcs {
      assert SourceInv(cfg, g.limiter.srcs[key]);
      var b := Pick(g.limiter.srcs[key], byt);
      WorthGrows(d.rate, b.last - (g.since - g.past), Covered(key, g));
    }
  }

  /** How many of the source's objects a run allowed. */
  function AllowedFor(cfg: Config, key: string, reqs: seq<Request>): nat {
    if reqs == [] then 0
    else
      var before, r := reqs[..|reqs| - 1], reqs[|reqs| - 1];
      var l := AccountRun(cfg, key, false, before).limiter;
      AllowedFor(cfg, key, before)
      + if r.src == Some(key) && AllowObject(cfg, l, r.src, r.n, r.now, r.scan).1 == Allow then 1 else 0
  }

  lemma AllowCosts(cfg: Config, key: string, g: Ledger, r: Request)
    requires cfg.srcObj >= 1.0 && LimiterInv(cfg, g.limiter) && Visits(r.scan, g.limiter.srcs) && r.src != Some("")
    ensures Account(cfg, key, false, g, r).spent
         >= g.spent + if r.src == Some(key) && AllowObject(cfg, g.limiter, r.src, r.n, r.now, r.scan).1 == Allow then 1.0 else 0.0
  {
    hide Admit, AllowN;
    if r.src.Some? {
      AdmitKeeps(cfg, g.limiter.srcs, r.src.value, r.now, r.scan);
    }
  }

  /** With at least one object a second, each object allowed was paid for in full. */
  lemma {:induction false} AllowedIsPaid(cfg: Config, key: string, reqs: seq<Request>)
    requires cfg.srcObj >= 1.0 && key != "" && Observed(cfg, key, false, reqs)
    ensures AllowedFor(cfg, key, reqs) as real <= AccountRun(cfg, key, false, reqs).spent
  {
    hide Account, AllowObject, LimiterInv, Balanced, Visits;
    if reqs != [] {
      var before, r := reqs[..|reqs| - 1], reqs[|reqs| - 1];
      AllowedIsPaid(cfg, key, before);
      RunBalanced(cfg, key, false, before);
      AllowCosts(cfg, key, AccountRun(cfg, key, false, before), r);
    }
  }

  // ----- The lifetimes of a guarded run do not overlap -----

  ghost predicate Apart(key: string, g: Ledger) {
    if g.first == 0.0 then key !in g.limiter.srcs && g.past == 0.0 && g.latest == 0.0
    else if key in g.limiter.srcs then g.past <= g.since - g.first && g.since <= g.till <= g.latest
    else g.past <= g.latest - g.first
  }

  lemma EnteredApart(key: string, g: Ledger, src: string, now: Time, t: map<string, Source>)
    requires Apart(key, g) && src in t
    requires src != key && key in t ==> key in g.limiter.srcs
    requires src == key && key !in g.limiter.srcs ==> g.latest <= now
    ensures Apart(key, Entered(key, g, src, now, t))
  {
  }

  lemma {:induction false} GuardedApart(cfg: Config, key: string, byt: bool, reqs: seq<Request>)
    requires Depth(cfg, byt).rate > 0.0 && Guarded(cfg, key, byt, reqs)
    ensures Apart(key, AccountRun(cfg, key, byt, reqs))
  {
    if reqs != [] {
      var before, r := reqs[..|reqs| - 1], reqs[|reqs| - 1];
      GuardedApart(cfg, key, byt, before);
      var g := AccountRun(cfg, key, byt, before);
      if r.src.Some? {
        AccountedTable(cfg, key, byt, g, r);
        AdmitsOnlyTheSource(cfg, g.limiter.srcs, key, r);
        hide Account, AllowObject, Admit, Entered, Apart;
        var t := Admit(cfg, g.limiter.srcs, r.src.value, r.now, r.scan);
        EnteredApart(key, g, r.src.value, r.now, t);
        AccountedApart(cfg, key, byt, g, r);
      } else {
        AccountedNobody(cfg, key, byt, g, r);
      }
    }
  }

  lemma AdmitsOnlyTheSource(cfg: Config, srcs: map<string, Source>, key: string, r: Request)
    requires r.src.Some?
    ensures
      var t := Admit(cfg, srcs, r.src.value, r.now, r.scan);
      r.src.value in t && (r.src.value != key && key in t ==> key in srcs)
  {
    hide Evict, Cap;
    EvictShrinks(srcs, r.scan);
  }

  lemma EvictShrinks(srcs: map<string, Source>, scan: seq<string>)
    ensures forall k | k in Evict(srcs, scan) :: k in srcs
  {
    hide Oldest;
  }

  lemma AccountedApart(cfg: Config, key: string, byt: bool, g: Ledger, r: Request)
    requires Depth(cfg, byt).rate > 0.0 && r.src.Some?
    requires Apart(key, Entered(key, g, r.src.value, r.now, Admit(cfg, g.limiter.srcs, r.src.value, r.now, r.scan)))
    ensures Apart(key, Account(cfg, key, byt, g, r))
  {
    AccountedTable(cfg, key, byt, g, r);
    hide AllowObject, Admit, ChargeSource;
  }

  lemma AccountedNobody(cfg: Config, key: string, byt: bool, g: Ledger, r: Request)
    requires r.src.None?
    ensures Account(cfg, key, byt, g, r) == g
  {
  }

  /**
   Over a run in which the source's clock has not gone back whenever it has to enter the table again,
   it takes at most one burst more than its evictions and the refill between its first and latest
   instants. Other sources' clocks, and disorder while it stays in the table, do not matter.
   */
  lemma SourceBound(cfg: Config, key: string, byt: bool, reqs: seq<Request>)
    requires Depth(cfg, byt).rate > 0.0 && key != "" && Observed(cfg, key, byt, reqs)
    requires Guarded(cfg, key, byt, reqs)
    ensures
      var g, d := AccountRun(cfg, key, byt, reqs), Depth(cfg, byt);
      g.spent <= (g.evictions + 1) as real * d.burst + Worth(d.rate, g.latest - g.first)
  {
    hide AccountRun, Worth, Observed, Guarded;
    var g, d := AccountRun(cfg, key, byt, reqs), Depth(cfg, byt);
    LifetimeBound(cfg, key, byt, reqs);
    GuardedApart(cfg, key, byt, reqs);
    WorthGrows(d.rate, Covered(key, g), g.latest - g.first);
  }

  /** A clock that never goes back for this source is guarded, whatever is evicted. */
  lemma {:induction false} OrderedIsGuarded(cfg: Config, key: string, byt: bool, reqs: seq<Request>)
    requires Depth(cfg, byt).rate > 0.0
    requires forall i, j | 0 <= i < j < |reqs| && reqs[i].src == reqs[j].src == Some(key) :: reqs[i].now <= reqs[j].now
    ensures Guarded(cfg, key, byt, reqs)
    ensures AccountRun(cfg, key, byt, reqs).latest == 0.0
         || exists i :: 0 <= i < |reqs| && reqs[i].src == Some(key) && reqs[i].now == AccountRun(cfg, key, byt, reqs).latest
  {
    if reqs != [] {
      var n := |reqs| - 1;
      var before, r := reqs[..n], reqs[n];
      OrderedIsGuarded(cfg, key, byt, before);
      var g := AccountRun(cfg, key, byt, before);
      LatestMoves(cfg, key, byt, g, r);
      hide Account;
      if g.latest != 0.0 {
        var i :| 0 <= i < n && before[i].src == Some(key) && before[i].now == g.latest;
        assert reqs[i] == before[i];
      }
      assert r.src == Some(key) ==> reqs[n].src == Some(key);
    }
  }

  lemma LatestMoves(cfg: Config, key: string, byt: bool, g: Ledger, r: Request)
    requires Depth(cfg, byt).rate > 0.0
    ensures Account(cfg, key, byt, g, r).latest == if r.src == Some(key) then Max(g.latest, r.now) else g.latest
  {
    hide AllowObject, Admit;
  }

  /** And so is any clock while the source is not evicted. */
  lemma {:induction false} NoEvictionIsGuarded(cfg: Config, key: string, byt: bool, reqs: seq<Request>)
    requires Depth(cfg, byt).rate > 0.0 && AccountRun(cfg, key, byt, reqs).evictions == 0
    ensures Guarded(cfg, key, byt, reqs)
    ensures
      var g := AccountRun(cfg, key, byt, reqs);
      key in g.limiter.srcs || g.latest == 0.0
  {
    if reqs != [] {
      var before, r := reqs[..|reqs| - 1], reqs[|reqs| - 1];
      var g := AccountRun(cfg, key, byt, before);
      LatestMoves(cfg, key, byt, g, r);
      StaysUnlessEvicted(cfg, key, byt, g, r);
      hide Account;
      NoEvictionIsGuarded(cfg, key, byt, before);
    }
  }

  lemma StaysUnlessEvicted(cfg: Config, key: string, byt: bool, g: Ledger, r: Request)
    requires Depth(cfg, byt).rate > 0.0 && Account(cfg, key, byt, g, r).evictions == 0
    ensures g.evictions == 0
    ensures key in g.limiter.srcs || r.src == Some(key) ==> key in Account(cfg, key, byt, g, r).limiter.srcs
  {
    if r.src.Some? {
      AccountedTable(cfg, key, byt, g, r);
    } else {
      AccountedNobody(cfg, key, byt, g, r);
    }
    hide AllowObject, Admit;
  }

  // ----- An unguarded run -----

  /** One object a second, room for one source. */
  const TIGHT := Config(1.0, 0.0, 0.0, 0.0, 1)

  /** A table holding one source, its object bucket just drained at now. */
  function Alone(key: string, now: real): map<string, Source> {
    map[key := Source(Bucket(1.0, 1.0, 0.0, now), Bucket(0.0, 0.0, 0.0, 0.0), now)]
  }

  function Book(src: string, now: real, g: Ledger): Ledger {
    g.(limiter := NewLimiter(TIGHT).(srcs := Alone(src, now)))
  }

  lemma FirstCharge(now: Time)
    ensures Account(TIGHT, "a", false, Opening(TIGHT), Request(Some("a"), 0, now, []))
         == Book("a", now, Opening(TIGHT).(spent := 1.0, since := now, till := now, first := now, latest := now))
  {
    var t := Admit(TIGHT, map[], "a", now, []);
    assert t == map["a" := Source(Bucket(1.0, 1.0, 1.0, 0.0), Bucket(0.0, 0.0, 0.0, 0.0), now)];
  }

  /** A new source takes the only place in the table. */
  lemma Replaces(key: string, other: string, at: Time, now: Time, g: Ledger)
    requires g == Book(other, at, g) && other != key && other != "" && (key == "a" || other == "a")
    ensures
      var k := Account(TIGHT, "a", false, g, Request(Some(key), 0, now, [other]));
      k == Book(key, now, if key == "a"
                          then g.(spent := g.spent + 1.0, since := now, till := now,
                                  first := if g.first == 0.0 then now else g.first, latest := Max(g.latest, now))
                          else g.(evictions := g.evictions + 1, past := g.past + (g.till - g.since)))
  {
    var t := Admit(TIGHT, g.limiter.srcs, key, now, [other]);
    assert [other][..0] == [];
    assert Oldest(g.limiter.srcs, [other]).0 == other;
    assert |g.limiter.srcs| == 1;
    assert t == map[key := Source(Bucket(1.0, 1.0, 1.0, 0.0), Bucket(0.0, 0.0, 0.0, 0.0), now)];
  }

  lemma NextSecond(now: Time, g: Ledger)
    requires g == Book("a", now, g) && g.first > 0.0
    ensures Account(TIGHT, "a", false, g, Request(Some("a"), 0, now + 1.0, ["a"]))
         == Book("a", now + 1.0, g.(spent := g.spent + 1.0, till := Max(g.till, now + 1.0), latest := Max(g.latest, now + 1.0)))
  {
    var t := Admit(TIGHT, g.limiter.srcs, "a", now + 1.0, ["a"]);
    assert t == map["a" := Source(Bucket(1.0, 1.0, 0.0, now), Bucket(0.0, 0.0, 0.0, 0.0), now + 1.0)];
  }

  lemma RunOneMore(cfg: Config, key: string, byt: bool, reqs: seq<Request>, r: Request)
    ensures AccountRun(cfg, key, byt, reqs + [r]) == Account(cfg, key, byt, AccountRun(cfg, key, byt, reqs), r)
    ensures Observed(cfg, key, byt, reqs) && r.src != Some("") && Visits(r.scan, AccountRun(cfg, key, byt, reqs).limiter.srcs)
            ==> Observed(cfg, key, byt, reqs + [r])
    ensures Guarded(cfg, key, byt, reqs + [r]) ==> Guarded(cfg, key, byt, reqs)
    ensures
      var g := AccountRun(cfg, key, byt, reqs);
      r.src == Some(key) && key !in g.limiter.srcs && r.now < g.latest ==> !Guarded(cfg, key, byt, reqs + [r])
  {
    assert (reqs + [r])[..|reqs|] == reqs;
  }

  lemma NothingRun(cfg: Config, key: string, byt: bool)
    ensures AccountRun(cfg, key, byt, []) == Opening(cfg) && Observed(cfg, key, byt, []) && Opening(cfg).limiter.srcs == map[]
  {
  }

  lemma AloneVisited(key: string, now: real, g: Ledger)
    ensures Visits([key], Book(key, now, g).limiter.srcs) && Book(key, now, g).limiter.srcs.Keys == {key}
  {
  }

  /** The four steps up to the source's second entry, at an instant it has already passed. */
  lemma SecondEntry() returns (reqs: seq<Request>)
    ensures |reqs| == 4 && Observed(TIGHT, "a", false, reqs) && !Guarded(TIGHT, "a", false, reqs)
    ensures AccountRun(TIGHT, "a", false, reqs)
         == Book("a", 1.0, Ledger(NewLimiter(TIGHT), 3.0, 1, 1.0, 1.0, 1.0, 1.0, 2.0))
  {
    hide Account, AccountRun, Observed, Guarded, Visits, Alone, NewLimiter;
    var a1, a2 := Request(Some("a"), 0, 1.0, []), Request(Some("a"), 0, 2.0, ["a"]);
    var b2, again := Request(Some("b"), 0, 2.0, ["a"]), Request(Some("a"), 0, 1.0, ["b"]);
    NothingRun(TIGHT, "a", false);
    assert Visits([], Opening(TIGHT).limiter.srcs) by {
      EmptyVisited();
    }
    FirstCharge(1.0);
    RunOneMore(TIGHT, "a", false, [], a1);
    var g1 := AccountRun(TIGHT, "a", false, [] + [a1]);
    AloneVisited("a", 1.0, g1);
    NextSecond(1.0, g1);
    RunOneMore(TIGHT, "a", false, [] + [a1], a2);
    var g2 := AccountRun(TIGHT, "a", false, [] + [a1] + [a2]);
    AloneVisited("a", 2.0, g2);
    Replaces("b", "a", 2.0, 2.0, g2);
    RunOneMore(TIGHT, "a", false, [] + [a1] + [a2], b2);
    var g3 := AccountRun(TIGHT, "a", false, [] + [a1] + [a2] + [b2]);
    AloneVisited("b", 2.0, g3);
    Replaces("a", "b", 2.0, 1.0, g3);
    RunOneMore(TIGHT, "a", false, [] + [a1] + [a2] + [b2], again);
    reqs := [] + [a1] + [a2] + [b2] + [again];
  }

  lemma EmptyVisited()
    ensures Visits([], Opening(TIGHT).limiter.srcs)
  {
  }

  /**
   The guard is needed: here the source lives through the same second twice and takes four objects, where
   two bursts and a second's refill come to three. Its lifetimes account for all four.
   */
  lemma OutOfOrderBreaksTheBound() returns (reqs: seq<Request>)
    ensures Observed(TIGHT, "a", false, reqs) && !Guarded(TIGHT, "a", false, reqs)
    ensures
      var g, d := AccountRun(TIGHT, "a", false, reqs), Depth(TIGHT, false);
      && g.spent > (g.evictions + 1) as real * d.burst + Worth(d.rate, g.latest - g.first)
      && g.spent == (g.evictions + 1) as real * d.burst + Worth(d.rate, Covered("a", g))
  {
    hide Account, AccountRun, Observed, Guarded, Visits;
    var before := SecondEntry();
    var g4, a2 := AccountRun(TIGHT, "a", false, before), Request(Some("a"), 0, 2.0, ["a"]);
    AloneVisited("a", 1.0, g4);
    NextSecond(1.0, g4);
    RunOneMore(TIGHT, "a", false, before, a2);
    reqs := before + [a2];
    AloneVisited("a", 2.0, AccountRun(TIGHT, "a", false, reqs));
  }
}
