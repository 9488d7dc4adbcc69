/**
 BRC-142 within-batch coalescing (forwarder/coalesce.go): members are bucketed by
 flow as they arrive and packed greedily into bundles when the batch ends.
 */
module Coalesce {
  import opened Bytes
  import opened SeqSpace
  import opened Fragment

  datatype Member = Member(txid: Hash, tx: seq<Byte>)

  /** One flow's members, in arrival order. */
  datatype Bucket = Bucket(flow: Flow, members: seq<Member>)

  const BUNDLE_HEADER: nat := 66
  const DEFAULT_MAX_BYTES: nat := 1500
  /** The member count is 16 bits wide. */
  const MAX_MEMBERS: nat := 65535

  /** overhead is the per-member envelope; budget and cap bound one bundle. */
  datatype Limits = Limits(overhead: nat, budget: int, cap: nat)

  /** SetCoalesce: the bundle body's share of a path MTU. */
  function Mtu(maxBytes: int): int {
    if maxBytes <= 0 then DEFAULT_MAX_BYTES else maxBytes
  }

  function BodyBudget(maxBytes: int): int {
    Mtu(maxBytes) - IP_UDP
  }

  /** The budget FlushCoalesced packs to. */
  function PackBudget(budget: int): int {
    if budget <= 0 then DEFAULT_MAX_BYTES - IP_UDP else budget
  }

  function MemberCap(maxMembers: int): (c: nat)
    ensures 1 <= c <= MAX_MEMBERS
  {
    if maxMembers <= 0 || maxMembers > MAX_MEMBERS then MAX_MEMBERS else maxMembers
  }

  /** The gate of process: a transaction that fits a bundle by itself is buffered. */
  predicate Eligible(overhead: nat, budget: int, tx: seq<Byte>) {
    BUNDLE_HEADER + overhead + |tx| <= budget
  }

  // ----- Bucketing -----

  function AddTo(buckets: seq<Bucket>, f: Flow, m: Member): seq<Bucket> {
    if buckets == [] then [Bucket(f, [m])]
    else if buckets[0].flow == f then [buckets[0].(members := buckets[0].members + [m])] + buckets[1..]
    else [buckets[0]] + AddTo(buckets[1..], f, m)
  }

  /** Everything buffered for a flow, across buckets. */
  function MembersOf(buckets: seq<Bucket>, f: Flow): seq<Member> {
    if buckets == [] then []
    else (if buckets[0].flow == f then buckets[0].members else []) + MembersOf(buckets[1..], f)
  }

  predicate Distinct(buckets: seq<Bucket>) {
    forall i, j | 0 <= i < j < |buckets| :: buckets[i].flow != buckets[j].flow
  }

  /** Buckets of other flows are passed over. */
  lemma {:induction false} AddToSkips(buckets: seq<Bucket>, f: Flow, m: Member, i: nat)
    requires i <= |buckets| && forall j | 0 <= j < i :: buckets[j].flow != f
    ensures i < |buckets| && buckets[i].flow == f ==>
              AddTo(buckets, f, m) == buckets[i := buckets[i].(members := buckets[i].members + [m])]
    ensures i == |buckets| ==> AddTo(buckets, f, m) == buckets + [Bucket(f, [m])]
  {
    if i > 0 {
      AddToSkips(buckets[1..], f, m, i - 1);
    }
  }

  class CoalBuffer {
    var buckets: seq<Bucket>
    const maxMembers: nat

    constructor (maxMembers: int)
      ensures buckets == [] && this.maxMembers == MemberCap(maxMembers)
    {
      buckets := [];
      this.maxMembers := MemberCap(maxMembers);
    }

    method Add(f: Flow, m: Member)
      modifies this
      ensures buckets == AddTo(old(buckets), f, m)
    {
      var i := 0;
      while i < |buckets|
        invariant 0 <= i <= |buckets| && buckets == old(buckets)
        invariant forall j | 0 <= j < i :: buckets[j].flow != f
      {
        if buckets[i].flow == f {
          AddToSkips(buckets, f, m, i);
          buckets := buckets[i := buckets[i].(members := buckets[i].members + [m])];
          return;
        }
        i := i + 1;
      }
      AddToSkips(buckets, f, m, i);
      buckets := buckets + [Bucket(f, [m])];
    }

    method Reset()
      modifies this
      ensures buckets == []
    {
      buckets := [];
    }
  }

  datatype Arrival = Arrival(flow: Flow, member: Member)

  function Buffered(arrivals: seq<Arrival>): seq<Bucket> {
    if arrivals == [] then []
    else
      var a := arrivals[|arrivals| - 1];
      AddTo(Buffered(arrivals[..|arrivals| - 1]), a.flow, a.member)
  }

  function Of(arrivals: seq<Arrival>, f: Flow): seq<Member> {
    if arrivals == [] then []
    else
      var a := arrivals[|arrivals| - 1];
      Of(arrivals[..|arrivals| - 1], f) + if a.flow == f then [a.member] else []
  }

  predicate Holds(buckets: seq<Bucket>, f: Flow) {
    exists i :: 0 <= i < |buckets| && buckets[i].flow == f
  }

  lemma {:induction false} AddToKeeps(buckets: seq<Bucket>, f: Flow, m: Member)
    requires Distinct(buckets)
    ensures Distinct(AddTo(buckets, f, m))
    ensures forall g :: Holds(AddTo(buckets, f, m), g) <==> Holds(buckets, g) || g == f
    ensures forall g :: MembersOf(AddTo(buckets, f, m), g) == MembersOf(buckets, g) + if g == f then [m] else []
  {
    var after := AddTo(buckets, f, m);
    if buckets == [] {
      assert after[0].flow == f;
    } else if buckets[0].flow == f {
      NotHeld(buckets[1..], f);
      assert after[1..] == buckets[1..];
      assert forall i | 0 <= i < |after| :: after[i].flow == buckets[i].flow;
    } else {
      var rest := AddTo(buckets[1..], f, m);
      AddToKeeps(buckets[1..], f, m);
      assert after[1..] == rest;
      HoldsTail(buckets);
      HoldsTail(after);
      forall j | 1 <= j < |after|
        ensures after[j].flow != after[0].flow
      {
        assert Holds(rest, after[j].flow) by {
          assert rest[j - 1].flow == after[j].flow;
        }
      }
    }
  }

  lemma HoldsTail(buckets: seq<Bucket>)
    requires buckets != []
    ensures forall g :: Holds(buckets, g) <==> g == buckets[0].flow || Holds(buckets[1..], g)
  {
    forall g
      ensures Holds(buckets, g) <==> g == buckets[0].flow || Holds(buckets[1..], g)
    {
      if Holds(buckets[1..], g) {
        var i :| 0 <= i < |buckets[1..]| && buckets[1..][i].flow == g;
        assert buckets[i + 1].flow == g;
      }
      if Holds(buckets, g) && g != buckets[0].flow {
        var i :| 0 <= i < |buckets| && buckets[i].flow == g;
        assert buckets[1..][i - 1].flow == g;
      }
    }
  }

  lemma {:induction false} NotHeld(buckets: seq<Bucket>, f: Flow)
    requires forall i | 0 <= i < |buckets| :: buckets[i].flow != f
    ensures MembersOf(buckets, f) == []
  {
    if buckets != [] {
      NotHeld(buckets[1..], f);
    }
  }

  /** A batch is split by flow: one bucket per flow, each holding that flow's arrivals in order. */
  lemma {:induction false} BufferedByFlow(arrivals: seq<Arrival>)
    ensures Distinct(Buffered(arrivals))
    ensures forall f :: MembersOf(Buffered(arrivals), f) == Of(arrivals, f)
  {
    if arrivals != [] {
      var before, a := arrivals[..|arrivals| - 1], arrivals[|arrivals| - 1];
      BufferedByFlow(before);
      AddToKeeps(Buffered(before), a.flow, a.member);
    }
  }

  // ----- Packing -----

  /** Bytes of a bundle body with these members. */
  function BodySize(overhead: nat, ms: seq<Member>): nat {
    if ms == [] then BUNDLE_HEADER
    else BodySize(overhead, ms[..|ms| - 1]) + overhead + |ms[|ms| - 1].tx|
  }

  /** How many of ms the greedy fill ends with, n being taken already. */
  function Fill(lim: Limits, ms: seq<Member>, n: nat): (k: nat)
    requires n <= |ms|
    ensures n <= k <= |ms|
    decreases |ms| - n
  {
    if n == |ms| || n >= lim.cap then n
    else if n > 0 && BodySize(lim.overhead, ms[..n + 1]) > lim.budget then n
    else Fill(lim, ms, n + 1)
  }

  function Pack(lim: Limits, ms: seq<Member>): seq<seq<Member>>
    requires lim.cap >= 1
    decreases |ms|
  {
    if ms == [] then []
    else
      FillTakesOne(lim, ms);
      var k := Fill(lim, ms, 0);
      [ms[..k]] + Pack(lim, ms[k..])
  }

  lemma FillTakesOne(lim: Limits, ms: seq<Member>)
    requires lim.cap >= 1 && ms != []
    ensures Fill(lim, ms, 0) >= 1
  {
    assert Fill(lim, ms, 0) == Fill(lim, ms, 1);
  }

  function Flatten(parts: seq<seq<Member>>): seq<Member> {
    if parts == [] then [] else parts[0] + Flatten(parts[1..])
  }

  /** A bundle within both limits. */
  predicate Fits(lim: Limits, part: seq<Member>) {
    1 <= |part| <= lim.cap && BodySize(lim.overhead, part) <= lim.budget
  }

  /** Packing loses, repeats and reorders no member. */
  lemma {:induction false} PackKeepsMembers(lim: Limits, ms: seq<Member>)
    requires lim.cap >= 1
    ensures Flatten(Pack(lim, ms)) == ms
    decreases |ms|
  {
    if ms != [] {
      FillTakesOne(lim, ms);
      var k := Fill(lim, ms, 0);
      PackKeepsMembers(lim, ms[k..]);
      assert Pack(lim, ms)[1..] == Pack(lim, ms[k..]);
    }
  }

  lemma {:induction false} FillWithin(lim: Limits, ms: seq<Member>, n: nat)
    requires n <= |ms| && n <= lim.cap && (n >= 2 ==> BodySize(lim.overhead, ms[..n]) <= lim.budget)
    ensures Fill(lim, ms, n) <= lim.cap
    ensures Fill(lim, ms, n) >= 2 ==> BodySize(lim.overhead, ms[..Fill(lim, ms, n)]) <= lim.budget
    decreases |ms| - n
  {
    if !(n == |ms| || n >= lim.cap) && !(n > 0 && BodySize(lim.overhead, ms[..n + 1]) > lim.budget) {
      FillWithin(lim, ms, n + 1);
    }
  }

  /** Every bundle meets the cap, and the budget too unless it is a lone member too big for it. */
  lemma {:induction false} PackWithinLimits(lim: Limits, ms: seq<Member>)
    requires lim.cap >= 1
    ensures forall part <- Pack(lim, ms) :: 1 <= |part| <= lim.cap
    ensures forall part <- Pack(lim, ms) :: |part| >= 2 ==> BodySize(lim.overhead, part) <= lim.budget
    decreases |ms|
  {
    if ms != [] {
      FillTakesOne(lim, ms);
      FillWithin(lim, ms, 0);
      PackWithinLimits(lim, ms[Fill(lim, ms, 0)..]);
    }
  }

  lemma {:induction false} FlattenHas(parts: seq<seq<Member>>, part: seq<Member>, m: Member)
    requires part in parts && m in part
    ensures m in Flatten(parts)
  {
    if part != parts[0] {
      FlattenHas(parts[1..], part, m);
    }
  }

  /** With the gate of process in front, every bundle fits, headers included, the configured MTU. */
  lemma BundlesFitTheMtu(overhead: nat, maxBytes: int, cap: nat, ms: seq<Member>, part: seq<Member>)
    requires cap >= 1
    requires forall m <- ms :: Eligible(overhead, BodyBudget(maxBytes), m.tx)
    requires part in Pack(Limits(overhead, PackBudget(BodyBudget(maxBytes)), cap), ms)
    ensures Fits(Limits(overhead, PackBudget(BodyBudget(maxBytes)), cap), part)
    ensures IP_UDP + BodySize(overhead, part) <= Mtu(maxBytes)
  {
    var lim := Limits(overhead, PackBudget(BodyBudget(maxBytes)), cap);
    PackWithinLimits(lim, ms);
    PackKeepsMembers(lim, ms);
    FlattenHas(Pack(lim, ms), part, part[0]);
    assert part[0] in ms;
    if |part| == 1 {
      assert part[..0] == [];
      assert BodySize(overhead, part) == BUNDLE_HEADER + overhead + |part[0].tx|;
    }
  }

  // ----- No order-preserving packing uses fewer bundles -----

  lemma {:induction false} BodySizeOfTail(overhead: nat, ms: seq<Member>, j: nat)
    requires j <= |ms|
    ensures BodySize(overhead, ms[j..]) <= BodySize(overhead, ms)
    decreases |ms|
  {
    if j == |ms| {
      BodySizeAtLeast(overhead, ms);
    } else {
      BodySizeOfTail(overhead, ms[..|ms| - 1], j);
      assert ms[..|ms| - 1][j..] == ms[j..][..|ms[j..]| - 1];
    }
  }

  lemma {:induction false} BodySizeAtLeast(overhead: nat, ms: seq<Member>)
    ensures BodySize(overhead, ms) >= BUNDLE_HEADER
  {
    if ms != [] {
      BodySizeAtLeast(overhead, ms[..|ms| - 1]);
    }
  }

  lemma {:induction false} BodySizeOfHead(overhead: nat, ms: seq<Member>, n: nat)
    requires n <= |ms|
    ensures BodySize(overhead, ms[..n]) <= BodySize(overhead, ms)
    decreases |ms|
  {
    if n < |ms| {
      BodySizeOfHead(overhead, ms[..|ms| - 1], n);
      assert ms[..|ms| - 1][..n] == ms[..n];
    } else {
      assert ms[..n] == ms;
    }
  }

  /** The greedy fill takes at least as many as any prefix that fits. */
  lemma {:induction false} FillTakesAsMuch(lim: Limits, ms: seq<Member>, n: nat, k: nat)
    requires n <= k <= |ms| && (k > 0 ==> Fits(lim, ms[..k]))
    ensures Fill(lim, ms, n) >= k
    decreases k - n
  {
    if n < k {
      BodySizeOfHead(lim.overhead, ms[..k], n + 1);
      assert ms[..k][..n + 1] == ms[..n + 1];
      FillTakesAsMuch(lim, ms, n + 1, k);
    }
  }

  /** Started inside a part that fits, the greedy fill reaches at least the part's end. */
  lemma FillReachesTheEnd(lim: Limits, p: seq<Member>, tail: seq<Member>, j: nat)
    requires Fits(lim, p) && j < |p|
    ensures |p| - j <= Fill(lim, (p + tail)[j..], 0) <= |p| + |tail| - j
  {
    hide Fill;
    var xs := (p + tail)[j..];
    assert xs[..|p| - j] == p[j..];
    BodySizeOfTail(lim.overhead, p, j);
    FillTakesAsMuch(lim, xs, 0, |p| - j);
  }

  lemma PackStepsInto(lim: Limits, p: seq<Member>, tail: seq<Member>, j: nat)
    requires lim.cap >= 1 && Fits(lim, p) && j < |p|
    ensures
      var k := Fill(lim, (p + tail)[j..], 0);
      && 0 <= k - (|p| - j) <= |tail|
      && |Pack(lim, (p + tail)[j..])| == 1 + |Pack(lim, tail[k - (|p| - j)..])|
  {
    hide Fits;
    FillReachesTheEnd(lim, p, tail, j);
    var xs := (p + tail)[j..];
    PackStep(lim, xs);
    hide Fill, Pack;
    var k := Fill(lim, xs, 0);
    assert xs[k..] == tail[k - (|p| - j)..];
  }

  /** From any later starting point the greedy packing keeps ahead of a given partition. */
  lemma {:induction false} GreedyStaysAhead(lim: Limits, parts: seq<seq<Member>>, j: nat)
    requires forall part <- parts :: Fits(lim, part)
    requires lim.cap >= 1 && j <= |Flatten(parts)|
    ensures |Pack(lim, Flatten(parts)[j..])| <= |parts|
    decreases |parts|
  {
    hide Fits, Fill, Pack;
    if parts == [] {
      PackNothing(lim);
      assert Flatten(parts)[j..] == [];
    } else {
      var p, rest := parts[0], parts[1..];
      var tail := Flatten(rest);
      assert p in parts && forall part <- rest :: part in parts;
      if j >= |p| {
        assert (p + tail)[j..] == tail[j - |p|..];
        GreedyStaysAhead(lim, rest, j - |p|);
      } else {
        PackStepsInto(lim, p, tail, j);
        GreedyStaysAhead(lim, rest, Fill(lim, (p + tail)[j..], 0) - (|p| - j));
      }
    }
  }

  /** Greedy packing uses the fewest bundles of any order-preserving partition within both limits. */
  lemma GreedyIsOptimal(lim: Limits, ms: seq<Member>, parts: seq<seq<Member>>)
    requires lim.cap >= 1 && Flatten(parts) == ms
    requires forall part <- parts :: Fits(lim, part)
    ensures |Pack(lim, ms)| <= |parts|
  {
    GreedyStaysAhead(lim, parts, 0);
    assert ms[0..] == ms;
  }

  // ----- One member more -----

  predicate HasRoom(lim: Limits, part: seq<Member>, m: Member) {
    |part| < lim.cap && BodySize(lim.overhead, part + [m]) <= lim.budget
  }

  /** A further member opens a bundle of its own: there is none yet, or the last has no room. */
  predicate Opens(lim: Limits, ms: seq<Member>, m: Member)
    requires lim.cap >= 1
  {
    var parts := Pack(lim, ms);
    parts == [] || !HasRoom(lim, parts[|parts| - 1], m)
  }

  lemma {:induction false} FillOneMore(lim: Limits, ms: seq<Member>, m: Member, n: nat)
    requires n <= |ms|
    ensures Fill(lim, ms, n) < |ms| ==> Fill(lim, ms + [m], n) == Fill(lim, ms, n)
    ensures Fill(lim, ms, n) == |ms| ==> Fill(lim, ms + [m], n) == Fill(lim, ms + [m], |ms|)
    decreases |ms| - n
  {
    if n < |ms| {
      FillOneMore(lim, ms, m, n + 1);
      assert (ms + [m])[..n + 1] == ms[..n + 1];
    }
  }

  lemma FillLast(lim: Limits, ms: seq<Member>, m: Member)
    requires ms != []
    ensures Fill(lim, ms + [m], |ms|) == |ms| + if HasRoom(lim, ms, m) then 1 else 0
  {
    assert (ms + [m])[..|ms| + 1] == ms + [m];
  }

  /** Greedy packing of one member more fills the last bundle or opens one. */
  lemma {:induction false} PackOneMore(lim: Limits, ms: seq<Member>, m: Member)
    requires lim.cap >= 1
    ensures |Pack(lim, ms + [m])| == |Pack(lim, ms)| + if Opens(lim, ms, m) then 1 else 0
    decreases |ms|
  {
    PackAlone(lim, m);
    hide Fill, Pack, HasRoom;
    if ms == [] {
      PackNothing(lim);
      assert ms + [m] == [m];
    } else {
      PackStep(lim, ms);
      PackStep(lim, ms + [m]);
      FillOneMore(lim, ms, m, 0);
      FillLast(lim, ms, m);
      PackNothing(lim);
      var k := Fill(lim, ms, 0);
      if k < |ms| {
        assert (ms + [m])[k..] == ms[k..] + [m];
        PackOneMore(lim, ms[k..], m);
        PackStep(lim, ms[k..]);
        assert Pack(lim, ms)[|Pack(lim, ms)| - 1] == Pack(lim, ms[k..])[|Pack(lim, ms[k..])| - 1];
      } else {
        assert ms[k..] == [] && ms[..k] == ms && Pack(lim, ms) == [ms];
        assert (ms + [m])[|ms|..] == [m] && (ms + [m])[|ms| + 1..] == [];
      }
    }
  }

  lemma PackAlone(lim: Limits, m: Member)
    requires lim.cap >= 1
    ensures |Pack(lim, [m])| == 1
  {
    PackStep(lim, [m]);
    PackNothing(lim);
    hide Pack, Fill;
    assert [m][1..] == [];
  }

  // ----- One member put in anywhere -----

  /** ms with put at position j. */
  function Insert(ms: seq<Member>, j: nat, put: seq<Member>): seq<Member> {
    if j <= |ms| then ms[..j] + put + ms[j..] else ms
  }

  predicate AllFit(lim: Limits, parts: seq<seq<Member>>) {
    forall part <- parts :: Fits(lim, part)
  }

  /** No member is too big for a bundle of its own. */
  predicate AloneFit(lim: Limits, ms: seq<Member>) {
    forall m <- ms :: Fits(lim, [m])
  }

  lemma PackFits(lim: Limits, ms: seq<Member>)
    requires lim.cap >= 1 && AloneFit(lim, ms)
    ensures AllFit(lim, Pack(lim, ms))
  {
    PackWithinLimits(lim, ms);
    PackKeepsMembers(lim, ms);
    forall part <- Pack(lim, ms)
      ensures Fits(lim, part)
    {
      FlattenHas(Pack(lim, ms), part, part[0]);
      assert |part| == 1 ==> part == [part[0]];
    }
  }

  lemma {:induction false} BodySizeWithout(overhead: nat, ms: seq<Member>, i: nat)
    requires i < |ms|
    ensures BodySize(overhead, ms[..i] + ms[i + 1..]) <= BodySize(overhead, ms)
  {
    var k := |ms| - 1;
    if i == k {
      assert ms[..i] + ms[i + 1..] == ms[..k];
    } else {
      BodySizeWithout(overhead, ms[..k], i);
      var less := ms[..i] + ms[i + 1..];
      assert less[..|less| - 1] == ms[..k][..i] + ms[..k][i + 1..];
    }
  }

  lemma FlattenStep(p: seq<Member>, rest: seq<seq<Member>>)
    ensures Flatten([p] + rest) == p + Flatten(rest)
  {
    assert ([p] + rest)[1..] == rest;
  }

  lemma FitHead(lim: Limits, parts: seq<seq<Member>>)
    requires parts != [] && AllFit(lim, parts)
    ensures Fits(lim, parts[0]) && AllFit(lim, parts[1..])
  {
  }

  lemma FitMore(lim: Limits, p: seq<Member>, rest: seq<seq<Member>>)
    requires Fits(lim, p) && AllFit(lim, rest)
    ensures AllFit(lim, [p] + rest)
  {
    hide Fits;
  }

  lemma SplitPast(p: seq<Member>, t: seq<Member>, x: seq<Member>, z: seq<Member>)
    requires p + t == x + z && |p| <= |x|
    ensures x == p + x[|p|..] && t == x[|p|..] + z
  {
    assert (x + z)[..|p|] == p && (x + z)[|p|..] == t;
  }

  lemma SplitWithin(p: seq<Member>, t: seq<Member>, x: seq<Member>, z: seq<Member>)
    requires p + t == x + z && |x| <= |p|
    ensures p == x + p[|x|..] && z == p[|x|..] + t
  {
    assert (p + t)[..|x|] == x && (p + t)[|x|..] == z;
  }

  /** A partition of as many parts at most, with m taken out. */
  lemma {:induction false} WithoutOne(lim: Limits, parts: seq<seq<Member>>, x: seq<Member>, m: Member, y: seq<Member>)
    returns (less: seq<seq<Member>>)
    requires Flatten(parts) == x + ([m] + y) && AllFit(lim, parts)
    ensures Flatten(less) == x + y && AllFit(lim, less) && |less| <= |parts|
  {
    var p, rest := parts[0], parts[1..];
    FitHead(lim, parts);
    hide Fits, AllFit, Flatten;
    assert p + Flatten(rest) == Flatten(parts) by { FlattenStep(p, rest); assert [p] + rest == parts; }
    if |p| <= |x| {
      SplitPast(p, Flatten(rest), x, [m] + y);
      var after := WithoutOne(lim, rest, x[|p|..], m, y);
      less := [p] + after;
      FitMore(lim, p, after);
      FlattenStep(p, after);
      assert p + (x[|p|..] + y) == x + y;
    } else {
      SplitWithin(p, Flatten(rest), x, [m] + y);
      var q := p[|x|..][1..];
      SplitWithin(p[|x|..], Flatten(rest), [m], y);
      assert p == x + [m] + q;
      less := Solo(x + q) + rest;
      FitsWithout(lim, x, m, q);
      FitJoin(lim, Solo(x + q), rest);
      SoloStep(x + q, rest);
      SoloSize(x + q);
      assert x + q + Flatten(rest) == x + y;
    }
  }

  lemma FitsWithout(lim: Limits, x: seq<Member>, m: Member, q: seq<Member>)
    requires Fits(lim, x + [m] + q)
    ensures AllFit(lim, Solo(x + q))
  {
    var p := x + [m] + q;
    assert p[..|x|] + p[|x| + 1..] == x + q;
    BodySizeWithout(lim.overhead, p, |x|);
  }

  /** A part as a partition of its own members: none when empty. */
  function Solo(p: seq<Member>): seq<seq<Member>> {
    if p == [] then [] else [p]
  }

  lemma SoloStep(p: seq<Member>, rest: seq<seq<Member>>)
    ensures Flatten(Solo(p) + rest) == p + Flatten(rest)
  {
    if p == [] {
      assert Solo(p) + rest == rest;
    } else {
      FlattenStep(p, rest);
    }
  }

  lemma FitsSlices(lim: Limits, p: seq<Member>, i: nat)
    requires i <= |p| && Fits(lim, p)
    ensures AllFit(lim, Solo(p[..i])) && AllFit(lim, Solo(p[i..]))
  {
    BodySizeOfHead(lim.overhead, p, i);
    BodySizeOfTail(lim.overhead, p, i);
  }

  lemma FitJoin(lim: Limits, a: seq<seq<Member>>, b: seq<seq<Member>>)
    requires AllFit(lim, a) && AllFit(lim, b)
    ensures AllFit(lim, a + b)
  {
    hide Fits;
  }

  /** A partition with m put in, in a bundle of its own, and two parts more at most. */
  lemma {:induction false} IntoOne(lim: Limits, parts: seq<seq<Member>>, x: seq<Member>, m: Member, y: seq<Member>)
    returns (more: seq<seq<Member>>)
    requires Flatten(parts) == x + y && AllFit(lim, parts) && Fits(lim, [m])
    ensures Flatten(more) == x + ([m] + y) && AllFit(lim, more) && |more| <= |parts| + 2
  {
    if parts == [] {
      more := [[m]];
      FlattenStep([m], []);
      assert [[m]] + [] == [[m]];
    } else {
      var p, rest := parts[0], parts[1..];
      FitHead(lim, parts);
      hide Fits, AllFit, Flatten;
      assert p + Flatten(rest) == Flatten(parts) by { FlattenStep(p, rest); assert [p] + rest == parts; }
      if |p| <= |x| {
        SplitPast(p, Flatten(rest), x, y);
        var after := IntoOne(lim, rest, x[|p|..], m, y);
        more := [p] + after;
        FitMore(lim, p, after);
        FlattenStep(p, after);
        assert p + (x[|p|..] + ([m] + y)) == x + ([m] + y);
      } else {
        SplitWithin(p, Flatten(rest), x, y);
        assert p[..|x|] == x;
        IntoPart(lim, p, rest, |x|, m);
        more := Solo(p[..|x|]) + ([[m]] + (Solo(p[|x|..]) + rest));
      }
    }
  }

  lemma IntoPart(lim: Limits, p: seq<Member>, rest: seq<seq<Member>>, i: nat, m: Member)
    requires i <= |p| && Fits(lim, p) && AllFit(lim, rest) && Fits(lim, [m])
    ensures
      var parts := Solo(p[..i]) + ([[m]] + (Solo(p[i..]) + rest));
      Flatten(parts) == p[..i] + ([m] + (p[i..] + Flatten(rest))) && AllFit(lim, parts) && |parts| <= |rest| + 3
  {
    FitsSlices(lim, p, i);
    SoloSize(p[..i]);
    SoloSize(p[i..]);
    hide Fits, AllFit, Solo, Flatten;
    FitJoin(lim, Solo(p[i..]), rest);
    FitMore(lim, [m], Solo(p[i..]) + rest);
    FitJoin(lim, Solo(p[..i]), [[m]] + (Solo(p[i..]) + rest));
    SoloStep(p[i..], rest);
    FlattenStep([m], Solo(p[i..]) + rest);
    SoloStep(p[..i], [[m]] + (Solo(p[i..]) + rest));
  }

  lemma SoloSize(p: seq<Member>)
    ensures |Solo(p)| <= 1
  {
  }

  /** A member put in anywhere costs no bundle, one or two, and never saves any. */
  lemma InsertingAddsAtMostTwo(lim: Limits, ms: seq<Member>, j: nat, m: Member)
    requires lim.cap >= 1 && j <= |ms| && AloneFit(lim, ms) && Fits(lim, [m])
    ensures |Pack(lim, ms)| <= |Pack(lim, Insert(ms, j, [m]))| <= |Pack(lim, ms)| + 2
  {
    hide Pack, Fits;
    var x, y, all := ms[..j], ms[j..], Insert(ms, j, [m]);
    assert ms == x + y && all == x + ([m] + y);
    PackKeepsMembers(lim, ms);
    PackFits(lim, ms);
    var more := IntoOne(lim, Pack(lim, ms), x, m, y);
    GreedyIsOptimal(lim, all, more);
    assert AloneFit(lim, all);
    PackKeepsMembers(lim, all);
    PackFits(lim, all);
    var less := WithoutOne(lim, Pack(lim, all), x, m, y);
    GreedyIsOptimal(lim, ms, less);
  }

  // ----- Flushing -----

  datatype Bundle = Bundle(flow: Flow, hashKey: nat, seqNum: nat, members: seq<Member>)

  /** bundle.Encode, kept abstract: None is its error return. */
  type BundleEncoder = Bundle -> Option<seq<Byte>>

  /** The codec law: a bundle is its header and, for each member, the envelope and the transaction. */
  ghost predicate SizedBundles(overhead: nat, enc: BundleEncoder) {
    forall b: Bundle :: enc(b).Some? ==> |enc(b).value| == BodySize(overhead, b.members)
  }

  /** The bundles of one bucket, stamped from the flow's counter. */
  function Stamped(hashKey: nat, f: Flow, parts: seq<seq<Member>>, drawn: nat): (bs: seq<Bundle>)
    ensures |bs| == |parts|
  {
    seq(|parts|, i requires 0 <= i < |parts| => Bundle(f, hashKey, NthDraw(drawn, i), parts[i]))
  }

  /** Those that encode, in order; the others are counted and skipped. */
  function Encodable(enc: BundleEncoder, bs: seq<Bundle>): seq<Bundle> {
    if bs == [] then []
    else Encodable(enc, bs[..|bs| - 1]) + if enc(bs[|bs| - 1]).Some? then [bs[|bs| - 1]] else []
  }

  /** What flushing the buckets queues and where it leaves the counters. */
  function Flushed(lim: Limits, hashKey: Flow -> nat, enc: BundleEncoder, buckets: seq<Bucket>, counts: map<Flow, nat>)
    : (seq<Bundle>, map<Flow, nat>)
    requires lim.cap >= 1
  {
    if buckets == [] then ([], counts)
    else
      var b := buckets[|buckets| - 1];
      var (out, mid) := Flushed(lim, hashKey, enc, buckets[..|buckets| - 1], counts);
      var parts := Pack(lim, b.members);
      (out + Encodable(enc, Stamped(hashKey(b.flow), b.flow, parts, Count(mid, b.flow))),
       Advance(mid, b.flow, |parts|))
  }

  // ----- Where a flush takes each member -----

  lemma {:induction false} MembersOfMore(buckets: seq<Bucket>, b: Bucket, f: Flow)
    ensures MembersOf(buckets + [b], f) == MembersOf(buckets, f) + if b.flow == f then b.members else []
  {
    if buckets == [] {
      assert buckets + [b] == [b];
    } else {
      MembersOfMore(buckets[1..], b, f);
      assert (buckets + [b])[1..] == buckets[1..] + [b];
    }
  }

  /** Every bundle a flush stamps, whether it encodes or not. */
  function Sealed(lim: Limits, hashKey: Flow -> nat, buckets: seq<Bucket>, counts: map<Flow, nat>)
    : (seq<Bundle>, map<Flow, nat>)
    requires lim.cap >= 1
  {
    if buckets == [] then ([], counts)
    else
      var b := buckets[|buckets| - 1];
      var (out, mid) := Sealed(lim, hashKey, buckets[..|buckets| - 1], counts);
      var parts := Pack(lim, b.members);
      (out + Stamped(hashKey(b.flow), b.flow, parts, Count(mid, b.flow)), Advance(mid, b.flow, |parts|))
  }

  lemma {:induction false} EncodableJoin(enc: BundleEncoder, a: seq<Bundle>, b: seq<Bundle>)
    ensures Encodable(enc, a + b) == Encodable(enc, a) + Encodable(enc, b)
  {
    if b == [] {
      assert a + b == a;
    } else {
      var k, all := |b| - 1, a + b;
      EncodableJoin(enc, a, b[..k]);
      assert all[..|all| - 1] == a + b[..k];
    }
  }

  /** A flush queues the stamped bundles that encode. */
  lemma {:induction false} FlushedIsSealed(
      lim: Limits, hashKey: Flow -> nat, enc: BundleEncoder, buckets: seq<Bucket>, counts: map<Flow, nat>)
    requires lim.cap >= 1
    ensures
      var (all, after) := Sealed(lim, hashKey, buckets, counts);
      Flushed(lim, hashKey, enc, buckets, counts) == (Encodable(enc, all), after)
  {
    hide Pack, Encodable, Stamped;
    if buckets == [] {
      NothingEncodable(enc);
    } else {
      var b, before := buckets[|buckets| - 1], buckets[..|buckets| - 1];
      FlushedIsSealed(lim, hashKey, enc, before, counts);
      var (out, mid) := Sealed(lim, hashKey, before, counts);
      EncodableJoin(enc, out, Stamped(hashKey(b.flow), b.flow, Pack(lim, b.members), Count(mid, b.flow)));
    }
  }

  lemma NothingEncodable(enc: BundleEncoder)
    ensures Encodable(enc, []) == []
  {
  }

  lemma {:induction false} EncodableHas(enc: BundleEncoder, bs: seq<Bundle>, j: nat)
    requires j < |bs| && enc(bs[j]).Some?
    ensures bs[j] in Encodable(enc, bs)
  {
    if j < |bs| - 1 {
      EncodableHas(enc, bs[..|bs| - 1], j);
    }
  }

  /** How often m is among ms. */
  function Occurs(ms: seq<Member>, m: Member): nat {
    if ms == [] then 0 else (if ms[0] == m then 1 else 0) + Occurs(ms[1..], m)
  }

  lemma {:induction false} OccursJoin(a: seq<Member>, b: seq<Member>, m: Member)
    ensures Occurs(a + b, m) == Occurs(a, m) + Occurs(b, m)
  {
    if a == [] {
      assert a + b == b;
    } else {
      OccursJoin(a[1..], b, m);
      assert (a + b)[1..] == a[1..] + b;
    }
  }

  lemma {:induction false} OccursIn(ms: seq<Member>, m: Member)
    ensures Occurs(ms, m) > 0 <==> m in ms
  {
    if ms != [] {
      OccursIn(ms[1..], m);
      assert m in ms <==> m == ms[0] || m in ms[1..];
    }
  }

  /** How often m is bundled for flow f. */
  function InBundles(bs: seq<Bundle>, f: Flow, m: Member): nat {
    if bs == [] then 0
    else (if bs[0].flow == f then Occurs(bs[0].members, m) else 0) + InBundles(bs[1..], f, m)
  }

  lemma {:induction false} InBundlesJoin(a: seq<Bundle>, b: seq<Bundle>, f: Flow, m: Member)
    ensures InBundles(a + b, f, m) == InBundles(a, f, m) + InBundles(b, f, m)
  {
    if a == [] {
      assert a + b == b;
    } else {
      InBundlesJoin(a[1..], b, f, m);
      assert (a + b)[1..] == a[1..] + b;
    }
  }

  lemma {:induction false} InBundlesOfParts(bs: seq<Bundle>, g: Flow, parts: seq<seq<Member>>, f: Flow, m: Member)
    requires |bs| == |parts| && forall i | 0 <= i < |bs| :: bs[i].flow == g && bs[i].members == parts[i]
    ensures InBundles(bs, f, m) == if f == g then Occurs(Flatten(parts), m) else 0
  {
    if bs != [] {
      InBundlesOfParts(bs[1..], g, parts[1..], f, m);
      OccursJoin(parts[0], Flatten(parts[1..]), m);
    }
  }

  /** A flush stamps each buffered member into bundles of its own flow, as often as it was buffered. */
  lemma {:induction false} SealedOnce(
      lim: Limits, hashKey: Flow -> nat, buckets: seq<Bucket>, counts: map<Flow, nat>, f: Flow, m: Member)
    requires lim.cap >= 1
    ensures InBundles(Sealed(lim, hashKey, buckets, counts).0, f, m) == Occurs(MembersOf(buckets, f), m)
  {
    hide Pack, InBundles, Occurs, MembersOf;
    if buckets == [] {
      NotHeld([], f);
      NothingOccurs(f, m);
    } else {
      var b, before := buckets[|buckets| - 1], buckets[..|buckets| - 1];
      SealedOnce(lim, hashKey, before, counts, f, m);
      var (out, mid) := Sealed(lim, hashKey, before, counts);
      var parts := Pack(lim, b.members);
      var mine := Stamped(hashKey(b.flow), b.flow, parts, Count(mid, b.flow));
      InBundlesJoin(out, mine, f, m);
      InBundlesOfParts(mine, b.flow, parts, f, m);
      PackKeepsMembers(lim, b.members);
      MembersOfMore(before, b, f);
      assert before + [b] == buckets;
      OccursJoin(MembersOf(before, f), if b.flow == f then b.members else [], m);
      NothingOccurs(f, m);
    }
  }

  lemma NothingOccurs(f: Flow, m: Member)
    ensures Occurs([], m) == 0 && InBundles([], f, m) == 0
  {
  }

  /** Buffering a member adds it once to its own flow. */
  lemma {:induction false} AddToOccurs(buckets: seq<Bucket>, f: Flow, m: Member, g: Flow, x: Member)
    ensures Occurs(MembersOf(AddTo(buckets, f, m), g), x)
         == Occurs(MembersOf(buckets, g), x) + if g == f && x == m then 1 else 0
  {
    hide Occurs, MembersOf;
    OccursOne(m, x);
    var more := AddTo(buckets, f, m);
    MembersOfFirst(more, g, x);
    if buckets == [] {
      assert more[1..] == [];
      NotHeld([], g);
    } else {
      MembersOfFirst(buckets, g, x);
      if buckets[0].flow == f {
        assert more[1..] == buckets[1..];
        OccursJoin(buckets[0].members, [m], x);
      } else {
        assert more[1..] == AddTo(buckets[1..], f, m);
        AddToOccurs(buckets[1..], f, m, g, x);
      }
    }
  }

  lemma MembersOfFirst(buckets: seq<Bucket>, g: Flow, x: Member)
    requires buckets != []
    ensures Occurs(MembersOf(buckets, g), x)
         == (if buckets[0].flow == g then Occurs(buckets[0].members, x) else 0) + Occurs(MembersOf(buckets[1..], g), x)
  {
    hide Occurs;
    OccursJoin(if buckets[0].flow == g then buckets[0].members else [], MembersOf(buckets[1..], g), x);
    OccursOne(Member(ZERO_HASH, []), x);
  }

  lemma OccursOne(m: Member, x: Member)
    ensures Occurs([m], x) == (if x == m then 1 else 0) && Occurs([], x) == 0
  {
  }

  /** The innermost loop: members of one bundle from index i. */
  method FillBundle(lim: Limits, ms: seq<Member>, start: nat) returns (taken: seq<Member>)
    requires start < |ms| && lim.cap >= 1
    ensures taken == ms[start..][..Fill(lim, ms[start..], 0)]
  {
    ghost var xs := ms[start..];
    var i, size := start, BUNDLE_HEADER;
    taken := [];
    while i < |ms| && |taken| < lim.cap
      invariant start <= i <= |ms| && taken == xs[..i - start]
      invariant size == BodySize(lim.overhead, taken)
      invariant Fill(lim, xs, 0) == Fill(lim, xs, i - start)
    {
      var add := lim.overhead + |ms[i].tx|;
      assert xs[..i - start + 1] == taken + [ms[i]];
      assert (taken + [ms[i]])[..|taken|] == taken;
      if |taken| > 0 && size + add > lim.budget {
        break;
      }
      taken := taken + [ms[i]];
      size := size + add;
      i := i + 1;
    }
  }

  /** The bundles of one bucket, each drawing its SeqNum from the flow's counter. */
  method PackBucket(chains: Chains, lim: Limits, enc: BundleEncoder, b: Bucket) returns (queued: seq<Bundle>)
    requires chains.Valid() && lim.cap >= 1
    modifies chains, chains.cells
    ensures chains.Valid() && fresh(chains.cells - old(chains.cells))
    ensures
      var parts := Pack(lim, b.members);
      && queued == Encodable(enc, Stamped(chains.hashKey(b.flow), b.flow, parts, old(chains.Drawn(b.flow))))
      && chains.counts == Advance(old(chains.counts), b.flow, |parts|)
  {
    hide Chains.Valid, Fill, Wrap64, Stamped, Encodable, Pack;
    queued := [];
    var i := 0;
    ghost var n := 0;
    ghost var key, drawn := chains.hashKey(b.flow), chains.Drawn(b.flow);
    ghost var parts := Pack(lim, b.members);
    ghost var all := Stamped(key, b.flow, parts, drawn);
    StartBucket(lim, enc, b.members, all);
    while i < |b.members|
      invariant chains.Valid() && fresh(chains.cells - old(chains.cells))
      invariant 0 <= i <= |b.members| && 0 <= n <= |parts|
      invariant parts[n..] == Pack(lim, b.members[i..])
      invariant chains.counts == Advance(old(chains.counts), b.flow, n)
      invariant queued == Encodable(enc, all[..n])
    {
      PackStep(lim, b.members[i..]);
      var members := FillBundle(lim, b.members, i);
      assert parts[n] == parts[n..][0] && parts[n + 1..] == parts[n..][1..];
      assert b.members[i..][|members|..] == b.members[i + |members|..];
      i := i + |members|;
      var hashKey, seqNum := chains.NextSeq(b.flow);
      Wrap64Back(drawn + n, 1);
      OneMoreBundle(enc, key, b.flow, parts, drawn, n);
      var bundle := Bundle(b.flow, hashKey, seqNum, members);
      if enc(bundle).Some? {
        queued := queued + [bundle];
      }
      n := n + 1;
    }
    assert b.members[i..] == [];
    PackNothing(lim);
    assert all[..n] == all;
  }

  lemma StartBucket(lim: Limits, enc: BundleEncoder, ms: seq<Member>, all: seq<Bundle>)
    requires lim.cap >= 1
    ensures Encodable(enc, all[..0]) == [] && ms[0..] == ms && Pack(lim, ms)[0..] == Pack(lim, ms)
  {
  }

  lemma PackNothing(lim: Limits)
    requires lim.cap >= 1
    ensures Pack(lim, []) == []
  {
  }

  lemma PackStep(lim: Limits, ms: seq<Member>)
    requires lim.cap >= 1 && ms != []
    ensures
      var k := Fill(lim, ms, 0);
      k >= 1 && Pack(lim, ms) == [ms[..k]] + Pack(lim, ms[k..])
  {
    FillTakesOne(lim, ms);
  }

  lemma OneMoreBundle(enc: BundleEncoder, hashKey: nat, f: Flow, parts: seq<seq<Member>>, drawn: nat, n: nat)
    requires n < |parts|
    ensures
      var all, next := Stamped(hashKey, f, parts, drawn), Bundle(f, hashKey, Wrap64(drawn + 1 + n), parts[n]);
      Encodable(enc, all[..n + 1]) == Encodable(enc, all[..n]) + if enc(next).Some? then [next] else []
  {
    var all := Stamped(hashKey, f, parts, drawn);
    assert all[..n + 1][..n] == all[..n];
  }

  /** FlushCoalesced: every bucket packed, stamped and queued, and the buffer emptied. */
  method FlushCoalesced(buf: CoalBuffer, chains: Chains, overhead: nat, budget: int, enc: BundleEncoder)
    returns (queued: seq<Bundle>)
    requires chains.Valid() && buf.maxMembers >= 1
    modifies buf, chains, chains.cells
    ensures chains.Valid() && fresh(chains.cells - old(chains.cells))
    ensures buf.buckets == []
    ensures (queued, chains.counts)
         == Flushed(Limits(overhead, PackBudget(budget), buf.maxMembers), chains.hashKey, enc,
                    old(buf.buckets), old(chains.counts))
  {
    queued := [];
    if |buf.buckets| == 0 {
      return;
    }
    var lim := Limits(overhead, PackBudget(budget), buf.maxMembers);
    hide Chains.Valid, Pack, Stamped, Encodable, Wrap64;
    for bi := 0 to |buf.buckets|
      invariant chains.Valid() && fresh(chains.cells - old(chains.cells))
      invariant buf.buckets == old(buf.buckets)
      invariant (queued, chains.counts) == Flushed(lim, chains.hashKey, enc, buf.buckets[..bi], old(chains.counts))
    {
      assert buf.buckets[..bi + 1][..bi] == buf.buckets[..bi];
      var out := PackBucket(chains, lim, enc, buf.buckets[bi]);
      queued := queued + out;
    }
    assert buf.buckets[..|buf.buckets|] == buf.buckets;
    buf.Reset();
  }
}
