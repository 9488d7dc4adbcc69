/**
 The per-flow sequence space (forwarder/forwarder.go, reserveSeq).

 A flow is (sender, group, subtree). Its counter lives behind a pointer in one of
 64 mutex-guarded maps and is advanced by an atomic add. The class keeps the
 pointers; the state machine below it runs any number of callers, interleaved
 between the map lookup and the add.
 */
module SeqSpace {
  import opened Bytes

  type Ip = ip: seq<Byte> | |ip| == 16 witness seq(16, i => 0)

  /** chainKey. */
  datatype Flow = Flow(ip: Ip, group: nat, sub: Hash)

  const STRIPES: nat := 64

  /** The stripe of a sender: the low bits of a hash of its address. */
  function StripeIndex(hash32: Ip -> nat, ip: Ip): (i: nat)
    ensures i < STRIPES
  {
    hash32(ip) % STRIPES
  }

  function NthDraw(drawn: nat, i: nat): nat {
    Wrap64(drawn + 1 + i)
  }

  /** The n SeqNums after drawn, as the 64-bit counter gives them. */
  function Draws(drawn: nat, n: nat): (ds: seq<nat>)
    ensures |ds| == n
  {
    seq(n, (i: nat) => NthDraw(drawn, i))
  }

  /** A flow's entry in a flat map of counters. */
  function Count(m: map<Flow, nat>, f: Flow): nat {
    if f in m then m[f] else 0
  }

  class FlowState {
    var counter: nat

    constructor ()
      ensures counter == 0
    {
      counter := 0;
    }
  }

  class Chains {
    const hash32: Ip -> nat
    const hashKey: Flow -> nat
    var stripes: seq<map<Flow, FlowState>>
    ghost var cells: set<FlowState>
    ghost var counts: map<Flow, nat>

    /** The pointer the striped map holds for a flow. */
    ghost function Cell(f: Flow): FlowState?
      requires |stripes| == STRIPES
      reads this`stripes
    {
      var m := stripes[StripeIndex(hash32, f.ip)];
      if f in m then m[f] else null
    }

    /** counts is the flat map the striped pointers stand for. */
    ghost predicate Valid()
      reads this, cells
    {
      && |stripes| == STRIPES
      && (forall f :: Cell(f) != null <==> f in counts)
      && (forall f | f in counts :: Cell(f) in cells && Cell(f).counter == counts[f] < TWO64)
      && (forall f, g | f in counts && g in counts && Cell(f) == Cell(g) :: f == g)
    }

    /** How many SeqNums the flow has drawn, modulo 2^64. */
    ghost function Drawn(f: Flow): nat
      reads this
    {
      Count(counts, f)
    }

    constructor (hash32: Ip -> nat, hashKey: Flow -> nat)
      ensures Valid() && fresh(cells) && this.hash32 == hash32 && this.hashKey == hashKey
      ensures counts == map[]
    {
      this.hash32 := hash32;
      this.hashKey := hashKey;
      stripes := seq(STRIPES, i => map[]);
      cells := {};
      counts := map[];
    }

    /** The part of reserveSeq under the stripe lock: the flow's cell, made on first sight. */
    method Resolve(f: Flow) returns (st: FlowState)
      requires Valid()
      modifies this
      ensures Valid() && cells >= old(cells) && fresh(cells - old(cells))
      ensures Cell(f) == st && st in cells && counts == old(counts)[f := old(Drawn(f))]
    {
      var i := StripeIndex(hash32, f.ip);
      if f !in stripes[i] {
        st := new FlowState();
        stripes := stripes[i := stripes[i][f := st]];
        cells := cells + {st};
        counts := counts[f := 0];
        assert forall g :: Cell(g) == if g == f then st else old(Cell(g));
      } else {
        assert Cell(f) != null;
        st := stripes[i][f];
      }
    }

    /** reserveSeq: n consecutive SeqNums at once; every other flow keeps its counter. */
    method ReserveSeq(f: Flow, n: nat) returns (key: nat, first: nat)
      requires Valid()
      modifies this, cells
      ensures Valid() && fresh(cells - old(cells))
      ensures key == hashKey(f)
      ensures first == Wrap64(old(Drawn(f)) + 1)
      ensures counts == old(counts)[f := Wrap64(old(Drawn(f)) + n)]
    {
      hide Valid, Wrap64;
      var st := Resolve(f);
      key := hashKey(f);
      first := Advance(f, st, n);
    }

    /** The atomic add on a resolved cell. */
    method Advance(f: Flow, st: FlowState, n: nat) returns (first: nat)
      requires Valid() && f in counts && Cell(f) == st
      modifies this`counts, st
      ensures Valid()
      ensures first == Wrap64(old(Drawn(f)) + 1)
      ensures counts == old(counts)[f := Wrap64(old(Drawn(f)) + n)]
    {
      hide Wrap64;
      Wrap64Back(st.counter, n);
      st.counter := Wrap64(st.counter + n);
      first := Wrap64(st.counter - n + 1);
      counts := counts[f := st.counter];
    }

    /** nextSeq. */
    method NextSeq(f: Flow) returns (key: nat, seqNum: nat)
      requires Valid()
      modifies this, cells
      ensures Valid() && fresh(cells - old(cells))
      ensures key == hashKey(f)
      ensures seqNum == Wrap64(old(Drawn(f)) + 1)
      ensures counts == old(counts)[f := seqNum]
    {
      key, seqNum := ReserveSeq(f, 1);
    }

    /** n calls of nextSeq draw exactly the block one reservation of n hands out. */
    method NextSeqTimes(f: Flow, n: nat) returns (seqs: seq<nat>)
      requires Valid()
      modifies this, cells
      ensures Valid() && fresh(cells - old(cells))
      ensures seqs == Draws(old(Drawn(f)), n)
      ensures counts == if n == 0 then old(counts) else old(counts)[f := Wrap64(old(Drawn(f)) + n)]
    {
      hide Valid, Wrap64;
      seqs := [];
      for i := 0 to n
        invariant Valid() && fresh(cells - old(cells))
        invariant seqs == Draws(old(Drawn(f)), i)
        invariant counts == if i == 0 then old(counts) else old(counts)[f := Wrap64(old(Drawn(f)) + i)]
      {
        Wrap64Back(old(Drawn(f)) + i, 1);
        var key, s := NextSeq(f);
        seqs := seqs + [s];
      }
    }
  }

  // ----- Concurrent callers -----

  /** A block size: every caller draws 1 or a fragment count. */
  type Block = n: int | n >= 1 witness 1

  datatype Request = Request(flow: Flow, n: Block)

  /** A caller is idle, or holds the pointer the locked lookup gave it and has not added yet. */
  datatype Caller = Idle | Resolved(req: Request, cell: nat)

  datatype Grant = Grant(caller: nat, flow: Flow, first: nat, n: Block)

  /** cells is the heap of counters; stripes maps each flow to an index in it. */
  datatype State = State(stripes: seq<map<Flow, nat>>, cells: seq<nat>, callers: map<nat, Caller>, grants: seq<Grant>)

  datatype Action = Lookup(caller: nat, req: Request) | Add(caller: nat)

  function Init(): State {
    State(seq(STRIPES, i => map[]), [], map[], [])
  }

  function CallerAt(s: State, t: nat): Caller {
    if t in s.callers then s.callers[t] else Idle
  }

  /** One atomic step; an action whose caller is not at that point does nothing. */
  function Step(hash32: Ip -> nat, s: State, a: Action): State
    requires |s.stripes| == STRIPES
  {
    match a
    case Lookup(t, req) =>
      var i := StripeIndex(hash32, req.flow.ip);
      if CallerAt(s, t) != Idle then s
      else if req.flow in s.stripes[i] then
        s.(callers := s.callers[t := Resolved(req, s.stripes[i][req.flow])])
      else
        var p: nat := |s.cells|;
        var stripe: map<Flow, nat> := s.stripes[i][req.flow := p];
        State(s.stripes[i := stripe],
              s.cells + [0],
              s.callers[t := Resolved(req, p)],
              s.grants)
    case Add(t) =>
      match CallerAt(s, t)
      case Idle => s
      case Resolved(req, cell) =>
        if cell >= |s.cells| then s
        else
          var after := Wrap64(s.cells[cell] + req.n);
          State(s.stripes,
                s.cells[cell := after],
                s.callers[t := Idle],
                s.grants + [Grant(t, req.flow, Wrap64(after - req.n + 1), req.n)])
  }

  function Run(hash32: Ip -> nat, actions: seq<Action>): (s: State)
    ensures |s.stripes| == STRIPES
  {
    if actions == [] then Init()
    else Step(hash32, Run(hash32, actions[..|actions| - 1]), actions[|actions| - 1])
  }

  // ----- The flat reference: one map from flow to counter -----

  /** Serves the requests one after another from a single map of unbounded counters. */
  function Serve(requests: seq<Request>): (m: map<Flow, nat>) {
    if requests == [] then map[]
    else
      var r := requests[|requests| - 1];
      var m := Serve(requests[..|requests| - 1]);
      m[r.flow := Count(m, r.flow) + r.n]
  }

  function Requests(grants: seq<Grant>): (rs: seq<Request>)
    ensures |rs| == |grants|
  {
    seq(|grants|, i requires 0 <= i < |grants| => Request(grants[i].flow, grants[i].n))
  }

  /** What the whole run drew on a flow. */
  function Total(grants: seq<Grant>, f: Flow): nat {
    Count(Serve(Requests(grants)), f)
  }

  /** The pointer the striped map holds for a flow, -1 for none. */
  function Pointer(hash32: Ip -> nat, s: State, f: Flow): int
    requires |s.stripes| == STRIPES
  {
    var m := s.stripes[StripeIndex(hash32, f.ip)];
    if f in m then m[f] else -1
  }

  /** The counter behind that pointer. */
  function Counter(hash32: Ip -> nat, s: State, f: Flow): nat
    requires |s.stripes| == STRIPES
  {
    var p := Pointer(hash32, s, f);
    if 0 <= p < |s.cells| then s.cells[p] else 0
  }

  ghost predicate PointersInv(hash32: Ip -> nat, s: State) {
    && |s.stripes| == STRIPES
    && (forall f :: Pointer(hash32, s, f) < |s.cells|)
    && (forall f, g :: Pointer(hash32, s, f) == Pointer(hash32, s, g) >= 0 ==> f == g)
    && (forall t | t in s.callers && s.callers[t].Resolved? ::
          Pointer(hash32, s, s.callers[t].req.flow) == s.callers[t].cell)
  }

  ghost predicate CountersInv(hash32: Ip -> nat, s: State) {
    && |s.stripes| == STRIPES
    && forall f :: Counter(hash32, s, f) == Wrap64(Total(s.grants, f))
  }

  lemma TotalOfMore(grants: seq<Grant>, g: Grant, f: Flow)
    ensures Total(grants + [g], f) == Total(grants, f) + if g.flow == f then g.n else 0
  {
    assert Requests(grants + [g])[..|grants|] == Requests(grants);
  }

  /** A lookup changes no pointer but a missing one of its own flow. */
  lemma LookupPointers(hash32: Ip -> nat, s: State, t: nat, req: Request, f: Flow)
    requires |s.stripes| == STRIPES
    ensures
      var u := Step(hash32, s, Lookup(t, req));
      Pointer(hash32, u, f) == if u.cells != s.cells && f == req.flow then |s.cells| else Pointer(hash32, s, f)
  {
  }

  lemma LookupKeeps(hash32: Ip -> nat, s: State, t: nat, req: Request)
    requires PointersInv(hash32, s) && CountersInv(hash32, s)
    ensures PointersInv(hash32, Step(hash32, s, Lookup(t, req)))
    ensures CountersInv(hash32, Step(hash32, s, Lookup(t, req)))
  {
    var u := Step(hash32, s, Lookup(t, req));
    forall f
      ensures Pointer(hash32, u, f) == if u.cells != s.cells && f == req.flow then |s.cells| else Pointer(hash32, s, f)
    {
      LookupPointers(hash32, s, t, req, f);
    }
    assert u.cells != s.cells ==> Pointer(hash32, s, req.flow) == -1;
  }

  /** An add hands its caller the block after what the flow's counter stood at. */
  lemma AddGrants(hash32: Ip -> nat, s: State, t: nat) returns (g: Grant)
    requires PointersInv(hash32, s) && CallerAt(s, t).Resolved?
    ensures var u := Step(hash32, s, Add(t));
            && u.stripes == s.stripes
            && u.grants == s.grants + [g]
            && g.flow == CallerAt(s, t).req.flow
            && g.first == Wrap64(Counter(hash32, s, g.flow) + 1)
            && u.cells == s.cells[CallerAt(s, t).cell := Wrap64(Counter(hash32, s, g.flow) + g.n)]
  {
    var req, cell := CallerAt(s, t).req, CallerAt(s, t).cell;
    assert Pointer(hash32, s, req.flow) == cell;
    g := Step(hash32, s, Add(t)).grants[|s.grants|];
    Wrap64Back(s.cells[cell], req.n);
  }

  lemma AddKeeps(hash32: Ip -> nat, s: State, t: nat)
    requires PointersInv(hash32, s) && CountersInv(hash32, s) && CallerAt(s, t).Resolved?
    ensures PointersInv(hash32, Step(hash32, s, Add(t)))
    ensures CountersInv(hash32, Step(hash32, s, Add(t)))
  {
    hide Total, Wrap64;
    var u := Step(hash32, s, Add(t));
    var g := AddGrants(hash32, s, t);
    var cell := CallerAt(s, t).cell;
    forall f
      ensures Pointer(hash32, u, f) == Pointer(hash32, s, f)
      ensures Counter(hash32, u, f) == Wrap64(Total(u.grants, f))
    {
      TotalOfMore(s.grants, g, f);
      Wrap64Back(Total(s.grants, f), g.n);
      assert Pointer(hash32, s, g.flow) == cell;
    }
  }

  lemma {:induction false} RunKeeps(hash32: Ip -> nat, actions: seq<Action>)
    ensures PointersInv(hash32, Run(hash32, actions))
    ensures CountersInv(hash32, Run(hash32, actions))
  {
    if actions != [] {
      var before := actions[..|actions| - 1];
      RunKeeps(hash32, before);
      match actions[|actions| - 1]
      case Lookup(t, req) => LookupKeeps(hash32, Run(hash32, before), t, req);
      case Add(t) =>
        if CallerAt(Run(hash32, before), t).Resolved? {
          AddKeeps(hash32, Run(hash32, before), t);
        }
    }
  }

  // ----- Every SeqNum is handed out once -----

  /** How many grants of a flow contain SeqNum v. */
  function Holders(grants: seq<Grant>, f: Flow, v: nat): nat {
    if grants == [] then 0
    else
      var g := grants[|grants| - 1];
      Holders(grants[..|grants| - 1], f, v) + if g.flow == f && g.first <= v < g.first + g.n then 1 else 0
  }

  /** The grants are those the flat map hands out, in order: each starts one past what its flow drew before it. */
  ghost predicate ServedInOrder(grants: seq<Grant>) {
    forall i | 0 <= i < |grants| :: grants[i].first == Total(grants[..i], grants[i].flow) + 1
  }

  /** Grants served in order hold each of a flow's numbers once. */
  lemma {:induction false} InOrderCovers(grants: seq<Grant>, f: Flow, v: nat)
    requires ServedInOrder(grants)
    ensures Holders(grants, f, v) == if 1 <= v <= Total(grants, f) then 1 else 0
  {
    if grants != [] {
      var n := |grants| - 1;
      InOrderPrefix(grants);
      hide Total, ServedInOrder;
      InOrderCovers(grants[..n], f, v);
      assert grants == grants[..n] + [grants[n]];
      TotalOfMore(grants[..n], grants[n], f);
    }
  }

  lemma InOrderPrefix(grants: seq<Grant>)
    requires ServedInOrder(grants) && grants != []
    ensures
      var n := |grants| - 1;
      ServedInOrder(grants[..n]) && grants[n].first == Total(grants[..n], grants[n].flow) + 1
  {
    hide Total;
    var before := grants[..|grants| - 1];
    assert forall i | 0 <= i < |before| :: before[i] == grants[i] && before[..i] == grants[..i];
  }

  lemma InOrderGrows(grants: seq<Grant>, g: Grant)
    requires ServedInOrder(grants) && g.first == Total(grants, g.flow) + 1
    ensures ServedInOrder(grants + [g])
  {
    var more := grants + [g];
    forall i | 0 <= i < |more|
      ensures more[i].first == Total(more[..i], more[i].flow) + 1
    {
      if i < |grants| {
        assert more[..i] == grants[..i];
      } else {
        assert more[..i] == grants;
      }
    }
  }

  ghost predicate BelowWrap(grants: seq<Grant>) {
    forall f :: Total(grants, f) < TWO64
  }

  lemma AddInOrder(hash32: Ip -> nat, s: State, t: nat)
    requires PointersInv(hash32, s) && CountersInv(hash32, s) && CallerAt(s, t).Resolved?
    requires BelowWrap(Step(hash32, s, Add(t)).grants)
    ensures BelowWrap(s.grants)
    ensures ServedInOrder(s.grants) ==> ServedInOrder(Step(hash32, s, Add(t)).grants)
  {
    var g := AddGrants(hash32, s, t);
    forall f
      ensures Total(s.grants, f) < TWO64
    {
      TotalOfMore(s.grants, g, f);
    }
    TotalOfMore(s.grants, g, g.flow);
    if ServedInOrder(s.grants) {
      InOrderGrows(s.grants, g);
    }
  }

  lemma {:induction false} RunServesInOrder(hash32: Ip -> nat, actions: seq<Action>)
    requires BelowWrap(Run(hash32, actions).grants)
    ensures ServedInOrder(Run(hash32, actions).grants)
  {
    if actions != [] {
      var before, a := actions[..|actions| - 1], actions[|actions| - 1];
      var s := Run(hash32, before);
      RunKeeps(hash32, before);
      if a.Add? && CallerAt(s, a.caller).Resolved? {
        AddInOrder(hash32, s, a.caller);
      } else {
        assert Run(hash32, actions).grants == s.grants;
      }
      RunServesInOrder(hash32, before);
    }
  }

  /** Below 2^64 draws, the striped map of pointers serves what one flat map would, and holds its counters. */
  lemma StripesRefineFlatMap(hash32: Ip -> nat, actions: seq<Action>)
    requires BelowWrap(Run(hash32, actions).grants)
    ensures ServedInOrder(Run(hash32, actions).grants)
    ensures forall f ::
              Counter(hash32, Run(hash32, actions), f) == Count(Serve(Requests(Run(hash32, actions).grants)), f)
  {
    RunKeeps(hash32, actions);
    RunServesInOrder(hash32, actions);
  }

  /** Over every interleaving, a flow's SeqNums 1..counter are each handed out once and no others. */
  lemma EverySeqNumOnce(hash32: Ip -> nat, actions: seq<Action>, f: Flow)
    requires BelowWrap(Run(hash32, actions).grants)
    ensures forall v: nat ::
              Holders(Run(hash32, actions).grants, f, v)
              == if 1 <= v <= Counter(hash32, Run(hash32, actions), f) then 1 else 0
  {
    StripesRefineFlatMap(hash32, actions);
    forall v: nat {
      InOrderCovers(Run(hash32, actions).grants, f, v);
    }
  }
}
