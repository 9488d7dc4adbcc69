/**
 The egress sender goroutine (forwarder/egress.go, StartSender to flushToSender):
 batches of a fixed number circulate between a free channel, the flusher, a bounded
 send channel and the sender. Every result is over all interleavings of the two.
 */
module Sender {
  import opened Bytes

  /** A queued datagram and the pooled buffer behind it, if any. */
  datatype Item = Item(datagram: nat, buf: Option<nat>)

  function Bufs(items: seq<Item>): seq<nat> {
    if items == [] then []
    else
      var last := items[|items| - 1];
      Bufs(items[..|items| - 1]) + if last.buf.Some? then [last.buf.value] else []
  }

  /** What Egress and a batch swap: a queue per target, the metadata, the pooled buffers. */
  datatype Load = Load(msgs: seq<seq<Item>>, meta: seq<Item>, pooled: seq<nat>)

  /** An egressBatch; id is its identity as a pointer. */
  datatype Batch = Batch(id: nat, load: Load)

  datatype Flusher = FlushIdle | Handing(b: Batch) | Stopping | Stopped

  /** The sender waits, writes target i of b, or is about to put b back. */
  datatype Sending = SendIdle | Writing(b: Batch, i: nat) | Returning(b: Batch) | SendDone

  datatype State = State(
    targets: nat,
    depth: nat,
    cur: Load,
    free: seq<Batch>,
    sendQ: seq<Batch>,
    closed: bool,
    flusher: Flusher,
    sender: Sending,
    enqueued: seq<Item>,          // every datagram enqueued, in order
    offered: seq<seq<Item>>,      // per target, what its writer was offered, in order
    processed: seq<Item>,         // datagrams of batches whose buffers went back
    returned: seq<nat>)           // buffers put back into the pool, in order

  datatype Action =
    | Enqueue(item: Item)
    | TakeFree | HandOver | Stop | AwaitDone
    | Receive | WriteTarget | ReturnBufs | PutFree | Exit

  function EmptyLoad(targets: nat): Load {
    Load(seq(targets, i => []), [], [])
  }

  function FreshBatches(targets: nat, n: nat): (bs: seq<Batch>)
    ensures |bs| == n
  {
    if n == 0 then [] else FreshBatches(targets, n - 1) + [Batch(n - 1, EmptyLoad(targets))]
  }

  /** StartSender. */
  function Init(targets: nat, depth: int): State {
    var d: nat := if depth < 1 then 1 else depth;
    State(targets, d, EmptyLoad(targets), FreshBatches(targets, d + 1), [], false, FlushIdle, SendIdle,
          [], seq(targets, i => []), [], [])
  }

  function Append(l: Load, x: Item): Load {
    Load(seq(|l.msgs|, i requires 0 <= i < |l.msgs| => l.msgs[i] + [x]),
         l.meta + [x],
         l.pooled + if x.buf.Some? then [x.buf.value] else [])
  }

  predicate Enabled(s: State, a: Action) {
    match a
    case Enqueue(_) => s.flusher.FlushIdle?
    case TakeFree => s.flusher.FlushIdle? && s.cur.meta != [] && s.free != []
    case HandOver => s.flusher.Handing? && |s.sendQ| < s.depth
    case Stop => s.flusher.FlushIdle?
    case AwaitDone => s.flusher.Stopping? && s.sender.SendDone?
    case Receive => s.sender.SendIdle? && s.sendQ != []
    case WriteTarget => s.sender.Writing? && s.sender.i < s.targets
                        && s.sender.i < |s.sender.b.load.msgs| && s.sender.i < |s.offered|
    case ReturnBufs => s.sender.Writing? && s.sender.i >= s.targets
    case PutFree => s.sender.Returning? && |s.free| < s.depth + 1
    case Exit => s.sender.SendIdle? && s.sendQ == [] && s.closed
  }

  /** One step of the flusher or the sender; a disabled action does nothing. */
  function Step(s: State, a: Action): State {
    if !Enabled(s, a) then s
    else match a
      case Enqueue(x) => s.(cur := Append(s.cur, x), enqueued := s.enqueued + [x])
      case TakeFree =>
        var b := s.free[0];
        s.(free := s.free[1..], cur := b.load, flusher := Handing(b.(load := s.cur)))
      case HandOver => s.(sendQ := s.sendQ + [s.flusher.b], flusher := FlushIdle)
      case Stop => s.(closed := true, flusher := Stopping)
      case AwaitDone => s.(flusher := Stopped)
      case Receive => s.(sendQ := s.sendQ[1..], sender := Writing(s.sendQ[0], 0))
      case WriteTarget =>
        var b, i := s.sender.b, s.sender.i;
        s.(offered := s.offered[i := s.offered[i] + b.load.msgs[i]],
           sender := Writing(b.(load := b.load.(msgs := b.load.msgs[i := []])), i + 1))
      case ReturnBufs =>
        var b := s.sender.b;
        s.(returned := s.returned + b.load.pooled,
           processed := s.processed + b.load.meta,
           sender := Returning(b.(load := b.load.(meta := [], pooled := []))))
      case PutFree => s.(free := s.free + [s.sender.b], sender := SendIdle)
      case Exit => s.(sender := SendDone)
  }

  function Run(targets: nat, depth: int, actions: seq<Action>): State {
    if actions == [] then Init(targets, depth)
    else Step(Run(targets, depth, actions[..|actions| - 1]), actions[|actions| - 1])
  }

  // ----- The invariant -----

  /** A load whose every target still has the whole batch queued. */
  predicate Whole(l: Load, targets: nat) {
    && |l.msgs| == targets
    && (forall i | 0 <= i < targets :: l.msgs[i] == l.meta)
    && l.pooled == Bufs(l.meta)
  }

  predicate AllWhole(bs: seq<Batch>, targets: nat) {
    forall i | 0 <= i < |bs| :: Whole(bs[i].load, targets)
  }

  predicate AllEmpty(bs: seq<Batch>, targets: nat) {
    forall i | 0 <= i < |bs| :: Whole(bs[i].load, targets) && bs[i].load.meta == []
  }

  /** The batch being written: targets before i are drained, the rest are whole. */
  predicate Partly(l: Load, targets: nat, i: nat) {
    && |l.msgs| == targets && i <= targets
    && (forall j | 0 <= j < i :: l.msgs[j] == [])
    && (forall j | i <= j < targets :: l.msgs[j] == l.meta)
    && l.pooled == Bufs(l.meta)
  }

  function Metas(bs: seq<Batch>): seq<Item> {
    if bs == [] then [] else bs[0].load.meta + Metas(bs[1..])
  }

  function HeldMeta(f: Flusher): seq<Item> {
    if f.Handing? then f.b.load.meta else []
  }

  function SendingMeta(g: Sending): seq<Item> {
    match g
    case Writing(b, _) => b.load.meta
    case Returning(b) => b.load.meta
    case _ => []
  }

  /** Loads are well formed wherever they are. */
  predicate LoadsInv(s: State) {
    && Whole(s.cur, s.targets)
    && AllEmpty(s.free, s.targets)
    && AllWhole(s.sendQ, s.targets)
    && (s.flusher.Handing? ==> Whole(s.flusher.b.load, s.targets))
    && (s.sender.Writing? ==> Partly(s.sender.b.load, s.targets, s.sender.i))
    && (s.sender.Returning? ==> Whole(s.sender.b.load, s.targets) && s.sender.b.load.meta == [])
  }

  /** Every datagram is in exactly one place, and the places follow each other in enqueue order. */
  predicate OrderInv(s: State) {
    && s.enqueued == s.processed + SendingMeta(s.sender) + Metas(s.sendQ) + HeldMeta(s.flusher) + s.cur.meta
    && |s.offered| == s.targets
    && (forall j | 0 <= j < s.targets ::
          s.offered[j] == s.processed + if s.sender.Writing? && j < s.sender.i then s.sender.b.load.meta else [])
    && s.returned == Bufs(s.processed)
  }

  /** How many batches of a channel are the one named id. */
  function Copies(bs: seq<Batch>, id: nat): nat {
    if bs == [] then 0 else Copies(bs[..|bs| - 1], id) + if bs[|bs| - 1].id == id then 1 else 0
  }

  function HeldBy(f: Flusher, g: Sending, id: nat): nat {
    (if f.Handing? && f.b.id == id then 1 else 0)
    + if (g.Writing? || g.Returning?) && g.b.id == id then 1 else 0
  }

  function Held(f: Flusher, g: Sending): nat {
    (if f.Handing? then 1 else 0) + if g.Writing? || g.Returning? then 1 else 0
  }

  /** Each batch is in exactly one of the two channels and the two goroutines' hands. */
  ghost predicate EachOnce(s: State) {
    forall id: nat ::
      Copies(s.free, id) + Copies(s.sendQ, id) + HeldBy(s.flusher, s.sender, id) == if id <= s.depth then 1 else 0
  }

  /** The depth+1 batches are conserved across the channels and the two goroutines. */
  ghost predicate BatchesInv(s: State) {
    && s.depth >= 1
    && EachOnce(s)
    && |s.free| + |s.sendQ| + Held(s.flusher, s.sender) == s.depth + 1
    && |s.sendQ| <= s.depth
    && (s.closed <==> s.flusher.Stopping? || s.flusher.Stopped?)
    && (s.sender.SendDone? ==> s.closed && s.sendQ == [])
    && (s.flusher.Stopped? ==> s.sender.SendDone?)
  }

  ghost predicate Inv(s: State) {
    LoadsInv(s) && OrderInv(s) && BatchesInv(s)
  }

  lemma {:induction false} CopiesHead(bs: seq<Batch>, id: nat)
    requires bs != []
    ensures Copies(bs, id) == (if bs[0].id == id then 1 else 0) + Copies(bs[1..], id)
  {
    if |bs| > 1 {
      var k := |bs| - 1;
      CopiesHead(bs[..k], id);
      assert bs[..k][1..] == bs[1..][..k - 1];
      assert bs[1..][k - 1] == bs[k];
    }
  }

  lemma CopiesMore(bs: seq<Batch>, b: Batch, id: nat)
    ensures Copies(bs + [b], id) == Copies(bs, id) + if b.id == id then 1 else 0
  {
    assert (bs + [b])[..|bs|] == bs;
  }

  lemma {:induction false} MetasMore(bs: seq<Batch>, b: Batch)
    ensures Metas(bs + [b]) == Metas(bs) + b.load.meta
  {
    if bs == [] {
      assert ([b])[1..] == [];
    } else {
      MetasMore(bs[1..], b);
      assert (bs + [b])[1..] == bs[1..] + [b];
    }
  }

  lemma BufsMore(items: seq<Item>, x: Item)
    ensures Bufs(items + [x]) == Bufs(items) + if x.buf.Some? then [x.buf.value] else []
  {
    assert (items + [x])[..|items|] == items;
  }

  lemma {:induction false} BufsAdd(a: seq<Item>, b: seq<Item>)
    ensures Bufs(a + b) == Bufs(a) + Bufs(b)
  {
    if b == [] {
      assert a + b == a;
    } else {
      var k := |b| - 1;
      BufsAdd(a, b[..k]);
      BufsMore(b[..k], b[k]);
      BufsMore(a + b[..k], b[k]);
      hide Bufs;
      assert b == b[..k] + [b[k]] && a + b == a + b[..k] + [b[k]];
    }
  }

  lemma EnqueueKeeps(s: State, x: Item)
    requires Inv(s) && Enabled(s, Enqueue(x))
    ensures Inv(Step(s, Enqueue(x)))
  {
    BufsMore(s.cur.meta, x);
  }

  lemma EmptyTail(bs: seq<Batch>, targets: nat)
    requires bs != [] && AllEmpty(bs, targets)
    ensures AllEmpty(bs[1..], targets) && Whole(bs[0].load, targets) && bs[0].load.meta == []
  {
    hide Whole;
  }

  lemma WholeTail(bs: seq<Batch>, targets: nat)
    requires bs != [] && AllWhole(bs, targets)
    ensures AllWhole(bs[1..], targets) && Partly(bs[0].load, targets, 0)
  {
    hide Bufs;
  }

  lemma TakeFreeKeeps(s: State)
    requires Inv(s) && Enabled(s, TakeFree)
    ensures Inv(Step(s, TakeFree))
  {
    forall id: nat {
      CopiesHead(s.free, id);
    }
    EmptyTail(s.free, s.targets);
    hide Copies, Metas, Bufs, AllEmpty, AllWhole, Whole, Partly;
  }

  lemma HandOverKeeps(s: State)
    requires Inv(s) && Enabled(s, HandOver)
    ensures Inv(Step(s, HandOver))
  {
    hide Copies, Metas, Bufs;
    forall id: nat {
      CopiesMore(s.sendQ, s.flusher.b, id);
    }
    MetasMore(s.sendQ, s.flusher.b);
  }

  lemma ReceiveKeeps(s: State)
    requires Inv(s) && Enabled(s, Receive)
    ensures Inv(Step(s, Receive))
  {
    forall id: nat {
      CopiesHead(s.sendQ, id);
    }
    assert Metas(s.sendQ) == s.sendQ[0].load.meta + Metas(s.sendQ[1..]);
    WholeTail(s.sendQ, s.targets);
    hide Copies, Metas, Bufs, AllEmpty, AllWhole, Whole, Partly;
    var t, meta, rest := Step(s, Receive), s.sendQ[0].load.meta, Metas(s.sendQ[1..]);
    assert s.processed + [] + (meta + rest) == s.processed + meta + rest;
    assert EachOnce(t);
  }

  lemma WriteTargetKeeps(s: State)
    requires Inv(s) && Enabled(s, WriteTarget)
    ensures Inv(Step(s, WriteTarget))
  {
    hide Copies, Metas, Bufs;
  }

  lemma WrittenOut(l: Load, targets: nat, i: nat)
    requires Partly(l, targets, i) && i >= targets
    ensures Whole(l.(meta := [], pooled := []), targets) && l.pooled == Bufs(l.meta)
  {
  }

  lemma SameBatches(s: State, t: State)
    requires EachOnce(s) && s.free == t.free && s.sendQ == t.sendQ && s.depth == t.depth
    requires forall id: nat :: HeldBy(t.flusher, t.sender, id) == HeldBy(s.flusher, s.sender, id)
    ensures EachOnce(t)
  {
  }

  lemma ReturnBufsKeeps(s: State)
    requires Inv(s) && Enabled(s, ReturnBufs)
    ensures Inv(Step(s, ReturnBufs))
  {
    WrittenOut(s.sender.b.load, s.targets, s.sender.i);
    ReturnBufsOrder(s);
    hide Copies, Metas, Bufs, AllEmpty, AllWhole, Whole, Partly, EachOnce, OrderInv;
    SameBatches(s, Step(s, ReturnBufs));
  }

  lemma ReturnBufsOrder(s: State)
    requires Inv(s) && Enabled(s, ReturnBufs)
    ensures OrderInv(Step(s, ReturnBufs))
  {
    BufsAdd(s.processed, s.sender.b.load.meta);
    WrittenOut(s.sender.b.load, s.targets, s.sender.i);
    hide Copies, Metas, Bufs, AllEmpty, AllWhole, Whole, BatchesInv;
    var t, m := Step(s, ReturnBufs), s.sender.b.load.meta;
    assert t.processed == s.processed + m && SendingMeta(t.sender) == [];
    assert t.processed + [] == t.processed;
  }

  lemma PutFreeKeeps(s: State)
    requires Inv(s) && Enabled(s, PutFree)
    ensures Inv(Step(s, PutFree))
  {
    hide Copies, Metas, Bufs;
    forall id: nat {
      CopiesMore(s.free, s.sender.b, id);
    }
  }

  lemma StepKeeps(s: State, a: Action)
    requires Inv(s)
    ensures Inv(Step(s, a))
  {
    if Enabled(s, a) {
      match a
      case Enqueue(x) => EnqueueKeeps(s, x);
      case TakeFree => TakeFreeKeeps(s);
      case HandOver => HandOverKeeps(s);
      case Stop =>
      case AwaitDone =>
      case Receive => ReceiveKeeps(s);
      case WriteTarget => WriteTargetKeeps(s);
      case ReturnBufs => ReturnBufsKeeps(s);
      case PutFree => PutFreeKeeps(s);
      case Exit =>
    }
  }

  lemma EmptyLoadIsWhole(targets: nat)
    ensures Whole(EmptyLoad(targets), targets) && EmptyLoad(targets).meta == []
  {
  }

  lemma {:induction false} FreshInv(targets: nat, n: nat)
    ensures AllEmpty(FreshBatches(targets, n), targets)
    ensures forall id: nat :: Copies(FreshBatches(targets, n), id) == if id < n then 1 else 0
  {
    if n > 0 {
      hide Whole, EmptyLoad;
      EmptyLoadIsWhole(targets);
      FreshInv(targets, n - 1);
      forall id: nat
        ensures Copies(FreshBatches(targets, n), id) == if id < n then 1 else 0
      {
        CopiesMore(FreshBatches(targets, n - 1), Batch(n - 1, EmptyLoad(targets)), id);
      }
    }
  }

  lemma InitInv(targets: nat, depth: int)
    ensures Inv(Init(targets, depth))
  {
    EmptyLoadIsWhole(targets);
    var s := Init(targets, depth);
    FreshInv(targets, s.depth + 1);
    assert Metas([]) == [] && Bufs([]) == [] && forall id: nat :: Copies([], id) == 0;
    hide Whole, EmptyLoad, FreshBatches, Copies, AllEmpty;
  }

  lemma {:induction false} RunKeeps(targets: nat, depth: int, actions: seq<Action>)
    ensures Inv(Run(targets, depth, actions))
    ensures Run(targets, depth, actions).targets == targets
  {
    hide Inv;
    if actions == [] {
      InitInv(targets, depth);
    } else {
      RunKeeps(targets, depth, actions[..|actions| - 1]);
      StepKeeps(Run(targets, depth, actions[..|actions| - 1]), actions[|actions| - 1]);
    }
  }

  // ----- What every run keeps -----

  /** Each target's writer is offered the datagrams in enqueue order, none skipped and none twice. */
  lemma OfferedInOrder(targets: nat, depth: int, actions: seq<Action>, i: nat)
    requires i < targets
    ensures
      var s := Run(targets, depth, actions);
      |s.offered| == targets && s.offered[i] <= s.enqueued
  {
    RunKeeps(targets, depth, actions);
    var s := Run(targets, depth, actions);
    hide Run, Inv, BatchesInv, Metas, Bufs;
    assert OrderInv(s) by {
      InvParts(s);
    }
    var behind := Metas(s.sendQ) + HeldMeta(s.flusher) + s.cur.meta;
    assert s.enqueued == s.processed + SendingMeta(s.sender) + behind;
  }

  lemma InvParts(s: State)
    requires Inv(s)
    ensures LoadsInv(s) && OrderInv(s) && BatchesInv(s)
  {
  }

  /** The pooled buffers come back in enqueue order, each once, and only after every target was written. */
  lemma BuffersReturnOnceAfterEveryTarget(targets: nat, depth: int, actions: seq<Action>)
    ensures
      var s := Run(targets, depth, actions);
      && s.returned == Bufs(s.processed) && s.processed <= s.enqueued
      && |s.offered| == targets && forall i | 0 <= i < targets :: s.processed <= s.offered[i]
  {
    RunKeeps(targets, depth, actions);
    var s := Run(targets, depth, actions);
    hide Run, Inv, BatchesInv, Metas, Bufs;
    InvParts(s);
    var behind := SendingMeta(s.sender) + Metas(s.sendQ) + HeldMeta(s.flusher) + s.cur.meta;
    assert s.enqueued == s.processed + behind;
  }

  predicate SenderAction(a: Action) {
    a.Receive? || a.WriteTarget? || a.ReturnBufs? || a.PutFree? || a.Exit?
  }

  /** The next step of a sender that is not done and not waiting for work. */
  function SenderNext(s: State): Action {
    match s.sender
    case SendIdle => if s.sendQ != [] then Receive else Exit
    case Writing(_, i) => if i < s.targets then WriteTarget else ReturnBufs
    case Returning(_) => PutFree
    case SendDone => Exit
  }

  /** The call the flusher is in: a flush of what is queued, the second half of one, or a stop. */
  predicate FlusherBlocked(s: State) {
    match s.flusher
    case FlushIdle => s.cur.meta != [] && !Enabled(s, TakeFree)
    case Handing(_) => !Enabled(s, HandOver)
    case Stopping => !Enabled(s, AwaitDone)
    case Stopped => false
  }

  /** No reachable state is a deadlock: whenever the flusher is blocked the sender can move. */
  lemma NoDeadlock(targets: nat, depth: int, actions: seq<Action>)
    ensures
      var s := Run(targets, depth, actions);
      FlusherBlocked(s) ==> Enabled(s, SenderNext(s))
  {
    RunKeeps(targets, depth, actions);
    var s := Run(targets, depth, actions);
    hide Run, Copies;
  }

  /** Steps the sender has left before it runs out of work. */
  function Work(s: State): nat {
    |s.sendQ| * (s.targets + 3)
    + match s.sender
      case SendIdle => 1
      case Writing(_, i) => 3 + if i < s.targets then s.targets - i else 0
      case Returning(_) => 2
      case SendDone => 0
  }

  /** Every sender step uses some of it up, so a flush waits, and a stop returns, after finitely many. */
  lemma SenderStepsRunOut(s: State, a: Action)
    requires Inv(s) && SenderAction(a) && Enabled(s, a)
    ensures Work(Step(s, a)) < Work(s)
  {
    if a.Receive? {
      assert (|s.sendQ| - 1) * (s.targets + 3) == |s.sendQ| * (s.targets + 3) - (s.targets + 3);
    }
  }

  /** Once StopSender has returned, everything flushed was offered to every target and every batch is free. */
  lemma StopLeavesNothing(targets: nat, depth: int, actions: seq<Action>)
    requires Run(targets, depth, actions).flusher.Stopped?
    ensures
      var s := Run(targets, depth, actions);
      && s.enqueued == s.processed + s.cur.meta
      && s.sendQ == [] && |s.free| == s.depth + 1
      && |s.offered| == targets && (forall i | 0 <= i < targets :: s.offered[i] == s.processed)
      && s.returned == Bufs(s.processed)
  {
    RunKeeps(targets, depth, actions);
  }
}
