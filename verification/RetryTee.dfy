/**
 The retry tee (forwarder/retrytee.go): copies taken at enqueue, handed in batches
 over a bounded channel to a sender goroutine, with wait and close under a mutex.

 Buffers are explicit: the copy buffers live in a heap and are recycled through a
 pool, and the Egress's own buffers may be overwritten at any time.
 */
module RetryTee {
  import opened Bytes

  const QUEUE_DEPTH: nat := 64
  const BUF_SIZE: nat := 16384

  /** One queued copy: the k-th append, held in buf; a large one has a buffer of its own. */
  datatype Copy = Copy(k: nat, buf: nat, pooled: bool)

  datatype Batch = Batch(copies: seq<Copy>, ack: Option<nat>)

  datatype Sending = Off | Idle | Writing(b: Batch) | Releasing(b: Batch) | Exited

  datatype Delivery = Delivery(k: nat, bytes: seq<Byte>)

  datatype State = State(
    src: map<nat, seq<Byte>>,     // the Egress's buffers
    appended: seq<seq<Byte>>,     // what append was given, in order
    heap: map<nat, seq<Byte>>,    // the tee's copy buffers
    pool: set<nat>,
    next: nat,                    // buffers below next exist
    building: seq<Copy>,
    queue: seq<Batch>,
    started: bool,
    closed: bool,
    holder: Option<nat>,          // a waiter holding the mutex across its blocking send
    sender: Sending,
    waiting: map<nat, nat>,       // waiters and the ack each awaits
    acks: set<nat>,
    nextAck: nat,
    marks: map<nat, nat>,         // per ack, how many appends had been flushed when it was queued
    closing: set<nat>,            // closers waiting for the sender
    returned: set<nat>,           // closers that have returned
    flushed: nat,
    delivered: seq<Delivery>,
    failed: nat)

  datatype Action =
    | Overwrite(id: nat, bytes: seq<Byte>)
    | Append(id: nat, reuse: Option<nat>)
    | Flush
    | Receive | Write(sent: nat) | Release | Exit
    | Wait(t: nat) | SendAck(t: nat) | Acked(t: nat)
    | Close(t: nat) | Closed(t: nat)

  function Init(): State {
    State(map[], [], map[], {}, 0, [], [], false, false, None, Off, map[], {}, 0, map[], {}, {}, 0, [], 0)
  }

  /** The channel is closed: no send may happen any more. */
  predicate ChannelClosed(s: State) {
    s.closed && s.started
  }

  predicate Enabled(s: State, a: Action) {
    match a
    case Overwrite(_, _) => true
    case Append(id, reuse) => id in s.src && (reuse.Some? ==> reuse.value in s.pool && |s.src[id]| <= BUF_SIZE)
    case Flush => s.building != [] && s.holder.None?
    case Receive => s.sender.Idle? && s.queue != []
    case Write(sent) => s.sender.Writing? && sent <= |s.sender.b.copies|
    case Release => s.sender.Releasing?
    case Exit => s.sender.Idle? && s.queue == [] && ChannelClosed(s)
    case Wait(t) => s.holder.None? && t !in s.waiting
    case SendAck(t) => s.holder == Some(t) && |s.queue| < QUEUE_DEPTH
    case Acked(t) => t in s.waiting && s.waiting[t] in s.acks
    case Close(t) => s.holder.None?
    case Closed(t) => t in s.closing && s.sender.Exited?
  }

  /** The pooled buffers of some copies, put back. */
  function Freed(copies: seq<Copy>): set<nat> {
    set c | c in copies && c.pooled :: c.buf
  }

  function Contents(heap: map<nat, seq<Byte>>, c: Copy): seq<Byte> {
    if c.buf in heap then heap[c.buf] else []
  }

  /** What the socket reads when the first n copies are written. */
  function Sent(heap: map<nat, seq<Byte>>, copies: seq<Copy>): seq<Delivery> {
    if copies == [] then []
    else
      var c := copies[|copies| - 1];
      Sent(heap, copies[..|copies| - 1]) + [Delivery(c.k, Contents(heap, c))]
  }

  function Step(s: State, a: Action): State {
    if !Enabled(s, a) then s
    else match a
      case Overwrite(id, bytes) => s.(src := s.src[id := bytes])
      case Append(id, reuse) =>
        var raw := s.src[id];
        var buf := if reuse.Some? then reuse.value else s.next;
        s.(appended := s.appended + [raw],
           heap := s.heap[buf := raw],
           pool := s.pool - {buf},
           next := if reuse.Some? then s.next else s.next + 1,
           building := s.building + [Copy(|s.appended|, buf, |raw| <= BUF_SIZE)])
      case Flush =>
        var n := |s.building|;
        if s.closed || |s.queue| >= QUEUE_DEPTH then
          s.(building := [], flushed := s.flushed + n, failed := s.failed + n,
             pool := s.pool + Freed(s.building),
             started := s.started || !s.closed,
             sender := if s.sender.Off? && !s.closed then Idle else s.sender)
        else
          s.(building := [], flushed := s.flushed + n,
             queue := s.queue + [Batch(s.building, None)],
             started := true,
             sender := if s.sender.Off? then Idle else s.sender)
      case Receive => s.(queue := s.queue[1..], sender := Writing(s.queue[0]))
      case Write(sent) =>
        var b := s.sender.b;
        s.(delivered := s.delivered + Sent(s.heap, b.copies[..sent]),
           failed := s.failed + (|b.copies| - sent),
           sender := Releasing(b))
      case Release =>
        var b := s.sender.b;
        s.(pool := s.pool + Freed(b.copies),
           acks := if b.ack.Some? then s.acks + {b.ack.value} else s.acks,
           sender := Idle)
      case Exit => s.(sender := Exited)
      case Wait(t) => if !s.started || s.closed then s else s.(holder := Some(t))
      case SendAck(t) =>
        s.(queue := s.queue + [Batch([], Some(s.nextAck))],
           holder := None,
           waiting := s.waiting[t := s.nextAck],
           marks := s.marks[s.nextAck := s.flushed],
           nextAck := s.nextAck + 1)
      case Acked(t) => s.(waiting := s.waiting - {t})
      case Close(t) =>
        if s.started then s.(closed := true, closing := s.closing + {t})
        else s.(closed := true, returned := s.returned + {t})
      case Closed(t) => s.(closing := s.closing - {t}, returned := s.returned + {t})
  }

  function Run(actions: seq<Action>): State {
    if actions == [] then Init() else Step(Run(actions[..|actions| - 1]), actions[|actions| - 1])
  }

  // ----- Where the copies are -----

  function Flat(queue: seq<Batch>): seq<Copy> {
    if queue == [] then [] else queue[0].copies + Flat(queue[1..])
  }

  function InHand(g: Sending): seq<Copy> {
    if g.Writing? then g.b.copies else []
  }

  function BeingReleased(g: Sending): seq<Copy> {
    if g.Releasing? then g.b.copies else []
  }

  /** Copies not written yet, oldest first. */
  function Pending(s: State): seq<Copy> {
    InHand(s.sender) + Flat(s.queue) + s.building
  }

  /** Copies whose buffers the tee still holds. */
  function Owned(s: State): seq<Copy> {
    BeingReleased(s.sender) + Pending(s)
  }

  ghost predicate Distinct(copies: seq<Copy>) {
    forall i, j | 0 <= i < j < |copies| :: copies[i].buf != copies[j].buf && copies[i].k < copies[j].k
  }

  /** Every held copy is intact: its buffer is out of the pool and holds the bytes of its append. */
  ghost predicate Intact(heap: map<nat, seq<Byte>>, pool: set<nat>, next: nat, appended: seq<seq<Byte>>, copies: seq<Copy>) {
    forall c <- copies ::
      && c.k < |appended| && c.buf < next && c.buf !in pool
      && c.buf in heap && heap[c.buf] == appended[c.k]
  }

  ghost predicate BufferInv(s: State) {
    && Distinct(Owned(s))
    && Intact(s.heap, s.pool, s.next, s.appended, Owned(s))
    && (forall b <- s.pool :: b < s.next)
  }

  /** Deliveries are the appended bytes, in append order, all before what is still pending. */
  ghost predicate DeliveryInv(s: State) {
    && (forall d <- s.delivered :: d.k < |s.appended| && d.bytes == s.appended[d.k])
    && (forall i, j | 0 <= i < j < |s.delivered| :: s.delivered[i].k < s.delivered[j].k)
    && (forall d <- s.delivered, c <- Pending(s) :: d.k < c.k)
  }

  predicate CountInv(s: State) {
    s.flushed == |s.delivered| + s.failed + |InHand(s.sender)| + |Flat(s.queue)|
  }

  predicate ControlInv(s: State) {
    && (s.started <==> !s.sender.Off?)
    && (!s.started ==> s.queue == [])
    && (s.sender.Exited? ==> s.closed && s.queue == [])
    && (s.holder.Some? ==> s.started && !s.closed)
    && (s.closing != {} ==> ChannelClosed(s))
    && (s.returned != {} ==> s.closed && (s.started ==> s.sender.Exited?))
    && |s.queue| <= QUEUE_DEPTH
  }

  ghost predicate Inv(s: State) {
    BufferInv(s) && DeliveryInv(s) && CountInv(s) && ControlInv(s)
  }

  lemma {:induction false} FlatMore(queue: seq<Batch>, b: Batch)
    ensures Flat(queue + [b]) == Flat(queue) + b.copies
  {
    if queue == [] {
      assert [b][1..] == [];
    } else {
      FlatMore(queue[1..], b);
      assert (queue + [b])[1..] == queue[1..] + [b];
    }
  }

  lemma {:induction false} SentAll(heap: map<nat, seq<Byte>>, copies: seq<Copy>)
    ensures |Sent(heap, copies)| == |copies|
    ensures forall i | 0 <= i < |copies| :: Sent(heap, copies)[i] == Delivery(copies[i].k, Contents(heap, copies[i]))
  {
    if copies != [] {
      SentAll(heap, copies[..|copies| - 1]);
    }
  }

  // ----- Each action keeps the invariant -----

  lemma DistinctMore(copies: seq<Copy>, c: Copy)
    requires Distinct(copies) && forall x <- copies :: x.buf != c.buf && x.k < c.k
    ensures Distinct(copies + [c])
  {
    assert forall i | 0 <= i < |copies| :: copies[i] in copies;
  }

  lemma AppendBuffers(s: State, id: nat, reuse: Option<nat>)
    requires BufferInv(s) && Enabled(s, Append(id, reuse))
    ensures
      var t := Step(s, Append(id, reuse));
      && t.building == s.building + [t.building[|s.building|]]
      && Distinct(Owned(s) + [t.building[|s.building|]])
      && Intact(t.heap, t.pool, t.next, t.appended, Owned(s) + [t.building[|s.building|]])
      && forall b <- t.pool :: b < t.next
  {
    hide Owned;
    var t := Step(s, Append(id, reuse));
    var c := t.building[|s.building|];
    assert forall x <- Owned(s) :: x.buf != c.buf && x.k < c.k;
    DistinctMore(Owned(s), c);
  }

  lemma AppendKeeps(s: State, id: nat, reuse: Option<nat>)
    requires Inv(s) && Enabled(s, Append(id, reuse))
    ensures Inv(Step(s, Append(id, reuse)))
  {
    AppendBuffers(s, id, reuse);
    AppendLists(s, id, reuse);
    AppendDelivery(s, id, reuse);
    hide Flat, Distinct, Intact, Pending, Owned, DeliveryInv;
  }

  lemma AppendLists(s: State, id: nat, reuse: Option<nat>)
    requires Enabled(s, Append(id, reuse))
    ensures
      var t := Step(s, Append(id, reuse));
      var c := Copy(|s.appended|, if reuse.Some? then reuse.value else s.next, |s.src[id]| <= BUF_SIZE);
      t.building == s.building + [c] && Pending(t) == Pending(s) + [c] && Owned(t) == Owned(s) + [c]
  {
    hide Flat;
  }

  lemma AppendDelivery(s: State, id: nat, reuse: Option<nat>)
    requires DeliveryInv(s) && Enabled(s, Append(id, reuse))
    ensures DeliveryInv(Step(s, Append(id, reuse)))
  {
    AppendLists(s, id, reuse);
    hide Pending, Owned, Flat;
  }

  /** Dropping or releasing a stretch of copies leaves the rest intact. */
  lemma FreeKeeps(s: State, freed: seq<Copy>, kept: seq<Copy>, all: seq<Copy>)
    requires Distinct(all) && Intact(s.heap, s.pool, s.next, s.appended, all)
    requires all == freed + kept || all == kept + freed
    ensures Distinct(kept)
    ensures Intact(s.heap, s.pool + Freed(freed), s.next, s.appended, kept)
    ensures forall b <- Freed(freed) :: b < s.next
  {
    forall c <- kept
      ensures c in all && c.buf !in Freed(freed)
    {
      var i :| 0 <= i < |kept| && kept[i] == c;
      forall d <- freed
        ensures d.buf != c.buf
      {
        var j :| 0 <= j < |freed| && freed[j] == d;
        if all == freed + kept {
          assert all[j] == d && all[|freed| + i] == c;
        } else {
          assert all[i] == c && all[|kept| + j] == d;
        }
      }
    }
    forall i, j | 0 <= i < j < |kept|
      ensures kept[i].buf != kept[j].buf && kept[i].k < kept[j].k
    {
      if all == freed + kept {
        assert all[|freed| + i] == kept[i] && all[|freed| + j] == kept[j];
      } else {
        assert all[i] == kept[i] && all[j] == kept[j];
      }
    }
    assert forall d <- freed :: d in all;
  }

  lemma FlushKeeps(s: State)
    requires Inv(s) && Enabled(s, Flush)
    ensures Inv(Step(s, Flush))
  {
    hide Flat;
    var t := Step(s, Flush);
    if s.closed || |s.queue| >= QUEUE_DEPTH {
      var kept := BeingReleased(s.sender) + (InHand(s.sender) + Flat(s.queue));
      assert Owned(s) == kept + s.building;
      assert Owned(t) == kept;
      hide Distinct, Intact, Freed;
      FreeKeeps(s, s.building, kept, Owned(s));
      assert forall c <- Pending(t) :: c in Pending(s);
    } else {
      FlatMore(s.queue, Batch(s.building, None));
      assert Pending(t) == Pending(s);
      assert Owned(t) == Owned(s);
    }
  }

  lemma ReceiveKeeps(s: State)
    requires Inv(s) && Enabled(s, Receive)
    ensures Inv(Step(s, Receive))
  {
    var t := Step(s, Receive);
    assert Flat(s.queue) == s.queue[0].copies + Flat(s.queue[1..]);
    hide Flat;
    assert Pending(t) == Pending(s);
    assert Owned(t) == Owned(s);
  }

  lemma InOrder(xs: seq<Copy>, ys: seq<Copy>)
    requires Distinct(xs + ys)
    ensures forall x <- xs, y <- ys :: x.k < y.k
    ensures forall i, j | 0 <= i < j < |xs| :: xs[i].k < xs[j].k
  {
    var all := xs + ys;
    assert forall i | 0 <= i < |xs| :: all[i] == xs[i];
    assert forall i | 0 <= i < |ys| :: all[|xs| + i] == ys[i];
  }

  /** Writing the first copies of a batch delivers their appended bytes, in order. */
  lemma SentFaithfully(s: State, copies: seq<Copy>, sent: nat)
    requires sent <= |copies| && Intact(s.heap, s.pool, s.next, s.appended, copies)
    requires forall i, j | 0 <= i < j < |copies| :: copies[i].k < copies[j].k
    ensures
      var out := Sent(s.heap, copies[..sent]);
      && |out| == sent
      && (forall i | 0 <= i < |out| :: out[i].k < |s.appended| && out[i].bytes == s.appended[out[i].k])
      && (forall i | 0 <= i < |out| :: out[i].k == copies[i].k)
      && (forall i, j | 0 <= i < j < |out| :: out[i].k < out[j].k)
  {
    SentAll(s.heap, copies[..sent]);
    hide Sent;
    assert forall i | 0 <= i < sent :: copies[i] in copies;
  }

  /** More deliveries after the old ones and before the pending copies. */
  lemma DeliverMore(s: State, t: State, copies: seq<Copy>, out: seq<Delivery>)
    requires DeliveryInv(s) && Pending(s) == copies + Pending(t)
    requires forall x <- copies, y <- Pending(t) :: x.k < y.k
    requires |out| <= |copies| && forall i | 0 <= i < |out| :: out[i].k == copies[i].k
    requires forall i | 0 <= i < |out| :: out[i].k < |s.appended| && out[i].bytes == s.appended[out[i].k]
    requires forall i, j | 0 <= i < j < |out| :: out[i].k < out[j].k
    requires t.delivered == s.delivered + out && t.appended == s.appended
    ensures DeliveryInv(t)
  {
    hide Pending;
    forall i | 0 <= i < |out|
      ensures copies[i] in copies && copies[i] in Pending(s)
    {
      assert Pending(s)[i] == copies[i];
    }
    assert forall c <- Pending(t) :: c in Pending(s);
    assert forall d <- out :: exists i :: 0 <= i < |out| && out[i] == d;
    forall i, j | 0 <= i < j < |t.delivered|
      ensures t.delivered[i].k < t.delivered[j].k
    {
      if i < |s.delivered| <= j {
        assert s.delivered[i] in s.delivered;
      }
    }
  }

  lemma WriteKeeps(s: State, sent: nat)
    requires Inv(s) && Enabled(s, Write(sent))
    ensures Inv(Step(s, Write(sent)))
  {
    hide Flat, Sent, Distinct, Intact;
    var t, b := Step(s, Write(sent)), s.sender.b;
    assert Owned(t) == Owned(s);
    assert Pending(s) == b.copies + Pending(t);
    assert Owned(s) == b.copies + Pending(t);
    InOrder(b.copies, Pending(t));
    assert Intact(s.heap, s.pool, s.next, s.appended, b.copies) by {
      IntactPart(s, b.copies, Owned(s));
    }
    SentFaithfully(s, b.copies, sent);
    DeliverMore(s, t, b.copies, Sent(s.heap, b.copies[..sent]));
  }

  lemma IntactPart(s: State, part: seq<Copy>, all: seq<Copy>)
    requires Intact(s.heap, s.pool, s.next, s.appended, all) && part <= all
    ensures Intact(s.heap, s.pool, s.next, s.appended, part)
  {
    assert forall c <- part :: c in all;
  }

  lemma ReleaseKeeps(s: State)
    requires Inv(s) && Enabled(s, Release)
    ensures Inv(Step(s, Release))
  {
    hide Flat;
    var t := Step(s, Release);
    assert Pending(t) == Pending(s);
    assert Owned(t) == Pending(s);
    hide Distinct, Intact, Freed;
    FreeKeeps(s, s.sender.b.copies, Pending(s), Owned(s));
  }

  lemma SendAckKeeps(s: State, w: nat)
    requires Inv(s) && Enabled(s, SendAck(w))
    ensures Inv(Step(s, SendAck(w)))
  {
    hide Flat;
    var t := Step(s, SendAck(w));
    FlatMore(s.queue, Batch([], Some(s.nextAck)));
    assert Pending(t) == Pending(s);
    assert Owned(t) == Owned(s);
  }

  /** The actions that move no copy. */
  lemma OthersKeep(s: State, a: Action)
    requires Inv(s) && (a.Overwrite? || a.Exit? || a.Wait? || a.Acked? || a.Close? || a.Closed?)
    ensures Inv(Step(s, a))
  {
    hide Flat;
    var t := Step(s, a);
    assert Pending(t) == Pending(s);
    assert Owned(t) == Owned(s);
  }

  lemma StepKeeps(s: State, a: Action)
    requires Inv(s)
    ensures Inv(Step(s, a))
  {
    hide Inv;
    if Enabled(s, a) {
      match a
      case Append(id, reuse) => AppendKeeps(s, id, reuse);
      case Flush => FlushKeeps(s);
      case Receive => ReceiveKeeps(s);
      case Write(sent) => WriteKeeps(s, sent);
      case Release => ReleaseKeeps(s);
      case SendAck(w) => SendAckKeeps(s, w);
      case _ => OthersKeep(s, a);
    }
  }

  lemma {:induction false} RunKeeps(actions: seq<Action>)
    ensures Inv(Run(actions))
  {
    if actions != [] {
      hide Inv;
      RunKeeps(actions[..|actions| - 1]);
      StepKeeps(Run(actions[..|actions| - 1]), actions[|actions| - 1]);
    }
  }

  // ----- What every run keeps -----

  /** Flushed datagrams are delivered, failed, queued or in the sender's hands. */
  lemma FlushedIsAccountedFor(actions: seq<Action>)
    ensures
      var s := Run(actions);
      s.flushed == |s.delivered| + s.failed + |InHand(s.sender)| + |Flat(s.queue)|
  {
    RunKeeps(actions);
  }

  /** Each delivered copy is what append was given, whatever its source buffer holds now, in append order and once. */
  lemma DeliveredAsAppended(actions: seq<Action>)
    ensures
      var s := Run(actions);
      && (forall d <- s.delivered :: d.k < |s.appended| && d.bytes == s.appended[d.k])
      && (forall i, j | 0 <= i < j < |s.delivered| :: s.delivered[i].k < s.delivered[j].k)
  {
    RunKeeps(actions);
  }

  predicate Sends(s: State, a: Action) {
    (a.Flush? && Enabled(s, a) && !s.closed) || (a.SendAck? && Enabled(s, a))
  }

  /** No send ever meets a closed channel. */
  lemma NoSendOnClosedChannel(actions: seq<Action>, a: Action)
    requires Sends(Run(actions), a)
    ensures !ChannelClosed(Run(actions))
  {
    RunKeeps(actions);
  }

  /** Once a close has returned nothing is outstanding, and the counts balance. */
  lemma CloseLeavesNothing(actions: seq<Action>)
    requires Run(actions).returned != {}
    ensures
      var s := Run(actions);
      s.queue == [] && InHand(s.sender) == [] && s.flushed == |s.delivered| + s.failed
  {
    RunKeeps(actions);
  }

  /** The sender's next step, when it has one. */
  function SenderNext(s: State): Action {
    match s.sender
    case Idle => if s.queue != [] then Receive else Exit
    case Writing(b) => Write(|b.copies|)
    case Releasing(_) => Release
    case _ => Exit
  }

  /** A caller is stuck: on the mutex, on its send, on its ack, or on the sender's exit. */
  predicate Blocked(s: State) {
    || s.holder.Some?
    || (exists t :: t in s.waiting && s.waiting[t] !in s.acks)
    || (s.closing != {} && !s.sender.Exited?)
  }

  ghost predicate AcksInv(s: State) {
    && (forall t | t in s.waiting :: s.waiting[t] in s.acks || AckQueued(s, s.waiting[t]))
    && (s.sender.Exited? ==> s.queue == [])
  }

  predicate AckQueued(s: State, ack: nat) {
    || (exists i :: 0 <= i < |s.queue| && s.queue[i].ack == Some(ack))
    || ((s.sender.Writing? || s.sender.Releasing?) && s.sender.b.ack == Some(ack))
  }

  lemma QueueMoves(s: State, a: Action)
    ensures
      var t := Step(s, a);
      if a.Receive? && Enabled(s, a) then t.queue == s.queue[1..] && t.sender == Writing(s.queue[0])
      else s.queue <= t.queue
  {
    hide Sent, Freed;
  }

  lemma AckMoves(s: State, a: Action, ack: nat)
    requires AckQueued(s, ack) || ack in s.acks
    ensures AckQueued(Step(s, a), ack) || ack in Step(s, a).acks
  {
    var t := Step(s, a);
    if ack in s.acks {
      AcksStay(s, a);
    } else if exists i :: 0 <= i < |s.queue| && s.queue[i].ack == Some(ack) {
      QueueMoves(s, a);
      hide Step;
      var i :| 0 <= i < |s.queue| && s.queue[i].ack == Some(ack);
      if a.Receive? && Enabled(s, a) {
        assert i > 0 ==> t.queue[i - 1] == s.queue[i];
      } else {
        assert t.queue[i] == s.queue[i];
      }
    } else {
      AckInHandMoves(s, a, ack);
    }
  }

  lemma AcksStay(s: State, a: Action)
    ensures s.acks <= Step(s, a).acks
  {
    hide Sent, Freed;
  }

  lemma AckInHandMoves(s: State, a: Action, ack: nat)
    requires (s.sender.Writing? || s.sender.Releasing?) && s.sender.b.ack == Some(ack)
    ensures
      var t := Step(s, a);
      ack in t.acks || ((t.sender.Writing? || t.sender.Releasing?) && t.sender.b.ack == Some(ack))
  {
    hide Sent, Freed;
  }

  lemma StepKeepsAcks(s: State, a: Action)
    requires AcksInv(s) && ControlInv(Step(s, a))
    ensures AcksInv(Step(s, a))
  {
    hide ControlInv;
    var t := Step(s, a);
    forall w | w in t.waiting
      ensures t.waiting[w] in t.acks || AckQueued(t, t.waiting[w])
    {
      if a.SendAck? && Enabled(s, a) && a.t == w {
        assert t.queue[|s.queue|].ack == Some(t.waiting[w]);
      } else {
        AckMoves(s, a, s.waiting[w]);
      }
    }
    ExitedIsEmpty(t);
  }

  lemma ExitedIsEmpty(s: State)
    requires ControlInv(s)
    ensures s.sender.Exited? ==> s.queue == []
  {
  }

  lemma {:induction false} RunKeepsAcks(actions: seq<Action>)
    ensures AcksInv(Run(actions))
  {
    if actions != [] {
      var before, a := actions[..|actions| - 1], actions[|actions| - 1];
      RunKeepsAcks(before);
      RunKeeps(actions);
      InvControl(Run(actions));
      hide Inv, AcksInv, ControlInv;
      StepKeepsAcks(Run(before), a);
    }
  }

  lemma InvControl(s: State)
    requires Inv(s)
    ensures ControlInv(s)
  {
  }

  /** No reachable state is a deadlock: while anyone is stuck, the sender or the holder's own send can move. */
  lemma NoDeadlock(actions: seq<Action>)
    ensures
      var s := Run(actions);
      Blocked(s) ==> Enabled(s, SenderNext(s)) || (s.holder.Some? && Enabled(s, SendAck(s.holder.value)))
  {
    RunKeeps(actions);
    RunKeepsAcks(actions);
    var s := Run(actions);
    InvControl(s);
    hide Run, Inv;
    if exists t :: t in s.waiting && s.waiting[t] !in s.acks {
      var t :| t in s.waiting && s.waiting[t] !in s.acks;
      assert AckQueued(s, s.waiting[t]);
    }
  }

  // ----- Blocked callers are let go after finitely many sender steps -----

  predicate SenderAction(a: Action) {
    a.Receive? || a.Write? || a.Release? || a.Exit?
  }

  function Stage(g: Sending): nat {
    if g.Writing? then 2 else if g.Releasing? then 1 else 0
  }

  /** Steps the sender has left before it exits. */
  function Work(s: State): nat {
    3 * |s.queue| + Stage(s.sender) + if s.sender.Off? || s.sender.Exited? then 0 else 1
  }

  /** Every sender step uses one up. While the channel is closed or a waiter holds the mutex nobody adds to them. */
  lemma SenderStepsRunOut(s: State, a: Action)
    requires ControlInv(s) && Enabled(s, a)
    ensures SenderAction(a) ==> Work(Step(s, a)) == Work(s) - 1
    ensures !SenderAction(a) && (ChannelClosed(s) || (s.holder.Some? && !a.SendAck?)) ==> Work(Step(s, a)) == Work(s)
  {
    hide Sent, Freed;
  }

  function After(s: State, actions: seq<Action>): State {
    if actions == [] then s else Step(After(s, actions[..|actions| - 1]), actions[|actions| - 1])
  }

  /** How many of the actions are steps the sender takes. */
  function SenderSteps(s: State, actions: seq<Action>): nat {
    if actions == [] then 0
    else
      var before, a := actions[..|actions| - 1], actions[|actions| - 1];
      SenderSteps(s, before) + if SenderAction(a) && Enabled(After(s, before), a) then 1 else 0
  }

  lemma StepKeepsClosed(s: State, a: Action)
    requires ChannelClosed(s)
    ensures ChannelClosed(Step(s, a))
  {
    hide Sent, Freed;
  }

  lemma {:induction false} ClosedWorkRunsOut(s: State, actions: seq<Action>)
    requires Inv(s) && ChannelClosed(s)
    ensures Inv(After(s, actions)) && ChannelClosed(After(s, actions))
    ensures Work(After(s, actions)) + SenderSteps(s, actions) == Work(s)
  {
    hide Inv, ChannelClosed, Work;
    if actions != [] {
      var before, a := actions[..|actions| - 1], actions[|actions| - 1];
      ClosedWorkRunsOut(s, before);
      var t := After(s, before);
      StepKeeps(t, a);
      StepKeepsClosed(t, a);
      InvControl(t);
      if Enabled(t, a) {
        SenderStepsRunOut(t, a);
      }
    }
  }

  lemma WorkLeft(s: State)
    requires ControlInv(s) && ChannelClosed(s)
    ensures Work(s) <= 3 * QUEUE_DEPTH + 3 && (Work(s) == 0 <==> s.sender.Exited?)
    ensures s.sender.Exited? ==> forall t | t in s.closing :: Enabled(s, Closed(t))
  {
  }

  /** From a close on, whatever everyone does, the sender exits with its Work(s)-th step, and close returns. */
  lemma CloseReturns(actions: seq<Action>, later: seq<Action>)
    requires ChannelClosed(Run(actions))
    ensures
      var s := Run(actions);
      && Work(s) <= 3 * QUEUE_DEPTH + 3 && SenderSteps(s, later) <= Work(s)
      && (SenderSteps(s, later) == Work(s) <==> After(s, later).sender.Exited?)
      && (After(s, later).sender.Exited? ==> forall t | t in After(s, later).closing :: Enabled(After(s, later), Closed(t)))
  {
    hide Run, Inv, After, SenderSteps, Work, ChannelClosed, ControlInv, Enabled;
    RunKeeps(actions);
    var s := Run(actions);
    InvControl(s);
    WorkLeft(s);
    ClosedWorkRunsOut(s, later);
    InvControl(After(s, later));
    WorkLeft(After(s, later));
  }

  /** Where an ack first stands in the queue. */
  function Place(queue: seq<Batch>, ack: nat): (i: nat)
    ensures i <= |queue|
    ensures i < |queue| ==> queue[i].ack == Some(ack)
    ensures (exists k :: 0 <= k < |queue| && queue[k].ack == Some(ack)) ==> i < |queue|
  {
    if queue == [] then 0
    else if queue[0].ack == Some(ack) then 0
    else
      assert forall k | 1 <= k < |queue| :: queue[k] == queue[1..][k - 1];
      1 + Place(queue[1..], ack)
  }

  lemma {:induction false} PlaceStays(queue: seq<Batch>, more: seq<Batch>, ack: nat)
    requires queue <= more && Place(queue, ack) < |queue|
    ensures Place(more, ack) == Place(queue, ack)
  {
    if queue[0].ack != Some(ack) {
      assert queue[1..] <= more[1..];
      PlaceStays(queue[1..], more[1..], ack);
    }
  }

  /** Sender steps until an ack is given: 0 once it is. */
  function Ahead(s: State, ack: nat): nat {
    if ack in s.acks then 0
    else if (s.sender.Writing? || s.sender.Releasing?) && s.sender.b.ack == Some(ack) then Stage(s.sender)
    else Stage(s.sender) + 3 * Place(s.queue, ack) + 3
  }

  /** The ack was given or is on its way. */
  ghost predicate OnItsWay(s: State, ack: nat) {
    (AckQueued(s, ack) || ack in s.acks) && ControlInv(s)
  }

  lemma OthersGiveNoAck(s: State, a: Action)
    requires !SenderAction(a)
    ensures Step(s, a).acks == s.acks
  {
    hide Sent, Freed;
  }

  lemma OthersLeaveTheSender(s: State, a: Action)
    requires !SenderAction(a)
    ensures Step(s, a).sender == s.sender || (s.sender.Off? && Step(s, a).sender.Idle?)
  {
    hide Sent, Freed;
  }

  lemma SenderComesCloser(s: State, a: Action, ack: nat)
    requires OnItsWay(s, ack) && Enabled(s, a) && SenderAction(a) && ack !in s.acks
    ensures Ahead(Step(s, a), ack) == Ahead(s, ack) - 1
  {
    hide Sent, Freed;
  }

  /** A sender step brings a queued ack one step closer; nothing anybody else does delays it. */
  lemma AckComesCloser(s: State, a: Action, ack: nat)
    requires OnItsWay(s, ack) && Enabled(s, a)
    ensures Ahead(Step(s, a), ack) == if SenderAction(a) && ack !in s.acks then Ahead(s, ack) - 1 else Ahead(s, ack)
  {
    hide Step, Enabled;
    AcksStay(s, a);
    if !SenderAction(a) {
      OthersGiveNoAck(s, a);
      OthersLeaveTheSender(s, a);
      QueueMoves(s, a);
      if Place(s.queue, ack) < |s.queue| {
        PlaceStays(s.queue, Step(s, a).queue, ack);
      }
    } else if ack !in s.acks {
      SenderComesCloser(s, a, ack);
    }
  }

  lemma {:induction false} AckArrives(s: State, ack: nat, actions: seq<Action>)
    requires Inv(s) && (AckQueued(s, ack) || ack in s.acks)
    ensures
      var t := After(s, actions);
      && Inv(t) && (AckQueued(t, ack) || ack in t.acks)
      && (if ack in t.acks then Ahead(s, ack) <= SenderSteps(s, actions)
          else Ahead(t, ack) + SenderSteps(s, actions) == Ahead(s, ack))
  {
    hide Inv, AckQueued, Ahead;
    GivenIsNear(s, ack);
    if actions != [] {
      var before, a := actions[..|actions| - 1], actions[|actions| - 1];
      AckArrives(s, ack, before);
      var t := After(s, before);
      StepKeeps(t, a);
      AckMoves(t, a, ack);
      AcksStay(t, a);
      InvControl(t);
      GivenIsNear(t, ack);
      GivenIsNear(Step(t, a), ack);
      if Enabled(t, a) {
        AckComesCloser(t, a, ack);
      }
    }
  }

  lemma GivenIsNear(s: State, ack: nat)
    ensures Ahead(s, ack) == 0 <==> ack in s.acks
  {
  }

  /** A waiter's ack comes with the Ahead-th sender step, whatever everyone else queues meanwhile. */
  lemma WaitReturns(actions: seq<Action>, t: nat, later: seq<Action>)
    requires t in Run(actions).waiting
    ensures
      var s := Run(actions);
      var ack := s.waiting[t];
      && Ahead(s, ack) <= 3 * QUEUE_DEPTH + 2
      && (ack in After(s, later).acks <==> SenderSteps(s, later) >= Ahead(s, ack))
  {
    hide Run, Inv, Ahead, AckQueued, After, SenderSteps, ControlInv;
    RunKeeps(actions);
    RunKeepsAcks(actions);
    var s := Run(actions);
    InvControl(s);
    AheadBound(s, s.waiting[t]);
    AckArrives(s, s.waiting[t], later);
    GivenIsNear(After(s, later), s.waiting[t]);
  }

  lemma AheadBound(s: State, ack: nat)
    requires ControlInv(s) && (AckQueued(s, ack) || ack in s.acks)
    ensures Ahead(s, ack) <= 3 * QUEUE_DEPTH + 2
  {
  }

  // ----- What wait waits for -----

  predicate Newer(copies: seq<Copy>, m: nat) {
    forall c <- copies :: c.k >= m
  }

  /** The batch being built holds the latest appends. */
  predicate BuildInv(s: State) {
    && s.flushed + |s.building| == |s.appended|
    && (forall i | 0 <= i < |s.building| :: s.building[i].k == s.flushed + i)
  }

  /** What is queued behind an ack was flushed after it. */
  predicate AckBehind(s: State, i: nat)
    requires i < |s.queue|
  {
    s.queue[i].ack.Some? ==>
      var a := s.queue[i].ack.value;
      s.queue[i].copies == [] && a < s.nextAck && a in s.marks && Newer(Flat(s.queue[i..]), s.marks[a])
  }

  predicate AckInHand(s: State) {
    (s.sender.Writing? || s.sender.Releasing?) && s.sender.b.ack.Some? ==>
      var a := s.sender.b.ack.value;
      s.sender.b.copies == [] && a < s.nextAck && a in s.marks && Newer(Flat(s.queue), s.marks[a])
  }

  predicate AckGiven(s: State, a: nat) {
    a < s.nextAck && a in s.marks && Newer(InHand(s.sender) + Flat(s.queue), s.marks[a])
  }

  ghost predicate MarkInv(s: State) {
    && BuildInv(s)
    && (forall a | a in s.marks :: s.marks[a] <= s.flushed && a < s.nextAck)
    && (forall i | 0 <= i < |s.queue| :: AckBehind(s, i))
    && AckInHand(s)
    && (forall a <- s.acks :: AckGiven(s, a))
  }

  lemma QueueGrows(s: State, t: State, b: Batch)
    requires MarkInv(s) && t.queue == s.queue + [b] && t.sender == s.sender
    requires t.nextAck >= s.nextAck && forall a | a in s.marks :: a in t.marks && t.marks[a] == s.marks[a]
    requires t.acks == s.acks
    requires b.ack.Some? ==> b.copies == [] && b.ack.value < t.nextAck && b.ack.value in t.marks
    requires Newer(b.copies, s.flushed)
    ensures forall i | 0 <= i < |t.queue| :: AckBehind(t, i)
    ensures AckInHand(t) && forall a <- t.acks :: AckGiven(t, a)
  {
    FlatMore(s.queue, b);
    forall i | 0 <= i < |t.queue|
      ensures AckBehind(t, i)
    {
      if i < |s.queue| {
        assert AckBehind(s, i);
        FlatMore(s.queue[i..], b);
        assert t.queue[i..] == s.queue[i..] + [b];
      } else {
        assert t.queue[i..] == [b];
        assert Flat([b]) == b.copies + Flat([]);
      }
    }
    assert forall a <- t.acks :: AckGiven(s, a);
  }

  lemma FlushMarks(s: State)
    requires MarkInv(s) && Enabled(s, Flush)
    ensures MarkInv(Step(s, Flush))
  {
    hide Flat;
    var t := Step(s, Flush);
    if s.closed || |s.queue| >= QUEUE_DEPTH {
      SameQueue(s, t);
      assert forall x <- t.acks :: AckGiven(s, x);
    } else {
      assert Newer(s.building, s.flushed);
      var u := t.(sender := s.sender);
      QueueGrows(s, u, Batch(s.building, None));
      SameQueue(u, t);
      assert forall x <- t.acks :: AckGiven(u, x);
    }
  }

  lemma SendAckMarks(s: State, w: nat)
    requires MarkInv(s) && Enabled(s, SendAck(w))
    ensures MarkInv(Step(s, SendAck(w)))
  {
    hide Flat;
    QueueGrows(s, Step(s, SendAck(w)), Batch([], Some(s.nextAck)));
  }

  lemma ReleaseMarks(s: State)
    requires MarkInv(s) && Enabled(s, Release)
    ensures MarkInv(Step(s, Release))
  {
    hide Flat;
    var t := Step(s, Release);
    SameQueue(s, t);
    forall x <- t.acks
      ensures AckGiven(t, x)
    {
      if x in s.acks {
        assert AckGiven(s, x);
      }
    }
  }

  lemma OtherMarks(s: State, a: Action)
    requires MarkInv(s) && !(a.Flush? || a.SendAck? || a.Receive? || a.Release?)
    ensures MarkInv(Step(s, a))
  {
    hide Flat, Sent;
    var t := Step(s, a);
    SameQueue(s, t);
    assert forall x <- t.acks :: AckGiven(s, x);
  }

  lemma MarkSteps(s: State, a: Action)
    requires MarkInv(s)
    ensures MarkInv(Step(s, a))
  {
    hide MarkInv;
    if Enabled(s, a) {
      match a
      case Flush => FlushMarks(s);
      case SendAck(w) => SendAckMarks(s, w);
      case Receive => ReceiveMarks(s);
      case Release => ReleaseMarks(s);
      case _ => OtherMarks(s, a);
    }
  }

  lemma SameQueue(s: State, t: State)
    requires forall i | 0 <= i < |s.queue| :: AckBehind(s, i)
    requires t.queue == s.queue && t.marks == s.marks && t.nextAck == s.nextAck
    ensures forall i | 0 <= i < |t.queue| :: AckBehind(t, i)
  {
    forall i | 0 <= i < |t.queue|
      ensures AckBehind(t, i)
    {
      assert AckBehind(s, i);
    }
  }

  lemma ReceiveMarks(s: State)
    requires MarkInv(s) && Enabled(s, Receive)
    ensures MarkInv(Step(s, Receive))
  {
    var t := Step(s, Receive);
    assert Flat(s.queue) == s.queue[0].copies + Flat(s.queue[1..]);
    hide Flat;
    forall i | 0 <= i < |t.queue|
      ensures AckBehind(t, i)
    {
      assert AckBehind(s, i + 1);
      assert t.queue[i..] == s.queue[i + 1..];
    }
    assert AckBehind(s, 0);
    assert s.queue[0..] == s.queue;
    assert forall x <- t.acks :: AckGiven(s, x);
  }

  lemma {:induction false} RunKeepsMarks(actions: seq<Action>)
    ensures MarkInv(Run(actions))
  {
    if actions != [] {
      RunKeepsMarks(actions[..|actions| - 1]);
      hide MarkInv;
      MarkSteps(Run(actions[..|actions| - 1]), actions[|actions| - 1]);
    }
  }

  /** When a wait's ack is given, every datagram flushed before the wait has been written or dropped. */
  lemma WaitSeesEarlierFlushes(actions: seq<Action>, t: nat)
    requires t in Run(actions).waiting && Run(actions).waiting[t] in Run(actions).acks
    ensures
      var s := Run(actions);
      && s.waiting[t] in s.marks
      && forall c <- InHand(s.sender) + Flat(s.queue) :: c.k >= s.marks[s.waiting[t]]
  {
    RunKeepsMarks(actions);
    assert AckGiven(Run(actions), Run(actions).waiting[t]);
  }
}
