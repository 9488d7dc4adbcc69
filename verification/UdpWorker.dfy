/**
 One UDP worker (worker/worker.go, Run) and the pipeline it drives (forwarder/forwarder.go, DispatchClass and
 the Process methods; forwarder/coalesce.go).

 A frame is stamped inside its receive buffer and queued by reference, a small transaction is kept for the
 coalescer as a slice of that buffer, and the next receive call overwrites the buffer. What the loop writes
 is nevertheless exactly what Pipeline specifies on values, because queue and coalescing buffer are drained
 in between.
 */
module UdpWorker {
  import opened Bytes
  import opened SeqSpace
  import opened Fragment
  import opened Stamping
  import opened Pipeline
  import Coalesce

  /** One received datagram, with the bridging engine of that moment. */
  datatype Arrival = Arrival(data: seq<Byte>, src: Option<Ip>, bridge: Bridge)

  datatype Receive = Failed | Batch(arrivals: seq<Arrival>)

  /** The codec law: a decoded transaction's payload is a slice of the frame, after the header. */
  ghost predicate InPlace(cfg: Setup) {
    forall raw: seq<Byte> :: cfg.decodeTx(raw).Some? && cfg.decodeTx(raw).value.v2 && |raw| >= HEADER ==>
      var payload := cfg.decodeTx(raw).value.payload;
      HEADER + |payload| <= |raw| && raw[HEADER..HEADER + |payload|] == payload
  }

  /** The pipeline's events for a batch: a datagram that fills its buffer may be truncated and is dropped. */
  function BatchEvents(batch: seq<Arrival>, lane: Class, size: nat): seq<Event> {
    if batch == [] then []
    else
      var a := batch[|batch| - 1];
      BatchEvents(batch[..|batch| - 1], lane, size)
      + if |a.data| == size then [] else [Datagram(a.data, a.src, lane, a.bridge)]
  }

  function Events(run: seq<Receive>, lane: Class, size: nat): seq<Event> {
    if run == [] then []
    else
      Events(run[..|run| - 1], lane, size)
      + match run[|run| - 1]
        case Failed => []
        case Batch(b) => BatchEvents(b, lane, size) + [BatchEnd]
  }

  // ----- References -----

  /** A queued datagram: a slice buf[:n] held by reference. */
  datatype Ref = Ref(buf: array<Byte>, n: nat, group: nat)

  /** A buffered member: its payload is a slice of the frame's buffer. */
  datatype MemberRef = MemberRef(flow: Flow, txid: Hash, buf: array<Byte>, from: nat, to: nat)

  ghost predicate Shows(queue: seq<Ref>, wires: seq<Wire>)
    reads set r <- queue :: r.buf
  {
    && |queue| == |wires|
    && forall k | 0 <= k < |queue| ::
         queue[k].n <= queue[k].buf.Length && Wire(queue[k].buf[..queue[k].n], queue[k].group) == wires[k]
  }

  ghost predicate ShowsMembers(coal: seq<MemberRef>, arrivals: seq<Coalesce.Arrival>)
    reads set r <- coal :: r.buf
  {
    && |coal| == |arrivals|
    && forall k | 0 <= k < |coal| ::
         && coal[k].from <= coal[k].to <= coal[k].buf.Length
         && Coalesce.Arrival(coal[k].flow, Coalesce.Member(coal[k].txid, coal[k].buf[coal[k].from..coal[k].to])) == arrivals[k]
  }

  /** Copies data into the front of b. */
  method Fill(b: array<Byte>, data: seq<Byte>)
    requires |data| <= b.Length
    modifies b
    ensures b[..|data|] == data
  {
    for k := 0 to |data|
      invariant b[..k] == data[..k]
    {
      b[k] := data[k];
    }
  }

  /** A buffer of its own for a datagram built by the proxy. */
  method Own(data: seq<Byte>) returns (b: array<Byte>)
    ensures fresh(b) && b.Length == |data| && b[..|data|] == data
  {
    b := new Byte[|data|];
    Fill(b, data);
  }

  ghost predicate Holds(b: array<Byte>, d: seq<Byte>)
    reads b
  {
    |d| <= b.Length && b[..|d|] == d
  }

  class Worker {
    const cfg: Setup
    const lane: Class
    const chains: Chains
    const slots: seq<array<Byte>>          // the receive buffers
    const size: nat
    var store: set<Hash>
    var queue: seq<Ref>
    var coal: seq<MemberRef>
    var written: seq<Wire>
    ghost var pipe: Pipe                             // the specified state; its queue keeps what was written
    ghost var pending: seq<Wire>                     // what the queue must show
    ghost var arrivals: seq<Coalesce.Arrival>        // what the coalescing buffer must show

    constructor (cfg: Setup, lane: Class, hash32: Ip -> nat, n: nat, size: nat)
      ensures Valid() && pipe == FRESH && Drained() && written == []
      ensures this.cfg == cfg && this.lane == lane && this.size == size && |slots| == n
      ensures fresh(chains) && fresh(chains.cells) && forall b <- slots :: fresh(b)
    {
      var bufs: seq<array<Byte>> := [];
      for i := 0 to n
        invariant |bufs| == i
        invariant forall b <- bufs :: fresh(b) && b.Length == size
        invariant forall i, j | 0 <= i < j < |bufs| :: bufs[i] != bufs[j]
      {
        var b := new Byte[size];
        bufs := bufs + [b];
      }
      this.cfg, this.lane, this.size, slots := cfg, lane, size, bufs;
      chains := new Chains(hash32, cfg.hashKey);
      store, queue, coal, written := {}, [], [], [];
      pipe, pending, arrivals := FRESH, [], [];
    }

    /** The values agree with the specification; the slots are distinct buffers of one size. */
    ghost predicate Valid()
      reads this, chains, chains.cells
    {
      && chains.Valid() && chains.hashKey == cfg.hashKey
      && (forall i | 0 <= i < |slots| :: slots[i].Length == size)
      && (forall i, j | 0 <= i < j < |slots| :: slots[i] != slots[j])
      && store == pipe.store && chains.counts == pipe.counts
      && pipe.buckets == Coalesce.Buffered(arrivals)
      && Wires(pipe.queue) == written + pending
    }

    /** Nothing is queued and nothing buffered. */
    ghost predicate Drained()
      reads this
    {
      queue == [] && coal == [] && pending == [] && arrivals == []
    }

    /** No reference is to b. */
    ghost predicate Unheld(b: array<Byte>)
      reads this
    {
      (forall r <- queue :: r.buf != b) && (forall r <- coal :: r.buf != b)
    }

    /** The references show what they must, and none is to a slot from i on. */
    ghost predicate Shown(i: nat)
      reads this, (set r <- queue :: r.buf), (set r <- coal :: r.buf)
    {
      && Shows(queue, pending) && ShowsMembers(coal, arrivals)
      && forall j | i <= j < |slots| :: Unheld(slots[j])
    }

    method Push(buf: array<Byte>, n: nat, group: nat, ghost i: nat)
      requires n <= buf.Length && Shown(i) && forall j | i <= j < |slots| :: slots[j] != buf
      modifies this`queue, this`pending
      ensures Shown(i) && pending == old(pending) + [Wire(buf[..n], group)]
    {
      queue, pending := queue + [Ref(buf, n, group)], pending + [Wire(buf[..n], group)];
    }

    /** Queue the frame, and its second copy while bridging: two references to one buffer. */
    method PushWhole(p: Plan, buf: array<Byte>, n: nat, bridge: Bridge, ghost draw: Option<Draw>, ghost i: nat)
      requires n <= buf.Length && Shown(i) && forall j | i <= j < |slots| :: slots[j] != buf
      modifies this`queue, this`pending
      ensures Shown(i) && pending == old(pending) + Wires(WholeItems(p, buf[..n], draw, bridge))
    {
      Push(buf, n, p.group, i);
      if p.kind == Kind.Tx && bridge.successor.Some? && bridge.successor.value(p.id) != p.group {
        Push(buf, n, bridge.successor.value(p.id), i);
      }
    }

    /** Datagrams in buffers of their own. */
    method PushOwn(wires: seq<Wire>, ghost i: nat)
      requires Shown(i)
      modifies this`queue, this`pending
      ensures Shown(i) && pending == old(pending) + wires
    {
      for k := 0 to |wires|
        invariant Shown(i) && pending == old(pending) + wires[..k]
      {
        var b := Own(wires[k].data);
        Push(b, |wires[k].data|, wires[k].group, i);
      }
      assert wires[..|wires|] == wires;
    }

    /** The fragment loops: each piece in a buffer of its own. */
    method SplitFrame(p: Plan, ghost i: nat)
      requires Valid() && Splits(cfg, p) && Shown(i)
      modifies this`queue, this`pending, this`pipe, chains, chains.cells
      ensures Valid() && Shown(i) && fresh(chains.cells - old(chains.cells)) && pipe == Split(cfg, old(pipe), p)
    {
      hide Chains.Valid, Fragmented, Split, Wires, ToGroup, Coalesce.Buffered;
      var raws := FragmentParcel(chains, cfg.enc, ParcelOf(p, p.flow.value), cfg.fragSize);
      PushOwn(ToGroup(raws, p.group), i);
      SplitPipe(cfg, pipe, p, raws);
      pipe := Split(cfg, pipe, p);
    }

    /** The rest of process after the gates: stamp in place and queue the buffer itself. */
    method StampFrame(p: Plan, buf: array<Byte>, n: nat, bridge: Bridge, ghost i: nat)
      requires Valid() && Sound(p) && p.flow.Some? && n <= buf.Length && buf[..n] == p.raw
      requires Shown(i) && Unheld(buf) && forall j | i <= j < |slots| :: slots[j] != buf
      modifies this`queue, this`pending, this`pipe, chains, chains.cells, buf
      ensures Valid() && Shown(i) && fresh(chains.cells - old(chains.cells)) && pipe == StampWhole(cfg, old(pipe), p, bridge)
    {
      hide Chains.Valid, Stamp, StampWhole, Wires, WholeItems, Coalesce.Buffered;
      ghost var draw := DrawOf(pipe.counts, p);
      StampUnheld(buf, n, p.flow.value, i);
      StampedPipe(cfg, pipe, p, bridge);
      PushWhole(p, buf, n, bridge, draw, i);
      pipe := StampWhole(cfg, pipe, p, bridge);
    }

    /** Stamping a buffer nothing refers to changes nothing that is shown. */
    method StampUnheld(buf: array<Byte>, n: nat, f: Flow, ghost i: nat)
      requires chains.Valid() && chains.hashKey == cfg.hashKey && HEADER <= n <= buf.Length && Shown(i) && Unheld(buf)
      modifies chains, chains.cells, buf
      ensures chains.Valid() && Shown(i) && fresh(chains.cells - old(chains.cells))
      ensures (chains.counts, buf[..n]) == Stamp(cfg.hashKey, cfg.stampSource, old(chains.counts), old(buf[..n]), f)
    {
      hide Chains.Valid, Stamp;
      StampInPlace(chains, cfg.stampSource, buf, n, f);
    }

    /** coalBuffer.add: the member is a slice of the frame's buffer. */
    method BufferFrame(p: Plan, buf: array<Byte>, n: nat, bridge: Bridge, ghost i: nat)
      requires Valid() && Sound(p) && Bundles(cfg, p, bridge) && n <= buf.Length && buf[..n] == p.raw
      requires HEADER + |p.payload| <= n && p.raw[HEADER..HEADER + |p.payload|] == p.payload
      requires Shown(i) && forall j | i <= j < |slots| :: slots[j] != buf
      modifies this`coal, this`arrivals, this`pipe
      ensures Valid() && Shown(i) && pipe == Emit(cfg, old(pipe), p, bridge)
    {
      hide Chains.Valid, Wires, Splits, Coalesce.AddTo;
      var f := p.flow.value;
      assert buf[HEADER..HEADER + |p.payload|] == p.payload by {
        assert buf[..n][HEADER..HEADER + |p.payload|] == buf[HEADER..HEADER + |p.payload|];
      }
      ghost var a := Coalesce.Arrival(f, Coalesce.Member(p.id, p.payload));
      coal := coal + [MemberRef(f, p.id, buf, HEADER, HEADER + |p.payload|)];
      assert (arrivals + [a])[..|arrivals|] == arrivals;
      arrivals := arrivals + [a];
      pipe := Emit(cfg, pipe, p, bridge);
    }

    /** After the claim: fragment, buffer or stamp. */
    method EmitFrame(p: Plan, buf: array<Byte>, n: nat, bridge: Bridge, ghost i: nat)
      requires Valid() && Sound(p) && n <= buf.Length && buf[..n] == p.raw
      requires Bundles(cfg, p, bridge) ==> HEADER + |p.payload| <= n && p.raw[HEADER..HEADER + |p.payload|] == p.payload
      requires Shown(i) && Unheld(buf) && forall j | i <= j < |slots| :: slots[j] != buf
      modifies this`queue, this`coal, this`pending, this`arrivals, this`pipe, chains, chains.cells, buf
      ensures Valid() && Shown(i) && fresh(chains.cells - old(chains.cells)) && pipe == Emit(cfg, old(pipe), p, bridge)
    {
      hide Chains.Valid, Split, StampWhole, WholeItems, Wires, Coalesce.AddTo, Coalesce.Buffered;
      if p.flow.None? {
        PushWhole(p, buf, n, bridge, None, i);
        WiresJoin(pipe.queue, WholeItems(p, buf[..n], None, bridge));
        pipe := Emit(cfg, pipe, p, bridge);
      } else if Splits(cfg, p) {
        SplitFrame(p, i);
      } else if Bundles(cfg, p, bridge) {
        BufferFrame(p, buf, n, bridge, i);
      } else {
        StampFrame(p, buf, n, bridge, i);
      }
    }

    /** The claim and what follows it. */
    method PerformPlan(p: Plan, buf: array<Byte>, n: nat, bridge: Bridge, ghost i: nat)
      requires Valid() && Sound(p) && n <= buf.Length && buf[..n] == p.raw
      requires Bundles(cfg, p, bridge) ==> HEADER + |p.payload| <= n && p.raw[HEADER..HEADER + |p.payload|] == p.payload
      requires Shown(i) && Unheld(buf) && forall j | i <= j < |slots| :: slots[j] != buf
      modifies this, chains, chains.cells, buf
      ensures Valid() && Shown(i) && fresh(chains.cells - old(chains.cells)) && pipe == Perform(cfg, old(pipe), p, bridge)
      ensures written == old(written)
    {
      hide Chains.Valid, Emit, Wires, Coalesce.Buffered, Bundles;
      if p.key.Some? && cfg.dedup {
        var won := p.key.value !in store;
        store := store + {p.key.value};
        pipe := pipe.(store := store);
        if !won {
          return;
        }
      }
      EmitFrame(p, buf, n, bridge, i);
    }

    /** DispatchClass on buf[:n] of receive slot i; the bare path frames the transaction in a buffer of its own. */
    method Dispatch(i: nat, a: Arrival)
      requires Valid() && InPlace(cfg) && i < |slots| && Holds(slots[i], a.data) && Shown(i)
      modifies this, chains, chains.cells, slots[i]
      ensures Valid() && Shown(i + 1) && fresh(chains.cells - old(chains.cells)) && written == old(written)
      ensures pipe == Handle(cfg, old(pipe), Datagram(a.data, a.src, lane, a.bridge))
    {
      hide Chains.Valid, Gate, Perform, Wires, Coalesce.Buffered, InPlace, Bundles;
      var n := |a.data|;
      var plan := Gate(cfg, slots[i][..n], a.src, lane);
      if plan.None? {
        return;
      }
      GateSound(cfg, a.data, a.src, lane);
      PlanInPlace(cfg, a, lane);
      if Magic(slots[i][..n]) {
        PerformPlan(plan.value, slots[i], n, a.bridge, i + 1);
      } else {
        var framed := Own(plan.value.raw);
        PerformPlan(plan.value, framed, |plan.value.raw|, a.bridge, i + 1);
      }
    }

    /** ReadBatch: the kernel overwrites the first receive buffers. Nothing may still refer to them. */
    method ReadBatch(batch: seq<Arrival>)
      requires Valid() && |batch| <= |slots| && forall i | 0 <= i < |batch| :: |batch[i].data| <= size
      requires Drained()
      modifies slots
      ensures forall i | 0 <= i < |batch| :: Holds(slots[i], batch[i].data)
    {
      hide Chains.Valid, Wires, Coalesce.Buffered;
      for i := 0 to |batch|
        invariant forall j | 0 <= j < i :: Holds(slots[j], batch[j].data)
      {
        Fill(slots[i], batch[i].data);
      }
    }

    /** The members bucketed by flow, read through their references. */
    method Bucketed() returns (buf: Coalesce.CoalBuffer)
      requires ShowsMembers(coal, arrivals)
      ensures fresh(buf) && buf.maxMembers == Coalesce.MemberCap(cfg.cap) && buf.buckets == Coalesce.Buffered(arrivals)
    {
      buf := new Coalesce.CoalBuffer(cfg.cap);
      for k := 0 to |coal|
        invariant fresh(buf) && buf.maxMembers == Coalesce.MemberCap(cfg.cap)
        invariant buf.buckets == Coalesce.Buffered(arrivals[..k]) && ShowsMembers(coal, arrivals)
      {
        assert arrivals[..k + 1][..k] == arrivals[..k];
        var m := coal[k];
        buf.Add(m.flow, Coalesce.Member(m.txid, m.buf[m.from..m.to]));
      }
      assert arrivals[..|arrivals|] == arrivals;
    }

    /** The queue's bytes as the writer sees them. */
    method ReadQueue() returns (out: seq<Wire>)
      requires Shows(queue, pending)
      ensures out == pending
    {
      out := [];
      for k := 0 to |queue|
        invariant out == pending[..k]
      {
        out := out + [Wire(queue[k].buf[..queue[k].n], queue[k].group)];
      }
    }

    /** The bundles of the buffered members, each numbered from its flow's counter. */
    method MakeBundles() returns (bundles: seq<Coalesce.Bundle>)
      requires Valid() && Shown(|slots|)
      modifies chains, chains.cells
      ensures chains.Valid() && Shown(|slots|) && fresh(chains.cells - old(chains.cells))
      ensures (bundles, chains.counts)
           == Coalesce.Flushed(LimitsOf(cfg), cfg.hashKey, cfg.bundleEnc, pipe.buckets, pipe.counts)
    {
      hide Chains.Valid, Coalesce.Flushed, Wires, Coalesce.Buffered;
      var buf := Bucketed();
      bundles := Coalesce.FlushCoalesced(buf, chains, cfg.overhead, cfg.budget, cfg.bundleEnc);
    }

    /** FlushCoalesced: the members' bundles join the queue in buffers of their own. */
    method FlushMembers()
      requires Valid() && Shown(|slots|)
      modifies this`queue, this`coal, this`pending, this`arrivals, this`pipe, chains, chains.cells
      ensures Valid() && Shown(|slots|) && fresh(chains.cells - old(chains.cells))
      ensures coal == [] && arrivals == [] && pipe == EndBatch(cfg, old(pipe))
    {
      hide Chains.Valid, Coalesce.Flushed, EndBatch, Wires, BundleWires, Coalesce.Buffered;
      var bundles := MakeBundles();
      PushOwn(BundleWires(cfg.bundleEnc, bundles), |slots|);
      FlushPipe(cfg, pipe);
      pipe := EndBatch(cfg, pipe);
      coal, arrivals := [], [];
      NothingBuffered();
    }

    /** FlushCoalesced and Flush: bundle the members, write the queue, drop every reference. */
    method FlushAll()
      requires Valid() && Shown(|slots|)
      modifies this, chains, chains.cells
      ensures Valid() && fresh(chains.cells - old(chains.cells)) && Drained()
      ensures written == Wires(pipe.queue) && pipe == EndBatch(cfg, old(pipe))
    {
      hide Chains.Valid, Wires, EndBatch, Coalesce.Buffered;
      FlushMembers();
      var out := ReadQueue();
      written := written + out;
      queue, pending := [], [];
    }

    method DispatchBatch(batch: seq<Arrival>, ghost es: seq<Event>)
      requires Valid() && InPlace(cfg) && |batch| <= |slots| && Drained()
      requires pipe == Served(cfg, es)
      requires forall i | 0 <= i < |batch| :: |batch[i].data| <= size && Holds(slots[i], batch[i].data)
      modifies this, chains, chains.cells, slots
      ensures Valid() && Shown(|slots|) && fresh(chains.cells - old(chains.cells)) && written == old(written)
      ensures pipe == Served(cfg, es + BatchEvents(batch, lane, size))
    {
      hide Chains.Valid, Wires, Coalesce.Buffered, InPlace, Handle, Served;
      assert es + BatchEvents(batch[..0], lane, size) == es;
      for i := 0 to |batch|
        invariant Valid() && Shown(i) && fresh(chains.cells - old(chains.cells)) && written == old(written)
        invariant pipe == Served(cfg, es + BatchEvents(batch[..i], lane, size))
        invariant forall j | i <= j < |batch| :: Holds(slots[j], batch[j].data)
      {
        assert batch[..i + 1][..i] == batch[..i];
        ghost var before := es + BatchEvents(batch[..i], lane, size);
        if |batch[i].data| != size {
          ghost var e := Datagram(batch[i].data, batch[i].src, lane, batch[i].bridge);
          Dispatch(i, batch[i]);
          ServedOne(cfg, before, e);
          assert before + [e] == es + BatchEvents(batch[..i + 1], lane, size);
        } else {
          assert before == es + BatchEvents(batch[..i + 1], lane, size);
        }
      }
      assert batch[..|batch|] == batch;
    }

    /** One turn of the loop: receive, dispatch, flush. */
    method ServeBatch(batch: seq<Arrival>, ghost es: seq<Event>)
      requires Valid() && InPlace(cfg) && Drained() && pipe == Served(cfg, es)
      requires |batch| <= |slots| && forall i | 0 <= i < |batch| :: |batch[i].data| <= size
      modifies this, chains, chains.cells, slots
      ensures Valid() && fresh(chains.cells - old(chains.cells)) && Drained() && written == Wires(pipe.queue)
      ensures pipe == Served(cfg, es + (BatchEvents(batch, lane, size) + [BatchEnd]))
    {
      hide Chains.Valid, Wires, Coalesce.Buffered, InPlace, Handle, Served, EndBatch;
      ReadBatch(batch);
      DispatchBatch(batch, es);
      FlushAll();
      ghost var all := es + BatchEvents(batch, lane, size);
      ServedOne(cfg, all, BatchEnd);
      EndIsEndBatch(cfg, Served(cfg, all));
      assert all + [BatchEnd] == es + (BatchEvents(batch, lane, size) + [BatchEnd]);
    }

    /**
     The loop. Whatever arrives and however the receive buffers are reused, the bytes written, their groups
     and their order are those the pipeline specifies for the same datagrams.
     */
    method Run(run: seq<Receive>)
      requires Valid() && InPlace(cfg) && pipe == FRESH && Drained() && written == []
      requires forall r <- run | r.Batch? :: |r.arrivals| <= |slots|
      requires forall r <- run | r.Batch? :: forall i | 0 <= i < |r.arrivals| :: |r.arrivals[i].data| <= size
      modifies this, chains, chains.cells, slots
      ensures Drained() && written == Wires(Served(cfg, Events(run, lane, size)).queue)
    {
      hide Chains.Valid, Wires, Coalesce.Buffered, InPlace, Handle;
      StartsEmpty();
      for t := 0 to |run|
        invariant Valid() && fresh(chains.cells - old(chains.cells)) && Drained()
        invariant written == Wires(pipe.queue) && pipe == Served(cfg, Events(run[..t], lane, size))
      {
        hide Served;
        assert run[..t + 1][..t] == run[..t];
        ghost var es := Events(run[..t], lane, size);
        if run[t].Batch? {
          assert run[t] in run;
          ServeBatch(run[t].arrivals, es);
          assert es + (BatchEvents(run[t].arrivals, lane, size) + [BatchEnd]) == Events(run[..t + 1], lane, size);
        } else {
          assert Events(run[..t + 1], lane, size) == es + [] == es;
        }
      }
      assert run[..|run|] == run;
    }
  }

  lemma StartsEmpty()
    ensures Wires(FRESH.queue) == []
  {
  }

  lemma NothingBuffered()
    ensures Coalesce.Buffered([]) == []
  {
  }

  function DrawOf(counts: map<Flow, nat>, p: Plan): Option<Draw>
    requires p.flow.Some? && Sound(p)
  {
    if SeqOf(p.raw) == 0 then Some(Draw(p.flow.value, Wrap64(Count(counts, p.flow.value) + 1))) else None
  }

  lemma StampedPipe(cfg: Setup, s: Pipe, p: Plan, bridge: Bridge)
    requires p.flow.Some? && Sound(p)
    ensures
      var (counts, raw) := Stamp(cfg.hashKey, cfg.stampSource, s.counts, p.raw, p.flow.value);
      var t := StampWhole(cfg, s, p, bridge);
      && Wires(t.queue) == Wires(s.queue) + Wires(WholeItems(p, raw, DrawOf(s.counts, p), bridge))
      && t.counts == counts && t.buckets == s.buckets && t.store == s.store
  {
    hide Stamp, WholeItems, Wires;
    var raw := Stamp(cfg.hashKey, cfg.stampSource, s.counts, p.raw, p.flow.value).1;
    WiresJoin(s.queue, WholeItems(p, raw, DrawOf(s.counts, p), bridge));
  }

  /** What splitting adds: the bytes of the fragment loop. */
  lemma SplitPipe(cfg: Setup, s: Pipe, p: Plan, raws: seq<seq<Byte>>)
    requires Splits(cfg, p)
    requires raws == Fragmented(cfg.enc, ParcelOf(p, p.flow.value), cfg.fragSize, cfg.hashKey(p.flow.value),
                                Count(s.counts, p.flow.value)).0
    ensures
      var t := Split(cfg, s, p);
      && Wires(t.queue) == Wires(s.queue) + ToGroup(raws, p.group) && t.buckets == s.buckets && t.store == s.store
      && t.counts == Fragment.Advance(s.counts, p.flow.value,
                       Fragmented(cfg.enc, ParcelOf(p, p.flow.value), cfg.fragSize, cfg.hashKey(p.flow.value),
                                  Count(s.counts, p.flow.value)).1)
  {
    hide Ceil, Encoded, Pieces, PieceItems, Draws, Wires, ToGroup;
    var f, parcel, k := p.flow.value, ParcelOf(p, p.flow.value), Ceil(|p.payload|, cfg.fragSize);
    if k <= MAX_PIECES {
      var pieces := Pieces(parcel, cfg.fragSize, cfg.hashKey(f), Draws(Count(s.counts, f), k));
      WiresOfPieces(cfg.enc, parcel, pieces, p.group);
      WiresJoin(s.queue, PieceItems(cfg.enc, parcel, pieces, p.group));
    } else {
      NothingToGroup(p.group);
      assert Wires(s.queue) + [] == Wires(s.queue);
    }
  }

  lemma FlushPipe(cfg: Setup, s: Pipe)
    ensures
      var (bundles, counts) := Coalesce.Flushed(LimitsOf(cfg), cfg.hashKey, cfg.bundleEnc, s.buckets, s.counts);
      var t := EndBatch(cfg, s);
      && Wires(t.queue) == Wires(s.queue) + BundleWires(cfg.bundleEnc, bundles)
      && t.counts == counts && t.buckets == [] && t.store == s.store
  {
    hide Coalesce.Flushed, PartsTotal, Wires, BundleItems, BundleWires;
    var bundles := Coalesce.Flushed(LimitsOf(cfg), cfg.hashKey, cfg.bundleEnc, s.buckets, s.counts).0;
    WiresOfBundles(cfg.bundleEnc, bundles);
    WiresJoin(s.queue, BundleItems(cfg.bundleEnc, bundles));
  }

  lemma NothingToGroup(group: nat)
    ensures ToGroup([], group) == []
  {
  }

  /** A framed datagram is planned in the buffer it came in, and a bundled payload is a slice of the planned frame. */
  lemma PlanInPlace(cfg: Setup, a: Arrival, lane: Class)
    requires InPlace(cfg) && Gate(cfg, a.data, a.src, lane).Some?
    ensures
      var p := Gate(cfg, a.data, a.src, lane).value;
      && (Magic(a.data) ==> p.raw == a.data)
      && (Bundles(cfg, p, a.bridge) ==> HEADER + |p.payload| <= |p.raw| && p.raw[HEADER..HEADER + |p.payload|] == p.payload)
  {
    hide SeqOf, Splits, Coalesce.Eligible;
  }
}
