/**
 Egress itself (forwarder/egress.go): queues that grow in lock-step over the targets,
 the per-group destination cache, and the two flushes.
 */
module EgressQueue {
  import opened Bytes
  import opened Egress

  /** A multicast destination without its zone. */
  datatype Dest = Dest(ip: seq<Byte>, port: nat)

  const MAX_GROUP_CACHE: nat := 8192
  const ADDR_CACHE_INIT: nat := 64

  function Zoned(d: Dest, target: nat): Addr {
    Addr(d.ip, d.port, target)
  }

  /** The queues after one more datagram to every target. */
  function Fan(msgs: seq<seq<Msg>>, raw: seq<Byte>, d: Dest): (out: seq<seq<Msg>>)
    ensures |out| == |msgs|
  {
    seq(|msgs|, i requires 0 <= i < |msgs| => msgs[i] + [Msg(raw, Zoned(d, i))])
  }

  predicate LockStep(msgs: seq<seq<Msg>>, len: nat) {
    forall i | 0 <= i < |msgs| :: |msgs[i]| == len
  }

  /** A cached entry is the group's own destination in the target's zone. */
  ghost predicate Coherent(cache: seq<Option<Addr>>, destOf: nat -> Dest, target: nat) {
    && ADDR_CACHE_INIT <= |cache| <= MAX_GROUP_CACHE
    && forall g | 0 <= g < |cache| && cache[g].Some? :: cache[g].value == Zoned(destOf(g), target)
  }

  /** Why a reliable remainder may be given up. */
  ghost predicate GaveUp(calls: seq<Call>) {
    Stalled(calls, MAX_RETRIES) || (calls != [] && calls[|calls| - 1].err == Some(Hard))
  }

  /** The outcome of one target's drain. */
  datatype Drain = Drain(sent: nat, failed: bool)

  /** A target's writer took a prefix of its queue; a reliable remainder was given up for cause only. */
  ghost predicate Offered(reliable: bool, queue: seq<Msg>, d: Drain,
                          accepted: seq<Msg>, accepted': seq<Msg>, calls: seq<Call>, calls': seq<Call>) {
    && d.sent <= |queue| && (d.sent < |queue| ==> d.failed)
    && accepted' == accepted + queue[..d.sent]
    && calls <= calls'
    && (reliable && d.sent < |queue| ==> GaveUp(calls'[|calls|..]))
  }

  /** The same through a sink: a failed message was tried once, or as often as the budget allows. */
  ghost predicate OfferedVia(reliable: bool, queue: seq<Msg>, d: Drain, sends: seq<Send>, sends': seq<Send>) {
    && d.sent <= |queue| && (d.failed <==> d.sent < |queue|)
    && sends <= sends'
    && Delivered(sends'[|sends|..]) == queue[..d.sent]
    && (d.failed ==> FailedAt(sends'[|sends|..], if reliable then MAX_RETRIES + 1 else 1, queue[d.sent]))
  }

  /** The events of draining targets 0, 1, ... with these outcomes. */
  function AllRecorded(drains: seq<Drain>, meta: seq<Meta>): seq<Event> {
    if drains == [] then []
    else
      var k := |drains| - 1;
      AllRecorded(drains[..k], meta) + Recorded(k, drains[k].sent, drains[k].failed, meta)
  }

  /** Datagrams copied for the retry cache and for the co-located listener. */
  datatype Copies = Copies(tee: seq<seq<Byte>>, mirror: seq<seq<Byte>>)

  /** What enqueue copies of a datagram: the tee takes what the cache can key, the mirror takes data frames. */
  function Copied(tee: bool, mirror: bool, c: Copies, raw: seq<Byte>, m: Meta): Copies {
    Copies(if tee && m.teeable then c.tee + [raw] else c.tee,
           if mirror && m.ctrlLabel == "" then c.mirror + [raw] else c.mirror)
  }

  /** The copies due for a queue. */
  function CopiesOf(tee: bool, mirror: bool, queue: seq<Msg>, meta: seq<Meta>): Copies
    requires |queue| == |meta|
  {
    if queue == [] then Copies([], [])
    else
      var k := |queue| - 1;
      Copied(tee, mirror, CopiesOf(tee, mirror, queue[..k], meta[..k]), queue[k].raw, meta[k])
  }

  lemma CopiesMore(tee: bool, mirror: bool, queue: seq<Msg>, meta: seq<Meta>, x: Msg, m: Meta)
    requires |queue| == |meta|
    ensures CopiesOf(tee, mirror, queue + [x], meta + [m]) == Copied(tee, mirror, CopiesOf(tee, mirror, queue, meta), x.raw, m)
  {
    assert (queue + [x])[..|queue|] == queue && (meta + [m])[..|meta|] == meta;
  }

  class Queue {
    const tee: bool
    const mirror: bool
    const writers: seq<BatchWriter>
    const reliable: bool
    const destOf: nat -> Dest
    var msgs: seq<seq<Msg>>
    var meta: seq<Meta>
    var pooled: seq<nat>
    var addrCache: seq<seq<Option<Addr>>>
    var pool: seq<nat>
    var events: seq<Event>
    var copies: Copies               // taken since the last flush
    var handed: Copies               // handed to the tee's and the mirror's senders

    /** The copies are those of every target's queue: what is written is what is cached, in the same order. */
    ghost predicate CopiesInStep()
      requires Valid()
      reads this
    {
      forall i | 0 <= i < |msgs| :: copies == CopiesOf(tee, mirror, msgs[i], meta)
    }

    ghost predicate Valid()
      reads this
    {
      && |msgs| == |addrCache| == |writers|
      && LockStep(msgs, |meta|)
      && (forall i | 0 <= i < |addrCache| :: Coherent(addrCache[i], destOf, i))
      && (forall i, j | 0 <= i < j < |writers| :: writers[i] != writers[j])
    }

    constructor (writers: seq<BatchWriter>, reliable: bool, destOf: nat -> Dest, tee: bool, mirror: bool)
      requires forall i, j | 0 <= i < j < |writers| :: writers[i] != writers[j]
      ensures Valid() && this.writers == writers && this.reliable == reliable && this.destOf == destOf
      ensures meta == [] && pooled == [] && pool == [] && events == []
      ensures CopiesInStep() && copies == handed == Copies([], []) && this.tee == tee && this.mirror == mirror
    {
      this.writers, this.reliable, this.destOf, this.tee, this.mirror := writers, reliable, destOf, tee, mirror;
      copies, handed := Copies([], []), Copies([], []);
      msgs := seq(|writers|, i => []);
      meta, pooled, pool, events := [], [], [], [];
      addrCache := seq(|writers|, i => seq(ADDR_CACHE_INIT, g => None));
    }

    /** The cache row of target i, grown to the next power of two covering the group. */
    method Grow(i: nat, group: nat) returns (row: seq<Option<Addr>>)
      requires Valid() && i < |writers| && group < MAX_GROUP_CACHE
      ensures Coherent(row, destOf, i) && group < |row|
      ensures |addrCache[i]| <= |row| && row[..|addrCache[i]|] == addrCache[i]
    {
      row := addrCache[i];
      if group >= |row| {
        var n := |row| * 2;
        while n <= group
          invariant n >= 2 * |row|
          decreases group - n
        {
          n := n * 2;
        }
        if n > MAX_GROUP_CACHE {
          n := MAX_GROUP_CACHE;
        }
        row := row + seq(n - |row|, g => None);
      }
    }

    /** The destination of one datagram on target i, through the cache for data frames. */
    method Resolve(i: nat, d: Dest, m: Meta) returns (addr: Addr)
      requires Valid() && i < |writers| && (m.ctrlLabel == "" ==> d == destOf(m.group))
      modifies this`addrCache
      ensures Valid() && addr == Zoned(d, i)
    {
      if m.ctrlLabel == "" && m.group < MAX_GROUP_CACHE {
        var row := Grow(i, m.group);
        if row[m.group].Some? {
          addr := row[m.group].value;
        } else {
          addr := Zoned(d, i);
          row := row[m.group := Some(addr)];
        }
        addrCache := addrCache[i := row];
      } else {
        addr := Zoned(d, i);
      }
    }

    /** enqueue: one entry on every target's queue, whatever the cache held, and its copies for tee and mirror. */
    method Enqueue(raw: seq<Byte>, d: Dest, m: Meta, buf: Option<nat>)
      requires Valid() && CopiesInStep() && (m.ctrlLabel == "" ==> d == destOf(m.group))
      modifies this`msgs, this`meta, this`pooled, this`addrCache, this`copies
      ensures Valid() && CopiesInStep() && copies == Copied(tee, mirror, old(copies), raw, m)
      ensures msgs == Fan(old(msgs), raw, d) && meta == old(meta) + [m]
      ensures pooled == old(pooled) + if buf.Some? then [buf.value] else []
    {
      var queues := msgs;
      ghost var fan := Fan(msgs, raw, d);
      copies := Copied(tee, mirror, copies, raw, m);
      for i := 0 to |queues|
        invariant Valid() && msgs == old(msgs) && meta == old(meta) && pooled == old(pooled)
        invariant copies == Copied(tee, mirror, old(copies), raw, m)
        invariant |queues| == |msgs|
        invariant queues == fan[..i] + msgs[i..]
      {
        var addr := Resolve(i, d, m);
        queues := queues[i := queues[i] + [Msg(raw, addr)]];
      }
      msgs := queues;
      meta := meta + [m];
      if buf.Some? {
        pooled := pooled + [buf.value];
      }
      forall i | 0 <= i < |msgs|
        ensures copies == CopiesOf(tee, mirror, msgs[i], meta)
      {
        CopiesMore(tee, mirror, old(msgs[i]), old(meta), msgs[i][|old(msgs[i])|], m);
      }
    }

    /** Flush of one target: reliable with retries, otherwise up to the first error. */
    method DrainTarget(i: nat) returns (drain: Drain)
      requires Valid() && i < |writers|
      modifies writers[i], this`events
      ensures Valid()
      ensures events == old(events) + Recorded(i, drain.sent, drain.failed, meta)
      ensures Offered(reliable, msgs[i], drain, old(writers[i].accepted), writers[i].accepted,
                      old(writers[i].calls), writers[i].calls)
    {
      if |msgs[i]| == 0 {
        return Drain(0, false);
      }
      var sent, failed;
      if reliable {
        var err;
        ghost var calls;
        sent, err, calls := FlushReliable(writers[i], msgs[i]);
        failed := err.Some?;
        assert writers[i].calls[|old(writers[i].calls)|..] == calls;
      } else {
        var err;
        ghost var calls;
        sent, err, calls := WriteBatchAll(writers[i], msgs[i], writers[i].calls);
        failed := err.Some?;
      }
      var es := RecordMeta(i, sent, failed, meta);
      events := events + es;
      drain := Drain(sent, failed);
    }

    /** Flush: every target is offered its queue; then the queues are empty and each pooled buffer is back once. */
    method Flush() returns (drains: seq<Drain>)
      requires Valid()
      modifies this, writers
      ensures Valid() && meta == [] && pooled == [] && LockStep(msgs, 0)
      ensures pool == old(pool) + old(pooled) && HandedOver(old(copies), old(handed))
      ensures |drains| == |writers| && events == old(events) + AllRecorded(drains, old(meta))
      ensures forall i | 0 <= i < |writers| ::
                Offered(reliable, old(msgs)[i], drains[i], old(writers[i].accepted), writers[i].accepted,
                        old(writers[i].calls), writers[i].calls)
    {
      hide Offered, Recorded;
      drains := [];
      for i := 0 to |writers|
        invariant Valid() && |drains| == i
        invariant msgs == old(msgs) && meta == old(meta) && pooled == old(pooled) && pool == old(pool)
        invariant copies == old(copies) && handed == old(handed)
        invariant events == old(events) + AllRecorded(drains, meta)
        invariant forall j | i <= j < |writers| ::
                    writers[j].accepted == old(writers[j].accepted) && writers[j].calls == old(writers[j].calls)
        invariant forall j | 0 <= j < i ::
                    Offered(reliable, msgs[j], drains[j], old(writers[j].accepted), writers[j].accepted,
                            old(writers[j].calls), writers[j].calls)
      {
        var drain := DrainTarget(i);
        assert (drains + [drain])[..i] == drains;
        drains := drains + [drain];
      }
      Clear();
    }

    /** Everything copied has gone to its sender, in order, and the next batch starts empty. */
    ghost predicate HandedOver(was: Copies, before: Copies)
      requires Valid()
      reads this
    {
      && handed == Copies(before.tee + was.tee, before.mirror + was.mirror)
      && copies == Copies([], []) && CopiesInStep()
    }

    /** The tail both flushes share: the tee and the mirror flushed, queues emptied, pooled buffers returned. */
    method Clear()
      requires Valid()
      modifies this`msgs, this`pool, this`pooled, this`meta, this`copies, this`handed
      ensures Valid() && meta == [] && pooled == [] && LockStep(msgs, 0)
      ensures pool == old(pool) + old(pooled) && HandedOver(old(copies), old(handed))
    {
      handed := Copies(handed.tee + copies.tee, handed.mirror + copies.mirror);
      copies := Copies([], []);
      msgs := seq(|msgs|, i => []);
      for k := 0 to |pooled|
        modifies this`pool
        invariant pool == old(pool) + pooled[..k]
      {
        pool := pool + [pooled[k]];
      }
      pooled := [];
      meta := [];
    }

    method DrainTargetVia(sink: Sink, i: nat) returns (drain: Drain)
      requires Valid() && i < |writers|
      modifies sink, this`events
      ensures Valid()
      ensures events == old(events) + Recorded(i, drain.sent, drain.failed, meta)
      ensures OfferedVia(reliable, msgs[i], drain, old(sink.sends), sink.sends)
    {
      var sent, failed;
      ghost var sends;
      sent, failed, sends := DrainVia(sink, msgs[i], reliable);
      assert sink.sends[|old(sink.sends)|..] == sends;
      var es := RecordMeta(i, sent, failed, meta);
      events := events + es;
      drain := Drain(sent, failed);
    }

    /** FlushVia: the same through an alternative transport, one sink per target. */
    method FlushVia(sinks: seq<Sink>) returns (drains: seq<Drain>)
      requires Valid() && |sinks| == |writers|
      requires forall i, j | 0 <= i < j < |sinks| :: sinks[i] != sinks[j]
      modifies this, sinks
      ensures Valid() && meta == [] && pooled == [] && LockStep(msgs, 0)
      ensures pool == old(pool) + old(pooled) && HandedOver(old(copies), old(handed))
      ensures |drains| == |sinks|
      ensures events == old(events) + AllRecorded(drains, old(meta))
      ensures forall i | 0 <= i < |sinks| ::
                OfferedVia(reliable, old(msgs)[i], drains[i], old(sinks[i].sends), sinks[i].sends)
    {
      hide OfferedVia, Recorded;
      drains := [];
      for i := 0 to |sinks|
        invariant Valid() && |drains| == i
        invariant msgs == old(msgs) && meta == old(meta) && pooled == old(pooled) && pool == old(pool)
        invariant copies == old(copies) && handed == old(handed)
        invariant forall j | i <= j < |sinks| :: sinks[j].sends == old(sinks[j].sends)
        invariant events == old(events) + AllRecorded(drains, meta)
        invariant forall j | 0 <= j < i ::
                    OfferedVia(reliable, msgs[j], drains[j], old(sinks[j].sends), sinks[j].sends)
      {
        var drain := DrainTargetVia(sinks[i], i);
        assert (drains + [drain])[..i] == drains;
        drains := drains + [drain];
      }
      Clear();
    }
  }

  /** Over a flush, each target's forwards and drops add up to what was queued. */
  lemma {:induction false} FlushConserves(drains: seq<Drain>, meta: seq<Meta>, target: nat)
    requires target < |drains| && forall d <- drains :: d.sent <= |meta|
    ensures Forwards(AllRecorded(drains, meta), target) == drains[target].sent
    ensures Drops(AllRecorded(drains, meta), target) == |meta| - drains[target].sent
  {
    var k := |drains| - 1;
    var before, last := AllRecorded(drains[..k], meta), Recorded(k, drains[k].sent, drains[k].failed, meta);
    assert drains[k] in drains;
    CountsAdd(before, last, target);
    if target == k {
      QueuedIsForwardedOrDropped(k, drains[k].sent, drains[k].failed, meta);
      OtherTargets(drains[..k], meta, target);
    } else {
      FlushConserves(drains[..k], meta, target);
      RecordedElsewhere(k, drains[k].sent, drains[k].failed, meta, target);
    }
  }

  lemma {:induction false} EventsElsewhere(events: seq<Event>, target: nat)
    requires forall e <- events :: e.target != target
    ensures Forwards(events, target) == 0 && Drops(events, target) == 0
  {
    if events != [] {
      assert events[|events| - 1] in events;
      EventsElsewhere(events[..|events| - 1], target);
    }
  }

  lemma {:induction false} EventTargets(k: nat, meta: seq<Meta>)
    ensures forall e <- ForwardEvents(k, meta) :: e.target == k
    ensures forall e <- DropEvents(k, meta) :: e.target == k
  {
    if meta != [] {
      EventTargets(k, meta[..|meta| - 1]);
    }
  }

  lemma RecordedElsewhere(k: nat, sent: int, failed: bool, meta: seq<Meta>, target: nat)
    requires k != target
    ensures Forwards(Recorded(k, sent, failed, meta), target) == 0
    ensures Drops(Recorded(k, sent, failed, meta), target) == 0
  {
    hide Forwards, Drops;
    var n := Taken(sent, |meta|);
    EventTargets(k, meta[..n]);
    EventTargets(k, meta[n..]);
    EventsElsewhere(Recorded(k, sent, failed, meta), target);
  }

  lemma {:induction false} OtherTargets(drains: seq<Drain>, meta: seq<Meta>, target: nat)
    requires target >= |drains|
    ensures Forwards(AllRecorded(drains, meta), target) == 0
    ensures Drops(AllRecorded(drains, meta), target) == 0
  {
    if drains != [] {
      var k := |drains| - 1;
      OtherTargets(drains[..k], meta, target);
      RecordedElsewhere(k, drains[k].sent, drains[k].failed, meta, target);
      CountsAdd(AllRecorded(drains[..k], meta), Recorded(k, drains[k].sent, drains[k].failed, meta), target);
    }
  }
}
