/**
 The per-worker egress queue and its drain loops (forwarder/egress.go).

 The kernel and the alternative transport are adversaries: each call accepts
 whatever prefix it likes and reports whatever it likes. Their histories are ghost
 state the contracts speak of.
 */
module Egress {
  import opened Bytes

  /** Destination of a datagram; zone is the target's interface. */
  datatype Addr = Addr(ip: seq<Byte>, port: nat, zone: nat)

  datatype Msg = Msg(raw: seq<Byte>, addr: Addr)

  /** ENOBUFS, EAGAIN, EWOULDBLOCK and EINTR are transient, every other errno is hard. */
  datatype WriteError = Transient | Hard

  datatype Call = Call(offered: seq<Msg>, n: int, err: Option<WriteError>)

  /** How many of len messages a reported count stands for. */
  function Taken(n: int, len: nat): (k: nat)
    ensures k <= len && (k > 0 <==> n > 0 && len > 0)
  {
    if n <= 0 then 0 else if n > len then len else n
  }

  /** The sendmmsg seam. */
  class BatchWriter {
    ghost var calls: seq<Call>
    ghost var accepted: seq<Msg>

    method WriteBatch(ms: seq<Msg>) returns (n: int, err: Option<WriteError>)
      modifies this
      ensures calls == old(calls) + [Call(ms, n, err)]
      ensures accepted == old(accepted) + ms[..Taken(n, |ms|)]
    {
      n := *;
      err := *;
      calls := calls + [Call(ms, n, err)];
      accepted := accepted + ms[..Taken(n, |ms|)];
    }
  }

  /** Why a drain stopped: the writer's own error, or neither progress nor an error. */
  datatype DrainError = Failed(e: WriteError) | NoProgress

  /** Messages the calls took altogether. */
  function Drained(calls: seq<Call>): nat {
    if calls == [] then 0
    else
      var c := calls[|calls| - 1];
      Drained(calls[..|calls| - 1]) + Taken(c.n, |c.offered|)
  }

  /** Each call was offered exactly what the calls before it left of ms. */
  predicate OffersRest(calls: seq<Call>, ms: seq<Msg>) {
    calls != [] ==>
    var before := calls[..|calls| - 1];
    && OffersRest(before, ms)
    && Drained(before) <= |ms|
    && calls[|calls| - 1].offered == ms[Drained(before)..]
  }

  lemma OffersMore(calls: seq<Call>, c: Call, ms: seq<Msg>)
    requires OffersRest(calls, ms) && Drained(calls) <= |ms| && c.offered == ms[Drained(calls)..]
    ensures OffersRest(calls + [c], ms)
    ensures Drained(calls + [c]) == Drained(calls) + Taken(c.n, |ms| - Drained(calls)) <= |ms|
  {
    assert (calls + [c])[..|calls|] == calls;
  }

  /** The calls of one writeBatchAll: all but the last made progress without an error, the last tells the outcome. */
  ghost predicate DrainOutcome(calls: seq<Call>, len: nat, err: Option<DrainError>) {
    && (forall k | 0 <= k < |calls| - 1 :: calls[k].n > 0 && calls[k].err.None?)
    && match err
       case None => Drained(calls) == len
       case Some(Failed(e)) => calls != [] && calls[|calls| - 1].err == Some(e)
       case Some(NoProgress) => calls != [] && calls[|calls| - 1].err == None && calls[|calls| - 1].n <= 0
  }

  /** writeBatchAll: drains ms until done, an error, or a call without progress. */
  method WriteBatchAll(w: BatchWriter, ms: seq<Msg>, ghost history: seq<Call>)
    returns (off: nat, err: Option<DrainError>, ghost calls: seq<Call>)
    requires w.calls == history
    modifies w
    ensures w.calls == history + calls
    ensures off == Drained(calls) <= |ms| && w.accepted == old(w.accepted) + ms[..off]
    ensures OffersRest(calls, ms)
    ensures DrainOutcome(calls, |ms|, err)
    ensures err.Some? && off == 0 ==> |calls| == 1 && calls[0].n <= 0
  {
    hide Drained, OffersRest, Taken;
    off := 0;
    calls := [];
    NoCalls(ms);
    while off < |ms|
      invariant w.calls == history + calls
      invariant off == Drained(calls) <= |ms| && w.accepted == old(w.accepted) + ms[..off]
      invariant OffersRest(calls, ms)
      invariant forall k | 0 <= k < |calls| :: calls[k].n > 0 && calls[k].err.None?
      invariant off == 0 ==> calls == []
      decreases |ms| - off
    {
      var n, e := w.WriteBatch(ms[off..]);
      ghost var c := Call(ms[off..], n, e);
      OffersMore(calls, c, ms);
      ghost var before := off;
      calls := calls + [c];
      if n > 0 {
        var took := if n > |ms| - off then |ms| - off else n;
        off := off + took;
      }
      PrefixGrows(ms, before, off, n);
      if e.Some? {
        return off, Some(Failed(e.value)), calls;
      }
      if n <= 0 {
        return off, Some(NoProgress), calls;
      }
    }
    err := None;
  }

  lemma NoCalls(ms: seq<Msg>)
    ensures Drained([]) == 0 && OffersRest([], ms)
  {
  }

  lemma PrefixGrows(ms: seq<Msg>, before: nat, off: nat, n: int)
    requires before <= |ms| && off == before + if n <= 0 then 0 else if n > |ms| - before then |ms| - before else n
    ensures off == before + Taken(n, |ms| - before)
    ensures ms[..off] == ms[..before] + ms[before..][..Taken(n, |ms| - before)]
  {
  }

  const MAX_RETRIES: nat := 50

  /** The last k calls all failed to move a message, without a hard error. */
  predicate Stalled(calls: seq<Call>, k: nat) {
    k > 0 ==>
      && calls != []
      && calls[|calls| - 1].n <= 0 && calls[|calls| - 1].err != Some(Hard)
      && Stalled(calls[..|calls| - 1], k - 1)
  }

  /** flushReliable's loop: the remainder is given up on a hard error or a long stall, and only then. */
  method FlushReliable(w: BatchWriter, msgs: seq<Msg>)
    returns (off: nat, werr: Option<DrainError>, ghost calls: seq<Call>)
    modifies w
    ensures w.calls == old(w.calls) + calls
    ensures off == Drained(calls) <= |msgs| && w.accepted == old(w.accepted) + msgs[..off]
    ensures OffersRest(calls, msgs)
    ensures werr.None? <==> off == |msgs|
    ensures werr == Some(Failed(Hard)) ==> calls != [] && calls[|calls| - 1].err == Some(Hard)
    ensures werr.Some? && werr != Some(Failed(Hard)) ==> Stalled(calls, MAX_RETRIES)
    ensures werr.Some? && werr != Some(Failed(Hard)) && off == 0 ==> |calls| == MAX_RETRIES + 1
  {
    hide Drained, OffersRest, Stalled;
    off := 0;
    werr := None;
    calls := [];
    NoCalls(msgs);
    assert Stalled(calls, 0) by {
      NotStalled(calls);
    }
    var attempts := 0;
    ghost var stalls := 0;
    while off < |msgs|
      invariant w.calls == old(w.calls) + calls
      invariant off == Drained(calls) <= |msgs| && w.accepted == old(w.accepted) + msgs[..off]
      invariant OffersRest(calls, msgs) && werr.None?
      invariant 0 <= attempts <= MAX_RETRIES && Stalled(calls, stalls)
      invariant attempts == stalls + if off > 0 then 1 else 0
      invariant off == 0 ==> |calls| == stalls
      decreases |msgs| - off, MAX_RETRIES - attempts
    {
      ghost var before, done := off, calls;
      ghost var round: seq<Call>;
      var sent, err;
      sent, err, round := WriteBatchAll(w, msgs[off..], w.calls);
      calls := calls + round;
      JoinRounds(done, round, msgs);
      TakeMore(msgs, before, sent);
      if sent > 0 {
        off := off + sent;
        attempts := 0;
        stalls := 0;
        if off >= |msgs| {
          break;
        }
      }
      if err == Some(Failed(Hard)) {
        werr := err;
        break;
      }
      if sent == 0 {
        OneMoreStall(done, round, stalls);
        stalls := stalls + 1;
      } else {
        NotStalled(calls);
      }
      if attempts >= MAX_RETRIES {
        StalledLess(calls, stalls, MAX_RETRIES);
        werr := if err.Some? then err else Some(NoProgress);
        break;
      }
      attempts := attempts + 1;
    }
  }

  lemma TakeMore(ms: seq<Msg>, before: nat, k: nat)
    requires before + k <= |ms|
    ensures ms[..before + k] == ms[..before] + ms[before..][..k]
  {
  }

  lemma {:induction false} StalledLess(calls: seq<Call>, k: nat, m: nat)
    requires Stalled(calls, k) && m <= k
    ensures Stalled(calls, m)
  {
    if m > 0 {
      StalledLess(calls[..|calls| - 1], k - 1, m - 1);
    }
  }

  lemma NotStalled(calls: seq<Call>)
    ensures Stalled(calls, 0)
  {
  }

  lemma OneMoreStall(done: seq<Call>, round: seq<Call>, k: nat)
    requires Stalled(done, k) && |round| == 1 && round[0].n <= 0 && round[0].err != Some(Hard)
    ensures Stalled(done + round, k + 1)
  {
    assert (done + round)[..|done|] == done;
  }

  /** A round over the rest of ms continues the rounds before it. */
  lemma {:induction false} JoinRounds(done: seq<Call>, round: seq<Call>, ms: seq<Msg>)
    requires OffersRest(done, ms) && Drained(done) <= |ms| && OffersRest(round, ms[Drained(done)..])
    requires Drained(round) <= |ms| - Drained(done)
    ensures OffersRest(done + round, ms)
    ensures Drained(done + round) == Drained(done) + Drained(round)
    decreases |round|
  {
    hide Drained, OffersRest, Taken;
    if round == [] {
      NoCalls(ms);
      assert done + round == done;
    } else {
      var k := |round| - 1;
      var head, c := round[..k], round[k];
      LastOffer(round, ms[Drained(done)..]);
      JoinRounds(done, head, ms);
      assert ms[Drained(done)..][Drained(head)..] == ms[Drained(done) + Drained(head)..];
      OffersMore(done + head, c, ms);
      assert done + head + [c] == done + round;
    }
  }

  /** What the last call of a round was offered, and what it added. */
  lemma LastOffer(round: seq<Call>, rest: seq<Msg>)
    requires round != [] && OffersRest(round, rest)
    ensures
      var head, c := round[..|round| - 1], round[|round| - 1];
      && OffersRest(head, rest) && Drained(head) <= |rest| && c.offered == rest[Drained(head)..]
      && Drained(round) == Drained(head) + Taken(c.n, |rest| - Drained(head))
  {
  }

  // ----- The alternative transport -----

  datatype Send = Send(msg: Msg, ok: bool)

  /** An EgressWriteFunc. */
  class Sink {
    ghost var sends: seq<Send>

    method Write(m: Msg) returns (ok: bool)
      modifies this
      ensures sends == old(sends) + [Send(m, ok)]
    {
      ok := *;
      sends := sends + [Send(m, ok)];
    }
  }

  function Delivered(sends: seq<Send>): seq<Msg> {
    if sends == [] then []
    else Delivered(sends[..|sends| - 1]) + if sends[|sends| - 1].ok then [sends[|sends| - 1].msg] else []
  }

  /** The last k sends were failed attempts at m. */
  ghost predicate FailedAt(sends: seq<Send>, k: nat, m: Msg) {
    && k <= |sends|
    && forall j | |sends| - k <= j < |sends| :: sends[j] == Send(m, false)
  }

  /** FlushVia's loop for one target: in order, each message retried within the budget before the rest is given up. */
  method DrainVia(fn: Sink, msgs: seq<Msg>, reliable: bool) returns (sent: nat, failed: bool, ghost sends: seq<Send>)
    modifies fn
    ensures fn.sends == old(fn.sends) + sends
    ensures sent <= |msgs| && Delivered(sends) == msgs[..sent]
    ensures failed <==> sent < |msgs|
    ensures failed ==> FailedAt(sends, if reliable then MAX_RETRIES + 1 else 1, msgs[sent])
    ensures !reliable ==> |sends| == sent + if failed then 1 else 0
  {
    sent := 0;
    failed := false;
    sends := [];
    var attempts := 0;
    while sent < |msgs|
      invariant fn.sends == old(fn.sends) + sends && !failed
      invariant 0 <= sent <= |msgs| && Delivered(sends) == msgs[..sent]
      invariant 0 <= attempts <= MAX_RETRIES && (!reliable ==> attempts == 0 && |sends| == sent)
      invariant sent < |msgs| ==> FailedAt(sends, attempts, msgs[sent])
      decreases |msgs| - sent, MAX_RETRIES - attempts
    {
      var ok := fn.Write(msgs[sent]);
      ghost var s := Send(msgs[sent], ok);
      assert (sends + [s])[..|sends|] == sends;
      sends := sends + [s];
      if ok {
        sent := sent + 1;
        attempts := 0;
        continue;
      }
      if !reliable || attempts >= MAX_RETRIES {
        failed := true;
        break;
      }
      attempts := attempts + 1;
    }
  }

  // ----- Metrics -----

  datatype Meta = Meta(group: nat, size: nat, worker: int, ctrlLabel: string, teeable: bool)

  datatype Event =
    | EgressError(target: nat)
    | ControlForwarded(target: nat, ctrlLabel: string)
    | PacketForwarded(target: nat, worker: int, group: nat, size: nat)
    | WriteDropped(target: nat, worker: int)

  function ForwardEvent(target: nat, m: Meta): Event {
    if m.ctrlLabel != "" then ControlForwarded(target, m.ctrlLabel) else PacketForwarded(target, m.worker, m.group, m.size)
  }

  function ForwardEvents(target: nat, meta: seq<Meta>): seq<Event> {
    if meta == [] then []
    else ForwardEvents(target, meta[..|meta| - 1]) + [ForwardEvent(target, meta[|meta| - 1])]
  }

  function DropEvents(target: nat, meta: seq<Meta>): seq<Event> {
    if meta == [] then []
    else DropEvents(target, meta[..|meta| - 1]) + [WriteDropped(target, meta[|meta| - 1].worker)]
  }

  /** What one drain result records: a forward per message taken, a drop per message left. */
  function Recorded(target: nat, sent: int, failed: bool, meta: seq<Meta>): seq<Event> {
    var k := Taken(sent, |meta|);
    (if failed then [EgressError(target)] else [])
    + ForwardEvents(target, meta[..k]) + DropEvents(target, meta[k..])
  }

  method RecordMeta(target: nat, sent: int, failed: bool, meta: seq<Meta>) returns (events: seq<Event>)
    ensures events == Recorded(target, sent, failed, meta)
  {
    var k := sent;
    if k < 0 {
      k := 0;
    } else if k > |meta| {
      k := |meta|;
    }
    events := if failed then [EgressError(target)] else [];
    ghost var head := events;
    for j := 0 to k
      invariant events == head + ForwardEvents(target, meta[..j])
    {
      assert meta[..j + 1][..j] == meta[..j];
      events := events + [ForwardEvent(target, meta[j])];
    }
    ghost var mid, left := events, meta[k..];
    for j := k to |meta|
      invariant events == mid + DropEvents(target, left[..j - k])
    {
      assert left[..j - k + 1][..j - k] == left[..j - k];
      events := events + [WriteDropped(target, meta[j].worker)];
    }
    assert left[..|meta| - k] == left;
  }

  function Forwards(events: seq<Event>, target: nat): nat {
    if events == [] then 0
    else
      var e := events[|events| - 1];
      Forwards(events[..|events| - 1], target)
      + if (e.ControlForwarded? || e.PacketForwarded?) && e.target == target then 1 else 0
  }

  function Drops(events: seq<Event>, target: nat): nat {
    if events == [] then 0
    else
      var e := events[|events| - 1];
      Drops(events[..|events| - 1], target) + if e.WriteDropped? && e.target == target then 1 else 0
  }

  lemma {:induction false} CountsAdd(a: seq<Event>, b: seq<Event>, target: nat)
    ensures Forwards(a + b, target) == Forwards(a, target) + Forwards(b, target)
    ensures Drops(a + b, target) == Drops(a, target) + Drops(b, target)
  {
    if b == [] {
      assert a + b == a;
    } else {
      assert (a + b)[..|a + b| - 1] == a + b[..|b| - 1];
      CountsAdd(a, b[..|b| - 1], target);
    }
  }

  lemma {:induction false} CountsOfForwards(target: nat, meta: seq<Meta>)
    ensures Forwards(ForwardEvents(target, meta), target) == |meta|
    ensures Drops(ForwardEvents(target, meta), target) == 0
  {
    if meta != [] {
      var before := ForwardEvents(target, meta[..|meta| - 1]);
      CountsOfForwards(target, meta[..|meta| - 1]);
      assert ForwardEvents(target, meta)[..|before|] == before;
    }
  }

  lemma {:induction false} CountsOfDrops(target: nat, meta: seq<Meta>)
    ensures Forwards(DropEvents(target, meta), target) == 0
    ensures Drops(DropEvents(target, meta), target) == |meta|
  {
    if meta != [] {
      var before := DropEvents(target, meta[..|meta| - 1]);
      CountsOfDrops(target, meta[..|meta| - 1]);
      assert DropEvents(target, meta)[..|before|] == before;
    }
  }

  lemma CountsOfError(target: nat)
    ensures Forwards([EgressError(target)], target) == 0 && Drops([EgressError(target)], target) == 0
    ensures Forwards([], target) == 0 && Drops([], target) == 0
  {
    assert [EgressError(target)][..0] == [];
  }

  /** On each target, forwarded plus dropped is what was queued. */
  lemma QueuedIsForwardedOrDropped(target: nat, sent: nat, failed: bool, meta: seq<Meta>)
    requires sent <= |meta|
    ensures Forwards(Recorded(target, sent, failed, meta), target) == sent
    ensures Drops(Recorded(target, sent, failed, meta), target) == |meta| - sent
  {
    hide Forwards, Drops, ForwardEvents, DropEvents;
    var head := if failed then [EgressError(target)] else [];
    var fwd, drp := ForwardEvents(target, meta[..sent]), DropEvents(target, meta[sent..]);
    CountsOfForwards(target, meta[..sent]);
    CountsOfDrops(target, meta[sent..]);
    CountsOfError(target);
    CountsAdd(head, fwd, target);
    CountsAdd(head + fwd, drp, target);
  }
}
