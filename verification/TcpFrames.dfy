/**
 The framed TCP lane (worker/tcp.go): the stream parser of handleConn, and the cadence
 by which tcpBatcher and flushingReader drain what the frames left in the egress.
 */
module TcpFrames {
  import opened Bytes
  import opened Fragment
  import opened SeqSpace
  import P = Pipeline
  import Claims
  import Coalesce
  import Stamping

  type Frame = seq<Byte>

  const HEADER_LEGACY: nat := 44
  const ANNOUNCE: nat := 64
  const ANNOUNCE_TYPE: Byte := 0x30
  const V1: Byte := 0x01
  const V9: Byte := 0x09
  const MAX_OBJECT: nat := 64 * 1024 * 1024
  const MAX_BATCH: nat := 64

  // ----- What a well-formed frame is -----

  /** FrameVer 0x02, 0x04, 0x05, 0x06 and 0x09 share the 92-byte header. */
  predicate Long(version: Byte) {
    version == 0x02 || version == 0x04 || version == 0x05 || version == 0x06 || version == V9
  }

  /** The bound on a declared payload length: the stream ceiling, and for BEEF the operator's own. */
  predicate WithinBounds(version: Byte, payLen: nat, beefMax: int) {
    payLen <= MAX_OBJECT && (version == V9 && beefMax > 0 ==> payLen <= beefMax)
  }

  /** One complete frame: an announce, a 44-byte-header frame or a 92-byte-header frame. */
  predicate WellFormed(f: Frame, beefMax: int) {
    && |f| >= HEADER_LEGACY
    && Magic(f)
    && (|| (f[6] == ANNOUNCE_TYPE && |f| == ANNOUNCE)
        || (f[6] == V1 && WithinBounds(V1, BigEndian(f[40..44]), beefMax)
            && |f| == HEADER_LEGACY + BigEndian(f[40..44]))
        || (Long(f[6]) && |f| >= HEADER && WithinBounds(f[6], BigEndian(f[88..92]), beefMax)
            && |f| == HEADER + BigEndian(f[88..92])))
  }

  predicate AllWellFormed(fs: seq<Frame>, beefMax: int) {
    forall f <- fs :: WellFormed(f, beefMax)
  }

  function Flatten(chunks: seq<seq<Byte>>): (s: seq<Byte>) {
    if chunks == [] then [] else chunks[0] + Flatten(chunks[1..])
  }

  /** No frame starts s: its head is malformed, out of bounds or cut short. */
  ghost predicate Stuck(s: seq<Byte>, beefMax: int) {
    forall f: Frame :: f <= s ==> !WellFormed(f, beefMax)
  }

  // ----- The form is prefix-free, so a stream reads one way -----

  lemma PrefixFree(f: Frame, g: Frame, s: seq<Byte>, beefMax: int)
    requires f <= s && g <= s
    requires WellFormed(f, beefMax) && WellFormed(g, beefMax)
    ensures f == g
  {
    assert f[6] == s[6] == g[6];
    if f[6] == V1 {
      assert f[40..44] == s[40..44] == g[40..44];
    } else if Long(f[6]) {
      assert f[88..92] == s[88..92] == g[88..92];
    }
    assert |f| == |g|;
  }

  lemma {:induction false} FlattenAppend(a: seq<seq<Byte>>, x: seq<Byte>)
    ensures Flatten(a + [x]) == Flatten(a) + x
  {
    if a == [] {
      assert a + [x] == [x];
    } else {
      FlattenAppend(a[1..], x);
      assert (a + [x])[1..] == a[1..] + [x];
    }
  }

  /** The greedy reading is the longest: every other list of frames read off the stream is its prefix. */
  lemma {:induction false} LongestPrefix(fs: seq<Frame>, rest: seq<Byte>, gs: seq<Frame>, beefMax: int)
    requires AllWellFormed(fs, beefMax) && AllWellFormed(gs, beefMax)
    requires Stuck(rest, beefMax)
    requires Flatten(gs) <= Flatten(fs) + rest
    ensures gs <= fs
  {
    hide WellFormed;
    var s := Flatten(fs) + rest;
    if gs != [] {
      assert gs[0] <= Flatten(gs) <= s && WellFormed(gs[0], beefMax);
      assert Flatten([]) + rest == rest;
      assert fs != [];
      assert fs[0] <= s;
      PrefixFree(fs[0], gs[0], s, beefMax);
      assert s == fs[0] + (Flatten(fs[1..]) + rest);
      assert Flatten(fs[1..]) + rest == s[|fs[0]|..];
      assert Flatten(gs[1..]) == Flatten(gs)[|gs[0]|..];
      assert Flatten(gs[1..]) <= Flatten(fs[1..]) + rest;
      LongestPrefix(fs[1..], rest, gs[1..], beefMax);
    }
  }

  /** A stream splits in one way only into frames and a remainder no frame starts. */
  lemma OneReading(fs: seq<Frame>, rest: seq<Byte>, gs: seq<Frame>, tail: seq<Byte>, beefMax: int)
    requires AllWellFormed(fs, beefMax) && AllWellFormed(gs, beefMax)
    requires Stuck(rest, beefMax) && Stuck(tail, beefMax)
    requires Flatten(fs) + rest == Flatten(gs) + tail
    ensures fs == gs && rest == tail
  {
    LongestPrefix(fs, rest, gs, beefMax);
    LongestPrefix(gs, tail, fs, beefMax);
    assert fs == gs;
    assert rest == (Flatten(fs) + rest)[|Flatten(fs)|..];
    assert tail == (Flatten(gs) + tail)[|Flatten(gs)|..];
  }

  // ----- When the loop gives up, no frame was there -----

  lemma StuckShort(s: seq<Byte>, beefMax: int)
    requires |s| < HEADER_LEGACY
    ensures Stuck(s, beefMax)
  {
  }

  lemma StuckHead(s: seq<Byte>, beefMax: int)
    requires |s| >= HEADER_LEGACY
    requires !Magic(s) || (s[6] != ANNOUNCE_TYPE && s[6] != V1 && !Long(s[6]))
             || (s[6] == ANNOUNCE_TYPE && |s| < ANNOUNCE) || (Long(s[6]) && |s| < HEADER)
    ensures Stuck(s, beefMax)
  {
    forall f: Frame | f <= s
      ensures !WellFormed(f, beefMax)
    {
      if |f| >= HEADER_LEGACY {
        assert f[0] == s[0] && f[1] == s[1] && f[2] == s[2] && f[3] == s[3] && f[6] == s[6];
      }
    }
  }

  lemma StuckPayload(s: seq<Byte>, beefMax: int, header: nat, payLen: nat)
    requires |s| >= header
    requires (header == HEADER_LEGACY && s[6] == V1 && payLen == BigEndian(s[40..44]))
             || (header == HEADER && Long(s[6]) && payLen == BigEndian(s[88..92]))
    requires !WithinBounds(s[6], payLen, beefMax) || |s| < header + payLen
    ensures Stuck(s, beefMax)
  {
    forall f: Frame | f <= s
      ensures !WellFormed(f, beefMax)
    {
      if |f| >= header {
        assert f[6] == s[6];
        assert header == HEADER_LEGACY ==> f[40..44] == s[40..44];
        assert header == HEADER ==> f[88..92] == s[88..92];
      }
    }
  }

  // ----- One connection -----

  /** What a kernel read found held in the process when it was issued. */
  datatype Read = Read(bounded: bool, pending: nat, queued: nat, buckets: nat)

  datatype Grammar = Framed | Beef | Bare | Closed

  /** What the object reader makes of the bytes it has: too few to tell, an object of n bytes, or none it takes. */
  datatype Delim = More | Object(n: nat) | Malformed

  /** The object reader of the BEEF and the bare grammar, kept abstract; a record over its bound is malformed. */
  type Delimiter = (Grammar, seq<Byte>) -> Delim

  /** Its law: objects are not empty, and once told, what starts a stream does not depend on what follows. */
  ghost predicate Settled(delim: Delimiter) {
    forall g: Grammar, s: seq<Byte>, t: seq<Byte> ::
      && (delim(g, s).Object? ==> 1 <= delim(g, s).n <= |s| && delim(g, s + t) == delim(g, s))
      && (delim(g, s).Malformed? ==> delim(g, s + t).Malformed?)
  }

  /** The objects a stream starts with. */
  function Objects(delim: Delimiter, g: Grammar, s: seq<Byte>): seq<seq<Byte>> {
    var d := delim(g, s);
    if d.Object? && 1 <= d.n <= |s| then [s[..d.n]] + Objects(delim, g, s[d.n..]) else []
  }

  lemma Told(delim: Delimiter, g: Grammar, s: seq<Byte>, t: seq<Byte>)
    requires Settled(delim)
    ensures delim(g, s).Object? ==> 1 <= delim(g, s).n <= |s| && delim(g, s + t) == delim(g, s)
    ensures delim(g, s).Malformed? ==> delim(g, s + t).Malformed?
  {
    var whole := delim(g, s + t);
    assert delim(g, s).Object? ==> whole == delim(g, s);
  }

  lemma OneObject(delim: Delimiter, g: Grammar, s: seq<Byte>)
    requires delim(g, s).Object? && 1 <= delim(g, s).n <= |s|
    ensures Objects(delim, g, s) == [s[..delim(g, s).n]] + Objects(delim, g, s[delim(g, s).n..])
  {
  }

  lemma NoObject(delim: Delimiter, g: Grammar, s: seq<Byte>)
    requires !delim(g, s).Object?
    ensures Objects(delim, g, s) == []
  {
  }

  // ----- The pipeline's events -----

  /** Where a connection's submissions come from, and the bridging state each of them meets. */
  datatype Peer = Peer(src: Option<Ip>, lane: P.Class, bridges: nat -> P.Bridge)

  /** The k-th submission of a connection: announcements take the control path, everything else DispatchClass. */
  function FrameEvent(peer: Peer, k: nat, f: Frame): P.Event {
    if |f| > 6 && f[6] == ANNOUNCE_TYPE then P.Announce(f) else P.Datagram(f, peer.src, peer.lane, peer.bridges(k))
  }

  /** A record of the BEEF grammar is dispatched like a datagram, a bare transaction as itself. */
  function ObjectEvent(peer: Peer, g: Grammar, k: nat, x: seq<Byte>): P.Event {
    if g.Bare? then P.Bare(x, peer.src, peer.bridges(k)) else P.Datagram(x, peer.src, peer.lane, peer.bridges(k))
  }

  function FrameEvents(peer: Peer, fs: seq<Frame>): seq<P.Event> {
    if fs == [] then []
    else FrameEvents(peer, fs[..|fs| - 1]) + [FrameEvent(peer, |fs| - 1, fs[|fs| - 1])]
  }

  function ObjectEvents(peer: Peer, g: Grammar, xs: seq<seq<Byte>>): seq<P.Event> {
    if xs == [] then []
    else ObjectEvents(peer, g, xs[..|xs| - 1]) + [ObjectEvent(peer, g, |xs| - 1, xs[|xs| - 1])]
  }

  /** The submissions among events, the ends of batches left out. */
  function Submissions(events: seq<P.Event>): seq<P.Event> {
    if events == [] then []
    else
      var e := events[|events| - 1];
      Submissions(events[..|events| - 1]) + if e.BatchEnd? then [] else [e]
  }

  lemma SubmitOne(events: seq<P.Event>, e: P.Event)
    ensures Submissions(events + [e]) == Submissions(events) + if e.BatchEnd? then [] else [e]
  {
    assert (events + [e])[..|events|] == events;
  }

  lemma NoEvents(peer: Peer, g: Grammar)
    ensures FrameEvents(peer, []) == [] && ObjectEvents(peer, g, []) == []
  {
  }

  lemma EventsOne(peer: Peer, g: Grammar, fs: seq<Frame>, f: Frame)
    ensures FrameEvents(peer, fs + [f]) == FrameEvents(peer, fs) + [FrameEvent(peer, |fs|, f)]
    ensures ObjectEvents(peer, g, fs + [f]) == ObjectEvents(peer, g, fs) + [ObjectEvent(peer, g, |fs|, f)]
  {
    assert (fs + [f])[..|fs|] == fs;
  }

  lemma EmitGrows(cfg: P.Setup, s: P.Pipe, p: P.Plan, bridge: P.Bridge)
    requires P.Sound(p)
    ensures s.queue <= P.Emit(cfg, s, p, bridge).queue
  {
    hide Stamping.Stamp, Stamping.SeqOf, P.WholeItems, Ceil, P.PieceItems, Coalesce.AddTo, Pieces, Draws, P.Bundles, Wrap64;
  }

  lemma FlushGrows(cfg: P.Setup, s: P.Pipe)
    ensures s.queue <= P.EndBatch(cfg, s).queue
  {
    hide Coalesce.Flushed, P.PartsTotal, P.BundleItems;
  }

  lemma QueueGrows(cfg: P.Setup, s: P.Pipe, e: P.Event)
    ensures s.queue <= P.Handle(cfg, s, e).queue
  {
    hide P.PlanFor, P.BridgeOf, P.Emit, P.EndBatch;
    FlushGrows(cfg, s);
    var p := P.PlanFor(cfg, e);
    if p.Some? {
      P.PlanForSound(cfg, e);
      var key := p.value.key;
      var store := if key.None? then s.store else Claims.Claim(cfg.dedup, s.store, key.value).0;
      EmitGrows(cfg, s.(store := store), p.value, P.BridgeOf(e));
    }
  }

  lemma WrittenMore(queue: seq<P.Item>, more: seq<P.Item>, out: nat)
    requires queue <= more && out <= |queue|
    ensures more[..out] == queue[..out] && P.Wires(more) == P.Wires(queue[..out]) + P.Wires(more[out..])
  {
    P.WiresJoin(more[..out], more[out..]);
    assert more[..out] + more[out..] == more;
  }

  class Conn {
    const cfg: P.Setup
    const peer: Peer
    const beefMax: int
    const delim: Delimiter
    const linger: bool                 // an accumulate window is configured and coalescing is armed
    var chunks: seq<seq<Byte>>         // what the kernel has still to deliver, read by read
    var buf: seq<Byte>                 // bufio's buffer
    var pending: nat                   // tcpBatcher.pending
    var pipe: P.Pipe                   // the pipeline: egress queue, coalescing buffer, counters and claims
    var out: nat                       // how much of the queue was handed to the writers
    var written: seq<Wire>             // what the writers were handed, in order
    ghost var events: seq<P.Event>     // what the pipeline was given
    ghost var log: seq<Read>           // every kernel read issued

    constructor (cfg: P.Setup, peer: Peer, beefMax: int, linger: bool, delim: Delimiter, chunks: seq<seq<Byte>>)
      requires forall c <- chunks :: c != []
      ensures Valid() && Stream() == Flatten(chunks) && log == [] && events == []
      ensures this.cfg == cfg && this.peer == peer && this.beefMax == beefMax && this.linger == linger && this.delim == delim
    {
      this.cfg, this.peer, this.beefMax, this.linger, this.delim := cfg, peer, beefMax, linger, delim;
      this.chunks, buf, pending := chunks, [], 0;
      pipe, out, written := P.FRESH, 0, [];
      events, log := [], [];
    }

    ghost function Stream(): seq<Byte>
      reads this
    {
      buf + Flatten(chunks)
    }

    ghost predicate Valid()
      reads this
    {
      Consistent() && pending < MAX_BATCH
    }

    ghost predicate Consistent()
      reads this
    {
      && (forall c <- chunks :: c != [])
      && Tracks()
      && (pending == 0 ==> Drained())
      && CadenceKept()
    }

    /** The pipeline served the events, and what was written is the head of its queue: none is lost or doubled. */
    ghost predicate Tracks()
      reads this
    {
      pipe == P.Served(cfg, events) && out <= |pipe.queue| && written == P.Wires(pipe.queue[..out])
    }

    /** Nothing is left to write or to bundle. */
    ghost predicate Drained()
      reads this
    {
      out == |pipe.queue| && pipe.buckets == []
    }

    /** Every read that could block without limit was issued with nothing held. */
    ghost predicate CadenceKept()
      reads this
    {
      forall r <- log :: if r.bounded then linger else r.pending == r.queued == r.buckets == 0
    }

    /** Everything submitted so far is on the wire as the pipeline orders it. */
    ghost predicate AllOut()
      reads this
    {
      Tracks() && Drained() && written == P.Wires(P.Served(cfg, events).queue)
    }

    /** flushEgr: bundle the members, then write the queue. */
    method FlushEgress()
      requires Consistent()
      modifies this`pipe, this`out, this`written, this`events
      ensures AllOut() && CadenceKept() && Submissions(events) == old(Submissions(events))
    {
      hide P.Handle, P.Served, Submissions, P.Wires, P.EndBatch;
      P.ServedOne(cfg, events, P.BatchEnd);
      P.EndIsEndBatch(cfg, pipe);
      QueueGrows(cfg, pipe, P.BatchEnd);
      SubmitOne(events, P.BatchEnd);
      WrittenMore(pipe.queue, P.EndBatch(cfg, pipe).queue, out);
      pipe, events := P.EndBatch(cfg, pipe), events + [P.BatchEnd];
      written, out := written + P.Wires(pipe.queue[out..]), |pipe.queue|;
      assert pipe.queue[..out] == pipe.queue;
    }

    /** tcpBatcher.flush */
    method FlushBatch()
      requires Consistent()
      modifies this`pipe, this`out, this`written, this`events, this`pending
      ensures Valid() && pending == 0 && Submissions(events) == old(Submissions(events))
    {
      hide P.Served, Submissions, P.Wires;
      if pending > 0 {
        FlushEgress();
        pending := 0;
      }
    }

    /** One read of the socket; with no data left it fails. */
    method ReadSocket(bounded: bool) returns (ok: bool)
      requires Valid()
      requires if bounded then linger else pending == 0
      modifies this`chunks, this`buf, this`log
      ensures Valid() && Stream() == old(Stream())
      ensures ok == (old(chunks) != []) && (ok ==> |chunks| < |old(chunks)|)
      ensures if ok then |buf| > |old(buf)| else buf == old(buf) && chunks == []
    {
      hide P.Served, P.Wires;
      log := log + [Read(bounded, pending, |pipe.queue| - out, |pipe.buckets|)];
      ok := chunks != [];
      if ok {
        assert chunks[0] in chunks && forall c <- chunks[1..] :: c in chunks;
        buf, chunks := buf + chunks[0], chunks[1..];
      }
    }

    /** flushingReader.Read, with the peer deciding whether the window elapses. */
    method ReadKernel() returns (ok: bool)
      requires Valid()
      modifies this
      ensures Valid() && Stream() == old(Stream()) && Submissions(events) == old(Submissions(events))
      ensures ok == (old(chunks) != []) && (ok ==> |chunks| < |old(chunks)|)
      ensures if ok then |buf| > |old(buf)| else buf == old(buf) && chunks == []
    {
      hide P.Served, P.Wires, Submissions;
      if linger && pending > 0 {
        var timeout: bool := *;
        if !timeout {
          ok := ReadSocket(true);
          return;
        }
        log := log + [Read(true, pending, |pipe.queue| - out, |pipe.buckets|)];
      }
      FlushBatch();
      ok := ReadSocket(false);
    }

    /** io.ReadFull through bufio. */
    method ReadFull(n: nat) returns (r: Option<seq<Byte>>)
      requires Valid()
      modifies this
      ensures Valid() && Submissions(events) == old(Submissions(events))
      ensures r.Some? <==> |old(Stream())| >= n
      ensures r.Some? ==> r.value == old(Stream())[..n] && Stream() == old(Stream())[n..]
    {
      hide P.Served, P.Wires, Submissions;
      while |buf| < n
        invariant Valid() && Stream() == old(Stream()) && Submissions(events) == old(Submissions(events))
        decreases |chunks|
      {
        var ok := ReadKernel();
        if !ok {
          return None;
        }
      }
      assert Stream()[..n] == buf[..n];
      assert Stream()[n..] == buf[n..] + Flatten(chunks);
      r := Some(buf[..n]);
      buf := buf[n..];
    }

    /** Grammar detection: Peek(4) consumes nothing. */
    method Detect() returns (g: Grammar)
      requires Valid()
      modifies this
      ensures Valid() && Stream() == old(Stream()) && Submissions(events) == old(Submissions(events))
      ensures g == if |Stream()| < 4 then Closed
                   else if Stream()[0] == 0xBE && Stream()[1] == 0xEF then Grammar.Beef
                   else if Magic(Stream()) then Framed else Bare
    {
      hide P.Served, P.Wires, Submissions;
      while |buf| < 4
        invariant Valid() && Stream() == old(Stream()) && Submissions(events) == old(Submissions(events))
        decreases |chunks|
      {
        var ok := ReadKernel();
        if !ok {
          return Closed;
        }
      }
      g := if buf[0] == 0xBE && buf[1] == 0xEF then Grammar.Beef else if Magic(buf) then Framed else Bare;
    }

    /** Dispatch of one submission through the pipeline; then tcpBatcher.add. */
    method Dispatch(e: P.Event)
      requires Valid() && !e.BatchEnd?
      modifies this`pipe, this`out, this`written, this`events, this`pending
      ensures Valid() && Stream() == old(Stream()) && Submissions(events) == old(Submissions(events)) + [e]
    {
      hide P.Handle, P.Served, P.Wires, Submissions;
      P.ServedOne(cfg, events, e);
      QueueGrows(cfg, pipe, e);
      SubmitOne(events, e);
      WrittenMore(pipe.queue, P.Handle(cfg, pipe, e).queue, out);
      pipe, events := P.Handle(cfg, pipe, e), events + [e];
      pending := pending + 1;
      if pending >= MAX_BATCH {
        FlushBatch();
      }
    }

    /** One turn of the loop: read the next frame, or give up. */
    method ReadFrame() returns (r: Option<Frame>)
      requires Valid()
      modifies this
      ensures Valid() && Submissions(events) == old(Submissions(events))
      ensures r.Some? ==> WellFormed(r.value, beefMax) && old(Stream()) == r.value + Stream()
      ensures r.None? ==> Stuck(old(Stream()), beefMax)
    {
      hide BigEndian, Flatten, Conn.Tracks, Conn.Drained, Conn.CadenceKept, Conn.Stream, Submissions;
      ghost var s := Stream();
      var head := ReadFull(HEADER_LEGACY);
      if head.None? {
        StuckShort(s, beefMax);
        return None;
      }
      var hdr := head.value;
      if !Magic(hdr) {
        StuckHead(s, beefMax);
        return None;
      }
      var payLen: nat;
      if hdr[6] == ANNOUNCE_TYPE {
        var ext := ReadFull(ANNOUNCE - HEADER_LEGACY);
        if ext.None? {
          StuckHead(s, beefMax);
          return None;
        }
        assert s == hdr + ext.value + Stream();
        return Some(hdr + ext.value);
      } else if hdr[6] == V1 {
        payLen := BigEndian(hdr[40..44]);
        assert hdr[40..44] == s[40..44];
      } else if Long(hdr[6]) {
        var ext := ReadFull(HEADER - HEADER_LEGACY);
        if ext.None? {
          StuckHead(s, beefMax);
          return None;
        }
        hdr := hdr + ext.value;
        payLen := BigEndian(hdr[88..92]);
        assert hdr == s[..HEADER];
        assert hdr[88..92] == s[88..92];
      } else {
        StuckHead(s, beefMax);
        return None;
      }
      assert hdr == s[..|hdr|] && Stream() == s[|hdr|..];
      if !WithinBounds(hdr[6], payLen, beefMax) {
        StuckPayload(s, beefMax, |hdr|, payLen);
        return None;
      }
      var payload := ReadFull(payLen);
      if payload.None? {
        StuckPayload(s, beefMax, |hdr|, payLen);
        return None;
      }
      r := Some(hdr + payload.value);
      assert s == hdr + payload.value + Stream();
      assert hdr[40..44] == r.value[40..44];
      assert |hdr| == HEADER ==> hdr[88..92] == r.value[88..92];
    }

    /**
     The framed loop, from the first byte to the close and the tail flush: what it dispatches
     is the stream's frames, in order, up to a remainder no frame starts.
     */
    method HandleFramed() returns (dispatched: seq<Frame>, ghost rest: seq<Byte>)
      requires Valid() && Submissions(events) == []
      modifies this
      ensures AllWellFormed(dispatched, beefMax)
      ensures old(Stream()) == Flatten(dispatched) + rest && Stuck(rest, beefMax)
      ensures CadenceKept()
      ensures AllOut() && Submissions(events) == FrameEvents(peer, dispatched)
    {
      hide BigEndian, Conn.CadenceKept, Conn.Stream, Conn.Tracks, Conn.Drained, Conn.AllOut, Submissions, FrameEvents, FrameEvent;
      dispatched, rest := [], Stream();
      NoEvents(peer, Framed);
      while true
        invariant Valid() && AllWellFormed(dispatched, beefMax)
        invariant Submissions(events) == FrameEvents(peer, dispatched)
        invariant rest == Stream() && old(Stream()) == Flatten(dispatched) + rest
        decreases |rest|
      {
        var r := ReadFrame();
        if r.None? {
          break;
        }
        FrameIsNoEnd(peer, |dispatched|, r.value);
        EventsOne(peer, Framed, dispatched, r.value);
        Dispatch(FrameEvent(peer, |dispatched|, r.value));
        FlattenAppend(dispatched, r.value);
        dispatched := dispatched + [r.value];
        rest := Stream();
      }
      FlushEgress();
    }

    /** The object reader's Next: it reads on until it can tell. */
    method NextObject(g: Grammar) returns (r: Option<seq<Byte>>)
      requires Valid() && Settled(delim)
      modifies this
      ensures Valid() && Submissions(events) == old(Submissions(events))
      ensures r.Some? ==> r.value != [] && delim(g, old(Stream())) == Object(|r.value|) && old(Stream()) == r.value + Stream()
      ensures r.None? ==> !delim(g, old(Stream())).Object?
    {
      hide P.Served, P.Wires, Submissions, Settled;
      while delim(g, buf).More?
        invariant Valid() && Stream() == old(Stream()) && Submissions(events) == old(Submissions(events))
        decreases |chunks|
      {
        var ok := ReadKernel();
        if !ok {
          assert Stream() == buf;
          return None;
        }
      }
      Told(delim, g, buf, Flatten(chunks));
      if delim(g, buf).Malformed? {
        return None;
      }
      var n := delim(g, buf).n;
      r := Some(buf[..n]);
      assert Stream() == buf[..n] + (buf[n..] + Flatten(chunks));
      buf := buf[n..];
    }

    /** handleBEEFConn and handleBareConn, from the first byte to the close and the tail flush. */
    method HandleObjects(g: Grammar) returns (objects: seq<seq<Byte>>)
      requires Valid() && Settled(delim) && Submissions(events) == []
      modifies this
      ensures objects == Objects(delim, g, old(Stream()))
      ensures CadenceKept()
      ensures AllOut() && Submissions(events) == ObjectEvents(peer, g, objects)
    {
      hide Conn.CadenceKept, Conn.Stream, Conn.Tracks, Conn.Drained, Conn.AllOut, Settled, Objects, Submissions, ObjectEvents, ObjectEvent;
      objects := [];
      NoEvents(peer, g);
      ghost var rest := Stream();
      while true
        invariant Valid() && rest == Stream() && Submissions(events) == ObjectEvents(peer, g, objects)
        invariant Objects(delim, g, old(Stream())) == objects + Objects(delim, g, rest)
        decreases |rest|
      {
        var r := NextObject(g);
        if r.None? {
          NoObject(delim, g, rest);
          break;
        }
        assert rest[..|r.value|] == r.value && rest[|r.value|..] == Stream();
        OneObject(delim, g, rest);
        ObjectIsNoEnd(peer, g, |objects|, r.value);
        EventsOne(peer, g, objects, r.value);
        Dispatch(ObjectEvent(peer, g, |objects|, r.value));
        objects := objects + [r.value];
        rest := Stream();
      }
      FlushEgress();
    }

    /** handleConn: the grammar is told by the first four bytes, and the lane of that grammar reads the whole stream. */
    method HandleConn() returns (g: Grammar, frames: seq<Frame>, objects: seq<seq<Byte>>, ghost rest: seq<Byte>)
      requires Valid() && Settled(delim) && Submissions(events) == []
      modifies this
      ensures CadenceKept()
      ensures g.Framed? <==> Magic(old(Stream()))
      ensures if g.Framed?
              then AllWellFormed(frames, beefMax) && old(Stream()) == Flatten(frames) + rest && Stuck(rest, beefMax)
              else frames == []
      ensures objects == if g.Beef? || g.Bare? then Objects(delim, g, old(Stream())) else []
      ensures AllOut()
      ensures Submissions(events) == if g.Framed? then FrameEvents(peer, frames) else ObjectEvents(peer, g, objects)
    {
      rest := Stream();
      g := Detect();
      frames, objects := [], [];
      if g.Framed? {
        frames, rest := HandleFramed();
      } else if g.Beef? || g.Bare? {
        objects := HandleObjects(g);
      } else {
        FlushEgress();
      }
    }
  }

  lemma FrameIsNoEnd(peer: Peer, k: nat, f: Frame)
    ensures !FrameEvent(peer, k, f).BatchEnd?
  {
  }

  lemma ObjectIsNoEnd(peer: Peer, g: Grammar, k: nat, x: seq<Byte>)
    ensures !ObjectEvent(peer, g, k, x).BatchEnd?
  {
  }

  lemma FramesLeadWithMagic(sent: seq<Frame>, tail: seq<Byte>, beefMax: int)
    requires sent != [] && AllWellFormed(sent, beefMax)
    ensures Magic(Flatten(sent) + tail)
  {
    assert WellFormed(sent[0], beefMax);
    assert sent[0] <= Flatten(sent) + tail;
  }

  // ----- Without coalescing, how the stream was chunked does not show -----

  lemma {:induction false} NothingBuffered(cfg: P.Setup, events: seq<P.Event>)
    requires !cfg.coalesce
    ensures P.Served(cfg, events).buckets == []
  {
    hide P.PlanFor, P.BridgeOf, P.PieceItems, P.WholeItems, Stamping.Stamp, Ceil, Coalesce.Flushed, P.PartsTotal, P.BundleItems;
    if events != [] {
      NothingBuffered(cfg, events[..|events| - 1]);
    }
  }

  lemma EmptyBatch(cfg: P.Setup, s: P.Pipe)
    requires s.buckets == []
    ensures P.EndBatch(cfg, s) == s
  {
    assert P.BundleItems(cfg.bundleEnc, []) == [];
    assert s.queue + [] == s.queue;
  }

  /** With nothing to bundle, where batches end makes no difference. */
  lemma {:induction false} EndsDoNotMatter(cfg: P.Setup, events: seq<P.Event>)
    requires !cfg.coalesce
    ensures P.Served(cfg, events) == P.Served(cfg, Submissions(events))
  {
    if events != [] {
      var before, e := events[..|events| - 1], events[|events| - 1];
      EndsDoNotMatter(cfg, before);
      NothingBuffered(cfg, before);
      EmptyBatch(cfg, P.Served(cfg, before));
      P.EndIsEndBatch(cfg, P.Served(cfg, before));
      P.ServedOne(cfg, Submissions(before), e);
      hide P.Handle, P.EndBatch;
      assert Submissions(before) + [] == Submissions(before);
      assert P.Served(cfg, events) == P.Handle(cfg, P.Served(cfg, before), e);
    }
  }

  /**
   Whatever frames a peer sends, however the network chunks them, and whatever stub follows them, the lane
   submits exactly those frames to the pipeline, in order, and writes exactly what the pipeline queues for
   them. Without coalescing that is a function of the frames alone.
   */
  method DispatchesTheListSent(
      cfg: P.Setup, peer: Peer, beefMax: int, linger: bool, delim: Delimiter,
      sent: seq<Frame>, tail: seq<Byte>, chunks: seq<seq<Byte>>)
    returns (dispatched: seq<Frame>, written: seq<Wire>, ghost events: seq<P.Event>)
    requires AllWellFormed(sent, beefMax) && Stuck(tail, beefMax) && Settled(delim)
    requires Flatten(chunks) == Flatten(sent) + tail && forall c <- chunks :: c != []
    ensures dispatched == sent
    ensures sent != [] ==> Submissions(events) == FrameEvents(peer, sent) && written == P.Wires(P.Served(cfg, events).queue)
    ensures sent != [] && !cfg.coalesce ==> written == P.Wires(P.Served(cfg, FrameEvents(peer, sent)).queue)
  {
    hide WellFormed, Magic, Settled, P.Served, P.Wires, Submissions, FrameEvents;
    var conn := new Conn(cfg, peer, beefMax, linger, delim, chunks);
    NoSubmissions();
    var g, objects;
    ghost var rest;
    g, dispatched, objects, rest := conn.HandleConn();
    written, events := conn.written, conn.events;
    if g.Framed? {
      OneReading(sent, tail, dispatched, rest, beefMax);
      if !cfg.coalesce {
        EndsDoNotMatter(cfg, events);
      }
    } else if sent != [] {
      FramesLeadWithMagic(sent, tail, beefMax);
    }
  }

  lemma NoSubmissions()
    ensures Submissions([]) == []
  {
  }
}
