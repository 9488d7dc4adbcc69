/**
 The forwarder's BEEF methods (forwarder/beef.go) on frame buffers written in place, each proved
 against its specification in Beef.
 */
module BeefForwarder {
  import opened Bytes
  import opened SeqSpace
  import opened Fragment
  import opened Beef
  import opened Stamping
  import Claims
  import RateLimit

  class Forwarder {
    const cfg: Setup
    const chains: Chains
    const limiter: RateLimit.BeefLimiter
    var store: set<Hash>
    var queue: seq<Wire>

    ghost predicate Valid()
      reads this, chains, chains.cells, limiter
    {
      chains.Valid() && chains.hashKey == cfg.hashKey && limiter.cfg == cfg.limits
    }

    ghost function View(): Plane
      reads this, chains, limiter
    {
      Plane(limiter.View(), store, chains.counts)
    }

    constructor (cfg: Setup, hash32: Ip -> nat)
      ensures Valid() && this.cfg == cfg && fresh(chains) && fresh(chains.cells) && fresh(limiter)
      ensures View() == Plane(RateLimit.NewLimiter(cfg.limits), {}, map[]) && queue == []
    {
      this.cfg := cfg;
      chains := new Chains(hash32, cfg.hashKey);
      limiter := new RateLimit.BeefLimiter(cfg.limits);
      store, queue := {}, [];
    }

    method ClaimKey(key: Hash) returns (won: bool)
      modifies this`store
      ensures (store, won) == Claims.Claim(cfg.dedup, old(store), key)
    {
      if !cfg.dedup {
        return true;
      }
      won := key !in store;
      store := store + {key};
    }

    /** checkBEEF: writes the DeliverCount into the frame, charges the budget, then claims. */
    method CheckBeef(raw: array<Byte>, src: Option<Source>, at: Moment, checkId: bool) returns (c: Checked)
      requires Valid()
      modifies this`store, limiter, raw
      ensures Valid() && queue == old(queue)
      ensures (View(), raw[..], c) == Check(cfg, old(View()), old(raw[..]), src, at, checkId)
    {
      hide RateLimit.AllowObject, Conformance, Chains.Valid, DeliverCount;
      var bad := Conformance(cfg, raw[..], src);
      if bad.Some? {
        return Refused(bad.value);
      }
      var bf, bytes := Delivered(cfg, raw[..], src).0, Delivered(cfg, raw[..], src).1;
      ghost var was := raw[..];
      if src.Some? {
        raw[7] := bf.deliver;
      }
      assert raw[..] == bytes;
      var d := limiter.AllowOne(LimiterKey(src), raw.Length, at.now, at.scan);
      if d != RateLimit.Allow {
        return Refused(RateLimited(d));
      }
      if checkId && src.Some? && bf.contentId != cfg.contentId(bf.payload) {
        return Refused(BadContentId);
      }
      var won := ClaimKey(cfg.claimKey(bf.contentId, bf.topicId));
      c := if won then Admitted(bf, cfg.groupIndex(bf.topicId)) else Refused(Duplicate);
    }

    /** processBEEF after the checks. */
    method Emit(raw: array<Byte>, bf: BeefFrame, group: nat, src: Option<Source>)
      requires Valid() && raw.Length >= HEADER
      modifies this`queue, chains, chains.cells, raw
      ensures Valid() && fresh(chains.cells - old(chains.cells))
      ensures
        var (t, outs) := EmitNow(cfg, old(View()), old(raw[..]), bf, group, src);
        View() == t && queue == old(queue) + outs
    {
      hide Stamp, Fragmented, Chains.Valid;
      if src.Some? {
        var f := FlowOf(src.value, group);
        if Oversized(cfg, bf) {
          var pieces := FragmentParcel(chains, cfg.enc, ParcelOf(bf, src.value, group), cfg.fragSize);
          queue := queue + ToGroup(pieces, group);
          return;
        }
        assert raw[..raw.Length] == raw[..];
        StampInPlace(chains, cfg.stampSource, raw, raw.Length, f);
        assert raw[..raw.Length] == raw[..];
      }
      queue := queue + [Wire(raw[..], group)];
    }

    /** DispatchBEEF; a null frame is a record PrepareBEEF refused. */
    method DispatchBeef(frame: array?<Byte>, src: Option<Source>, at: Moment)
      requires Valid()
      modifies this, limiter, chains, chains.cells, frame
      ensures Valid() && fresh(chains.cells - old(chains.cells))
      ensures
        var r := Record(if frame == null then None else Some(old(frame[..])), src, at);
        var (t, outs) := InLine(cfg, old(View()), r);
        View() == t && queue == old(queue) + outs
    {
      hide EmitNow, Check, Chains.Valid;
      if frame == null {
        return;
      }
      var c := CheckBeef(frame, src, at, false);
      if c.Admitted? {
        Emit(frame, c.frame, c.group, src);
      }
    }

    /** AdmitBEEF after the checks. */
    method ReserveBlock(raw: array<Byte>, bf: BeefFrame, group: nat, src: Option<Source>) returns (a: Option<Admission>)
      requires Valid() && raw.Length >= HEADER
      modifies chains, chains.cells, raw
      ensures Valid() && fresh(chains.cells - old(chains.cells))
      ensures (View(), a) == Reserve(cfg, old(View()), old(raw[..]), bf, group, src)
    {
      hide Stamp, Ceil, BigEndian, Chains.Valid;
      if src.None? {
        return Some(Unsent(raw[..], bf, group));
      }
      var f, parcel := FlowOf(src.value, group), ParcelOf(bf, src.value, group);
      if Oversized(cfg, bf) {
        var k := Ceil(|bf.payload|, cfg.fragSize);
        if k > MAX_PIECES {
          return None;
        }
        var key, first := chains.ReserveSeq(f, k);
        return Some(Admission(raw[..], parcel, group, key, first, k));
      }
      assert raw[..raw.Length] == raw[..];
      StampInPlace(chains, cfg.stampSource, raw, raw.Length, f);
      assert raw[..raw.Length] == raw[..];
      var key := Uint64(raw, 40);
      var first := Uint64(raw, 48);
      assert raw[40..48] == raw[..][40..48] && raw[48..56] == raw[..][48..56];
      a := Some(Admission(raw[..], parcel, group, key, first, 0));
    }

    /** AdmitBEEF. */
    method AdmitBeef(frame: array?<Byte>, src: Option<Source>, at: Moment) returns (a: Option<Admission>)
      requires Valid()
      modifies this`store, limiter, chains, chains.cells, frame
      ensures Valid() && fresh(chains.cells - old(chains.cells))
      ensures
        var r := Record(if frame == null then None else Some(old(frame[..])), src, at);
        (View(), a) == Admit(cfg, old(View()), r)
    {
      hide Reserve, Check, Chains.Valid;
      if frame == null {
        return None;
      }
      var c := CheckBeef(frame, src, at, false);
      if c.Refused? {
        return None;
      }
      a := ReserveBlock(frame, c.frame, c.group, src);
    }

    /**
     FragmentBEEFInto; alloc(i, n) is the length the caller's allocator returns on its i-th call.
     It reads the admission and the set-up only, so it may run later and beside other records'.
     */
    method FragmentBeefInto(a: Admission, alloc: (nat, nat) -> nat) returns (r: Option<seq<seq<Byte>>>)
      ensures r.Some? ==> r == Build(cfg, a)
      ensures r.None? <==> Build(cfg, a).None? || exists i: nat :: ShortCall(cfg, a, alloc, i)
    {
      hide Encoded, PieceOf, Finish, Wrap64;
      if a.pieces == 0 {
        if alloc(0, |a.raw|) != |a.raw| {
          assert ShortCall(cfg, a, alloc, 0);
          return None;
        }
        return Some([a.raw]);
      }
      ghost var all := PiecesOf(cfg, a);
      var out: seq<seq<Byte>> := [];
      NothingBuilt(cfg, a);
      for i := 0 to a.pieces
        invariant out == Encoded(cfg.enc, a.parcel, all[..i])
        invariant forall j | 0 <= j < i :: cfg.enc(all[j]).Some?
        invariant forall j: nat | j < i :: !ShortCall(cfg, a, alloc, j)
      {
        var size := FRAG_HEADER + |Slice(a.parcel.payload, cfg.fragSize, i * cfg.fragSize)|;
        if alloc(i, size) != size {
          assert ShortCall(cfg, a, alloc, i);
          return None;
        }
        OneMoreBuilt(cfg, a, i);
        var raw := cfg.enc(PieceOf(a.parcel, cfg.fragSize, i, a.pieces, a.hashKey, NthFrom(a.first, i)));
        if raw.None? {
          return None;
        }
        out := out + [Finish(a.parcel, raw.value)];
      }
      assert all[..a.pieces] == all;
      r := Some(out);
    }
  }

  /** The allocator's i-th call, for the bytes of datagram i of the admission, returned another length. */
  predicate ShortCall(cfg: Setup, a: Admission, alloc: (nat, nat) -> nat, i: nat) {
    var size := if a.pieces == 0 then |a.raw| else FRAG_HEADER + |Slice(a.parcel.payload, cfg.fragSize, i * cfg.fragSize)|;
    i < (if a.pieces == 0 then 1 else a.pieces) && alloc(i, size) != size
  }

  lemma NothingBuilt(cfg: Setup, a: Admission)
    ensures Encoded(cfg.enc, a.parcel, PiecesOf(cfg, a)[..0]) == []
  {
  }

  lemma OneMoreBuilt(cfg: Setup, a: Admission, i: nat)
    requires i < a.pieces
    ensures
      var all := PiecesOf(cfg, a);
      var piece := PieceOf(a.parcel, cfg.fragSize, i, a.pieces, a.hashKey, NthFrom(a.first, i));
      && all[i] == piece
      && (cfg.enc(piece).Some? ==>
            Encoded(cfg.enc, a.parcel, all[..i + 1])
            == Encoded(cfg.enc, a.parcel, all[..i]) + [Finish(a.parcel, cfg.enc(piece).value)])
  {
    hide PieceOf, Finish;
    var all := PiecesOf(cfg, a);
    assert all[..i + 1][..i] == all[..i];
  }
}
