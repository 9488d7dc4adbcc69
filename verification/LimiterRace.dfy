/**
 The limiter under concurrent callers (forwarder/ratelimit.go, allow). The table is guarded by one mutex and
 each bucket by its own, so a call is five steps: the lookup, which may evict; the two charges of the buckets
 it was given a pointer to, even if they have left the table since; and the two charges of the plane.
 */
module LimiterRace {
  import opened Bytes
  import opened RateLimit

  /** A source's buckets behind a pointer, with every charge made on them; top is the latest instant of a call given it. */
  datatype Cell = Cell(key: string, obj: Bucket, byt: Bucket, seen: real, top: real,
                       objLog: seq<Arrival>, bytLog: seq<Arrival>)

  datatype Call = Call(key: string, n: nat, now: Time, scan: seq<string>)

  /** Where a caller is inside allow. */
  datatype Pc =
    | Idle
    | Held(call: Call, cell: nat)        // the mutex is released, the pointer kept
    | ObjectPaid(call: Call, cell: nat)
    | SourcePaid(call: Call)
    | PlanePaid(call: Call)

  datatype Outcome = Outcome(call: Call, decision: Decision)

  datatype Door = Door(
    table: map<string, nat>, cells: seq<Cell>, planeObj: Bucket, planeByt: Bucket,
    planeObjLog: seq<Arrival>, planeBytLog: seq<Arrival>, planeCalls: seq<Call>,
    callers: seq<Pc>, evicted: seq<string>, outcomes: seq<Outcome>)

  datatype Action = Lookup(t: nat, call: Call) | Object(t: nat) | Bytes(t: nat) | PlaneObject(t: nat) | PlaneBytes(t: nat)

  function Opened(cfg: Config, callers: nat): Door {
    Door(map[], [], NewBucket(cfg.planeObj, cfg.planeObj), NewBucket(cfg.planeByt, cfg.planeByt), [], [], [],
         seq(callers, i => Idle), [], [])
  }

  /** The table as a map of buckets. */
  function Sources(s: Door): map<string, Source> {
    map k | k in s.table && s.table[k] < |s.cells| ::
      var c := s.cells[s.table[k]];
      Source(c.obj, c.byt, c.seen)
  }

  predicate Enabled(s: Door, a: Action) {
    a.t < |s.callers| &&
    match a
    case Lookup(t, call) =>
      s.callers[t].Idle? && call.key != ""
      && (forall k <- call.scan :: k in s.table) && (forall k | k in s.table :: k in call.scan)
    case Object(t) => s.callers[t].Held? && s.callers[t].cell < |s.cells|
    case Bytes(t) => s.callers[t].ObjectPaid? && s.callers[t].cell < |s.cells|
    case PlaneObject(t) => s.callers[t].SourcePaid?
    case PlaneBytes(t) => s.callers[t].PlanePaid?
  }

  function Goto(s: Door, t: nat, pc: Pc): Door
    requires t < |s.callers|
  {
    s.(callers := s.callers[t := pc])
  }

  function Done(s: Door, t: nat, call: Call, d: Decision): Door
    requires t < |s.callers|
  {
    Goto(s, t, Idle).(outcomes := s.outcomes + [Outcome(call, d)])
  }

  /** The table with room for one more: unchanged below the cap, without its least recent source at it. */
  function Room(cfg: Config, s: Door, scan: seq<string>): (map<string, nat>, seq<string>) {
    if |s.table| < Cap(cfg) then (s.table, s.evicted)
    else
      var victim := Oldest(Sources(s), scan).0;
      if victim != "" then (s.table - {victim}, s.evicted + [victim]) else (s.table, s.evicted)
  }

  function Entering(cfg: Config, call: Call): Cell {
    Cell(call.key, NewBucket(cfg.srcObj, cfg.srcObj), NewBucket(cfg.srcByt, cfg.srcByt), call.now, call.now, [], [])
  }

  function LookupStep(cfg: Config, s: Door, t: nat, call: Call): Door
    requires t < |s.callers|
  {
    if !SourceTier(cfg) then Goto(s, t, SourcePaid(call))
    else if call.key in s.table && s.table[call.key] < |s.cells| then
      var id := s.table[call.key];
      var c := s.cells[id];
      Goto(s.(cells := s.cells[id := c.(seen := call.now, top := Max(c.top, call.now))]), t, Held(call, id))
    else
      var (table, evicted) := Room(cfg, s, call.scan);
      Goto(s.(table := table[call.key := |s.cells|], evicted := evicted, cells := s.cells + [Entering(cfg, call)]),
           t, Held(call, |s.cells|))
  }

  function Step(cfg: Config, s: Door, a: Action): Door {
    if !Enabled(s, a) then s
    else
      match a
      case Lookup(t, call) => LookupStep(cfg, s, t, call)
      case Object(t) =>
        var Held(call, id) := s.callers[t];
        var c := s.cells[id];
        var (obj, ok) := AllowN(c.obj, call.now, 1.0);
        var u := s.(cells := s.cells[id := c.(obj := obj, objLog := c.objLog + [Arrival(call.now, 1.0)])]);
        if ok then Goto(u, t, ObjectPaid(call, id)) else Done(u, t, call, DenySource)
      case Bytes(t) =>
        var ObjectPaid(call, id) := s.callers[t];
        var c := s.cells[id];
        var (byt, ok) := AllowN(c.byt, call.now, call.n as real);
        var u := s.(cells := s.cells[id := c.(byt := byt, bytLog := c.bytLog + [Arrival(call.now, call.n as real)])]);
        if ok then Goto(u, t, SourcePaid(call)) else Done(u, t, call, DenySource)
      case PlaneObject(t) =>
        var SourcePaid(call) := s.callers[t];
        var (obj, ok) := AllowN(s.planeObj, call.now, 1.0);
        var u := s.(planeObj := obj, planeObjLog := s.planeObjLog + [Arrival(call.now, 1.0)],
                    planeCalls := s.planeCalls + [call]);
        if ok then Goto(u, t, PlanePaid(call)) else Done(u, t, call, DenyPlane)
      case PlaneBytes(t) =>
        var PlanePaid(call) := s.callers[t];
        var (byt, ok) := AllowN(s.planeByt, call.now, call.n as real);
        Done(s.(planeByt := byt, planeBytLog := s.planeBytLog + [Arrival(call.now, call.n as real)]), t, call,
             if ok then Allow else DenyPlane)
  }

  function Run(cfg: Config, callers: nat, actions: seq<Action>): Door {
    if actions == [] then Opened(cfg, callers)
    else Step(cfg, Run(cfg, callers, actions[..|actions| - 1]), actions[|actions| - 1])
  }

  // ----- What every interleaving keeps -----

  /** Each bucket is what its own charges made of it, whoever made them and whenever. */
  ghost predicate CellInv(cfg: Config, c: Cell) {
    && c.key != "" && c.seen > 0.0
    && c.obj == After(NewBucket(cfg.srcObj, cfg.srcObj), c.objLog)
    && c.byt == After(NewBucket(cfg.srcByt, cfg.srcByt), c.bytLog)
  }

  ghost predicate TableInv(cfg: Config, s: Door) {
    && |s.table| <= Cap(cfg)
    && (forall k | k in s.table :: s.table[k] < |s.cells| && s.cells[s.table[k]].key == k)
  }

  ghost predicate PlaneInv(cfg: Config, s: Door) {
    && s.planeObj == After(NewBucket(cfg.planeObj, cfg.planeObj), s.planeObjLog)
    && s.planeByt == After(NewBucket(cfg.planeByt, cfg.planeByt), s.planeBytLog)
  }

  /** How many lives a source has had: cells made for it. */
  function Lives(cells: seq<Cell>, key: string): nat {
    if cells == [] then 0
    else Lives(cells[..|cells| - 1], key) + if cells[|cells| - 1].key == key then 1 else 0
  }

  function Evictions(evicted: seq<string>, key: string): nat {
    if evicted == [] then 0
    else Evictions(evicted[..|evicted| - 1], key) + if evicted[|evicted| - 1] == key then 1 else 0
  }

  ghost predicate LivesInv(s: Door) {
    forall key :: Lives(s.cells, key) == Evictions(s.evicted, key) + if key in s.table then 1 else 0
  }

  ghost predicate Inv(cfg: Config, s: Door) {
    && (forall i | 0 <= i < |s.cells| :: CellInv(cfg, s.cells[i]))
    && TableInv(cfg, s) && PlaneInv(cfg, s) && LivesInv(s)
  }

  lemma {:induction false} LivesSame(cells: seq<Cell>, id: nat, c: Cell, key: string)
    requires id < |cells| && c.key == cells[id].key
    ensures Lives(cells[id := c], key) == Lives(cells, key)
  {
    var k := |cells| - 1;
    if id == k {
      assert cells[id := c][..k] == cells[..k];
    } else {
      LivesSame(cells[..k], id, c, key);
      assert cells[id := c][..k] == cells[..k][id := c];
    }
  }

  lemma LivesMore(cells: seq<Cell>, c: Cell, key: string)
    ensures Lives(cells + [c], key) == Lives(cells, key) + if c.key == key then 1 else 0
  {
    assert (cells + [c])[..|cells|] == cells;
  }

  lemma EvictionsMore(evicted: seq<string>, k: string, key: string)
    ensures Evictions(evicted + [k], key) == Evictions(evicted, key) + if k == key then 1 else 0
  {
    assert (evicted + [k])[..|evicted|] == evicted;
  }

  lemma AfterMore(b: Bucket, log: seq<Arrival>, a: Arrival)
    ensures After(b, log + [a]) == AllowN(After(b, log), a.now, a.n).0
  {
    assert (log + [a])[..|log|] == log;
  }

  /** A charge, or a new time of last use, on one cell. */
  lemma CellChanges(cfg: Config, s: Door, t: Door, id: nat)
    requires Inv(cfg, s) && id < |s.cells| && |t.cells| == |s.cells| && t.cells == s.cells[id := t.cells[id]]
    requires t.table == s.table && t.evicted == s.evicted && t.planeObj == s.planeObj && t.planeByt == s.planeByt
    requires t.planeObjLog == s.planeObjLog && t.planeBytLog == s.planeBytLog
    requires CellInv(cfg, t.cells[id]) && t.cells[id].key == s.cells[id].key
    ensures Inv(cfg, t)
  {
    hide CellInv;
    forall key
      ensures Lives(t.cells, key) == Lives(s.cells, key)
    {
      LivesSame(s.cells, id, t.cells[id], key);
    }
    hide Lives, Evictions;
  }

  lemma SourcesTracked(cfg: Config, s: Door)
    requires Inv(cfg, s)
    ensures Tracked(Sources(s)) && Sources(s).Keys == s.table.Keys
  {
    hide After, Lives, Evictions;
    forall k | k in Sources(s)
      ensures k != "" && Sources(s)[k].seen > 0.0
    {
      assert CellInv(cfg, s.cells[s.table[k]]);
    }
  }

  /** A table with room, a part of the one before. */
  ghost predicate RoomTable(cfg: Config, s: Door, table: map<string, nat>) {
    |table| < Cap(cfg) && forall k | k in table :: k in s.table && table[k] == s.table[k]
  }

  /** The evictions that made the room are counted. */
  ghost predicate RoomCounts(s: Door, table: map<string, nat>, evicted: seq<string>) {
    forall key :: Evictions(evicted, key) + (if key in table then 1 else 0)
                  == Evictions(s.evicted, key) + if key in s.table then 1 else 0
  }

  lemma PutId(m: map<string, nat>, k: string, id: nat)
    ensures |m[k := id]| <= |m| + 1
  {
    assert m[k := id].Keys == m.Keys + {k};
  }

  lemma DropId(m: map<string, nat>, k: string)
    requires k in m
    ensures |m - {k}| == |m| - 1
  {
    assert (m - {k}).Keys == m.Keys - {k};
  }

  /** The source a full table gives up. */
  lemma VictimIsTracked(cfg: Config, s: Door, scan: seq<string>)
    requires Inv(cfg, s) && |s.table| >= Cap(cfg) && forall k | k in s.table :: k in scan
    ensures Oldest(Sources(s), scan).0 != "" && Oldest(Sources(s), scan).0 in s.table
  {
    SourcesTracked(cfg, s);
    OldestIsLeast(Sources(s), scan);
    hide Inv, Oldest, Sources;
    assert s.table != map[];
    var any :| any in s.table;
    assert any in scan && any in Sources(s).Keys;
  }

  /** Making room evicts one source of a full table and counts it. */
  lemma RoomKeeps(cfg: Config, s: Door, scan: seq<string>)
    requires Inv(cfg, s) && forall k | k in s.table :: k in scan
    ensures RoomTable(cfg, s, Room(cfg, s, scan).0)
    ensures RoomCounts(s, Room(cfg, s, scan).0, Room(cfg, s, scan).1)
  {
    assert |s.table| <= Cap(cfg);
    if |s.table| >= Cap(cfg) {
      VictimIsTracked(cfg, s, scan);
      hide Inv, Oldest, Sources, Cap, RoomCounts;
      var victim := Oldest(Sources(s), scan).0;
      DropId(s.table, victim);
      VictimCounted(s, victim);
    } else {
      hide Inv, Oldest, Sources, Cap;
    }
  }

  lemma VictimCounted(s: Door, victim: string)
    requires victim in s.table
    ensures RoomCounts(s, s.table - {victim}, s.evicted + [victim])
  {
    hide Evictions;
    forall key
      ensures Evictions(s.evicted + [victim], key) == Evictions(s.evicted, key) + if victim == key then 1 else 0
    {
      EvictionsMore(s.evicted, victim, key);
    }
  }

  lemma EnterKeeps(cfg: Config, s: Door, t: nat, call: Call)
    requires Inv(cfg, s) && Enabled(s, Lookup(t, call)) && call.key !in s.table && SourceTier(cfg)
    ensures Inv(cfg, LookupStep(cfg, s, t, call))
  {
    RoomKeeps(cfg, s, call.scan);
    var (table, evicted) := Room(cfg, s, call.scan);
    var u, c := LookupStep(cfg, s, t, call), Entering(cfg, call);
    assert CellInv(cfg, c) && c.key == call.key;
    hide Room, RoomTable, RoomCounts, CellInv, TableInv, LivesInv, Entering;
    EnterTable(cfg, s, table, call.key, c, u);
    EnterLives(cfg, s, table, evicted, call.key, c, u);
    EnterCells(cfg, s, u, c);
  }

  lemma EnterCells(cfg: Config, s: Door, u: Door, c: Cell)
    requires (forall i | 0 <= i < |s.cells| :: CellInv(cfg, s.cells[i])) && CellInv(cfg, c) && u.cells == s.cells + [c]
    ensures forall i | 0 <= i < |u.cells| :: CellInv(cfg, u.cells[i])
  {
    hide CellInv;
  }

  lemma EnterTable(cfg: Config, s: Door, table: map<string, nat>, key: string, c: Cell, u: Door)
    requires TableInv(cfg, s) && RoomTable(cfg, s, table) && c.key == key
    requires u.table == table[key := |s.cells|] && u.cells == s.cells + [c]
    ensures TableInv(cfg, u)
  {
    hide Cap;
    PutId(table, key, |s.cells|);
  }

  lemma EnterLives(
      cfg: Config, s: Door, table: map<string, nat>, evicted: seq<string>, key: string, c: Cell, u: Door)
    requires LivesInv(s) && RoomTable(cfg, s, table) && RoomCounts(s, table, evicted) && c.key == key && key !in s.table
    requires u.table == table[key := |s.cells|] && u.cells == s.cells + [c] && u.evicted == evicted
    ensures LivesInv(u)
  {
    hide Lives, Evictions, Cap;
    forall k
      ensures Lives(u.cells, k) == Lives(s.cells, k) + if key == k then 1 else 0
    {
      LivesMore(s.cells, c, k);
    }
  }

  lemma ChargeKeeps(cfg: Config, s: Door, a: Action)
    requires Inv(cfg, s) && Enabled(s, a) && (a.Object? || a.Bytes?)
    ensures Inv(cfg, Step(cfg, s, a))
  {
    hide AllowN, After, Lives, Evictions, TableInv, PlaneInv, LivesInv;
    var pc := s.callers[a.t];
    var id := pc.cell;
    var c := s.cells[id];
    assert CellInv(cfg, c);
    AfterMore(NewBucket(cfg.srcObj, cfg.srcObj), c.objLog, Arrival(pc.call.now, 1.0));
    AfterMore(NewBucket(cfg.srcByt, cfg.srcByt), c.bytLog, Arrival(pc.call.now, pc.call.n as real));
    CellChanges(cfg, s, Step(cfg, s, a), id);
  }

  lemma PlaneKeeps(cfg: Config, s: Door, a: Action)
    requires Inv(cfg, s) && Enabled(s, a) && (a.PlaneObject? || a.PlaneBytes?)
    ensures Inv(cfg, Step(cfg, s, a))
  {
    hide AllowN, After, Lives, Evictions, CellInv;
    var call := s.callers[a.t].call;
    AfterMore(NewBucket(cfg.planeObj, cfg.planeObj), s.planeObjLog, Arrival(call.now, 1.0));
    AfterMore(NewBucket(cfg.planeByt, cfg.planeByt), s.planeBytLog, Arrival(call.now, call.n as real));
  }

  lemma StepKeeps(cfg: Config, s: Door, a: Action)
    requires Inv(cfg, s)
    ensures Inv(cfg, Step(cfg, s, a))
  {
    if Enabled(s, a) {
      match a
      case Lookup(t, call) =>
        if !SourceTier(cfg) {
          hide CellInv, Lives, Evictions;
          assert Inv(cfg, Step(cfg, s, a));
        } else if call.key in s.table {
          var id := s.table[call.key];
          assert CellInv(cfg, s.cells[id]);
          hide After, Lives, Evictions;
          CellChanges(cfg, s, Step(cfg, s, a), id);
        } else {
          EnterKeeps(cfg, s, t, call);
        }
      case Object(_) => ChargeKeeps(cfg, s, a);
      case Bytes(_) => ChargeKeeps(cfg, s, a);
      case PlaneObject(_) => PlaneKeeps(cfg, s, a);
      case PlaneBytes(_) => PlaneKeeps(cfg, s, a);
    }
  }

  lemma {:induction false} RunKeeps(cfg: Config, callers: nat, actions: seq<Action>)
    ensures Inv(cfg, Run(cfg, callers, actions))
  {
    if actions != [] {
      hide Inv, Step;
      RunKeeps(cfg, callers, actions[..|actions| - 1]);
      StepKeeps(cfg, Run(cfg, callers, actions[..|actions| - 1]), actions[|actions| - 1]);
    }
  }

  /** Over every interleaving the table keeps within its cap and every bucket, even an evicted one, within its burst. */
  lemma RacedTableIsCapped(cfg: Config, callers: nat, actions: seq<Action>)
    ensures
      var s := Run(cfg, callers, actions);
      && |s.table| <= Cap(cfg) && Sound(s.planeObj) && Sound(s.planeByt)
      && forall i | 0 <= i < |s.cells| :: Sound(s.cells[i].obj) && Sound(s.cells[i].byt)
  {
    var s := Run(cfg, callers, actions);
    RunKeeps(cfg, callers, actions);
    hide Run;
    SoundForever(NewBucket(cfg.planeObj, cfg.planeObj), s.planeObjLog);
    SoundForever(NewBucket(cfg.planeByt, cfg.planeByt), s.planeBytLog);
    forall i | 0 <= i < |s.cells|
      ensures Sound(s.cells[i].obj) && Sound(s.cells[i].byt)
    {
      assert CellInv(cfg, s.cells[i]);
      SoundForever(NewBucket(cfg.srcObj, cfg.srcObj), s.cells[i].objLog);
      SoundForever(NewBucket(cfg.srcByt, cfg.srcByt), s.cells[i].bytLog);
    }
  }

  // ----- What one source takes -----

  function LogOf(c: Cell, byt: bool): seq<Arrival> {
    if byt then c.bytLog else c.objLog
  }

  function SpanOf(log: seq<Arrival>): real {
    if log == [] then 0.0 else Latest(log[0].now, log) - log[0].now
  }

  function CellSpent(cfg: Config, c: Cell, byt: bool): real {
    if Sound(Depth(cfg, byt)) then Spent(Depth(cfg, byt), LogOf(c, byt)) else 0.0
  }

  /** What a source took from the buckets of all its lives, orphaned ones included. */
  function TotalSpent(cfg: Config, cells: seq<Cell>, key: string, byt: bool): real {
    if cells == [] then 0.0
    else
      var c := cells[|cells| - 1];
      TotalSpent(cfg, cells[..|cells| - 1], key, byt) + if c.key == key then CellSpent(cfg, c, byt) else 0.0
  }

  /** How long those lives lasted, each from its first charge to its latest. */
  function TotalSpan(cells: seq<Cell>, key: string, byt: bool): real {
    if cells == [] then 0.0
    else
      var c := cells[|cells| - 1];
      TotalSpan(cells[..|cells| - 1], key, byt) + if c.key == key then SpanOf(LogOf(c, byt)) else 0.0
  }

  lemma CellBound(cfg: Config, c: Cell, byt: bool)
    requires Depth(cfg, byt).rate > 0.0
    ensures CellSpent(cfg, c, byt) <= Depth(cfg, byt).burst + Worth(Depth(cfg, byt).rate, SpanOf(LogOf(c, byt)))
  {
    hide Spent, Latest;
    var log := LogOf(c, byt);
    if log == [] {
      NothingSpent(Depth(cfg, byt));
      WorthNothing(Depth(cfg, byt).rate);
    } else {
      SpentBound(if byt then cfg.srcByt else cfg.srcObj, if byt then cfg.srcByt else cfg.srcObj, log);
    }
  }

  lemma NothingSpent(b: Bucket)
    requires Sound(b)
    ensures Spent(b, []) == 0.0
  {
  }

  lemma WorthNothing(rate: real)
    ensures Worth(rate, 0.0) == 0.0
  {
  }

  lemma WorthSums(rate: real, a: real, b: real)
    ensures Worth(rate, a + b) == Worth(rate, a) + Worth(rate, b)
  {
    WorthAdds(rate, a + b, b, 0.0);
  }

  lemma {:induction false} TotalBound(cfg: Config, cells: seq<Cell>, key: string, byt: bool)
    requires Depth(cfg, byt).rate > 0.0
    ensures TotalSpent(cfg, cells, key, byt)
         <= Bursts(Depth(cfg, byt).burst, Lives(cells, key)) + Worth(Depth(cfg, byt).rate, TotalSpan(cells, key, byt))
  {
    hide Worth, CellSpent, SpanOf, Depth;
    var d := Depth(cfg, byt);
    if cells == [] {
      WorthNothing(d.rate);
    } else {
      var k := |cells| - 1;
      TotalBound(cfg, cells[..k], key, byt);
      if cells[k].key == key {
        CellBound(cfg, cells[k], byt);
        WorthSums(d.rate, TotalSpan(cells[..k], key, byt), SpanOf(LogOf(cells[k], byt)));
      }
    }
  }

  /**
   Over every interleaving of callers, with any clock, a source takes from its object or byte bucket at most a
   burst for each of its lives and the refill of the time they lasted; its lives are one more than its
   evictions while it is in the table. A bucket evicted under a caller's feet costs no more than that.
   */
  lemma RacedSourceBound(cfg: Config, callers: nat, actions: seq<Action>, key: string, byt: bool)
    requires Depth(cfg, byt).rate > 0.0
    ensures
      var s, d := Run(cfg, callers, actions), Depth(cfg, byt);
      var lives := Evictions(s.evicted, key) + if key in s.table then 1 else 0;
      TotalSpent(cfg, s.cells, key, byt) <= lives as real * d.burst + Worth(d.rate, TotalSpan(s.cells, key, byt))
  {
    RunKeeps(cfg, callers, actions);
    hide Run, Depth, Worth, Bursts, TotalSpent, TotalSpan, Lives, Evictions, CellInv;
    var s := Run(cfg, callers, actions);
    TotalBound(cfg, s.cells, key, byt);
    BurstsIsProduct(Depth(cfg, byt).burst, Lives(s.cells, key));
  }

  function PlaneRate(cfg: Config, byt: bool): real {
    if byt then cfg.planeByt else cfg.planeObj
  }

  function PlaneLog(s: Door, byt: bool): seq<Arrival> {
    if byt then s.planeBytLog else s.planeObjLog
  }

  /** And each bucket of the plane gives at most its depth and its rate times the span of the charges made on it. */
  lemma RacedPlaneBound(cfg: Config, callers: nat, actions: seq<Action>, byt: bool)
    requires PlaneRate(cfg, byt) > 0.0 && PlaneLog(Run(cfg, callers, actions), byt) != []
    ensures
      var s, b := Run(cfg, callers, actions), NewBucket(PlaneRate(cfg, byt), PlaneRate(cfg, byt));
      && (if byt then s.planeByt else s.planeObj) == After(b, PlaneLog(s, byt)) && Sound(b)
      && Spent(b, PlaneLog(s, byt)) <= b.burst + Worth(PlaneRate(cfg, byt), SpanOf(PlaneLog(s, byt)))
  {
    RunKeeps(cfg, callers, actions);
    hide Run, Spent, Latest;
    SpentBound(PlaneRate(cfg, byt), PlaneRate(cfg, byt), PlaneLog(Run(cfg, callers, actions), byt));
  }

  // ----- Lives that do not overlap -----

  /** No earlier life of the source was given to a call later than now. */
  ghost predicate Above(cells: seq<Cell>, id: nat, key: string, now: real) {
    forall i | 0 <= i < id && i < |cells| && cells[i].key == key :: cells[i].top <= now
  }

  /** Charges on life id come no later than its top and no earlier than any earlier life's. */
  ghost predicate LogWithin(cells: seq<Cell>, id: nat, key: string, log: seq<Arrival>)
    requires id < |cells|
  {
    forall x | 0 <= x < |log| :: log[x].now <= cells[id].top && Above(cells, id, key, log[x].now)
  }

  ghost predicate LifeWithin(cells: seq<Cell>, id: nat, key: string)
    requires id < |cells|
  {
    cells[id].key == key ==> LogWithin(cells, id, key, cells[id].objLog) && LogWithin(cells, id, key, cells[id].bytLog)
  }

  ghost predicate LivesWithin(cells: seq<Cell>, key: string) {
    forall id | 0 <= id < |cells| :: LifeWithin(cells, id, key)
  }

  /** A caller that holds a pointer to one of the source's lives may still charge it at its own instant. */
  ghost predicate HolderWithin(cells: seq<Cell>, pc: Pc, key: string) {
    pc.Held? || pc.ObjectPaid? ==>
      && pc.cell < |cells|
      && (cells[pc.cell].key == key ==> pc.call.now <= cells[pc.cell].top && Above(cells, pc.cell, key, pc.call.now))
  }

  /** The life in the table is the latest. */
  predicate Newest(s: Door, key: string) {
    key in s.table ==> forall i | s.table[key] < i < |s.cells| :: s.cells[i].key != key
  }

  ghost predicate OrderInv(s: Door, key: string) {
    && LivesWithin(s.cells, key) && Newest(s, key)
    && forall t | 0 <= t < |s.callers| :: HolderWithin(s.cells, s.callers[t], key)
  }

  /** The guard: a call of the source is not earlier than any call that was given another of its lives. */
  ghost predicate Timely(s: Door, a: Action, key: string) {
    a.Lookup? && a.call.key == key ==>
      forall i | 0 <= i < |s.cells| && s.cells[i].key == key && !(key in s.table && s.table[key] == i) ::
        s.cells[i].top <= a.call.now
  }

  ghost predicate Guarded(cfg: Config, callers: nat, actions: seq<Action>, key: string) {
    actions != [] ==>
      var before := actions[..|actions| - 1];
      Guarded(cfg, callers, before, key) && Timely(Run(cfg, callers, before), actions[|actions| - 1], key)
  }

  /** One cell changes, its top only when it is the source's newest life. */
  ghost predicate Changes(cells: seq<Cell>, after: seq<Cell>, id: nat, key: string) {
    && id < |cells| == |after| && after == cells[id := after[id]] && after[id].key == cells[id].key
    && after[id].top >= cells[id].top
    && (after[id].top == cells[id].top || cells[id].key != key || forall i | id < i < |cells| :: cells[i].key != key)
  }

  lemma AboveStays(cells: seq<Cell>, after: seq<Cell>, id: nat, key: string, j: nat, now: real)
    requires Changes(cells, after, id, key) && j < |cells| && cells[j].key == key && Above(cells, j, key, now)
    ensures Above(after, j, key, now)
  {
  }

  lemma ChangeWithin(cells: seq<Cell>, after: seq<Cell>, id: nat, key: string)
    requires Changes(cells, after, id, key) && LivesWithin(cells, key) && LifeWithin(after, id, key)
    ensures LivesWithin(after, key)
  {
    hide Above;
    forall j | 0 <= j < |after|
      ensures LifeWithin(after, j, key)
    {
      if j != id && cells[j].key == key {
        assert LifeWithin(cells, j, key);
        OneLifeStays(cells, after, id, key, j, cells[j].objLog);
        OneLifeStays(cells, after, id, key, j, cells[j].bytLog);
      }
    }
  }

  lemma OneLifeStays(cells: seq<Cell>, after: seq<Cell>, id: nat, key: string, j: nat, log: seq<Arrival>)
    requires Changes(cells, after, id, key) && j < |cells| && cells[j].key == key && LogWithin(cells, j, key, log)
    ensures LogWithin(after, j, key, log)
  {
    hide Above;
    forall x | 0 <= x < |log|
      ensures log[x].now <= after[j].top && Above(after, j, key, log[x].now)
    {
      AboveStays(cells, after, id, key, j, log[x].now);
    }
  }

  lemma HolderStays(cells: seq<Cell>, after: seq<Cell>, id: nat, key: string, pc: Pc)
    requires Changes(cells, after, id, key) && HolderWithin(cells, pc, key)
    ensures HolderWithin(after, pc, key)
  {
    hide Above;
    if (pc.Held? || pc.ObjectPaid?) && cells[pc.cell].key == key {
      AboveStays(cells, after, id, key, pc.cell, pc.call.now);
    }
  }

  /** A step that changes cell id and moves caller t. */
  lemma ChangeOrder(s: Door, u: Door, id: nat, t: nat, key: string)
    requires OrderInv(s, key) && Changes(s.cells, u.cells, id, key) && LifeWithin(u.cells, id, key)
    requires u.table == s.table && t < |s.callers| == |u.callers| && u.callers == s.callers[t := u.callers[t]]
    requires HolderWithin(u.cells, u.callers[t], key)
    ensures OrderInv(u, key)
  {
    hide LifeWithin, HolderWithin;
    ChangeWithin(s.cells, u.cells, id, key);
    hide LivesWithin;
    forall x | 0 <= x < |u.callers|
      ensures HolderWithin(u.cells, u.callers[x], key)
    {
      if x != t {
        HolderStays(s.cells, u.cells, id, key, s.callers[x]);
      }
    }
  }

  lemma ChargeOrder(cfg: Config, s: Door, a: Action, key: string)
    requires OrderInv(s, key) && Enabled(s, a) && (a.Object? || a.Bytes?)
    ensures OrderInv(Step(cfg, s, a), key)
  {
    hide AllowN, Above;
    var pc, u := s.callers[a.t], Step(cfg, s, a);
    assert HolderWithin(s.cells, pc, key) && LifeWithin(s.cells, pc.cell, key);
    HolderStays(s.cells, u.cells, pc.cell, key, pc);
    if s.cells[pc.cell].key == key {
      OneLifeStays(s.cells, u.cells, pc.cell, key, pc.cell, s.cells[pc.cell].objLog);
      OneLifeStays(s.cells, u.cells, pc.cell, key, pc.cell, s.cells[pc.cell].bytLog);
    }
    assert LifeWithin(u.cells, pc.cell, key);
    hide LifeWithin, LivesWithin;
    ChangeOrder(s, u, pc.cell, a.t, key);
  }

  lemma ReturnOrder(cfg: Config, s: Door, t: nat, call: Call, key: string)
    requires OrderInv(s, key) && TableInv(cfg, s) && Enabled(s, Lookup(t, call)) && SourceTier(cfg) && call.key in s.table
    requires Timely(s, Lookup(t, call), key)
    ensures OrderInv(LookupStep(cfg, s, t, call), key)
  {
    hide Cap;
    var id, u := s.table[call.key], LookupStep(cfg, s, t, call);
    assert LifeWithin(s.cells, id, key);
    assert Changes(s.cells, u.cells, id, key);
    if s.cells[id].key == key {
      OneLifeStays(s.cells, u.cells, id, key, id, s.cells[id].objLog);
      OneLifeStays(s.cells, u.cells, id, key, id, s.cells[id].bytLog);
    }
    assert HolderWithin(u.cells, u.callers[t], key);
    hide LifeWithin, LivesWithin, HolderWithin, LogWithin;
    ChangeOrder(s, u, id, t, key);
  }

  lemma AboveMore(cells: seq<Cell>, c: Cell, id: nat, key: string, now: real)
    requires id <= |cells| && Above(cells, id, key, now)
    ensures Above(cells + [c], id, key, now)
  {
  }

  lemma LogMore(cells: seq<Cell>, c: Cell, id: nat, key: string, log: seq<Arrival>)
    requires id < |cells| && LogWithin(cells, id, key, log)
    ensures LogWithin(cells + [c], id, key, log)
  {
    hide Above;
    forall x | 0 <= x < |log|
      ensures log[x].now <= (cells + [c])[id].top && Above(cells + [c], id, key, log[x].now)
    {
      AboveMore(cells, c, id, key, log[x].now);
    }
  }

  lemma LivesMoreWithin(cells: seq<Cell>, c: Cell, key: string)
    requires LivesWithin(cells, key) && c.objLog == c.bytLog == []
    ensures LivesWithin(cells + [c], key)
  {
    hide LogWithin;
    forall id | 0 <= id < |cells + [c]|
      ensures LifeWithin(cells + [c], id, key)
    {
      if id < |cells| && cells[id].key == key {
        assert LifeWithin(cells, id, key);
        LogMore(cells, c, id, key, cells[id].objLog);
        LogMore(cells, c, id, key, cells[id].bytLog);
      } else {
        NothingLogged(cells + [c], id, key);
      }
    }
  }

  lemma NothingLogged(cells: seq<Cell>, id: nat, key: string)
    requires id < |cells|
    ensures LogWithin(cells, id, key, [])
  {
  }

  lemma HolderMore(cells: seq<Cell>, c: Cell, pc: Pc, key: string)
    requires HolderWithin(cells, pc, key)
    ensures HolderWithin(cells + [c], pc, key)
  {
    hide Above;
    if (pc.Held? || pc.ObjectPaid?) && cells[pc.cell].key == key {
      AboveMore(cells, c, pc.cell, key, pc.call.now);
    }
  }

  lemma NewHolder(s: Door, c: Cell, t: nat, call: Call, key: string)
    requires c.key == call.key && c.top == call.now && call.key !in s.table && Timely(s, Lookup(t, call), key)
    ensures HolderWithin(s.cells + [c], Held(call, |s.cells|), key)
  {
  }

  lemma NewestMore(cfg: Config, s: Door, u: Door, call: Call, key: string)
    requires Newest(s, key) && TableInv(cfg, s) && call.key !in s.table
    requires RoomTable(cfg, s, Room(cfg, s, call.scan).0)
    requires u.table == Room(cfg, s, call.scan).0[call.key := |s.cells|] && u.cells == s.cells + [Entering(cfg, call)]
    ensures Newest(u, key)
  {
    hide Room, Cap;
  }

  lemma EnterOrder(cfg: Config, s: Door, t: nat, call: Call, key: string)
    requires OrderInv(s, key) && Inv(cfg, s) && Enabled(s, Lookup(t, call)) && SourceTier(cfg) && call.key !in s.table
    requires Timely(s, Lookup(t, call), key)
    ensures OrderInv(LookupStep(cfg, s, t, call), key)
  {
    RoomKeeps(cfg, s, call.scan);
    assert TableInv(cfg, s);
    hide Inv, TableInv, RoomTable, Room, RoomCounts, Cap, LivesWithin, HolderWithin, Newest, Timely;
    var u, c := LookupStep(cfg, s, t, call), Entering(cfg, call);
    LivesMoreWithin(s.cells, c, key);
    NewHolder(s, c, t, call, key);
    NewestMore(cfg, s, u, call, key);
    forall x | 0 <= x < |u.callers|
      ensures HolderWithin(u.cells, u.callers[x], key)
    {
      HolderMore(s.cells, c, s.callers[x], key);
    }
  }

  /** A step that moves a caller and touches no source. */
  lemma MoveOrder(s: Door, u: Door, t: nat, key: string)
    requires OrderInv(s, key) && u.cells == s.cells && u.table == s.table
    requires t < |s.callers| == |u.callers| && u.callers == s.callers[t := u.callers[t]]
    requires !u.callers[t].Held? && !u.callers[t].ObjectPaid?
    ensures OrderInv(u, key)
  {
    hide LivesWithin, Above;
  }

  lemma PlaneOrder(cfg: Config, s: Door, a: Action, key: string)
    requires OrderInv(s, key) && Enabled(s, a) && (a.PlaneObject? || a.PlaneBytes? || (a.Lookup? && !SourceTier(cfg)))
    ensures OrderInv(Step(cfg, s, a), key)
  {
    hide OrderInv, AllowN;
    MoveOrder(s, Step(cfg, s, a), a.t, key);
  }

  lemma StepOrder(cfg: Config, s: Door, a: Action, key: string)
    requires OrderInv(s, key) && Inv(cfg, s) && Timely(s, a, key)
    ensures OrderInv(Step(cfg, s, a), key)
  {
    assert TableInv(cfg, s);
    hide Inv, TableInv, Timely, AllowN, OrderInv, LookupStep;
    if Enabled(s, a) {
      match a
      case Lookup(t, call) =>
        if !SourceTier(cfg) {
          PlaneOrder(cfg, s, a, key);
        } else if call.key in s.table {
          KnownCell(cfg, s, call.key);
          ReturnOrder(cfg, s, t, call, key);
        } else {
          EnterOrder(cfg, s, t, call, key);
        }
      case Object(_) => ChargeOrder(cfg, s, a, key);
      case Bytes(_) => ChargeOrder(cfg, s, a, key);
      case PlaneObject(_) => PlaneOrder(cfg, s, a, key);
      case PlaneBytes(_) => PlaneOrder(cfg, s, a, key);
    }
  }

  lemma KnownCell(cfg: Config, s: Door, key: string)
    requires TableInv(cfg, s) && key in s.table
    ensures s.table[key] < |s.cells| && s.cells[s.table[key]].key == key
  {
  }

  lemma {:induction false} RunOrder(cfg: Config, callers: nat, actions: seq<Action>, key: string)
    requires Guarded(cfg, callers, actions, key)
    ensures OrderInv(Run(cfg, callers, actions), key)
  {
    if actions != [] {
      hide OrderInv, Step, Timely, Inv;
      RunOrder(cfg, callers, actions[..|actions| - 1], key);
      RunKeeps(cfg, callers, actions[..|actions| - 1]);
      StepOrder(cfg, Run(cfg, callers, actions[..|actions| - 1]), actions[|actions| - 1], key);
    }
  }

  // ----- Over the source's own span -----

  /** The first and the latest instant at which a source was charged, over all its lives. */
  datatype Own = Never | Own(first: real, latest: real)

  function OwnSpan(cells: seq<Cell>, key: string, byt: bool): Own {
    if cells == [] then Never
    else
      var c, before := cells[|cells| - 1], OwnSpan(cells[..|cells| - 1], key, byt);
      var log := LogOf(c, byt);
      if c.key != key || log == [] then before
      else
        var latest := Latest(log[0].now, log);
        if before.Never? then Own(log[0].now, latest) else Own(before.first, Max(before.latest, latest))
  }

  function Length(o: Own): real {
    if o.Never? then 0.0 else o.latest - o.first
  }

  lemma {:induction false} LatestWithin(start: real, log: seq<Arrival>, top: real)
    requires start <= top && forall x | 0 <= x < |log| :: log[x].now <= top
    ensures start <= Latest(start, log) <= top
  {
    if log != [] {
      LatestWithin(start, log[..|log| - 1], top);
    }
  }

  /** The lives follow each other, so together they last no longer than the source's own span. */
  lemma {:induction false} SpansAdd(cells: seq<Cell>, key: string, byt: bool)
    requires LivesWithin(cells, key)
    ensures TotalSpan(cells, key, byt) <= Length(OwnSpan(cells, key, byt))
    ensures
      var o := OwnSpan(cells, key, byt);
      o.Own? ==> exists i :: 0 <= i < |cells| && cells[i].key == key && o.latest <= cells[i].top
  {
    hide LivesWithin, LifeWithin, Above, Latest;
    if cells != [] {
      var k := |cells| - 1;
      var before, c := cells[..k], cells[k];
      FewerLives(cells, key);
      SpansAdd(before, key, byt);
      var o, log := OwnSpan(before, key, byt), LogOf(c, byt);
      if o.Own? {
        var i :| 0 <= i < |before| && before[i].key == key && o.latest <= before[i].top;
        assert cells[i] == before[i];
      }
      if c.key == key && log != [] {
        LastLife(cells, key, byt);
        LatestWithin(log[0].now, log, c.top);
        if o.Own? {
          var i :| 0 <= i < |before| && before[i].key == key && o.latest <= before[i].top;
          AfterEarlier(cells, i, key, byt);
          assert cells[i].top <= log[0].now;
        }
      }
    }
  }

  lemma FewerLives(cells: seq<Cell>, key: string)
    requires LivesWithin(cells, key) && cells != []
    ensures LivesWithin(cells[..|cells| - 1], key)
  {
    var before := cells[..|cells| - 1];
    forall id | 0 <= id < |before|
      ensures LifeWithin(before, id, key)
    {
      assert LifeWithin(cells, id, key);
    }
  }

  lemma LastLife(cells: seq<Cell>, key: string, byt: bool)
    requires LivesWithin(cells, key) && cells != [] && cells[|cells| - 1].key == key
    ensures
      var c := cells[|cells| - 1];
      forall x | 0 <= x < |LogOf(c, byt)| :: LogOf(c, byt)[x].now <= c.top
  {
    assert LifeWithin(cells, |cells| - 1, key);
  }

  lemma AfterEarlier(cells: seq<Cell>, i: nat, key: string, byt: bool)
    requires LivesWithin(cells, key) && i < |cells| - 1 && cells[i].key == cells[|cells| - 1].key == key
    requires LogOf(cells[|cells| - 1], byt) != []
    ensures cells[i].top <= LogOf(cells[|cells| - 1], byt)[0].now
  {
    assert LifeWithin(cells, |cells| - 1, key);
  }

  /**
   Over every interleaving in which no call of the source is earlier than one that was given another of its
   lives, it takes at most a burst for each life and the refill between its own first and latest charge.
   */
  lemma RacedGuardedBound(cfg: Config, callers: nat, actions: seq<Action>, key: string, byt: bool)
    requires Depth(cfg, byt).rate > 0.0 && Guarded(cfg, callers, actions, key)
    ensures
      var s, d := Run(cfg, callers, actions), Depth(cfg, byt);
      var lives := Evictions(s.evicted, key) + if key in s.table then 1 else 0;
      TotalSpent(cfg, s.cells, key, byt) <= lives as real * d.burst + Worth(d.rate, Length(OwnSpan(s.cells, key, byt)))
  {
    hide Run, Depth, Worth, Bursts, TotalSpent, TotalSpan, Evictions, OwnSpan, Length, Guarded;
    var s, d := Run(cfg, callers, actions), Depth(cfg, byt);
    RacedSourceBound(cfg, callers, actions, key, byt);
    RunOrder(cfg, callers, actions, key);
    SpansAdd(s.cells, key, byt);
    WorthGrows(d.rate, TotalSpan(s.cells, key, byt), Length(OwnSpan(s.cells, key, byt)));
  }

  // ----- A clock that does not go back is guarded -----

  /** The source's lookups come in the order of their instants. */
  ghost predicate InOrder(actions: seq<Action>, key: string) {
    forall i, j | 0 <= i < j < |actions| && actions[i].Lookup? && actions[j].Lookup?
                  && actions[i].call.key == actions[j].call.key == key :: actions[i].call.now <= actions[j].call.now
  }

  /** Every life's top is the instant of some lookup made. */
  ghost predicate TopsFrom(s: Door, actions: seq<Action>, key: string) {
    forall c | 0 <= c < |s.cells| && s.cells[c].key == key ::
      exists i :: 0 <= i < |actions| && actions[i].Lookup? && actions[i].call.key == key && s.cells[c].top == actions[i].call.now
  }

  /** The lookup this action is gives a life of this key its own instant for a top. */
  predicate Gives(a: Action, c: Cell) {
    a.Lookup? && a.call.key == c.key && c.top == a.call.now
  }

  /** Tops stay, except those this action gives. */
  ghost predicate TopsMove(cells: seq<Cell>, after: seq<Cell>, a: Action) {
    && |cells| <= |after|
    && (forall c | 0 <= c < |cells| ::
          after[c].key == cells[c].key && (after[c].top == cells[c].top || Gives(a, after[c])))
    && (forall c | |cells| <= c < |after| :: Gives(a, after[c]))
  }

  lemma OneTopMoves(cells: seq<Cell>, id: nat, c: Cell, a: Action)
    requires id < |cells| && c.key == cells[id].key && (c.top == cells[id].top || Gives(a, c))
    ensures TopsMove(cells, cells[id := c], a)
  {
  }

  lemma LookupMoves(cfg: Config, s: Door, t: nat, call: Call)
    requires TableInv(cfg, s) && t < |s.callers|
    ensures TopsMove(s.cells, LookupStep(cfg, s, t, call).cells, Lookup(t, call))
  {
    hide Room, Cap;
    if SourceTier(cfg) && call.key in s.table {
      var id := s.table[call.key];
      var c := s.cells[id];
      OneTopMoves(s.cells, id, c.(seen := call.now, top := Max(c.top, call.now)), Lookup(t, call));
    }
  }

  lemma ChargeMoves(cfg: Config, s: Door, a: Action)
    requires Enabled(s, a) && (a.Object? || a.Bytes?)
    ensures TopsMove(s.cells, Step(cfg, s, a).cells, a)
  {
    hide AllowN, TopsMove;
    var id := s.callers[a.t].cell;
    OneTopMoves(s.cells, id, Step(cfg, s, a).cells[id], a);
  }

  lemma CellsMove(cfg: Config, s: Door, a: Action)
    requires TableInv(cfg, s)
    ensures TopsMove(s.cells, Step(cfg, s, a).cells, a)
  {
    hide AllowN, LookupStep, TableInv;
    if Enabled(s, a) {
      match a
      case Lookup(t, call) => LookupMoves(cfg, s, t, call);
      case Object(_) => ChargeMoves(cfg, s, a);
      case Bytes(_) => ChargeMoves(cfg, s, a);
      case PlaneObject(_) => assert Step(cfg, s, a).cells == s.cells;
      case PlaneBytes(_) => assert Step(cfg, s, a).cells == s.cells;
    }
  }

  lemma StepTops(cfg: Config, s: Door, before: seq<Action>, a: Action, key: string)
    requires TopsFrom(s, before, key) && TableInv(cfg, s)
    ensures TopsFrom(Step(cfg, s, a), before + [a], key)
  {
    CellsMove(cfg, s, a);
    hide Step, TableInv;
    var u, all := Step(cfg, s, a), before + [a];
    forall c | 0 <= c < |u.cells| && u.cells[c].key == key
      ensures exists i :: 0 <= i < |all| && all[i].Lookup? && all[i].call.key == key && u.cells[c].top == all[i].call.now
    {
      if Gives(a, u.cells[c]) {
        assert all[|before|] == a;
      } else {
        assert s.cells[c].key == key;
        var i :| 0 <= i < |before| && before[i].Lookup? && before[i].call.key == key && s.cells[c].top == before[i].call.now;
        assert all[i] == before[i];
      }
    }
  }

  lemma {:induction false} RunTops(cfg: Config, callers: nat, actions: seq<Action>, key: string)
    ensures TopsFrom(Run(cfg, callers, actions), actions, key)
  {
    if actions != [] {
      var before, a := actions[..|actions| - 1], actions[|actions| - 1];
      RunTops(cfg, callers, before, key);
      RunKeeps(cfg, callers, before);
      assert TableInv(cfg, Run(cfg, callers, before));
      hide Inv, Step, TopsFrom, TableInv;
      StepTops(cfg, Run(cfg, callers, before), before, a, key);
      assert before + [a] == actions;
    }
  }

  /** Callers whose lookups come in the order of their instants, whatever happens after them, are guarded. */
  lemma {:induction false} InOrderIsGuarded(cfg: Config, callers: nat, actions: seq<Action>, key: string)
    requires InOrder(actions, key)
    ensures Guarded(cfg, callers, actions, key)
  {
    hide Run;
    if actions != [] {
      var before, a := actions[..|actions| - 1], actions[|actions| - 1];
      InOrderIsGuarded(cfg, callers, before, key);
      RunTops(cfg, callers, before, key);
      var s := Run(cfg, callers, before);
      if a.Lookup? && a.call.key == key {
        forall c | 0 <= c < |s.cells| && s.cells[c].key == key
          ensures s.cells[c].top <= a.call.now
        {
          var i :| 0 <= i < |before| && before[i].Lookup? && before[i].call.key == key && s.cells[c].top == before[i].call.now;
          assert actions[i] == before[i];
        }
      }
    }
  }

  // ----- Who charges the plane -----

  /** How often a call charged the plane's object bucket. */
  function Charges(calls: seq<Call>, call: Call): nat {
    if calls == [] then 0 else Charges(calls[..|calls| - 1], call) + if calls[|calls| - 1] == call then 1 else 0
  }

  predicate PermittedOutcome(o: Outcome, call: Call) {
    o.call == call && o.decision != DenySource
  }

  /** How often a call ended otherwise than by its source's refusal. */
  function Ended(outcomes: seq<Outcome>, call: Call): nat {
    if outcomes == [] then 0
    else Ended(outcomes[..|outcomes| - 1], call) + if PermittedOutcome(outcomes[|outcomes| - 1], call) then 1 else 0
  }

  /** How often it is between the plane's two charges. */
  function Between(callers: seq<Pc>, call: Call): nat {
    if callers == [] then 0
    else Between(callers[..|callers| - 1], call) + if callers[|callers| - 1] == PlanePaid(call) then 1 else 0
  }

  lemma {:induction false} BetweenChanges(callers: seq<Pc>, t: nat, pc: Pc, call: Call)
    requires t < |callers|
    ensures Between(callers[t := pc], call) + (if callers[t] == PlanePaid(call) then 1 else 0)
         == Between(callers, call) + if pc == PlanePaid(call) then 1 else 0
  {
    var k := |callers| - 1;
    if t == k {
      assert callers[t := pc][..k] == callers[..k];
    } else {
      BetweenChanges(callers[..k], t, pc, call);
      assert callers[t := pc][..k] == callers[..k][t := pc];
    }
  }

  lemma EndedMore(outcomes: seq<Outcome>, o: Outcome, call: Call)
    ensures Ended(outcomes + [o], call) == Ended(outcomes, call) + if PermittedOutcome(o, call) then 1 else 0
  {
    hide PermittedOutcome;
    assert (outcomes + [o])[..|outcomes|] == outcomes;
  }

  lemma ChargesMore(calls: seq<Call>, c: Call, call: Call)
    ensures Charges(calls + [c], call) == Charges(calls, call) + if c == call then 1 else 0
  {
    assert (calls + [c])[..|calls|] == calls;
  }

  /** Each charge of the plane's object bucket is one token at the instant of the call that made it. */
  ghost predicate PlaneCharges(s: Door) {
    |s.planeCalls| == |s.planeObjLog|
    && forall i | 0 <= i < |s.planeCalls| :: s.planeObjLog[i] == Arrival(s.planeCalls[i].now, 1.0)
  }

  ghost predicate PlaneMatches(s: Door, call: Call) {
    Charges(s.planeCalls, call) == Ended(s.outcomes, call) + Between(s.callers, call)
  }

  lemma StepMatches(cfg: Config, s: Door, a: Action, call: Call)
    requires PlaneMatches(s, call)
    ensures PlaneMatches(Step(cfg, s, a), call)
  {
    hide AllowN, Charges, Ended, Between, Room;
    var u := Step(cfg, s, a);
    if Enabled(s, a) {
      BetweenChanges(s.callers, a.t, u.callers[a.t], call);
      assert u.callers == s.callers[a.t := u.callers[a.t]];
      if u.outcomes != s.outcomes {
        EndedMore(s.outcomes, u.outcomes[|s.outcomes|], call);
      }
      if u.planeCalls != s.planeCalls {
        ChargesMore(s.planeCalls, u.planeCalls[|s.planeCalls|], call);
      }
    }
  }

  lemma StepCharges(cfg: Config, s: Door, a: Action)
    requires PlaneCharges(s)
    ensures PlaneCharges(Step(cfg, s, a))
  {
    hide AllowN, Room;
  }

  lemma {:induction false} NobodyBetween(callers: nat, call: Call)
    ensures Between(seq(callers, i => Idle), call) == 0
  {
    if callers > 0 {
      NobodyBetween(callers - 1, call);
      assert seq(callers, i => Idle)[..callers - 1] == seq(callers - 1, i => Idle);
    }
  }

  /**
   Over every interleaving, and for every call, the plane was charged for it exactly as often as its source
   permitted it: a call its source refuses never touches the plane, whoever else is being charged.
   */
  lemma {:induction false} SourceRefusalsSpareThePlane(cfg: Config, callers: nat, actions: seq<Action>, call: Call)
    ensures PlaneCharges(Run(cfg, callers, actions)) && PlaneMatches(Run(cfg, callers, actions), call)
  {
    if actions == [] {
      NobodyBetween(callers, call);
    } else {
      hide Step, PlaneMatches, PlaneCharges;
      var before, a := actions[..|actions| - 1], actions[|actions| - 1];
      SourceRefusalsSpareThePlane(cfg, callers, before, call);
      StepMatches(cfg, Run(cfg, callers, before), a, call);
      StepCharges(cfg, Run(cfg, callers, before), a);
    }
  }
}
