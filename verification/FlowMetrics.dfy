/**
 The sharded flow counters (metrics/metrics.go, addFlow, bindFlow, Collect).

 A table from group to per-worker cells is replaced copy-on-write under a mutex while
 other goroutines hold older tables and increment cells they reached through them.
 */
module FlowMetrics {
  import opened Bytes

  datatype Cell = Cell(packets: nat, bytes: nat)

  /** groups[g] points at group g's shard, an index into the heap of shards. */
  type Table = seq<Option<nat>>

  datatype Call = Call(worker: int, group: nat, size: nat)

  /** Where a goroutine is inside addFlow. */
  datatype Pc =
    | Idle
    | Loaded(call: Call, table: Table)   // flows.Load() returned table
    | Bound(call: Call, shard: nat)      // the group's shard is known
    | Half(call: Call, shard: nat)       // packets added, bytes not yet

  datatype State = State(workers: nat, table: Table, shards: seq<seq<Cell>>, threads: seq<Pc>, calls: seq<Call>)

  datatype Action = Begin(t: nat, call: Call) | Resolve(t: nat) | AddPacket(t: nat) | AddBytes(t: nat)

  predicate InRange(workers: nat, w: int) {
    0 <= w < workers
  }

  function Init(numWorkers: int, threads: nat): State {
    State(if numWorkers < 1 then 1 else numWorkers, [], [], seq(threads, i => Idle), [])
  }

  function At(t: Table, g: nat): Option<nat> {
    if g < |t| then t[g] else None
  }

  /** bindFlow's new table: the old pointers, one more, and gaps for the groups between. */
  function Grown(t: Table, g: nat, shard: nat): (u: Table)
    ensures |u| == if g < |t| then |t| else g + 1
    ensures forall h: nat :: At(u, h) == if h == g then Some(shard) else At(t, h)
  {
    var n := if g < |t| then |t| else g + 1;
    seq(n, h requires 0 <= h < n => if h == g then Some(shard) else At(t, h))
  }

  /** bindFlow runs under the mutex, so it is one step: look again, then copy, extend and publish. */
  function Bind(s: State, t: nat, call: Call): State
    requires t < |s.threads|
  {
    match At(s.table, call.group)
    case Some(id) => s.(threads := s.threads[t := Bound(call, id)])
    case None =>
      var id: nat := |s.shards|;
      s.(table := Grown(s.table, call.group, id),
         shards := s.shards + [seq(s.workers, i => Cell(0, 0))],
         threads := s.threads[t := Bound(call, id)])
  }

  function Step(s: State, a: Action): State {
    if a.t >= |s.threads| then s
    else
      match (a, s.threads[a.t])
      case (Begin(t, call), Idle) =>
        s.(threads := s.threads[t := Loaded(call, s.table)], calls := s.calls + [call])
      case (Resolve(t), Loaded(call, table)) =>
        if At(table, call.group).Some? then s.(threads := s.threads[t := Bound(call, At(table, call.group).value)])
        else Bind(s, t, call)
      case (AddPacket(t), Bound(call, id)) =>
        if !InRange(s.workers, call.worker) || id >= |s.shards| || call.worker >= |s.shards[id]| then
          s.(threads := s.threads[t := Idle])
        else
          var c := s.shards[id][call.worker];
          s.(shards := s.shards[id := s.shards[id][call.worker := c.(packets := c.packets + 1)]],
             threads := s.threads[t := Half(call, id)])
      case (AddBytes(t), Half(call, id)) =>
        if call.worker < 0 || id >= |s.shards| || call.worker >= |s.shards[id]| then
          s.(threads := s.threads[t := Idle])
        else
          var c := s.shards[id][call.worker];
          s.(shards := s.shards[id := s.shards[id][call.worker := c.(bytes := c.bytes + call.size)]],
             threads := s.threads[t := Idle])
      case _ => s
  }

  function Run(numWorkers: int, threads: nat, actions: seq<Action>): State {
    if actions == [] then Init(numWorkers, threads)
    else Step(Run(numWorkers, threads, actions[..|actions| - 1]), actions[|actions| - 1])
  }

  // ----- The scrape -----

  function Sum(cells: seq<Cell>): Cell {
    if cells == [] then Cell(0, 0)
    else
      var before, c := Sum(cells[..|cells| - 1]), cells[|cells| - 1];
      Cell(before.packets + c.packets, before.bytes + c.bytes)
  }

  /** Collect's loop over one group's workers. */
  method CollectGroup(cells: seq<Cell>) returns (pkts: nat, bytes: nat)
    ensures Cell(pkts, bytes) == Sum(cells)
  {
    pkts, bytes := 0, 0;
    for i := 0 to |cells|
      invariant Cell(pkts, bytes) == Sum(cells[..i])
    {
      assert cells[..i + 1][..i] == cells[..i];
      pkts := pkts + cells[i].packets;
      bytes := bytes + cells[i].bytes;
    }
    assert cells[..|cells|] == cells;
  }

  /** What a scrape reports for group g. */
  function Scraped(s: State, g: nat): Cell {
    match At(s.table, g)
    case Some(id) => if id < |s.shards| then Sum(s.shards[id]) else Cell(0, 0)
    case None => Cell(0, 0)
  }

  /** What the calls amount to for group g: their number and bytes, in-range workers only. */
  function Amount(workers: nat, calls: seq<Call>, g: nat): Cell {
    if calls == [] then Cell(0, 0)
    else
      var before, c := Amount(workers, calls[..|calls| - 1], g), calls[|calls| - 1];
      if c.group == g && InRange(workers, c.worker) then Cell(before.packets + 1, before.bytes + c.size) else before
  }

  // ----- What is still on its way to a cell -----

  function Owed(workers: nat, pc: Pc, g: nat): Cell {
    if pc.Idle? || pc.call.group != g || !InRange(workers, pc.call.worker) then Cell(0, 0)
    else Cell(if pc.Half? then 0 else 1, pc.call.size)
  }

  function AllOwed(workers: nat, threads: seq<Pc>, g: nat): Cell {
    if threads == [] then Cell(0, 0)
    else
      var before, o := AllOwed(workers, threads[..|threads| - 1], g), Owed(workers, threads[|threads| - 1], g);
      Cell(before.packets + o.packets, before.bytes + o.bytes)
  }

  /** A thread's step changes what is owed by its own share. */
  lemma {:induction false} OwedChanges(workers: nat, threads: seq<Pc>, t: nat, pc: Pc, g: nat)
    requires t < |threads|
    ensures
      var a, b := AllOwed(workers, threads, g), AllOwed(workers, threads[t := pc], g);
      var x, y := Owed(workers, threads[t], g), Owed(workers, pc, g);
      b.packets + x.packets == a.packets + y.packets && b.bytes + x.bytes == a.bytes + y.bytes
  {
    var k := |threads| - 1;
    if t == k {
      assert threads[t := pc][..k] == threads[..k];
    } else {
      OwedChanges(workers, threads[..k], t, pc, g);
      assert threads[t := pc][..k] == threads[..k][t := pc];
    }
  }

  lemma {:induction false} IdleOwesNothing(workers: nat, threads: seq<Pc>, g: nat)
    requires forall pc <- threads :: pc.Idle?
    ensures AllOwed(workers, threads, g) == Cell(0, 0)
  {
    if threads != [] {
      assert threads[|threads| - 1] in threads;
      IdleOwesNothing(workers, threads[..|threads| - 1], g);
    }
  }

  lemma {:induction false} SumChanges(cells: seq<Cell>, w: nat, c: Cell)
    requires w < |cells|
    ensures
      var a, b := Sum(cells), Sum(cells[w := c]);
      b.packets + cells[w].packets == a.packets + c.packets && b.bytes + cells[w].bytes == a.bytes + c.bytes
  {
    var k := |cells| - 1;
    if w == k {
      assert cells[w := c][..k] == cells[..k];
    } else {
      SumChanges(cells[..k], w, c);
      assert cells[w := c][..k] == cells[..k][w := c];
    }
  }

  lemma {:induction false} SumOfZeros(n: nat)
    ensures Sum(seq(n, i => Cell(0, 0))) == Cell(0, 0)
  {
    if n > 0 {
      SumOfZeros(n - 1);
      assert seq(n, i => Cell(0, 0))[..n - 1] == seq(n - 1, i => Cell(0, 0));
    }
  }

  // ----- The invariant -----

  /** A table some goroutine may still hold: its pointers are those of the current table. */
  ghost predicate OlderThan(t: Table, now: Table) {
    forall g: nat :: At(t, g).Some? ==> At(now, g) == At(t, g)
  }

  ghost predicate PointersInv(s: State) {
    && s.workers >= 1
    && (forall id | 0 <= id < |s.shards| :: |s.shards[id]| == s.workers)
    && (forall g: nat :: At(s.table, g).Some? ==> At(s.table, g).value < |s.shards|)
    && (forall g: nat, h: nat :: At(s.table, g).Some? && At(s.table, g) == At(s.table, h) ==> g == h)
    && (forall t | 0 <= t < |s.threads| :: ThreadInv(s, s.threads[t]))
  }

  ghost predicate ThreadInv(s: State, pc: Pc) {
    match pc
    case Idle => true
    case Loaded(_, table) => OlderThan(table, s.table)
    case Bound(call, id) => At(s.table, call.group) == Some(id)
    case Half(call, id) => At(s.table, call.group) == Some(id) && InRange(s.workers, call.worker)
  }

  ghost predicate CountsInv(s: State) {
    forall g: nat ::
      var c, o, a := Scraped(s, g), AllOwed(s.workers, s.threads, g), Amount(s.workers, s.calls, g);
      c.packets + o.packets == a.packets && c.bytes + o.bytes == a.bytes
  }

  ghost predicate Inv(s: State) {
    PointersInv(s) && CountsInv(s)
  }

  lemma BeginKeeps(s: State, t: nat, call: Call)
    requires Inv(s) && t < |s.threads| && s.threads[t].Idle?
    ensures Inv(Step(s, Begin(t, call)))
  {
    hide Sum;
    var u := Step(s, Begin(t, call));
    forall g: nat
      ensures
        var c, o, a := Scraped(u, g), AllOwed(u.workers, u.threads, g), Amount(u.workers, u.calls, g);
        c.packets + o.packets == a.packets && c.bytes + o.bytes == a.bytes
    {
      OwedChanges(s.workers, s.threads, t, u.threads[t], g);
      assert u.calls[..|s.calls|] == s.calls;
      assert Scraped(u, g) == Scraped(s, g);
    }
  }

  /** Copy-on-write growth moves no count: a new shard is empty and every old pointer stays. */
  lemma ResolveKeeps(s: State, t: nat)
    requires Inv(s) && t < |s.threads| && s.threads[t].Loaded?
    ensures Inv(Step(s, Resolve(t)))
  {
    var u := Step(s, Resolve(t));
    SumOfZeros(s.workers);
    hide Sum, AllOwed, Amount;
    forall g: nat
      ensures AllOwed(u.workers, u.threads, g) == AllOwed(s.workers, s.threads, g)
      ensures Scraped(u, g) == Scraped(s, g)
    {
      OwedChanges(s.workers, s.threads, t, u.threads[t], g);
    }
  }

  lemma AddPacketKeeps(s: State, t: nat)
    requires Inv(s) && t < |s.threads| && s.threads[t].Bound?
    ensures Inv(Step(s, AddPacket(t)))
  {
    var u, call, id := Step(s, AddPacket(t)), s.threads[t].call, s.threads[t].shard;
    hide AllOwed, Amount, Sum;
    if InRange(s.workers, call.worker) {
      SumChanges(s.shards[id], call.worker, u.shards[id][call.worker]);
    }
    forall g: nat
      ensures
        var c, o, a := Scraped(u, g), AllOwed(u.workers, u.threads, g), Amount(u.workers, u.calls, g);
        c.packets + o.packets == a.packets && c.bytes + o.bytes == a.bytes
    {
      OwedChanges(s.workers, s.threads, t, u.threads[t], g);
      assert g != call.group ==> Scraped(u, g) == Scraped(s, g);
    }
  }

  lemma AddBytesKeeps(s: State, t: nat)
    requires Inv(s) && t < |s.threads| && s.threads[t].Half?
    ensures Inv(Step(s, AddBytes(t)))
  {
    var u, call, id := Step(s, AddBytes(t)), s.threads[t].call, s.threads[t].shard;
    hide AllOwed, Amount, Sum;
    assert ThreadInv(s, s.threads[t]);
    SumChanges(s.shards[id], call.worker, u.shards[id][call.worker]);
    forall g: nat
      ensures
        var c, o, a := Scraped(u, g), AllOwed(u.workers, u.threads, g), Amount(u.workers, u.calls, g);
        c.packets + o.packets == a.packets && c.bytes + o.bytes == a.bytes
    {
      OwedChanges(s.workers, s.threads, t, u.threads[t], g);
      assert g != call.group ==> Scraped(u, g) == Scraped(s, g);
    }
  }

  lemma StepKeeps(s: State, a: Action)
    requires Inv(s)
    ensures Inv(Step(s, a))
  {
    hide Inv;
    if a.t < |s.threads| {
      match (a, s.threads[a.t])
      case (Begin(t, call), Idle) => BeginKeeps(s, t, call);
      case (Resolve(t), Loaded(_, _)) => ResolveKeeps(s, t);
      case (AddPacket(t), Bound(_, _)) => AddPacketKeeps(s, t);
      case (AddBytes(t), Half(_, _)) => AddBytesKeeps(s, t);
      case _ =>
    }
  }

  lemma {:induction false} RunKeeps(numWorkers: int, threads: nat, actions: seq<Action>)
    ensures Inv(Run(numWorkers, threads, actions))
  {
    if actions == [] {
      forall g: nat {
        IdleOwesNothing(Init(numWorkers, threads).workers, Init(numWorkers, threads).threads, g);
      }
    } else {
      hide Inv;
      RunKeeps(numWorkers, threads, actions[..|actions| - 1]);
      StepKeeps(Run(numWorkers, threads, actions[..|actions| - 1]), actions[|actions| - 1]);
    }
  }

  /** Over every interleaving, a scrape at rest reports exactly the calls made with an in-range worker. */
  lemma ScrapeAtRestIsExact(numWorkers: int, threads: nat, actions: seq<Action>, g: nat)
    requires forall pc <- Run(numWorkers, threads, actions).threads :: pc.Idle?
    ensures
      var s := Run(numWorkers, threads, actions);
      Scraped(s, g) == Amount(s.workers, s.calls, g)
  {
    var s := Run(numWorkers, threads, actions);
    RunKeeps(numWorkers, threads, actions);
    IdleOwesNothing(s.workers, s.threads, g);
  }

  // ----- A scrape that reads cell by cell while the counters move -----

  /** Collect inside one group: p packet counts and b byte counts read; floor is what stood there at its start. */
  datatype Scrape = Scrape(group: nat, shard: nat, p: nat, b: nat, sum: Cell, floor: Cell)

  /** A reported pair, with what stood there at the scrape's start and end, and the calls made by its end. */
  datatype Report = Report(group: nat, sum: Cell, floor: Cell, ceiling: Cell, called: Cell)

  datatype Watched = Watched(s: State, scrape: Option<Scrape>, reports: seq<Report>)

  datatype Event = Work(a: Action) | Start(group: nat) | ReadPackets | ReadBytes | Publish

  function Row(w: Watched, c: Scrape): seq<Cell> {
    if c.shard < |w.s.shards| then w.s.shards[c.shard] else []
  }

  function Watch(w: Watched, e: Event): Watched {
    match (e, w.scrape)
    case (Work(a), _) => w.(s := Step(w.s, a))
    case (Start(g), None) =>
      if At(w.s.table, g).None? then w
      else w.(scrape := Some(Scrape(g, At(w.s.table, g).value, 0, 0, Cell(0, 0), Scraped(w.s, g))))
    case (ReadPackets, Some(c)) =>
      if c.p >= |Row(w, c)| then w
      else w.(scrape := Some(c.(p := c.p + 1, sum := c.sum.(packets := c.sum.packets + Row(w, c)[c.p].packets))))
    case (ReadBytes, Some(c)) =>
      if c.b >= |Row(w, c)| then w
      else w.(scrape := Some(c.(b := c.b + 1, sum := c.sum.(bytes := c.sum.bytes + Row(w, c)[c.b].bytes))))
    case (Publish, Some(c)) =>
      if c.p < |Row(w, c)| || c.b < |Row(w, c)| then w
      else
        w.(scrape := None,
           reports := w.reports
                      + [Report(c.group, c.sum, c.floor, Sum(Row(w, c)), Amount(w.s.workers, w.s.calls, c.group))])
    case _ => w
  }

  function WatchRun(numWorkers: int, threads: nat, events: seq<Event>): Watched {
    if events == [] then Watched(Init(numWorkers, threads), None, [])
    else Watch(WatchRun(numWorkers, threads, events[..|events| - 1]), events[|events| - 1])
  }

  /** The part of a row from cell k on. */
  function Rest(row: seq<Cell>, k: nat): Cell
    decreases |row| - k
  {
    if k >= |row| then Cell(0, 0)
    else Cell(row[k].packets + Rest(row, k + 1).packets, row[k].bytes + Rest(row, k + 1).bytes)
  }

  lemma {:induction false} RestIsTheRest(row: seq<Cell>, k: nat)
    requires k <= |row|
    ensures Sum(row[..k]).packets + Rest(row, k).packets == Sum(row).packets
    ensures Sum(row[..k]).bytes + Rest(row, k).bytes == Sum(row).bytes
    decreases |row| - k
  {
    if k == |row| {
      assert row[..k] == row;
    } else {
      RestIsTheRest(row, k + 1);
      assert row[..k + 1][..k] == row[..k];
    }
  }

  /** Cells only grow. */
  predicate RowGrows(a: seq<Cell>, b: seq<Cell>) {
    |a| == |b| && forall i | 0 <= i < |a| :: a[i].packets <= b[i].packets && a[i].bytes <= b[i].bytes
  }

  lemma {:induction false} SumGrows(a: seq<Cell>, b: seq<Cell>)
    requires RowGrows(a, b)
    ensures Sum(a).packets <= Sum(b).packets && Sum(a).bytes <= Sum(b).bytes
  {
    if a != [] {
      SumGrows(a[..|a| - 1], b[..|b| - 1]);
    }
  }

  lemma {:induction false} RestGrows(a: seq<Cell>, b: seq<Cell>, k: nat)
    requires RowGrows(a, b)
    ensures Rest(a, k).packets <= Rest(b, k).packets && Rest(a, k).bytes <= Rest(b, k).bytes
    decreases |a| - k
  {
    if k < |a| {
      RestGrows(a, b, k + 1);
    }
  }

  lemma StepGrows(s: State, a: Action, id: nat)
    requires id < |s.shards|
    ensures id < |Step(s, a).shards| && RowGrows(s.shards[id], Step(s, a).shards[id])
  {
  }

  /** What is read so far was there, and what was there at the start is read or still to be read. */
  ghost predicate ScrapeInv(w: Watched) {
    w.scrape.Some? ==>
      var c := w.scrape.value;
      && c.shard < |w.s.shards| && At(w.s.table, c.group) == Some(c.shard)
      && var row := w.s.shards[c.shard];
      && c.p <= |row| && c.b <= |row|
      && c.sum.packets <= Sum(row[..c.p]).packets && c.sum.bytes <= Sum(row[..c.b]).bytes
      && c.floor.packets <= c.sum.packets + Rest(row, c.p).packets
      && c.floor.bytes <= c.sum.bytes + Rest(row, c.b).bytes
  }

  ghost predicate ReportInv(r: Report) {
    && r.floor.packets <= r.sum.packets <= r.ceiling.packets <= r.called.packets
    && r.floor.bytes <= r.sum.bytes <= r.ceiling.bytes <= r.called.bytes
  }

  ghost predicate WatchInv(w: Watched) {
    Inv(w.s) && ScrapeInv(w) && forall i | 0 <= i < |w.reports| :: ReportInv(w.reports[i])
  }

  lemma TableStays(s: State, a: Action, g: nat)
    requires PointersInv(s) && At(s.table, g).Some?
    ensures At(Step(s, a).table, g) == At(s.table, g)
  {
  }

  lemma WorkKeepsScrape(w: Watched, a: Action)
    requires WatchInv(w)
    ensures ScrapeInv(Watch(w, Work(a)))
  {
    if w.scrape.Some? {
      var c := w.scrape.value;
      var t := Step(w.s, a);
      StepGrows(w.s, a, c.shard);
      TableStays(w.s, a, c.group);
      hide Sum, Rest, Step, Inv;
      var before, after := w.s.shards[c.shard], t.shards[c.shard];
      SumGrows(before[..c.p], after[..c.p]);
      SumGrows(before[..c.b], after[..c.b]);
      RestGrows(before, after, c.p);
      RestGrows(before, after, c.b);
    }
  }

  lemma ReadKeepsScrape(w: Watched, e: Event)
    requires WatchInv(w) && (e.ReadPackets? || e.ReadBytes?)
    ensures ScrapeInv(Watch(w, e))
  {
    hide Inv;
    if w.scrape.Some? {
      var c := w.scrape.value;
      var row := w.s.shards[c.shard];
      if c.p < |row| {
        assert row[..c.p + 1][..c.p] == row[..c.p];
      }
      if c.b < |row| {
        assert row[..c.b + 1][..c.b] == row[..c.b];
      }
    }
  }

  lemma StartKeepsScrape(w: Watched, g: nat)
    requires WatchInv(w)
    ensures ScrapeInv(Watch(w, Start(g)))
  {
    if w.scrape.None? && At(w.s.table, g).Some? {
      var row := w.s.shards[At(w.s.table, g).value];
      RestIsTheRest(row, 0);
      assert row[..0] == [];
      hide CountsInv;
    }
  }

  lemma PublishKeeps(w: Watched)
    requires WatchInv(w)
    ensures WatchInv(Watch(w, Publish))
  {
    if w.scrape.Some? {
      var c := w.scrape.value;
      var row := w.s.shards[c.shard];
      assert row[..|row|] == row;
      assert Scraped(w.s, c.group) == Sum(row);
      hide Sum, PointersInv;
    }
  }

  lemma WatchKeeps(w: Watched, e: Event)
    requires WatchInv(w)
    ensures WatchInv(Watch(w, e))
  {
    match e
    case Work(a) =>
      WorkKeepsScrape(w, a);
      StepKeeps(w.s, a);
      hide Inv, ScrapeInv, ReportInv, Step;
    case Start(g) =>
      StartKeepsScrape(w, g);
      hide Inv, ScrapeInv, ReportInv;
    case Publish => PublishKeeps(w);
    case _ =>
      ReadKeepsScrape(w, e);
      hide Inv, ScrapeInv, ReportInv;
  }

  lemma {:induction false} WatchRunKeeps(numWorkers: int, threads: nat, events: seq<Event>)
    ensures WatchInv(WatchRun(numWorkers, threads, events))
  {
    if events == [] {
      RunKeeps(numWorkers, threads, []);
    } else {
      hide WatchInv, Watch;
      WatchRunKeeps(numWorkers, threads, events[..|events| - 1]);
      WatchKeeps(WatchRun(numWorkers, threads, events[..|events| - 1]), events[|events| - 1]);
    }
  }

  /**
   Read cell by cell while the counters move, a scrape reports no less than stood there when it started and no
   more than when it ended, so never more than the calls made by then.
   */
  lemma ScrapeNeverOvercounts(numWorkers: int, threads: nat, events: seq<Event>, i: nat)
    requires i < |WatchRun(numWorkers, threads, events).reports|
    ensures ReportInv(WatchRun(numWorkers, threads, events).reports[i])
  {
    WatchRunKeeps(numWorkers, threads, events);
  }
}
