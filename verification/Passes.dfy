/** One reconcile pass as functions on values (internal/reconcile/reconciler.go): auto-suspension,
    process supervision, sampling and edge events. */
module Passes {
  import opened Wrappers
  import opened Traffic
  import opened Backend

  // ---- what is stored and rendered ----

  /** An instance row. `binary` is the resolved binary path and `conf` the conf text rendered from
      the row alone; None when resolving or rendering fails. */
  datatype Instance = Instance(name: string, server: bool, enabled: bool, binary: Option<string>,
                               conf: Option<string>, bwRx: int, bwTx: int)

  function Max(x: int, y: int): int { if y > x then y else x }

  function ClientRate(c: Client): int {
    if c.bwTotal > 0 then c.bwTotal else Max(c.bwRx, c.bwTx)
  }

  /** The highest client rate, or 0. */
  function TopRate(rows: seq<Client>): int {
    if rows == [] then 0 else Max(TopRate(rows[..|rows| - 1]), ClientRate(rows[|rows| - 1]))
  }

  function ShaperBits(inst: Instance, rows: seq<Client>): int {
    Max(Max(if inst.server then TopRate(rows) else 0, inst.bwRx), inst.bwTx)
  }

  /** The shaper line: bytes per second, at least 1. */
  function ShaperLine(shaping: bool, inst: Instance, rows: seq<Client>): Option<int> {
    var bits := ShaperBits(inst, rows);
    if !shaping || bits <= 0 then None else Some(Max(1, bits / 8))
  }

  function ConfOf(shaping: bool, inst: Instance, rows: seq<Client>): Conf
    requires inst.conf.Some?
  {
    Conf(inst.conf.value, ShaperLine(shaping, inst, rows))
  }

  /** The shaper part of RenderInstanceOpts. */
  method Render(shaping: bool, inst: Instance, rows: seq<Client>) returns (conf: Conf)
    requires inst.conf.Some?
    ensures conf == ConfOf(shaping, inst, rows)
  {
    if !shaping { return Conf(inst.conf.value, None); }
    var bits := 0;
    if inst.server {
      for i := 0 to |rows|
        invariant bits == TopRate(rows[..i])
      {
        assert rows[..i + 1][..i] == rows[..i];
        var rx, tx := rows[i].bwRx, rows[i].bwTx;
        if rows[i].bwTotal > 0 { rx, tx := rows[i].bwTotal, rows[i].bwTotal; }
        if rx > bits { bits := rx; }
        if tx > bits { bits := tx; }
      }
      assert rows[..|rows|] == rows;
    }
    if inst.bwRx > bits { bits := inst.bwRx; }
    if inst.bwTx > bits { bits := inst.bwTx; }
    if bits <= 0 { return Conf(inst.conf.value, None); }
    var rate := bits / 8;
    if rate < 1 { rate := 1; }
    return Conf(inst.conf.value, Some(rate));
  }

  // ---- events ----

  datatype Event =
    | PeerConnected(inst: string, cn: string)
    | PeerDisconnected(inst: string, cn: string)
    | InstanceUp(inst: string)
    | InstanceDown(inst: string)
    | AutoSuspended(inst: string, cn: string, reason: Reason)
    | ReconcileError(inst: string)

  /** A duplicate-free listing of a set, in any order. */
  ghost predicate Lists(order: seq<string>, names: set<string>) {
    && (forall i, j :: 0 <= i < j < |order| ==> order[i] != order[j])
    && (forall n :: n in order <==> n in names)
  }

  function Came(inst: string): string -> Event { cn => PeerConnected(inst, cn) }
  function Went(inst: string): string -> Event { cn => PeerDisconnected(inst, cn) }

  /** An event for each name of a list. */
  function Each(cns: seq<string>, event: string -> Event): seq<Event> {
    if cns == [] then [] else Each(cns[..|cns| - 1], event) + [event(cns[|cns| - 1])]
  }

  /** The iteration orders over the two peer sets: Go leaves them open. */
  datatype Order = Order(came: seq<string>, went: seq<string>)

  ghost predicate OrderFits(o: Order, before: set<string>, now: set<string>) {
    Lists(o.came, now - before) && Lists(o.went, before - now)
  }

  function PeerEdges(inst: string, o: Order): seq<Event> { Each(o.came, Came(inst)) + Each(o.went, Went(inst)) }

  function InstanceEdge(seen: map<string, bool>, name: string, up: bool): seq<Event> {
    if name in seen && seen[name] != up then [if up then InstanceUp(name) else InstanceDown(name)] else []
  }

  // ---- first suspension check ----

  /** The rows after the check before rendering, and its events. */
  function CheckedRows(rows: seq<Client>, now: int): (r: seq<Client>)
    ensures |r| == |rows|
  {
    if rows == [] then []
    else
      var c := rows[|rows| - 1];
      CheckedRows(rows[..|rows| - 1], now) + [if ShouldAutoSuspend(c, now).Some? then c.(suspended := true) else c]
  }

  function CheckedEvents(inst: string, rows: seq<Client>, now: int): seq<Event> {
    if rows == [] then []
    else
      var c := rows[|rows| - 1];
      CheckedEvents(inst, rows[..|rows| - 1], now) +
      match ShouldAutoSuspend(c, now)
      case Some(reason) => [AutoSuspended(inst, c.cn, reason)]
      case None => []
  }

  // ---- sampling ----

  datatype Sample = Sample(rx: int, tx: int)

  /** A client of an instance: the keys of the per-client samples and of the cache. */
  datatype Key = Key(inst: string, cn: string)

  /** What the statistics cache shows for a client. */
  datatype Cached = Cached(connected: bool, rx: int, tx: int, suspended: bool)

  /** What the sampling loop has done so far. */
  datatype Sampling = Sampling(rows: seq<Client>, samples: map<Key, Sample>, cache: map<Key, Cached>,
                               fleet: Fleet, events: seq<Event>)

  function Previous(samples: map<Key, Sample>, k: Key): Sample {
    if k in samples then samples[k] else Sample(0, 0)
  }

  /** The counters of a row after one look at the live client. */
  function Counted(c: Client, live: Option<LiveClient>, samples: map<Key, Sample>, k: Key): Client {
    match live
    case None => c
    case Some(l) =>
      var prev := Previous(samples, k);
      c.(lastRx := AccumulateLifetime(c.lastRx, l.rx, prev.rx, k in samples),
         lastTx := AccumulateLifetime(c.lastTx, l.tx, prev.tx, k in samples))
  }

  function Find(live: map<string, LiveClient>, cn: string): Option<LiveClient> {
    if cn in live then Some(live[cn]) else None
  }

  /** A row after one look at its live client, and the event if it is suspended for it. */
  function SampledRow(c: Client, live: Option<LiveClient>, samples: map<Key, Sample>, k: Key, now: int): Client {
    var counted := Counted(c, live, samples, k);
    if ShouldAutoSuspend(counted, now).Some? then counted.(suspended := true) else counted
  }

  function SampledEvents(c: Client, live: Option<LiveClient>, samples: map<Key, Sample>, k: Key, now: int): seq<Event> {
    match ShouldAutoSuspend(Counted(c, live, samples, k), now)
    case Some(reason) => [AutoSuspended(k.inst, k.cn, reason)]
    case None => []
  }

  /** One client of the sampling loop. */
  function SampleOne(s: Sampling, inst: string, c: Client, live: map<string, LiveClient>, now: int): Sampling {
    var k := Key(inst, c.cn);
    var l := Find(live, c.cn);
    var row := SampledRow(c, l, s.samples, k, now);
    Sampling(s.rows + [row],
             if l.Some? then s.samples[k := Sample(l.value.rx, l.value.tx)] else s.samples,
             s.cache[k := Cached(l.Some? && !row.suspended, row.lastRx - row.offRx, row.lastTx - row.offTx, row.suspended)],
             if l.Some? && row.suspended then Killed(s.fleet, inst, c.cn) else s.fleet,
             s.events + SampledEvents(c, l, s.samples, k, now))
  }

  function SampleAll(start: Sampling, inst: string, rows: seq<Client>, live: map<string, LiveClient>, now: int): (s: Sampling)
    ensures |s.rows| == |start.rows| + |rows|
  {
    if rows == [] then start
    else SampleOne(SampleAll(start, inst, rows[..|rows| - 1], live, now), inst, rows[|rows| - 1], live, now)
  }

  // ---- one instance ----

  /** Everything a pass reads and writes, apart from the event log. */
  datatype World = World(rows: map<string, seq<Client>>, fleet: Fleet, samples: map<Key, Sample>,
                         cache: map<Key, Cached>, wasUp: map<string, bool>, peers: map<string, set<string>>)

  /** The clock readings of one applyInstance: before rendering and at sampling. */
  datatype Clock = Clock(start: int, sampled: int)

  function RowsOf(w: World, name: string): seq<Client> { if name in w.rows then w.rows[name] else [] }
  function PeersOf(w: World, name: string): set<string> { if name in w.peers then w.peers[name] else {} }

  function PutRows(w: World, inst: Instance, rows: seq<Client>): World {
    if inst.server && inst.name in w.rows then w.(rows := w.rows[inst.name := rows]) else w
  }

  /** The clients considered: those of a server, after the first check. */
  function Considered(w: World, inst: Instance, now: int): seq<Client> {
    if inst.server then CheckedRows(RowsOf(w, inst.name), now) else []
  }

  predicate Applies(inst: Instance) { inst.binary.Some? && inst.conf.Some? }

  function EnsuredFleet(w: World, shaping: bool, inst: Instance, now: int): Fleet
    requires Applies(inst)
  {
    Ensured(w.fleet, inst.name, inst.enabled, ConfOf(shaping, inst, Considered(w, inst, now)), inst.binary.value)
  }

  function LiveClients(f: Fleet, name: string): map<string, LiveClient> {
    if name in f.procs then ByCN(f.procs[name].clients) else map[]
  }

  function SampledClients(w: World, shaping: bool, inst: Instance, t: Clock): Sampling
    requires Applies(inst)
  {
    var fleet := EnsuredFleet(w, shaping, inst, t.start);
    SampleAll(Sampling([], w.samples, w.cache, fleet, []), inst.name, Considered(w, inst, t.start),
              LiveClients(fleet, inst.name), t.sampled)
  }

  function PeersNow(w: World, shaping: bool, inst: Instance, now: int): set<string>
    requires Applies(inst)
  {
    LiveClients(EnsuredFleet(w, shaping, inst, now), inst.name).Keys - {""}
  }

  /** Once its status was read the instance counts as up. */
  function AfterSampling(w: World, inst: Instance, s: Sampling, now: set<string>): World {
    World(PutRows(w, inst, s.rows).rows, s.fleet, s.samples, s.cache, w.wasUp[inst.name := true],
          w.peers[inst.name := now])
  }

  /** The world after applyInstance. */
  function Applied(w: World, shaping: bool, inst: Instance, t: Clock): World {
    if inst.binary.None? then w
    else if inst.conf.None? then PutRows(w, inst, Considered(w, inst, t.start))
    else if !inst.enabled then
      var fleet := EnsuredFleet(w, shaping, inst, t.start);
      PutRows(w, inst, Considered(w, inst, t.start)).(fleet := fleet, wasUp := w.wasUp[inst.name := false])
    else
      AfterSampling(w, inst, SampledClients(w, shaping, inst, t), PeersNow(w, shaping, inst, t.start))
  }

  function FirstEvents(w: World, inst: Instance, now: int): seq<Event> {
    if inst.server then CheckedEvents(inst.name, RowsOf(w, inst.name), now) else []
  }

  /** The events after rendering, given the iteration orders. */
  function LaterEvents(w: World, shaping: bool, inst: Instance, t: Clock, o: Order): seq<Event>
    requires Applies(inst)
  {
    if !inst.enabled then InstanceEdge(w.wasUp, inst.name, false)
    else
      var s := SampledClients(w, shaping, inst, t);
      PeerEdges(inst.name, o) + s.events + InstanceEdge(w.wasUp, inst.name, true)
  }

  /** The events applyInstance logs and, on an error, the one its caller adds. */
  function Logged(w: World, shaping: bool, inst: Instance, t: Clock, o: Order): seq<Event> {
    if inst.binary.None? then [ReconcileError(inst.name)]
    else
      FirstEvents(w, inst, t.start) +
      if inst.conf.None? then [ReconcileError(inst.name)] else LaterEvents(w, shaping, inst, t, o)
  }

  /** The iteration orders fit: they list the peers that came and went. */
  ghost predicate OrderOk(w: World, shaping: bool, inst: Instance, t: Clock, o: Order) {
    Applies(inst) && inst.enabled ==> OrderFits(o, PeersOf(w, inst.name), PeersNow(w, shaping, inst, t.start))
  }

  // ---- a whole pass ----

  /** An instance and the clock readings of its turn. */
  datatype Turn = Turn(inst: Instance, t: Clock)

  function AppliedAll(w: World, shaping: bool, turns: seq<Turn>): World {
    if turns == [] then w
    else
      var n := |turns| - 1;
      Applied(AppliedAll(w, shaping, turns[..n]), shaping, turns[n].inst, turns[n].t)
  }

  function NamesOf(turns: seq<Turn>): set<string> {
    if turns == [] then {} else NamesOf(turns[..|turns| - 1]) + {turns[|turns| - 1].inst.name}
  }

  function Passed(w: World, shaping: bool, turns: seq<Turn>): World {
    var a := AppliedAll(w, shaping, turns);
    a.(fleet := a.fleet.(procs := a.fleet.procs - Orphans(a.fleet, NamesOf(turns))))
  }

  ghost predicate OrdersOk(w: World, shaping: bool, turns: seq<Turn>, orders: seq<Order>)
    requires |orders| == |turns|
  {
    turns == [] ||
    var n := |turns| - 1;
    && OrdersOk(w, shaping, turns[..n], orders[..n])
    && OrderOk(AppliedAll(w, shaping, turns[..n]), shaping, turns[n].inst, turns[n].t, orders[n])
  }

  function LoggedAll(w: World, shaping: bool, turns: seq<Turn>, orders: seq<Order>): seq<Event>
    requires |orders| == |turns|
  {
    if turns == [] then []
    else
      var n := |turns| - 1;
      LoggedAll(w, shaping, turns[..n], orders[..n])
      + Logged(AppliedAll(w, shaping, turns[..n]), shaping, turns[n].inst, turns[n].t, orders[n])
  }
}
