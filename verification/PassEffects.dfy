/** What a reconcile pass does beyond the client rows: the shaper rate it renders, the sessions it
    ends, and the suspensions it announces. */
module PassEffects {
  import opened Wrappers
  import opened Traffic
  import opened Backend
  import opened Passes
  import opened ClientRuns

  // ---- the shaper line ----

  /** A rate configured for a client: its total if there is one, else those of both directions. */
  predicate ClientHas(c: Client, rate: int) {
    if c.bwTotal > 0 then rate == c.bwTotal else rate == c.bwRx || rate == c.bwTx
  }

  /** A rate that counts for the conf: of the instance, or of a client of a server. */
  predicate Counts(inst: Instance, rows: seq<Client>, rate: int) {
    rate == inst.bwRx || rate == inst.bwTx || (inst.server && exists i :: 0 <= i < |rows| && ClientHas(rows[i], rate))
  }

  lemma {:induction false} TopRateIs(rows: seq<Client>)
    ensures TopRate(rows) >= 0
    ensures forall i :: 0 <= i < |rows| ==> ClientRate(rows[i]) <= TopRate(rows)
    ensures TopRate(rows) > 0 ==> exists i :: 0 <= i < |rows| && ClientRate(rows[i]) == TopRate(rows)
  {
    if rows != [] {
      var init := rows[..|rows| - 1];
      TopRateIs(init);
      assert forall i :: 0 <= i < |init| ==> init[i] == rows[i];
      if TopRate(init) == TopRate(rows) && TopRate(rows) > 0 {
        var i :| 0 <= i < |init| && ClientRate(init[i]) == TopRate(init);
        assert ClientRate(rows[i]) == TopRate(rows);
      }
    }
  }

  lemma ClientRateIs(c: Client)
    ensures ClientHas(c, ClientRate(c)) && forall rate :: ClientHas(c, rate) ==> rate <= ClientRate(c)
  {
  }

  /** No rate that counts is above this one. */
  ghost predicate NoneHigher(inst: Instance, rows: seq<Client>, bits: int) { forall rate :: Counts(inst, rows, rate) ==> rate <= bits }

  lemma BitsAre(inst: Instance, rows: seq<Client>)
    ensures NoneHigher(inst, rows, ShaperBits(inst, rows))
    ensures ShaperBits(inst, rows) > 0 ==> Counts(inst, rows, ShaperBits(inst, rows))
  {
    TopRateIs(rows);
    forall rate | Counts(inst, rows, rate) ensures rate <= ShaperBits(inst, rows) {
      if rate != inst.bwRx && rate != inst.bwTx {
        var i :| 0 <= i < |rows| && ClientHas(rows[i], rate);
        ClientRateIs(rows[i]);
      }
    }
    if ShaperBits(inst, rows) > 0 && ShaperBits(inst, rows) != inst.bwRx && ShaperBits(inst, rows) != inst.bwTx {
      var i :| 0 <= i < |rows| && ClientRate(rows[i]) == TopRate(rows);
      ClientRateIs(rows[i]);
    }
  }

  /** The shaper line is the highest rate that counts, in bytes per second and at least 1; there is
      none when shaping by conf is off or no rate is positive. */
  lemma ShaperLineIs(shaping: bool, inst: Instance, rows: seq<Client>, bits: int)
    requires Counts(inst, rows, bits) && NoneHigher(inst, rows, bits)
    ensures ShaperLine(shaping, inst, rows) == if !shaping || bits <= 0 then None else if bits < 8 then Some(1) else Some(bits / 8)
  {
    BitsAre(inst, rows);
    var top := ShaperBits(inst, rows);
    if bits > 0 || top > 0 { assert Counts(inst, rows, bits) && bits <= top; }
  }

  // ---- sessions ended ----

  /** The sessions neither named nor addressed by any of these. */
  function Spared(clients: seq<LiveClient>, gone: set<string>): seq<LiveClient> {
    if clients == [] then []
    else
      var c := clients[|clients| - 1];
      Spared(clients[..|clients| - 1], gone) + if c.cn in gone || c.addr in gone then [] else [c]
  }

  lemma {:induction false} WithoutIs(clients: seq<LiveClient>, gone: set<string>, cn: string)
    ensures Without(Spared(clients, gone), cn) == Spared(clients, gone + {cn})
  {
    if clients != [] {
      var init, c := clients[..|clients| - 1], clients[|clients| - 1];
      WithoutIs(init, gone, cn);
      if c.cn in gone || c.addr in gone {
        assert Spared(clients, gone) == Spared(init, gone) && Spared(clients, gone + {cn}) == Spared(init, gone + {cn});
      } else {
        WithoutSnoc(Spared(init, gone), c, cn);
      }
    }
  }

  lemma WithoutSnoc(clients: seq<LiveClient>, c: LiveClient, cn: string)
    ensures Without(clients + [c], cn) == Without(clients, cn) + if c.cn != cn && c.addr != cn then [c] else []
  {
    assert (clients + [c])[..|clients|] == clients;
  }

  lemma {:induction false} SparedAll(clients: seq<LiveClient>)
    ensures Spared(clients, {}) == clients
  {
    if clients != [] {
      SparedAll(clients[..|clients| - 1]);
      assert clients == clients[..|clients| - 1] + [clients[|clients| - 1]];
    }
  }

  lemma {:induction false} SparedAre(clients: seq<LiveClient>, gone: set<string>, c: LiveClient)
    ensures c in Spared(clients, gone) <==> c in clients && c.cn !in gone && c.addr !in gone
  {
    if clients != [] {
      SparedAre(clients[..|clients| - 1], gone, c);
      assert clients == clients[..|clients| - 1] + [clients[|clients| - 1]];
    }
  }

  /** A kill ends exactly the sessions of that common name or address, and is recorded. */
  lemma KillEnds(f: Fleet, name: string, cn: string)
    requires name in f.procs
    ensures var g := Killed(f, name, cn);
      && name in g.procs && g.procs[name] == f.procs[name].(clients := g.procs[name].clients)
      && g.procs[name].clients == Spared(f.procs[name].clients, {cn})
      && g.procs - {name} == f.procs - {name} && g.kills == f.kills + [(name, cn)] && g.starts == f.starts
  {
    SparedAll(f.procs[name].clients);
    WithoutIs(f.procs[name].clients, {}, cn);
    assert {} + {cn} == {cn};
  }

  /** The names the sampling loop has killed: connected clients that end suspended. */
  function GoneOf(s: Sampling, rows: seq<Client>, live: map<string, LiveClient>): set<string>
    requires |s.rows| >= |rows|
  {
    set i | 0 <= i < |rows| && rows[i].cn in live && s.rows[i].suspended :: rows[i].cn
  }

  lemma OneMoreGone(s: Sampling, inst: string, rows: seq<Client>, live: map<string, LiveClient>, now: int)
    requires rows != [] && |s.rows| == |rows| - 1
    ensures var c, s' := rows[|rows| - 1], SampleOne(s, inst, rows[|rows| - 1], live, now);
      GoneOf(s', rows, live) == GoneOf(s, rows[..|rows| - 1], live)
        + if c.cn in live && s'.rows[|rows| - 1].suspended then {c.cn} else {}
  {
    var s' := SampleOne(s, inst, rows[|rows| - 1], live, now);
    var init := rows[..|rows| - 1];
    assert forall i :: 0 <= i < |init| ==> init[i] == rows[i] && s'.rows[i] == s.rows[i];
  }

  lemma {:induction false} SamplingEnds(start: Sampling, inst: string, rows: seq<Client>, live: map<string, LiveClient>, now: int)
    requires start.rows == [] && inst in start.fleet.procs
    ensures var s := SampleAll(start, inst, rows, live, now);
      && inst in s.fleet.procs && s.fleet.procs - {inst} == start.fleet.procs - {inst}
      && s.fleet.procs[inst] == start.fleet.procs[inst].(clients := Spared(start.fleet.procs[inst].clients, GoneOf(s, rows, live)))
  {
    if rows == [] {
      SparedAll(start.fleet.procs[inst].clients);
      assert GoneOf(start, rows, live) == {};
    } else {
      var init, c := rows[..|rows| - 1], rows[|rows| - 1];
      var s := SampleAll(start, inst, init, live, now);
      SamplingEnds(start, inst, init, live, now);
      OneMoreGone(s, inst, rows, live, now);
      WithoutIs(start.fleet.procs[inst].clients, GoneOf(s, init, live), c.cn);
      assert GoneOf(s, init, live) + {} == GoneOf(s, init, live);
    }
  }

  /** The client is among the rows of the instance, connected, and suspended after the turn. */
  ghost predicate EndsSuspended(w: World, shaping: bool, inst: Instance, t: Clock, cn: string)
    requires Applies(inst) && inst.enabled
  {
    var rows := SampledClients(w, shaping, inst, t).rows;
    exists i :: 0 <= i < |rows| && rows[i].cn == cn && rows[i].suspended && LiveOf(w, shaping, inst, t, cn).Some?
  }

  lemma {:induction false} SampledNames(start: Sampling, inst: string, rows: seq<Client>, live: map<string, LiveClient>, now: int, i: nat)
    requires start.rows == [] && i < |rows|
    ensures SampleAll(start, inst, rows, live, now).rows[i].cn == rows[i].cn
  {
    if i < |rows| - 1 { SampledNames(start, inst, rows[..|rows| - 1], live, now, i); }
  }

  /** A turn ends exactly the sessions of the connected clients that end suspended, by name or by
      address, in place; nothing else about the process changes, nor any other process. */
  lemma TurnEndsSessions(w: World, shaping: bool, inst: Instance, t: Clock) returns (gone: set<string>)
    requires Applies(inst) && inst.enabled
    ensures forall cn :: cn in gone <==> EndsSuspended(w, shaping, inst, t, cn)
    ensures var f, g := EnsuredFleet(w, shaping, inst, t.start), Applied(w, shaping, inst, t).fleet;
      && inst.name in f.procs && inst.name in g.procs && g.procs - {inst.name} == f.procs - {inst.name}
      && g.procs[inst.name] == f.procs[inst.name].(clients := Spared(f.procs[inst.name].clients, gone))
  {
    var fleet := EnsuredFleet(w, shaping, inst, t.start);
    var start, rows, live := Sampling([], w.samples, w.cache, fleet, []), Considered(w, inst, t.start), LiveClients(fleet, inst.name);
    var s := SampledClients(w, shaping, inst, t);
    SamplingEnds(start, inst.name, rows, live, t.sampled);
    gone := GoneOf(s, rows, live);
    forall i: nat | i < |rows| ensures s.rows[i].cn == rows[i].cn { SampledNames(start, inst.name, rows, live, t.sampled, i); }
    forall cn ensures cn in gone <==> EndsSuspended(w, shaping, inst, t, cn) {
      if EndsSuspended(w, shaping, inst, t, cn) {
        var i :| 0 <= i < |s.rows| && s.rows[i].cn == cn && s.rows[i].suspended;
        assert rows[i].cn == cn && rows[i].cn in live;
      }
    }
  }

  lemma {:induction false} LiveExactly(clients: seq<LiveClient>, cn: string)
    ensures cn in ByCN(clients) <==> exists c :: c in clients && c.cn == cn
    ensures cn in ByCN(clients) ==> ByCN(clients)[cn] in clients && ByCN(clients)[cn].cn == cn
  {
    if clients != [] {
      var init, last := clients[..|clients| - 1], clients[|clients| - 1];
      LiveExactly(init, cn);
      assert clients == init + [last];
      assert last in clients;
    }
  }

  /** No session of a client that is suspended after a turn is left. */
  lemma TurnLeavesNoneSuspended(w: World, shaping: bool, inst: Instance, t: Clock, i: nat, c: LiveClient)
    requires Applies(inst) && inst.enabled && Serves(w, inst, i)
    ensures var w' := Applied(w, shaping, inst, t);
      && inst.name in w'.rows && i < |w'.rows[inst.name]| && inst.name in w'.fleet.procs
      && (w'.rows[inst.name][i].suspended && c in w'.fleet.procs[inst.name].clients ==> c.cn != w'.rows[inst.name][i].cn)
  {
    var w', f := Applied(w, shaping, inst, t), EnsuredFleet(w, shaping, inst, t.start);
    AppliedRow(w, shaping, inst, t, i);
    var gone := TurnEndsSessions(w, shaping, inst, t);
    var r := w'.rows[inst.name][i];
    SparedAre(f.procs[inst.name].clients, gone, c);
    LiveExactly(f.procs[inst.name].clients, r.cn);
    if r.suspended && LiveOf(w, shaping, inst, t, r.cn).Some? {
      assert SampledClients(w, shaping, inst, t).rows[i] == r;
      assert EndsSuspended(w, shaping, inst, t, r.cn);
    }
  }

  /** A turn leaves the processes of other instances alone, sessions included. */
  lemma TurnSparesSessions(w: World, shaping: bool, inst: Instance, t: Clock, name: string)
    requires name != inst.name
    ensures var w' := Applied(w, shaping, inst, t);
      (name in w'.fleet.procs <==> name in w.fleet.procs) && (name in w.fleet.procs ==> w'.fleet.procs[name] == w.fleet.procs[name])
  {
    if Applies(inst) && inst.enabled {
      var gone := TurnEndsSessions(w, shaping, inst, t);
      var f, g := EnsuredFleet(w, shaping, inst, t.start), Applied(w, shaping, inst, t).fleet;
      assert name in f.procs - {inst.name} <==> name in f.procs;
      assert name in g.procs - {inst.name} <==> name in g.procs;
      if name in f.procs { assert (f.procs - {inst.name})[name] == (g.procs - {inst.name})[name]; }
    }
  }

  /** The process of an instance is the same after later turns of a pass. */
  lemma {:induction false} LaterTurnsSpare(w: World, shaping: bool, turns: seq<Turn>, k: nat)
    requires k < |turns| && DistinctNames(turns)
    ensures var name, v, w' := turns[k].inst.name, Applied(AppliedAll(w, shaping, turns[..k]), shaping, turns[k].inst, turns[k].t), AppliedAll(w, shaping, turns);
      (name in w'.fleet.procs <==> name in v.fleet.procs) && (name in v.fleet.procs ==> w'.fleet.procs[name] == v.fleet.procs[name])
  {
    var n := |turns| - 1;
    if k < n {
      LaterTurnsSpare(w, shaping, turns[..n], k);
      assert turns[..n][..k] == turns[..k];
      TurnSparesSessions(AppliedAll(w, shaping, turns[..n]), shaping, turns[n].inst, turns[n].t, turns[k].inst.name);
    } else {
      assert turns[..n] == turns[..k];
    }
  }

  lemma {:induction false} NamedInPass(turns: seq<Turn>, k: nat)
    requires k < |turns|
    ensures turns[k].inst.name in NamesOf(turns)
  {
    if k < |turns| - 1 { NamedInPass(turns[..|turns| - 1], k); }
  }

  /** After a pass no session of a suspended client of an enabled, applied server is left. */
  lemma PassLeavesNoneSuspended(w: World, shaping: bool, turns: seq<Turn>, k: nat, i: nat, c: LiveClient)
    requires k < |turns| && DistinctNames(turns) && Applies(turns[k].inst) && turns[k].inst.enabled && Serves(w, turns[k].inst, i)
    ensures var name, w' := turns[k].inst.name, Passed(w, shaping, turns);
      && name in w'.rows && i < |w'.rows[name]| && name in w'.fleet.procs
      && (w'.rows[name][i].suspended && c in w'.fleet.procs[name].clients ==> c.cn != w'.rows[name][i].cn)
  {
    var name, u := turns[k].inst.name, AppliedAll(w, shaping, turns[..k]);
    TurnDecides(w, shaping, turns, k);
    TurnLeavesNoneSuspended(u, shaping, turns[k].inst, turns[k].t, i, c);
    LaterTurnsSpare(w, shaping, turns, k);
    NamedInPass(turns, k);
  }

  // ---- suspensions announced ----

  /** Why a client that may not stay is suspended: expiry comes first. */
  function ReasonAt(c: Client, now: int): Reason { if c.expires.Some? && now > c.expires.value then Expired else TrafficLimit }

  lemma ReasonIs(c: Client, now: int)
    ensures ShouldAutoSuspend(c, now) == if c.suspended || InGoodStanding(c, now) then None else Some(ReasonAt(c, now))
  {
  }

  /** The reasons for which a log announces the suspension of a client, in order. */
  function Announced(log: seq<Event>, inst: string, cn: string): seq<Reason> {
    if log == [] then []
    else
      var e := log[|log| - 1];
      Announced(log[..|log| - 1], inst, cn) + if e.AutoSuspended? && e.inst == inst && e.cn == cn then [e.reason] else []
  }

  lemma {:induction false} AnnouncedJoin(a: seq<Event>, b: seq<Event>, inst: string, cn: string)
    ensures Announced(a + b, inst, cn) == Announced(a, inst, cn) + Announced(b, inst, cn)
  {
    if b == [] {
      assert a + b == a;
    } else {
      var init, last := b[..|b| - 1], b[|b| - 1];
      AnnouncedJoin(a, init, inst, cn);
      assert (a + b)[..|a + b| - 1] == a + init && (a + b)[|a + b| - 1] == last;
      JoinReasons(Announced(a, inst, cn), Announced(init, inst, cn), if last.AutoSuspended? && last.inst == inst && last.cn == cn then [last.reason] else []);
    }
  }

  lemma JoinReasons(a: seq<Reason>, b: seq<Reason>, c: seq<Reason>)
    ensures a + b + c == a + (b + c)
  {
  }

  lemma {:induction false} NoneAnnounced(log: seq<Event>, inst: string, cn: string)
    requires forall i :: 0 <= i < |log| ==> !(log[i].AutoSuspended? && log[i].inst == inst && log[i].cn == cn)
    ensures Announced(log, inst, cn) == []
  {
    if log != [] { NoneAnnounced(log[..|log| - 1], inst, cn); }
  }

  /** What a check at this time announces of a client. */
  function CheckSays(c: Client, now: int): seq<Reason> {
    match ShouldAutoSuspend(c, now) case Some(reason) => [reason] case None => []
  }

  lemma {:induction false} OthersUnannounced(inst: string, rows: seq<Client>, now: int, cn: string)
    requires forall i :: 0 <= i < |rows| ==> rows[i].cn != cn
    ensures Announced(CheckedEvents(inst, rows, now), inst, cn) == []
  {
    if rows != [] {
      var init, c := rows[..|rows| - 1], rows[|rows| - 1];
      OthersUnannounced(inst, init, now, cn);
      LastCheck(inst, init, c, rows, now, cn);
    }
  }

  lemma LastCheck(inst: string, init: seq<Client>, c: Client, rows: seq<Client>, now: int, cn: string)
    requires rows == init + [c]
    ensures Announced(CheckedEvents(inst, rows, now), inst, cn)
      == Announced(CheckedEvents(inst, init, now), inst, cn) + if c.cn == cn then CheckSays(c, now) else []
  {
    assert rows[..|rows| - 1] == init && rows[|rows| - 1] == c;
    var before := CheckedEvents(inst, init, now);
    match ShouldAutoSuspend(c, now) {
      case Some(reason) =>
        AnnouncedJoin(before, [AutoSuspended(inst, c.cn, reason)], inst, cn);
        OneAnnounced(AutoSuspended(inst, c.cn, reason), inst, cn);
      case None => assert before + [] == before;
    }
  }

  lemma OneAnnounced(e: Event, inst: string, cn: string)
    ensures Announced([e], inst, cn) == if e.AutoSuspended? && e.inst == inst && e.cn == cn then [e.reason] else []
  {
    assert [e][..0] == [];
  }

  lemma {:induction false} CheckAnnounces(inst: string, rows: seq<Client>, now: int, i: nat)
    requires i < |rows| && DistinctCNs(rows)
    ensures Announced(CheckedEvents(inst, rows, now), inst, rows[i].cn) == CheckSays(rows[i], now)
  {
    var init, c := rows[..|rows| - 1], rows[|rows| - 1];
    LastCheck(inst, init, c, rows, now, rows[i].cn);
    if i < |init| { CheckAnnounces(inst, init, now, i); } else { OthersUnannounced(inst, init, now, c.cn); }
  }

  /** The same for the sampling loop, after counting. */
  lemma LastSampled(s: Sampling, inst: string, c: Client, live: map<string, LiveClient>, now: int, cn: string)
    ensures Announced(SampleOne(s, inst, c, live, now).events, inst, cn) == Announced(s.events, inst, cn)
      + if c.cn == cn then CheckSays(Counted(c, Find(live, c.cn), s.samples, Key(inst, c.cn)), now) else []
  {
    var k, l := Key(inst, c.cn), Find(live, c.cn);
    var added := SampledEvents(c, l, s.samples, k, now);
    AnnouncedJoin(s.events, added, inst, cn);
    if added != [] { OneAnnounced(added[0], inst, cn); }
  }

  lemma {:induction false} OthersUnsampled(start: Sampling, inst: string, rows: seq<Client>, live: map<string, LiveClient>, now: int, cn: string)
    requires start.events == [] && forall i :: 0 <= i < |rows| ==> rows[i].cn != cn
    ensures Announced(SampleAll(start, inst, rows, live, now).events, inst, cn) == []
  {
    if rows != [] {
      var init := rows[..|rows| - 1];
      OthersUnsampled(start, inst, init, live, now, cn);
      LastSampled(SampleAll(start, inst, init, live, now), inst, rows[|rows| - 1], live, now, cn);
    }
  }

  lemma {:induction false} SamplingAnnounces(start: Sampling, inst: string, rows: seq<Client>, live: map<string, LiveClient>, now: int, i: nat)
    requires start.events == [] && i < |rows| && DistinctCNs(rows)
    ensures Announced(SampleAll(start, inst, rows, live, now).events, inst, rows[i].cn)
      == CheckSays(Counted(rows[i], Find(live, rows[i].cn), start.samples, Key(inst, rows[i].cn)), now)
  {
    var init, c := rows[..|rows| - 1], rows[|rows| - 1];
    var s := SampleAll(start, inst, init, live, now);
    LastSampled(s, inst, c, live, now, rows[i].cn);
    if i < |init| {
      SamplingAnnounces(start, inst, init, live, now, i);
    } else {
      OthersUnsampled(start, inst, init, live, now, c.cn);
      SampledKeys(start, inst, init, live, now, Key(inst, c.cn));
    }
  }

  lemma {:induction false} EachUnannounced(cns: seq<string>, event: string -> Event, inst: string, cn: string)
    requires forall x :: !event(x).AutoSuspended?
    ensures Announced(Each(cns, event), inst, cn) == []
  {
    if cns != [] {
      var init, last := cns[..|cns| - 1], cns[|cns| - 1];
      EachUnannounced(init, event, inst, cn);
      AnnouncedJoin(Each(init, event), [event(last)], inst, cn);
      OneAnnounced(event(last), inst, cn);
    }
  }

  lemma OtherEvents(w: World, inst: Instance, o: Order, up: bool, name: string, cn: string)
    ensures Announced(PeerEdges(inst.name, o), name, cn) == [] && Announced(InstanceEdge(w.wasUp, inst.name, up), name, cn) == []
    ensures Announced([ReconcileError(inst.name)], name, cn) == []
  {
    EachUnannounced(o.came, Came(inst.name), name, cn);
    EachUnannounced(o.went, Went(inst.name), name, cn);
    AnnouncedJoin(Each(o.came, Came(inst.name)), Each(o.went, Went(inst.name)), name, cn);
    NoneAnnounced(InstanceEdge(w.wasUp, inst.name, up), name, cn);
    NoneAnnounced([ReconcileError(inst.name)], name, cn);
  }

  /** The row that the second check judges: checked once and counted. */
  function Judged(w: World, shaping: bool, inst: Instance, t: Clock, c: Client): Client
    requires Applies(inst)
  {
    Counted(c.(suspended := c.suspended || (ShouldAutoSuspend(c, t.start).Some?)), LiveOf(w, shaping, inst, t, c.cn), w.samples, Key(inst.name, c.cn))
  }

  /** The client whose events are looked for, as the sampling loop finds it. */
  lemma ConsideredIs(w: World, inst: Instance, t: Clock, i: nat, rows: seq<Client>)
    requires Serves(w, inst, i) && rows == Considered(w, inst, t.start)
    ensures var c := w.rows[inst.name][i];
      && i < |rows| && DistinctCNs(rows)
      && rows[i] == c.(suspended := c.suspended || ShouldAutoSuspend(c, t.start).Some?) && rows[i].cn == c.cn
  {
    var stored := w.rows[inst.name];
    CheckedRow(stored, t.start, i);
    SuspendsExactly(stored[i], t.start);
    CheckedAreDistinct(stored, t.start);
  }

  lemma SampledSays(w: World, shaping: bool, inst: Instance, t: Clock, i: nat)
    requires Applies(inst) && inst.enabled && Serves(w, inst, i)
    ensures var c := w.rows[inst.name][i];
      Announced(SampledClients(w, shaping, inst, t).events, inst.name, c.cn) == CheckSays(Judged(w, shaping, inst, t, c), t.sampled)
  {
    var fleet, rows := EnsuredFleet(w, shaping, inst, t.start), Considered(w, inst, t.start);
    ConsideredIs(w, inst, t, i, rows);
    var start, live := Sampling([], w.samples, w.cache, fleet, []), LiveClients(fleet, inst.name);
    SamplingAnnounces(start, inst.name, rows, live, t.sampled, i);
    assert SampledClients(w, shaping, inst, t) == SampleAll(start, inst.name, rows, live, t.sampled);
  }

  lemma LaterSay(w: World, shaping: bool, inst: Instance, t: Clock, o: Order, cn: string)
    requires Applies(inst)
    ensures Announced(LaterEvents(w, shaping, inst, t, o), inst.name, cn)
      == if inst.enabled then Announced(SampledClients(w, shaping, inst, t).events, inst.name, cn) else []
  {
    OtherEvents(w, inst, o, inst.enabled, inst.name, cn);
    if inst.enabled {
      var s := SampledClients(w, shaping, inst, t);
      AnnouncedJoin(PeerEdges(inst.name, o), s.events, inst.name, cn);
      AnnouncedJoin(PeerEdges(inst.name, o) + s.events, InstanceEdge(w.wasUp, inst.name, true), inst.name, cn);
    }
  }

  /** What the two checks of a turn announce of a client. */
  lemma TurnSays(w: World, shaping: bool, inst: Instance, t: Clock, o: Order, i: nat)
    requires Applies(inst) && Serves(w, inst, i)
    ensures var c := w.rows[inst.name][i];
      Announced(Logged(w, shaping, inst, t, o), inst.name, c.cn)
        == CheckSays(c, t.start) + if inst.enabled then CheckSays(Judged(w, shaping, inst, t, c), t.sampled) else []
  {
    var rows, cn := w.rows[inst.name], w.rows[inst.name][i].cn;
    CheckAnnounces(inst.name, rows, t.start, i);
    AnnouncedJoin(FirstEvents(w, inst, t.start), LaterEvents(w, shaping, inst, t, o), inst.name, cn);
    LaterSay(w, shaping, inst, t, o, cn);
    if inst.enabled { SampledSays(w, shaping, inst, t, i); }
  }

  /** A client that fails the first check is suspended at the second. */
  lemma SaysOnce(c: Client, counted: Client, enabled: bool, t: Clock, r: Client)
    requires counted.suspended == (c.suspended || ShouldAutoSuspend(c, t.start).Some?)
    requires r.suspended == (counted.suspended || (enabled && ShouldAutoSuspend(counted, t.sampled).Some?)) && r.expires == counted.expires
    ensures CheckSays(c, t.start) + (if enabled then CheckSays(counted, t.sampled) else [])
      == if c.suspended || !r.suspended then [] else [if InGoodStanding(c, t.start) then ReasonAt(r, t.sampled) else ReasonAt(c, t.start)]
  {
    ReasonIs(c, t.start);
    ReasonIs(counted, t.sampled);
  }

  lemma JudgedRow(w: World, shaping: bool, inst: Instance, t: Clock, i: nat)
    requires Applies(inst) && Serves(w, inst, i)
    ensures var c, w' := w.rows[inst.name][i], Applied(w, shaping, inst, t);
      && inst.name in w'.rows && i < |w'.rows[inst.name]|
      && var r, counted := w'.rows[inst.name][i], Judged(w, shaping, inst, t, c);
      r.suspended == (counted.suspended || (inst.enabled && ShouldAutoSuspend(counted, t.sampled).Some?)) && r.expires == counted.expires
  {
    AppliedRow(w, shaping, inst, t, i);
    SuspendsExactly(w.rows[inst.name][i], t.start);
  }

  /** A turn of an applied server announces the suspension of a client once if it becomes suspended
      in the turn, with the reason at the check it failed, and not at all otherwise. */
  lemma TurnAnnouncesExactly(w: World, shaping: bool, inst: Instance, t: Clock, o: Order, i: nat)
    requires Applies(inst) && Serves(w, inst, i)
    ensures var c, w' := w.rows[inst.name][i], Applied(w, shaping, inst, t);
      && inst.name in w'.rows && i < |w'.rows[inst.name]|
      && var r := w'.rows[inst.name][i];
      Announced(Logged(w, shaping, inst, t, o), inst.name, c.cn) ==
        if c.suspended || !r.suspended then []
        else [if InGoodStanding(c, t.start) then ReasonAt(r, t.sampled) else ReasonAt(c, t.start)]
  {
    var c := w.rows[inst.name][i];
    TurnSays(w, shaping, inst, t, o, i);
    JudgedRow(w, shaping, inst, t, i);
    SaysOnce(c, Judged(w, shaping, inst, t, c), inst.enabled, t, Applied(w, shaping, inst, t).rows[inst.name][i]);
  }
}
