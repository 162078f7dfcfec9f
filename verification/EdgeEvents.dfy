/** The order of edge events: connects and disconnects of one peer alternate, and so do the up and
    down events of an instance, within one daemon process. */
module EdgeEvents {
  import opened Traffic
  import opened Backend
  import opened Passes
  import opened ClientRuns

  // ---- projections of the log ----

  /** The marks a reading of single events finds in a log. */
  function Marks(log: seq<Event>, f: Event -> seq<bool>): seq<bool> {
    if log == [] then [] else Marks(log[..|log| - 1], f) + f(log[|log| - 1])
  }

  /** Marks of a log are those of its parts. */
  lemma {:induction false} MarksJoin(a: seq<Event>, b: seq<Event>, f: Event -> seq<bool>)
    ensures Marks(a + b, f) == Marks(a, f) + Marks(b, f)
  {
    if b == [] {
      assert a + b == a;
    } else {
      var init, last := b[..|b| - 1], b[|b| - 1];
      MarksJoin(a, init, f);
      MarksSnoc(a + b, a + init, last, f);
      JoinMarks(Marks(a, f), Marks(init, f), f(last));
    }
  }

  lemma JoinMarks(a: seq<bool>, b: seq<bool>, c: seq<bool>)
    ensures a + b + c == a + (b + c)
  {
  }

  lemma MarksSnoc(log: seq<Event>, init: seq<Event>, last: Event, f: Event -> seq<bool>)
    requires log == init + [last]
    ensures Marks(log, f) == Marks(init, f) + f(last)
  {
    assert log[..|log| - 1] == init;
  }

  /** The connects (true) and disconnects (false) of one peer. */
  function PeerMark(inst: string, cn: string): Event -> seq<bool> {
    e => if e == PeerConnected(inst, cn) then [true] else if e == PeerDisconnected(inst, cn) then [false] else []
  }

  function PeerMarks(log: seq<Event>, inst: string, cn: string): seq<bool> { Marks(log, PeerMark(inst, cn)) }

  /** The ups (true) and downs (false) of one instance. */
  function InstanceMark(inst: string): Event -> seq<bool> {
    e => if e == InstanceUp(inst) then [true] else if e == InstanceDown(inst) then [false] else []
  }

  function InstanceMarks(log: seq<Event>, inst: string): seq<bool> { Marks(log, InstanceMark(inst)) }

  // ---- what one turn logs ----

  /** The marks of a duplicate-free list of events among which only the one of `mine` is marked. */
  lemma {:induction false} EachMarks(cns: seq<string>, event: string -> Event, f: Event -> seq<bool>, mine: string, mark: seq<bool>)
    requires forall i, j :: 0 <= i < j < |cns| ==> cns[i] != cns[j]
    requires forall x :: f(event(x)) == if x == mine then mark else []
    ensures Marks(Each(cns, event), f) == if mine in cns then mark else []
  {
    if cns != [] {
      var init, last := cns[..|cns| - 1], cns[|cns| - 1];
      EachMarks(init, event, f, mine, mark);
      MarksSnoc(Each(cns, event), Each(init, event), event(last), f);
      assert cns == init + [last];
    }
  }

  predicate IsEdge(e: Event) { !e.AutoSuspended? && !e.ReconcileError? }

  /** No peer or instance edges among these events. */
  ghost predicate NoEdges(log: seq<Event>) { forall i :: 0 <= i < |log| ==> !IsEdge(log[i]) }

  /** A reading that marks edges only. */
  ghost predicate ReadsEdges(f: Event -> seq<bool>) { forall e :: !IsEdge(e) ==> f(e) == [] }

  lemma {:induction false} NoEdgesNoMarks(log: seq<Event>, f: Event -> seq<bool>)
    requires NoEdges(log) && ReadsEdges(f)
    ensures Marks(log, f) == []
  {
    if log != [] {
      NoEdgesNoMarks(log[..|log| - 1], f);
    }
  }

  lemma {:induction false} CheckedNoEdges(inst: string, rows: seq<Client>, now: int)
    ensures NoEdges(CheckedEvents(inst, rows, now))
  {
    if rows != [] {
      CheckedNoEdges(inst, rows[..|rows| - 1], now);
    }
  }

  lemma {:induction false} SampledNoEdges(start: Sampling, inst: string, rows: seq<Client>, live: map<string, LiveClient>, now: int)
    requires NoEdges(start.events)
    ensures NoEdges(SampleAll(start, inst, rows, live, now).events)
  {
    if rows != [] {
      SampledNoEdges(start, inst, rows[..|rows| - 1], live, now);
    }
  }

  /** The edge of a peer between two observations. */
  function Edge(before: bool, now: bool): seq<bool> {
    if before == now then [] else [now]
  }

  lemma CameMarks(order: seq<string>, names: set<string>, name: string, inst: string, cn: string)
    requires Lists(order, names)
    ensures PeerMarks(Each(order, Came(name)), inst, cn) == if inst == name && cn in names then [true] else []
  {
    EachMarks(order, Came(name), PeerMark(inst, cn), cn, if inst == name then [true] else []);
  }

  lemma WentMarks(order: seq<string>, names: set<string>, name: string, inst: string, cn: string)
    requires Lists(order, names)
    ensures PeerMarks(Each(order, Went(name)), inst, cn) == if inst == name && cn in names then [false] else []
  {
    EachMarks(order, Went(name), PeerMark(inst, cn), cn, if inst == name then [false] else []);
  }

  lemma PeerEdgeMarks(name: string, o: Order, before: set<string>, now: set<string>, inst: string, cn: string)
    requires OrderFits(o, before, now)
    ensures PeerMarks(PeerEdges(name, o), inst, cn) == if inst == name then Edge(cn in before, cn in now) else []
  {
    CameMarks(o.came, now - before, name, inst, cn);
    WentMarks(o.went, before - now, name, inst, cn);
    MarksJoin(Each(o.came, Came(name)), Each(o.went, Went(name)), PeerMark(inst, cn));
  }

  lemma PeerEdgesNoInstanceMarks(name: string, o: Order, before: set<string>, now: set<string>, inst: string)
    requires OrderFits(o, before, now)
    ensures InstanceMarks(PeerEdges(name, o), inst) == []
  {
    var g := InstanceMark(inst);
    EachUnmarked(o.came, Came(name), g);
    EachUnmarked(o.went, Went(name), g);
    MarksJoin(Each(o.came, Came(name)), Each(o.went, Went(name)), g);
  }

  lemma {:induction false} EachUnmarked(cns: seq<string>, event: string -> Event, f: Event -> seq<bool>)
    requires forall x :: f(event(x)) == []
    ensures Marks(Each(cns, event), f) == []
  {
    if cns != [] {
      EachUnmarked(cns[..|cns| - 1], event, f);
      MarksSnoc(Each(cns, event), Each(cns[..|cns| - 1], event), event(cns[|cns| - 1]), f);
    }
  }

  function Seen(w: World, name: string): seq<bool> { if name in w.wasUp then [w.wasUp[name]] else [] }

  /** The up or down event between what was last seen and now. */
  function UpEdge(seen: seq<bool>, now: seq<bool>): seq<bool> {
    if seen == [] || now == [] || seen == now then [] else now
  }

  lemma SingleMark(log: seq<Event>, f: Event -> seq<bool>)
    requires |log| <= 1
    ensures Marks(log, f) == if log == [] then [] else f(log[0])
  {
    if log != [] { MarksSnoc(log, [], log[0], f); }
  }

  lemma InstanceEdgeMarks(w: World, name: string, up: bool, inst: string, cn: string)
    ensures InstanceMarks(InstanceEdge(w.wasUp, name, up), inst) == if inst == name then UpEdge(Seen(w, inst), [up]) else []
    ensures PeerMarks(InstanceEdge(w.wasUp, name, up), inst, cn) == []
  {
    var log := InstanceEdge(w.wasUp, name, up);
    SingleMark(log, InstanceMark(inst));
    SingleMark(log, PeerMark(inst, cn));
  }

  /** The marks of the log of one turn: only its edges count. */
  lemma TurnReading(first: seq<Event>, edges: seq<Event>, sampled: seq<Event>, up: seq<Event>, f: Event -> seq<bool>)
    requires NoEdges(first) && NoEdges(sampled) && ReadsEdges(f)
    ensures Marks(first + (edges + sampled + up), f) == Marks(edges, f) + Marks(up, f)
  {
    NoEdgesNoMarks(first, f);
    NoEdgesNoMarks(sampled, f);
    MarksJoin(first, edges + sampled + up, f);
    MarksJoin(edges + sampled, up, f);
    MarksJoin(edges, sampled, f);
  }

  /** The four stretches of the log of one turn. */
  datatype Stretches = Stretches(first: seq<Event>, edges: seq<Event>, sampled: seq<Event>, up: seq<Event>)

  function StretchesOf(w: World, shaping: bool, inst: Instance, t: Clock, o: Order): Stretches {
    if inst.binary.None? then Stretches([ReconcileError(inst.name)], [], [], [])
    else if inst.conf.None? then Stretches(FirstEvents(w, inst, t.start) + [ReconcileError(inst.name)], [], [], [])
    else if !inst.enabled then Stretches(FirstEvents(w, inst, t.start), [], [], InstanceEdge(w.wasUp, inst.name, false))
    else
      var s := SampledClients(w, shaping, inst, t);
      Stretches(FirstEvents(w, inst, t.start), PeerEdges(inst.name, o), s.events, InstanceEdge(w.wasUp, inst.name, true))
  }

  lemma LogStretches(w: World, shaping: bool, inst: Instance, t: Clock, o: Order)
    ensures var p := StretchesOf(w, shaping, inst, t, o);
      Logged(w, shaping, inst, t, o) == p.first + (p.edges + p.sampled + p.up) && NoEdges(p.first) && NoEdges(p.sampled)
  {
    CheckedNoEdges(inst.name, RowsOf(w, inst.name), t.start);
    if Applies(inst) && inst.enabled {
      var fleet := EnsuredFleet(w, shaping, inst, t.start);
      SampledNoEdges(Sampling([], w.samples, w.cache, fleet, []), inst.name, Considered(w, inst, t.start),
                     LiveClients(fleet, inst.name), t.sampled);
    }
  }

  lemma RunningMarks(w: World, inst: Instance, o: Order, s: Sampling, now: set<string>, name: string, cn: string)
    requires OrderFits(o, PeersOf(w, inst.name), now)
    ensures var w', up := AfterSampling(w, inst, s, now), InstanceEdge(w.wasUp, inst.name, true);
      && PeerMarks(PeerEdges(inst.name, o), name, cn) == Edge(cn in PeersOf(w, name), cn in PeersOf(w', name))
      && PeerMarks(up, name, cn) == []
      && InstanceMarks(PeerEdges(inst.name, o), name) == []
      && InstanceMarks(up, name) == UpEdge(Seen(w, name), Seen(w', name))
  {
    PeerEdgeMarks(inst.name, o, PeersOf(w, inst.name), now, name, cn);
    PeerEdgesNoInstanceMarks(inst.name, o, PeersOf(w, inst.name), now, name);
    InstanceEdgeMarks(w, inst.name, true, name, cn);
  }

  /** What the stretches of a turn that took `w` to `w'` mark. */
  ghost predicate MarksEdges(p: Stretches, w: World, w': World, name: string, cn: string) {
    && PeerMarks(p.edges, name, cn) == Edge(cn in PeersOf(w, name), cn in PeersOf(w', name))
    && PeerMarks(p.up, name, cn) == []
    && InstanceMarks(p.edges, name) == []
    && InstanceMarks(p.up, name) == UpEdge(Seen(w, name), Seen(w', name))
    && (Seen(w, name) != [] ==> Seen(w', name) != [])
  }

  lemma RunningStretches(w: World, shaping: bool, inst: Instance, t: Clock, o: Order, name: string, cn: string)
    requires Applies(inst) && inst.enabled && OrderOk(w, shaping, inst, t, o)
    ensures MarksEdges(StretchesOf(w, shaping, inst, t, o), w, Applied(w, shaping, inst, t), name, cn)
  {
    RunningMarks(w, inst, o, SampledClients(w, shaping, inst, t), PeersNow(w, shaping, inst, t.start), name, cn);
  }

  lemma DisabledStretches(w: World, shaping: bool, inst: Instance, t: Clock, o: Order, name: string, cn: string)
    requires Applies(inst) && !inst.enabled
    ensures MarksEdges(StretchesOf(w, shaping, inst, t, o), w, Applied(w, shaping, inst, t), name, cn)
  {
    InstanceEdgeMarks(w, inst.name, false, name, cn);
  }

  lemma FailedStretches(w: World, shaping: bool, inst: Instance, t: Clock, o: Order, name: string, cn: string)
    requires !Applies(inst)
    ensures MarksEdges(StretchesOf(w, shaping, inst, t, o), w, Applied(w, shaping, inst, t), name, cn)
  {
  }

  /** The edges of a turn are exactly those between the recorded state before and after it. */
  lemma StretchMarks(w: World, shaping: bool, inst: Instance, t: Clock, o: Order, name: string, cn: string)
    requires OrderOk(w, shaping, inst, t, o)
    ensures MarksEdges(StretchesOf(w, shaping, inst, t, o), w, Applied(w, shaping, inst, t), name, cn)
  {
    if !Applies(inst) {
      FailedStretches(w, shaping, inst, t, o, name, cn);
    } else if inst.enabled {
      RunningStretches(w, shaping, inst, t, o, name, cn);
    } else {
      DisabledStretches(w, shaping, inst, t, o, name, cn);
    }
  }

  /** One turn logs exactly the edges between the recorded state before and after it. */
  lemma TurnMarks(w: World, shaping: bool, inst: Instance, t: Clock, o: Order, name: string, cn: string)
    requires OrderOk(w, shaping, inst, t, o)
    ensures var w', log := Applied(w, shaping, inst, t), Logged(w, shaping, inst, t, o);
      && PeerMarks(log, name, cn) == Edge(cn in PeersOf(w, name), cn in PeersOf(w', name))
      && InstanceMarks(log, name) == UpEdge(Seen(w, name), Seen(w', name))
      && (Seen(w, name) != [] ==> Seen(w', name) != [])
  {
    var p := StretchesOf(w, shaping, inst, t, o);
    LogStretches(w, shaping, inst, t, o);
    StretchMarks(w, shaping, inst, t, o, name, cn);
    TurnReading(p.first, p.edges, p.sampled, p.up, PeerMark(name, cn));
    TurnReading(p.first, p.edges, p.sampled, p.up, InstanceMark(name));
  }

  // ---- runs ----

  ghost predicate AlternatesFrom(first: bool, marks: seq<bool>) {
    forall i :: 0 <= i < |marks| ==> marks[i] == if i % 2 == 0 then first else !first
  }

  /** Marks alternate, starting with a connect, and end with a connect exactly if the peer is
      recorded as connected. */
  ghost predicate PeerOk(marks: seq<bool>, connected: bool) {
    AlternatesFrom(true, marks) && (connected <==> |marks| % 2 == 1)
  }

  ghost predicate NoRepeats(marks: seq<bool>) {
    forall i :: 0 < i < |marks| ==> marks[i] != marks[i - 1]
  }

  /** Two looks at the instance differ. */
  ghost predicate Changes(looks: seq<bool>) {
    exists i :: 0 <= i < |looks| && looks[i] != looks[0]
  }

  /** What was seen last, if anything was. */
  function LastOf(looks: seq<bool>): seq<bool> { if looks == [] then [] else [looks[|looks| - 1]] }

  /** No two equal marks in a row; there are marks exactly if the looks differ, the first one differs
      from the first look, and the last one is the last look. */
  ghost predicate InstanceOk(marks: seq<bool>, looks: seq<bool>) {
    && NoRepeats(marks) && (marks != [] <==> Changes(looks))
    && (marks != [] ==> looks[0] != marks[0] && looks[|looks| - 1] == marks[|marks| - 1])
  }

  lemma EdgeKeepsPeerOk(marks: seq<bool>, before: bool, now: bool)
    requires PeerOk(marks, before)
    ensures PeerOk(marks + Edge(before, now), now)
  {
  }

  lemma SteadyIs(looks: seq<bool>, x: bool)
    requires looks != [] && looks[|looks| - 1] == x && !Changes(looks)
    ensures !Changes(looks + [x])
  {
    assert forall i :: 0 <= i < |looks| ==> looks[i] == looks[0];
  }

  lemma ChangesMore(looks: seq<bool>, x: bool)
    requires looks != [] && (Changes(looks) || looks[|looks| - 1] != x)
    ensures Changes(looks + [x])
  {
    var more := looks + [x];
    if Changes(looks) {
      var i :| 0 <= i < |looks| && looks[i] != looks[0];
      assert more[i] != more[0];
    } else {
      assert looks[|looks| - 1] == looks[0];
      assert more[|looks|] != more[0];
    }
  }

  lemma EdgeKeepsInstanceOk(marks: seq<bool>, looks: seq<bool>, x: bool)
    requires InstanceOk(marks, looks)
    ensures InstanceOk(marks + UpEdge(LastOf(looks), [x]), looks + [x])
  {
    if UpEdge(LastOf(looks), [x]) == [] {
      assert marks + [] == marks;
      if looks != [] && !Changes(looks) { SteadyIs(looks, x); } else if looks != [] { ChangesMore(looks, x); }
    } else {
      ChangesMore(looks, x);
      var all := marks + [x];
      if marks == [] { assert !Changes(looks) && looks[|looks| - 1] == looks[0]; } else { assert all[0] == marks[0]; }
    }
  }

  // ---- what a process looks at ----

  /** A turn of the instance finds the peer connected. */
  predicate Meets(w: World, shaping: bool, turn: Turn, name: string, cn: string) {
    turn.inst.name == name && Applies(turn.inst) && turn.inst.enabled && cn in PeersNow(w, shaping, turn.inst, turn.t.start)
  }

  /** The look at whether the instance is up in a turn of it. */
  function LookOf(inst: Instance, name: string): seq<bool> {
    if inst.name == name && Applies(inst) then [inst.enabled] else []
  }

  lemma TurnLooks(w: World, shaping: bool, turn: Turn, name: string, cn: string)
    ensures var w' := Applied(w, shaping, turn.inst, turn.t);
      && (Meets(w, shaping, turn, name, cn) ==> cn in PeersOf(w', name))
      && (cn in PeersOf(w', name) ==> cn in PeersOf(w, name) || Meets(w, shaping, turn, name, cn))
      && Seen(w', name) == if LookOf(turn.inst, name) == [] then Seen(w, name) else LookOf(turn.inst, name)
  {
  }

  /** The log of one process up to a world, where `met` tells whether it found the peer connected in
      some turn and `looks` are its looks at the instance. */
  ghost predicate LogOk(w: World, log: seq<Event>, met: bool, looks: seq<bool>, name: string, cn: string) {
    && PeerOk(PeerMarks(log, name, cn), cn in PeersOf(w, name)) && (PeerMarks(log, name, cn) != [] <==> met)
    && InstanceOk(InstanceMarks(log, name), looks) && Seen(w, name) == LastOf(looks)
  }

  lemma EdgeKeepsMet(marks: seq<bool>, before: bool, now: bool, met: bool, meets: bool)
    requires PeerOk(marks, before) && (marks != [] <==> met)
    requires (meets ==> now) && (now ==> before || meets)
    ensures PeerOk(marks + Edge(before, now), now) && (marks + Edge(before, now) != [] <==> met || meets)
  {
    EdgeKeepsPeerOk(marks, before, now);
  }

  lemma LookKeepsInstanceOk(marks: seq<bool>, looks: seq<bool>, look: seq<bool>, seen: seq<bool>)
    requires InstanceOk(marks, looks) && |look| <= 1 && seen == if look == [] then LastOf(looks) else look
    ensures InstanceOk(marks + UpEdge(LastOf(looks), seen), looks + look) && LastOf(looks + look) == seen
  {
    if look == [] {
      assert looks + look == looks && marks + [] == marks;
    } else {
      assert look == [look[0]];
      EdgeKeepsInstanceOk(marks, looks, look[0]);
    }
  }

  lemma TurnKeepsLog(w: World, shaping: bool, turn: Turn, o: Order, log: seq<Event>, log': seq<Event>,
                     met: bool, looks: seq<bool>, name: string, cn: string)
    requires OrderOk(w, shaping, turn.inst, turn.t, o) && LogOk(w, log, met, looks, name, cn)
    requires log' == log + Logged(w, shaping, turn.inst, turn.t, o)
    ensures LogOk(Applied(w, shaping, turn.inst, turn.t), log', met || Meets(w, shaping, turn, name, cn), looks + LookOf(turn.inst, name), name, cn)
  {
    var w', added := Applied(w, shaping, turn.inst, turn.t), Logged(w, shaping, turn.inst, turn.t, o);
    TurnMarks(w, shaping, turn.inst, turn.t, o, name, cn);
    TurnLooks(w, shaping, turn, name, cn);
    MarksJoin(log, added, PeerMark(name, cn));
    MarksJoin(log, added, InstanceMark(name));
    EdgeKeepsMet(PeerMarks(log, name, cn), cn in PeersOf(w, name), cn in PeersOf(w', name), met, Meets(w, shaping, turn, name, cn));
    LookKeepsInstanceOk(InstanceMarks(log, name), looks, LookOf(turn.inst, name), Seen(w', name));
  }

  lemma JoinLogs(log: seq<Event>, before: seq<Event>, added: seq<Event>, all: seq<Event>)
    requires all == before + added
    ensures log + all == log + before + added
  {
  }

  /** Some turn of a pass finds the peer connected. */
  predicate MetInPass(w: World, shaping: bool, turns: seq<Turn>, name: string, cn: string) {
    turns != [] &&
    var n := |turns| - 1;
    MetInPass(w, shaping, turns[..n], name, cn) || Meets(AppliedAll(w, shaping, turns[..n]), shaping, turns[n], name, cn)
  }

  /** The looks at an instance in the turns of a pass. */
  function LooksInPass(turns: seq<Turn>, name: string): seq<bool> {
    if turns == [] then [] else LooksInPass(turns[..|turns| - 1], name) + LookOf(turns[|turns| - 1].inst, name)
  }

  lemma {:induction false} TurnsKeepLog(w: World, shaping: bool, turns: seq<Turn>, orders: seq<Order>, log: seq<Event>,
                                        met: bool, looks: seq<bool>, name: string, cn: string)
    requires |orders| == |turns| && OrdersOk(w, shaping, turns, orders) && LogOk(w, log, met, looks, name, cn)
    ensures LogOk(AppliedAll(w, shaping, turns), log + LoggedAll(w, shaping, turns, orders),
                  met || MetInPass(w, shaping, turns, name, cn), looks + LooksInPass(turns, name), name, cn)
  {
    if turns == [] {
      assert log + [] == log && looks + [] == looks;
    } else {
      var n := |turns| - 1;
      TurnsKeepLog(w, shaping, turns[..n], orders[..n], log, met, looks, name, cn);
      var u, before, all := AppliedAll(w, shaping, turns[..n]), LoggedAll(w, shaping, turns[..n], orders[..n]), LoggedAll(w, shaping, turns, orders);
      JoinLogs(log, before, Logged(u, shaping, turns[n].inst, turns[n].t, orders[n]), all);
      JoinMarks(looks, LooksInPass(turns[..n], name), LookOf(turns[n].inst, name));
      TurnKeepsLog(u, shaping, turns[n], orders[n], log + before, log + all,
                   met || MetInPass(w, shaping, turns[..n], name, cn), looks + LooksInPass(turns[..n], name), name, cn);
    }
  }

  // ---- the run of one daemon process ----

  /** A deed, with the iteration orders used if it is a pass. */
  datatype Act = Act(deed: Deed, orders: seq<Order>)

  ghost predicate Legal(w: World, shaping: bool, a: Act) {
    match a.deed
    case Pass(turns) => |a.orders| == |turns| && OrdersOk(w, shaping, turns, a.orders)
    case Restart => false
    case _ => true
  }

  function WorldFrom(w: World, shaping: bool, acts: seq<Act>): World {
    if acts == [] then w else Do(WorldFrom(w, shaping, acts[..|acts| - 1]), shaping, acts[|acts| - 1].deed)
  }

  /** Acts of one daemon process, from the world it finds. */
  ghost predicate LegalFrom(w: World, shaping: bool, acts: seq<Act>) {
    acts == [] ||
    (LegalFrom(w, shaping, acts[..|acts| - 1]) && Legal(WorldFrom(w, shaping, acts[..|acts| - 1]), shaping, acts[|acts| - 1]))
  }

  ghost function LogFrom(w: World, shaping: bool, acts: seq<Act>): seq<Event>
    requires LegalFrom(w, shaping, acts)
  {
    if acts == [] then []
    else
      var n := |acts| - 1;
      LogFrom(w, shaping, acts[..n]) + LogOfAct(WorldFrom(w, shaping, acts[..n]), shaping, acts[n])
  }

  /** The events of one act. */
  ghost function LogOfAct(w: World, shaping: bool, a: Act): seq<Event>
    requires Legal(w, shaping, a)
  {
    match a.deed
    case Pass(turns) => LoggedAll(w, shaping, turns, a.orders)
    case _ => []
  }

  predicate MetInAct(w: World, shaping: bool, a: Act, name: string, cn: string) {
    a.deed.Pass? && MetInPass(w, shaping, a.deed.turns, name, cn)
  }

  /** Some turn of the process finds the peer connected. */
  predicate MetFrom(w: World, shaping: bool, acts: seq<Act>, name: string, cn: string) {
    acts != [] &&
    var n := |acts| - 1;
    MetFrom(w, shaping, acts[..n], name, cn) || MetInAct(WorldFrom(w, shaping, acts[..n]), shaping, acts[n], name, cn)
  }

  function LooksInAct(a: Act, name: string): seq<bool> {
    if a.deed.Pass? then LooksInPass(a.deed.turns, name) else []
  }

  /** The looks of the process at an instance, turn by turn. */
  function LooksOf(acts: seq<Act>, name: string): seq<bool> {
    if acts == [] then [] else LooksOf(acts[..|acts| - 1], name) + LooksInAct(acts[|acts| - 1], name)
  }

  lemma SameRecordsKeepLog(w: World, w': World, log: seq<Event>, met: bool, looks: seq<bool>, name: string, cn: string)
    requires LogOk(w, log, met, looks, name, cn) && w'.peers == w.peers && w'.wasUp == w.wasUp
    ensures LogOk(w', log, met, looks, name, cn)
  {
  }

  lemma QuietDeed(w: World, shaping: bool, d: Deed)
    requires !d.Pass? && !d.Restart?
    ensures Do(w, shaping, d).peers == w.peers && Do(w, shaping, d).wasUp == w.wasUp
  {
  }

  lemma ActKeepsLog(w: World, shaping: bool, a: Act, log: seq<Event>, log': seq<Event>, met: bool, looks: seq<bool>, name: string, cn: string)
    requires Legal(w, shaping, a) && LogOk(w, log, met, looks, name, cn) && log' == log + LogOfAct(w, shaping, a)
    ensures LogOk(Do(w, shaping, a.deed), log', met || MetInAct(w, shaping, a, name, cn), looks + LooksInAct(a, name), name, cn)
  {
    if a.deed.Pass? {
      var turns := a.deed.turns;
      TurnsKeepLog(w, shaping, turns, a.orders, log, met, looks, name, cn);
      SameRecordsKeepLog(AppliedAll(w, shaping, turns), Passed(w, shaping, turns), log', met || MetInPass(w, shaping, turns, name, cn),
                         looks + LooksInPass(turns, name), name, cn);
    } else {
      assert log' == log && looks + [] == looks;
      QuietDeed(w, shaping, a.deed);
      SameRecordsKeepLog(w, Do(w, shaping, a.deed), log, met, looks, name, cn);
    }
  }

  /** In every run of one daemon process, whatever the iteration orders, the connect and
      disconnect events of a peer alternate starting with a connect, the last one is a connect
      exactly if the peer is recorded as connected, and up and down events of an instance
      alternate. There are events of the peer exactly if some turn found it connected, and of the
      instance exactly if two looks at it differ. A process starts with no peers and no instances
      seen. */
  lemma {:induction false} EveryRunAlternates(w: World, shaping: bool, acts: seq<Act>, name: string, cn: string)
    requires w.peers == map[] && w.wasUp == map[] && LegalFrom(w, shaping, acts)
    ensures LogOk(WorldFrom(w, shaping, acts), LogFrom(w, shaping, acts), MetFrom(w, shaping, acts, name, cn), LooksOf(acts, name), name, cn)
  {
    if acts != [] {
      var init, last := acts[..|acts| - 1], acts[|acts| - 1];
      EveryRunAlternates(w, shaping, init, name, cn);
      ActKeepsLog(WorldFrom(w, shaping, init), shaping, last, LogFrom(w, shaping, init), LogFrom(w, shaping, acts),
                  MetFrom(w, shaping, init, name, cn), LooksOf(init, name), name, cn);
    }
  }

  // ---- marks put together from parts ----

  function Flat(parts: seq<seq<bool>>): seq<bool> {
    if parts == [] then [] else Flat(parts[..|parts| - 1]) + parts[|parts| - 1]
  }

  /** Some part before the `n`-th ends with the peer connected. */
  ghost predicate LeftOpen(ends: seq<bool>, n: nat) {
    exists i :: 0 <= i < n && i < |ends| && ends[i]
  }

  lemma JoinPeerMarks(a: seq<bool>, open: bool, b: seq<bool>, end: bool)
    requires PeerOk(b, end) && (AlternatesFrom(true, a) ==> (open <==> |a| % 2 == 1))
    ensures AlternatesFrom(true, a + b) <==> AlternatesFrom(true, a) && (open ==> b == [])
    ensures AlternatesFrom(true, a + b) ==> (open || end <==> |a + b| % 2 == 1)
  {
    var all := a + b;
    assert all[..|a|] == a;
    if AlternatesFrom(true, all) {
      forall i | 0 <= i < |a| ensures a[i] == (i % 2 == 0) { assert all[i] == a[i]; }
      if b != [] { assert all[|a|] == b[0]; }
    }
  }

  lemma OpenNext(ends: seq<bool>, n: nat)
    requires n < |ends|
    ensures LeftOpen(ends, n + 1) <==> LeftOpen(ends, n) || ends[n]
    ensures LeftOpen(ends[..n], n) <==> LeftOpen(ends, n)
  {
    if LeftOpen(ends, n) {
      var i :| 0 <= i < n && i < |ends| && ends[i];
      assert ends[..n][i];
    }
  }

  /** Parts that each begin and end as the peer does: together they alternate exactly if no part
      has marks after one that ended with the peer connected. */
  lemma {:induction false} FlatAlternatesExactly(parts: seq<seq<bool>>, ends: seq<bool>)
    requires |parts| == |ends| && forall i :: 0 <= i < |parts| ==> PeerOk(parts[i], ends[i])
    ensures AlternatesFrom(true, Flat(parts)) <==> forall j :: 0 <= j < |parts| && LeftOpen(ends, j) ==> parts[j] == []
    ensures AlternatesFrom(true, Flat(parts)) ==> (LeftOpen(ends, |ends|) <==> |Flat(parts)| % 2 == 1)
  {
    if parts != [] {
      var n := |parts| - 1;
      FlatAlternatesExactly(parts[..n], ends[..n]);
      forall j: nat | j < n ensures LeftOpen(ends[..n], j) <==> LeftOpen(ends, j) { OpenSame(ends, n, j); }
      OpenNext(ends, n);
      JoinPeerMarks(Flat(parts[..n]), LeftOpen(ends, n), parts[n], ends[n]);
    }
  }

  lemma OpenSame(ends: seq<bool>, n: nat, j: nat)
    requires j <= n <= |ends|
    ensures LeftOpen(ends[..n], j) <==> LeftOpen(ends, j)
  {
    if LeftOpen(ends, j) {
      var i :| 0 <= i < j && i < |ends| && ends[i];
      assert ends[..n][i];
    }
  }

  /** Together they also end as the last part does exactly if no earlier one ended connected. */
  lemma FlatEndsExactly(parts: seq<seq<bool>>, ends: seq<bool>)
    requires |parts| == |ends| > 0 && forall i :: 0 <= i < |parts| ==> PeerOk(parts[i], ends[i])
    ensures PeerOk(Flat(parts), ends[|ends| - 1]) <==> !LeftOpen(ends, |ends| - 1)
  {
    var n := |ends| - 1;
    FlatAlternatesExactly(parts, ends);
    OpenNext(ends, n);
    assert PeerOk(parts[n], ends[n]);
  }

  lemma JoinNoRepeats(a: seq<bool>, b: seq<bool>)
    ensures NoRepeats(a + b) <==> NoRepeats(a) && NoRepeats(b) && (a != [] && b != [] ==> a[|a| - 1] != b[0])
  {
    var all := a + b;
    if NoRepeats(all) {
      forall i | 0 < i < |a| ensures a[i] != a[i - 1] { assert all[i] == a[i] && all[i - 1] == a[i - 1]; }
      forall i | 0 < i < |b| ensures b[i] != b[i - 1] { assert all[|a| + i] == b[i] && all[|a| + i - 1] == b[i - 1]; }
      if a != [] && b != [] { assert all[|a|] == b[0] && all[|a| - 1] == a[|a| - 1]; }
    }
  }

  /** Processes `i` and `j` saw the instance change, and none between them did. */
  ghost predicate Adjacent(looks: seq<seq<bool>>, i: nat, j: nat) {
    i < j < |looks| && Changes(looks[i]) && Changes(looks[j]) && forall k :: i < k < j ==> !Changes(looks[k])
  }

  lemma {:induction false} LastPart(parts: seq<seq<bool>>) returns (i: nat)
    ensures Flat(parts) == [] ==> forall k :: 0 <= k < |parts| ==> parts[k] == []
    ensures Flat(parts) != [] ==> i < |parts| && parts[i] != [] && forall k :: i < k < |parts| ==> parts[k] == []
    ensures Flat(parts) != [] ==> Flat(parts)[|Flat(parts)| - 1] == parts[i][|parts[i]| - 1]
  {
    i := 0;
    if parts != [] {
      var n := |parts| - 1;
      if parts[n] != [] {
        i := n;
      } else {
        i := LastPart(parts[..n]);
        assert forall k :: 0 <= k < n ==> parts[k] == parts[..n][k];
      }
    }
  }

  /** What was seen last in one part is what was seen first in the next part with changes. */
  ghost predicate Continues(looks: seq<seq<bool>>, n: nat)
    requires n <= |looks|
  {
    forall i: nat, j: nat :: Adjacent(looks, i, j) && j < n ==> LastOf(looks[i]) == [looks[j][0]]
  }

  lemma ContinuesPrefix(looks: seq<seq<bool>>, n: nat)
    requires n <= |looks|
    ensures Continues(looks[..n], n) <==> Continues(looks, n)
  {
    forall i: nat, j: nat | j < n ensures Adjacent(looks[..n], i, j) <==> Adjacent(looks, i, j) {
      assert forall k :: 0 <= k < n ==> looks[..n][k] == looks[k];
    }
  }

  /** The step from one part to the next. */
  lemma ContinuesNext(parts: seq<seq<bool>>, looks: seq<seq<bool>>, n: nat, whole: seq<bool>)
    requires |parts| == |looks| == n + 1 && whole == Flat(parts[..n])
    requires forall i :: 0 <= i < |parts| ==> InstanceOk(parts[i], looks[i])
    ensures Continues(looks, n + 1) <==>
      Continues(looks, n) && (whole != [] && parts[n] != [] ==> whole[|whole| - 1] != parts[n][0])
  {
    var last := LastPart(parts[..n]);
    assert forall k :: 0 <= k < n ==> parts[..n][k] == parts[k];
    assert InstanceOk(parts[n], looks[n]);
    forall k | 0 <= k < |parts| ensures parts[k] != [] <==> Changes(looks[k]) { assert InstanceOk(parts[k], looks[k]); }
    if whole != [] && parts[n] != [] {
      assert Adjacent(looks, last, n);
      assert InstanceOk(parts[last], looks[last]);
      assert LastOf(looks[last]) == [looks[n][0]] <==> whole[|whole| - 1] != parts[n][0];
      forall i: nat | Adjacent(looks, i, n) ensures i == last {}
    }
  }

  lemma {:induction false} FlatRepeatsExactly(parts: seq<seq<bool>>, looks: seq<seq<bool>>)
    requires |parts| == |looks|
    requires forall i :: 0 <= i < |parts| ==> InstanceOk(parts[i], looks[i])
    ensures NoRepeats(Flat(parts)) <==> Continues(looks, |parts|)
  {
    if parts != [] {
      var n := |parts| - 1;
      FlatRepeatsExactly(parts[..n], looks[..n]);
      ContinuesPrefix(looks, n);
      ContinuesNext(parts, looks, n, Flat(parts[..n]));
      JoinNoRepeats(Flat(parts[..n]), parts[n]);
      assert InstanceOk(parts[n], looks[n]);
    }
  }

  // ---- restarts of the daemon ----

  /** The world after the first `n` daemon processes of a run, each with its acts. A process starts
      with everything it holds in memory empty; the stores, the backend and the log go on. */
  function WorldAt(shaping: bool, lives: seq<seq<Act>>, n: nat): World
    requires n <= |lives|
  {
    if n == 0 then EMPTY
    else WorldFrom(Do(WorldAt(shaping, lives, n - 1), shaping, Restart), shaping, lives[n - 1])
  }

  /** The world that process `j` starts in. */
  function StartOf(shaping: bool, lives: seq<seq<Act>>, j: nat): World
    requires j < |lives|
  {
    Do(WorldAt(shaping, lives, j), shaping, Restart)
  }

  ghost predicate LegalLives(shaping: bool, lives: seq<seq<Act>>) {
    forall j: nat {:trigger StartOf(shaping, lives, j)} :: j < |lives| ==> LegalFrom(StartOf(shaping, lives, j), shaping, lives[j])
  }

  /** The events of process `j`, and those of the first `n` processes. */
  ghost function LifeLog(shaping: bool, lives: seq<seq<Act>>, j: nat): seq<Event>
    requires LegalLives(shaping, lives) && j < |lives|
  {
    LogFrom(StartOf(shaping, lives, j), shaping, lives[j])
  }

  ghost function LogAt(shaping: bool, lives: seq<seq<Act>>, n: nat): seq<Event>
    requires LegalLives(shaping, lives) && n <= |lives|
  {
    if n == 0 then [] else LogAt(shaping, lives, n - 1) + LifeLog(shaping, lives, n - 1)
  }

  /** The peer is on record when process `j` stops. */
  ghost predicate LeftConnected(shaping: bool, lives: seq<seq<Act>>, j: nat, name: string, cn: string)
    requires j < |lives|
  {
    cn in PeersOf(WorldAt(shaping, lives, j + 1), name)
  }

  /** Some turn of process `j` finds the peer connected. */
  predicate MeetsPeer(shaping: bool, lives: seq<seq<Act>>, j: nat, name: string, cn: string)
    requires j < |lives|
  {
    MetFrom(StartOf(shaping, lives, j), shaping, lives[j], name, cn)
  }

  lemma LifeAlternates(shaping: bool, lives: seq<seq<Act>>, j: nat, name: string, cn: string)
    requires LegalLives(shaping, lives) && j < |lives|
    ensures var marks := PeerMarks(LifeLog(shaping, lives, j), name, cn);
      PeerOk(marks, LeftConnected(shaping, lives, j, name, cn)) && (marks != [] <==> MeetsPeer(shaping, lives, j, name, cn))
    ensures InstanceOk(InstanceMarks(LifeLog(shaping, lives, j), name), LooksOf(lives[j], name))
  {
    EveryRunAlternates(StartOf(shaping, lives, j), shaping, lives[j], name, cn);
  }

  /** The readings of the processes, put together, are the reading of the log. */
  lemma {:induction false} FlatIsMarks(shaping: bool, lives: seq<seq<Act>>, n: nat, f: Event -> seq<bool>, parts: seq<seq<bool>>)
    requires LegalLives(shaping, lives) && n <= |lives| && |parts| == n
    requires forall j: nat {:trigger parts[j]} :: j < n ==> parts[j] == Marks(LifeLog(shaping, lives, j), f)
    ensures Flat(parts) == Marks(LogAt(shaping, lives, n), f)
  {
    if n > 0 {
      FlatIsMarks(shaping, lives, n - 1, f, parts[..n - 1]);
      MarksJoin(LogAt(shaping, lives, n - 1), LifeLog(shaping, lives, n - 1), f);
    }
  }

  ghost function PeerParts(shaping: bool, lives: seq<seq<Act>>, name: string, cn: string): (parts: seq<seq<bool>>)
    requires LegalLives(shaping, lives)
    ensures |parts| == |lives|
  {
    seq(|lives|, j requires 0 <= j < |lives| => PeerMarks(LifeLog(shaping, lives, j), name, cn))
  }

  ghost function PeerEnds(shaping: bool, lives: seq<seq<Act>>, name: string, cn: string): (ends: seq<bool>)
    ensures |ends| == |lives|
  {
    seq(|lives|, j requires 0 <= j < |lives| => LeftConnected(shaping, lives, j, name, cn))
  }

  lemma PeerPartsOk(shaping: bool, lives: seq<seq<Act>>, name: string, cn: string)
    requires LegalLives(shaping, lives)
    ensures var parts, ends := PeerParts(shaping, lives, name, cn), PeerEnds(shaping, lives, name, cn);
      && (forall i :: 0 <= i < |parts| ==> PeerOk(parts[i], ends[i]))
      && (forall j: nat {:trigger parts[j]} :: j < |lives| ==> (parts[j] != [] <==> MeetsPeer(shaping, lives, j, name, cn)))
      && Flat(parts) == PeerMarks(LogAt(shaping, lives, |lives|), name, cn)
  {
    var parts, ends := PeerParts(shaping, lives, name, cn), PeerEnds(shaping, lives, name, cn);
    forall i: nat | i < |parts| ensures PeerOk(parts[i], ends[i]) && (parts[i] != [] <==> MeetsPeer(shaping, lives, i, name, cn)) {
      LifeAlternates(shaping, lives, i, name, cn);
    }
    FlatIsMarks(shaping, lives, |lives|, PeerMark(name, cn), parts);
  }

  /** What was on record is lost with the process. Over every run of daemon processes the events of
      a peer alternate, starting with a connect, exactly if no process finds a peer connected that
      was on record when an earlier one stopped: then it is announced a second time. */
  lemma RestartsAlternateExactly(shaping: bool, lives: seq<seq<Act>>, name: string, cn: string)
    requires LegalLives(shaping, lives)
    ensures AlternatesFrom(true, PeerMarks(LogAt(shaping, lives, |lives|), name, cn)) <==>
      forall i: nat, j: nat {:trigger LeftConnected(shaping, lives, i, name, cn), MeetsPeer(shaping, lives, j, name, cn)} ::
        i < j < |lives| && LeftConnected(shaping, lives, i, name, cn) ==> !MeetsPeer(shaping, lives, j, name, cn)
  {
    var parts, ends := PeerParts(shaping, lives, name, cn), PeerEnds(shaping, lives, name, cn);
    PeerPartsOk(shaping, lives, name, cn);
    FlatAlternatesExactly(parts, ends);
    forall j: nat | j < |lives| ensures MeetsPeer(shaping, lives, j, name, cn) <==> parts[j] != [] {}
    OpenIs(shaping, lives, name, cn);
  }

  lemma OpenIs(shaping: bool, lives: seq<seq<Act>>, name: string, cn: string)
    ensures forall i: nat, j: nat {:trigger LeftConnected(shaping, lives, i, name, cn), LeftOpen(PeerEnds(shaping, lives, name, cn), j)} ::
      i < j <= |lives| && LeftConnected(shaping, lives, i, name, cn) ==> LeftOpen(PeerEnds(shaping, lives, name, cn), j)
    ensures forall j: nat {:trigger LeftOpen(PeerEnds(shaping, lives, name, cn), j)} :: j <= |lives| && LeftOpen(PeerEnds(shaping, lives, name, cn), j) ==>
      exists i: nat :: i < j && LeftConnected(shaping, lives, i, name, cn)
  {
    var ends := PeerEnds(shaping, lives, name, cn);
    forall i: nat, j: nat | i < j <= |lives| && LeftConnected(shaping, lives, i, name, cn) ensures LeftOpen(ends, j) { assert ends[i]; }
    forall j: nat | j <= |lives| && LeftOpen(ends, j) ensures exists i: nat :: i < j && LeftConnected(shaping, lives, i, name, cn) {
      var i :| 0 <= i < j && i < |ends| && ends[i];
      assert LeftConnected(shaping, lives, i, name, cn);
    }
  }

  /** The last event of a peer tells whether it is on record, besides the alternation, exactly if
      the daemon was never stopped while the peer was on record. */
  lemma RestartsRecordExactly(shaping: bool, lives: seq<seq<Act>>, name: string, cn: string)
    requires LegalLives(shaping, lives) && lives != []
    ensures PeerOk(PeerMarks(LogAt(shaping, lives, |lives|), name, cn), cn in PeersOf(WorldAt(shaping, lives, |lives|), name)) <==>
      forall i: nat :: i < |lives| - 1 ==> !LeftConnected(shaping, lives, i, name, cn)
  {
    var parts, ends := PeerParts(shaping, lives, name, cn), PeerEnds(shaping, lives, name, cn);
    PeerPartsOk(shaping, lives, name, cn);
    FlatEndsExactly(parts, ends);
    assert ends[|lives| - 1] == LeftConnected(shaping, lives, |lives| - 1, name, cn);
    forall i: nat | i < |lives| ensures ends[i] <==> LeftConnected(shaping, lives, i, name, cn) {}
  }

  ghost function InstanceParts(shaping: bool, lives: seq<seq<Act>>, name: string): (parts: seq<seq<bool>>)
    requires LegalLives(shaping, lives)
    ensures |parts| == |lives|
  {
    seq(|lives|, j requires 0 <= j < |lives| => InstanceMarks(LifeLog(shaping, lives, j), name))
  }

  /** The looks of every process at the instance. */
  function Looks(lives: seq<seq<Act>>, name: string): (looks: seq<seq<bool>>)
    ensures |looks| == |lives|
  {
    seq(|lives|, j requires 0 <= j < |lives| => LooksOf(lives[j], name))
  }

  /** Over every run of daemon processes the up and down events of an instance alternate exactly
      if each process that saw the instance change saw it first as the previous such process saw
      it last. */
  lemma RestartsRepeatExactly(shaping: bool, lives: seq<seq<Act>>, name: string)
    requires LegalLives(shaping, lives)
    ensures var looks := Looks(lives, name);
      NoRepeats(InstanceMarks(LogAt(shaping, lives, |lives|), name)) <==>
      forall i: nat, j: nat :: Adjacent(looks, i, j) ==> looks[i][|looks[i]| - 1] == looks[j][0]
  {
    var parts, looks := InstanceParts(shaping, lives, name), Looks(lives, name);
    forall i | 0 <= i < |parts| ensures InstanceOk(parts[i], looks[i]) { LifeAlternates(shaping, lives, i, name, ""); }
    FlatIsMarks(shaping, lives, |lives|, InstanceMark(name), parts);
    FlatRepeatsExactly(parts, looks);
  }
}
