/** The stored counters of one client over whole runs: they are those of a metered run of its true
    traffic, so the laws of metered runs carry over. */
module MeterRuns {
  import opened Wrappers
  import opened Traffic
  import opened Passes
  import opened ClientRuns

  // ---- the meter of one client ----

  /** The row of a client, or the number of rows. */
  function RowAt(rows: seq<Client>, cn: string): (i: nat)
    ensures i <= |rows| && (i < |rows| ==> rows[i].cn == cn)
    ensures forall j :: 0 <= j < i ==> rows[j].cn != cn
  {
    if rows == [] then 0
    else
      var n := |rows| - 1;
      var i := RowAt(rows[..n], cn);
      if i < n then i else if rows[n].cn == cn then n else n + 1
  }

  predicate HasRow(w: World, name: string, cn: string) { RowAt(RowsOf(w, name), cn) < |RowsOf(w, name)| }

  /** The meter of a client in one direction; a client that is not enrolled has an empty one. */
  function MeterOf(w: World, name: string, cn: string, down: bool): Meter {
    var rows := RowsOf(w, name);
    var i := RowAt(rows, cn);
    if i == |rows| then Meter(0, 0, None)
    else if down then MeterRx(w, name, rows[i]) else MeterTx(w, name, rows[i])
  }

  /** The stored total. */
  function CounterOf(w: World, name: string, cn: string, down: bool): int {
    var rows := RowsOf(w, name);
    var i := RowAt(rows, cn);
    if i == |rows| then 0 else if down then rows[i].lastRx else rows[i].lastTx
  }

  /** The stored meter is that of a metered run; only enrolled clients have samples. */
  ghost predicate Tracks(w: World, h: History, name: string, cn: string, down: bool) {
    && MeterOf(w, name, cn, down) == h.m
    && (!HasRow(w, name, cn) ==> Key(name, cn) !in w.samples)
  }

  lemma SameCNs(rows: seq<Client>, rows': seq<Client>, cn: string)
    requires |rows| == |rows'| && forall j :: 0 <= j < |rows| ==> rows[j].cn == rows'[j].cn
    ensures RowAt(rows, cn) == RowAt(rows', cn)
  {
    var i, i' := RowAt(rows, cn), RowAt(rows', cn);
    if i < |rows| { assert rows'[i].cn == cn; }
    if i' < |rows| { assert rows[i'].cn == cn; }
  }

  // ---- one turn ----

  /** The counter a turn reads for the client, if it samples it. */
  function Reads(w: World, shaping: bool, inst: Instance, t: Clock, name: string, cn: string, down: bool): Option<nat> {
    if !Applies(inst) || !inst.server || inst.name != name || !HasRow(w, name, cn) then None
    else
      match LiveOf(w, shaping, inst, t, cn)
      case Some(l) => Some(if down then l.rx else l.tx)
      case None => None
  }

  function TurnSteps(w: World, shaping: bool, inst: Instance, t: Clock, name: string, cn: string): seq<Step> {
    if Reads(w, shaping, inst, t, name, cn, true).Some? then [Observe] else []
  }

  /** The counter read is the one the client's session really shows. */
  ghost predicate ReadsTruth(w: World, shaping: bool, inst: Instance, t: Clock, name: string, cn: string, down: bool, raw: nat) {
    var r := Reads(w, shaping, inst, t, name, cn, down); r.Some? ==> r.value == raw
  }

  lemma OtherTurn(w: World, shaping: bool, inst: Instance, t: Clock, name: string, cn: string, down: bool)
    requires inst.name != name
    ensures var w' := Applied(w, shaping, inst, t);
      && RowsOf(w', name) == RowsOf(w, name) && MeterOf(w', name, cn, down) == MeterOf(w, name, cn, down)
      && (Key(name, cn) in w'.samples <==> Key(name, cn) in w.samples)
  {
    AppliedSparesRows(w, shaping, inst, t, name);
    if Applies(inst) && inst.enabled { SamplesStay(w, shaping, inst, t, Key(name, cn)); }
  }

  lemma SamplesStay(w: World, shaping: bool, inst: Instance, t: Clock, k: Key)
    requires Applies(inst) && inst.enabled
    requires k.inst != inst.name || forall j :: 0 <= j < |Considered(w, inst, t.start)| ==> Considered(w, inst, t.start)[j].cn != k.cn
    ensures var w' := Applied(w, shaping, inst, t);
      (k in w'.samples <==> k in w.samples) && (k in w'.samples ==> w'.samples[k] == w.samples[k])
  {
    var fleet := EnsuredFleet(w, shaping, inst, t.start);
    SampledKeys(Sampling([], w.samples, w.cache, fleet, []), inst.name, Considered(w, inst, t.start),
                LiveClients(fleet, inst.name), t.sampled, k);
  }

  /** A turn keeps the names of the clients of its instance, in order. */
  lemma ServedName(w: World, shaping: bool, inst: Instance, t: Clock, j: nat)
    requires Applies(inst) && Serves(w, inst, j)
    ensures var rows' := RowsOf(Applied(w, shaping, inst, t), inst.name);
      |rows'| == |w.rows[inst.name]| && rows'[j].cn == w.rows[inst.name][j].cn
  {
    AppliedRow(w, shaping, inst, t, j);
  }

  lemma UnsampledRows(w: World, shaping: bool, inst: Instance, t: Clock)
    requires !(Applies(inst) && inst.server && inst.name in w.rows)
    ensures var rows, rows' := RowsOf(w, inst.name), RowsOf(Applied(w, shaping, inst, t), inst.name);
      rows' == rows || rows' == CheckedRows(rows, t.start)
  {
  }

  lemma TurnKeepsName(w: World, shaping: bool, inst: Instance, t: Clock, j: nat)
    requires RowsFit(RowsOf(w, inst.name)) && j < |RowsOf(w, inst.name)|
    ensures var rows, rows' := RowsOf(w, inst.name), RowsOf(Applied(w, shaping, inst, t), inst.name);
      |rows'| == |rows| && rows'[j].cn == rows[j].cn
  {
    if Applies(inst) && inst.server {
      ServedName(w, shaping, inst, t, j);
    } else {
      UnsampledRows(w, shaping, inst, t);
      CheckedRow(RowsOf(w, inst.name), t.start, j);
    }
  }

  lemma NoRowsStay(w: World, shaping: bool, inst: Instance, t: Clock)
    requires RowsOf(w, inst.name) == []
    ensures RowsOf(Applied(w, shaping, inst, t), inst.name) == []
  {
  }

  lemma TurnKeepsNames(w: World, shaping: bool, inst: Instance, t: Clock, cn: string)
    requires AllFit(w)
    ensures var rows, rows' := RowsOf(w, inst.name), RowsOf(Applied(w, shaping, inst, t), inst.name);
      |rows'| == |rows| && RowAt(rows', cn) == RowAt(rows, cn)
  {
    var rows, rows' := RowsOf(w, inst.name), RowsOf(Applied(w, shaping, inst, t), inst.name);
    RowsOfFit(w, inst.name);
    if rows == [] {
      NoRowsStay(w, shaping, inst, t);
    } else {
      forall j: nat | j < |rows| ensures |rows'| == |rows| && rows'[j].cn == rows[j].cn { TurnKeepsName(w, shaping, inst, t, j); }
      assert rows[0] == rows[0];
      SameCNs(rows, rows', cn);
    }
  }

  /** A turn of the client's own instance that does not sample it. */
  lemma QuietTurn(w: World, shaping: bool, inst: Instance, t: Clock, cn: string, down: bool)
    requires AllFit(w) && !(Applies(inst) && inst.server && HasRow(w, inst.name, cn))
    ensures var w' := Applied(w, shaping, inst, t); MeterOf(w', inst.name, cn, down) == MeterOf(w, inst.name, cn, down)
    ensures var w' := Applied(w, shaping, inst, t);
      !HasRow(w, inst.name, cn) ==> (Key(inst.name, cn) in w'.samples <==> Key(inst.name, cn) in w.samples)
  {
    TurnKeepsNames(w, shaping, inst, t, cn);
    var rows := RowsOf(w, inst.name);
    var i := RowAt(rows, cn);
    if i < |rows| {
      CheckedRow(rows, t.start, i);
      if Applies(inst) && inst.enabled { SamplesStay(w, shaping, inst, t, Key(inst.name, cn)); }
    } else if Applies(inst) && inst.enabled {
      forall j | 0 <= j < |Considered(w, inst, t.start)| ensures Considered(w, inst, t.start)[j].cn != cn { CheckedRow(rows, t.start, j); }
      SamplesStay(w, shaping, inst, t, Key(inst.name, cn));
    }
  }

  lemma MeteredTurn(w: World, shaping: bool, inst: Instance, t: Clock, cn: string, down: bool)
    requires AllFit(w) && Applies(inst) && inst.server && HasRow(w, inst.name, cn)
    ensures var w', m := Applied(w, shaping, inst, t), MeterOf(w, inst.name, cn, down);
      && HasRow(w', inst.name, cn)
      && var r := Reads(w, shaping, inst, t, inst.name, cn, down);
      && MeterOf(w', inst.name, cn, down) == if r.Some? then Sampled(m, r.value) else m
  {
    TurnKeepsNames(w, shaping, inst, t, cn);
    RowsOfFit(w, inst.name);
    AppliedMeters(w, shaping, inst, t, RowAt(RowsOf(w, inst.name), cn));
  }

  lemma TurnTracks(w: World, shaping: bool, inst: Instance, t: Clock, h: History, name: string, cn: string, down: bool)
    requires AllFit(w) && Tracks(w, h, name, cn, down) && ReadsTruth(w, shaping, inst, t, name, cn, down, h.raw)
    ensures var w' := Applied(w, shaping, inst, t);
      Tracks(w', if TurnSteps(w, shaping, inst, t, name, cn) == [] then h else Take(h, Observe), name, cn, down)
  {
    if inst.name != name {
      OtherTurn(w, shaping, inst, t, name, cn, down);
      SameMeterTracks(w, Applied(w, shaping, inst, t), h, name, cn, down);
    } else if Applies(inst) && inst.server && HasRow(w, name, cn) {
      MeteredTurn(w, shaping, inst, t, cn, down);
    } else {
      QuietTurn(w, shaping, inst, t, cn, down);
      TurnKeepsNames(w, shaping, inst, t, cn);
      SameMeterTracks(w, Applied(w, shaping, inst, t), h, name, cn, down);
    }
  }

  lemma SameMeterTracks(w: World, w': World, h: History, name: string, cn: string, down: bool)
    requires Tracks(w, h, name, cn, down) && MeterOf(w', name, cn, down) == MeterOf(w, name, cn, down)
    requires HasRow(w', name, cn) == HasRow(w, name, cn)
    requires !HasRow(w, name, cn) ==> (Key(name, cn) in w'.samples <==> Key(name, cn) in w.samples)
    ensures Tracks(w', h, name, cn, down)
  {
  }

  // ---- runs of deeds ----

  /** The samplings of the client in a pass. */
  function PassSteps(w: World, shaping: bool, turns: seq<Turn>, name: string, cn: string): seq<Step> {
    if turns == [] then []
    else
      var n := |turns| - 1;
      PassSteps(w, shaping, turns[..n], name, cn) + TurnSteps(AppliedAll(w, shaping, turns[..n]), shaping, turns[n].inst, turns[n].t, name, cn)
  }

  ghost predicate PassReadsTruth(w: World, shaping: bool, turns: seq<Turn>, name: string, cn: string, down: bool, raw: nat) {
    turns == [] ||
    var n := |turns| - 1;
    && PassReadsTruth(w, shaping, turns[..n], name, cn, down, raw)
    && ReadsTruth(AppliedAll(w, shaping, turns[..n]), shaping, turns[n].inst, turns[n].t, name, cn, down, raw)
  }

  function From(h: History, steps: seq<Step>): History {
    if steps == [] then h else Take(From(h, steps[..|steps| - 1]), steps[|steps| - 1])
  }

  lemma FromSnoc(h: History, steps: seq<Step>, s: Step)
    ensures From(h, steps + [s]) == Take(From(h, steps), s)
  {
    assert (steps + [s])[..|steps|] == steps;
  }

  lemma TurnTracksOn(u: World, shaping: bool, inst: Instance, t: Clock, h: History, before: seq<Step>, name: string, cn: string, down: bool)
    requires AllFit(u) && Tracks(u, From(h, before), name, cn, down) && ReadsTruth(u, shaping, inst, t, name, cn, down, From(h, before).raw)
    ensures var h' := From(h, before + TurnSteps(u, shaping, inst, t, name, cn));
      Tracks(Applied(u, shaping, inst, t), h', name, cn, down) && h'.raw == From(h, before).raw
  {
    TurnTracks(u, shaping, inst, t, From(h, before), name, cn, down);
    FromSnoc(h, before, Observe);
    assert before + [] == before;
  }

  lemma {:induction false} PassTracks(w: World, shaping: bool, turns: seq<Turn>, h: History, name: string, cn: string, down: bool)
    requires AllFit(w) && Tracks(w, h, name, cn, down) && PassReadsTruth(w, shaping, turns, name, cn, down, h.raw)
    ensures var h' := From(h, PassSteps(w, shaping, turns, name, cn));
      Tracks(AppliedAll(w, shaping, turns), h', name, cn, down) && h'.raw == h.raw
  {
    if turns != [] {
      var n := |turns| - 1;
      var u, before := AppliedAll(w, shaping, turns[..n]), PassSteps(w, shaping, turns[..n], name, cn);
      PassTracks(w, shaping, turns[..n], h, name, cn, down);
      PassFits(w, shaping, turns[..n]);
      TurnTracksOn(u, shaping, turns[n].inst, turns[n].t, h, before, name, cn, down);
    }
  }

  /** What a deed does to the meter of the client. */
  function DeedSteps(w: World, shaping: bool, d: Deed, name: string, cn: string): seq<Step> {
    match d
    case Pass(turns) => PassSteps(w, shaping, turns, name, cn)
    case SoftResetOf(n, i) => if n == name && HasRow(w, name, cn) && i == RowAt(RowsOf(w, name), cn) then [Reset] else []
    case Restart => [DaemonRestart]
    case _ => []
  }

  /** What it reads is what the client's session shows. */
  ghost predicate DeedReadsTruth(w: World, shaping: bool, d: Deed, name: string, cn: string, down: bool, raw: nat) {
    d.Pass? ==> PassReadsTruth(w, shaping, d.turns, name, cn, down, raw)
  }

  lemma SameRowsTrack(w: World, w': World, h: History, name: string, cn: string, down: bool)
    requires Tracks(w, h, name, cn, down) && RowsOf(w', name) == RowsOf(w, name) && w'.samples == w.samples
    ensures Tracks(w', h, name, cn, down)
  {
  }

  lemma PutClientTracks(w: World, h: History, name: string, cn: string, down: bool, n: string, i: nat, c: Client)
    requires Tracks(w, h, name, cn, down) && i < |RowsOf(w, n)| && c.cn == RowsOf(w, n)[i].cn
    requires n == name && i == RowAt(RowsOf(w, name), cn) ==>
      c.lastRx == RowsOf(w, n)[i].lastRx && c.lastTx == RowsOf(w, n)[i].lastTx && c.offRx == RowsOf(w, n)[i].offRx && c.offTx == RowsOf(w, n)[i].offTx
    ensures Tracks(PutClient(w, n, i, c), h, name, cn, down)
  {
    if n == name {
      SameCNs(RowsOf(w, name), RowsOf(PutClient(w, n, i, c), name), cn);
    } else {
      SameRowsTrack(w, PutClient(w, n, i, c), h, name, cn, down);
    }
  }

  lemma SoftResetTracks(w: World, h: History, name: string, cn: string, down: bool)
    requires Tracks(w, h, name, cn, down) && HasRow(w, name, cn)
    ensures var i := RowAt(RowsOf(w, name), cn);
      Tracks(PutClient(w, name, i, ResetRow(w.rows[name][i])), Take(h, Reset), name, cn, down)
  {
    var i := RowAt(RowsOf(w, name), cn);
    var w' := PutClient(w, name, i, ResetRow(w.rows[name][i]));
    SameCNs(RowsOf(w, name), RowsOf(w', name), cn);
  }

  lemma RowAtSnoc(rows: seq<Client>, c: Client, cn: string)
    ensures var i := RowAt(rows, cn);
      RowAt(rows + [c], cn) == if i < |rows| then i else if c.cn == cn then |rows| else |rows| + 1
  {
    assert (rows + [c])[..|rows|] == rows;
  }

  lemma EnrolTracks(w: World, h: History, name: string, cn: string, down: bool, n: string, c: Client)
    requires Tracks(w, h, name, cn, down) && Enrollable(w, n, c)
    ensures Tracks(w.(rows := w.rows[n := RowsOf(w, n) + [c]]), h, name, cn, down)
  {
    var w' := w.(rows := w.rows[n := RowsOf(w, n) + [c]]);
    if n == name {
      var rows := RowsOf(w, name);
      RowAtSnoc(rows, c, cn);
      var i := RowAt(rows, cn);
      if i < |rows| { assert (rows + [c])[i] == rows[i]; }
    } else {
      SameRowsTrack(w, w', h, name, cn, down);
    }
  }

  lemma RestartTracks(w: World, h: History, shaping: bool, name: string, cn: string, down: bool)
    requires Tracks(w, h, name, cn, down)
    ensures Tracks(Do(w, shaping, Restart), Take(h, DaemonRestart), name, cn, down)
  {
  }

  lemma OneStep(h: History, s: Step)
    ensures From(h, [s]) == Take(h, s) && From(h, []) == h
  {
    FromSnoc(h, [], s);
    assert [] + [s] == [s];
  }

  lemma RowDeedTracks(w: World, shaping: bool, d: Deed, h: History, name: string, cn: string, down: bool)
    requires Tracks(w, h, name, cn, down) && (d.SoftResetOf? || d.SetSuspended?) && d.i < |RowsOf(w, d.name)|
    requires DeedSteps(w, shaping, d, name, cn) == []
    ensures Tracks(Do(w, shaping, d), h, name, cn, down)
  {
    if d.SoftResetOf? {
      PutClientTracks(w, h, name, cn, down, d.name, d.i, ResetRow(w.rows[d.name][d.i]));
    } else {
      PutClientTracks(w, h, name, cn, down, d.name, d.i, w.rows[d.name][d.i].(suspended := d.suspended));
    }
  }

  lemma PassDeedTracks(w: World, shaping: bool, turns: seq<Turn>, h: History, name: string, cn: string, down: bool)
    requires AllFit(w) && Tracks(w, h, name, cn, down) && PassReadsTruth(w, shaping, turns, name, cn, down, h.raw)
    ensures Tracks(Passed(w, shaping, turns), From(h, PassSteps(w, shaping, turns, name, cn)), name, cn, down)
  {
    PassTracks(w, shaping, turns, h, name, cn, down);
    SameRowsTrack(AppliedAll(w, shaping, turns), Passed(w, shaping, turns), From(h, PassSteps(w, shaping, turns, name, cn)), name, cn, down);
  }

  lemma DeedTracks(w: World, shaping: bool, d: Deed, h: History, name: string, cn: string, down: bool)
    requires AllFit(w) && Tracks(w, h, name, cn, down) && DeedReadsTruth(w, shaping, d, name, cn, down, h.raw)
    ensures Tracks(Do(w, shaping, d), From(h, DeedSteps(w, shaping, d, name, cn)), name, cn, down)
  {
    OneStep(h, Reset);
    OneStep(h, DaemonRestart);
    match d {
      case Pass(turns) => PassDeedTracks(w, shaping, turns, h, name, cn, down);
      case SoftResetOf(n, i) =>
        if n == name && HasRow(w, name, cn) && i == RowAt(RowsOf(w, name), cn) { SoftResetTracks(w, h, name, cn, down); }
        else if i < |RowsOf(w, n)| { RowDeedTracks(w, shaping, d, h, name, cn, down); }
      case SetSuspended(n, i, _) => if i < |RowsOf(w, n)| { RowDeedTracks(w, shaping, d, h, name, cn, down); }
      case Enrol(n, c) => if Enrollable(w, n, c) { EnrolTracks(w, h, name, cn, down, n, c); }
      case Sessions(n, clients) => SameRowsTrack(w, Do(w, shaping, d), h, name, cn, down);
      case Restart => RestartTracks(w, h, shaping, name, cn, down);
    }
  }

  // ---- runs with their true traffic ----

  /** A deed, and the traffic of one client since the deed before it. */
  datatype Told = Told(traffic: seq<Step>, deed: Deed)

  ghost predicate IsTraffic(steps: seq<Step>) {
    forall i :: 0 <= i < |steps| ==> steps[i].Transfer? || steps[i].SessionRestart?
  }

  function WorldOf(shaping: bool, tale: seq<Told>): World {
    if tale == [] then EMPTY else Do(WorldOf(shaping, tale[..|tale| - 1]), shaping, tale[|tale| - 1].deed)
  }

  /** Traffic, samples, soft resets and daemon restarts of a run, as the client's meter sees them. */
  function StepsOf(shaping: bool, tale: seq<Told>, name: string, cn: string): seq<Step> {
    if tale == [] then []
    else
      var init, last := tale[..|tale| - 1], tale[|tale| - 1];
      StepsOf(shaping, init, name, cn) + last.traffic + DeedSteps(WorldOf(shaping, init), shaping, last.deed, name, cn)
  }

  /** Whenever the client is sampled, its session shows the bytes transferred since it began. */
  ghost predicate TellsTruth(shaping: bool, tale: seq<Told>, name: string, cn: string, down: bool) {
    tale == [] ||
    var init, last := tale[..|tale| - 1], tale[|tale| - 1];
    && TellsTruth(shaping, init, name, cn, down) && IsTraffic(last.traffic)
    && DeedReadsTruth(WorldOf(shaping, init), shaping, last.deed, name, cn, down, Run(StepsOf(shaping, init, name, cn) + last.traffic).raw)
  }

  lemma {:induction false} RunFrom(a: seq<Step>, b: seq<Step>)
    ensures Run(a + b) == From(Run(a), b)
  {
    if b == [] {
      assert a + b == a;
    } else {
      RunFrom(a, b[..|b| - 1]);
      assert (a + b)[..|a + b| - 1] == a + b[..|b| - 1];
    }
  }

  lemma {:induction false} TrafficKeepsMeter(h: History, steps: seq<Step>)
    requires IsTraffic(steps)
    ensures From(h, steps).m == h.m
  {
    if steps != [] { TrafficKeepsMeter(h, steps[..|steps| - 1]); }
  }

  lemma {:induction false} WorldFits(shaping: bool, tale: seq<Told>)
    ensures AllFit(WorldOf(shaping, tale))
  {
    if tale != [] {
      WorldFits(shaping, tale[..|tale| - 1]);
      DoFits(WorldOf(shaping, tale[..|tale| - 1]), shaping, tale[|tale| - 1].deed);
    }
  }

  /** The stored meter of a client is that of a metered run of its true traffic. */
  lemma {:induction false} EveryRunTracks(shaping: bool, tale: seq<Told>, name: string, cn: string, down: bool)
    requires TellsTruth(shaping, tale, name, cn, down)
    ensures Tracks(WorldOf(shaping, tale), Run(StepsOf(shaping, tale, name, cn)), name, cn, down)
  {
    if tale != [] {
      var init, last := tale[..|tale| - 1], tale[|tale| - 1];
      var w, steps := WorldOf(shaping, init), StepsOf(shaping, init, name, cn);
      EveryRunTracks(shaping, init, name, cn, down);
      WorldFits(shaping, init);
      RunFrom(steps, last.traffic);
      TrafficKeepsMeter(Run(steps), last.traffic);
      DeedTracks(w, shaping, last.deed, Run(steps + last.traffic), name, cn, down);
      RunFrom(steps + last.traffic, DeedSteps(w, shaping, last.deed, name, cn));
    }
  }

  lemma CounterIsMeter(w: World, name: string, cn: string, down: bool)
    ensures CounterOf(w, name, cn, down) == MeterOf(w, name, cn, down).lifetime
  {
  }

  lemma {:induction false} StepsGrow(shaping: bool, early: seq<Told>, more: seq<Told>, name: string, cn: string) returns (added: seq<Step>)
    ensures StepsOf(shaping, early + more, name, cn) == StepsOf(shaping, early, name, cn) + added
  {
    if more == [] {
      added := [];
      assert early + more == early;
    } else {
      var init, last := more[..|more| - 1], more[|more| - 1];
      var before := StepsGrow(shaping, early, init, name, cn);
      var d := DeedSteps(WorldOf(shaping, early + init), shaping, last.deed, name, cn);
      assert (early + more)[..|early + init|] == early + init;
      StepsSnoc(shaping, early + init, last, early + more, name, cn);
      JoinSteps(StepsOf(shaping, early, name, cn), before, last.traffic, d);
      added := before + last.traffic + d;
    }
  }

  lemma StepsSnoc(shaping: bool, init: seq<Told>, last: Told, all: seq<Told>, name: string, cn: string)
    requires |all| == |init| + 1 && all[..|init|] == init && all[|init|] == last
    ensures StepsOf(shaping, all, name, cn)
      == StepsOf(shaping, init, name, cn) + last.traffic + DeedSteps(WorldOf(shaping, init), shaping, last.deed, name, cn)
  {
  }

  lemma JoinSteps(a: seq<Step>, b: seq<Step>, c: seq<Step>, d: seq<Step>)
    ensures a + b + c + d == a + (b + c + d)
  {
  }

  lemma {:induction false} TruthBefore(shaping: bool, early: seq<Told>, more: seq<Told>, name: string, cn: string, down: bool)
    requires TellsTruth(shaping, early + more, name, cn, down)
    ensures TellsTruth(shaping, early, name, cn, down)
  {
    if more == [] {
      assert early + more == early;
    } else {
      assert (early + more)[..|early + more| - 1] == early + more[..|more| - 1];
      TruthBefore(shaping, early, more[..|more| - 1], name, cn, down);
    }
  }

  /** Over every run of passes, soft resets, suspensions, enrolments, session changes and daemon
      restarts, the stored total of every client never falls and never exceeds its true traffic. */
  lemma CountersOverRuns(shaping: bool, early: seq<Told>, more: seq<Told>, name: string, cn: string, down: bool)
    requires TellsTruth(shaping, early + more, name, cn, down)
    ensures CounterOf(WorldOf(shaping, early), name, cn, down) <= CounterOf(WorldOf(shaping, early + more), name, cn, down)
    ensures CounterOf(WorldOf(shaping, early + more), name, cn, down) <= Bytes(StepsOf(shaping, early + more, name, cn))
  {
    var added := StepsGrow(shaping, early, more, name, cn);
    var steps := StepsOf(shaping, early, name, cn);
    TruthBefore(shaping, early, more, name, cn, down);
    EveryRunTracks(shaping, early, name, cn, down);
    EveryRunTracks(shaping, early + more, name, cn, down);
    CounterIsMeter(WorldOf(shaping, early), name, cn, down);
    CounterIsMeter(WorldOf(shaping, early + more), name, cn, down);
    LifetimeOverRuns(steps, added);
    TotalIs(steps + added);
  }

  // ---- effective bytes and losses of the stored rows ----

  /** The bytes that count towards the quota. */
  function EffectiveOf(w: World, name: string, cn: string, down: bool): int {
    var rows := RowsOf(w, name);
    var i := RowAt(rows, cn);
    if i == |rows| then 0 else if down then EffectiveRx(rows[i]) else EffectiveTx(rows[i])
  }

  /** The stored total and the effective bytes are those of a metered run. */
  ghost predicate Shows(w: World, h: History, name: string, cn: string, down: bool) {
    CounterOf(w, name, cn, down) == h.m.lifetime && EffectiveOf(w, name, cn, down) == h.m.lifetime - h.m.offset
  }

  lemma TracksShows(w: World, h: History, name: string, cn: string, down: bool)
    requires Tracks(w, h, name, cn, down) && Sound(h)
    ensures Shows(w, h, name, cn, down)
  {
  }

  lemma EveryRunShows(shaping: bool, tale: seq<Told>, name: string, cn: string, down: bool)
    requires TellsTruth(shaping, tale, name, cn, down)
    ensures Shows(WorldOf(shaping, tale), Run(StepsOf(shaping, tale, name, cn)), name, cn, down)
  {
    EveryRunTracks(shaping, tale, name, cn, down);
    EveryRunIsSound(StepsOf(shaping, tale, name, cn));
    TracksShows(WorldOf(shaping, tale), Run(StepsOf(shaping, tale, name, cn)), name, cn, down);
  }

  /** The deed soft-resets this client. */
  predicate Resets(w: World, d: Deed, name: string, cn: string) {
    d.SoftResetOf? && d.name == name && HasRow(w, name, cn) && d.i == RowAt(RowsOf(w, name), cn)
  }

  /** How many deeds there are up to the last soft reset of the client. */
  function ResetAt(shaping: bool, tale: seq<Told>, name: string, cn: string): (k: nat)
    ensures k <= |tale|
  {
    if tale == [] then 0
    else
      var init, last := tale[..|tale| - 1], tale[|tale| - 1];
      if Resets(WorldOf(shaping, init), last.deed, name, cn) then |tale| else ResetAt(shaping, init, name, cn)
  }

  ghost predicate NoReset(steps: seq<Step>) { forall i :: 0 <= i < |steps| ==> !steps[i].Reset? }

  lemma {:induction false} OffsetStays(h: History, steps: seq<Step>)
    requires NoReset(steps)
    ensures From(h, steps).m.offset == h.m.offset
  {
    if steps != [] { OffsetStays(h, steps[..|steps| - 1]); }
  }

  lemma {:induction false} PassHasNoReset(w: World, shaping: bool, turns: seq<Turn>, name: string, cn: string)
    ensures NoReset(PassSteps(w, shaping, turns, name, cn))
  {
    if turns != [] { PassHasNoReset(w, shaping, turns[..|turns| - 1], name, cn); }
  }

  lemma DeedHasNoReset(w: World, shaping: bool, d: Deed, name: string, cn: string)
    requires !Resets(w, d, name, cn)
    ensures NoReset(DeedSteps(w, shaping, d, name, cn))
  {
    if d.Pass? { PassHasNoReset(w, shaping, d.turns, name, cn); }
  }

  /** Traffic and one deed either set the offset to the total or leave it. */
  lemma StepsOffset(h: History, traffic: seq<Step>, deed: seq<Step>, h': History)
    requires IsTraffic(traffic) && (deed == [Reset] || NoReset(deed)) && h' == From(From(h, traffic), deed)
    ensures h'.m.offset == if deed == [Reset] then h'.m.lifetime else h.m.offset
  {
    OffsetStays(h, traffic);
    if deed == [Reset] { OneStep(From(h, traffic), Reset); } else { OffsetStays(From(h, traffic), deed); }
  }

  lemma RunSteps(shaping: bool, init: seq<Told>, last: Told, all: seq<Told>, name: string, cn: string)
    requires all == init + [last]
    ensures Run(StepsOf(shaping, all, name, cn))
      == From(From(Run(StepsOf(shaping, init, name, cn)), last.traffic), DeedSteps(WorldOf(shaping, init), shaping, last.deed, name, cn))
  {
    var steps := StepsOf(shaping, init, name, cn);
    StepsSnoc(shaping, init, last, all, name, cn);
    RunFrom(steps, last.traffic);
    RunFrom(steps + last.traffic, DeedSteps(WorldOf(shaping, init), shaping, last.deed, name, cn));
  }

  /** The offset is the total at the last soft reset. */
  lemma {:induction false} OffsetIs(shaping: bool, tale: seq<Told>, name: string, cn: string)
    requires forall i :: 0 <= i < |tale| ==> IsTraffic(tale[i].traffic)
    ensures Run(StepsOf(shaping, tale, name, cn)).m.offset == Run(StepsOf(shaping, tale[..ResetAt(shaping, tale, name, cn)], name, cn)).m.lifetime
  {
    if tale != [] {
      var init, last := tale[..|tale| - 1], tale[|tale| - 1];
      var w, steps := WorldOf(shaping, init), StepsOf(shaping, init, name, cn);
      OffsetIs(shaping, init, name, cn);
      RunSteps(shaping, init, last, tale, name, cn);
      if Resets(w, last.deed, name, cn) {
        StepsOffset(Run(steps), last.traffic, [Reset], Run(StepsOf(shaping, tale, name, cn)));
        assert tale[..|tale|] == tale;
      } else {
        DeedHasNoReset(w, shaping, last.deed, name, cn);
        StepsOffset(Run(steps), last.traffic, DeedSteps(w, shaping, last.deed, name, cn), Run(StepsOf(shaping, tale, name, cn)));
        var k := ResetAt(shaping, init, name, cn);
        assert tale[..k] == init[..k];
      }
    }
  }

  lemma {:induction false} TellsTraffic(shaping: bool, tale: seq<Told>, name: string, cn: string, down: bool)
    requires TellsTruth(shaping, tale, name, cn, down)
    ensures forall i :: 0 <= i < |tale| ==> IsTraffic(tale[i].traffic)
  {
    if tale != [] {
      var init := tale[..|tale| - 1];
      TellsTraffic(shaping, init, name, cn, down);
      assert forall i :: 0 <= i < |init| ==> tale[i] == init[i];
    }
  }

  lemma EffectiveIs(w: World, early: World, h: History, h0: History, name: string, cn: string, down: bool)
    requires Shows(w, h, name, cn, down) && Shows(early, h0, name, cn, down) && h.m.offset == h0.m.lifetime
    ensures EffectiveOf(w, name, cn, down) == CounterOf(w, name, cn, down) - CounterOf(early, name, cn, down)
  {
  }

  /** Over every such run the effective bytes of a client are what its stored total gained since
      its last soft reset. */
  lemma EffectiveOverRuns(shaping: bool, tale: seq<Told>, name: string, cn: string, down: bool)
    requires TellsTruth(shaping, tale, name, cn, down)
    ensures var early := tale[..ResetAt(shaping, tale, name, cn)];
      EffectiveOf(WorldOf(shaping, tale), name, cn, down)
        == CounterOf(WorldOf(shaping, tale), name, cn, down) - CounterOf(WorldOf(shaping, early), name, cn, down)
  {
    var early, more := tale[..ResetAt(shaping, tale, name, cn)], tale[ResetAt(shaping, tale, name, cn)..];
    assert early + more == tale;
    TruthBefore(shaping, early, more, name, cn, down);
    TellsTraffic(shaping, tale, name, cn, down);
    OffsetIs(shaping, tale, name, cn);
    EveryRunShows(shaping, tale, name, cn, down);
    EveryRunShows(shaping, early, name, cn, down);
    EffectiveIs(WorldOf(shaping, tale), WorldOf(shaping, early), Run(StepsOf(shaping, tale, name, cn)),
                Run(StepsOf(shaping, early, name, cn)), name, cn, down);
  }

  /** Over every such run the stored total of a client, with what is not sampled yet, is its true
      traffic exactly if every sample taken of it kept all. */
  lemma StoredIsTruthExactly(shaping: bool, tale: seq<Told>, name: string, cn: string, down: bool)
    requires TellsTruth(shaping, tale, name, cn, down)
    ensures var steps := StepsOf(shaping, tale, name, cn);
      CounterOf(WorldOf(shaping, tale), name, cn, down) + Unseen(steps) == Bytes(steps) <==>
      forall i {:trigger steps[i]} :: 0 <= i < |steps| && steps[i] == Observe ==> KeepsAll(steps[..i])
  {
    var steps := StepsOf(shaping, tale, name, cn);
    EveryRunShows(shaping, tale, name, cn, down);
    RunIs(steps);
    NothingLostExactly(steps);
  }
}
