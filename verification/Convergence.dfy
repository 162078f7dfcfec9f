/** Reconcile passes drive the processes to what is stored, and then leave them alone. */
module Convergence {
  import opened Traffic
  import opened Backend
  import opened Passes
  import opened ClientRuns

  // ---- frames: an instance's turn touches only that instance ----

  ghost predicate SameProcess(f: Fleet, g: Fleet, name: string) {
    && (name in f.procs <==> name in g.procs)
    && (name in f.procs ==> f.procs[name].(clients := []) == g.procs[name].(clients := []))
  }

  /** Sampling changes no process but for its client list, and starts none. */
  lemma {:induction false} SamplingSparesProcesses(start: Sampling, inst: string, rows: seq<Client>, live: map<string, LiveClient>, now: int, name: string)
    ensures var f := SampleAll(start, inst, rows, live, now).fleet;
      && SameProcess(f, start.fleet, name) && f.starts == start.fleet.starts
  {
    if rows != [] {
      SamplingSparesProcesses(start, inst, rows[..|rows| - 1], live, now, name);
    }
  }

  lemma AppliedProcess(w: World, shaping: bool, inst: Instance, t: Clock, name: string)
    requires Applies(inst)
    ensures var f := Applied(w, shaping, inst, t).fleet;
      && SameProcess(f, EnsuredFleet(w, shaping, inst, t.start), name) && f.starts == EnsuredFleet(w, shaping, inst, t.start).starts
  {
    if inst.enabled {
      var fleet := EnsuredFleet(w, shaping, inst, t.start);
      SamplingSparesProcesses(Sampling([], w.samples, w.cache, fleet, []), inst.name, Considered(w, inst, t.start),
                              LiveClients(fleet, inst.name), t.sampled, name);
    }
  }

  // ---- the conf depends on rates only ----

  ghost predicate SameRates(rows: seq<Client>, rows': seq<Client>) {
    |rows| == |rows'| && forall i :: 0 <= i < |rows| ==> ClientRate(rows[i]) == ClientRate(rows'[i])
  }

  lemma {:induction false} SameTopRate(rows: seq<Client>, rows': seq<Client>)
    requires SameRates(rows, rows')
    ensures TopRate(rows) == TopRate(rows')
  {
    if rows != [] {
      SameTopRate(rows[..|rows| - 1], rows'[..|rows| - 1]);
    }
  }

  /** The stored clients that go into the conf of an instance. */
  function Clients(w: World, inst: Instance): seq<Client> { if inst.server then RowsOf(w, inst.name) else [] }

  /** Suspending, counting or soft-resetting clients changes no conf. */
  lemma SameConf(w: World, w': World, shaping: bool, inst: Instance)
    requires inst.conf.Some? && SameRates(Clients(w, inst), Clients(w', inst))
    ensures ConfOf(shaping, inst, Clients(w, inst)) == ConfOf(shaping, inst, Clients(w', inst))
  {
    SameTopRate(Clients(w, inst), Clients(w', inst));
  }

  lemma CheckedRates(rows: seq<Client>, now: int)
    ensures SameRates(CheckedRows(rows, now), rows)
  {
    forall i | 0 <= i < |rows| ensures ClientRate(CheckedRows(rows, now)[i]) == ClientRate(rows[i]) { CheckedRow(rows, now, i); }
  }

  lemma {:induction false} SampledRates(start: Sampling, inst: string, rows: seq<Client>, live: map<string, LiveClient>, now: int)
    requires start.rows == []
    ensures SameRates(SampleAll(start, inst, rows, live, now).rows, rows)
  {
    if rows != [] {
      SampledRates(start, inst, rows[..|rows| - 1], live, now);
    }
  }

  lemma RatesChain(a: seq<Client>, b: seq<Client>, c: seq<Client>)
    requires SameRates(a, b) && SameRates(b, c)
    ensures SameRates(a, c)
  {
  }

  lemma SameRatesRefl(rows: seq<Client>)
    ensures SameRates(rows, rows)
  {
  }

  lemma ServedRates(w: World, shaping: bool, inst: Instance, t: Clock)
    requires inst.server && inst.name in w.rows && inst.binary.Some?
    ensures var w' := Applied(w, shaping, inst, t); inst.name in w'.rows && SameRates(w'.rows[inst.name], w.rows[inst.name])
  {
    var rows := w.rows[inst.name];
    CheckedRates(rows, t.start);
    if Applies(inst) && inst.enabled {
      var start := Sampling([], w.samples, w.cache, EnsuredFleet(w, shaping, inst, t.start), []);
      var live := LiveClients(start.fleet, inst.name);
      SampledRates(start, inst.name, Considered(w, inst, t.start), live, t.sampled);
      RatesChain(SampleAll(start, inst.name, Considered(w, inst, t.start), live, t.sampled).rows, CheckedRows(rows, t.start), rows);
    }
  }

  lemma AppliedRates(w: World, shaping: bool, inst: Instance, t: Clock, other: Instance)
    ensures SameRates(Clients(Applied(w, shaping, inst, t), other), Clients(w, other))
  {
    SameRatesRefl(Clients(w, other));
    if inst.name != other.name {
      AppliedSparesRows(w, shaping, inst, t, other.name);
    } else if inst.server && inst.name in w.rows && inst.binary.Some? {
      ServedRates(w, shaping, inst, t);
    }
  }

  // ---- convergence ----

  /** An applied instance is up exactly if enabled, and then runs the wanted conf and binary. */
  ghost predicate Settled(w: World, shaping: bool, inst: Instance) {
    Applies(inst) ==>
      if inst.enabled then !NeedsStart(w.fleet, inst.name, ConfOf(shaping, inst, Clients(w, inst)), inst.binary.value)
      else !Up(w.fleet, inst.name)
  }

  lemma EnsuredSettles(w: World, shaping: bool, inst: Instance, now: int)
    requires Applies(inst)
    ensures var f, conf := EnsuredFleet(w, shaping, inst, now), ConfOf(shaping, inst, Considered(w, inst, now));
      if inst.enabled then !NeedsStart(f, inst.name, conf, inst.binary.value) else !Up(f, inst.name)
  {
  }

  lemma ConsideredConf(w: World, shaping: bool, inst: Instance, t: Clock)
    requires Applies(inst)
    ensures ConfOf(shaping, inst, Considered(w, inst, t.start)) == ConfOf(shaping, inst, Clients(w, inst))
    ensures ConfOf(shaping, inst, Clients(Applied(w, shaping, inst, t), inst)) == ConfOf(shaping, inst, Clients(w, inst))
  {
    CheckedRates(RowsOf(w, inst.name), t.start);
    SameTopRate(Considered(w, inst, t.start), Clients(w, inst));
    AppliedRates(w, shaping, inst, t, inst);
    SameConf(w, Applied(w, shaping, inst, t), shaping, inst);
  }

  lemma AppliedSettles(w: World, shaping: bool, inst: Instance, t: Clock)
    ensures Settled(Applied(w, shaping, inst, t), shaping, inst)
  {
    if Applies(inst) {
      EnsuredSettles(w, shaping, inst, t.start);
      AppliedProcess(w, shaping, inst, t, inst.name);
      ConsideredConf(w, shaping, inst, t);
    }
  }

  lemma ErrorKeepsFleet(w: World, shaping: bool, inst: Instance, t: Clock)
    requires !Applies(inst)
    ensures Applied(w, shaping, inst, t).fleet == w.fleet
  {
  }

  lemma AppliedSparesProcess(w: World, shaping: bool, inst: Instance, t: Clock, name: string)
    requires name != inst.name
    ensures SameProcess(Applied(w, shaping, inst, t).fleet, w.fleet, name)
  {
    if Applies(inst) {
      AppliedProcess(w, shaping, inst, t, name);
    } else {
      ErrorKeepsFleet(w, shaping, inst, t);
    }
  }

  /** What a world shows of an instance: its process, apart from the client list, and the rates of
      its clients. */
  ghost predicate SameView(w: World, w': World, inst: Instance) {
    SameProcess(w.fleet, w'.fleet, inst.name) && SameRates(Clients(w, inst), Clients(w', inst))
  }

  lemma SettledByView(w: World, w': World, shaping: bool, inst: Instance)
    requires SameView(w, w', inst) && Settled(w, shaping, inst)
    ensures Settled(w', shaping, inst)
  {
    if Applies(inst) { SameConf(w, w', shaping, inst); }
  }

  lemma AppliedSparesView(w: World, shaping: bool, inst: Instance, t: Clock, other: Instance)
    requires other.name != inst.name
    ensures SameView(w, Applied(w, shaping, inst, t), other)
  {
    AppliedSparesProcess(w, shaping, inst, t, other.name);
    AppliedRates(w, shaping, inst, t, other);
  }

  /** After the turns of a pass every instance among them is settled. */
  lemma {:induction false} TurnsSettle(w: World, shaping: bool, turns: seq<Turn>, k: nat)
    requires k < |turns| && DistinctNames(turns)
    ensures Settled(AppliedAll(w, shaping, turns), shaping, turns[k].inst)
  {
    var n := |turns| - 1;
    var u := AppliedAll(w, shaping, turns[..n]);
    if k < n {
      TurnsSettle(w, shaping, turns[..n], k);
      AppliedSparesView(u, shaping, turns[n].inst, turns[n].t, turns[k].inst);
      SettledByView(u, AppliedAll(w, shaping, turns), shaping, turns[k].inst);
    } else {
      AppliedSettles(u, shaping, turns[n].inst, turns[n].t);
    }
  }

  lemma {:induction false} TurnsSpare(w: World, shaping: bool, turns: seq<Turn>, name: string)
    requires forall i :: 0 <= i < |turns| ==> turns[i].inst.name == name ==> !Applies(turns[i].inst)
    ensures SameProcess(AppliedAll(w, shaping, turns).fleet, w.fleet, name)
  {
    if turns != [] {
      var n := |turns| - 1;
      TurnsSpare(w, shaping, turns[..n], name);
      var u := AppliedAll(w, shaping, turns[..n]);
      if turns[n].inst.name != name {
        AppliedSparesProcess(u, shaping, turns[n].inst, turns[n].t, name);
      } else {
        ErrorKeepsFleet(u, shaping, turns[n].inst, turns[n].t);
      }
    }
  }

  lemma {:induction false} NameOf(turns: seq<Turn>, k: nat)
    requires k < |turns|
    ensures turns[k].inst.name in NamesOf(turns)
  {
    if k < |turns| - 1 { NameOf(turns[..|turns| - 1], k); }
  }

  lemma {:induction false} NamedTurn(turns: seq<Turn>, name: string) returns (k: nat)
    requires name in NamesOf(turns)
    ensures k < |turns| && turns[k].inst.name == name
  {
    if turns[|turns| - 1].inst.name == name { k := |turns| - 1; } else { k := NamedTurn(turns[..|turns| - 1], name); }
  }

  lemma PassKeepsNamed(w: World, shaping: bool, turns: seq<Turn>, k: nat)
    requires k < |turns|
    ensures SameView(AppliedAll(w, shaping, turns), Passed(w, shaping, turns), turns[k].inst)
  {
    NameOf(turns, k);
    SameRatesRefl(Clients(AppliedAll(w, shaping, turns), turns[k].inst));
  }

  lemma PassSettles(w: World, shaping: bool, turns: seq<Turn>, k: nat)
    requires k < |turns| && DistinctNames(turns)
    ensures Settled(Passed(w, shaping, turns), shaping, turns[k].inst)
  {
    TurnsSettle(w, shaping, turns, k);
    PassKeepsNamed(w, shaping, turns, k);
    SettledByView(AppliedAll(w, shaping, turns), Passed(w, shaping, turns), shaping, turns[k].inst);
  }

  /** From any state, after one pass an instance that resolves and renders is up exactly if it is
      enabled, and then with the current conf and binary; one that does not is left as it was; and
      nothing that is not stored is up. */
  lemma PassConverges(w: World, shaping: bool, turns: seq<Turn>, name: string)
    requires DistinctNames(turns)
    ensures var f := Passed(w, shaping, turns).fleet;
      && (name !in NamesOf(turns) ==> !Up(f, name))
      && forall k :: 0 <= k < |turns| && turns[k].inst.name == name ==>
           var inst := turns[k].inst;
           && (Applies(inst) ==> (Up(f, name) <==> inst.enabled))
           && (Applies(inst) && inst.enabled ==> f.procs[name].binary == inst.binary.value)
           && (Applies(inst) && inst.enabled ==> f.procs[name].conf == ConfOf(shaping, inst, Clients(Passed(w, shaping, turns), inst)))
           && (!Applies(inst) ==> SameProcess(f, w.fleet, name))
  {
    forall k: nat | k < |turns| && turns[k].inst.name == name
      ensures Settled(Passed(w, shaping, turns), shaping, turns[k].inst)
      ensures !Applies(turns[k].inst) ==> SameProcess(Passed(w, shaping, turns).fleet, w.fleet, name)
    {
      PassSettles(w, shaping, turns, k);
      if !Applies(turns[k].inst) {
        OnlyTurn(turns, k);
        TurnsSpare(w, shaping, turns, name);
        PassKeepsNamed(w, shaping, turns, k);
      }
    }
  }

  lemma OnlyTurn(turns: seq<Turn>, k: nat)
    requires k < |turns| && DistinctNames(turns)
    ensures forall i :: 0 <= i < |turns| ==> turns[i].inst.name == turns[k].inst.name ==> i == k
  {
  }

  // ---- passes over settled instances ----

  lemma SettledTurn(w: World, shaping: bool, inst: Instance, t: Clock, name: string)
    requires Settled(w, shaping, inst)
    ensures var w' := Applied(w, shaping, inst, t);
      && w'.fleet.starts == w.fleet.starts
      && (Up(w.fleet, name) ==> SameProcess(w'.fleet, w.fleet, name))
  {
    if Applies(inst) {
      AppliedProcess(w, shaping, inst, t, name);
      ConsideredConf(w, shaping, inst, t);
    } else {
      ErrorKeepsFleet(w, shaping, inst, t);
    }
  }

  /** A pass over settled instances starts nothing, and leaves every running process alone. */
  lemma {:induction false} SettledTurns(w: World, shaping: bool, turns: seq<Turn>, name: string)
    requires DistinctNames(turns) && forall k :: 0 <= k < |turns| ==> Settled(w, shaping, turns[k].inst)
    ensures var w' := AppliedAll(w, shaping, turns);
      && w'.fleet.starts == w.fleet.starts
      && (Up(w.fleet, name) ==> SameProcess(w'.fleet, w.fleet, name))
  {
    if turns != [] {
      var n := |turns| - 1;
      var u := AppliedAll(w, shaping, turns[..n]);
      SettledTurns(w, shaping, turns[..n], name);
      TurnsSpareView(w, shaping, turns[..n], turns[n].inst);
      SettledByView(w, u, shaping, turns[n].inst);
      SettledTurn(u, shaping, turns[n].inst, turns[n].t, name);
    }
  }

  lemma {:induction false} TurnsSpareView(w: World, shaping: bool, turns: seq<Turn>, inst: Instance)
    requires forall i :: 0 <= i < |turns| ==> turns[i].inst.name != inst.name
    ensures SameView(w, AppliedAll(w, shaping, turns), inst)
  {
    if turns == [] {
      SameRatesRefl(Clients(w, inst));
    } else {
      var n := |turns| - 1;
      TurnsSpareView(w, shaping, turns[..n], inst);
      AppliedSparesView(AppliedAll(w, shaping, turns[..n]), shaping, turns[n].inst, turns[n].t, inst);
    }
  }

  ghost predicate SameInstances(turns: seq<Turn>, turns': seq<Turn>) {
    |turns| == |turns'| && forall k :: 0 <= k < |turns| ==> turns[k].inst == turns'[k].inst
  }

  /** A second pass over the same instances restarts nothing if their views are as the first left
      them. */
  lemma SecondPassStartsNothing(w: World, w': World, shaping: bool, turns: seq<Turn>, turns': seq<Turn>, name: string)
    requires DistinctNames(turns) && SameInstances(turns, turns')
    requires forall k :: 0 <= k < |turns| ==> SameView(Passed(w, shaping, turns), w', turns[k].inst)
    ensures var w'' := Passed(w', shaping, turns');
      && w''.fleet.starts == w'.fleet.starts
      && (name in NamesOf(turns') && Up(w'.fleet, name) ==> SameProcess(w''.fleet, w'.fleet, name))
  {
    forall k: nat | k < |turns'| ensures Settled(w', shaping, turns'[k].inst) {
      PassSettles(w, shaping, turns, k);
      SettledByView(Passed(w, shaping, turns), w', shaping, turns[k].inst);
    }
    SettledTurns(w', shaping, turns', name);
  }

  lemma PutRowKeepsView(w: World, name: string, i: nat, c: Client, inst: Instance)
    requires name in w.rows && i < |w.rows[name]| && ClientRate(c) == ClientRate(w.rows[name][i])
    ensures SameView(w, PutClient(w, name, i, c), inst)
  {
  }

  /** Suspending a client by hand, a soft reset, a change of the sessions or a restart of the daemon
      leaves the view of every instance as it was. */
  lemma DeedsKeepView(w: World, shaping: bool, d: Deed, inst: Instance)
    requires d.SoftResetOf? || d.SetSuspended? || d.Sessions? || d.Restart?
    ensures SameView(w, Do(w, shaping, d), inst)
  {
    SameRatesRefl(Clients(w, inst));
    match d {
      case SoftResetOf(name, i) => if i < |RowsOf(w, name)| { PutRowKeepsView(w, name, i, ResetRow(w.rows[name][i]), inst); }
      case SetSuspended(name, i, suspended) =>
        if i < |RowsOf(w, name)| { PutRowKeepsView(w, name, i, w.rows[name][i].(suspended := suspended), inst); }
      case _ =>
    }
  }

  // ---- runs that change no setting ----

  /** A deed that changes no setting of the instances: it suspends, resets, changes sessions,
      restarts the daemon, or passes over them again. */
  ghost predicate Quiet(d: Deed, turns: seq<Turn>) {
    d.SoftResetOf? || d.SetSuspended? || d.Sessions? || d.Restart? || (d.Pass? && SameInstances(turns, d.turns))
  }

  function DoAll(w: World, shaping: bool, deeds: seq<Deed>): World {
    if deeds == [] then w else Do(DoAll(w, shaping, deeds[..|deeds| - 1]), shaping, deeds[|deeds| - 1])
  }

  ghost predicate AllSettled(w: World, shaping: bool, turns: seq<Turn>) {
    forall k :: 0 <= k < |turns| ==> Settled(w, shaping, turns[k].inst)
  }

  lemma {:induction false} SameNames(turns: seq<Turn>, turns': seq<Turn>)
    requires SameInstances(turns, turns')
    ensures NamesOf(turns) == NamesOf(turns')
  {
    if turns != [] { SameNames(turns[..|turns| - 1], turns'[..|turns'| - 1]); }
  }

  lemma DeedStartsNothing(w: World, shaping: bool, d: Deed)
    requires !d.Pass?
    ensures Do(w, shaping, d).fleet.starts == w.fleet.starts
  {
  }

  /** One quiet deed among settled instances. */
  lemma QuietStep(w: World, shaping: bool, d: Deed, turns: seq<Turn>, name: string)
    requires DistinctNames(turns) && AllSettled(w, shaping, turns) && Quiet(d, turns) && name in NamesOf(turns)
    ensures var w' := Do(w, shaping, d);
      && AllSettled(w', shaping, turns) && w'.fleet.starts == w.fleet.starts
      && (Up(w.fleet, name) ==> SameProcess(w'.fleet, w.fleet, name))
  {
    var w' := Do(w, shaping, d);
    if d.Pass? {
      forall k: nat | k < |turns| ensures Settled(w', shaping, turns[k].inst) { PassSettles(w, shaping, d.turns, k); }
      SameNames(turns, d.turns);
      SettledTurns(w, shaping, d.turns, name);
    } else {
      forall k: nat | k < |turns| ensures Settled(w', shaping, turns[k].inst) {
        DeedsKeepView(w, shaping, d, turns[k].inst);
        SettledByView(w, w', shaping, turns[k].inst);
      }
      var k := NamedTurn(turns, name);
      DeedsKeepView(w, shaping, d, turns[k].inst);
      DeedStartsNothing(w, shaping, d);
    }
  }

  /** After a pass, however often clients are suspended or reset, sessions change, the daemon
      restarts and passes are repeated over the same instances, in any order, no process is started
      and every one that was up goes on unchanged. */
  lemma {:induction false} QuietRunStartsNothing(w: World, shaping: bool, turns: seq<Turn>, deeds: seq<Deed>, name: string)
    requires DistinctNames(turns) && name in NamesOf(turns)
    requires forall i :: 0 <= i < |deeds| ==> Quiet(deeds[i], turns)
    ensures var w1 := Passed(w, shaping, turns);
      && var w2 := DoAll(w1, shaping, deeds);
      && AllSettled(w2, shaping, turns) && w2.fleet.starts == w1.fleet.starts
      && (Up(w1.fleet, name) ==> SameProcess(w2.fleet, w1.fleet, name))
  {
    var w1 := Passed(w, shaping, turns);
    if deeds == [] {
      forall k: nat | k < |turns| ensures Settled(w1, shaping, turns[k].inst) { PassSettles(w, shaping, turns, k); }
    } else {
      var n := |deeds| - 1;
      QuietRunStartsNothing(w, shaping, turns, deeds[..n], name);
      QuietStep(DoAll(w1, shaping, deeds[..n]), shaping, deeds[n], turns, name);
    }
  }
}
