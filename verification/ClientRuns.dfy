/** What reconcile passes do to the client rows: suspension, metering, soft-reset offsets, and what
    the cache shows. */
module ClientRuns {
  import opened Wrappers
  import opened Traffic
  import opened Backend
  import opened Passes

  // ---- suspension ----

  lemma {:induction false} CheckedRow(rows: seq<Client>, now: int, i: nat)
    requires i < |rows|
    ensures CheckedRows(rows, now)[i] == rows[i].(suspended := rows[i].suspended || !InGoodStanding(rows[i], now))
  {
    SuspendsExactly(rows[i], now);
    if i < |rows| - 1 {
      CheckedRow(rows[..|rows| - 1], now, i);
    }
  }

  ghost predicate DistinctCNs(rows: seq<Client>) {
    forall i, j :: 0 <= i < j < |rows| ==> rows[i].cn != rows[j].cn
  }

  lemma {:induction false} SampledKeys(start: Sampling, inst: string, rows: seq<Client>, live: map<string, LiveClient>, now: int, k: Key)
    requires k.inst != inst || forall i :: 0 <= i < |rows| ==> rows[i].cn != k.cn
    ensures var s := SampleAll(start, inst, rows, live, now);
      && (k in s.samples <==> k in start.samples) && (k in s.samples ==> s.samples[k] == start.samples[k])
      && (k in s.cache <==> k in start.cache) && (k in s.cache ==> s.cache[k] == start.cache[k])
  {
    if rows != [] {
      SampledKeys(start, inst, rows[..|rows| - 1], live, now, k);
    }
  }

  /** What one look leaves of a client: its row, its cache entry and its sample. */
  ghost predicate Looked(s: Sampling, before: map<Key, Sample>, r: Client, row: Client, k: Key, l: Option<LiveClient>) {
    && row == r
    && k in s.cache && s.cache[k] == Cached(l.Some? && !r.suspended, r.lastRx - r.offRx, r.lastTx - r.offTx, r.suspended)
    && (l.Some? ==> k in s.samples && s.samples[k] == Sample(l.value.rx, l.value.tx))
    && (l.None? ==> (k in s.samples <==> k in before) && (k in s.samples ==> s.samples[k] == before[k]))
  }

  lemma LookedLater(s: Sampling, inst: string, c: Client, live: map<string, LiveClient>, now: int,
                    before: map<Key, Sample>, r: Client, row: Client, k: Key, l: Option<LiveClient>)
    requires Looked(s, before, r, row, k, l) && k != Key(inst, c.cn)
    ensures Looked(SampleOne(s, inst, c, live, now), before, r, row, k, l)
  {
  }

  lemma LookedNow(s: Sampling, inst: string, c: Client, live: map<string, LiveClient>, now: int, before: map<Key, Sample>)
    requires var k := Key(inst, c.cn); (k in s.samples <==> k in before) && (k in s.samples ==> s.samples[k] == before[k])
    ensures var s', k, l := SampleOne(s, inst, c, live, now), Key(inst, c.cn), Find(live, c.cn);
      Looked(s', before, SampledRow(c, l, before, k, now), s'.rows[|s.rows|], k, l)
  {
  }

  /** What the sampling loop does to one client, whatever the others do. */
  lemma {:induction false} SampledClient(start: Sampling, inst: string, rows: seq<Client>, live: map<string, LiveClient>, now: int, i: nat)
    requires i < |rows| && DistinctCNs(rows) && start.rows == []
    ensures var s, k, l := SampleAll(start, inst, rows, live, now), Key(inst, rows[i].cn), Find(live, rows[i].cn);
      Looked(s, start.samples, SampledRow(rows[i], l, start.samples, k, now), s.rows[i], k, l)
  {
    var init, c := rows[..|rows| - 1], rows[|rows| - 1];
    var s := SampleAll(start, inst, init, live, now);
    if i < |init| {
      SampledClient(start, inst, init, live, now, i);
      var k, l := Key(inst, rows[i].cn), Find(live, rows[i].cn);
      LookedLater(s, inst, c, live, now, start.samples, SampledRow(rows[i], l, start.samples, k, now), s.rows[i], k, l);
    } else {
      SampledKeys(start, inst, init, live, now, Key(inst, c.cn));
      LookedNow(s, inst, c, live, now, start.samples);
    }
  }

  /** The live view of a client when its instance is sampled. */
  function LiveOf(w: World, shaping: bool, inst: Instance, t: Clock, cn: string): Option<LiveClient>
    requires Applies(inst)
  {
    if inst.enabled then Find(LiveClients(EnsuredFleet(w, shaping, inst, t.start), inst.name), cn) else None
  }

  lemma CheckedAreDistinct(rows: seq<Client>, now: int)
    requires DistinctCNs(rows)
    ensures DistinctCNs(CheckedRows(rows, now))
  {
    forall i | 0 <= i < |rows| ensures CheckedRows(rows, now)[i].cn == rows[i].cn { CheckedRow(rows, now, i); }
  }

  ghost predicate Serves(w: World, inst: Instance, i: nat) {
    inst.server && inst.name in w.rows && i < |w.rows[inst.name]| && DistinctCNs(w.rows[inst.name])
  }

  /** The row of a client after its instance was applied. */
  lemma AppliedRow(w: World, shaping: bool, inst: Instance, t: Clock, i: nat)
    requires Applies(inst) && Serves(w, inst, i)
    ensures var w', c := Applied(w, shaping, inst, t), w.rows[inst.name][i];
      && inst.name in w'.rows && |w'.rows[inst.name]| == |w.rows[inst.name]|
      && var checked := c.(suspended := c.suspended || !InGoodStanding(c, t.start));
      && w'.rows[inst.name][i] ==
           if inst.enabled then SampledRow(checked, LiveOf(w, shaping, inst, t, c.cn), w.samples, Key(inst.name, c.cn), t.sampled)
           else checked
  {
    var rows := w.rows[inst.name];
    CheckedRow(rows, t.start, i);
    if inst.enabled {
      CheckedAreDistinct(rows, t.start);
      var fleet := EnsuredFleet(w, shaping, inst, t.start);
      SampledClient(Sampling([], w.samples, w.cache, fleet, []), inst.name, Considered(w, inst, t.start),
                    LiveClients(fleet, inst.name), t.sampled, i);
    }
  }

  /** The time at which a pass last judged the clients of an instance. */
  function JudgedAt(inst: Instance, t: Clock): int { if inst.enabled then t.sampled else t.start }

  /** After an instance is applied its unsuspended clients are in good standing on the stored
      counters; and a client was suspended exactly if it was before or failed one of the checks. */
  lemma AppliedStanding(w: World, shaping: bool, inst: Instance, t: Clock, i: nat)
    requires Applies(inst) && Serves(w, inst, i)
    ensures var r, c := Applied(w, shaping, inst, t).rows[inst.name][i], w.rows[inst.name][i];
      && (!r.suspended ==> InGoodStanding(r, JudgedAt(inst, t)))
      && (r.suspended <==> c.suspended || !InGoodStanding(c, t.start) || !InGoodStanding(r, JudgedAt(inst, t)))
  {
    AppliedRow(w, shaping, inst, t, i);
    var c := w.rows[inst.name][i];
    var checked := c.(suspended := c.suspended || !InGoodStanding(c, t.start));
    SuspendsExactly(Counted(checked, LiveOf(w, shaping, inst, t, c.cn), w.samples, Key(inst.name, c.cn)), t.sampled);
  }

  // ---- metering ----

  function MeterRx(w: World, name: string, c: Client): Meter {
    Meter(c.lastRx, c.offRx, if Key(name, c.cn) in w.samples then Some(w.samples[Key(name, c.cn)].rx) else None)
  }

  function MeterTx(w: World, name: string, c: Client): Meter {
    Meter(c.lastTx, c.offTx, if Key(name, c.cn) in w.samples then Some(w.samples[Key(name, c.cn)].tx) else None)
  }

  /** Applying an instance moves the two meters of every client by exactly one sampling if it is
      connected, and not at all otherwise; so the laws of metered runs hold of the stored rows. */
  lemma AppliedMeters(w: World, shaping: bool, inst: Instance, t: Clock, i: nat)
    requires Applies(inst) && Serves(w, inst, i)
    ensures var w', c := Applied(w, shaping, inst, t), w.rows[inst.name][i];
      && var r, live := w'.rows[inst.name][i], LiveOf(w, shaping, inst, t, c.cn);
      && MeterRx(w', inst.name, r) == (if live.Some? then Sampled(MeterRx(w, inst.name, c), live.value.rx) else MeterRx(w, inst.name, c))
      && MeterTx(w', inst.name, r) == (if live.Some? then Sampled(MeterTx(w, inst.name, c), live.value.tx) else MeterTx(w, inst.name, c))
  {
    AppliedRow(w, shaping, inst, t, i);
    if inst.enabled {
      CheckedRow(w.rows[inst.name], t.start, i);
      CheckedAreDistinct(w.rows[inst.name], t.start);
      var fleet := EnsuredFleet(w, shaping, inst, t.start);
      SampledClient(Sampling([], w.samples, w.cache, fleet, []), inst.name, Considered(w, inst, t.start),
                    LiveClients(fleet, inst.name), t.sampled, i);
    }
  }

  lemma AppliedCacheEntry(w: World, shaping: bool, inst: Instance, t: Clock, i: nat)
    requires Applies(inst) && Serves(w, inst, i) && inst.enabled
    ensures var w', cn := Applied(w, shaping, inst, t), w.rows[inst.name][i].cn;
      && var r, k := w'.rows[inst.name][i], Key(inst.name, cn);
      && r.cn == cn && k in w'.cache
      && w'.cache[k] == Cached(LiveOf(w, shaping, inst, t, cn).Some? && !r.suspended, r.lastRx - r.offRx, r.lastTx - r.offTx, r.suspended)
  {
    CheckedRow(w.rows[inst.name], t.start, i);
    CheckedAreDistinct(w.rows[inst.name], t.start);
    var fleet := EnsuredFleet(w, shaping, inst, t.start);
    SampledClient(Sampling([], w.samples, w.cache, fleet, []), inst.name, Considered(w, inst, t.start),
                  LiveClients(fleet, inst.name), t.sampled, i);
  }

  lemma AppliedOffsets(w: World, shaping: bool, inst: Instance, t: Clock, i: nat)
    requires Applies(inst) && Serves(w, inst, i) && OffsetsFit(w.rows[inst.name][i])
    ensures OffsetsFit(Applied(w, shaping, inst, t).rows[inst.name][i])
  {
    AppliedRow(w, shaping, inst, t, i);
  }

  /** Offsets never pass the totals, so after sampling the cache shows the effective bytes of
      the stored row. */
  lemma AppliedCache(w: World, shaping: bool, inst: Instance, t: Clock, i: nat)
    requires Applies(inst) && Serves(w, inst, i) && inst.enabled && OffsetsFit(w.rows[inst.name][i])
    ensures var w' := Applied(w, shaping, inst, t);
      && var r := w'.rows[inst.name][i];
      && OffsetsFit(r) && Key(inst.name, r.cn) in w'.cache
      && var entry := w'.cache[Key(inst.name, r.cn)];
      && entry.rx == EffectiveRx(r) && entry.tx == EffectiveTx(r) && entry.suspended == r.suspended
      && (entry.connected ==> !r.suspended)
  {
    AppliedOffsets(w, shaping, inst, t, i);
    AppliedCacheEntry(w, shaping, inst, t, i);
  }

  // ---- whole passes ----

  lemma AppliedSparesRows(w: World, shaping: bool, inst: Instance, t: Clock, name: string)
    requires name != inst.name
    ensures var w' := Applied(w, shaping, inst, t); (name in w'.rows <==> name in w.rows) && (name in w.rows ==> w'.rows[name] == w.rows[name])
  {
  }

  ghost predicate DistinctNames(turns: seq<Turn>) {
    forall i, j :: 0 <= i < j < |turns| ==> turns[i].inst.name != turns[j].inst.name
  }

  lemma {:induction false} PassSparesRows(w: World, shaping: bool, turns: seq<Turn>, name: string)
    requires forall i :: 0 <= i < |turns| ==> turns[i].inst.name != name
    ensures var w' := AppliedAll(w, shaping, turns); (name in w'.rows <==> name in w.rows) && (name in w.rows ==> w'.rows[name] == w.rows[name])
  {
    if turns != [] {
      var n := |turns| - 1;
      PassSparesRows(w, shaping, turns[..n], name);
      AppliedSparesRows(AppliedAll(w, shaping, turns[..n]), shaping, turns[n].inst, turns[n].t, name);
    }
  }

  /** The turn that decides about an instance: the rows before it are those before the pass, and
      those after it are those after the pass. */
  lemma {:induction false} TurnDecides(w: World, shaping: bool, turns: seq<Turn>, k: nat)
    requires k < |turns| && DistinctNames(turns)
    ensures var name, u := turns[k].inst.name, AppliedAll(w, shaping, turns[..k]);
      && (name in u.rows <==> name in w.rows) && (name in w.rows ==> u.rows[name] == w.rows[name])
      && var v, w' := Applied(u, shaping, turns[k].inst, turns[k].t), AppliedAll(w, shaping, turns);
      && (name in w'.rows <==> name in v.rows) && (name in v.rows ==> w'.rows[name] == v.rows[name])
  {
    var n := |turns| - 1;
    if k < n {
      TurnDecides(w, shaping, turns[..n], k);
      assert turns[..n][..k] == turns[..k];
      AppliedSparesRows(AppliedAll(w, shaping, turns[..n]), shaping, turns[n].inst, turns[n].t, turns[k].inst.name);
    } else {
      PassSparesRows(w, shaping, turns[..n], turns[k].inst.name);
    }
  }

  /** After every pass each unsuspended client of a successfully applied server is unexpired at
      the time of the check and below its quota on the stored counters. */
  lemma PassStanding(w: World, shaping: bool, turns: seq<Turn>, k: nat, i: nat)
    requires k < |turns| && DistinctNames(turns) && Applies(turns[k].inst) && Serves(w, turns[k].inst, i)
    ensures var inst, w' := turns[k].inst, Passed(w, shaping, turns);
      && inst.name in w'.rows && i < |w'.rows[inst.name]|
      && var r := w'.rows[inst.name][i];
      && (!r.suspended ==> InGoodStanding(r, JudgedAt(inst, turns[k].t)))
      && (w.rows[inst.name][i].suspended ==> r.suspended)
  {
    var u := AppliedAll(w, shaping, turns[..k]);
    TurnDecides(w, shaping, turns, k);
    AppliedStanding(u, shaping, turns[k].inst, turns[k].t, i);
    AppliedRow(u, shaping, turns[k].inst, turns[k].t, i);
  }

  // ---- runs ----

  /** What can happen to the stored clients: passes, soft resets, suspensions by hand, enrolment
      of a new client, changes of the live sessions, and restarts of the daemon. */
  datatype Deed =
    | Pass(turns: seq<Turn>)
    | SoftResetOf(name: string, i: nat)
    | SetSuspended(name: string, i: nat, suspended: bool)
    | Enrol(name: string, client: Client)
    | Sessions(name: string, clients: seq<LiveClient>)
    | Restart

  const EMPTY := World(map[], Fleet(map[], [], []), map[], map[], map[], map[])

  function PutClient(w: World, name: string, i: nat, c: Client): World
    requires name in w.rows && i < |w.rows[name]|
  {
    w.(rows := w.rows[name := w.rows[name][i := c]])
  }

  predicate Enrollable(w: World, name: string, c: Client) {
    && c.lastRx == 0 && c.lastTx == 0 && c.offRx == 0 && c.offTx == 0
    && forall i :: 0 <= i < |RowsOf(w, name)| ==> RowsOf(w, name)[i].cn != c.cn
  }

  function Do(w: World, shaping: bool, d: Deed): World {
    match d
    case Pass(turns) => Passed(w, shaping, turns)
    case SoftResetOf(name, i) =>
      if i < |RowsOf(w, name)| then PutClient(w, name, i, ResetRow(w.rows[name][i])) else w
    case SetSuspended(name, i, suspended) =>
      if i < |RowsOf(w, name)| then PutClient(w, name, i, w.rows[name][i].(suspended := suspended)) else w
    case Enrol(name, c) =>
      if Enrollable(w, name, c) then w.(rows := w.rows[name := RowsOf(w, name) + [c]]) else w
    case Sessions(name, clients) =>
      if name in w.fleet.procs then w.(fleet := w.fleet.(procs := w.fleet.procs[name := w.fleet.procs[name].(clients := clients)])) else w
    case Restart => w.(samples := map[], cache := map[], wasUp := map[], peers := map[])
  }

  function After(shaping: bool, deeds: seq<Deed>): World {
    if deeds == [] then EMPTY else Do(After(shaping, deeds[..|deeds| - 1]), shaping, deeds[|deeds| - 1])
  }

  ghost predicate RowsFit(rows: seq<Client>) {
    DistinctCNs(rows) && forall i {:trigger OffsetsFit(rows[i])} :: 0 <= i < |rows| ==> OffsetsFit(rows[i])
  }

  ghost predicate AllFit(w: World) { forall name {:trigger RowsFit(w.rows[name])} :: name in w.rows ==> RowsFit(w.rows[name]) }

  lemma CheckedFit(rows: seq<Client>, now: int)
    requires RowsFit(rows)
    ensures RowsFit(CheckedRows(rows, now))
  {
    CheckedAreDistinct(rows, now);
    forall i | 0 <= i < |rows| ensures OffsetsFit(CheckedRows(rows, now)[i]) {
      CheckedRow(rows, now, i);
      assert OffsetsFit(rows[i]);
    }
  }

  lemma SampledFit(w: World, shaping: bool, inst: Instance, t: Clock)
    requires Applies(inst) && inst.server && inst.name in w.rows && RowsFit(w.rows[inst.name])
    ensures RowsFit(Applied(w, shaping, inst, t).rows[inst.name])
  {
    var rows := w.rows[inst.name];
    var rows' := Applied(w, shaping, inst, t).rows[inst.name];
    forall i | 0 <= i < |rows| ensures |rows'| == |rows| && OffsetsFit(rows'[i]) && rows'[i].cn == rows[i].cn {
      assert OffsetsFit(rows[i]);
      AppliedRow(w, shaping, inst, t, i);
      AppliedOffsets(w, shaping, inst, t, i);
    }
  }

  lemma AppliedFits(w: World, shaping: bool, inst: Instance, t: Clock, w': World)
    requires AllFit(w) && w' == Applied(w, shaping, inst, t)
    ensures AllFit(w')
  {
    forall name | name in w'.rows ensures RowsFit(w'.rows[name]) {
      if name != inst.name {
        AppliedSparesRows(w, shaping, inst, t, name);
        assert RowsFit(w.rows[name]);
      } else {
        assert name in w.rows;
        assert RowsFit(w.rows[name]);
        CheckedFit(w.rows[name], t.start);
        if Applies(inst) && inst.server { SampledFit(w, shaping, inst, t); }
      }
    }
  }

  lemma {:induction false} PassFits(w: World, shaping: bool, turns: seq<Turn>)
    requires AllFit(w)
    ensures AllFit(AppliedAll(w, shaping, turns))
  {
    if turns != [] {
      var n := |turns| - 1;
      PassFits(w, shaping, turns[..n]);
      AppliedFits(AppliedAll(w, shaping, turns[..n]), shaping, turns[n].inst, turns[n].t, AppliedAll(w, shaping, turns));
    }
  }

  lemma DropProcsFits(w: World, w': World)
    requires AllFit(w) && w'.rows == w.rows
    ensures AllFit(w')
  {
    forall name | name in w'.rows ensures RowsFit(w'.rows[name]) { assert RowsFit(w.rows[name]); }
  }

  /** Replacing the rows of one instance by fitting ones. */
  lemma PutRowsFits(w: World, name: string, rows: seq<Client>)
    requires AllFit(w) && RowsFit(rows)
    ensures AllFit(w.(rows := w.rows[name := rows]))
  {
    var w' := w.(rows := w.rows[name := rows]);
    forall n | n in w'.rows ensures RowsFit(w'.rows[n]) { if n != name { assert RowsFit(w.rows[n]); } }
  }

  lemma PutClientFits(rows: seq<Client>, i: nat, c: Client)
    requires RowsFit(rows) && i < |rows| && c.cn == rows[i].cn && OffsetsFit(c)
    ensures RowsFit(rows[i := c])
  {
    var rows' := rows[i := c];
    forall j | 0 <= j < |rows'| ensures OffsetsFit(rows'[j]) { assert OffsetsFit(rows[j]); }
  }

  lemma EnrolFits(rows: seq<Client>, c: Client)
    requires RowsFit(rows) && OffsetsFit(c) && forall i :: 0 <= i < |rows| ==> rows[i].cn != c.cn
    ensures RowsFit(rows + [c])
  {
    var rows' := rows + [c];
    forall j | 0 <= j < |rows'| ensures OffsetsFit(rows'[j]) { if j < |rows| { assert OffsetsFit(rows[j]); } }
  }

  lemma RowsOfFit(w: World, name: string)
    requires AllFit(w)
    ensures RowsFit(RowsOf(w, name))
  {
    if name in w.rows { assert RowsFit(w.rows[name]); }
  }

  lemma DoFits(w: World, shaping: bool, d: Deed)
    requires AllFit(w)
    ensures AllFit(Do(w, shaping, d))
  {
    match d {
      case Pass(turns) =>
        PassFits(w, shaping, turns);
        DropProcsFits(AppliedAll(w, shaping, turns), Do(w, shaping, d));
      case SoftResetOf(name, i) =>
        RowsOfFit(w, name);
        if i < |RowsOf(w, name)| {
          assert OffsetsFit(w.rows[name][i]);
          PutClientFits(w.rows[name], i, ResetRow(w.rows[name][i]));
          PutRowsFits(w, name, w.rows[name][i := ResetRow(w.rows[name][i])]);
        }
      case SetSuspended(name, i, suspended) =>
        RowsOfFit(w, name);
        if i < |RowsOf(w, name)| {
          assert OffsetsFit(w.rows[name][i]);
          PutClientFits(w.rows[name], i, w.rows[name][i].(suspended := suspended));
          PutRowsFits(w, name, w.rows[name][i := w.rows[name][i].(suspended := suspended)]);
        }
      case Enrol(name, c) =>
        RowsOfFit(w, name);
        if Enrollable(w, name, c) {
          EnrolFits(RowsOf(w, name), c);
          PutRowsFits(w, name, RowsOf(w, name) + [c]);
        }
      case Sessions(name, clients) => DropProcsFits(w, Do(w, shaping, d));
      case Restart => DropProcsFits(w, Do(w, shaping, d));
    }
  }

  /** In every run soft-reset offsets stay between 0 and the stored totals and common names stay
      distinct, so the laws above apply after any history. */
  lemma {:induction false} EveryRunFits(shaping: bool, deeds: seq<Deed>)
    ensures AllFit(After(shaping, deeds))
  {
    if deeds != [] {
      EveryRunFits(shaping, deeds[..|deeds| - 1]);
      DoFits(After(shaping, deeds[..|deeds| - 1]), shaping, deeds[|deeds| - 1]);
    }
  }
}
