/** The reconciler and the store it works on. Every method is proved equal to its function on
    values in Passes. */
module Reconcilers {
  import opened Traffic
  import opened Backend
  import opened Passes

  /** The client rows per instance, and the event log. */
  class Store {
    var rows: map<string, seq<Client>>
    var events: seq<Event>

    constructor (rows: map<string, seq<Client>>)
      ensures this.rows == rows && events == []
    {
      this.rows, events := rows, [];
    }

    method AddEvent(e: Event)
      modifies this`events
      ensures events == old(events) + [e]
    {
      events := events + [e];
    }

    method SetClientSuspended(name: string, i: nat, suspended: bool)
      requires name in rows && i < |rows[name]|
      modifies this`rows
      ensures rows == PutRow(old(rows), name, i, old(rows)[name][i].(suspended := suspended))
    {
      rows := rows[name := rows[name][i := rows[name][i].(suspended := suspended)]];
    }

    method UpdateClientRuntime(name: string, i: nat, rx: int, tx: int)
      requires name in rows && i < |rows[name]|
      modifies this`rows
      ensures rows == PutRow(old(rows), name, i, old(rows)[name][i].(lastRx := rx, lastTx := tx))
    {
      rows := rows[name := rows[name][i := rows[name][i].(lastRx := rx, lastTx := tx)]];
    }

    method ResetClientTraffic(name: string, i: nat)
      requires name in rows && i < |rows[name]|
      modifies this`rows
      ensures rows == PutRow(old(rows), name, i, ResetRow(old(rows)[name][i]))
    {
      rows := rows[name := rows[name][i := rows[name][i].(offRx := rows[name][i].lastRx, offTx := rows[name][i].lastTx)]];
    }
  }

  /** One stored row replaced. */
  function PutRow(rows: map<string, seq<Client>>, name: string, i: nat, c: Client): map<string, seq<Client>>
    requires name in rows && i < |rows[name]|
  {
    rows[name := rows[name][i := c]]
  }

  lemma SameRow(rows: map<string, seq<Client>>, name: string, i: nat)
    requires name in rows && i < |rows[name]|
    ensures PutRow(rows, name, i, rows[name][i]) == rows
  {
    assert rows[name][i := rows[name][i]] == rows[name];
  }

  lemma PutRowTwice(rows: map<string, seq<Client>>, name: string, i: nat, a: Client, b: Client)
    requires name in rows && i < |rows[name]|
    ensures PutRow(PutRow(rows, name, i, a), name, i, b) == PutRow(rows, name, i, b)
  {
    assert rows[name][i := a][i := b] == rows[name][i := b];
    assert rows[name := rows[name][i := a]][name := rows[name][i := b]] == rows[name := rows[name][i := b]];
  }

  /** The rows of an instance when the check has reached row `i`. */
  function PartlyChecked(before: seq<Client>, i: nat, now: int): (r: seq<Client>)
    requires i <= |before|
    ensures |r| == |before|
  {
    CheckedRows(before[..i], now) + before[i..]
  }

  lemma CheckedNext(inst: string, before: seq<Client>, i: nat, now: int)
    requires i < |before|
    ensures PartlyChecked(before, i, now)[i] == before[i]
    ensures var due := ShouldAutoSuspend(before[i], now);
      && PartlyChecked(before, i + 1, now) ==
           PartlyChecked(before, i, now)[i := if due.Some? then before[i].(suspended := true) else before[i]]
      && CheckedEvents(inst, before[..i + 1], now) ==
           CheckedEvents(inst, before[..i], now) + if due.Some? then [AutoSuspended(inst, before[i].cn, due.value)] else []
  {
    assert before[..i + 1][..i] == before[..i] && before[..i + 1][i] == before[i];
  }

  lemma SpliceNext(done: seq<Client>, all: seq<Client>, row: Client)
    requires |done| < |all|
    ensures (done + all[|done|..])[|done| := row] == done + [row] + all[|done| + 1..]
  {
  }

  /** Row `|done|` written into a store whose earlier rows are written already. */
  lemma RowsNext(rows: map<string, seq<Client>>, name: string, done: seq<Client>, all: seq<Client>, row: Client)
    requires |done| < |all| && name in rows
    ensures PutRow(WithRows(rows, name, done + all[|done|..]), name, |done|, row)
      == WithRows(rows, name, done + [row] + all[|done| + 1..])
  {
    PutWithRows(rows, name, done + all[|done|..], |done|, row);
    SpliceNext(done, all, row);
  }

  lemma SampleNext(start: Sampling, name: string, clients: seq<Client>, i: nat, live: map<string, LiveClient>, now: int)
    requires i < |clients|
    ensures SampleAll(start, name, clients[..i + 1], live, now)
      == SampleOne(SampleAll(start, name, clients[..i], live, now), name, clients[i], live, now)
  {
    assert clients[..i + 1][..i] == clients[..i];
  }

  lemma PutWithRows(rows: map<string, seq<Client>>, name: string, now: seq<Client>, i: nat, c: Client)
    requires name in rows && i < |now|
    ensures PutRow(WithRows(rows, name, now), name, i, c) == WithRows(rows, name, now[i := c])
  {
    assert rows[name := now][name := now[i := c]] == rows[name := now[i := c]];
  }

  /** The rows of a server with those of one instance replaced. */
  function WithRows(rows: map<string, seq<Client>>, name: string, now: seq<Client>): map<string, seq<Client>> {
    if name in rows then rows[name := now] else rows
  }

  /** Rows written back by sampling replace those of the first check. */
  lemma WrittenRows(p: map<string, seq<Client>>, w: World, inst: Instance, clients: seq<Client>, rows: seq<Client>)
    requires p == PutRows(w, inst, clients).rows
    requires clients != [] ==> inst.server && inst.name in w.rows
    requires clients == [] ==> rows == [] && (inst.server && inst.name in w.rows ==> w.rows[inst.name] == [])
    ensures (if clients == [] then p else WithRows(p, inst.name, rows)) == PutRows(w, inst, rows).rows
  {
  }

  lemma OneMoreTurn(w: World, shaping: bool, turns: seq<Turn>, i: nat, orders: seq<Order>, o: Order)
    requires i < |turns| && |orders| == i
    ensures AppliedAll(w, shaping, turns[..i + 1]) == Applied(AppliedAll(w, shaping, turns[..i]), shaping, turns[i].inst, turns[i].t)
    ensures LoggedAll(w, shaping, turns[..i + 1], orders + [o]) == LoggedAll(w, shaping, turns[..i], orders)
      + Logged(AppliedAll(w, shaping, turns[..i]), shaping, turns[i].inst, turns[i].t, o)
    ensures OrdersOk(w, shaping, turns[..i + 1], orders + [o]) <==>
      (OrdersOk(w, shaping, turns[..i], orders) && OrderOk(AppliedAll(w, shaping, turns[..i]), shaping, turns[i].inst, turns[i].t, o))
  {
    assert turns[..i + 1][..i] == turns[..i] && (orders + [o])[..i] == orders;
  }

  lemma ProcessIsKnown(w: World, shaping: bool, inst: Instance, now: int)
    requires Applies(inst) && inst.enabled
    ensures inst.name in EnsuredFleet(w, shaping, inst, now).procs
    ensures inst.server ==> |Considered(w, inst, now)| == |RowsOf(w, inst.name)|
  {
  }

  /** What was observed of an enabled instance, in `v`, is what applyInstance makes of `w`. */
  lemma RunningIs(w: World, v: World, shaping: bool, inst: Instance, t: Clock, s: Sampling, cur: set<string>, o: Order)
    requires Applies(inst) && inst.enabled && v == w.(fleet := EnsuredFleet(w, shaping, inst, t.start))
    requires s == SampledClients(w, shaping, inst, t) && cur == PeersNow(w, shaping, inst, t.start)
    requires OrderFits(o, PeersOf(w, inst.name), cur)
    ensures AfterSampling(v, inst, s, cur) == Applied(w, shaping, inst, t) && OrderOk(w, shaping, inst, t, o)
    ensures LaterEvents(w, shaping, inst, t, o)
      == PeerEdges(inst.name, o) + s.events + InstanceEdge(w.wasUp, inst.name, true)
  {
  }

  lemma JoinEdges(a: seq<Event>, b: seq<Event>, c: seq<Event>, d: seq<Event>)
    ensures a + b + c + d == a + (b + c + d)
  {
  }

  lemma JoinLogs(a: seq<Event>, b: seq<Event>, c: seq<Event>)
    ensures a + b + c == a + (b + c)
  {
  }

  /** A name taken from what is left to visit is added to the list if it is wanted. */
  lemma ListsNext(order: seq<string>, all: set<string>, todo: set<string>, cn: string)
    requires Lists(order, all - todo) && cn in todo
    ensures Lists(if cn in all then order + [cn] else order, all - (todo - {cn}))
  {
    if cn in all {
      assert all - (todo - {cn}) == all - todo + {cn};
    } else {
      assert all - (todo - {cn}) == all - todo;
    }
  }

  lemma EachNext(order: seq<string>, cn: string, event: string -> Event)
    ensures Each(order + [cn], event) == Each(order, event) + [event(cn)]
  {
    assert (order + [cn])[..|order|] == order;
  }

  class Reconciler {
    const shaping: bool
    const store: Store
    const backend: Mock
    var samples: map<Key, Sample>
    var cache: map<Key, Cached>
    var wasUp: map<string, bool>
    var peers: map<string, set<string>>

    ghost function Now(): World
      reads this, store, backend
    {
      World(store.rows, backend.Now(), samples, cache, wasUp, peers)
    }

    constructor (shaping: bool, store: Store, backend: Mock)
      ensures this.shaping == shaping && this.store == store && this.backend == backend
      ensures Now() == World(store.rows, backend.Now(), map[], map[], map[], map[])
    {
      this.shaping, this.store, this.backend := shaping, store, backend;
      samples, cache, wasUp, peers := map[], map[], map[], map[];
    }

    /** One client of the first check. */
    method CheckClient(name: string, i: nat, clients: seq<Client>, now: int) returns (after: seq<Client>)
      requires i < |clients| && name in store.rows && store.rows[name] == clients
      modifies store
      ensures var due := ShouldAutoSuspend(clients[i], now);
        && after == clients[i := if due.Some? then clients[i].(suspended := true) else clients[i]]
        && store.rows == old(store.rows)[name := after]
        && store.events == old(store.events) + if due.Some? then [AutoSuspended(name, clients[i].cn, due.value)] else []
    {
      after := clients;
      var due := ShouldAutoSuspend(clients[i], now);
      if due.Some? {
        store.SetClientSuspended(name, i, true);
        store.AddEvent(AutoSuspended(name, clients[i].cn, due.value));
        after := clients[i := clients[i].(suspended := true)];
      }
    }

    /** The same, in a loop that began with the rows `before` and the log `events0`. */
    method CheckTurn(name: string, i: nat, clients: seq<Client>, now: int,
                     ghost before: seq<Client>, ghost rows0: map<string, seq<Client>>, ghost events0: seq<Event>)
      returns (after: seq<Client>)
      requires i < |before| && clients == PartlyChecked(before, i, now)
      requires name in rows0 && store.rows == WithRows(rows0, name, clients)
      requires store.events == events0 + CheckedEvents(name, before[..i], now)
      modifies store
      ensures after == PartlyChecked(before, i + 1, now) && store.rows == WithRows(rows0, name, after)
      ensures store.events == events0 + CheckedEvents(name, before[..i + 1], now)
    {
      CheckedNext(name, before, i, now);
      after := CheckClient(name, i, clients, now);
    }

    /** Suspends the clients that are due before anything is rendered. */
    method SuspendDue(name: string, now: int) returns (clients: seq<Client>)
      modifies store
      ensures var before := if name in old(store.rows) then old(store.rows)[name] else [];
        && clients == CheckedRows(before, now)
        && store.rows == WithRows(old(store.rows), name, clients)
        && store.events == old(store.events) + CheckedEvents(name, before, now)
    {
      clients := if name in store.rows then store.rows[name] else [];
      ghost var before, rows0, events0 := clients, store.rows, store.events;
      assert PartlyChecked(before, 0, now) == before;
      for i := 0 to |clients|
        invariant clients == PartlyChecked(before, i, now)
        invariant store.rows == WithRows(rows0, name, clients)
        invariant store.events == events0 + CheckedEvents(name, before[..i], now)
        invariant |before| > 0 ==> name in rows0
      {
        clients := CheckTurn(name, i, clients, now, before, rows0, events0);
      }
      assert before[..|before|] == before;
    }

    /** Connect edges, in any iteration order of the current set. */
    method EmitConnected(name: string, prev: set<string>, cur: set<string>) returns (ghost came: seq<string>)
      modifies store`events
      ensures Lists(came, cur - prev)
      ensures store.events == old(store.events) + Each(came, Came(name))
    {
      var todo := cur;
      came := [];
      while todo != {}
        invariant todo <= cur && Lists(came, cur - prev - todo)
        invariant store.events == old(store.events) + Each(came, Came(name))
        decreases |todo|
      {
        var cn :| cn in todo;
        ListsNext(came, cur - prev, todo, cn);
        todo := todo - {cn};
        if cn !in prev {
          store.AddEvent(PeerConnected(name, cn));
          EachNext(came, cn, Came(name));
          came := came + [cn];
        }
      }
    }

    /** Disconnect edges, in any iteration order of the previous set. */
    method EmitDisconnected(name: string, prev: set<string>, cur: set<string>) returns (ghost went: seq<string>)
      modifies store`events
      ensures Lists(went, prev - cur)
      ensures store.events == old(store.events) + Each(went, Went(name))
    {
      var todo := prev;
      went := [];
      while todo != {}
        invariant todo <= prev && Lists(went, prev - cur - todo)
        invariant store.events == old(store.events) + Each(went, Went(name))
        decreases |todo|
      {
        var cn :| cn in todo;
        ListsNext(went, prev - cur, todo, cn);
        todo := todo - {cn};
        if cn !in cur {
          store.AddEvent(PeerDisconnected(name, cn));
          EachNext(went, cn, Went(name));
          went := went + [cn];
        }
      }
    }

    /** Peer edges since the last sampling of an instance. */
    method EmitPeerEdges(name: string, cur: set<string>) returns (ghost o: Order)
      modifies this`peers, store`events
      ensures OrderFits(o, if name in old(peers) then old(peers)[name] else {}, cur)
      ensures store.events == old(store.events) + PeerEdges(name, o)
      ensures peers == old(peers)[name := cur]
    {
      var prev := if name in peers then peers[name] else {};
      ghost var came := EmitConnected(name, prev, cur);
      ghost var went := EmitDisconnected(name, prev, cur);
      peers := peers[name := cur];
      o := Order(came, went);
    }

    /** The live clients by common name, and the named ones. */
    method ReadStatus(clients: seq<LiveClient>) returns (live: map<string, LiveClient>, cur: set<string>)
      ensures live == ByCN(clients) && cur == live.Keys - {""}
    {
      live := map[];
      for i := 0 to |clients|
        invariant live == ByCN(clients[..i])
      {
        assert clients[..i + 1][..i] == clients[..i];
        live := live[clients[i].cn := clients[i]];
      }
      assert clients[..|clients|] == clients;
      cur := live.Keys - {""};
    }

    /** The policy check on the fresh counters; only the suspension is stored here. */
    method SuspendLate(name: string, i: nat, c: Client, row: Client, now: int) returns (row': Client, ghost added: seq<Event>)
      requires name in store.rows && i < |store.rows[name]| && store.rows[name][i] == c && row.suspended == c.suspended
      modifies store
      ensures var due := ShouldAutoSuspend(row, now);
        && row' == (if due.Some? then row.(suspended := true) else row)
        && added == (if due.Some? then [AutoSuspended(name, c.cn, due.value)] else [])
      ensures store.rows == PutRow(old(store.rows), name, i, c.(suspended := row'.suspended))
      ensures store.events == old(store.events) + added
    {
      row', added := row, [];
      SameRow(store.rows, name, i);
      if !row.suspended {
        var due := ShouldAutoSuspend(row, now);
        if due.Some? {
          store.SetClientSuspended(name, i, true);
          row' := row.(suspended := true);
          added := [AutoSuspended(name, c.cn, due.value)];
          store.AddEvent(AutoSuspended(name, c.cn, due.value));
        }
      }
    }

    /** The counters of a connected client move on, and its sample is kept. */
    method CountClient(name: string, c: Client, live: map<string, LiveClient>) returns (row: Client)
      modifies this`samples
      ensures var k, l := Key(name, c.cn), Find(live, c.cn);
        && row == Counted(c, l, old(samples), k)
        && samples == if l.Some? then old(samples)[k := Sample(l.value.rx, l.value.tx)] else old(samples)
    {
      row := c;
      if c.cn in live {
        var k, l := Key(name, c.cn), live[c.cn];
        var prev := Previous(samples, k);
        row := row.(lastRx := AccumulateLifetime(c.lastRx, l.rx, prev.rx, k in samples),
                    lastTx := AccumulateLifetime(c.lastTx, l.tx, prev.tx, k in samples));
        samples := samples[k := Sample(l.rx, l.tx)];
      }
    }

    /** Cuts off a suspended client, stores its counters and caches what it used. */
    method KeepClient(name: string, i: nat, row: Client, connected: bool)
      requires name in store.rows && i < |store.rows[name]|
      modifies this`cache, store`rows, backend
      ensures backend.Now() == if connected && row.suspended then Killed(old(backend.Now()), name, row.cn) else old(backend.Now())
      ensures store.rows == PutRow(old(store.rows), name, i, old(store.rows)[name][i].(lastRx := row.lastRx, lastTx := row.lastTx))
      ensures cache == old(cache)[Key(name, row.cn) :=
        Cached(connected && !row.suspended, row.lastRx - row.offRx, row.lastTx - row.offTx, row.suspended)]
    {
      if connected && row.suspended {
        backend.KillClient(name, row.cn);
      }
      store.UpdateClientRuntime(name, i, row.lastRx, row.lastTx);
      cache := cache[Key(name, row.cn) :=
        Cached(connected && !row.suspended, row.lastRx - row.offRx, row.lastTx - row.offTx, row.suspended)];
    }

    /** Counting and the late check of one client. */
    method Settle(name: string, i: nat, c: Client, live: map<string, LiveClient>, now: int)
      returns (row: Client, ghost added: seq<Event>)
      requires name in store.rows && i < |store.rows[name]| && store.rows[name][i] == c
      modifies this`samples, store
      ensures var k, l := Key(name, c.cn), Find(live, c.cn);
        && row == SampledRow(c, l, old(samples), k, now) && added == SampledEvents(c, l, old(samples), k, now)
        && samples == if l.Some? then old(samples)[k := Sample(l.value.rx, l.value.tx)] else old(samples)
      ensures store.rows == PutRow(old(store.rows), name, i, c.(suspended := row.suspended))
      ensures store.events == old(store.events) + added
    {
      row := CountClient(name, c, live);
      row, added := SuspendLate(name, i, c, row, now);
    }

    /** One turn of the sampling loop. */
    method SampleClient(name: string, i: nat, c: Client, live: map<string, LiveClient>, now: int, ghost s: Sampling)
      returns (ghost added: seq<Event>, ghost s': Sampling)
      requires name in store.rows && i == |s.rows| < |store.rows[name]| && store.rows[name][i] == c
      requires samples == s.samples && cache == s.cache && backend.Now() == s.fleet
      modifies this`samples, this`cache, store, backend
      ensures s' == SampleOne(s, name, c, live, now)
      ensures samples == s'.samples && cache == s'.cache && backend.Now() == s'.fleet
      ensures |s'.rows| == i + 1 && store.rows == PutRow(old(store.rows), name, i, s'.rows[i])
      ensures store.events == old(store.events) + added && s'.events == s.events + added
    {
      ghost var rows0 := store.rows;
      var row;
      row, added := Settle(name, i, c, live, now);
      PutRowTwice(rows0, name, i, c.(suspended := row.suspended), row);
      KeepClient(name, i, row, c.cn in live);
      s' := SampleOne(s, name, c, live, now);
    }

    /** The same turn, in a loop that began with the rows `rows0` and the log `events0`. */
    method SampleTurn(name: string, i: nat, clients: seq<Client>, live: map<string, LiveClient>, now: int,
                      ghost rows0: map<string, seq<Client>>, ghost events0: seq<Event>, ghost s: Sampling)
      returns (ghost s': Sampling)
      requires i == |s.rows| < |clients| && name in rows0
      requires store.rows == WithRows(rows0, name, s.rows + clients[i..]) && store.events == events0 + s.events
      requires samples == s.samples && cache == s.cache && backend.Now() == s.fleet
      modifies this`samples, this`cache, store, backend
      ensures |s'.rows| == i + 1 && s' == SampleOne(s, name, clients[i], live, now)
      ensures samples == s'.samples && cache == s'.cache && backend.Now() == s'.fleet
      ensures store.rows == WithRows(rows0, name, s'.rows + clients[i + 1..]) && store.events == events0 + s'.events
    {
      ghost var added;
      added, s' := SampleClient(name, i, clients[i], live, now, s);
      RowsNext(rows0, name, s.rows, clients, s'.rows[i]);
      JoinLogs(events0, s.events, added);
    }

    /** From `i` clients sampled to `i + 1`, in a loop that began with `start`. */
    method SampleStep(name: string, i: nat, clients: seq<Client>, live: map<string, LiveClient>, now: int,
                      ghost rows0: map<string, seq<Client>>, ghost events0: seq<Event>, ghost start: Sampling, ghost s: Sampling)
      returns (ghost s': Sampling)
      requires i == |s.rows| < |clients| && name in rows0 && s == SampleAll(start, name, clients[..i], live, now)
      requires store.rows == WithRows(rows0, name, s.rows + clients[i..]) && store.events == events0 + s.events
      requires samples == s.samples && cache == s.cache && backend.Now() == s.fleet
      modifies this`samples, this`cache, store, backend
      ensures |s'.rows| == i + 1 && s' == SampleAll(start, name, clients[..i + 1], live, now)
      ensures samples == s'.samples && cache == s'.cache && backend.Now() == s'.fleet
      ensures store.rows == WithRows(rows0, name, s'.rows + clients[i + 1..]) && store.events == events0 + s'.events
    {
      s' := SampleTurn(name, i, clients, live, now, rows0, events0, s);
      SampleNext(start, name, clients, i, live, now);
    }

    /** The sampling loop; the rows of a server are written back one by one. */
    method SampleClients(name: string, clients: seq<Client>, live: map<string, LiveClient>, now: int)
      returns (ghost s: Sampling)
      requires clients != [] ==> name in store.rows && store.rows[name] == clients
      modifies this`samples, this`cache, store, backend
      ensures s == SampleAll(Sampling([], old(samples), old(cache), old(backend.Now()), []), name, clients, live, now)
      ensures samples == s.samples && cache == s.cache && backend.Now() == s.fleet
      ensures store.rows == if clients == [] then old(store.rows) else WithRows(old(store.rows), name, s.rows)
      ensures store.events == old(store.events) + s.events
    {
      ghost var start := Sampling([], samples, cache, backend.Now(), []);
      ghost var rows0, events0 := store.rows, store.events;
      s := start;
      assert [] + clients[0..] == clients;
      for i := 0 to |clients|
        invariant |s.rows| == i && s == SampleAll(start, name, clients[..i], live, now)
        invariant samples == s.samples && cache == s.cache && backend.Now() == s.fleet
        invariant clients == [] ==> store.rows == rows0
        invariant clients != [] ==> name in rows0 && store.rows == WithRows(rows0, name, s.rows + clients[i..])
        invariant store.events == events0 + s.events
      {
        s := SampleStep(name, i, clients, live, now, rows0, events0, start, s);
      }
      assert clients[..|clients|] == clients && s.rows + clients[|clients|..] == s.rows;
    }

    /** The edge event of the instance itself. */
    method EmitInstanceEdge(name: string, up: bool)
      modifies this`wasUp, store`events
      ensures wasUp == old(wasUp)[name := up]
      ensures store.events == old(store.events) + InstanceEdge(old(wasUp), name, up)
    {
      if name in wasUp && wasUp[name] != up {
        if up { store.AddEvent(InstanceUp(name)); } else { store.AddEvent(InstanceDown(name)); }
      }
      wasUp := wasUp[name := up];
    }

    /** The status of a running instance is read, and its peer edges are logged. */
    method ReadPeers(inst: Instance, ghost clients: seq<Client>, ghost w: World)
      returns (ghost o: Order, live: map<string, LiveClient>, ghost cur: set<string>)
      requires inst.name in w.fleet.procs && Now() == PutRows(w, inst, clients)
      modifies this`peers, store`events
      ensures live == LiveClients(w.fleet, inst.name) && cur == live.Keys - {""} && OrderFits(o, PeersOf(w, inst.name), cur)
      ensures peers == w.peers[inst.name := cur] && store.events == old(store.events) + PeerEdges(inst.name, o)
    {
      var names;
      live, names := ReadStatus(backend.procs[inst.name].clients);
      cur := names;
      o := EmitPeerEdges(inst.name, names);
    }

    /** Samples a running instance, in a world where its process was just ensured: peer edges, then
        the clients. */
    method SampleInstance(inst: Instance, clients: seq<Client>, now: int, ghost w: World)
      returns (ghost o: Order, ghost s: Sampling, ghost cur: set<string>)
      requires inst.name in w.fleet.procs && Now() == PutRows(w, inst, clients)
      requires inst.server ==> |clients| == |RowsOf(w, inst.name)|
      requires !inst.server ==> clients == []
      modifies this`samples, this`cache, this`peers, store, backend
      ensures s == SampleAll(Sampling([], w.samples, w.cache, w.fleet, []), inst.name, clients, LiveClients(w.fleet, inst.name), now)
      ensures cur == LiveClients(w.fleet, inst.name).Keys - {""} && OrderFits(o, PeersOf(w, inst.name), cur)
      ensures store.rows == PutRows(w, inst, s.rows).rows && backend.Now() == s.fleet
      ensures samples == s.samples && cache == s.cache && peers == w.peers[inst.name := cur]
      ensures store.events == old(store.events) + PeerEdges(inst.name, o) + s.events
    {
      ghost var p := store.rows;
      var live;
      o, live, cur := ReadPeers(inst, clients, w);
      s := SampleClients(inst.name, clients, live, now);
      WrittenRows(p, w, inst, clients, s.rows);
    }

    /** The clients of a server, after the first check. */
    method ConsiderClients(inst: Instance, now: int) returns (clients: seq<Client>)
      modifies store
      ensures clients == Considered(old(Now()), inst, now)
      ensures Now() == PutRows(old(Now()), inst, clients)
      ensures store.events == old(store.events) + FirstEvents(old(Now()), inst, now)
    {
      clients := [];
      if inst.server { clients := SuspendDue(inst.name, now); }
    }

    /** Brings the process of an instance to what is wanted. */
    method EnsureProcess(inst: Instance, clients: seq<Client>, t: Clock, ghost w: World)
      requires Applies(inst) && clients == Considered(w, inst, t.start) && Now() == PutRows(w, inst, clients)
      modifies backend
      ensures Now() == PutRows(w.(fleet := EnsuredFleet(w, shaping, inst, t.start)), inst, clients)
    {
      var conf := Render(shaping, inst, clients);
      backend.EnsureInstance(inst.name, inst.enabled, conf, inst.binary.value);
    }

    /** Sampling and edges of an enabled instance. */
    method Observe(inst: Instance, clients: seq<Client>, now: int, ghost w: World)
      returns (ghost o: Order, ghost s: Sampling, ghost cur: set<string>)
      requires inst.name in w.fleet.procs && Now() == PutRows(w, inst, clients)
      requires inst.server ==> |clients| == |RowsOf(w, inst.name)|
      requires !inst.server ==> clients == []
      modifies this`samples, this`cache, this`wasUp, this`peers, store, backend
      ensures s == SampleAll(Sampling([], w.samples, w.cache, w.fleet, []), inst.name, clients, LiveClients(w.fleet, inst.name), now)
      ensures cur == LiveClients(w.fleet, inst.name).Keys - {""} && OrderFits(o, PeersOf(w, inst.name), cur)
      ensures Now() == AfterSampling(w, inst, s, cur)
      ensures store.events == old(store.events) + PeerEdges(inst.name, o) + s.events + InstanceEdge(w.wasUp, inst.name, true)
    {
      o, s, cur := SampleInstance(inst, clients, now, w);
      EmitInstanceEdge(inst.name, true);
    }

    /** An enabled instance: ensure, sample, and log the edges. */
    method EnforceRunning(inst: Instance, clients: seq<Client>, t: Clock, ghost w: World) returns (ghost o: Order)
      requires Applies(inst) && inst.enabled && clients == Considered(w, inst, t.start) && Now() == PutRows(w, inst, clients)
      modifies this`samples, this`cache, this`wasUp, this`peers, store, backend
      ensures Now() == Applied(w, shaping, inst, t)
      ensures OrderOk(w, shaping, inst, t, o)
      ensures store.events == old(store.events) + LaterEvents(w, shaping, inst, t, o)
    {
      ghost var s, cur;
      ghost var before, v := store.events, w.(fleet := EnsuredFleet(w, shaping, inst, t.start));
      EnsureProcess(inst, clients, t, w);
      ProcessIsKnown(w, shaping, inst, t.start);
      o, s, cur := Observe(inst, clients, t.sampled, v);
      RunningIs(w, v, shaping, inst, t, s, cur, o);
      JoinEdges(before, PeerEdges(inst.name, o), s.events, InstanceEdge(w.wasUp, inst.name, true));
    }

    /** applyInstance after the conf is known to render; `w` is the world it started from. */
    method Enforce(inst: Instance, clients: seq<Client>, t: Clock, ghost w: World) returns (ghost o: Order)
      requires Applies(inst) && clients == Considered(w, inst, t.start) && Now() == PutRows(w, inst, clients)
      modifies this`samples, this`cache, this`wasUp, this`peers, store, backend
      ensures Now() == Applied(w, shaping, inst, t)
      ensures OrderOk(w, shaping, inst, t, o)
      ensures store.events == old(store.events) + LaterEvents(w, shaping, inst, t, o)
    {
      if inst.enabled {
        o := EnforceRunning(inst, clients, t, w);
      } else {
        o := Order([], []);
        EnsureProcess(inst, clients, t, w);
        EmitInstanceEdge(inst.name, false);
      }
    }

    /** applyInstance; `ok` is false when it returns an error. */
    method ApplyInstance(inst: Instance, t: Clock) returns (ok: bool, ghost o: Order)
      modifies this`samples, this`cache, this`wasUp, this`peers, store, backend
      ensures Now() == Applied(old(Now()), shaping, inst, t)
      ensures OrderOk(old(Now()), shaping, inst, t, o)
      ensures ok <==> Applies(inst)
      ensures ok ==> store.events == old(store.events) + Logged(old(Now()), shaping, inst, t, o)
      ensures !ok ==> store.events + [ReconcileError(inst.name)] == old(store.events) + Logged(old(Now()), shaping, inst, t, o)
    {
      ghost var w, events0 := Now(), store.events;
      o := Order([], []);
      if inst.binary.None? { return false, o; }
      var clients := ConsiderClients(inst, t.start);
      if inst.conf.None? {
        JoinLogs(events0, FirstEvents(w, inst, t.start), [ReconcileError(inst.name)]);
        return false, o;
      }
      o := Enforce(inst, clients, t, w);
      JoinLogs(events0, FirstEvents(w, inst, t.start), LaterEvents(w, shaping, inst, t, o));
      ok := true;
    }

    /** Removes the running instances that are no longer stored. */
    method RemoveOrphans(wanted: set<string>)
      modifies backend
      ensures backend.Now() == old(backend.Now()).(procs := old(backend.procs) - Orphans(old(backend.Now()), wanted))
    {
      var live := set name | name in backend.procs && backend.procs[name].up;
      ghost var f := backend.Now();
      var todo := live;
      while todo != {}
        invariant todo <= live
        invariant backend.Now() == f.(procs := f.procs - (Orphans(f, wanted) - todo))
        decreases |todo|
      {
        var name :| name in todo;
        todo := todo - {name};
        if name !in wanted {
          backend.RemoveInstance(name);
          assert f.procs - (Orphans(f, wanted) - todo - {name}) - {name} == f.procs - (Orphans(f, wanted) - todo);
        }
      }
    }

    /** applyInstance, with its error reported by the caller; `added` are the events logged. */
    method ApplyOrReport(turn: Turn) returns (ghost o: Order, ghost added: seq<Event>)
      modifies this`samples, this`cache, this`wasUp, this`peers, store, backend
      ensures Now() == Applied(old(Now()), shaping, turn.inst, turn.t)
      ensures OrderOk(old(Now()), shaping, turn.inst, turn.t, o)
      ensures added == Logged(old(Now()), shaping, turn.inst, turn.t, o)
      ensures store.events == old(store.events) + added
    {
      added := [];
      var ok;
      ok, o := ApplyInstance(turn.inst, turn.t);
      added := Logged(old(Now()), shaping, turn.inst, turn.t, o);
      if !ok { store.AddEvent(ReconcileError(turn.inst.name)); }
    }

    /** The turn of one instance in a pass that started from `w` with the log `events`. */
    method TakeTurn(turns: seq<Turn>, i: nat, ghost w: World, ghost events: seq<Event>, ghost orders: seq<Order>)
      returns (ghost orders': seq<Order>)
      requires i < |turns| && |orders| == i && Now() == AppliedAll(w, shaping, turns[..i])
      requires store.events == events + LoggedAll(w, shaping, turns[..i], orders)
      requires OrdersOk(w, shaping, turns[..i], orders)
      modifies this`samples, this`cache, this`wasUp, this`peers, store, backend
      ensures Now() == AppliedAll(w, shaping, turns[..i + 1])
      ensures |orders'| == i + 1 && OrdersOk(w, shaping, turns[..i + 1], orders')
      ensures store.events == events + LoggedAll(w, shaping, turns[..i + 1], orders')
    {
      ghost var o, added := ApplyOrReport(turns[i]);
      OneMoreTurn(w, shaping, turns, i, orders, o);
      JoinLogs(events, LoggedAll(w, shaping, turns[..i], orders), added);
      orders' := orders + [o];
    }

    /** The loop over the stored instances. */
    method ApplyAll(turns: seq<Turn>) returns (desiredNames: set<string>, ghost orders: seq<Order>)
      modifies this`samples, this`cache, this`wasUp, this`peers, store, backend
      ensures Now() == AppliedAll(old(Now()), shaping, turns)
      ensures desiredNames == NamesOf(turns)
      ensures |orders| == |turns| && OrdersOk(old(Now()), shaping, turns, orders)
      ensures store.events == old(store.events) + LoggedAll(old(Now()), shaping, turns, orders)
    {
      ghost var w, events := Now(), store.events;
      desiredNames, orders := {}, [];
      for i := 0 to |turns|
        invariant |orders| == i && desiredNames == NamesOf(turns[..i])
        invariant Now() == AppliedAll(w, shaping, turns[..i])
        invariant OrdersOk(w, shaping, turns[..i], orders)
        invariant store.events == events + LoggedAll(w, shaping, turns[..i], orders)
      {
        assert turns[..i + 1][..i] == turns[..i];
        desiredNames := desiredNames + {turns[i].inst.name};
        orders := TakeTurn(turns, i, w, events, orders);
      }
      assert turns[..|turns|] == turns;
    }

    /** One pass over the stored instances, each with its clock readings. */
    method RunOnce(turns: seq<Turn>) returns (ghost orders: seq<Order>)
      modifies this`samples, this`cache, this`wasUp, this`peers, store, backend
      ensures Now() == Passed(old(Now()), shaping, turns)
      ensures |orders| == |turns| && OrdersOk(old(Now()), shaping, turns, orders)
      ensures store.events == old(store.events) + LoggedAll(old(Now()), shaping, turns, orders)
    {
      var desiredNames;
      desiredNames, orders := ApplyAll(turns);
      RemoveOrphans(desiredNames);
    }
  }
}
