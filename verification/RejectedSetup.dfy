/** What runs of commands that tc partly rejects leave behind: when the host still agrees with the
    records after Apply, for new clients, changed ones and those that moved to another device. */
module RejectedSetup {
  import opened Wrappers
  import opened Text
  import opened Shaping
  import opened Enforcers
  import opened ShapingRuns

  // ---- what a setup run has run ----

  /** The commands run before the first one that is rejected. */
  function Until(cmds: seq<Command>, rejects: set<Command>): seq<Command>
    decreases |cmds|
  {
    if cmds == [] || cmds[0] in rejects then [] else [cmds[0]] + Until(cmds[1..], rejects)
  }

  predicate Rejected(cmds: seq<Command>, rejects: set<Command>) { exists c :: c in cmds && c in rejects }

  lemma RejectedFirst(cmds: seq<Command>, rejects: set<Command>)
    requires cmds != []
    ensures Rejected(cmds, rejects) <==> cmds[0] in rejects || Rejected(cmds[1..], rejects)
  {
    if c :| c in cmds && c in rejects { assert c == cmds[0] || c in cmds[1..]; }
    if c :| c in cmds[1..] && c in rejects { assert c in cmds; }
    if cmds[0] in rejects { assert cmds[0] in cmds; }
  }

  lemma {:induction false} UntilIsFrom(cmds: seq<Command>, rejects: set<Command>)
    ensures forall c :: c in Until(cmds, rejects) ==> c in cmds && c !in rejects
  {
    if cmds != [] { UntilIsFrom(cmds[1..], rejects); }
  }

  /** A command is run exactly if neither it nor one before it is rejected. */
  lemma {:induction false} UntilHas(cmds: seq<Command>, rejects: set<Command>, i: nat)
    requires i < |cmds| && cmds[i] !in cmds[..i]
    ensures cmds[i] in Until(cmds, rejects) <==> !Rejected(cmds[..i + 1], rejects)
    decreases |cmds|
  {
    RejectedFirst(cmds[..i + 1], rejects);
    if i == 0 {
      assert cmds[..1][1..] == [];
    } else {
      assert cmds[..i + 1][1..] == cmds[1..][..i] && cmds[1..][..i - 1] == cmds[1..i];
      assert cmds[0] in cmds[..i] && forall c :: c in cmds[1..i] ==> c in cmds[..i];
      UntilHas(cmds[1..], rejects, i - 1);
    }
  }

  /** A setup run stops at the first rejection. */
  lemma {:induction false} SetupRun(s: State, env: Env, cmds: seq<Command>)
    requires env.tcPresent
    ensures var r := RunRules(s, Tc, env, cmds, false);
      && (r.ok <==> !Rejected(cmds, env.rejects))
      && r.s.entries == s.entries && r.s.host == ExecAll(s.host, Until(cmds, env.rejects))
    decreases |cmds|
  {
    if cmds != [] {
      RejectedFirst(cmds, env.rejects);
      if cmds[0] !in env.rejects {
        var t := s.(host := Exec(s.host, cmds[0]), issued := s.issued + [cmds[0]]);
        SetupRun(t, env, cmds[1..]);
        var u := Until(cmds[1..], env.rejects);
        assert ([cmds[0]] + u)[1..] == u;
      }
    }
  }

  /** The only classes and filters these commands set under `m` on `dev` are those given. */
  predicate SetsOnly(c: Command, dev: string, m: nat, rate: nat, route: Route, police: Police) {
    && !IsDrop(c)
    && (c.EgressClass? && c.dev == dev && c.minor == m ==> c.rate == rate)
    && (c.EgressFilter? && c.dev == dev && c.prio == m ==> Route(c.ip, c.minor) == route)
    && (c.IngressFilter? && c.dev == dev && c.prio == m ==> Police(c.ip, c.rate, c.burst) == police)
  }

  lemma OneSet(h: Host, c: Command, dev: string, m: nat, rate: nat, route: Route, police: Police)
    requires SetsOnly(c, dev, m, rate, route, police)
    ensures ClassAt(Exec(h, c), dev, m) == if c == EgressClass(dev, m, rate) then Some(rate) else ClassAt(h, dev, m)
    ensures RouteAt(Exec(h, c), dev, m) == if c == EgressFilter(dev, m, route.ip, route.minor) then Some(route) else RouteAt(h, dev, m)
    ensures PoliceAt(Exec(h, c), dev, m)
      == if c == IngressFilter(dev, m, police.ip, police.rate, police.burst) then Some(police) else PoliceAt(h, dev, m)
  {
  }

  lemma {:induction false} SetsAre(h: Host, cmds: seq<Command>, dev: string, m: nat, rate: nat, route: Route, police: Police)
    requires forall c :: c in cmds ==> SetsOnly(c, dev, m, rate, route, police)
    ensures var h' := ExecAll(h, cmds);
      && ClassAt(h', dev, m) == (if EgressClass(dev, m, rate) in cmds then Some(rate) else ClassAt(h, dev, m))
      && RouteAt(h', dev, m) == (if EgressFilter(dev, m, route.ip, route.minor) in cmds then Some(route) else RouteAt(h, dev, m))
      && PoliceAt(h', dev, m)
        == (if IngressFilter(dev, m, police.ip, police.rate, police.burst) in cmds then Some(police) else PoliceAt(h, dev, m))
    decreases |cmds|
  {
    if cmds != [] {
      assert cmds[0] in cmds && cmds == [cmds[0]] + cmds[1..];
      OneSet(h, cmds[0], dev, m, rate, route, police);
      SetsAre(Exec(h, cmds[0]), cmds[1..], dev, m, rate, route, police);
    }
  }

  // ---- the setup of one client ----

  /** The egress class, the egress filter, or the ingress filter of the record is set up. */
  predicate ClassIsSet(e: Applied, rejects: set<Command>) {
    e.rx > 0 && RootQdisc(e.device) !in rejects && ParentClass(e.device) !in rejects && EgressClass(e.device, e.classId, e.rx) !in rejects
  }

  predicate FilterIsSet(e: Applied, rejects: set<Command>) {
    ClassIsSet(e, rejects) && EgressFilter(e.device, e.classId, TrimSpace(e.staticIp), e.classId) !in rejects
  }

  predicate PoliceIsSet(e: Applied, rejects: set<Command>) {
    e.tx > 0 && !Rejected(Forward(e.rules), rejects)
  }

  lemma ForwardOfRecord(e: Applied)
    requires Recorded(e)
    ensures Forward(e.rules) == ForwardCommands(e.device, TrimSpace(e.staticIp), e.rx, e.tx, e.classId)
  {
    PlanIgnoresBlanks(e.device, e.staticIp, e.rx, e.tx, e.classId);
    PlanCommands(e.device, TrimSpace(e.staticIp), e.rx, e.tx, e.classId);
  }

  lemma FirstThree(a: Command, b: Command, c: Command, rejects: set<Command>)
    ensures Rejected([a, b, c], rejects) <==> a in rejects || b in rejects || c in rejects
  {
    assert a in [a, b, c] && b in [a, b, c] && c in [a, b, c];
  }

  lemma FirstFour(a: Command, b: Command, c: Command, d: Command, rejects: set<Command>)
    ensures Rejected([a, b, c, d], rejects) <==> a in rejects || b in rejects || c in rejects || d in rejects
  {
    assert a in [a, b, c, d] && b in [a, b, c, d] && c in [a, b, c, d] && d in [a, b, c, d];
  }

  lemma EgressIsRun(dev: string, ip: string, rx: int, tx: int, id: nat, rejects: set<Command>)
    requires rx > 0
    ensures var run, p := Until(ForwardCommands(dev, ip, rx, tx, id), rejects), RootQdisc(dev) !in rejects && ParentClass(dev) !in rejects;
      && (EgressClass(dev, id, rx) in run <==> p && EgressClass(dev, id, rx) !in rejects)
      && (EgressFilter(dev, id, ip, id) in run <==> p && EgressClass(dev, id, rx) !in rejects && EgressFilter(dev, id, ip, id) !in rejects)
  {
    var cmds := ForwardCommands(dev, ip, rx, tx, id);
    assert cmds[..3] == [RootQdisc(dev), ParentClass(dev), EgressClass(dev, id, rx)];
    assert cmds[..4] == [RootQdisc(dev), ParentClass(dev), EgressClass(dev, id, rx), EgressFilter(dev, id, ip, id)];
    UntilHas(cmds, rejects, 2);
    UntilHas(cmds, rejects, 3);
    FirstThree(cmds[0], cmds[1], cmds[2], rejects);
    FirstFour(cmds[0], cmds[1], cmds[2], cmds[3], rejects);
  }

  lemma IngressIsRun(dev: string, ip: string, rx: int, tx: int, id: nat, rejects: set<Command>)
    requires tx > 0
    ensures var cmds, f := ForwardCommands(dev, ip, rx, tx, id), IngressFilter(dev, 10000 + id, ip, tx, IngressBurst(tx));
      f in Until(cmds, rejects) <==> !Rejected(cmds, rejects)
  {
    var cmds := ForwardCommands(dev, ip, rx, tx, id);
    var n := |cmds| - 1;
    assert cmds[n] == IngressFilter(dev, 10000 + id, ip, tx, IngressBurst(tx)) && cmds[..n + 1] == cmds;
    UntilHas(cmds, rejects, n);
  }

  // ---- slots ----

  /** What a device shows under one class id. */
  datatype Slot = Slot(rate: Option<nat>, route: Option<Route>, police: Option<Police>)

  const NOTHING := Slot(None, None, None)

  function SlotAt(h: Host, dev: string, id: nat): Slot {
    Slot(ClassAt(h, dev, id), RouteAt(h, dev, id), PoliceAt(h, dev, 10000 + id))
  }

  /** What a record asks for. */
  function Asked(e: Applied): Slot {
    var ip := TrimSpace(e.staticIp);
    Slot(if e.rx > 0 then Some(e.rx) else None, if e.rx > 0 then Some(Route(ip, e.classId)) else None,
         if e.tx > 0 then Some(Police(ip, e.tx, IngressBurst(e.tx))) else None)
  }

  /** A slot after the undo run of a record, and after a setup run. */
  function Undone(slot: Slot, e: Applied, rejects: set<Command>): Slot {
    Slot(if e.rx > 0 && DropEgressClass(e.device, e.classId) !in rejects then None else slot.rate,
         if e.rx > 0 && DropEgressFilter(e.device, e.classId) !in rejects then None else slot.route,
         if e.tx > 0 && DropIngressFilter(e.device, 10000 + e.classId) !in rejects then None else slot.police)
  }

  function SetUp(slot: Slot, e: Applied, rejects: set<Command>): Slot {
    var ip := TrimSpace(e.staticIp);
    Slot(if ClassIsSet(e, rejects) then Some(e.rx) else slot.rate,
         if FilterIsSet(e, rejects) then Some(Route(ip, e.classId)) else slot.route,
         if PoliceIsSet(e, rejects) then Some(Police(ip, e.tx, IngressBurst(e.tx))) else slot.police)
  }

  lemma UndoCommandsDrop(dev: string, rx: int, tx: int, id: nat)
    ensures forall c :: c in UndoCommands(dev, rx, tx, id) ==> IsDrop(c)
  {
  }

  lemma DropsNamed(dev: string, rx: int, tx: int, id: nat, x: string, m: nat)
    ensures var cmds := UndoCommands(dev, rx, tx, id);
      && (DropEgressClass(x, m) in cmds <==> rx > 0 && x == dev && m == id)
      && (DropEgressFilter(x, m) in cmds <==> rx > 0 && x == dev && m == id)
      && (DropIngressFilter(x, m) in cmds <==> tx > 0 && x == dev && m == 10000 + id)
  {
    var a := if tx > 0 then [DropIngressFilter(dev, 10000 + id)] else [];
    var b := if rx > 0 then [DropEgressClass(dev, id), DropEgressFilter(dev, id)] else [];
    assert forall c :: c in a + b <==> c in a || c in b;
    if rx > 0 { assert b[0] in b && b[1] in b; }
    if tx > 0 { assert a[0] in a; }
  }

  /** What an undo run of `e` does at prio or minor `m` of a device. */
  ghost predicate UndoneAt(h: Host, h': Host, e: Applied, rejects: set<Command>, x: string, m: nat) {
    && ClassAt(h', x, m) == (if e.rx > 0 && x == e.device && m == e.classId && DropEgressClass(x, m) !in rejects then None else ClassAt(h, x, m))
    && RouteAt(h', x, m) == (if e.rx > 0 && x == e.device && m == e.classId && DropEgressFilter(x, m) !in rejects then None else RouteAt(h, x, m))
    && PoliceAt(h', x, m)
      == (if e.tx > 0 && x == e.device && m == 10000 + e.classId && DropIngressFilter(x, m) !in rejects then None else PoliceAt(h, x, m))
  }

  lemma UndoLeaves(s: State, t: State, env: Env, e: Applied, x: string, m: nat)
    requires Recorded(e) && env.tcPresent && t == RunRules(s, Tc, env, Undo(e.rules), true).s
    ensures t.entries == s.entries && UndoneAt(s.host, t.host, e, env.rejects, x, m)
  {
    UndoOfRecord(e);
    UndoCommandsDrop(e.device, e.rx, e.tx, e.classId);
    DropsNamed(e.device, e.rx, e.tx, e.classId, x, m);
    UndoRunIs(s, env, Undo(e.rules), x, m);
  }

  lemma UndoneParts(h: Host, h': Host, e: Applied, rejects: set<Command>, dev: string, id: nat)
    requires UndoneAt(h, h', e, rejects, dev, id) && UndoneAt(h, h', e, rejects, dev, 10000 + id)
    ensures SlotAt(h', dev, id) == if dev == e.device && id == e.classId then Undone(SlotAt(h, dev, id), e, rejects) else SlotAt(h, dev, id)
  {
  }

  /** Outside the slots `id` of two devices nothing differs. */
  ghost predicate SameElsewhere(h: Host, h': Host, dev1: string, dev2: string, id: nat) {
    forall dev, m: nat {:trigger SlotAt(h', dev, m)} :: (dev != dev1 && dev != dev2) || m != id ==> SlotAt(h', dev, m) == SlotAt(h, dev, m)
  }

  ghost predicate PriosHigh(h: Host) { forall dev, p :: p in On(h, dev).police ==> p >= 10000 }

  /** The undo run of `e` changes the slot of `e` only. */
  lemma UndoRunSlots(s: State, t: State, env: Env, e: Applied)
    requires Recorded(e) && env.tcPresent && PriosHigh(s.host) && t == RunRules(s, Tc, env, Undo(e.rules), true).s
    ensures t.entries == s.entries && PriosHigh(t.host)
    ensures SlotAt(t.host, e.device, e.classId) == Undone(SlotAt(s.host, e.device, e.classId), e, env.rejects)
    ensures SameElsewhere(s.host, t.host, e.device, e.device, e.classId)
  {
    forall dev, p | p in On(t.host, dev).police ensures p >= 10000 {
      UndoLeaves(s, t, env, e, dev, p);
      assert PoliceAt(s.host, dev, p).Some?;
    }
    forall dev, id: nat
      ensures SlotAt(t.host, dev, id) == if dev == e.device && id == e.classId then Undone(SlotAt(s.host, dev, id), e, env.rejects) else SlotAt(s.host, dev, id)
    {
      UndoLeaves(s, t, env, e, dev, id);
      UndoLeaves(s, t, env, e, dev, 10000 + id);
      UndoneParts(s.host, t.host, e, env.rejects, dev, id);
    }
    UndoLeaves(s, t, env, e, e.device, e.classId);
  }

  function Positive(n: int): nat { if n > 0 then n else 0 }

  /** A setup sets nothing but the client's own class and filters. */
  lemma ForwardSets(dev: string, ip: string, rx: int, tx: int, id: nat, x: string, m: nat)
    ensures var cmds := ForwardCommands(dev, ip, rx, tx, id);
      && (forall c :: c in cmds ==> SetsOnly(c, x, m, Positive(rx), Route(ip, id), Police(ip, Positive(tx), IngressBurst(Positive(tx)))))
      && (forall c :: c in cmds && c.EgressClass? ==> rx > 0 && c == EgressClass(dev, id, rx))
      && (forall c :: c in cmds && c.EgressFilter? ==> rx > 0 && c == EgressFilter(dev, id, ip, id))
      && (forall c :: c in cmds && c.IngressFilter? ==> tx > 0 && c == IngressFilter(dev, 10000 + id, ip, tx, IngressBurst(tx)))
  {
    var p := [RootQdisc(dev), ParentClass(dev)];
    var e := if rx > 0 then [EgressClass(dev, id, rx), EgressFilter(dev, id, ip, id)] else [];
    var g := if tx > 0 then [IngressQdisc(dev), IngressFilter(dev, 10000 + id, ip, tx, IngressBurst(tx))] else [];
    assert forall c :: c in p + e + g <==> c in p || c in e || c in g;
  }

  lemma RunSetsOnly(e: Applied, rejects: set<Command>, x: string, m: nat)
    requires Recorded(e)
    ensures forall c :: c in Until(Forward(e.rules), rejects) ==>
      SetsOnly(c, x, m, Positive(e.rx), Route(TrimSpace(e.staticIp), e.classId), Police(TrimSpace(e.staticIp), Positive(e.tx), IngressBurst(Positive(e.tx))))
  {
    ForwardOfRecord(e);
    ForwardSets(e.device, TrimSpace(e.staticIp), e.rx, e.tx, e.classId, x, m);
    UntilIsFrom(Forward(e.rules), rejects);
  }

  /** Which class and filters a setup run sets. */
  lemma RunClass(e: Applied, rejects: set<Command>, x: string, m: nat)
    requires Recorded(e)
    ensures EgressClass(x, m, Positive(e.rx)) in Until(Forward(e.rules), rejects) <==> x == e.device && m == e.classId && ClassIsSet(e, rejects)
  {
    var c := EgressClass(x, m, Positive(e.rx));
    if e.rx > 0 { EgressIsRun(e.device, TrimSpace(e.staticIp), e.rx, e.tx, e.classId, rejects); }
    ForwardOfRecord(e);
    ForwardSets(e.device, TrimSpace(e.staticIp), e.rx, e.tx, e.classId, x, m);
    UntilIsFrom(Forward(e.rules), rejects);
    if c in Until(Forward(e.rules), rejects) { assert e.rx > 0 && c == EgressClass(e.device, e.classId, e.rx); }
  }

  lemma RunFilter(e: Applied, rejects: set<Command>, x: string, m: nat)
    requires Recorded(e)
    ensures EgressFilter(x, m, TrimSpace(e.staticIp), e.classId) in Until(Forward(e.rules), rejects)
      <==> x == e.device && m == e.classId && FilterIsSet(e, rejects)
  {
    var c := EgressFilter(x, m, TrimSpace(e.staticIp), e.classId);
    if e.rx > 0 { EgressIsRun(e.device, TrimSpace(e.staticIp), e.rx, e.tx, e.classId, rejects); }
    ForwardOfRecord(e);
    ForwardSets(e.device, TrimSpace(e.staticIp), e.rx, e.tx, e.classId, x, m);
    UntilIsFrom(Forward(e.rules), rejects);
    if c in Until(Forward(e.rules), rejects) { assert e.rx > 0 && c == EgressFilter(e.device, e.classId, TrimSpace(e.staticIp), e.classId); }
  }

  lemma FilterNamed(dev: string, ip: string, rx: int, tx: int, id: nat, rejects: set<Command>, c: Command)
    requires c.IngressFilter? && c in Until(ForwardCommands(dev, ip, rx, tx, id), rejects)
    ensures tx > 0 && c == IngressFilter(dev, 10000 + id, ip, tx, IngressBurst(tx))
  {
    ForwardSets(dev, ip, rx, tx, id, dev, id);
    UntilIsFrom(ForwardCommands(dev, ip, rx, tx, id), rejects);
  }

  lemma FilterIsRun(dev: string, ip: string, rx: int, tx: int, id: nat, rejects: set<Command>, c: Command)
    requires c.IngressFilter? && c.ip == ip && (tx > 0 ==> c.rate == tx && c.burst == IngressBurst(tx))
    ensures var cmds := ForwardCommands(dev, ip, rx, tx, id);
      c in Until(cmds, rejects) <==> c.dev == dev && c.prio == 10000 + id && tx > 0 && !Rejected(cmds, rejects)
  {
    var cmds := ForwardCommands(dev, ip, rx, tx, id);
    if c in Until(cmds, rejects) { FilterNamed(dev, ip, rx, tx, id, rejects, c); }
    if tx > 0 { IngressIsRun(dev, ip, rx, tx, id, rejects); }
  }

  lemma RunPolice(e: Applied, rejects: set<Command>, x: string, m: nat)
    requires Recorded(e)
    ensures IngressFilter(x, m, TrimSpace(e.staticIp), Positive(e.tx), IngressBurst(Positive(e.tx))) in Until(Forward(e.rules), rejects)
      <==> x == e.device && m == 10000 + e.classId && PoliceIsSet(e, rejects)
  {
    var ip := TrimSpace(e.staticIp);
    ForwardOfRecord(e);
    FilterIsRun(e.device, ip, e.rx, e.tx, e.classId, rejects, IngressFilter(x, m, ip, Positive(e.tx), IngressBurst(Positive(e.tx))));
  }

  /** What a setup run of `e` does at prio or minor `m` of a device. */
  ghost predicate SetUpAt(h: Host, h': Host, e: Applied, rejects: set<Command>, x: string, m: nat) {
    var ip := TrimSpace(e.staticIp);
    && ClassAt(h', x, m) == (if x == e.device && m == e.classId && ClassIsSet(e, rejects) then Some(e.rx) else ClassAt(h, x, m))
    && RouteAt(h', x, m) == (if x == e.device && m == e.classId && FilterIsSet(e, rejects) then Some(Route(ip, e.classId)) else RouteAt(h, x, m))
    && PoliceAt(h', x, m) == (if x == e.device && m == 10000 + e.classId && PoliceIsSet(e, rejects) then Some(Police(ip, e.tx, IngressBurst(e.tx)))
                              else PoliceAt(h, x, m))
  }

  lemma SetupSets(h: Host, h': Host, e: Applied, rejects: set<Command>, x: string, m: nat)
    requires Recorded(e) && h' == ExecAll(h, Until(Forward(e.rules), rejects))
    ensures SetUpAt(h, h', e, rejects, x, m)
  {
    var ip := TrimSpace(e.staticIp);
    RunSetsOnly(e, rejects, x, m);
    RunClass(e, rejects, x, m);
    RunFilter(e, rejects, x, m);
    RunPolice(e, rejects, x, m);
    SetsAre(h, Until(Forward(e.rules), rejects), x, m, Positive(e.rx), Route(ip, e.classId),
            Police(ip, Positive(e.tx), IngressBurst(Positive(e.tx))));
  }

  lemma SetUpParts(h: Host, h': Host, e: Applied, rejects: set<Command>, dev: string, id: nat)
    requires SetUpAt(h, h', e, rejects, dev, id) && SetUpAt(h, h', e, rejects, dev, 10000 + id)
    ensures SlotAt(h', dev, id) == if dev == e.device && id == e.classId then SetUp(SlotAt(h, dev, id), e, rejects) else SlotAt(h, dev, id)
  {
  }

  /** The setup run of `e` changes the slot of `e` only. */
  lemma SetupRunSlots(h: Host, h': Host, e: Applied, rejects: set<Command>)
    requires Recorded(e) && PriosHigh(h) && h' == ExecAll(h, Until(Forward(e.rules), rejects))
    ensures PriosHigh(h')
    ensures SlotAt(h', e.device, e.classId) == SetUp(SlotAt(h, e.device, e.classId), e, rejects)
    ensures SameElsewhere(h, h', e.device, e.device, e.classId)
  {
    forall dev, p | p in On(h', dev).police ensures p >= 10000 {
      SetupSets(h, h', e, rejects, dev, p);
      assert PoliceAt(h', dev, p).Some?;
    }
    forall dev, id: nat
      ensures SlotAt(h', dev, id) == if dev == e.device && id == e.classId then SetUp(SlotAt(h, dev, id), e, rejects) else SlotAt(h, dev, id)
    {
      SetupSets(h, h', e, rejects, dev, id);
      SetupSets(h, h', e, rejects, dev, 10000 + id);
      SetUpParts(h, h', e, rejects, dev, id);
    }
  }

  // ---- agreement, slot by slot ----

  lemma SlotMeans(h: Host, dev: string, e: Applied)
    ensures Shows(On(h, dev), e) <==> SlotAt(h, dev, e.classId) == Asked(e)
    ensures Bare(On(h, dev), e.classId) <==> SlotAt(h, dev, e.classId) == NOTHING
  {
  }

  /** Only the record of `k` differs, and only among those slots. */
  ghost predicate OneRecordDiffers(entries: map<Key, Applied>, entries': map<Key, Applied>, k: Key, dev1: string, dev2: string, id: nat) {
    && (forall j :: j != k ==> (j in entries <==> j in entries') && (j in entries ==> entries[j] == entries'[j]))
    && (k in entries ==> entries[k].classId == id && (entries[k].device == dev1 || entries[k].device == dev2))
    && (k in entries' ==> entries'[k].classId == id && (entries'[k].device == dev1 || entries'[k].device == dev2))
  }

  lemma OtherSlot(entries: map<Key, Applied>, h: Host, entries': map<Key, Applied>, h': Host, k: Key, dev1: string, dev2: string, id: nat, dev: string, m: nat)
    requires Agrees(entries, h) && SameElsewhere(h, h', dev1, dev2, id) && OneRecordDiffers(entries, entries', k, dev1, dev2, id)
    requires (dev != dev1 && dev != dev2) || m != id
    ensures SlotAgrees(entries', h', dev, m)
  {
    assert SlotAgrees(entries, h, dev, m);
    assert SlotAt(h', dev, m) == SlotAt(h, dev, m);
    SlotFrame(entries, h, entries', h', dev, m);
  }

  /** Whether the host agrees is decided by those slots. */
  lemma SlotsDecide(entries: map<Key, Applied>, h: Host, entries': map<Key, Applied>, h': Host, k: Key, dev1: string, dev2: string, id: nat)
    requires Agrees(entries, h) && SameElsewhere(h, h', dev1, dev2, id) && OneRecordDiffers(entries, entries', k, dev1, dev2, id) && PriosHigh(h')
    ensures Agrees(entries', h') <==> SlotAgrees(entries', h', dev1, id) && SlotAgrees(entries', h', dev2, id)
  {
    if SlotAgrees(entries', h', dev1, id) && SlotAgrees(entries', h', dev2, id) {
      forall dev, m: nat ensures SlotAgrees(entries', h', dev, m) {
        if (dev != dev1 && dev != dev2) || m != id { OtherSlot(entries, h, entries', h', k, dev1, dev2, id, dev, m); }
      }
    }
  }

  /** The only holder of a slot decides whether it agrees. */
  lemma HolderDecides(entries: map<Key, Applied>, h: Host, k: Key, dev: string, id: nat)
    requires Holds(entries, k, dev, id) && forall j :: Holds(entries, j, dev, id) ==> j == k
    ensures SlotAgrees(entries, h, dev, id) <==> SlotAt(h, dev, id) == Asked(entries[k])
  {
    SlotMeans(h, dev, entries[k]);
  }

  // ---- new clients ----

  lemma RunOfRecord(e: Applied, rejects: set<Command>)
    requires Recorded(e) && !Rejected(Forward(e.rules), rejects)
    ensures (e.rx > 0 <==> ClassIsSet(e, rejects)) && (e.rx > 0 <==> FilterIsSet(e, rejects)) && (e.tx > 0 <==> PoliceIsSet(e, rejects))
  {
    ForwardOfRecord(e);
    var cmds := Forward(e.rules);
    assert cmds[0] in cmds && cmds[1] in cmds;
    if e.rx > 0 { assert cmds[2] in cmds && cmds[3] in cmds; }
  }

  lemma ReplaceNewIs(s: State, t: State, env: Env, k: Key, device: string, c: Limit)
    requires k !in s.entries && RecordOf(c, device, NextId(s.nextCls, device)).rules != []
    requires t == Replace(s, Tc, env, k, device, c).s
    ensures var e := RecordOf(c, device, NextId(s.nextCls, device));
      var r := RunRules(Alloc(s, device), Tc, env, Forward(e.rules), false);
      t == if !env.tcPresent then Alloc(s, device) else if r.ok then r.s.(entries := r.s.entries[k := e]) else r.s
  {
  }

  /** Apply for a client without rules, whatever tc does: the host agrees with the records
      afterwards exactly if tc is missing, takes every setup command, or breaks the setup off
      without having set the client's egress class. */
  lemma NewClientAgreesExactly(s: State, env: Env, k: Key, device: string, c: Limit)
    requires Consistent(s) && AllocOk(s) && k !in s.entries && Handed(s, device) < CLASS_COUNT
    requires Plannable(device, TrimSpace(c.staticIp), c.rx, c.tx)
    ensures var t, e := Replace(s, Tc, env, k, device, c).s, RecordOf(c, device, NextId(s.nextCls, device));
      Agrees(t.entries, t.host) <==>
        !env.tcPresent || !Rejected(Forward(e.rules), env.rejects) || !ClassIsSet(e, env.rejects)
  {
    var t, e := Replace(s, Tc, env, k, device, c).s, RecordOf(c, device, NextId(s.nextCls, device));
    AllocIsFree(s, device);
    assert Recorded(e);
    ApplyRecord(s.host, e);
    ReplaceNewIs(s, t, env, k, device, c);
    if env.tcPresent {
      SetupRun(Alloc(s, device), env, Forward(e.rules));
      NewClientDecides(s.entries, s.host, t.entries, t.host, k, e, env.rejects);
    }
  }

  lemma NewClientDecides(entries: map<Key, Applied>, h: Host, entries': map<Key, Applied>, h': Host, k: Key, e: Applied, rejects: set<Command>)
    requires Agrees(entries, h) && k !in entries && FreeId(entries, e.device, e.classId) && Recorded(e)
    requires h' == ExecAll(h, Until(Forward(e.rules), rejects))
    requires entries' == if Rejected(Forward(e.rules), rejects) then entries else entries[k := e]
    ensures Agrees(entries', h') <==> !Rejected(Forward(e.rules), rejects) || !ClassIsSet(e, rejects)
  {
    var dev, id := e.device, e.classId;
    assert SlotAgrees(entries, h, dev, id);
    SlotMeans(h, dev, e);
    SlotMeans(h', dev, e);
    SetupRunSlots(h, h', e, rejects);
    SlotsDecide(entries, h, entries', h', k, dev, dev, id);
    if !Rejected(Forward(e.rules), rejects) {
      RunOfRecord(e, rejects);
      assert forall j :: Holds(entries', j, dev, id) && j != k ==> Holds(entries, j, dev, id);
      HolderDecides(entries', h', k, dev, id);
    }
  }

  // ---- clients already on record ----

  lemma ReplaceOldIs(s: State, t: State, env: Env, k: Key, device: string, c: Limit)
    requires k in s.entries && RecordOf(c, device, s.entries[k].classId).rules != []
    requires t == Replace(s, Tc, env, k, device, c).s
    ensures var e := RecordOf(c, device, s.entries[k].classId);
      var u := RunRules(s, Tc, env, Undo(s.entries[k].rules), true).s;
      var r := RunRules(u, Tc, env, Forward(e.rules), false);
      t == if !env.tcPresent then u else if r.ok then r.s.(entries := r.s.entries[k := e]) else r.s
  {
  }

  lemma AbsentTc(s: State, env: Env, cmds: seq<Command>, undo: bool)
    requires !env.tcPresent
    ensures RunRules(s, Tc, env, cmds, undo).s == s
  {
  }

  /** The undo run of the old record led from `h` to `u`, the setup of the new one on to `h'`, and
      the new one is recorded if it went through. */
  ghost predicate Replaced(entries: map<Key, Applied>, h: Host, u: Host, entries': map<Key, Applied>, h': Host, k: Key, e: Applied, rejects: set<Command>) {
    && k in entries && e.classId == entries[k].classId && Recorded(e) && PriosHigh(u)
    && SlotAt(u, entries[k].device, e.classId) == Undone(SlotAt(h, entries[k].device, e.classId), entries[k], rejects)
    && SameElsewhere(h, u, entries[k].device, entries[k].device, e.classId)
    && h' == ExecAll(u, Until(Forward(e.rules), rejects))
    && entries' == if Rejected(Forward(e.rules), rejects) then entries else entries[k := e]
  }

  lemma ReplaceRuns(s: State, t: State, env: Env, k: Key, e: Applied, c: Limit) returns (u: Host)
    requires Agrees(s.entries, s.host) && k in s.entries && Recorded(s.entries[k]) && Recorded(e) && env.tcPresent
    requires e == RecordOf(c, e.device, s.entries[k].classId) && t == Replace(s, Tc, env, k, e.device, c).s
    ensures Replaced(s.entries, s.host, u, t.entries, t.host, k, e, env.rejects)
  {
    var s1 := RunRules(s, Tc, env, Undo(s.entries[k].rules), true).s;
    ApplyRecord(s.host, e);
    ReplaceOldIs(s, t, env, k, e.device, c);
    UndoRunSlots(s, s1, env, s.entries[k]);
    SetupRun(s1, env, Forward(e.rules));
    u := s1.host;
  }

  /** The slots of the old and the new device after both runs. */
  lemma ReplacedSlots(entries: map<Key, Applied>, h: Host, u: Host, entries': map<Key, Applied>, h': Host, k: Key, e: Applied, rejects: set<Command>)
    requires Agrees(entries, h) && DistinctIds(entries) && Replaced(entries, h, u, entries', h', k, e, rejects)
    ensures var was := entries[k]; var left := Undone(Asked(was), was, rejects);
      && PriosHigh(h') && SameElsewhere(h, h', was.device, e.device, e.classId)
      && SlotAt(h', was.device, e.classId) == (if e.device == was.device then SetUp(left, e, rejects) else left)
      && (e.device != was.device ==> SlotAt(h', e.device, e.classId) == SetUp(SlotAt(h, e.device, e.classId), e, rejects))
  {
    var was := entries[k];
    assert Holds(entries, k, was.device, was.classId);
    assert SlotAgrees(entries, h, was.device, was.classId);
    SlotMeans(h, was.device, was);
    SetupRunSlots(u, h', e, rejects);
    if e.device != was.device {
      assert SlotAt(h', was.device, e.classId) == SlotAt(u, was.device, e.classId);
      assert SlotAt(u, e.device, e.classId) == SlotAt(h, e.device, e.classId);
    }
    ElsewhereJoins(h, u, h', was.device, e.device, e.classId);
  }

  lemma ElsewhereJoins(h: Host, u: Host, h': Host, dev1: string, dev2: string, id: nat)
    requires SameElsewhere(h, u, dev1, dev1, id) && SameElsewhere(u, h', dev2, dev2, id)
    ensures SameElsewhere(h, h', dev1, dev2, id)
  {
    forall dev, m: nat | (dev != dev1 && dev != dev2) || m != id ensures SlotAt(h', dev, m) == SlotAt(h, dev, m) {
      assert SlotAt(h', dev, m) == SlotAt(u, dev, m);
    }
  }

  /** What the old record asked for and the new one does not is deleted. */
  predicate LeavesNothing(was: Applied, e: Applied, rejects: set<Command>) {
    && (was.rx > 0 && e.rx <= 0 ==> DropEgressClass(was.device, was.classId) !in rejects && DropEgressFilter(was.device, was.classId) !in rejects)
    && (was.tx > 0 && e.tx <= 0 ==> DropIngressFilter(was.device, 10000 + was.classId) !in rejects)
  }

  /** What the old record asks for is set again as it was, or its deletion was refused. */
  predicate LeavesOld(was: Applied, e: Applied, rejects: set<Command>) {
    && (if ClassIsSet(e, rejects) then was.rx == e.rx else was.rx > 0 ==> DropEgressClass(was.device, was.classId) in rejects)
    && (if FilterIsSet(e, rejects) then TrimSpace(was.staticIp) == TrimSpace(e.staticIp)
        else was.rx > 0 ==> DropEgressFilter(was.device, was.classId) in rejects)
    && (was.tx > 0 ==> DropIngressFilter(was.device, 10000 + was.classId) in rejects)
  }

  lemma ChangedSlot(was: Applied, e: Applied, rejects: set<Command>)
    requires Recorded(e) && e.device == was.device && e.classId == was.classId
    ensures var slot := SetUp(Undone(Asked(was), was, rejects), e, rejects);
      if Rejected(Forward(e.rules), rejects) then slot == Asked(was) <==> LeavesOld(was, e, rejects)
      else slot == Asked(e) <==> LeavesNothing(was, e, rejects)
  {
    if !Rejected(Forward(e.rules), rejects) { RunOfRecord(e, rejects); }
  }

  /** A change of a client's address or limits on its device, whatever tc does: the host agrees with
      the records afterwards exactly if tc is missing, or takes the whole setup and the deletion of
      all that is no longer asked for, or breaks the setup off and leaves the old rules: each of
      them is set again as it was, or its deletion was refused. */
  lemma ChangedClientAgreesExactly(s: State, env: Env, k: Key, c: Limit)
    requires Consistent(s) && k in s.entries && Recorded(s.entries[k])
    requires Plannable(s.entries[k].device, TrimSpace(c.staticIp), c.rx, c.tx)
    ensures var was := s.entries[k]; var e := RecordOf(c, was.device, was.classId);
      var t := Replace(s, Tc, env, k, was.device, c).s;
      Agrees(t.entries, t.host) <==>
        !env.tcPresent ||
        (if Rejected(Forward(e.rules), env.rejects) then LeavesOld(was, e, env.rejects) else LeavesNothing(was, e, env.rejects))
  {
    var was := s.entries[k];
    var e := RecordOf(c, was.device, was.classId);
    var t := Replace(s, Tc, env, k, was.device, c).s;
    assert Recorded(e);
    if env.tcPresent {
      var u := ReplaceRuns(s, t, env, k, e, c);
      ChangedDecides(s.entries, s.host, u, t.entries, t.host, k, e, env.rejects);
      ChangedSlot(was, e, env.rejects);
    } else {
      ApplyRecord(s.host, e);
      ReplaceOldIs(s, t, env, k, was.device, c);
      AbsentTc(s, env, Undo(was.rules), true);
    }
  }

  lemma ChangedDecides(entries: map<Key, Applied>, h: Host, u: Host, entries': map<Key, Applied>, h': Host, k: Key, e: Applied, rejects: set<Command>)
    requires Agrees(entries, h) && DistinctIds(entries) && Replaced(entries, h, u, entries', h', k, e, rejects) && e.device == entries[k].device
    ensures Agrees(entries', h') <==> SetUp(Undone(Asked(entries[k]), entries[k], rejects), e, rejects) == Asked(entries'[k])
  {
    var dev, id := e.device, e.classId;
    ReplacedSlots(entries, h, u, entries', h', k, e, rejects);
    SlotsDecide(entries, h, entries', h', k, dev, dev, id);
    assert Holds(entries, k, dev, id) && Holds(entries', k, dev, id);
    forall j | Holds(entries', j, dev, id) ensures j == k { assert j != k ==> Holds(entries, j, dev, id); }
    HolderDecides(entries', h', k, dev, id);
  }

  // ---- clients moved to another device ----

  /** A setup that goes through leaves the slot as every holder of the id asks, old and new. */
  ghost predicate SlotIsShared(entries: map<Key, Applied>, e: Applied) {
    forall j :: Holds(entries, j, e.device, e.classId) ==> Asked(entries[j]) == Asked(e)
  }

  /** A setup broken off leaves the slot as its holder asks, or bare. */
  ghost predicate SlotIsKept(entries: map<Key, Applied>, e: Applied, rejects: set<Command>) {
    && (FreeId(entries, e.device, e.classId) ==> !ClassIsSet(e, rejects))
    && forall j :: Holds(entries, j, e.device, e.classId) && ClassIsSet(e, rejects) ==>
        entries[j].rx == e.rx && (FilterIsSet(e, rejects) ==> TrimSpace(entries[j].staticIp) == TrimSpace(e.staticIp))
  }

  lemma DropsAre(dev: string, rx: int, tx: int, id: nat, f: Command -> bool)
    ensures (forall c :: c in UndoCommands(dev, rx, tx, id) ==> f(c)) <==>
      && (rx > 0 ==> f(DropEgressClass(dev, id)) && f(DropEgressFilter(dev, id))) && (tx > 0 ==> f(DropIngressFilter(dev, 10000 + id)))
  {
    DropsNamed(dev, rx, tx, id, dev, id);
    DropsNamed(dev, rx, tx, id, dev, 10000 + id);
  }

  lemma UndoneIsEmpty(was: Applied, rejects: set<Command>)
    requires Recorded(was)
    ensures Undone(Asked(was), was, rejects) == NOTHING <==> forall c :: c in Undo(was.rules) ==> c !in rejects
  {
    UndoOfRecord(was);
    DropsAre(was.device, was.rx, was.tx, was.classId, c => c !in rejects);
  }

  lemma UndoneIsWhole(was: Applied, rejects: set<Command>)
    requires Recorded(was)
    ensures Undone(Asked(was), was, rejects) == Asked(was) <==> forall c :: c in Undo(was.rules) ==> c in rejects
  {
    UndoOfRecord(was);
    DropsAre(was.device, was.rx, was.tx, was.classId, c => c in rejects);
  }

  /** The slot on the device the client left. */
  lemma OldSlot(entries: map<Key, Applied>, h': Host, entries': map<Key, Applied>, k: Key, e: Applied, rejects: set<Command>)
    requires k in entries && Recorded(entries[k]) && DistinctIds(entries) && e.classId == entries[k].classId && e.device != entries[k].device
    requires SlotAt(h', entries[k].device, e.classId) == Undone(Asked(entries[k]), entries[k], rejects)
    requires entries' == if Rejected(Forward(e.rules), rejects) then entries else entries[k := e]
    ensures SlotAgrees(entries', h', entries[k].device, e.classId) <==>
      forall c :: c in Undo(entries[k].rules) ==> (c in rejects <==> Rejected(Forward(e.rules), rejects))
  {
    var was := entries[k];
    assert Holds(entries, k, was.device, was.classId);
    SlotMeans(h', was.device, was);
    if Rejected(Forward(e.rules), rejects) {
      UndoneIsWhole(was, rejects);
      HolderDecides(entries, h', k, was.device, was.classId);
    } else {
      UndoneIsEmpty(was, rejects);
      forall j ensures !Holds(entries', j, was.device, was.classId) { assert j != k && Holds(entries', j, was.device, was.classId) ==> Holds(entries, j, was.device, was.classId); }
    }
  }

  /** The slot on the device the client came to. */
  lemma NewSlot(entries: map<Key, Applied>, h: Host, h': Host, entries': map<Key, Applied>, k: Key, e: Applied, rejects: set<Command>)
    requires k in entries && Recorded(e) && DistinctIds(entries) && e.classId == entries[k].classId && e.device != entries[k].device
    requires SlotAgrees(entries, h, e.device, e.classId)
    requires SlotAt(h', e.device, e.classId) == SetUp(SlotAt(h, e.device, e.classId), e, rejects)
    requires entries' == if Rejected(Forward(e.rules), rejects) then entries else entries[k := e]
    ensures SlotAgrees(entries', h', e.device, e.classId) <==>
      if Rejected(Forward(e.rules), rejects) then SlotIsKept(entries, e, rejects) else SlotIsShared(entries, e)
  {
    SlotMeans(h, e.device, e);
    SlotMeans(h', e.device, e);
    if FreeId(entries, e.device, e.classId) {
      FreeSlot(entries, h, h', entries', k, e, rejects);
    } else {
      var j :| Holds(entries, j, e.device, e.classId);
      HeldSlot(entries, h, h', entries', k, j, e, rejects);
    }
  }

  lemma FreeSlot(entries: map<Key, Applied>, h: Host, h': Host, entries': map<Key, Applied>, k: Key, e: Applied, rejects: set<Command>)
    requires k in entries && Recorded(e) && FreeId(entries, e.device, e.classId) && SlotAt(h, e.device, e.classId) == NOTHING
    requires SlotAt(h', e.device, e.classId) == SetUp(NOTHING, e, rejects)
    requires entries' == if Rejected(Forward(e.rules), rejects) then entries else entries[k := e]
    ensures SlotAgrees(entries', h', e.device, e.classId) <==> !Rejected(Forward(e.rules), rejects) || !ClassIsSet(e, rejects)
  {
    SlotMeans(h', e.device, e);
    if !Rejected(Forward(e.rules), rejects) {
      RunOfRecord(e, rejects);
      assert Holds(entries', k, e.device, e.classId);
      forall j | Holds(entries', j, e.device, e.classId) ensures j == k { assert j != k ==> Holds(entries, j, e.device, e.classId); }
      HolderDecides(entries', h', k, e.device, e.classId);
    }
  }

  lemma HeldSlot(entries: map<Key, Applied>, h: Host, h': Host, entries': map<Key, Applied>, k: Key, j: Key, e: Applied, rejects: set<Command>)
    requires k in entries && Recorded(e) && DistinctIds(entries) && Holds(entries, j, e.device, e.classId) && e.device != entries[k].device
    requires SlotAgrees(entries, h, e.device, e.classId)
    requires SlotAt(h', e.device, e.classId) == SetUp(SlotAt(h, e.device, e.classId), e, rejects)
    requires entries' == if Rejected(Forward(e.rules), rejects) then entries else entries[k := e]
    ensures SlotAgrees(entries', h', e.device, e.classId) <==>
      if Rejected(Forward(e.rules), rejects) then SlotIsKept(entries, e, rejects) else SlotIsShared(entries, e)
  {
    var dev, id := e.device, e.classId;
    HolderDecides(entries, h, j, dev, id);
    if Rejected(Forward(e.rules), rejects) {
      HolderDecides(entries, h', j, dev, id);
    } else {
      RunOfRecord(e, rejects);
      SlotMeans(h', dev, e);
      SlotMeans(h', dev, entries[j]);
      assert Holds(entries', k, dev, id) && Holds(entries', j, dev, id);
      forall i | Holds(entries', i, dev, id) ensures i == j || i == k { assert i != k ==> Holds(entries, i, dev, id); }
      assert SlotAgrees(entries', h', dev, id) <==> SlotAt(h', dev, id) == Asked(e) == Asked(entries[j]);
    }
  }

  /** A client whose instance moved to another device, whatever tc does: the host agrees with the
      records afterwards exactly if tc is missing; or takes every deletion and the whole setup, and
      a holder of the id on the new device asks for just the same; or refuses every deletion and
      breaks the setup off before it changed anything there. */
  lemma MovedClientAgreesExactly(s: State, env: Env, k: Key, device: string, c: Limit)
    requires Consistent(s) && k in s.entries && Recorded(s.entries[k]) && device != s.entries[k].device
    requires Plannable(device, TrimSpace(c.staticIp), c.rx, c.tx)
    ensures var was := s.entries[k]; var e := RecordOf(c, device, was.classId);
      var t := Replace(s, Tc, env, k, device, c).s;
      var broken := Rejected(Forward(e.rules), env.rejects);
      Agrees(t.entries, t.host) <==>
        !env.tcPresent ||
        ((forall d :: d in Undo(was.rules) ==> (d in env.rejects <==> broken)) &&
         if broken then SlotIsKept(s.entries, e, env.rejects) else SlotIsShared(s.entries, e))
  {
    var was := s.entries[k];
    var e := RecordOf(c, device, was.classId);
    var t := Replace(s, Tc, env, k, device, c).s;
    assert Recorded(e);
    if env.tcPresent {
      var u := ReplaceRuns(s, t, env, k, e, c);
      MovedDecides(s.entries, s.host, u, t.entries, t.host, k, e, env.rejects);
    } else {
      ApplyRecord(s.host, e);
      ReplaceOldIs(s, t, env, k, device, c);
      AbsentTc(s, env, Undo(was.rules), true);
    }
  }

  lemma MovedDecides(entries: map<Key, Applied>, h: Host, u: Host, entries': map<Key, Applied>, h': Host, k: Key, e: Applied, rejects: set<Command>)
    requires Agrees(entries, h) && DistinctIds(entries) && Replaced(entries, h, u, entries', h', k, e, rejects)
    requires Recorded(entries[k]) && e.device != entries[k].device
    ensures var broken := Rejected(Forward(e.rules), rejects);
      Agrees(entries', h') <==>
        (forall d :: d in Undo(entries[k].rules) ==> (d in rejects <==> broken)) &&
        if broken then SlotIsKept(entries, e, rejects) else SlotIsShared(entries, e)
  {
    var was := entries[k];
    assert SlotAgrees(entries, h, e.device, e.classId);
    ReplacedSlots(entries, h, u, entries', h', k, e, rejects);
    SlotsDecide(entries, h, entries', h', k, was.device, e.device, e.classId);
    OldSlot(entries, h', entries', k, e, rejects);
    NewSlot(entries, h, h', entries', k, e, rejects);
  }
}
