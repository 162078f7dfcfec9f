/** What every run of the enforcer keeps: the host carries exactly the rules on record, and live
    clients of a device never share a class id. Also the inputs for which this fails. */
module ShapingRuns {
  import opened Wrappers
  import opened Text
  import opened Shaping
  import opened Enforcers
  import Addresses

  // ---- agreement ----

  /** The device state shows, under the record's ids, exactly what the record asks for. */
  ghost predicate Shows(d: DevState, e: Applied) {
    var id, ip := e.classId, TrimSpace(e.staticIp);
    && (if e.rx > 0 then id in d.classes && d.classes[id] == e.rx && id in d.egress && d.egress[id] == Route(ip, id)
        else id !in d.classes && id !in d.egress)
    && (if e.tx > 0 then 10000 + id in d.police && d.police[10000 + id] == Police(ip, e.tx, IngressBurst(e.tx))
        else 10000 + id !in d.police)
  }

  ghost predicate Bare(d: DevState, id: nat) {
    id !in d.classes && id !in d.egress && 10000 + id !in d.police
  }

  ghost predicate Holds(entries: map<Key, Applied>, k: Key, dev: string, id: nat) {
    k in entries && entries[k].device == dev && entries[k].classId == id
  }

  /** What the device shows under one id is what the holder of that id asks for, or nothing. */
  ghost predicate SlotAgrees(entries: map<Key, Applied>, h: Host, dev: string, id: nat) {
    && (forall k :: Holds(entries, k, dev, id) ==> Shows(On(h, dev), entries[k]))
    && ((forall k :: !Holds(entries, k, dev, id)) ==> Bare(On(h, dev), id))
  }

  /** Per-client classes and filters on the host are exactly those of the records. */
  ghost predicate Agrees(entries: map<Key, Applied>, h: Host) {
    && (forall dev, id: nat :: SlotAgrees(entries, h, dev, id))
    && (forall dev, p :: p in On(h, dev).police ==> p >= 10000)
  }

  ghost predicate DistinctIds(entries: map<Key, Applied>) {
    forall j, k, dev, id :: Holds(entries, j, dev, id) && Holds(entries, k, dev, id) ==> j == k
  }

  /** A record as Apply writes it. */
  ghost predicate Recorded(e: Applied) {
    && Plannable(e.device, TrimSpace(e.staticIp), e.rx, e.tx)
    && FIRST_CLASS <= e.classId <= LAST_CLASS
    && e.rules == Plan(e.device, e.staticIp, e.rx, e.tx, e.classId)
  }

  ghost predicate AllRecorded(entries: map<Key, Applied>) {
    forall k {:trigger Recorded(entries[k])} :: k in entries ==> Recorded(entries[k])
  }

  ghost predicate Consistent(s: State) {
    DistinctIds(s.entries) && Agrees(s.entries, s.host)
  }

  /** The allocator has not come round: ids on record were handed out before the next one. */
  ghost predicate AllocOk(s: State) {
    && (forall dev :: dev in s.nextCls <==> Handed(s, dev) > 0)
    && (forall dev :: dev in s.nextCls ==> s.nextCls[dev] == FIRST_CLASS + Handed(s, dev) % CLASS_COUNT)
    && (forall k :: k in s.entries ==> s.entries[k].classId < FIRST_CLASS + Handed(s, s.entries[k].device))
  }

  /** No device has been asked for more ids than there are. */
  ghost predicate WithinIds(s: State) { forall dev :: Handed(s, dev) <= CLASS_COUNT }

  /** Every record of an instance is on that instance's device. */
  ghost predicate OnFixedDevices(s: State, devOf: string -> string) {
    forall k :: k in s.entries ==> s.entries[k].device == devOf(k.inst)
  }

  ghost predicate Core(s: State, devOf: string -> string) {
    Consistent(s) && AllocOk(s) && OnFixedDevices(s, devOf)
  }

  ghost predicate Inv(s: State, devOf: string -> string) {
    Core(s, devOf) && AllRecorded(s.entries)
  }

  // ---- clean command runs ----

  lemma {:induction false} AcceptedRun(s: State, env: Env, cmds: seq<Command>, undo: bool)
    requires env.tcPresent && forall c :: c in cmds ==> c !in env.rejects
    ensures RunRules(s, Tc, env, cmds, undo)
      == Outcome(s.(host := ExecAll(s.host, cmds), issued := s.issued + cmds), true)
    decreases |cmds|
  {
    if cmds == [] {
      assert s.issued + [] == s.issued;
    } else {
      assert cmds[0] in cmds;
      var t := s.(host := Exec(s.host, cmds[0]), issued := s.issued + [cmds[0]]);
      AcceptedRun(t, env, cmds[1..], undo);
      assert t.issued + cmds[1..] == s.issued + cmds;
    }
  }

  lemma PlanIgnoresBlanks(device: string, ip: string, rx: int, tx: int, id: nat)
    ensures Plan(device, ip, rx, tx, id) == Plan(device, TrimSpace(ip), rx, tx, id)
  {
    TrimTwice(ip);
  }

  /** What undoing a record does to the host. */
  lemma UndoRecord(h: Host, e: Applied)
    requires Recorded(e)
    ensures ExecAll(h, Undo(e.rules)) == h[e.device := WithoutClient(On(h, e.device), e.rx, e.tx, e.classId)]
  {
    var ip := TrimSpace(e.staticIp);
    PlanIgnoresBlanks(e.device, e.staticIp, e.rx, e.tx, e.classId);
    PlanCommands(e.device, ip, e.rx, e.tx, e.classId);
    UndoEffect(h, e.device, e.rx, e.tx, e.classId);
  }

  lemma ApplyRecord(h: Host, e: Applied)
    requires Recorded(e)
    ensures e.rules != []
    ensures ExecAll(h, Forward(e.rules))
      == h[e.device := WithClient(On(h, e.device), TrimSpace(e.staticIp), e.rx, e.tx, e.classId)]
  {
    var ip := TrimSpace(e.staticIp);
    PlanIgnoresBlanks(e.device, e.staticIp, e.rx, e.tx, e.classId);
    PlanCommands(e.device, ip, e.rx, e.tx, e.classId);
    ForwardEffect(h, e.device, ip, e.rx, e.tx, e.classId);
  }

  // ---- one record comes or goes ----

  function Dropped(s: State, k: Key): State
    requires k in s.entries
  {
    var e := s.entries[k];
    s.(entries := s.entries - {k},
       host := s.host[e.device := WithoutClient(On(s.host, e.device), e.rx, e.tx, e.classId)])
  }

  function Installed(s: State, k: Key, e: Applied): State {
    s.(entries := s.entries[k := e],
       host := s.host[e.device := WithClient(On(s.host, e.device), TrimSpace(e.staticIp), e.rx, e.tx, e.classId)])
  }

  /** Two device states show the same under one id. */
  ghost predicate SameAt(d1: DevState, d2: DevState, id: nat) {
    && (id in d1.classes <==> id in d2.classes) && (id in d1.classes ==> d1.classes[id] == d2.classes[id])
    && (id in d1.egress <==> id in d2.egress) && (id in d1.egress ==> d1.egress[id] == d2.egress[id])
    && (10000 + id in d1.police <==> 10000 + id in d2.police)
    && (10000 + id in d1.police ==> d1.police[10000 + id] == d2.police[10000 + id])
  }

  /** A slot keeps agreeing when neither its holders nor what the host shows there change. */
  lemma SlotFrame(entries: map<Key, Applied>, h: Host, entries': map<Key, Applied>, h': Host, dev: string, id: nat)
    requires SlotAgrees(entries, h, dev, id)
    requires SameAt(On(h, dev), On(h', dev), id)
    requires forall k :: Holds(entries, k, dev, id) <==> Holds(entries', k, dev, id)
    requires forall k :: Holds(entries, k, dev, id) ==> k in entries' && entries[k] == entries'[k]
    ensures SlotAgrees(entries', h', dev, id)
  {
  }

  lemma DropSlot(s: State, k: Key, dev: string, id: nat)
    requires Consistent(s) && k in s.entries
    ensures SlotAgrees(Dropped(s, k).entries, Dropped(s, k).host, dev, id)
  {
    var t, e := Dropped(s, k), s.entries[k];
    assert SlotAgrees(s.entries, s.host, dev, id);
    if dev == e.device && id == e.classId {
      assert Holds(s.entries, k, dev, id);
      assert forall j :: Holds(t.entries, j, dev, id) ==> Holds(s.entries, j, dev, id);
    } else {
      assert SameAt(On(s.host, dev), On(t.host, dev), id);
      assert forall j :: Holds(t.entries, j, dev, id) <==> Holds(s.entries, j, dev, id);
      SlotFrame(s.entries, s.host, t.entries, t.host, dev, id);
    }
  }

  /** Dropping a client leaves every other client's class and filters as they were. */
  lemma DropKeeps(s: State, k: Key)
    requires Consistent(s) && k in s.entries
    ensures Consistent(Dropped(s, k))
  {
    var t := Dropped(s, k);
    forall dev, id: nat ensures SlotAgrees(t.entries, t.host, dev, id) { DropSlot(s, k, dev, id); }
    assert forall j, dev, id :: Holds(t.entries, j, dev, id) ==> Holds(s.entries, j, dev, id);
    forall dev, p | p in On(t.host, dev).police ensures p >= 10000 { assert p in On(s.host, dev).police; }
  }

  ghost predicate FreeId(entries: map<Key, Applied>, dev: string, id: nat) {
    forall k :: !Holds(entries, k, dev, id)
  }

  lemma InstallSlot(s: State, k: Key, e: Applied, dev: string, id: nat)
    requires Consistent(s) && k !in s.entries && FreeId(s.entries, e.device, e.classId)
    ensures SlotAgrees(Installed(s, k, e).entries, Installed(s, k, e).host, dev, id)
  {
    var t := Installed(s, k, e);
    assert SlotAgrees(s.entries, s.host, dev, id);
    if dev == e.device && id == e.classId {
      assert Holds(t.entries, k, dev, id);
      assert forall j :: Holds(t.entries, j, dev, id) && j != k ==> Holds(s.entries, j, dev, id);
      assert Shows(On(t.host, dev), e);
    } else {
      assert SameAt(On(s.host, dev), On(t.host, dev), id);
      assert forall j :: Holds(t.entries, j, dev, id) <==> Holds(s.entries, j, dev, id);
      SlotFrame(s.entries, s.host, t.entries, t.host, dev, id);
    }
  }

  /** A new client under a free id disturbs nobody. */
  lemma InstallKeeps(s: State, k: Key, e: Applied)
    requires Consistent(s) && k !in s.entries && FreeId(s.entries, e.device, e.classId)
    ensures Consistent(Installed(s, k, e))
  {
    var t := Installed(s, k, e);
    forall dev, id: nat ensures SlotAgrees(t.entries, t.host, dev, id) { InstallSlot(s, k, e, dev, id); }
    assert forall j, dev, id :: Holds(t.entries, j, dev, id) && j != k ==> Holds(s.entries, j, dev, id);
    forall dev, p | p in On(t.host, dev).police ensures p >= 10000 {
      assert p in On(s.host, dev).police || p == 10000 + e.classId;
    }
  }

  // ---- the steps, when tc works ----

  lemma RemoveClean(s: State, env: Env, k: Key)
    requires Clean(env) && k in s.entries && Recorded(s.entries[k])
    ensures var t := Remove(s, Tc, env, k);
      t == Dropped(s, k).(issued := s.issued + Undo(s.entries[k].rules))
  {
    AcceptedRun(s.(entries := s.entries - {k}), env, Undo(s.entries[k].rules), true);
    UndoRecord(s.host, s.entries[k]);
  }

  /** Two states that differ at most in the commands issued. */
  predicate Alike(s: State, t: State) {
    s.entries == t.entries && s.host == t.host && s.handed == t.handed && s.nextCls == t.nextCls
  }

  lemma CoreAlike(s: State, t: State, devOf: string -> string)
    requires Core(s, devOf) && Alike(s, t)
    ensures Core(t, devOf)
  {
  }

  lemma CoreDrop(s: State, k: Key, devOf: string -> string)
    requires Core(s, devOf) && k in s.entries
    ensures Core(Dropped(s, k), devOf)
  {
    DropKeeps(s, k);
  }

  lemma CoreInstall(s: State, k: Key, e: Applied, devOf: string -> string)
    requires Core(s, devOf) && k !in s.entries && FreeId(s.entries, e.device, e.classId)
    requires e.device == devOf(k.inst) && e.classId < FIRST_CLASS + Handed(s, e.device)
    ensures Core(Installed(s, k, e), devOf)
  {
    InstallKeeps(s, k, e);
  }

  lemma RemoveKeepsInv(s: State, env: Env, k: Key, devOf: string -> string)
    requires Clean(env) && Inv(s, devOf)
    ensures var t := Remove(s, Tc, env, k);
      Inv(t, devOf) && t.entries == s.entries - {k} && t.handed == s.handed
  {
    if k in s.entries {
      RemoveClean(s, env, k);
      CoreDrop(s, k, devOf);
      CoreAlike(Dropped(s, k), Remove(s, Tc, env, k), devOf);
      FewerRecords(s.entries, s.entries - {k});
    }
  }

  lemma FewerRecords(entries: map<Key, Applied>, entries': map<Key, Applied>)
    requires forall k :: k in entries' ==> k in entries && entries[k] == entries'[k]
    ensures AllRecorded(entries) ==> AllRecorded(entries')
  {
  }

  lemma OneMoreRecord(entries: map<Key, Applied>, k: Key, e: Applied)
    requires AllRecorded(entries) && Recorded(e)
    ensures AllRecorded(entries[k := e])
  {
  }

  /** The id handed out next: the ids cycle through 10..9000. */
  lemma AllocGives(s: State, dev: string)
    requires AllocOk(s)
    ensures NextId(s.nextCls, dev) == FIRST_CLASS + Handed(s, dev) % CLASS_COUNT
    ensures AllocOk(Alloc(s, dev)) && Handed(Alloc(s, dev), dev) == Handed(s, dev) + 1
    ensures forall d :: d != dev ==> Handed(Alloc(s, dev), d) == Handed(s, d)
  {
    var t, n := Alloc(s, dev), Handed(s, dev);
    assert t.nextCls[dev] == FIRST_CLASS + (n + 1) % CLASS_COUNT by { CycleStep(n); }
  }

  lemma CycleStep(n: nat)
    ensures (n + 1) % CLASS_COUNT == if n % CLASS_COUNT + 1 == CLASS_COUNT then 0 else n % CLASS_COUNT + 1
  {
  }

  /** Within the id budget a new id is free on its device. */
  lemma AllocIsFree(s: State, dev: string)
    requires AllocOk(s) && Handed(s, dev) < CLASS_COUNT
    ensures FreeId(s.entries, dev, NextId(s.nextCls, dev))
    ensures FIRST_CLASS <= NextId(s.nextCls, dev) <= LAST_CLASS
  {
    AllocGives(s, dev);
  }

  ghost predicate Matches(s: State, k: Key, c: Limit, device: string) {
    k in s.entries && SameLimit(s.entries[k], c, device)
  }

  /** The record Replace writes under id `id`. */
  function RecordOf(c: Limit, device: string, id: nat): Applied {
    Applied(c.staticIp, c.rx, c.tx, id, device, Plan(device, c.staticIp, c.rx, c.tx, id))
  }

  lemma UndoStep(s: State, env: Env, e: Applied)
    requires Clean(env) && Recorded(e)
    ensures RunRules(s, Tc, env, Undo(e.rules), true)
      == Outcome(s.(host := s.host[e.device := WithoutClient(On(s.host, e.device), e.rx, e.tx, e.classId)],
                    issued := s.issued + Undo(e.rules)), true)
  {
    AcceptedRun(s, env, Undo(e.rules), true);
    UndoRecord(s.host, e);
  }

  lemma ForwardStep(s: State, env: Env, e: Applied)
    requires Clean(env) && Recorded(e)
    ensures e.rules != []
    ensures RunRules(s, Tc, env, Forward(e.rules), false)
      == Outcome(s.(host := s.host[e.device := WithClient(On(s.host, e.device), TrimSpace(e.staticIp), e.rx, e.tx, e.classId)],
                    issued := s.issued + Forward(e.rules)), true)
  {
    AcceptedRun(s, env, Forward(e.rules), false);
    ApplyRecord(s.host, e);
  }

  lemma ReplaceExisting(s: State, env: Env, k: Key, device: string, c: Limit)
    requires Clean(env) && k in s.entries && Recorded(s.entries[k])
    requires Recorded(RecordOf(c, device, s.entries[k].classId))
    ensures Alike(Installed(Dropped(s, k), k, RecordOf(c, device, s.entries[k].classId)), Replace(s, Tc, env, k, device, c).s)
  {
    var s1 := RunRules(s, Tc, env, Undo(s.entries[k].rules), true).s;
    UndoStep(s, env, s.entries[k]);
    InstalledSame(s, s1, k, RecordOf(c, device, s.entries[k].classId));
    ReplaceGoesOn(s, s1, env, k, device, c);
  }

  lemma InstalledSame(s: State, s1: State, k: Key, e: Applied)
    requires k in s.entries && s1.entries == s.entries && s1.host == Dropped(s, k).host
    requires s1.handed == s.handed && s1.nextCls == s.nextCls
    ensures Alike(Installed(Dropped(s, k), k, e), Installed(s1, k, e))
  {
    assert (s.entries - {k})[k := e] == s.entries[k := e];
  }

  /** Replace after its undo run has left `s1`. */
  lemma ReplaceGoesOn(s: State, s1: State, env: Env, k: Key, device: string, c: Limit)
    requires Clean(env) && k in s.entries && s1 == RunRules(s, Tc, env, Undo(s.entries[k].rules), true).s
    requires Recorded(RecordOf(c, device, s.entries[k].classId)) && s1.entries == s.entries
    ensures Alike(Installed(s1, k, RecordOf(c, device, s.entries[k].classId)), Replace(s, Tc, env, k, device, c).s)
  {
    ForwardStep(s1, env, RecordOf(c, device, s.entries[k].classId));
  }

  lemma ReplaceNew(s: State, env: Env, k: Key, device: string, c: Limit)
    requires Clean(env) && k !in s.entries && Recorded(RecordOf(c, device, NextId(s.nextCls, device)))
    ensures Alike(Installed(Alloc(s, device), k, RecordOf(c, device, NextId(s.nextCls, device))), Replace(s, Tc, env, k, device, c).s)
  {
    ForwardStep(Alloc(s, device), env, RecordOf(c, device, NextId(s.nextCls, device)));
  }

  lemma FreedId(s: State, k: Key)
    requires Consistent(s) && k in s.entries
    ensures FreeId(Dropped(s, k).entries, s.entries[k].device, s.entries[k].classId)
  {
    var e := s.entries[k];
    assert Holds(s.entries, k, e.device, e.classId);
    assert forall j :: Holds(Dropped(s, k).entries, j, e.device, e.classId) ==> Holds(s.entries, j, e.device, e.classId);
  }

  lemma CoreReinstall(s: State, k: Key, e: Applied, devOf: string -> string)
    requires Core(s, devOf) && k in s.entries && e.classId == s.entries[k].classId && e.device == s.entries[k].device
    ensures Core(Installed(Dropped(s, k), k, e), devOf)
  {
    CoreDrop(s, k, devOf);
    FreedId(s, k);
    CoreInstall(Dropped(s, k), k, e, devOf);
  }

  lemma CoreReplaced(s: State, t: State, k: Key, e: Applied, devOf: string -> string)
    requires Core(s, devOf) && k in s.entries && e.classId == s.entries[k].classId && e.device == devOf(k.inst)
    requires Alike(Installed(Dropped(s, k), k, e), t)
    ensures Core(t, devOf)
  {
    assert s.entries[k].device == devOf(k.inst);
    CoreReinstall(s, k, e, devOf);
    CoreAlike(Installed(Dropped(s, k), k, e), t, devOf);
  }

  lemma InvReplaced(s: State, t: State, k: Key, e: Applied, devOf: string -> string)
    requires Inv(s, devOf) && k in s.entries && e.classId == s.entries[k].classId && e.device == devOf(k.inst)
    requires Recorded(e) && Alike(Installed(Dropped(s, k), k, e), t)
    ensures Inv(t, devOf) && t.entries == s.entries[k := e] && t.handed == s.handed
  {
    CoreReplaced(s, t, k, e, devOf);
    assert (s.entries - {k})[k := e] == s.entries[k := e];
    OneMoreRecord(s.entries, k, e);
  }

  lemma CoreAlloc(s: State, dev: string, devOf: string -> string)
    requires Core(s, devOf) && Handed(s, dev) < CLASS_COUNT
    ensures Core(Alloc(s, dev), devOf)
    ensures NextId(s.nextCls, dev) < FIRST_CLASS + Handed(Alloc(s, dev), dev)
  {
    AllocGives(s, dev);
  }

  lemma InvAdded(s: State, t: State, k: Key, e: Applied, devOf: string -> string)
    requires Inv(s, devOf) && k !in s.entries && e.classId == NextId(s.nextCls, e.device) && e.device == devOf(k.inst)
    requires Recorded(e) && Alike(Installed(Alloc(s, e.device), k, e), t) && Handed(s, e.device) < CLASS_COUNT
    ensures Inv(t, devOf) && t.entries == s.entries[k := e] && t.handed == Alloc(s, e.device).handed
  {
    var s1 := Alloc(s, e.device);
    AllocIsFree(s, e.device);
    CoreAlloc(s, e.device, devOf);
    CoreInstall(s1, k, e, devOf);
    CoreAlike(Installed(s1, k, e), t, devOf);
    OneMoreRecord(s.entries, k, e);
  }

  /** The record a clean Replace leaves for `k`. */
  function NewRecord(s: State, k: Key, device: string, c: Limit): Applied {
    RecordOf(c, device, if k in s.entries then s.entries[k].classId else NextId(s.nextCls, device))
  }

  lemma NewRecordOk(s: State, k: Key, device: string, c: Limit)
    requires AllRecorded(s.entries) && AllocOk(s) && (k in s.entries || Handed(s, device) < CLASS_COUNT)
    requires Plannable(device, TrimSpace(c.staticIp), c.rx, c.tx)
    ensures Recorded(NewRecord(s, k, device, c))
  {
    if k in s.entries {
      assert Recorded(s.entries[k]);
    } else {
      AllocIsFree(s, device);
    }
  }

  lemma ReplaceKeepsInv(s: State, t: State, env: Env, k: Key, device: string, c: Limit, devOf: string -> string)
    requires Clean(env) && Inv(s, devOf) && device == devOf(k.inst)
    requires Plannable(device, TrimSpace(c.staticIp), c.rx, c.tx)
    requires k in s.entries || Handed(s, device) < CLASS_COUNT
    requires t == Replace(s, Tc, env, k, device, c).s
    ensures Inv(t, devOf) && t.entries == s.entries[k := NewRecord(s, k, device, c)]
    ensures forall d :: Handed(s, d) <= Handed(t, d)
  {
    NewRecordOk(s, k, device, c);
    var e := NewRecord(s, k, device, c);
    if k in s.entries {
      assert Recorded(s.entries[k]);
      ReplaceExisting(s, env, k, device, c);
      InvReplaced(s, t, k, e, devOf);
    } else {
      ReplaceNew(s, env, k, device, c);
      InvAdded(s, t, k, e, devOf);
    }
  }

  /** The records after a clean Apply: `k` has the wanted limit, the others are untouched. */
  ghost predicate RecordsLimit(s: State, t: State, k: Key, c: Limit, device: string) {
    Matches(t, k, c, device) && t.entries - {k} == s.entries - {k} && forall d :: Handed(s, d) <= Handed(t, d)
  }

  /** A clean Apply of a shapeable client keeps all that Inv says. */
  lemma ApplyKeepsInv(s: State, t: State, env: Env, inst: string, device: string, c: Limit, devOf: string -> string)
    requires Clean(env) && Inv(s, devOf)
    requires TrimSpace(device) == device == devOf(inst) && device != ""
    requires NeedsShaping(c.staticIp, c.rx, c.tx) && Addresses.ParseIp(TrimSpace(c.staticIp)).Some?
    requires t == Apply(s, Tc, env, inst, device, c).s
    requires Key(inst, c.cn) in s.entries || Handed(s, device) < CLASS_COUNT
    ensures Inv(t, devOf) && RecordsLimit(s, t, Key(inst, c.cn), c, device)
  {
    var k := Key(inst, c.cn);
    ApplyIs(s, env, inst, device, c);
    if !Matches(s, k, c, device) { ReplaceRecords(s, t, env, k, device, c, devOf); }
  }

  lemma ReplaceRecords(s: State, t: State, env: Env, k: Key, device: string, c: Limit, devOf: string -> string)
    requires Clean(env) && Inv(s, devOf) && TrimSpace(device) == device == devOf(k.inst) && device != ""
    requires NeedsShaping(c.staticIp, c.rx, c.tx) && Addresses.ParseIp(TrimSpace(c.staticIp)).Some?
    requires t == Replace(s, Tc, env, k, device, c).s && (k in s.entries || Handed(s, device) < CLASS_COUNT)
    ensures Inv(t, devOf) && RecordsLimit(s, t, k, c, device)
  {
    ShapeableIsPlannable(device, c);
    ReplaceKeepsInv(s, t, env, k, device, c, devOf);
    OtherRecordsStay(s.entries, k, NewRecord(s, k, device, c));
  }

  lemma ShapeableIsPlannable(device: string, c: Limit)
    requires TrimSpace(device) == device != "" && NeedsShaping(c.staticIp, c.rx, c.tx)
    requires Addresses.ParseIp(TrimSpace(c.staticIp)).Some?
    ensures Plannable(device, TrimSpace(c.staticIp), c.rx, c.tx)
  {
    TrimTwice(c.staticIp);
  }

  lemma OtherRecordsStay(entries: map<Key, Applied>, k: Key, e: Applied)
    ensures entries[k := e] - {k} == entries - {k}
  {
  }

  /** Apply for a client that needs shaping: nothing, or a replacement. */
  lemma ApplyIs(s: State, env: Env, inst: string, device: string, c: Limit)
    requires TrimSpace(device) == device != "" && NeedsShaping(c.staticIp, c.rx, c.tx)
    ensures var k := Key(inst, c.cn);
      Apply(s, Tc, env, inst, device, c).s == if Matches(s, k, c, device) then s else Replace(s, Tc, env, k, device, c).s
  {
  }

  // ---- Sync ----

  predicate Among(k: Key, inst: string, cns: seq<string>) { k.inst == inst && k.cn in cns }

  ghost predicate Untouched(s: State, t: State, k: Key) {
    (k in s.entries <==> k in t.entries) && (k in s.entries ==> s.entries[k] == t.entries[k])
  }

  lemma {:induction false} RemovesKeepInv(s: State, t: State, env: Env, inst: string, cns: seq<string>, devOf: string -> string)
    requires Clean(env) && Inv(s, devOf) && t == RemoveAll(s, Tc, env, inst, cns)
    ensures Inv(t, devOf) && t.handed == s.handed
    ensures forall k :: if Among(k, inst, cns) then k !in t.entries else Untouched(s, t, k)
    decreases |cns|
  {
    if cns != [] {
      var u := Remove(s, Tc, env, Key(inst, cns[0]));
      RemoveKeepsInv(s, env, Key(inst, cns[0]), devOf);
      RemovesKeepInv(u, t, env, inst, cns[1..], devOf);
      RemoveOneMore(s, u, t, inst, cns);
    }
  }

  lemma RemoveOneMore(s: State, u: State, t: State, inst: string, cns: seq<string>)
    requires cns != [] && u.entries == s.entries - {Key(inst, cns[0])}
    requires forall k :: if Among(k, inst, cns[1..]) then k !in t.entries else Untouched(u, t, k)
    ensures forall k :: if Among(k, inst, cns) then k !in t.entries else Untouched(s, t, k)
  {
    assert cns == [cns[0]] + cns[1..];
    forall k
      ensures if Among(k, inst, cns) then k !in t.entries else Untouched(s, t, k)
    {
      assert Among(k, inst, cns) <==> Among(k, inst, cns[1..]) || k == Key(inst, cns[0]);
      assert Among(k, inst, cns[1..]) || Untouched(u, t, k);
    }
  }

  /** What a desired limit looks like, and when its address parses. */
  ghost predicate Wanted(cn: string, c: Limit) {
    c.cn == cn && NeedsShaping(c.staticIp, c.rx, c.tx) && Addresses.ParseIp(TrimSpace(c.staticIp)).Some?
  }

  ghost predicate AddressesParse(clients: seq<Limit>) {
    forall c :: c in clients && NeedsShaping(c.staticIp, c.rx, c.tx) ==> Addresses.ParseIp(TrimSpace(c.staticIp)).Some?
  }

  lemma {:induction false} DesiredIsWanted(clients: seq<Limit>)
    requires AddressesParse(clients)
    ensures forall cn :: cn in Desired(clients) ==> Wanted(cn, Desired(clients)[cn])
  {
    if clients != [] {
      DesiredIsWanted(clients[..|clients| - 1]);
      var c := clients[|clients| - 1];
      assert c in clients;
      TrimTwice(c.staticIp);
    }
  }

  lemma AppliedId(s: State, t: State, env: Env, inst: string, device: string, c: Limit)
    requires Clean(env) && TrimSpace(device) == device && device != ""
    requires NeedsShaping(c.staticIp, c.rx, c.tx) && t == Apply(s, Tc, env, inst, device, c).s
    ensures forall d :: Handed(s, d) <= Handed(t, d)
    ensures Key(inst, c.cn) !in s.entries ==> Handed(t, device) == Handed(s, device) + 1
  {
    var k := Key(inst, c.cn);
    if !Matches(s, k, c, device) {
      var s1 := if k in s.entries then s else Alloc(s, device);
      if k in s.entries { AcceptedRun(s1, env, Undo(s.entries[k].rules), true); }
      var s2 := if k in s.entries then RunRules(s1, Tc, env, Undo(s.entries[k].rules), true).s else s1;
      var id := if k in s.entries then s.entries[k].classId else NextId(s.nextCls, device);
      AcceptedRun(s2, env, Forward(Plan(device, c.staticIp, c.rx, c.tx, id)), false);
    }
  }

  lemma {:induction false} AppliesHandMore(s: State, env: Env, inst: string, device: string, desired: map<string, Limit>, cns: seq<string>)
    requires Clean(env) && TrimSpace(device) == device && device != ""
    requires forall cn :: cn in cns ==> cn in desired && Wanted(cn, desired[cn])
    ensures forall d :: Handed(s, d) <= Handed(ApplyAll(s, Tc, env, inst, device, desired, cns), d)
    decreases |cns|
  {
    if cns != [] {
      var u := Apply(s, Tc, env, inst, device, desired[cns[0]]).s;
      AppliedId(s, u, env, inst, device, desired[cns[0]]);
      AppliesHandMore(u, env, inst, device, desired, cns[1..]);
    }
  }

  lemma {:induction false} AppliesKeepInv(s: State, t: State, env: Env, inst: string, device: string, desired: map<string, Limit>, cns: seq<string>, devOf: string -> string)
    requires Clean(env) && Inv(s, devOf)
    requires TrimSpace(device) == device == devOf(inst) && device != ""
    requires forall cn :: cn in cns ==> cn in desired && Wanted(cn, desired[cn])
    requires t == ApplyAll(s, Tc, env, inst, device, desired, cns) && WithinIds(t)
    ensures Inv(t, devOf)
    ensures forall cn :: cn in cns ==> Matches(t, Key(inst, cn), desired[cn], device)
    ensures forall k :: !Among(k, inst, cns) ==> Untouched(s, t, k)
    decreases |cns|
  {
    if cns != [] {
      var c := desired[cns[0]];
      var u := Apply(s, Tc, env, inst, device, c).s;
      AppliedId(s, u, env, inst, device, c);
      AppliesHandMore(u, env, inst, device, desired, cns[1..]);
      assert Handed(t, device) <= CLASS_COUNT;
      ApplyKeepsInv(s, u, env, inst, device, c, devOf);
      AppliesKeepInv(u, t, env, inst, device, desired, cns[1..], devOf);
      ApplyOneMore(s, u, t, inst, device, desired, cns);
    }
  }

  /** Bookkeeping of the records for one turn of Sync's apply loop. */
  lemma ApplyOneMore(s: State, u: State, t: State, inst: string, device: string, desired: map<string, Limit>, cns: seq<string>)
    requires cns != [] && forall cn :: cn in cns ==> cn in desired && Wanted(cn, desired[cn])
    requires RecordsLimit(s, u, Key(inst, cns[0]), desired[cns[0]], device)
    requires forall cn :: cn in cns[1..] ==> Matches(t, Key(inst, cn), desired[cn], device)
    requires forall k :: !Among(k, inst, cns[1..]) ==> Untouched(u, t, k)
    ensures forall cn :: cn in cns ==> Matches(t, Key(inst, cn), desired[cn], device)
    ensures forall k :: !Among(k, inst, cns) ==> Untouched(s, t, k)
  {
    var k0 := Key(inst, cns[0]);
    assert cns == [cns[0]] + cns[1..];
    if !Among(k0, inst, cns[1..]) { assert Untouched(u, t, k0); }
    forall k | !Among(k, inst, cns) ensures Untouched(s, t, k) {
      assert Untouched(u, t, k);
      assert k != k0;
      assert k in s.entries <==> k in s.entries - {k0};
      assert k in u.entries <==> k in u.entries - {k0};
      if k in s.entries { assert (s.entries - {k0})[k] == (u.entries - {k0})[k]; }
    }
  }

  lemma {:induction false} MatchedAppliesDoNothing(s: State, env: Env, inst: string, device: string, desired: map<string, Limit>, cns: seq<string>)
    requires TrimSpace(device) == device && device != ""
    requires forall cn :: cn in cns ==> cn in desired && Wanted(cn, desired[cn]) && Matches(s, Key(inst, cn), desired[cn], device)
    ensures ApplyAll(s, Tc, env, inst, device, desired, cns) == s
    decreases |cns|
  {
    if cns != [] {
      assert Apply(s, Tc, env, inst, device, desired[cns[0]]).s == s;
      MatchedAppliesDoNothing(s, env, inst, device, desired, cns[1..]);
    }
  }

  /** The records of an instance are exactly the desired limits. */
  ghost predicate Synced(s: State, inst: string, device: string, desired: map<string, Limit>) {
    Names(s, inst) == desired.Keys && forall cn :: cn in desired ==> Matches(s, Key(inst, cn), desired[cn], device)
  }

  lemma SyncedIsStable(s: State, env: Env, inst: string, device: string, clients: seq<Limit>)
    requires AddressesParse(clients) && (TrimSpace(device) != "" || Desired(clients) == map[])
    requires Synced(s, inst, TrimSpace(device), Desired(clients))
    ensures Sync(s, Tc, env, inst, device, clients) == s
  {
    var desired := Desired(clients);
    DesiredIsWanted(clients);
    TrimTwice(device);
    assert Names(s, inst) - desired.Keys == {};
    if desired == map[] {
      assert SortedKeys(desired.Keys) == [];
    } else {
      MatchedAppliesDoNothing(s, env, inst, TrimSpace(device), desired, SortedKeys(desired.Keys));
    }
  }

  /** The state after Sync's removals. */
  function Pruned(s: State, env: Env, inst: string, desired: map<string, Limit>): State {
    RemoveAll(s, Tc, env, inst, SortedKeys(Names(s, inst) - desired.Keys))
  }

  lemma PrunedKeepsInv(s: State, u: State, env: Env, inst: string, desired: map<string, Limit>, devOf: string -> string)
    requires Clean(env) && Inv(s, devOf) && u == Pruned(s, env, inst, desired)
    ensures Inv(u, devOf) && Names(u, inst) <= desired.Keys
    ensures forall k: Key :: k.inst != inst ==> Untouched(s, u, k)
  {
    var gone := SortedKeys(Names(s, inst) - desired.Keys);
    RemovesKeepInv(s, u, env, inst, gone, devOf);
    forall cn | cn in Names(u, inst) ensures cn in desired {
      var k := Key(inst, cn);
      assert !Among(k, inst, gone) ==> Untouched(s, u, k);
      assert cn in Names(s, inst) <==> k in s.entries;
    }
    forall k: Key | k.inst != inst ensures Untouched(s, u, k) { assert !Among(k, inst, gone); }
  }

  lemma NamesAfterSync(u: State, t: State, inst: string, dev: string, desired: map<string, Limit>, cns: seq<string>)
    requires Names(u, inst) <= desired.Keys && forall cn :: cn in cns <==> cn in desired
    requires forall cn :: cn in cns ==> Matches(t, Key(inst, cn), desired[cn], dev)
    requires forall k :: !Among(k, inst, cns) ==> Untouched(u, t, k)
    ensures Synced(t, inst, dev, desired)
  {
    forall cn | cn in Names(t, inst) ensures cn in desired {
      var k := Key(inst, cn);
      assert Among(k, inst, cns) || Untouched(u, t, k);
      assert k in u.entries ==> cn in Names(u, inst);
    }
    forall cn | cn in desired ensures cn in Names(t, inst) {
      assert Matches(t, Key(inst, cn), desired[cn], dev);
    }
  }

  lemma SyncSteps(s: State, t: State, env: Env, inst: string, device: string, clients: seq<Limit>)
    requires TrimSpace(device) == device && t == Sync(s, Tc, env, inst, device, clients)
    ensures var desired := Desired(clients);
      var u := Pruned(s, env, inst, desired);
      && (device != "" ==> t == ApplyAll(u, Tc, env, inst, device, desired, SortedKeys(desired.Keys)))
      && (device == "" ==> t == u)
  {
    assert SortedKeys({}) == [];
  }

  /** A clean Sync keeps all that Inv says and leaves other instances alone. */
  lemma SyncKeepsInv(s: State, t: State, env: Env, inst: string, device: string, clients: seq<Limit>, devOf: string -> string)
    requires Clean(env) && Inv(s, devOf) && AddressesParse(clients)
    requires TrimSpace(device) == device == devOf(inst)
    requires t == Sync(s, Tc, env, inst, device, clients) && WithinIds(t)
    ensures Inv(t, devOf)
    ensures forall k: Key :: k.inst != inst ==> Untouched(s, t, k)
    ensures device != "" || Desired(clients) == map[] ==> Synced(t, inst, device, Desired(clients))
  {
    var desired := Desired(clients);
    var u, cns := Pruned(s, env, inst, desired), SortedKeys(desired.Keys);
    SyncSteps(s, t, env, inst, device, clients);
    PrunedKeepsInv(s, u, env, inst, desired, devOf);
    if device != "" {
      DesiredIsWanted(clients);
      AppliesKeepInv(u, t, env, inst, device, desired, cns, devOf);
      NamesAfterSync(u, t, inst, device, desired, cns);
      forall k: Key | k.inst != inst ensures Untouched(s, t, k) {
        assert !Among(k, inst, cns) && Untouched(u, t, k) && Untouched(s, u, k);
      }
    }
  }

  /** After a Sync the records of the instance are the desired limits, on its device, and
      repeating the Sync issues no command and changes nothing. */
  lemma SyncReaches(s: State, env: Env, inst: string, device: string, clients: seq<Limit>, devOf: string -> string)
    requires Clean(env) && Inv(s, devOf) && AddressesParse(clients)
    requires TrimSpace(device) == device == devOf(inst) && (device != "" || Desired(clients) == map[])
    requires WithinIds(Sync(s, Tc, env, inst, device, clients))
    ensures var t := Sync(s, Tc, env, inst, device, clients);
      Inv(t, devOf) && Synced(t, inst, device, Desired(clients)) && Sync(t, Tc, env, inst, device, clients) == t
  {
    var t := Sync(s, Tc, env, inst, device, clients);
    SyncKeepsInv(s, t, env, inst, device, clients, devOf);
    SyncedIsStable(t, env, inst, device, clients);
  }

  // ---- runs ----

  datatype Op =
    | SyncOp(inst: string, device: string, clients: seq<Limit>)
    | ApplyOp(inst: string, device: string, limit: Limit)
    | RemoveOp(inst: string, cn: string)
    | ClearOp(inst: string)

  function Step(s: State, env: Env, op: Op): State {
    match op
    case SyncOp(inst, device, clients) => Sync(s, Tc, env, inst, device, clients)
    case ApplyOp(inst, device, c) => Apply(s, Tc, env, inst, device, c).s
    case RemoveOp(inst, cn) => Remove(s, Tc, env, Key(inst, cn))
    case ClearOp(inst) => ClearInstance(s, Tc, env, inst)
  }

  function Run(s: State, env: Env, ops: seq<Op>): State
    decreases |ops|
  {
    if ops == [] then s else Step(Run(s, env, ops[..|ops| - 1]), env, ops[|ops| - 1])
  }

  /** The device of an instance stays fixed, and addresses that matter parse. */
  ghost predicate GoodOp(op: Op, devOf: string -> string) {
    match op
    case SyncOp(inst, device, clients) => TrimSpace(device) == devOf(inst) && AddressesParse(clients)
    case ApplyOp(inst, device, c) => TrimSpace(device) == devOf(inst) && AddressesParse([c])
    case _ => true
  }

  lemma SyncTrims(s: State, env: Env, inst: string, device: string, clients: seq<Limit>)
    ensures Sync(s, Tc, env, inst, device, clients) == Sync(s, Tc, env, inst, TrimSpace(device), clients)
  {
    TrimTwice(device);
  }

  lemma ApplyTrims(s: State, env: Env, inst: string, device: string, c: Limit)
    ensures Apply(s, Tc, env, inst, device, c) == Apply(s, Tc, env, inst, TrimSpace(device), c)
  {
    TrimTwice(device);
  }

  lemma ApplyOpKeepsInv(s: State, t: State, env: Env, inst: string, device0: string, c: Limit, devOf: string -> string)
    requires Clean(env) && Inv(s, devOf) && GoodOp(ApplyOp(inst, device0, c), devOf)
    requires t == Apply(s, Tc, env, inst, device0, c).s && WithinIds(t)
    ensures Inv(t, devOf)
  {
    var device := TrimSpace(device0);
    TrimTwice(device0);
    ApplyTrims(s, env, inst, device0, c);
    if NeedsShaping(c.staticIp, c.rx, c.tx) {
      if device != "" {
        assert c in [c];
        AppliedId(s, t, env, inst, device, c);
        assert Handed(t, device) <= CLASS_COUNT;
        ApplyKeepsInv(s, t, env, inst, device, c, devOf);
      }
    } else {
      RemoveKeepsInv(s, env, Key(inst, c.cn), devOf);
    }
  }

  lemma StepKeepsInv(s: State, t: State, env: Env, op: Op, devOf: string -> string)
    requires Clean(env) && Inv(s, devOf) && GoodOp(op, devOf) && t == Step(s, env, op) && WithinIds(t)
    ensures Inv(t, devOf)
  {
    match op
    case SyncOp(inst, device, clients) =>
      SyncTrims(s, env, inst, device, clients);
      TrimTwice(device);
      SyncKeepsInv(s, t, env, inst, TrimSpace(device), clients, devOf);
    case ApplyOp(inst, device, c) => ApplyOpKeepsInv(s, t, env, inst, device, c, devOf);
    case RemoveOp(inst, cn) => RemoveKeepsInv(s, env, Key(inst, cn), devOf);
    case ClearOp(inst) => RemovesKeepInv(s, t, env, inst, SortedKeys(Names(s, inst)), devOf);
  }

  lemma StartInv(devOf: string -> string)
    ensures Inv(START, devOf)
  {
    forall dev, id: nat ensures SlotAgrees(START.entries, START.host, dev, id) {}
  }

  /** Over every run from an empty host, while devices stay fixed, addresses parse, tc works and
      no device has been asked for more than 8991 ids at any point: the classes and filters on the
      host are exactly those of the records, and live clients of a device have distinct class ids
      in 10..9000 (so ingress prios in 10010..19000). */
  lemma {:induction false} EveryRunAgrees(env: Env, ops: seq<Op>, devOf: string -> string)
    requires Clean(env)
    requires forall i :: 0 <= i < |ops| ==> GoodOp(ops[i], devOf)
    requires forall i :: 0 <= i <= |ops| ==> WithinIds(Run(START, env, ops[..i]))
    ensures var s := Run(START, env, ops);
      && Inv(s, devOf) && Agrees(s.entries, s.host) && DistinctIds(s.entries)
      && forall k :: k in s.entries ==> FIRST_CLASS <= s.entries[k].classId <= LAST_CLASS
  {
    if ops == [] {
      StartInv(devOf);
    } else {
      var prev := ops[..|ops| - 1];
      assert forall i :: 0 <= i <= |prev| ==> prev[..i] == ops[..i];
      EveryRunAgrees(env, prev, devOf);
      assert ops[..|ops|] == ops;
      StepKeepsInv(Run(START, env, prev), Run(START, env, ops), env, ops[|ops| - 1], devOf);
      RecordedIds(Run(START, env, ops));
    }
  }

  lemma RecordedIds(s: State)
    requires AllRecorded(s.entries)
    ensures forall k :: k in s.entries ==> FIRST_CLASS <= s.entries[k].classId <= LAST_CLASS
  {
    forall k | k in s.entries ensures FIRST_CLASS <= s.entries[k].classId <= LAST_CLASS {
      assert Recorded(s.entries[k]);
    }
  }

  /** Removing one client never deletes another's class or filter. */
  lemma RemoveSparesOthers(s: State, env: Env, k: Key, j: Key, devOf: string -> string)
    requires Clean(env) && Inv(s, devOf) && j in s.entries && j != k
    ensures var t := Remove(s, Tc, env, k);
      j in t.entries && t.entries[j] == s.entries[j] && Shows(On(t.host, s.entries[j].device), s.entries[j])
  {
    RemoveKeepsInv(s, env, k, devOf);
    var t, e := Remove(s, Tc, env, k), s.entries[j];
    assert Holds(t.entries, j, e.device, e.classId);
    assert SlotAgrees(t.entries, t.host, e.device, e.classId);
  }

  // ---- where it stops holding ----

  /** A changed address that does not parse: Apply drops the client's rules and keeps its record.
      The host agrees afterwards exactly when the new address parses. */
  lemma UnparsableAddressExactly(s: State, env: Env, k: Key, device: string, c: Limit, devOf: string -> string)
    requires Clean(env) && Inv(s, devOf) && k in s.entries && TrimSpace(device) == device == devOf(k.inst) && k.cn == c.cn
    requires NeedsShaping(c.staticIp, c.rx, c.tx) && !SameLimit(s.entries[k], c, device) && device != ""
    ensures var t := Apply(s, Tc, env, k.inst, device, c).s;
      Agrees(t.entries, t.host) <==> Addresses.ParseIp(TrimSpace(c.staticIp)).Some?
  {
    var t, e := Apply(s, Tc, env, k.inst, device, c).s, s.entries[k];
    if Addresses.ParseIp(TrimSpace(c.staticIp)).Some? {
      ApplyKeepsInv(s, t, env, k.inst, device, c, devOf);
    } else {
      assert Recorded(e);
      UndoStep(s, env, e);
      LostRules(s, t, k);
    }
  }

  lemma LostRules(s: State, t: State, k: Key)
    requires k in s.entries && Recorded(s.entries[k]) && t.entries == s.entries && t.host == Dropped(s, k).host
    ensures !Agrees(t.entries, t.host)
  {
    var e := s.entries[k];
    assert Holds(t.entries, k, e.device, e.classId);
    assert !Shows(On(t.host, e.device), e);
    assert !SlotAgrees(t.entries, t.host, e.device, e.classId);
  }

  predicate IsDrop(c: Command) { c.DropEgressClass? || c.DropEgressFilter? || c.DropIngressFilter? }

  // What a host shows under one id or prio, if anything.
  function ClassAt(h: Host, dev: string, m: nat): Option<nat> { if m in On(h, dev).classes then Some(On(h, dev).classes[m]) else None }
  function RouteAt(h: Host, dev: string, p: nat): Option<Route> { if p in On(h, dev).egress then Some(On(h, dev).egress[p]) else None }
  function PoliceAt(h: Host, dev: string, p: nat): Option<Police> { if p in On(h, dev).police then Some(On(h, dev).police[p]) else None }

  /** The command is among those of an undo run, and goes through. */
  predicate GoesThrough(env: Env, cmds: seq<Command>, c: Command) { env.tcPresent && c in cmds && c !in env.rejects }

  lemma OneDrop(h: Host, c: Command, dev: string, m: nat)
    requires IsDrop(c)
    ensures ClassAt(Exec(h, c), dev, m) == if c == DropEgressClass(dev, m) then None else ClassAt(h, dev, m)
    ensures RouteAt(Exec(h, c), dev, m) == if c == DropEgressFilter(dev, m) then None else RouteAt(h, dev, m)
    ensures PoliceAt(Exec(h, c), dev, m) == if c == DropIngressFilter(dev, m) then None else PoliceAt(h, dev, m)
  {
  }

  /** An undo run removes exactly what its commands that go through name. */
  lemma {:induction false} UndoRunIs(s: State, env: Env, cmds: seq<Command>, dev: string, m: nat)
    requires forall c :: c in cmds ==> IsDrop(c)
    ensures var t := RunRules(s, Tc, env, cmds, true).s;
      && ClassAt(t.host, dev, m) == (if GoesThrough(env, cmds, DropEgressClass(dev, m)) then None else ClassAt(s.host, dev, m))
      && RouteAt(t.host, dev, m) == (if GoesThrough(env, cmds, DropEgressFilter(dev, m)) then None else RouteAt(s.host, dev, m))
      && PoliceAt(t.host, dev, m) == (if GoesThrough(env, cmds, DropIngressFilter(dev, m)) then None else PoliceAt(s.host, dev, m))
      && t.entries == s.entries
    decreases |cmds|
  {
    if cmds != [] && env.tcPresent {
      var c := cmds[0];
      assert c in cmds && IsDrop(c);
      assert cmds == [c] + cmds[1..];
      var tried := s.(issued := s.issued + [c]);
      OneDrop(s.host, c, dev, m);
      UndoRunIs(if c in env.rejects then tried else tried.(host := Exec(s.host, c)), env, cmds[1..], dev, m);
    }
  }

  /** Remove forgets the client whatever tc does. The host agrees afterwards exactly when tc is
      there and accepts every deletion. */
  lemma RemoveAgreesExactly(s: State, env: Env, k: Key)
    requires Consistent(s) && k in s.entries && Recorded(s.entries[k])
    ensures var t := Remove(s, Tc, env, k);
      Agrees(t.entries, t.host) <==> env.tcPresent && forall c :: c in Undo(s.entries[k].rules) ==> c !in env.rejects
  {
    var e := s.entries[k];
    UndoOfRecord(e);
    if env.tcPresent && forall c :: c in Undo(e.rules) ==> c !in env.rejects {
      AcceptedRun(s.(entries := s.entries - {k}), env, Undo(e.rules), true);
      UndoRecord(s.host, e);
      DropKeeps(s, k);
    } else {
      var s0 := s.(entries := s.entries - {k});
      assert Holds(s.entries, k, e.device, e.classId);
      assert SlotAgrees(s.entries, s.host, e.device, e.classId);
      SomethingStays(s0, env, e);
      UndoRunIs(s0, env, Undo(e.rules), e.device, e.classId);
      LeftOver(s, RunRules(s0, Tc, env, Undo(e.rules), true).s, k);
    }
  }

  lemma UndoOfRecord(e: Applied)
    requires Recorded(e)
    ensures Undo(e.rules) == UndoCommands(e.device, e.rx, e.tx, e.classId)
  {
    PlanIgnoresBlanks(e.device, e.staticIp, e.rx, e.tx, e.classId);
    PlanCommands(e.device, TrimSpace(e.staticIp), e.rx, e.tx, e.classId);
  }

  /** A refused undo leaves a class or a filter of the client on the host. */
  lemma SomethingStays(s: State, env: Env, e: Applied)
    requires Shows(On(s.host, e.device), e) && (e.rx > 0 || e.tx > 0)
    requires Undo(e.rules) == UndoCommands(e.device, e.rx, e.tx, e.classId)
    requires !env.tcPresent || exists c :: c in Undo(e.rules) && c in env.rejects
    ensures !Bare(On(RunRules(s, Tc, env, Undo(e.rules), true).s.host, e.device), e.classId)
  {
    UndoRunIs(s, env, Undo(e.rules), e.device, e.classId);
    UndoRunIs(s, env, Undo(e.rules), e.device, 10000 + e.classId);
    assert ClassAt(s.host, e.device, e.classId).Some? || PoliceAt(s.host, e.device, 10000 + e.classId).Some?;
    if env.tcPresent {
      var c :| c in Undo(e.rules) && c in env.rejects;
      assert c in [DropIngressFilter(e.device, 10000 + e.classId), DropEgressClass(e.device, e.classId), DropEgressFilter(e.device, e.classId)];
    }
  }

  lemma LeftOver(s: State, t: State, k: Key)
    requires Consistent(s) && k in s.entries && t.entries == s.entries - {k}
    requires !Bare(On(t.host, s.entries[k].device), s.entries[k].classId)
    ensures !Agrees(t.entries, t.host)
  {
    var e := s.entries[k];
    assert Holds(s.entries, k, e.device, e.classId);
    assert forall j :: Holds(t.entries, j, e.device, e.classId) ==> Holds(s.entries, j, e.device, e.classId);
    assert !SlotAgrees(t.entries, t.host, e.device, e.classId);
  }

  /** An instance moved to another device keeps its old class id there: ids stay distinct exactly
      when no live client of the new device holds that id. */
  lemma MovedDeviceExactly(s: State, env: Env, k: Key, device: string, c: Limit)
    requires Clean(env) && Consistent(s) && k in s.entries && Recorded(s.entries[k])
    requires Plannable(device, TrimSpace(c.staticIp), c.rx, c.tx) && device != s.entries[k].device
    ensures var t := Replace(s, Tc, env, k, device, c).s;
      DistinctIds(t.entries) <==> FreeId(s.entries, device, s.entries[k].classId)
  {
    var id := s.entries[k].classId;
    var t := Replace(s, Tc, env, k, device, c).s;
    ReplaceExisting(s, env, k, device, c);
    DistinctAfterPut(s.entries, k, RecordOf(c, device, id), t.entries);
  }

  lemma DistinctAfterPut(entries: map<Key, Applied>, k: Key, e: Applied, entries': map<Key, Applied>)
    requires DistinctIds(entries) && entries' == (entries - {k})[k := e]
    requires k in entries ==> entries[k].device != e.device
    ensures DistinctIds(entries') <==> FreeId(entries, e.device, e.classId)
  {
    assert Holds(entries', k, e.device, e.classId);
    assert forall j, dev, id :: j != k ==> (Holds(entries', j, dev, id) <==> Holds(entries, j, dev, id));
  }

  /** Beyond the id budget: the n-th id of a device is 10 + n mod 8991 whether or not it is in
      use, so a new client keeps ids distinct exactly when that id is free. */
  lemma WrappedIdExactly(s: State, env: Env, k: Key, device: string, c: Limit)
    requires Clean(env) && Consistent(s) && AllocOk(s) && k !in s.entries
    requires Plannable(device, TrimSpace(c.staticIp), c.rx, c.tx)
    ensures var t := Replace(s, Tc, env, k, device, c).s;
      var id := FIRST_CLASS + Handed(s, device) % CLASS_COUNT;
      t.entries == s.entries[k := RecordOf(c, device, id)] && (DistinctIds(t.entries) <==> FreeId(s.entries, device, id))
  {
    AllocGives(s, device);
    var e := RecordOf(c, device, NextId(s.nextCls, device));
    assert Recorded(e);
    ReplaceNew(s, env, k, device, c);
    assert s.entries - {k} == s.entries;
    DistinctAfterPut(s.entries, k, e, s.entries[k := e]);
  }
}
