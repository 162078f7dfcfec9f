/** The shaping enforcer (internal/bandwidth/enforcer.go): what it remembers, what it hands out,
    and how its memory agrees with the host. */
module Enforcers {
  import opened Text
  import opened Shaping
  import Lex

  const FIRST_CLASS: nat := 10
  const LAST_CLASS: nat := 9000
  const CLASS_COUNT: nat := 8991   // FIRST_CLASS..LAST_CLASS

  datatype Mode = Off | Tc | Shaper | Log

  datatype Limit = Limit(cn: string, staticIp: string, rx: int, tx: int)

  /** A client of an instance: the two map levels of `applied` in one key. */
  datatype Key = Key(inst: string, cn: string)

  datatype Applied = Applied(staticIp: string, rx: int, tx: int, classId: nat, device: string, rules: seq<Rule>)

  /** Whether the tc binary is found, and which of its invocations fail. */
  datatype Env = Env(tcPresent: bool, rejects: set<Command>)

  /** `handed` counts the class ids given out per device and `issued` lists the tc invocations;
      both only record the run. */
  datatype State = State(entries: map<Key, Applied>, nextCls: map<string, nat>, handed: map<string, nat>,
                         host: Host, issued: seq<Command>)

  const START := State(map[], map[], map[], map[], [])

  predicate Clean(env: Env) { env.tcPresent && env.rejects == {} }

  // ---- the steps, on values ----

  datatype Outcome = Outcome(s: State, ok: bool)

  function RunRules(s: State, mode: Mode, env: Env, cmds: seq<Command>, undo: bool): Outcome
    decreases |cmds|
  {
    if !mode.Tc? || cmds == [] || !env.tcPresent then Outcome(s, true)
    else
      var tried := s.(issued := s.issued + [cmds[0]]);
      if cmds[0] in env.rejects then
        if undo then RunRules(tried, mode, env, cmds[1..], undo) else Outcome(tried, false)
      else RunRules(tried.(host := Exec(s.host, cmds[0])), mode, env, cmds[1..], undo)
  }

  function Handed(s: State, dev: string): nat { if dev in s.handed then s.handed[dev] else 0 }

  function NextId(nextCls: map<string, nat>, dev: string): nat {
    if dev in nextCls && nextCls[dev] >= FIRST_CLASS then nextCls[dev] else FIRST_CLASS
  }

  /** Takes the next class id of a device; ids wrap after LAST_CLASS without a look at live ones. */
  function Alloc(s: State, dev: string): State {
    var id := NextId(s.nextCls, dev);
    s.(nextCls := s.nextCls[dev := if id + 1 > LAST_CLASS then FIRST_CLASS else id + 1],
       handed := s.handed[dev := Handed(s, dev) + 1])
  }

  function Remove(s: State, mode: Mode, env: Env, k: Key): State {
    if k !in s.entries then s
    else RunRules(s.(entries := s.entries - {k}), mode, env, Undo(s.entries[k].rules), true).s
  }

  predicate SameLimit(e: Applied, c: Limit, device: string) {
    e.staticIp == c.staticIp && e.rx == c.rx && e.tx == c.tx && e.device == device
  }

  function Apply(s: State, mode: Mode, env: Env, inst: string, device0: string, c: Limit): Outcome {
    var k, device := Key(inst, c.cn), TrimSpace(device0);
    if mode.Off? || mode.Shaper? then Outcome(s, true)
    else if !NeedsShaping(c.staticIp, c.rx, c.tx) then Outcome(Remove(s, mode, env, k), true)
    else if device == "" then Outcome(s, false)
    else if k in s.entries && SameLimit(s.entries[k], c, device) then Outcome(s, true)
    else Replace(s, mode, env, k, device, c)
  }

  /** Apply's second half: the client is new or its limits changed. */
  function Replace(s: State, mode: Mode, env: Env, k: Key, device: string, c: Limit): Outcome {
    var had := k in s.entries;
    var classId := if had then s.entries[k].classId else NextId(s.nextCls, device);
    var s1 := if had then s else Alloc(s, device);
    var s2 := if had then RunRules(s1, mode, env, Undo(s.entries[k].rules), true).s else s1;
    var rules := Plan(device, c.staticIp, c.rx, c.tx, classId);
    if rules == [] || (mode.Tc? && !env.tcPresent) then Outcome(s2, true)
    else
      var r := RunRules(s2, mode, env, Forward(rules), false);
      if !r.ok then r
      else Outcome(r.s.(entries := r.s.entries[k := Applied(c.staticIp, c.rx, c.tx, classId, device, rules)]), true)
  }

  // ---- Sync ----

  function Codes(s: string): seq<int> { seq(|s|, i requires 0 <= i < |s| => s[i] as int) }

  lemma CodesInjective(s: string, t: string)
    ensures Codes(s) == Codes(t) ==> s == t
  {
    if Codes(s) == Codes(t) {
      assert forall i :: 0 <= i < |s| ==> s[i] as int == Codes(s)[i] == Codes(t)[i];
    }
  }

  predicate Least(x: string, s: set<string>) {
    x in s && forall y :: y in s ==> Lex.Compare(Codes(x), Codes(y)) <= 0
  }

  lemma {:induction false} LeastExists(s: set<string>) returns (x: string)
    requires s != {}
    ensures Least(x, s)
  {
    x :| x in s;
    Lex.CompareRange(Codes(x), Codes(x));
    if s != {x} {
      var y := LeastExists(s - {x});
      Lex.CompareRange(Codes(x), Codes(y));
      forall z | z in s
        ensures Lex.Compare(Codes(x), Codes(y)) <= 0 ==> Lex.Compare(Codes(x), Codes(z)) <= 0
      {
        if z != x && Lex.Compare(Codes(x), Codes(y)) <= 0 { Lex.LessTransitive(Codes(x), Codes(y), Codes(z)); }
      }
      if Lex.Compare(Codes(x), Codes(y)) > 0 { x := y; }
    }
  }

  lemma LeastUnique(s: set<string>)
    requires s != {}
    ensures exists x :: Least(x, s)
    ensures forall x, y :: Least(x, s) && Least(y, s) ==> x == y
  {
    var w := LeastExists(s);
    forall x, y | Least(x, s) && Least(y, s) ensures x == y {
      Lex.CompareRange(Codes(x), Codes(y));
      CodesInjective(x, y);
    }
  }

  /** The keys of a map collected and put through sort.Strings. */
  function SortedKeys(s: set<string>): (r: seq<string>)
    ensures forall x :: x in r <==> x in s
    ensures |r| == |s|
  {
    if s == {} then []
    else
      LeastUnique(s);
      var x :| x in s && Least(x, s);
      [x] + SortedKeys(s - {x})
  }

  /** The shapeable clients by trimmed name; a later one replaces an earlier one. */
  function Desired(clients: seq<Limit>): map<string, Limit> {
    if clients == [] then map[]
    else
      var c := clients[|clients| - 1];
      var m := Desired(clients[..|clients| - 1]);
      var cn := TrimSpace(c.cn);
      if cn == "" || !NeedsShaping(c.staticIp, c.rx, c.tx) then m
      else m[cn := Limit(cn, TrimSpace(c.staticIp), c.rx, c.tx)]
  }

  function Names(s: State, inst: string): set<string> {
    set k | k in s.entries && k.inst == inst :: k.cn
  }

  function RemoveAll(s: State, mode: Mode, env: Env, inst: string, cns: seq<string>): State
    decreases |cns|
  {
    if cns == [] then s else RemoveAll(Remove(s, mode, env, Key(inst, cns[0])), mode, env, inst, cns[1..])
  }

  function ApplyAll(s: State, mode: Mode, env: Env, inst: string, device: string, desired: map<string, Limit>, cns: seq<string>): State
    requires forall cn :: cn in cns ==> cn in desired
    decreases |cns|
  {
    if cns == [] then s
    else ApplyAll(Apply(s, mode, env, inst, device, desired[cns[0]]).s, mode, env, inst, device, desired, cns[1..])
  }

  function Sync(s: State, mode: Mode, env: Env, inst: string, device0: string, clients: seq<Limit>): State {
    if mode.Off? || mode.Shaper? then s
    else
      var device, desired := TrimSpace(device0), Desired(clients);
      var s1 := RemoveAll(s, mode, env, inst, SortedKeys(Names(s, inst) - desired.Keys));
      if device == "" && desired != map[] then s1
      else ApplyAll(s1, mode, env, inst, device, desired, SortedKeys(desired.Keys))
  }

  function ClearInstance(s: State, mode: Mode, env: Env, inst: string): State {
    RemoveAll(s, mode, env, inst, SortedKeys(Names(s, inst)))
  }

  // ---- the object ----

  class Enforcer {
    const mode: Mode
    var entries: map<Key, Applied>
    var nextCls: map<string, nat>
    var host: Host                 // behind the command runner
    var issued: seq<Command>
    ghost var handed: map<string, nat>

    ghost function Now(): State
      reads this
    {
      State(entries, nextCls, handed, host, issued)
    }

    constructor (mode: Mode)
      ensures this.mode == mode && Now() == START
    {
      this.mode := mode;
      entries, nextCls, handed, host, issued := map[], map[], map[], map[], [];
    }

    method Run(env: Env, cmds: seq<Command>, undo: bool) returns (ok: bool)
      modifies this
      ensures Outcome(Now(), ok) == RunRules(old(Now()), mode, env, cmds, undo)
    {
      var i := 0;
      while i < |cmds|
        invariant 0 <= i <= |cmds|
        invariant RunRules(Now(), mode, env, cmds[i..], undo) == RunRules(old(Now()), mode, env, cmds, undo)
      {
        if !mode.Tc? { return true; }
        if !env.tcPresent { return true; }
        assert cmds[i..][1..] == cmds[i + 1..];
        issued := issued + [cmds[i]];
        if cmds[i] in env.rejects {
          if !undo { return false; }
        } else {
          host := Exec(host, cmds[i]);
        }
        i := i + 1;
      }
      return true;
    }

    method AllocClassID(device: string) returns (id: nat)
      modifies this
      ensures Now() == Alloc(old(Now()), device) && id == NextId(old(nextCls), device)
    {
      id := if device in nextCls then nextCls[device] else 0;
      if device !in nextCls || id < FIRST_CLASS { id := FIRST_CLASS; }
      handed := handed[device := Handed(Now(), device) + 1];
      nextCls := nextCls[device := id + 1];
      if nextCls[device] > LAST_CLASS { nextCls := nextCls[device := FIRST_CLASS]; }
    }

    method RemoveClient(env: Env, inst: string, cn: string)
      modifies this
      ensures Now() == Remove(old(Now()), mode, env, Key(inst, cn))
    {
      var k := Key(inst, cn);
      if k !in entries { return; }
      var prev := entries[k];
      entries := entries - {k};
      var undos := RemoveRules(prev.rules);
      var _ := Run(env, undos, true);
    }

    method ApplyClient(env: Env, inst: string, device0: string, c: Limit) returns (ok: bool)
      modifies this
      ensures Outcome(Now(), ok) == Apply(old(Now()), mode, env, inst, device0, c)
    {
      if mode.Off? || mode.Shaper? { return true; }
      if !NeedsShaping(c.staticIp, c.rx, c.tx) {
        RemoveClient(env, inst, c.cn);
        return true;
      }
      var device := TrimSpace(device0);
      if device == "" { return false; }
      var k := Key(inst, c.cn);
      var had := k in entries;
      if had && SameLimit(entries[k], c, device) { return true; }
      var classId: nat;
      if had {
        classId := entries[k].classId;
        if entries[k].rules != [] {
          var undos := RemoveRules(entries[k].rules);
          var _ := Run(env, undos, true);
        }
      } else {
        classId := AllocClassID(device);
      }
      var rules := Plan(device, c.staticIp, c.rx, c.tx, classId);
      if |rules| == 0 { return true; }
      if mode.Tc? && !env.tcPresent { return true; }
      var forwards := ApplyRules(rules);
      ok := Run(env, forwards, false);
      if !ok { return false; }
      entries := entries[k := Applied(c.staticIp, c.rx, c.tx, classId, device, rules)];
    }

    method DesiredOf(clients: seq<Limit>) returns (desired: map<string, Limit>)
      ensures desired == Desired(clients)
    {
      desired := map[];
      for i := 0 to |clients|
        invariant desired == Desired(clients[..i])
      {
        assert clients[..i + 1][..i] == clients[..i];
        var c := clients[i];
        var cn := TrimSpace(c.cn);
        if cn != "" && NeedsShaping(c.staticIp, c.rx, c.tx) {
          desired := desired[cn := Limit(cn, TrimSpace(c.staticIp), c.rx, c.tx)];
        }
      }
      assert clients[..|clients|] == clients;
    }

    method RemoveEach(env: Env, inst: string, cns: seq<string>)
      modifies this
      ensures Now() == RemoveAll(old(Now()), mode, env, inst, cns)
    {
      for i := 0 to |cns|
        invariant RemoveAll(Now(), mode, env, inst, cns[i..]) == RemoveAll(old(Now()), mode, env, inst, cns)
      {
        assert cns[i..][1..] == cns[i + 1..];
        RemoveClient(env, inst, cns[i]);
      }
    }

    method SyncInstance(env: Env, inst: string, device0: string, clients: seq<Limit>)
      modifies this
      ensures Now() == Sync(old(Now()), mode, env, inst, device0, clients)
    {
      if mode.Off? || mode.Shaper? { return; }
      var device := TrimSpace(device0);
      var desired := DesiredOf(clients);
      var toRemove := SortedKeys(Names(State(entries, nextCls, map[], host, issued), inst) - desired.Keys);
      assert Names(State(entries, nextCls, map[], host, issued), inst) == Names(Now(), inst);
      RemoveEach(env, inst, toRemove);
      if device == "" && desired != map[] { return; }
      var cns := SortedKeys(desired.Keys);
      ghost var mid := Now();
      for i := 0 to |cns|
        invariant ApplyAll(Now(), mode, env, inst, device, desired, cns[i..]) == ApplyAll(mid, mode, env, inst, device, desired, cns)
      {
        assert cns[i] in cns && cns[i..][1..] == cns[i + 1..];
        var _ := ApplyClient(env, inst, device, desired[cns[i]]);
      }
    }

    method Clear(env: Env, inst: string)
      modifies this
      ensures Now() == ClearInstance(old(Now()), mode, env, inst)
    {
      var cns := SortedKeys(Names(State(entries, nextCls, map[], host, issued), inst));
      assert Names(State(entries, nextCls, map[], host, issued), inst) == Names(Now(), inst);
      RemoveEach(env, inst, cns);
    }
  }
}
