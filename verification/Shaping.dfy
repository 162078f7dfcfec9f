/** Planning traffic-control rules (internal/bandwidth/bandwidth.go) and what the commands do
    to a host's tc state. Rates are bits per second. */
module Shaping {
  import opened Text
  import Addresses

  // ---- host state ----

  datatype Route = Route(ip: string, minor: nat)
  datatype Police = Police(ip: string, rate: nat, burst: nat)

  /** tc state of one device: HTB classes by minor id, egress and ingress filters by prio. */
  datatype DevState = DevState(root: bool, parent: bool, ingress: bool,
                               classes: map<nat, nat>, egress: map<nat, Route>, police: map<nat, Police>)

  type Host = map<string, DevState>

  const BARE := DevState(false, false, false, map[], map[], map[])

  function On(h: Host, dev: string): DevState { if dev in h then h[dev] else BARE }

  /** The tc invocations the planner emits. */
  datatype Command =
    | RootQdisc(dev: string)
    | ParentClass(dev: string)
    | EgressClass(dev: string, minor: nat, rate: nat)
    | EgressFilter(dev: string, prio: nat, ip: string, minor: nat)
    | DropEgressFilter(dev: string, prio: nat)
    | DropEgressClass(dev: string, minor: nat)
    | IngressQdisc(dev: string)
    | IngressFilter(dev: string, prio: nat, ip: string, rate: nat, burst: nat)
    | DropIngressFilter(dev: string, prio: nat)

  /** Effect on the device; a deletion of something absent changes nothing. */
  function Effect(d: DevState, c: Command): DevState {
    match c
    case RootQdisc(_) => d.(root := true)
    case ParentClass(_) => d.(parent := true)
    case EgressClass(_, m, r) => d.(classes := d.classes[m := r])
    case EgressFilter(_, p, ip, m) => d.(egress := d.egress[p := Route(ip, m)])
    case DropEgressFilter(_, p) => d.(egress := d.egress - {p})
    case DropEgressClass(_, m) => d.(classes := d.classes - {m})
    case IngressQdisc(_) => d.(ingress := true)
    case IngressFilter(_, p, ip, r, b) => d.(police := d.police[p := Police(ip, r, b)])
    case DropIngressFilter(_, p) => d.(police := d.police - {p})
  }

  function Exec(h: Host, c: Command): Host { h[c.dev := Effect(On(h, c.dev), c)] }

  function ExecAll(h: Host, cs: seq<Command>): Host
    decreases |cs|
  {
    if cs == [] then h else ExecAll(Exec(h, cs[0]), cs[1..])
  }

  // ---- planning ----

  datatype Rule = Rule(cmd: Command, undo: bool)

  function IngressBurst(rate: nat): nat {
    var b := rate / 8 / 20;
    if b < 2048 then 2048 else if b > 512 * 1024 then 512 * 1024 else b
  }

  predicate NeedsShaping(staticIp: string, rx: int, tx: int) {
    TrimSpace(staticIp) != "" && (rx > 0 || tx > 0)
  }

  /** 0 means the default class; 1 is the parent's own minor. */
  function ClassMinor(id: nat): nat { if id == 0 then 10 else if id < 2 then 2 else id }

  function EgressRules(dev: string, ip: string, rate: nat, id: nat): seq<Rule> {
    [ Rule(EgressClass(dev, id, rate), false), Rule(EgressFilter(dev, id, ip, id), false),
      Rule(DropEgressFilter(dev, id), true), Rule(DropEgressClass(dev, id), true) ]
  }

  function IngressRules(dev: string, ip: string, rate: nat, id: nat): seq<Rule> {
    [ Rule(IngressQdisc(dev), false), Rule(IngressFilter(dev, 10000 + id, ip, rate, IngressBurst(rate)), false),
      Rule(DropIngressFilter(dev, 10000 + id), true) ]
  }

  function RootRules(dev: string): seq<Rule> {
    [ Rule(RootQdisc(dev), false), Rule(ParentClass(dev), false) ]
  }

  function Plan(device: string, staticIp: string, rx: int, tx: int, classId: nat): seq<Rule> {
    var dev, ip, id := TrimSpace(device), TrimSpace(staticIp), ClassMinor(classId);
    if dev == "" || ip == "" || Addresses.ParseIp(ip).None? || (rx <= 0 && tx <= 0) then []
    else
      RootRules(dev)
        + (if rx > 0 then EgressRules(dev, ip, rx, id) else [])
        + (if tx > 0 then IngressRules(dev, ip, tx, id) else [])
  }

  /** The forward commands, in order. */
  function Forward(rules: seq<Rule>): seq<Command> {
    if rules == [] then [] else (if rules[0].undo then [] else [rules[0].cmd]) + Forward(rules[1..])
  }

  /** The undo commands, last planned first. */
  function Undo(rules: seq<Rule>): seq<Command> {
    if rules == [] then [] else Undo(rules[1..]) + (if rules[0].undo then [rules[0].cmd] else [])
  }

  lemma ForwardGrows(rules: seq<Rule>, i: nat)
    requires i < |rules|
    ensures Forward(rules[..i + 1]) == Forward(rules[..i]) + (if rules[i].undo then [] else [rules[i].cmd])
    ensures Undo(rules[..i + 1]) == (if rules[i].undo then [rules[i].cmd] else []) + Undo(rules[..i])
  {
    assert rules[..i + 1] == rules[..i] + [rules[i]] && [rules[i]] + [] == [rules[i]];
    ForwardConcat(rules[..i], [rules[i]]);
    OneRule(rules[i], []);
  }

  method ApplyRules(rules: seq<Rule>) returns (out: seq<Command>)
    ensures out == Forward(rules)
  {
    out := [];
    for i := 0 to |rules|
      invariant out == Forward(rules[..i])
    {
      ForwardGrows(rules, i);
      if !rules[i].undo { out := out + [rules[i].cmd]; }
    }
    assert rules[..|rules|] == rules;
  }

  function Reverse(s: seq<Command>): (r: seq<Command>)
    ensures |r| == |s| && forall i :: 0 <= i < |s| ==> r[i] == s[|s| - 1 - i]
  {
    seq(|s|, i requires 0 <= i < |s| => s[|s| - 1 - i])
  }

  method RemoveRules(rules: seq<Rule>) returns (out: seq<Command>)
    ensures out == Undo(rules)
  {
    var undos: seq<Command> := [];
    for i := 0 to |rules|
      invariant Reverse(undos) == Undo(rules[..i])
    {
      ForwardGrows(rules, i);
      if rules[i].undo {
        assert Reverse(undos + [rules[i].cmd]) == [rules[i].cmd] + Reverse(undos);
        undos := undos + [rules[i].cmd];
      }
    }
    assert rules[..|rules|] == rules;
    var a := new Command[|undos|](i requires 0 <= i < |undos| => undos[i]);
    assert a[..] == undos;
    ReverseInPlace(a);
    return a[..];
  }

  /** The swap loop of RemoveRules. */
  method ReverseInPlace(a: array<Command>)
    modifies a
    ensures a[..] == Reverse(old(a[..]))
  {
    var i, j := 0, a.Length - 1;
    while i < j
      invariant 0 <= i <= j + 2 && j == a.Length - 1 - i
      invariant forall k :: 0 <= k < i ==> a[k] == old(a[a.Length - 1 - k])
      invariant forall k :: i <= k <= j ==> a[k] == old(a[k])
      invariant forall k :: j < k < a.Length && 0 <= k ==> a[k] == old(a[a.Length - 1 - k])
    {
      a[i], a[j] := a[j], a[i];
      i, j := i + 1, j - 1;
    }
  }

  // ---- what a plan does ----

  /** A shapeable client: everything Plan checks. */
  predicate Plannable(device: string, ip: string, rx: int, tx: int) {
    device != "" && TrimSpace(device) == device && ip != "" && TrimSpace(ip) == ip
      && Addresses.ParseIp(ip).Some? && (rx > 0 || tx > 0)
  }

  function ForwardCommands(dev: string, ip: string, rx: int, tx: int, id: nat): seq<Command> {
    [RootQdisc(dev), ParentClass(dev)]
      + (if rx > 0 then [EgressClass(dev, id, rx), EgressFilter(dev, id, ip, id)] else [])
      + (if tx > 0 then [IngressQdisc(dev), IngressFilter(dev, 10000 + id, ip, tx, IngressBurst(tx))] else [])
  }

  function UndoCommands(dev: string, rx: int, tx: int, id: nat): seq<Command> {
    (if tx > 0 then [DropIngressFilter(dev, 10000 + id)] else [])
      + (if rx > 0 then [DropEgressClass(dev, id), DropEgressFilter(dev, id)] else [])
  }

  lemma {:induction false} ForwardConcat(a: seq<Rule>, b: seq<Rule>)
    ensures Forward(a + b) == Forward(a) + Forward(b)
    ensures Undo(a + b) == Undo(b) + Undo(a)
  {
    if a == [] {
      assert a + b == b;
    } else {
      assert (a + b)[1..] == a[1..] + b;
      ForwardConcat(a[1..], b);
    }
  }

  lemma {:induction false} OneRule(r: Rule, rest: seq<Rule>)
    ensures Forward([r] + rest) == (if r.undo then [] else [r.cmd]) + Forward(rest)
    ensures Undo([r] + rest) == Undo(rest) + (if r.undo then [r.cmd] else [])
  {
    assert ([r] + rest)[1..] == rest;
  }

  lemma RulePieces(dev: string, ip: string, rate: nat, id: nat)
    ensures Forward(RootRules(dev)) == [RootQdisc(dev), ParentClass(dev)] && Undo(RootRules(dev)) == []
    ensures Forward(EgressRules(dev, ip, rate, id)) == [EgressClass(dev, id, rate), EgressFilter(dev, id, ip, id)]
    ensures Undo(EgressRules(dev, ip, rate, id)) == [DropEgressClass(dev, id), DropEgressFilter(dev, id)]
    ensures Forward(IngressRules(dev, ip, rate, id))
      == [IngressQdisc(dev), IngressFilter(dev, 10000 + id, ip, rate, IngressBurst(rate))]
    ensures Undo(IngressRules(dev, ip, rate, id)) == [DropIngressFilter(dev, 10000 + id)]
  {
    var p := RootRules(dev);
    assert p == [p[0]] + ([p[1]] + []);
    OneRule(p[0], [p[1]] + []); OneRule(p[1], []);
    var e := EgressRules(dev, ip, rate, id);
    assert e == [e[0]] + ([e[1]] + ([e[2]] + ([e[3]] + [])));
    OneRule(e[0], [e[1]] + ([e[2]] + ([e[3]] + []))); OneRule(e[1], [e[2]] + ([e[3]] + []));
    OneRule(e[2], [e[3]] + []); OneRule(e[3], []);
    var g := IngressRules(dev, ip, rate, id);
    assert g == [g[0]] + ([g[1]] + ([g[2]] + []));
    OneRule(g[0], [g[1]] + ([g[2]] + [])); OneRule(g[1], [g[2]] + []); OneRule(g[2], []);
  }

  lemma ThreeParts(p: seq<Rule>, e: seq<Rule>, g: seq<Rule>)
    ensures Forward(p + e + g) == Forward(p) + Forward(e) + Forward(g)
    ensures Undo(p + e + g) == Undo(g) + (Undo(e) + Undo(p))
  {
    ForwardConcat(p + e, g);
    ForwardConcat(p, e);
  }

  /** Both directions of a plan, as command lists. The class goes before its filter on undo. */
  lemma PlanCommands(dev: string, ip: string, rx: int, tx: int, id: nat)
    requires Plannable(dev, ip, rx, tx) && id >= 2
    ensures Forward(Plan(dev, ip, rx, tx, id)) == ForwardCommands(dev, ip, rx, tx, id)
    ensures Undo(Plan(dev, ip, rx, tx, id)) == UndoCommands(dev, rx, tx, id)
    ensures Plan(dev, ip, rx, tx, id) != []
  {
    var p := RootRules(dev);
    var e := if rx > 0 then EgressRules(dev, ip, rx, id) else [];
    var g := if tx > 0 then IngressRules(dev, ip, tx, id) else [];
    assert Plan(dev, ip, rx, tx, id) == p + e + g;
    ThreeParts(p, e, g);
    RulePieces(dev, ip, if rx > 0 then rx else 0, id);
    RulePieces(dev, ip, if tx > 0 then tx else 0, id);
  }

  /** The device state a client's forward commands leave. */
  function WithClient(d: DevState, ip: string, rx: int, tx: int, id: nat): DevState {
    DevState(true, true, d.ingress || tx > 0,
      if rx > 0 then d.classes[id := rx] else d.classes,
      if rx > 0 then d.egress[id := Route(ip, id)] else d.egress,
      if tx > 0 then d.police[10000 + id := Police(ip, tx, IngressBurst(tx))] else d.police)
  }

  /** The device state a client's undo commands leave. */
  function WithoutClient(d: DevState, rx: int, tx: int, id: nat): DevState {
    d.(classes := if rx > 0 then d.classes - {id} else d.classes,
       egress := if rx > 0 then d.egress - {id} else d.egress,
       police := if tx > 0 then d.police - {10000 + id} else d.police)
  }

  lemma {:induction false} ExecConcat(h: Host, a: seq<Command>, b: seq<Command>)
    ensures ExecAll(h, a + b) == ExecAll(ExecAll(h, a), b)
    decreases |a|
  {
    if a == [] {
      assert a + b == b;
    } else {
      assert (a + b)[1..] == a[1..] + b;
      ExecConcat(Exec(h, a[0]), a[1..], b);
    }
  }

  /** One or two commands on the same device change only its entry. */
  lemma ExecTwo(h: Host, c1: Command, c2: Command)
    requires c1.dev == c2.dev
    ensures ExecAll(h, [c1]) == h[c1.dev := Effect(On(h, c1.dev), c1)]
    ensures ExecAll(h, [c1, c2]) == h[c1.dev := Effect(Effect(On(h, c1.dev), c1), c2)]
  {
    assert [c1, c2][1..] == [c2] && [c2][1..] == [] && [c1][1..] == [];
    var h1 := Exec(h, c1);
    assert ExecAll(h1, [c2]) == Exec(h1, c2);
  }

  lemma ForwardEffect(h: Host, dev: string, ip: string, rx: int, tx: int, id: nat)
    ensures ExecAll(h, ForwardCommands(dev, ip, rx, tx, id)) == h[dev := WithClient(On(h, dev), ip, rx, tx, id)]
  {
    var p := [RootQdisc(dev), ParentClass(dev)];
    var e := if rx > 0 then [EgressClass(dev, id, rx), EgressFilter(dev, id, ip, id)] else [];
    var g := if tx > 0 then [IngressQdisc(dev), IngressFilter(dev, 10000 + id, ip, tx, IngressBurst(tx))] else [];
    ExecConcat(h, p + e, g);
    ExecConcat(h, p, e);
    ExecTwo(h, RootQdisc(dev), ParentClass(dev));
    var h1 := ExecAll(h, p);
    if rx > 0 {
      ExecTwo(h1, EgressClass(dev, id, rx), EgressFilter(dev, id, ip, id));
    }
    var h2 := ExecAll(h1, e);
    if tx > 0 {
      ExecTwo(h2, IngressQdisc(dev), IngressFilter(dev, 10000 + id, ip, tx, IngressBurst(tx)));
    }
  }

  lemma UndoEffect(h: Host, dev: string, rx: int, tx: int, id: nat)
    requires rx > 0 || tx > 0
    ensures ExecAll(h, UndoCommands(dev, rx, tx, id)) == h[dev := WithoutClient(On(h, dev), rx, tx, id)]
  {
    var g := if tx > 0 then [DropIngressFilter(dev, 10000 + id)] else [];
    var e := if rx > 0 then [DropEgressClass(dev, id), DropEgressFilter(dev, id)] else [];
    ExecConcat(h, g, e);
    if tx > 0 {
      ExecTwo(h, DropIngressFilter(dev, 10000 + id), DropIngressFilter(dev, 10000 + id));
    }
    if rx > 0 {
      ExecTwo(ExecAll(h, g), DropEgressClass(dev, id), DropEgressFilter(dev, id));
    }
  }
}
