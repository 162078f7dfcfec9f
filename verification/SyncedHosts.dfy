/** What a sync leaves on the host, in terms of the clients passed in. */
module SyncedHosts {
  import opened Wrappers
  import opened Text
  import opened Shaping
  import opened Enforcers
  import opened ShapingRuns
  import Addresses
  import Lex

  /** The client asks for limits under this name: a name, an address, and a limit in some direction. */
  predicate Wants(c: Limit, cn: string) {
    TrimSpace(c.cn) == cn && cn != "" && TrimSpace(c.staticIp) != "" && (c.rx > 0 || c.tx > 0)
  }

  /** The last client that asks for limits under this name. */
  predicate LastWant(clients: seq<Limit>, cn: string, i: nat) {
    i < |clients| && Wants(clients[i], cn) && forall j :: i < j < |clients| ==> !Wants(clients[j], cn)
  }

  ghost predicate Wanted(clients: seq<Limit>, cn: string) { exists i :: 0 <= i < |clients| && Wants(clients[i], cn) }

  lemma {:induction false} DesiredIs(clients: seq<Limit>, cn: string)
    ensures cn in Desired(clients) <==> Wanted(clients, cn)
    ensures forall i: nat :: LastWant(clients, cn, i) ==>
      cn in Desired(clients) && Desired(clients)[cn] == Limit(cn, TrimSpace(clients[i].staticIp), clients[i].rx, clients[i].tx)
  {
    if clients != [] {
      var n := |clients| - 1;
      var init, last := clients[..n], clients[n];
      DesiredIs(init, cn);
      assert forall i :: 0 <= i < n ==> init[i] == clients[i];
      assert Wanted(clients, cn) <==> Wanted(init, cn) || Wants(last, cn) by { WantedSnoc(init, last, clients, cn); }
      forall i: nat | LastWant(clients, cn, i)
        ensures cn in Desired(clients) && Desired(clients)[cn] == Limit(cn, TrimSpace(clients[i].staticIp), clients[i].rx, clients[i].tx)
      {
        if i < n { assert LastWant(init, cn, i) && !Wants(last, cn); }
      }
    }
  }

  lemma WantedSnoc(init: seq<Limit>, last: Limit, clients: seq<Limit>, cn: string)
    requires clients == init + [last]
    ensures Wanted(clients, cn) <==> Wanted(init, cn) || Wants(last, cn)
  {
    if Wanted(init, cn) {
      var i :| 0 <= i < |init| && Wants(init[i], cn);
      assert clients[i] == init[i];
    }
    if Wants(last, cn) { assert clients[|init|] == last; }
  }

  /** Go's burst for a policed rate: the bytes of 50 ms, between 2 KiB and 512 KiB. */
  lemma BurstIs(rate: nat)
    ensures IngressBurst(rate) == if rate / 160 < 2048 then 2048 else if rate / 160 > 524288 then 524288 else rate / 160
  {
  }

  /** What the device shows for a client under its class id: a class of its receive limit and a
      filter that routes its address there, and a police filter of its transmit limit, each exactly
      if there is such a limit. */
  ghost predicate Enforced(d: DevState, id: nat, ip: string, rx: int, tx: int) {
    && (if rx > 0 then id in d.classes && d.classes[id] == rx && id in d.egress && d.egress[id] == Route(ip, id)
        else id !in d.classes && id !in d.egress)
    && (if tx > 0 then 10000 + id in d.police && d.police[10000 + id].ip == ip && d.police[10000 + id].rate == tx
          && d.police[10000 + id].burst == (if tx / 160 < 2048 then 2048 else if tx / 160 > 524288 then 524288 else tx / 160)
        else 10000 + id !in d.police)
  }

  lemma ShownIsEnforced(d: DevState, e: Applied)
    requires Shows(d, e)
    ensures Enforced(d, e.classId, TrimSpace(e.staticIp), e.rx, e.tx)
  {
    if e.tx > 0 { BurstIs(e.tx); }
  }

  /** The record of a client, and what the host shows for it. */
  ghost predicate Meets(s: State, inst: string, device: string, cn: string, c: Limit) {
    var k := Key(inst, cn);
    && k in s.entries && s.entries[k].device == device && TrimSpace(s.entries[k].staticIp) == TrimSpace(c.staticIp)
    && s.entries[k].rx == c.rx && s.entries[k].tx == c.tx
    && Enforced(On(s.host, device), s.entries[k].classId, TrimSpace(c.staticIp), c.rx, c.tx)
  }

  lemma MatchMeets(s: State, inst: string, device: string, cn: string, c: Limit, devOf: string -> string)
    requires Inv(s, devOf) && ShapingRuns.Matches(s, Key(inst, cn), c, device)
    ensures Meets(s, inst, device, cn, c)
  {
    var e := s.entries[Key(inst, cn)];
    assert Holds(s.entries, Key(inst, cn), e.device, e.classId);
    assert SlotAgrees(s.entries, s.host, e.device, e.classId);
    ShownIsEnforced(On(s.host, device), e);
  }

  /** After a clean Sync a client of the instance is on record exactly if some client passed in
      asks for limits under its name, and then the record and the host have the address and limits
      of the last such client; the records of other instances stay. */
  lemma SyncMeets(s: State, t: State, env: Env, inst: string, device: string, clients: seq<Limit>, cn: string, devOf: string -> string)
    requires Clean(env) && Inv(s, devOf) && AddressesParse(clients)
    requires TrimSpace(device) == device == devOf(inst) && device != ""
    requires t == Sync(s, Tc, env, inst, device, clients) && WithinIds(t)
    ensures Key(inst, cn) in t.entries <==> Wanted(clients, cn)
    ensures forall i: nat :: LastWant(clients, cn, i) ==> Meets(t, inst, device, cn, clients[i])
    ensures forall k: Key :: k.inst != inst ==> (k in t.entries <==> k in s.entries) && (k in s.entries ==> t.entries[k] == s.entries[k])
  {
    SyncKeepsInv(s, t, env, inst, device, clients, devOf);
    DesiredIs(clients, cn);
    assert cn in Names(t, inst) <==> Key(inst, cn) in t.entries by { NamesAre(t, inst, cn); }
    forall i: nat | LastWant(clients, cn, i) ensures Meets(t, inst, device, cn, clients[i]) {
      var c := Limit(cn, TrimSpace(clients[i].staticIp), clients[i].rx, clients[i].tx);
      MatchMeets(t, inst, device, cn, c, devOf);
      TrimTwice(clients[i].staticIp);
    }
    forall k: Key | k.inst != inst ensures (k in t.entries <==> k in s.entries) && (k in s.entries ==> t.entries[k] == s.entries[k]) {
      assert Untouched(s, t, k);
    }
  }

  lemma NamesAre(s: State, inst: string, cn: string)
    ensures cn in Names(s, inst) <==> Key(inst, cn) in s.entries
  {
    if Key(inst, cn) in s.entries { assert Key(inst, cn).cn == cn; }
  }

  /** After a clean Apply of a shapeable client the record and the host have its address and
      limits, and every other record stays. */
  lemma ApplyMeets(s: State, t: State, env: Env, inst: string, device: string, c: Limit, devOf: string -> string)
    requires Clean(env) && Inv(s, devOf) && TrimSpace(device) == device == devOf(inst) && device != ""
    requires TrimSpace(c.staticIp) != "" && (c.rx > 0 || c.tx > 0) && Addresses.ParseIp(TrimSpace(c.staticIp)).Some?
    requires t == Apply(s, Tc, env, inst, device, c).s && (Key(inst, c.cn) in s.entries || Handed(s, device) < CLASS_COUNT)
    ensures Meets(t, inst, device, c.cn, c)
    ensures forall k :: k != Key(inst, c.cn) ==> (k in t.entries <==> k in s.entries) && (k in s.entries ==> t.entries[k] == s.entries[k])
  {
    var k0 := Key(inst, c.cn);
    ApplyKeepsInv(s, t, env, inst, device, c, devOf);
    MatchMeets(t, inst, device, c.cn, c, devOf);
    forall k | k != k0 ensures (k in t.entries <==> k in s.entries) && (k in s.entries ==> t.entries[k] == s.entries[k]) {
      assert k in t.entries <==> k in t.entries - {k0};
      assert k in s.entries <==> k in s.entries - {k0};
      if k in s.entries { assert (s.entries - {k0})[k] == (t.entries - {k0})[k]; }
    }
  }

  /** The operation is about this client, or about its whole instance. */
  predicate Forgotten(op: Op, k: Key) {
    k.inst == op.inst && match op case RemoveOp(_, cn) => k.cn == cn case ApplyOp(_, _, c) => k.cn == c.cn case _ => true
  }

  /** A clean Apply of a client that asks for no limits, a Remove, and a Clear take records away. */
  lemma ForgetsExactly(s: State, t: State, env: Env, op: Op, devOf: string -> string)
    requires Clean(env) && Inv(s, devOf) && t == Step(s, env, op)
    requires op.RemoveOp? || op.ClearOp?
      || (op.ApplyOp? && (TrimSpace(op.limit.staticIp) == "" || (op.limit.rx <= 0 && op.limit.tx <= 0)))
    ensures forall k: Key :: k in t.entries <==> (k in s.entries && !Forgotten(op, k))
    ensures forall k :: k in t.entries ==> t.entries[k] == s.entries[k]
  {
    match op {
      case RemoveOp(inst, cn) => RemoveKeepsInv(s, env, Key(inst, cn), devOf);
      case ClearOp(inst) => ClearForgets(s, t, env, inst, devOf);
      case ApplyOp(inst, _, c) => RemoveKeepsInv(s, env, Key(inst, c.cn), devOf);
    }
  }

  lemma ClearForgets(s: State, t: State, env: Env, inst: string, devOf: string -> string)
    requires Clean(env) && Inv(s, devOf) && t == ClearInstance(s, Tc, env, inst)
    ensures forall k: Key :: (k in t.entries <==> k in s.entries && k.inst != inst) && (k in t.entries ==> t.entries[k] == s.entries[k])
  {
    var cns := SortedKeys(Names(s, inst));
    RemovesKeepInv(s, t, env, inst, cns, devOf);
    forall k: Key ensures (k in t.entries <==> k in s.entries && k.inst != inst) && (k in t.entries ==> t.entries[k] == s.entries[k]) {
      NamesAre(s, inst, k.cn);
      if !Among(k, inst, cns) { assert Untouched(s, t, k); }
    }
  }

  ghost predicate Ascends(r: seq<string>) { forall i, j :: 0 <= i < j < |r| ==> Lex.Less(Codes(r[i]), Codes(r[j])) }

  lemma AscendsFront(x: string, rest: seq<string>)
    requires Ascends(rest) && forall j :: 0 <= j < |rest| ==> Lex.Less(Codes(x), Codes(rest[j]))
    ensures Ascends([x] + rest)
  {
    var r := [x] + rest;
    forall i, j | 0 <= i < j < |r| ensures Lex.Less(Codes(r[i]), Codes(r[j])) {
      assert r[j] == rest[j - 1];
      if i > 0 { assert r[i] == rest[i - 1]; }
    }
  }

  lemma LeastIsLess(x: string, s: set<string>, y: string)
    requires Least(x, s) && y in s && y != x
    ensures Lex.Less(Codes(x), Codes(y))
  {
    Lex.CompareRange(Codes(x), Codes(y));
    CodesInjective(x, y);
  }

  /** The names a sync goes through are in ascending order of their bytes. */
  lemma {:induction false} KeysAscend(s: set<string>)
    ensures Ascends(SortedKeys(s))
    decreases |s|
  {
    if s != {} {
      LeastUnique(s);
      var x :| x in s && Least(x, s);
      var rest := SortedKeys(s - {x});
      KeysAscend(s - {x});
      forall j | 0 <= j < |rest| ensures Lex.Less(Codes(x), Codes(rest[j])) {
        assert rest[j] in s - {x};
        LeastIsLess(x, s, rest[j]);
      }
      AscendsFront(x, rest);
      assert SortedKeys(s) == [x] + rest;
    }
  }
}
