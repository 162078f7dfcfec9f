/** The agent's MIB (internal/snmp/mib.go): construction, order, binary search, GetNext. */
module Mibs {
  import opened Wrappers
  import opened Oids
  import opened Ber
  import opened BerValues
  import Lex

  datatype Variable = Variable(oid: OID, value: Value)

  // ---- contents ----

  /** Rates arrive already clamped to 32 bits; the source computes them in floating point. */
  type Gauge = n: int | 0 <= n < UINT32_MODULUS

  datatype InstanceStats = InstanceStats(name: Octets, role: Octets, up: bool, port: int64, connectedClients: int64,
                                         rxBytes: int64, txBytes: int64, rxRate: Gauge, txRate: Gauge, pid: int64)

  datatype ClientStats = ClientStats(inst: Octets, commonName: Octets, name: Octets, realAddress: Octets,
                                     virtualAddress: Octets, connected: bool, suspended: bool, connectedSince: int64,
                                     rxBytes: int64, txBytes: int64, rxRate: Gauge, txRate: Gauge)

  /** The cache maps as lists in name order, and what the host supplies. */
  datatype Snapshot = Snapshot(hostname: Octets, uptime: int64, instances: seq<InstanceStats>, clients: seq<ClientStats>)

  /** Go lengths are ints. */
  ghost predicate Bounded(s: Snapshot) {
    |s.instances| < 0x8000_0000_0000_0000 && |s.clients| < 0x8000_0000_0000_0000
  }

  const SYS: OID := [1, 3, 6, 1, 2, 1, 1]
  const DEFAULT_BASE: OID := [1, 3, 6, 1, 4, 1, 66666, 2]

  function Integer(n: int64): Value { Number(TAG_INTEGER, n) }
  function Octet(s: Octets): Value { Bare(TAG_OCTET_STRING).(str := s) }
  function OidValue(oid: OID): Value { Bare(TAG_OID).(str := OidText(oid)) }
  function TimeTicks(n: int64): Value { Number(TAG_TIME_TICKS, n) }
  function Max0(n: int64): int64 { if n < 0 then 0 else n }
  function Counter64(n: int64): Value { Bare(TAG_COUNTER64).(num := Max0(n), u64 := Max0(n)) }
  function Gauge32(n: Gauge): Value { Number(TAG_GAUGE32, n) }
  function Flag(b: bool): Value { Integer(if b then 1 else 0) }

  function SystemValues(base: OID, s: Snapshot): (r: seq<Value>)
    ensures |r| == 7
  {
    [ Octet("openvpnd - OpenVPN management daemon"), OidValue(base), TimeTicks(Max0(s.uptime)), Octet(""),
      Octet(if s.hostname == "" then "openvpnd" else s.hostname), Octet(""), Integer(72) ]
  }

  function SystemLeaves(base: OID, s: Snapshot): (r: seq<Variable>)
    ensures |r| == 7
  {
    seq(7, c requires 0 <= c < 7 => Variable(SYS + [c + 1, 0], SystemValues(base, s)[c]))
  }

  function ScalarValues(s: Snapshot): (r: seq<Value>)
    requires Bounded(s)
    ensures |r| == 3
  {
    [ Integer(|s.instances|), Integer(|s.clients|), TimeTicks(Max0(s.uptime)) ]
  }

  function ScalarLeaves(base: OID, s: Snapshot): (r: seq<Variable>)
    requires Bounded(s)
    ensures |r| == 3
  {
    seq(3, c requires 0 <= c < 3 => Variable(base + [1, c + 1, 0], ScalarValues(s)[c]))
  }

  function InstanceValues(idx: int64, st: InstanceStats): (r: seq<Value>)
    ensures |r| == 11
  {
    [ Integer(idx), Octet(st.name), Octet(st.role), Flag(st.up), Integer(st.port), Integer(st.connectedClients),
      Counter64(st.rxBytes), Counter64(st.txBytes), Gauge32(st.rxRate), Gauge32(st.txRate), Integer(st.pid) ]
  }

  function ClientValues(idx: int64, p: ClientStats): (r: seq<Value>)
    ensures |r| == 13
  {
    [ Integer(idx), Octet(p.inst), Octet(p.commonName), Octet(p.name), Octet(p.realAddress), Octet(p.virtualAddress),
      Flag(p.connected), Flag(p.suspended), Integer(p.connectedSince),
      Counter64(p.rxBytes), Counter64(p.txBytes), Gauge32(p.rxRate), Gauge32(p.txRate) ]
  }

  /** One table row: columns 1, 2, ... under `entry`, each extended by the row index. */
  function RowLeaves(entry: OID, idx: Arc, values: seq<Value>): (r: seq<Variable>)
    requires |values| < 100
    ensures |r| == |values|
  {
    seq(|values|, c requires 0 <= c < |values| => Variable(entry + [c + 1, idx], values[c]))
  }

  function InstanceRow(base: OID, s: Snapshot, row: nat): (r: seq<Variable>)
    requires Bounded(s) && row < |s.instances|
    ensures |r| == 11
  {
    RowLeaves(base + [2, 1], row + 1, InstanceValues(row + 1, s.instances[row]))
  }

  function ClientRow(base: OID, s: Snapshot, row: nat): (r: seq<Variable>)
    requires Bounded(s) && row < |s.clients|
    ensures |r| == 13
  {
    RowLeaves(base + [3, 1], row + 1, ClientValues(row + 1, s.clients[row]))
  }

  function InstanceTable(base: OID, s: Snapshot, rows: nat): (r: seq<Variable>)
    requires Bounded(s) && rows <= |s.instances|
    ensures |r| == 11 * rows
  {
    if rows == 0 then [] else InstanceTable(base, s, rows - 1) + InstanceRow(base, s, rows - 1)
  }

  function ClientTable(base: OID, s: Snapshot, rows: nat): (r: seq<Variable>)
    requires Bounded(s) && rows <= |s.clients|
    ensures |r| == 13 * rows
  {
    if rows == 0 then [] else ClientTable(base, s, rows - 1) + ClientRow(base, s, rows - 1)
  }

  function EffectiveBase(base: OID): OID { if base == [] then DEFAULT_BASE else base }

  /** All leaves in the order they are appended, before sorting. */
  function Leaves(base: OID, s: Snapshot): (r: seq<Variable>)
    requires Bounded(s)
    ensures |r| == 10 + 11 * |s.instances| + 13 * |s.clients|
  {
    SystemLeaves(base, s) + ScalarLeaves(base, s)
      + InstanceTable(base, s, |s.instances|) + ClientTable(base, s, |s.clients|)
  }

  // ---- order ----

  ghost predicate Sorted(vars: seq<Variable>) {
    forall i, j :: 0 <= i < j < |vars| ==> Lex.Compare(vars[i].oid, vars[j].oid) <= 0
  }

  ghost predicate StrictlySorted(vars: seq<Variable>) {
    forall i, j :: 0 <= i < j < |vars| ==> Lex.Less(vars[i].oid, vars[j].oid)
  }

  ghost predicate DistinctOids(vars: seq<Variable>) {
    forall i, j :: 0 <= i < j < |vars| ==> vars[i].oid != vars[j].oid
  }

  /** sort.Slice by OID, as an insertion sort; see StrictOrderIsUnique. */
  function Insert(v: Variable, vars: seq<Variable>): seq<Variable> {
    if vars == [] || Lex.Compare(v.oid, vars[0].oid) <= 0 then [v] + vars
    else [vars[0]] + Insert(v, vars[1..])
  }

  function SortByOid(vars: seq<Variable>): seq<Variable> {
    if vars == [] then [] else Insert(vars[0], SortByOid(vars[1..]))
  }

  ghost predicate AllFrom(low: OID, vars: seq<Variable>) { forall x :: x in vars ==> Lex.Compare(low, x.oid) <= 0 }
  ghost predicate AllAbove(low: OID, vars: seq<Variable>) { forall x :: x in vars ==> Lex.Less(low, x.oid) }
  ghost predicate NoneAt(oid: OID, vars: seq<Variable>) { forall x :: x in vars ==> x.oid != oid }

  // The three order predicates, read from the front.

  lemma SortedCons(h: Variable, t: seq<Variable>)
    ensures Sorted([h] + t) <==> Sorted(t) && AllFrom(h.oid, t)
  {
    var r := [h] + t;
    assert r[1..] == t;
    TailOrder(r);
    if Sorted(r) {
      forall x | x in t ensures Lex.Compare(h.oid, x.oid) <= 0 {
        var i :| 0 <= i < |t| && t[i] == x;
        assert r[0] == h && r[i + 1] == x;
      }
    }
  }

  lemma StrictCons(h: Variable, t: seq<Variable>)
    ensures StrictlySorted([h] + t) <==> StrictlySorted(t) && AllAbove(h.oid, t)
  {
    var r := [h] + t;
    assert r[1..] == t;
    TailOrder(r);
    if StrictlySorted(r) {
      forall x | x in t ensures Lex.Less(h.oid, x.oid) {
        var i :| 0 <= i < |t| && t[i] == x;
        assert r[0] == h && r[i + 1] == x;
      }
    }
  }

  lemma DistinctCons(h: Variable, t: seq<Variable>)
    ensures DistinctOids([h] + t) <==> DistinctOids(t) && NoneAt(h.oid, t)
  {
    var r := [h] + t;
    assert r[1..] == t;
    TailOrder(r);
    if DistinctOids(r) {
      forall x | x in t ensures x.oid != h.oid {
        var i :| 0 <= i < |t| && t[i] == x;
        assert r[0] == h && r[i + 1] == x;
      }
    }
  }

  lemma TailOrder(r: seq<Variable>)
    requires r != []
    ensures Sorted(r) ==> Sorted(r[1..])
    ensures StrictlySorted(r) ==> StrictlySorted(r[1..])
    ensures DistinctOids(r) ==> DistinctOids(r[1..])
  {
  }

  lemma {:induction false} InsertMembers(v: Variable, vars: seq<Variable>)
    ensures multiset(Insert(v, vars)) == multiset([v]) + multiset(vars)
    ensures forall x :: x in Insert(v, vars) <==> x == v || x in vars
  {
    if vars != [] && Lex.Compare(v.oid, vars[0].oid) > 0 {
      InsertMembers(v, vars[1..]);
      assert vars == [vars[0]] + vars[1..];
    }
  }

  lemma {:induction false} InsertSorts(v: Variable, vars: seq<Variable>)
    requires Sorted(vars)
    ensures Sorted(Insert(v, vars))
    ensures StrictlySorted(Insert(v, vars)) <==> StrictlySorted(vars) && NoneAt(v.oid, vars)
  {
    if vars == [] {
      SortedCons(v, vars);
      StrictCons(v, vars);
    } else {
      var h, t := vars[0], vars[1..];
      assert vars == [h] + t;
      SortedCons(h, t);
      StrictCons(h, t);
      Lex.CompareRange(v.oid, h.oid);
      if Lex.Compare(v.oid, h.oid) <= 0 {
        forall x | x in vars
          ensures Lex.Compare(v.oid, x.oid) <= 0
          ensures Lex.Less(v.oid, x.oid) <==> x.oid != v.oid
        {
          if x != h { Lex.LessTransitive(v.oid, h.oid, x.oid); }
          Lex.CompareRange(v.oid, x.oid);
        }
        SortedCons(v, vars);
        StrictCons(v, vars);
      } else {
        InsertSorts(v, t);
        InsertMembers(v, t);
        SortedCons(h, Insert(v, t));
        StrictCons(h, Insert(v, t));
      }
    }
  }

  /** Sorting orders the leaves, keeps them all, and the result is strictly increasing
      exactly when no two leaves share an OID. */
  lemma {:induction false} SortCorrect(vars: seq<Variable>)
    ensures Sorted(SortByOid(vars)) && multiset(SortByOid(vars)) == multiset(vars)
    ensures StrictlySorted(SortByOid(vars)) <==> DistinctOids(vars)
  {
    if vars != [] {
      var t := SortByOid(vars[1..]);
      SortCorrect(vars[1..]);
      InsertSorts(vars[0], t);
      InsertMembers(vars[0], t);
      assert vars == [vars[0]] + vars[1..];
      SameMembers(t, vars[1..]);
      DistinctCons(vars[0], vars[1..]);
    }
  }

  lemma SameMembers(s: seq<Variable>, t: seq<Variable>)
    requires multiset(s) == multiset(t)
    ensures forall x :: x in s <==> x in t
  {
    assert forall x :: x in s <==> x in multiset(s);
    assert forall x :: x in t <==> x in multiset(t);
  }

  /** Any two strictly increasing arrangements of the same leaves are equal, so the sorting
      algorithm behind sort.Slice does not matter once the OIDs differ. */
  lemma {:induction false} StrictOrderIsUnique(s: seq<Variable>, t: seq<Variable>)
    requires StrictlySorted(s) && StrictlySorted(t) && multiset(s) == multiset(t)
    ensures s == t
  {
    SameMembers(s, t);
    assert |s| == |multiset(s)| && |t| == |multiset(t)|;
    if s != [] {
      SmallestFirst(s, t);
      assert s == [s[0]] + s[1..] && t == [t[0]] + t[1..];
      assert multiset(s[1..]) == multiset(s) - multiset{s[0]};
      assert multiset(t[1..]) == multiset(t) - multiset{t[0]};
      StrictOrderIsUnique(s[1..], t[1..]);
    }
  }

  lemma SmallestFirst(s: seq<Variable>, t: seq<Variable>)
    requires StrictlySorted(s) && StrictlySorted(t) && s != [] && t != []
    requires forall x :: x in s <==> x in t
    ensures s[0] == t[0]
  {
    assert s[0] in t && t[0] in s;
    assert s == [s[0]] + s[1..] && t == [t[0]] + t[1..];
    StrictCons(s[0], s[1..]);
    StrictCons(t[0], t[1..]);
    Lex.CompareRange(s[0].oid, t[0].oid);
  }

  // ---- construction ----

  method AppendLeaves(base: OID, s: Snapshot) returns (vars: seq<Variable>)
    requires Bounded(s)
    ensures vars == Leaves(base, s)
  {
    vars := SystemLeaves(base, s);
    vars := vars + ScalarLeaves(base, s);
    ghost var head := vars;
    for row := 0 to |s.instances|
      invariant vars == head + InstanceTable(base, s, row)
    {
      vars := vars + InstanceRow(base, s, row);
    }
    ghost var upper := vars;
    for row := 0 to |s.clients|
      invariant vars == upper + ClientTable(base, s, row)
    {
      vars := vars + ClientRow(base, s, row);
    }
  }

  method BuildMIB(base0: OID, s: Snapshot) returns (vars: seq<Variable>)
    requires Bounded(s)
    ensures vars == SortByOid(Leaves(EffectiveBase(base0), s))
  {
    var base := base0;
    if |base| == 0 { base := DEFAULT_BASE; }
    vars := AppendLeaves(base, s);
    vars := SortByOid(vars);
  }

  // ---- lookup ----

  /** Number of leaves at the front that are not above `oid`. */
  function FirstAbove(vars: seq<Variable>, oid: OID): (k: nat)
    ensures k <= |vars|
  {
    if vars == [] || Lex.Less(oid, vars[0].oid) then 0 else 1 + FirstAbove(vars[1..], oid)
  }

  lemma {:induction false} FirstAboveIsFirst(vars: seq<Variable>, oid: OID)
    ensures var k := FirstAbove(vars, oid);
      && (forall i :: 0 <= i < k ==> !Lex.Less(oid, vars[i].oid))
      && (k < |vars| ==> Lex.Less(oid, vars[k].oid))
  {
    if vars != [] && !Lex.Less(oid, vars[0].oid) {
      FirstAboveIsFirst(vars[1..], oid);
    }
  }

  lemma {:induction false} FirstAboveIs(vars: seq<Variable>, oid: OID, k: nat)
    requires k <= |vars|
    requires forall i :: 0 <= i < k ==> !Lex.Less(oid, vars[i].oid)
    requires k < |vars| ==> Lex.Less(oid, vars[k].oid)
    ensures FirstAbove(vars, oid) == k
  {
    if k > 0 {
      assert !Lex.Less(oid, vars[0].oid);
      FirstAboveIs(vars[1..], oid, k - 1);
    }
  }

  function NextOf(vars: seq<Variable>, oid: OID): Option<Variable> {
    var k := FirstAbove(vars, oid);
    if k < |vars| then Some(vars[k]) else None
  }

  /** sort.Search: the first leaf at or above `oid`. */
  method Search(vars: seq<Variable>, oid: OID) returns (i: nat)
    requires Sorted(vars)
    ensures i <= |vars|
    ensures forall k :: 0 <= k < i ==> Lex.Less(vars[k].oid, oid)
    ensures forall k :: i <= k < |vars| ==> Lex.Compare(vars[k].oid, oid) >= 0
  {
    i := 0;
    var j := |vars|;
    while i < j
      invariant 0 <= i <= j <= |vars|
      invariant forall k :: 0 <= k < i ==> Lex.Less(vars[k].oid, oid)
      invariant forall k :: j <= k < |vars| ==> Lex.Compare(vars[k].oid, oid) >= 0
    {
      var h := i + (j - i) / 2;
      var c := Compare(vars[h].oid, oid);
      if c < 0 {
        forall k | 0 <= k < h + 1 ensures Lex.Less(vars[k].oid, oid) {
          if k < h { Lex.LessTransitive(vars[k].oid, vars[h].oid, oid); }
        }
        i := h + 1;
      } else {
        forall k | h <= k < |vars| ensures Lex.Compare(vars[k].oid, oid) >= 0 {
          Lex.CompareRange(oid, vars[h].oid);
          Lex.CompareRange(oid, vars[k].oid);
          if k > h { Lex.LessTransitive(oid, vars[h].oid, vars[k].oid); }
        }
        j := h;
      }
    }
  }

  /** The first leaf with exactly this OID, if any. */
  method Get(vars: seq<Variable>, oid: OID) returns (r: Option<Variable>)
    requires Sorted(vars)
    ensures r == ExactOf(vars, oid)
  {
    var i := Search(vars, oid);
    forall k | 0 <= k < i ensures vars[k].oid != oid { Lex.CompareRange(oid, oid); }
    if i < |vars| {
      var same := Equal(vars[i].oid, oid);
      if same {
        ExactAt(vars, oid, i);
        return Some(vars[i]);
      }
      forall k | i <= k < |vars| ensures vars[k].oid != oid {
        Lex.CompareRange(vars[i].oid, oid);
        Lex.CompareRange(oid, vars[i].oid);
      }
    }
    ExactAt(vars, oid, |vars|);
    return None;
  }

  function ExactOf(vars: seq<Variable>, oid: OID): Option<Variable> {
    if vars == [] then None else if vars[0].oid == oid then Some(vars[0]) else ExactOf(vars[1..], oid)
  }

  lemma {:induction false} ExactAt(vars: seq<Variable>, oid: OID, i: nat)
    requires i <= |vars| && forall k :: 0 <= k < i ==> vars[k].oid != oid
    requires i < |vars| ==> vars[i].oid == oid
    ensures ExactOf(vars, oid) == if i < |vars| then Some(vars[i]) else None
  {
    if i > 0 {
      assert vars[0].oid != oid;
      ExactAt(vars[1..], oid, i - 1);
    }
  }

  method GetNext(vars: seq<Variable>, oid: OID) returns (r: Option<Variable>)
    requires Sorted(vars)
    ensures r == NextOf(vars, oid)
  {
    var i := Search(vars, oid);
    forall k | 0 <= k < i ensures !Lex.Less(oid, vars[k].oid) { Lex.CompareRange(oid, vars[k].oid); }
    if i < |vars| {
      var same := Equal(vars[i].oid, oid);
      if same {
        Lex.CompareRange(oid, oid);
        i := i + 1;
      }
    }
    while i < |vars|
      invariant i <= |vars|
      invariant forall k :: 0 <= k < i ==> !Lex.Less(oid, vars[k].oid)
    {
      var c := Compare(vars[i].oid, oid);
      Lex.CompareRange(oid, vars[i].oid);
      if c > 0 { break; }
      i := i + 1;
    }
    FirstAboveIs(vars, oid, i);
    if i >= |vars| { return None; }
    return Some(vars[i]);
  }

  // ---- walking ----

  lemma NextMovesOn(vars: seq<Variable>, oid: OID)
    requires Sorted(vars) && FirstAbove(vars, oid) < |vars|
    ensures FirstAbove(vars, vars[FirstAbove(vars, oid)].oid) > FirstAbove(vars, oid)
  {
    var k := FirstAbove(vars, oid);
    var k' := FirstAbove(vars, vars[k].oid);
    FirstAboveIsFirst(vars, vars[k].oid);
    if k' < k {
      Lex.CompareRange(vars[k'].oid, vars[k].oid);
    } else {
      Lex.CompareRange(vars[k].oid, vars[k].oid);
    }
  }

  /** Repeated GetNext from `cursor` until the end of the view; ends because the number of
      leaves above the cursor falls. */
  ghost function Walk(vars: seq<Variable>, cursor: OID): seq<Variable>
    requires Sorted(vars)
    decreases |vars| - FirstAbove(vars, cursor)
  {
    var k := FirstAbove(vars, cursor);
    if k == |vars| then []
    else
      NextMovesOn(vars, cursor);
      [vars[k]] + Walk(vars, vars[k].oid)
  }

  lemma {:induction false} WalkFromCursor(vars: seq<Variable>, cursor: OID)
    requires StrictlySorted(vars)
    ensures Sorted(vars) && Walk(vars, cursor) == vars[FirstAbove(vars, cursor)..]
    decreases |vars| - FirstAbove(vars, cursor)
  {
    var k := FirstAbove(vars, cursor);
    if k < |vars| {
      FirstAboveIsFirst(vars, cursor);
      NextMovesOn(vars, cursor);
      forall i | 0 <= i < k + 1 ensures !Lex.Less(vars[k].oid, vars[i].oid) {
        Lex.CompareRange(vars[i].oid, vars[k].oid);
      }
      FirstAboveIs(vars, vars[k].oid, k + 1);
      WalkFromCursor(vars, vars[k].oid);
    }
  }

  lemma {:induction false} WalkIncreases(vars: seq<Variable>, cursor: OID)
    requires Sorted(vars)
    ensures StrictlySorted(Walk(vars, cursor))
    ensures forall i :: 0 <= i < |Walk(vars, cursor)| ==> Lex.Less(cursor, Walk(vars, cursor)[i].oid)
    decreases |vars| - FirstAbove(vars, cursor)
  {
    var k := FirstAbove(vars, cursor);
    if k < |vars| {
      FirstAboveIsFirst(vars, cursor);
      NextMovesOn(vars, cursor);
      var t := Walk(vars, vars[k].oid);
      WalkIncreases(vars, vars[k].oid);
      StrictCons(vars[k], t);
      forall i | 0 <= i < |t| ensures Lex.Less(cursor, t[i].oid) {
        Lex.LessTransitive(cursor, vars[k].oid, t[i].oid);
      }
    }
  }

  ghost predicate NoEmptyOid(vars: seq<Variable>) { forall i :: 0 <= i < |vars| ==> vars[i].oid != [] }

  /** From the empty OID a walk lists every leaf once, in order, exactly when the OIDs of the
      leaves are strictly increasing and none is empty. */
  lemma WalkVisitsAll(vars: seq<Variable>)
    requires Sorted(vars)
    ensures Walk(vars, []) == vars <==> StrictlySorted(vars) && NoEmptyOid(vars)
  {
    WalkIncreases(vars, []);
    if StrictlySorted(vars) && NoEmptyOid(vars) {
      WalkFromCursor(vars, []);
      FirstAboveIs(vars, [], 0);
    } else if Walk(vars, []) == vars {
      forall i | 0 <= i < |vars| ensures vars[i].oid != [] { assert Lex.Less([], Walk(vars, [])[i].oid); }
    }
  }

  // ---- which bases give distinct leaves ----

  /** The OID of the i-th appended leaf. */
  function LeafOid(base: OID, insts: nat, i: nat): OID
    requires insts < 0x8000_0000_0000_0000
    requires i < 10 + 11 * insts + 13 * 0x8000_0000_0000_0000
  {
    if i < 7 then SYS + [i + 1, 0]
    else if i < 10 then base + [1, i - 6, 0]
    else if i < 10 + 11 * insts then base + [2, 1, (i - 10) % 11 + 1, (i - 10) / 11 + 1]
    else base + [3, 1, (i - 10 - 11 * insts) % 13 + 1, (i - 10 - 11 * insts) / 13 + 1]
  }

  lemma RowOids(entry: OID, idx: Arc, values: seq<Value>, c: nat)
    requires |values| < 100 && c < |values|
    ensures RowLeaves(entry, idx, values)[c].oid == entry + [c + 1, idx]
  {
  }

  lemma {:induction false} InstanceTableOids(base: OID, s: Snapshot, rows: nat, q: nat)
    requires Bounded(s) && rows <= |s.instances| && q < 11 * rows
    ensures InstanceTable(base, s, rows)[q].oid == base + [2, 1, q % 11 + 1, q / 11 + 1]
  {
    if q < 11 * (rows - 1) {
      InstanceTableOids(base, s, rows - 1, q);
    } else {
      var c := q - 11 * (rows - 1);
      RowOids(base + [2, 1], rows, InstanceValues(rows, s.instances[rows - 1]), c);
      assert q / 11 == rows - 1 && q % 11 == c;
      assert base + [2, 1] + [c + 1, rows] == base + [2, 1, c + 1, rows];
    }
  }

  lemma {:induction false} ClientTableOids(base: OID, s: Snapshot, rows: nat, q: nat)
    requires Bounded(s) && rows <= |s.clients| && q < 13 * rows
    ensures ClientTable(base, s, rows)[q].oid == base + [3, 1, q % 13 + 1, q / 13 + 1]
  {
    if q < 13 * (rows - 1) {
      ClientTableOids(base, s, rows - 1, q);
    } else {
      var c := q - 13 * (rows - 1);
      RowOids(base + [3, 1], rows, ClientValues(rows, s.clients[rows - 1]), c);
      assert q / 13 == rows - 1 && q % 13 == c;
      assert base + [3, 1] + [c + 1, rows] == base + [3, 1, c + 1, rows];
    }
  }

  lemma FixedLeafOids(base: OID, s: Snapshot, i: nat)
    requires Bounded(s) && i < 10
    ensures i < 7 ==> SystemLeaves(base, s)[i].oid == LeafOid(base, |s.instances|, i)
    ensures 7 <= i ==> ScalarLeaves(base, s)[i - 7].oid == LeafOid(base, |s.instances|, i)
  {
  }

  /** The part of the leaves that holds the i-th. */
  lemma LeafAt(base: OID, s: Snapshot, i: nat)
    requires Bounded(s) && i < |Leaves(base, s)|
    ensures var n := |s.instances|;
      && |Leaves(base, s)| == 10 + 11 * n + 13 * |s.clients|
      && (7 <= i < 10 ==> Leaves(base, s)[i] == ScalarLeaves(base, s)[i - 7])
      && (i < 7 ==> Leaves(base, s)[i] == SystemLeaves(base, s)[i])
      && (10 <= i < 10 + 11 * n ==> Leaves(base, s)[i] == InstanceTable(base, s, n)[i - 10])
      && (10 + 11 * n <= i ==> Leaves(base, s)[i] == ClientTable(base, s, |s.clients|)[i - 10 - 11 * n])
  {
  }

  lemma LeafOidAt(base: OID, s: Snapshot, i: nat)
    requires Bounded(s) && i < |Leaves(base, s)|
    ensures Leaves(base, s)[i].oid == LeafOid(base, |s.instances|, i)
  {
    var n := |s.instances|;
    LeafAt(base, s, i);
    if i < 10 {
      FixedLeafOids(base, s, i);
    } else if i < 10 + 11 * n {
      InstanceTableOids(base, s, n, i - 10);
    } else {
      ClientTableOids(base, s, |s.clients|, i - 10 - 11 * n);
    }
  }

  lemma SuffixAt(base: OID, suffix: OID, k: nat)
    requires k < |suffix|
    ensures |base + suffix| == |base| + |suffix| && (base + suffix)[|base| + k] == suffix[k]
  {
  }

  /** A leaf of the enterprise subtree meets a system leaf only below 1.3.6.1.2.1. */
  lemma SystemCollision(base: OID, k: Arc, suffix: OID)
    requires |suffix| == 3 || (|suffix| == 4 && suffix[0] != 1)
    requires SYS + [k, 0] == base + suffix
    ensures |suffix| == 3 && base == [1, 3, 6, 1, 2, 1]
  {
    var a := SYS + [k, 0];
    assert |a| == 9 && base == a[..|base|];
    SuffixAt(base, suffix, 0);
    assert a[5] == 1 && a[..6] == [1, 3, 6, 1, 2, 1];
  }

  lemma LeafOidsDiffer(base: OID, insts: nat, i: nat, j: nat)
    requires insts < 0x8000_0000_0000_0000
    requires i < j < 10 + 11 * insts + 13 * 0x8000_0000_0000_0000
    requires base != [1, 3, 6, 1, 2, 1]
    ensures LeafOid(base, insts, i) != LeafOid(base, insts, j)
  {
    var a, b := LeafOid(base, insts, i), LeafOid(base, insts, j);
    if i < 7 {
      if j < 7 {
        assert a[7] == i + 1 && b[7] == j + 1;
      } else if a == b {
        SystemCollision(base, i + 1, b[|base|..]);
      }
    } else {
      SameBaseDiffers(base, a[|base|..], b[|base|..]);
    }
  }

  lemma SameBaseDiffers(base: OID, s: OID, t: OID)
    ensures base + s == base + t <==> s == t
  {
    assert (base + s)[|base|..] == s && (base + t)[|base|..] == t;
  }

  lemma LeavesDistinct(base: OID, s: Snapshot)
    requires Bounded(s)
    ensures DistinctOids(Leaves(base, s)) <==> base != [1, 3, 6, 1, 2, 1]
    ensures base != [] ==> forall x :: x in Leaves(base, s) ==> x.oid != []
  {
    var leaves := Leaves(base, s);
    var n := |s.instances|;
    forall i | 0 <= i < |leaves| ensures leaves[i].oid == LeafOid(base, n, i) { LeafOidAt(base, s, i); }
    if base == [1, 3, 6, 1, 2, 1] {
      assert LeafOid(base, n, 0) == LeafOid(base, n, 7);
    } else {
      forall i, j | 0 <= i < j < |leaves| ensures leaves[i].oid != leaves[j].oid {
        LeafOidsDiffer(base, n, i, j);
      }
    }
  }

  /** The agent's MIB: 10 + 11 I + 13 C leaves, and a GetNext walk from the empty OID visits
      each of them exactly once, in strictly increasing order, exactly when the enterprise base
      is not 1.3.6.1.2.1. */
  lemma AgentWalk(base0: OID, s: Snapshot)
    requires Bounded(s)
    ensures var leaves := Leaves(EffectiveBase(base0), s);
      var vars := SortByOid(leaves);
      && |vars| == 10 + 11 * |s.instances| + 13 * |s.clients|
      && Sorted(vars) && multiset(vars) == multiset(leaves)
      && (Walk(vars, []) == vars <==> base0 != [1, 3, 6, 1, 2, 1])
      && (base0 != [1, 3, 6, 1, 2, 1] ==> StrictlySorted(vars))
  {
    var leaves := Leaves(EffectiveBase(base0), s);
    var vars := SortByOid(leaves);
    SortCorrect(leaves);
    LeavesDistinct(EffectiveBase(base0), s);
    SameMembers(vars, leaves);
    assert |vars| == |multiset(vars)| && |leaves| == |multiset(leaves)|;
    forall i | 0 <= i < |vars| ensures vars[i].oid != [] { assert vars[i] in vars; }
    WalkVisitsAll(vars);
  }
}
