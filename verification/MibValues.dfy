/** The value at each OID of the agent's view: types by their BER tags, columns by their numbers. */
module MibValues {
  import opened Oids
  import opened Ber
  import opened BerValues
  import opened Mibs

  /** A leaf with this OID and value is in the view. */
  predicate Shows(base: OID, s: Snapshot, oid: OID, v: Value)
    requires Bounded(s)
  {
    Variable(oid, v) in Leaves(base, s)
  }

  // Values by type: INTEGER, OCTET STRING, OBJECT IDENTIFIER, Gauge32, TimeTicks, Counter64.

  function AnInteger(n: int64): Value { Value(0x02, n, 0, "", []) }
  function AString(t: Octets): Value { Value(0x04, 0, 0, t, []) }
  function AnOid(oid: OID): Value { Value(0x06, 0, 0, OidText(oid), []) }
  function AGauge(n: int64): Value { Value(0x42, n, 0, "", []) }
  function Ticks(n: int64): Value { Value(0x43, n, 0, "", []) }

  /** A counter shows 0 for what is negative. */
  function ACounter(n: int64): Value { if n < 0 then Value(0x46, 0, 0, "", []) else Value(0x46, n, n, "", []) }

  const DESCRIPTION: Octets := "openvpnd - OpenVPN management daemon"
  const DAEMON: Octets := "openvpnd"

  function SystemOid(n: Arc): OID { [1, 3, 6, 1, 2, 1, 1, n, 0] }
  function ScalarOid(base: OID, n: Arc): OID { base + [1, n, 0] }

  /** Column and row of the two tables. */
  function InstanceOid(base: OID, col: Arc, row: nat): OID
    requires row < 0x8000_0000_0000_0000
  {
    base + [2, 1, col, row + 1]
  }

  function ClientOid(base: OID, col: Arc, row: nat): OID
    requires row < 0x8000_0000_0000_0000
  {
    base + [3, 1, col, row + 1]
  }

  lemma InLeaves(base: OID, s: Snapshot, i: nat)
    requires Bounded(s) && i < |Leaves(base, s)|
    ensures Leaves(base, s)[i] in Leaves(base, s)
  {
  }

  lemma SystemCell(base: OID, s: Snapshot, c: nat)
    requires Bounded(s) && c < 7
    ensures Shows(base, s, SystemOid(c + 1), SystemValues(base, s)[c])
  {
    LeafAt(base, s, c);
    InLeaves(base, s, c);
    assert SYS + [c + 1, 0] == [1, 3, 6, 1, 2, 1, 1, c + 1, 0];
  }

  lemma Described()
    ensures Octet("openvpnd - OpenVPN management daemon") == AString(DESCRIPTION)
  {
  }

  lemma Named()
    ensures Octet("openvpnd") == AString(DAEMON)
  {
  }

  /** Without a base of its own the agent shows its leaves below 1.3.6.1.4.1.66666.2. */
  lemma BaseIs(base: OID)
    ensures EffectiveBase(base) == if base == [] then [1, 3, 6, 1, 4, 1, 66666, 2] else base
  {
  }

  /** The system group, 1.3.6.1.2.1.1: what the agent says of itself. */
  lemma SystemDescription(base: OID, s: Snapshot)
    requires Bounded(s)
    ensures Shows(base, s, SystemOid(1), AString(DESCRIPTION))
  {
    SystemCell(base, s, 0);
    Described();
  }

  lemma SystemName(base: OID, s: Snapshot)
    requires Bounded(s)
    ensures Shows(base, s, SystemOid(5), AString(if s.hostname == "" then DAEMON else s.hostname))
  {
    SystemCell(base, s, 4);
    Named();
  }

  lemma SystemBlanks(base: OID, s: Snapshot)
    requires Bounded(s)
    ensures Shows(base, s, SystemOid(4), AString("")) && Shows(base, s, SystemOid(6), AString(""))
  {
    SystemCell(base, s, 3); SystemCell(base, s, 5);
  }

  lemma SystemNumbers(base: OID, s: Snapshot)
    requires Bounded(s)
    ensures Shows(base, s, SystemOid(2), AnOid(base))
    ensures Shows(base, s, SystemOid(3), Ticks(if s.uptime < 0 then 0 else s.uptime))
    ensures Shows(base, s, SystemOid(7), AnInteger(72))
  {
    SystemCell(base, s, 1); SystemCell(base, s, 2); SystemCell(base, s, 6);
  }

  lemma ScalarCell(base: OID, s: Snapshot, c: nat)
    requires Bounded(s) && c < 3
    ensures Shows(base, s, ScalarOid(base, c + 1), ScalarValues(s)[c])
  {
    LeafAt(base, s, 7 + c);
    InLeaves(base, s, 7 + c);
  }

  /** The scalars: how many instances and clients there are, and the uptime. */
  lemma ScalarValuesAre(base: OID, s: Snapshot)
    requires Bounded(s)
    ensures Shows(base, s, ScalarOid(base, 1), AnInteger(|s.instances|))
    ensures Shows(base, s, ScalarOid(base, 2), AnInteger(|s.clients|))
    ensures Shows(base, s, ScalarOid(base, 3), Ticks(if s.uptime < 0 then 0 else s.uptime))
  {
    ScalarCell(base, s, 0); ScalarCell(base, s, 1); ScalarCell(base, s, 2);
  }

  lemma {:induction false} InstanceTableRow(base: OID, s: Snapshot, rows: nat, row: nat, c: nat)
    requires Bounded(s) && row < rows <= |s.instances| && c < 11
    ensures InstanceTable(base, s, rows)[11 * row + c] == InstanceRow(base, s, row)[c]
  {
    if row < rows - 1 { InstanceTableRow(base, s, rows - 1, row, c); }
  }

  lemma {:induction false} ClientTableRow(base: OID, s: Snapshot, rows: nat, row: nat, c: nat)
    requires Bounded(s) && row < rows <= |s.clients| && c < 13
    ensures ClientTable(base, s, rows)[13 * row + c] == ClientRow(base, s, row)[c]
  {
    if row < rows - 1 { ClientTableRow(base, s, rows - 1, row, c); }
  }

  lemma InstanceCell(base: OID, s: Snapshot, row: nat, c: nat)
    requires Bounded(s) && row < |s.instances| && c < 11
    ensures Shows(base, s, InstanceOid(base, c + 1, row), InstanceValues(row + 1, s.instances[row])[c])
  {
    var i := 10 + (11 * row + c);
    InstanceTableRow(base, s, |s.instances|, row, c);
    LeafAt(base, s, i);
    InLeaves(base, s, i);
    assert base + [2, 1] + [c + 1, row + 1] == base + [2, 1, c + 1, row + 1];
  }

  lemma ClientCell(base: OID, s: Snapshot, row: nat, c: nat)
    requires Bounded(s) && row < |s.clients| && c < 13
    ensures Shows(base, s, ClientOid(base, c + 1, row), ClientValues(row + 1, s.clients[row])[c])
  {
    var i := 10 + 11 * |s.instances| + (13 * row + c);
    ClientTableRow(base, s, |s.clients|, row, c);
    LeafAt(base, s, i);
    InLeaves(base, s, i);
    assert base + [3, 1] + [c + 1, row + 1] == base + [3, 1, c + 1, row + 1];
  }

  /** What the row of an instance shows of it. */
  lemma InstanceFacts(base: OID, s: Snapshot, row: nat, st: InstanceStats)
    requires Bounded(s) && row < |s.instances| && st == s.instances[row]
    ensures Shows(base, s, InstanceOid(base, 1, row), AnInteger(row + 1))
    ensures Shows(base, s, InstanceOid(base, 2, row), AString(st.name))
    ensures Shows(base, s, InstanceOid(base, 3, row), AString(st.role))
    ensures Shows(base, s, InstanceOid(base, 4, row), AnInteger(if st.up then 1 else 0))
    ensures Shows(base, s, InstanceOid(base, 5, row), AnInteger(st.port))
    ensures Shows(base, s, InstanceOid(base, 6, row), AnInteger(st.connectedClients))
  {
    InstanceCell(base, s, row, 0); InstanceCell(base, s, row, 1); InstanceCell(base, s, row, 2);
    InstanceCell(base, s, row, 3); InstanceCell(base, s, row, 4); InstanceCell(base, s, row, 5);
  }

  /** The traffic of an instance, and its process. */
  lemma InstanceTraffic(base: OID, s: Snapshot, row: nat, st: InstanceStats)
    requires Bounded(s) && row < |s.instances| && st == s.instances[row]
    ensures Shows(base, s, InstanceOid(base, 7, row), ACounter(st.rxBytes))
    ensures Shows(base, s, InstanceOid(base, 8, row), ACounter(st.txBytes))
    ensures Shows(base, s, InstanceOid(base, 9, row), AGauge(st.rxRate))
    ensures Shows(base, s, InstanceOid(base, 10, row), AGauge(st.txRate))
    ensures Shows(base, s, InstanceOid(base, 11, row), AnInteger(st.pid))
  {
    InstanceCell(base, s, row, 6); InstanceCell(base, s, row, 7); InstanceCell(base, s, row, 8);
    InstanceCell(base, s, row, 9); InstanceCell(base, s, row, 10);
  }

  /** The names and addresses of a client. */
  lemma ClientNames(base: OID, s: Snapshot, row: nat, p: ClientStats)
    requires Bounded(s) && row < |s.clients| && p == s.clients[row]
    ensures Shows(base, s, ClientOid(base, 1, row), AnInteger(row + 1))
    ensures Shows(base, s, ClientOid(base, 2, row), AString(p.inst))
    ensures Shows(base, s, ClientOid(base, 3, row), AString(p.commonName))
    ensures Shows(base, s, ClientOid(base, 4, row), AString(p.name))
    ensures Shows(base, s, ClientOid(base, 5, row), AString(p.realAddress))
    ensures Shows(base, s, ClientOid(base, 6, row), AString(p.virtualAddress))
  {
    ClientCell(base, s, row, 0); ClientCell(base, s, row, 1); ClientCell(base, s, row, 2);
    ClientCell(base, s, row, 3); ClientCell(base, s, row, 4); ClientCell(base, s, row, 5);
  }

  /** The state of a client. */
  lemma ClientState(base: OID, s: Snapshot, row: nat, p: ClientStats)
    requires Bounded(s) && row < |s.clients| && p == s.clients[row]
    ensures Shows(base, s, ClientOid(base, 7, row), AnInteger(if p.connected then 1 else 0))
    ensures Shows(base, s, ClientOid(base, 8, row), AnInteger(if p.suspended then 1 else 0))
    ensures Shows(base, s, ClientOid(base, 9, row), AnInteger(p.connectedSince))
  {
    ClientCell(base, s, row, 6); ClientCell(base, s, row, 7); ClientCell(base, s, row, 8);
  }

  /** The traffic of a client. */
  lemma ClientTraffic(base: OID, s: Snapshot, row: nat, p: ClientStats)
    requires Bounded(s) && row < |s.clients| && p == s.clients[row]
    ensures Shows(base, s, ClientOid(base, 10, row), ACounter(p.rxBytes))
    ensures Shows(base, s, ClientOid(base, 11, row), ACounter(p.txBytes))
    ensures Shows(base, s, ClientOid(base, 12, row), AGauge(p.rxRate))
    ensures Shows(base, s, ClientOid(base, 13, row), AGauge(p.txRate))
  {
    ClientCell(base, s, row, 9); ClientCell(base, s, row, 10); ClientCell(base, s, row, 11); ClientCell(base, s, row, 12);
  }

  /** Each SNMP type is sent under its own tag, and anything else as an INTEGER. */
  lemma TypesOnTheWire(v: Value)
    ensures ValueTlv(v) != []
    ensures ValueTlv(v)[0] == if v.typ == 0x02 || v.typ == 0x04 || v.typ == 0x05 || v.typ == 0x06 || 0x40 <= v.typ <= 0x43
        || v.typ == 0x46 || 0x80 <= v.typ <= 0x82 then v.typ else 0x02
  {
  }
}
