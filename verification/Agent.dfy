/** The SNMPv2c agent (internal/snmp/agent.go): request dispatch, GET, GETNEXT, GETBULK. */
module Agents {
  import opened Bytes
  import opened Wrappers
  import opened Oids
  import opened Ber
  import opened BerValues
  import opened Pdus
  import opened Mibs
  import Repetition

  // ---- one binding ----

  /** The answer to GetNext of `name`; past the end the name is echoed. */
  function NextBinding(vars: seq<Variable>, name: OID): VarBind {
    match NextOf(vars, name)
    case Some(v) => VarBind(v.oid, v.value)
    case None => VarBind(name, Bare(TAG_END_OF_MIB_VIEW))
  }

  ghost predicate AtEnd(vars: seq<Variable>, name: OID) { NextOf(vars, name).None? }

  predicate SomeBelow(vars: seq<Variable>, name: OID) {
    exists i :: 0 <= i < |vars| && name <= vars[i].oid
  }

  /** The answer to an exact Get. */
  function GetBinding(vars: seq<Variable>, name: OID): VarBind {
    match ExactOf(vars, name)
    case Some(v) => VarBind(v.oid, v.value)
    case None => VarBind(name, Bare(if SomeBelow(vars, name) then TAG_NO_SUCH_INSTANCE else TAG_NO_SUCH_OBJECT))
  }

  function GetAll(vars: seq<Variable>, req: seq<VarBind>): (r: seq<VarBind>)
    ensures |r| == |req|
  {
    seq(|req|, i requires 0 <= i < |req| => GetBinding(vars, req[i].name))
  }

  function NextAll(vars: seq<Variable>, req: seq<VarBind>): (r: seq<VarBind>)
    ensures |r| == |req|
  {
    seq(|req|, i requires 0 <= i < |req| => NextBinding(vars, req[i].name))
  }

  method HasPrefix(vars: seq<Variable>, oid: OID) returns (yes: bool)
    ensures yes <==> SomeBelow(vars, oid)
  {
    for i := 0 to |vars|
      invariant forall k :: 0 <= k < i ==> !(oid <= vars[k].oid)
    {
      var below := IsPrefix(oid, vars[i].oid);
      if below { return true; }
    }
    return false;
  }

  method DoGet(vars: seq<Variable>, req: seq<VarBind>) returns (out: seq<VarBind>)
    requires Sorted(vars)
    ensures out == GetAll(vars, req)
  {
    out := [];
    for i := 0 to |req|
      invariant out == GetAll(vars, req)[..i]
    {
      var v := Get(vars, req[i].name);
      if v.Some? {
        out := out + [VarBind(v.value.oid, v.value.value)];
      } else {
        var below := HasPrefix(vars, req[i].name);
        out := out + [VarBind(req[i].name, Bare(if below then TAG_NO_SUCH_INSTANCE else TAG_NO_SUCH_OBJECT))];
      }
    }
  }

  method DoGetNext(vars: seq<Variable>, req: seq<VarBind>) returns (out: seq<VarBind>)
    requires Sorted(vars)
    ensures out == NextAll(vars, req)
  {
    out := [];
    for i := 0 to |req|
      invariant out == NextAll(vars, req)[..i]
    {
      var v := GetNext(vars, req[i].name);
      if v.Some? {
        out := out + [VarBind(v.value.oid, v.value.value)];
      } else {
        out := out + [VarBind(req[i].name, Bare(TAG_END_OF_MIB_VIEW))];
      }
    }
  }

  // ---- GETBULK ----

  function NamesOf(bs: seq<VarBind>): (r: seq<OID>)
    ensures |r| == |bs|
  {
    seq(|bs|, i requires 0 <= i < |bs| => bs[i].name)
  }

  /** One repetition: the successors of all cursors. */
  function Row(vars: seq<Variable>, cursors: seq<OID>): (r: seq<VarBind>)
    ensures |r| == |cursors|
  {
    seq(|cursors|, i requires 0 <= i < |cursors| => NextBinding(vars, cursors[i]))
  }

  ghost predicate AllAtEnd(vars: seq<Variable>, cursors: seq<OID>) {
    forall i :: 0 <= i < |cursors| ==> AtEnd(vars, cursors[i])
  }

  ghost function Advance(vars: seq<Variable>): seq<OID> -> seq<OID> { c => NamesOf(Row(vars, c)) }
  ghost function RowAt(vars: seq<Variable>): seq<OID> -> seq<VarBind> { c => Row(vars, c) }
  ghost function Ended(vars: seq<Variable>): seq<OID> -> bool { c => AllAtEnd(vars, c) }

  /** The repetitions a GETBULK sends: none after a row without any successor. */
  ghost function BulkRows(vars: seq<Variable>, cursors: seq<OID>, n: nat): seq<VarBind> {
    Repetition.Early(Advance(vars), RowAt(vars), Ended(vars), cursors, n)
  }

  function Clamp(n: int, hi: nat): nat { if n < 0 then 0 else if n > hi then hi else n }

  ghost function BulkAnswer(vars: seq<Variable>, pdu: Pdu): seq<VarBind> {
    var nonRep := Clamp(pdu.nonRepeaters, |pdu.bindings|);
    var reps := NamesOf(pdu.bindings[nonRep..]);
    NextAll(vars, pdu.bindings[..nonRep])
      + if reps == [] then [] else BulkRows(vars, reps, Clamp(pdu.maxRepetitions, 100))
  }

  /** The loop over the non-repeaters. */
  method NonRepeaters(vars: seq<Variable>, bindings: seq<VarBind>) returns (out: seq<VarBind>)
    requires Sorted(vars)
    ensures out == NextAll(vars, bindings)
  {
    out := [];
    for i := 0 to |bindings|
      invariant out == NextAll(vars, bindings)[..i]
    {
      var v := GetNext(vars, bindings[i].name);
      if v.Some? {
        out := out + [VarBind(v.value.oid, v.value.value)];
      } else {
        out := out + [VarBind(bindings[i].name, Bare(TAG_END_OF_MIB_VIEW))];
      }
    }
  }

  method DoGetBulk(vars: seq<Variable>, pdu: Pdu) returns (out: seq<VarBind>)
    requires Sorted(vars)
    ensures out == BulkAnswer(vars, pdu)
  {
    var nonRep, maxRep: int := pdu.nonRepeaters, pdu.maxRepetitions;
    if nonRep < 0 { nonRep := 0; }
    if maxRep < 0 { maxRep := 0; }
    if maxRep > 100 { maxRep := 100; }
    if nonRep > |pdu.bindings| { nonRep := |pdu.bindings|; }
    out := NonRepeaters(vars, pdu.bindings[..nonRep]);
    var reps := pdu.bindings[nonRep..];
    assert |NamesOf(reps)| == 0 <==> NamesOf(reps) == [];
    if |reps| == 0 || maxRep == 0 { return; }
    var rows := Repeaters(vars, NamesOf(reps), maxRep);
    out := out + rows;
  }

  /** One turn of the outer loop: appends a row to `out` and moves the cursors to its names. */
  method SendRow(vars: seq<Variable>, cursors: array<OID>, sent: seq<VarBind>) returns (out: seq<VarBind>, allEnd: bool)
    requires Sorted(vars)
    modifies cursors
    ensures out == sent + Row(vars, old(cursors[..]))
    ensures cursors[..] == NamesOf(Row(vars, old(cursors[..])))
    ensures allEnd <==> AllAtEnd(vars, old(cursors[..]))
  {
    ghost var from := cursors[..];
    ghost var row := Row(vars, from);
    out, allEnd := sent, true;
    for i := 0 to cursors.Length
      invariant out == sent + row[..i]
      invariant forall k :: 0 <= k < i ==> cursors[k] == row[k].name
      invariant cursors[i..] == from[i..]
      invariant allEnd <==> forall k :: 0 <= k < i ==> AtEnd(vars, from[k])
    {
      assert cursors[i] == from[i];
      var v := GetNext(vars, cursors[i]);
      assert row[..i + 1] == row[..i] + [NextBinding(vars, from[i])];
      if v.Some? {
        out := out + [VarBind(v.value.oid, v.value.value)];
        cursors[i] := v.value.oid;
        allEnd := false;
      } else {
        out := out + [VarBind(cursors[i], Bare(TAG_END_OF_MIB_VIEW))];
      }
    }
    assert row[..cursors.Length] == row;
  }

  /** The repetition loop of doGetBulk. */
  method Repeaters(vars: seq<Variable>, names: seq<OID>, maxRep: nat) returns (out: seq<VarBind>)
    requires Sorted(vars)
    ensures out == BulkRows(vars, names, maxRep)
  {
    var cursors := new OID[|names|](i requires 0 <= i < |names| => names[i]);
    assert cursors[..] == names;
    out := [];
    ghost var all := BulkRows(vars, names, maxRep);
    for r := 0 to maxRep
      invariant out + BulkRows(vars, cursors[..], maxRep - r) == all
    {
      ghost var from := cursors[..];
      BulkStep(vars, from, maxRep - r, out);
      var allEnd: bool;
      out, allEnd := SendRow(vars, cursors, out);
      if allEnd { break; }
    }
  }

  lemma BulkStep(vars: seq<Variable>, cursors: seq<OID>, n: nat, sent: seq<VarBind>)
    requires n > 0
    ensures sent + BulkRows(vars, cursors, n) == if AllAtEnd(vars, cursors) then sent + Row(vars, cursors)
      else sent + Row(vars, cursors) + BulkRows(vars, NamesOf(Row(vars, cursors)), n - 1)
  {
    Repetition.EarlyStep(Advance(vars), RowAt(vars), Ended(vars), cursors, n, sent);
  }

  // ---- what GETBULK means ----

  /** The name reached from `name` after `r` GetNext steps. */
  ghost function Steps(vars: seq<Variable>, name: OID, r: nat): OID {
    if r == 0 then name else NextBinding(vars, Steps(vars, name, r - 1)).name
  }

  /** The cursors after `r` repetitions. */
  ghost function CursorsAt(vars: seq<Variable>, names: seq<OID>, r: nat): seq<OID> {
    Repetition.At(Advance(vars), names, r)
  }

  /** `n` repetitions with no early stop. */
  ghost function FullRows(vars: seq<Variable>, names: seq<OID>, n: nat): seq<VarBind> {
    Repetition.Full(Advance(vars), RowAt(vars), names, n)
  }

  lemma {:induction false} CursorsAreSteps(vars: seq<Variable>, names: seq<OID>, r: nat)
    ensures |CursorsAt(vars, names, r)| == |names|
    ensures forall i :: 0 <= i < |names| ==> CursorsAt(vars, names, r)[i] == Steps(vars, names[i], r)
  {
    if r > 0 {
      CursorsAreSteps(vars, names, r - 1);
    }
  }

  lemma EndRowKeepsNames(vars: seq<Variable>, c: seq<OID>)
    requires AllAtEnd(vars, c)
    ensures NamesOf(Row(vars, c)) == c
  {
    forall i | 0 <= i < |c| ensures NamesOf(Row(vars, c))[i] == c[i] {
      assert AtEnd(vars, c[i]);
    }
  }

  lemma EndIsForEver(vars: seq<Variable>, names: seq<OID>, end: nat)
    requires AllAtEnd(vars, CursorsAt(vars, names, end))
    ensures forall r: nat :: end <= r ==> CursorsAt(vars, names, r) == CursorsAt(vars, names, end)
  {
    EndRowKeepsNames(vars, CursorsAt(vars, names, end));
    forall r: nat | end <= r ensures CursorsAt(vars, names, r) == CursorsAt(vars, names, end) {
      Repetition.FixedForEver(Advance(vars), names, end, r);
    }
  }

  /** GETBULK is iterated GetNext: it sends the full repetitions up to some `k`, and stops short
      of `n` only after a first repetition that found no successor at all. Stopping early loses
      nothing: every further row would repeat that one for ever. */
  lemma BulkIsIteratedNext(vars: seq<Variable>, names: seq<OID>, n: nat) returns (k: nat)
    ensures k <= n && (n > 0 ==> k > 0)
    ensures BulkRows(vars, names, n) == FullRows(vars, names, k)
    ensures forall j :: 0 <= j < k - 1 ==> !AllAtEnd(vars, CursorsAt(vars, names, j))
    ensures k < n ==> AllAtEnd(vars, CursorsAt(vars, names, k - 1))
    ensures k < n ==> forall r :: k - 1 <= r ==> CursorsAt(vars, names, r) == CursorsAt(vars, names, k - 1)
  {
    var step, end := Advance(vars), Ended(vars);
    k := Repetition.Made(step, end, names, 0, n);
    Repetition.EarlyIsPrefix(step, RowAt(vars), end, names, n);
    Repetition.MadeStopsAtFirstEnd(step, end, names, 0, n);
    forall j | 0 <= j < k - 1 ensures !AllAtEnd(vars, CursorsAt(vars, names, j)) {
      assert !end(Repetition.At(step, names, j));
    }
    if k < n {
      EndIsForEver(vars, names, k - 1);
    }
  }

  /** In repetition r, entry i is the successor of the i-th name after r GetNext steps. */
  lemma {:induction false} FullRowsEntry(vars: seq<Variable>, names: seq<OID>, n: nat, r: nat, i: nat)
    requires r < n && i < |names|
    ensures |FullRows(vars, names, n)| == n * |names| && r * |names| + i < n * |names|
    ensures FullRows(vars, names, n)[r * |names| + i] == NextBinding(vars, Steps(vars, names[i], r))
  {
    var w := |names|;
    assert n * w == (n - 1) * w + w;
    CursorsAreSteps(vars, names, n - 1);
    if r < n - 1 {
      FullRowsEntry(vars, names, n - 1, r, i);
    } else if n > 1 {
      FullRowsEntry(vars, names, n - 1, r - 1, i);
    }
  }

  function BindingsOf(vars: seq<Variable>): (r: seq<VarBind>)
    ensures |r| == |vars|
  {
    seq(|vars|, i requires 0 <= i < |vars| => VarBind(vars[i].oid, vars[i].value))
  }

  lemma BindingsFront(v: Variable, rest: seq<Variable>)
    ensures BindingsOf([v] + rest) == [VarBind(v.oid, v.value)] + BindingsOf(rest)
  {
  }

  lemma WalkFront(vars: seq<Variable>, name: OID, n: nat)
    requires Sorted(vars) && 0 < n <= |Walk(vars, name)|
    ensures FirstAbove(vars, name) < |vars|
    ensures var v := vars[FirstAbove(vars, name)];
      n - 1 <= |Walk(vars, v.oid)| && Walk(vars, name)[..n] == [v] + Walk(vars, v.oid)[..n - 1]
  {
  }

  lemma OneRow(vars: seq<Variable>, name: OID, v: Variable)
    requires FirstAbove(vars, name) < |vars| && v == vars[FirstAbove(vars, name)]
    ensures Row(vars, [name]) == [VarBind(v.oid, v.value)] && NamesOf(Row(vars, [name])) == [v.oid]
    ensures !AllAtEnd(vars, [name])
  {
    assert !AtEnd(vars, [name][0]);
  }

  lemma OneRepeater(vars: seq<Variable>, name: OID, n: nat, v: Variable)
    requires n > 0 && FirstAbove(vars, name) < |vars| && v == vars[FirstAbove(vars, name)]
    ensures BulkRows(vars, [name], n) == [VarBind(v.oid, v.value)] + BulkRows(vars, [v.oid], n - 1)
  {
    OneRow(vars, name, v);
    Repetition.EarlyFront(Advance(vars), RowAt(vars), Ended(vars), [name], n);
  }

  /** A single repeater lists the walk of the view from its name: GETBULK and a GetNext walk
      visit the same leaves. */
  lemma {:induction false} BulkListsTheWalk(vars: seq<Variable>, name: OID, n: nat)
    requires Sorted(vars) && n <= |Walk(vars, name)|
    ensures BulkRows(vars, [name], n) == BindingsOf(Walk(vars, name)[..n])
    decreases n
  {
    if n > 0 {
      WalkFront(vars, name, n);
      var v := vars[FirstAbove(vars, name)];
      BulkListsTheWalk(vars, v.oid, n - 1);
      OneRepeater(vars, name, n, v);
      BindingsFront(v, Walk(vars, v.oid)[..n - 1]);
    }
  }

  // ---- packets ----

  /** The response PDU to a decoded request, before the size check. */
  ghost function Answer(vars: seq<Variable>, p: Pdu): Pdu {
    var ok := Pdu(PDU_RESPONSE, p.requestId, ERR_NO_ERROR, 0, 0, 0, false, []);
    if p.typ == PDU_GET then ok.(bindings := GetAll(vars, p.bindings))
    else if p.typ == PDU_GET_NEXT then ok.(bindings := NextAll(vars, p.bindings))
    else if p.typ == PDU_GET_BULK then ok.(bindings := BulkAnswer(vars, p))
    else if p.typ == PDU_SET then
      ok.(errorStatus := ERR_NOT_WRITABLE, errorIndex := if p.bindings == [] then 0 else 1, bindings := p.bindings)
    else ok.(errorStatus := ERR_GEN_ERR, bindings := p.bindings)
  }

  /** The message sent back: an answer over 64000 bytes becomes tooBig with no bindings. */
  ghost function Reply(vars: seq<Variable>, msg: Message): Message {
    var full := Message(msg.version, msg.community, Answer(vars, msg.pdu));
    if |MessageBytes(full)| > 64000 then
      full.(pdu := full.pdu.(errorStatus := ERR_TOO_BIG, errorIndex := 0, bindings := []))
    else full
  }

  /** The switch on the type of a request. */
  method AnswerPdu(vars: seq<Variable>, p: Pdu) returns (out: Pdu)
    requires Sorted(vars)
    ensures out == Answer(vars, p)
  {
    out := Pdu(PDU_RESPONSE, p.requestId, ERR_NO_ERROR, 0, 0, 0, false, []);
    var bs: seq<VarBind>;
    if p.typ == PDU_GET {
      bs := DoGet(vars, p.bindings);
    } else if p.typ == PDU_GET_NEXT {
      bs := DoGetNext(vars, p.bindings);
    } else if p.typ == PDU_GET_BULK {
      bs := DoGetBulk(vars, p);
    } else if p.typ == PDU_SET {
      out := out.(errorStatus := ERR_NOT_WRITABLE, errorIndex := 1);
      bs := p.bindings;
      if |bs| == 0 { out := out.(errorIndex := 0); }
    } else {
      out := out.(errorStatus := ERR_GEN_ERR);
      bs := p.bindings;
    }
    out := out.(bindings := bs);
  }

  method HandlePacket(community: Octets, baseOID: OID, cache: Snapshot, req: bytes) returns (resp: Option<bytes>)
    requires Bounded(cache)
    ensures var m := DecodeMessage(req);
      var vars := SortByOid(Leaves(EffectiveBase(baseOID), cache));
      resp == if m.Ok? && 0 <= m.value.version <= 1 && m.value.community == community then Some(MessageBytes(Reply(vars, m.value)))
              else None
  {
    var m := ParseMessage(req);
    if m.Err? { return None; }
    var msg := m.value;
    if msg.version != 0 && msg.version != 1 { return None; }
    if msg.community != community { return None; }
    var vars := BuildMIB(baseOID, cache);
    SortCorrect(Leaves(EffectiveBase(baseOID), cache));
    var outPDU := AnswerPdu(vars, msg.pdu);
    var out := EncodeMessage(Message(msg.version, community, outPDU));
    if |out| > 64000 {
      outPDU := outPDU.(errorStatus := ERR_TOO_BIG, errorIndex := 0, bindings := []);
      out := EncodeMessage(Message(msg.version, community, outPDU));
    }
    return Some(out);
  }

  lemma CommunityFits(raw: bytes)
    ensures DecodeMessage(raw).Ok? ==> |DecodeMessage(raw).value.community| <= |raw|
  {
    ReadTlvShrinks(raw);
    if ReadTlv(raw).Ok? {
      var c := ReadTlv(raw).value.content;
      ReadTlvShrinks(c);
      if ReadTlv(c).Ok? { ReadTlvShrinks(ReadTlv(c).value.rest); }
    }
  }

  lemma TlvSize(tag: byte, content: bytes)
    ensures |content| < |WrapTlv(tag, content)| <= |content| + 5
  {
  }

  lemma IntegerTlvSize(v: int64)
    ensures |IntegerTlv(v)| <= 13
  {
    IntegerContentValue(v);
    IntegerContentIsShortest(v, IntegerContent(v));
    TlvSize(TAG_INTEGER, IntegerContent(v));
  }

  lemma EmptyMessageSize(m: Message)
    requires m.pdu.bindings == []
    ensures |MessageContent(m)| <= |m.community| + 100
  {
    IntegerTlvSize(m.version);
    IntegerTlvSize(m.pdu.requestId);
    IntegerTlvSize(FirstField(m.pdu));
    IntegerTlvSize(SecondField(m.pdu));
    TlvSize(TAG_SEQUENCE, []);
    TlvSize(TAG_OCTET_STRING, ToBytes(m.community));
    TlvSize(PduTag(m.pdu), PduContent(m.pdu));
  }

  lemma ReplyFits(vars: seq<Variable>, msg: Message)
    requires |msg.community| <= 65535
    ensures |MessageContent(Reply(vars, msg))| < 0x100_0000
  {
    var reply := Reply(vars, msg);
    if reply.pdu.bindings == [] {
      EmptyMessageSize(reply);
    }
    TlvSize(TAG_SEQUENCE, MessageContent(reply));
  }

  lemma AnswerHeader(vars: seq<Variable>, msg: Message)
    ensures var m := SentMessage(Reply(vars, msg));
      && m.version == msg.version && m.community == msg.community
      && m.pdu.typ == PDU_RESPONSE && m.pdu.requestId == msg.pdu.requestId
      && m.pdu.bindings == SentBindings(Reply(vars, msg).pdu.bindings)
  {
    var a := Answer(vars, msg.pdu);
    assert a.typ == PDU_RESPONSE && a.requestId == msg.pdu.requestId;
  }

  /** End to end, for every request that fits a datagram: the bytes sent back decode, carry the
      request's version, community and request id, and their bindings are the answer's, as read
      by a receiver. */
  lemma ReplyDecodes(vars: seq<Variable>, req: bytes)
    requires |req| <= 65535 && DecodeMessage(req).Ok?
    ensures var msg := DecodeMessage(req).value;
      var r := DecodeMessage(MessageBytes(Reply(vars, msg)));
      && r == Ok(SentMessage(Reply(vars, msg)))
      && r.value.version == msg.version && r.value.community == msg.community
      && r.value.pdu.typ == PDU_RESPONSE && r.value.pdu.requestId == msg.pdu.requestId
      && r.value.pdu.bindings == SentBindings(Reply(vars, msg).pdu.bindings)
  {
    var msg := DecodeMessage(req).value;
    CommunityFits(req);
    ReplyFits(vars, msg);
    SentMessageDecodes(Reply(vars, msg));
    AnswerHeader(vars, msg);
  }
}
