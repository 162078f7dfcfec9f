/** SNMPv2c messages (internal/snmp/pdu.go): nested TLVs from message down to varbind. */
module Pdus {
  import opened Bytes
  import opened Wrappers
  import opened Oids
  import opened Ber
  import opened BerValues

  type int32 = v: int | -0x8000_0000 <= v < 0x8000_0000

  const PDU_GET: byte := 0xA0
  const PDU_GET_NEXT: byte := 0xA1
  const PDU_RESPONSE: byte := 0xA2
  const PDU_SET: byte := 0xA3
  const PDU_GET_BULK: byte := 0xA5

  const ERR_NO_ERROR: int64 := 0
  const ERR_TOO_BIG: int64 := 1
  const ERR_GEN_ERR: int64 := 5
  const ERR_NOT_WRITABLE: int64 := 17

  datatype VarBind = VarBind(name: OID, value: Value)

  datatype Pdu = Pdu(typ: byte, requestId: int32, errorStatus: int64, errorIndex: int64,
                     nonRepeaters: int64, maxRepetitions: int64, isBulk: bool, bindings: seq<VarBind>)

  datatype Message = Message(version: int64, community: Octets, pdu: Pdu)

  /** Go's int32(id): the low 32 bits, signed. */
  function ToInt32(v: int): int32 {
    var m := v % UINT32_MODULUS;
    if m < 0x8000_0000 then m else m - UINT32_MODULUS
  }

  // ---- encoding ----

  function VarBindTlv(b: VarBind): bytes {
    WrapTlv(TAG_SEQUENCE, WrapTlv(TAG_OID, OidContent(b.name)) + ValueTlv(b.value))
  }

  function BindingsBytes(bs: seq<VarBind>): bytes {
    if bs == [] then [] else VarBindTlv(bs[0]) + BindingsBytes(bs[1..])
  }

  function IntegerTlv(v: int64): bytes { WrapTlv(TAG_INTEGER, IntegerContent(v)) }

  predicate SendsBulkFields(p: Pdu) { p.isBulk && p.typ == PDU_GET_BULK }
  function FirstField(p: Pdu): int64 { if SendsBulkFields(p) then p.nonRepeaters else p.errorStatus }
  function SecondField(p: Pdu): int64 { if SendsBulkFields(p) then p.maxRepetitions else p.errorIndex }

  function PduContent(p: Pdu): bytes {
    IntegerTlv(p.requestId) + (IntegerTlv(FirstField(p)) + (IntegerTlv(SecondField(p))
      + WrapTlv(TAG_SEQUENCE, BindingsBytes(p.bindings))))
  }

  function PduTag(p: Pdu): byte { if p.typ == 0 then PDU_RESPONSE else p.typ }

  function MessageContent(m: Message): bytes {
    IntegerTlv(m.version) + (WrapTlv(TAG_OCTET_STRING, ToBytes(m.community))
      + WrapTlv(PduTag(m.pdu), PduContent(m.pdu)))
  }

  function MessageBytes(m: Message): bytes { WrapTlv(TAG_SEQUENCE, MessageContent(m)) }

  method EncodeVarBind(b: VarBind) returns (out: bytes)
    ensures out == VarBindTlv(b)
  {
    var name := EncodeOID(b.name);
    var val := EncodeValue(b.value);
    return WrapTlv(TAG_SEQUENCE, name + val);
  }

  method EncodeBindings(bs: seq<VarBind>) returns (vbs: bytes)
    ensures vbs == BindingsBytes(bs)
  {
    vbs := [];
    for i := 0 to |bs|
      invariant vbs + BindingsBytes(bs[i..]) == BindingsBytes(bs)
    {
      var vb := EncodeVarBind(bs[i]);
      assert bs[i..][1..] == bs[i + 1..];
      assert BindingsBytes(bs[i..]) == vb + BindingsBytes(bs[i + 1..]);
      vbs := vbs + vb;
    }
  }

  method EncodePDU(p: Pdu) returns (out: bytes)
    ensures out == WrapTlv(PduTag(p), PduContent(p))
  {
    var reqID := EncodeInteger(p.requestId);
    var e1, e2: bytes;
    if p.isBulk && p.typ == PDU_GET_BULK {
      e1 := EncodeInteger(p.nonRepeaters);
      e2 := EncodeInteger(p.maxRepetitions);
    } else {
      e1 := EncodeInteger(p.errorStatus);
      e2 := EncodeInteger(p.errorIndex);
    }
    var vbs := EncodeBindings(p.bindings);
    var vbList := WrapTlv(TAG_SEQUENCE, vbs);
    var content := reqID + e1;
    content := content + e2;
    content := content + vbList;
    assert content == PduContent(p);
    var tag := p.typ;
    if tag == 0 { tag := PDU_RESPONSE; }
    return WrapTlv(tag, content);
  }

  method EncodeMessage(m: Message) returns (out: bytes)
    ensures out == MessageBytes(m)
  {
    var ver := EncodeInteger(m.version);
    var comm := WrapTlv(TAG_OCTET_STRING, ToBytes(m.community));
    var pdu := EncodePDU(m.pdu);
    var body := ver + comm;
    body := body + pdu;
    assert body == MessageContent(m);
    return WrapTlv(TAG_SEQUENCE, body);
  }

  // ---- decoding ----

  function DecodeVarBind(content: bytes): Result<VarBind, Error> {
    var name :- ReadTlv(content);
    if name.tag != TAG_OID then Err(VarbindNameNotOid)
    else
      var oid :- DecodeOidContent(name.content);
      var val :- ReadTlv(name.rest);
      var v :- DecodeValue(val.tag, val.content);
      Ok(VarBind(oid, v))
  }

  function DecodeBindings(b: bytes): Result<seq<VarBind>, Error> {
    if b == [] then Ok([])
    else
      ReadTlvShrinks(b);
      var t :- ReadTlv(b);
      if t.tag != TAG_SEQUENCE then Err(VarbindNotSequence)
      else
        var vb :- DecodeVarBind(t.content);
        var rest :- DecodeBindings(t.rest);
        Ok([vb] + rest)
  }

  function DecodePdu(tag: byte, content: bytes): Result<Pdu, Error> {
    var t0 :- ReadTlv(content);
    var id :- DecodeIntegerContent(t0.content);
    if t0.tag != TAG_INTEGER then Err(RequestIdNotInteger)
    else
      var t1 :- ReadTlv(t0.rest);
      var n1 :- DecodeIntegerContent(t1.content);
      var t2 :- ReadTlv(t1.rest);
      var n2 :- DecodeIntegerContent(t2.content);
      var t3 :- ReadTlv(t2.rest);
      if t3.tag != TAG_SEQUENCE then Err(VarbindListNotSequence)
      else
        var bs :- DecodeBindings(t3.content);
        Ok(PduOf(tag, ToInt32(id), n1, n2, bs))
  }

  function PduOf(tag: byte, id: int32, n1: int64, n2: int64, bs: seq<VarBind>): Pdu {
    if tag == PDU_GET_BULK then Pdu(tag, id, 0, 0, n1, n2, true, bs)
    else Pdu(tag, id, n1, n2, 0, 0, false, bs)
  }

  function DecodeMessage(raw: bytes): Result<Message, Error> {
    var outer :- ReadTlv(raw);
    if outer.tag != TAG_SEQUENCE then Err(ExpectedSequence)
    else
      var t0 :- ReadTlv(outer.content);
      if t0.tag != TAG_INTEGER then Err(VersionNotInteger)
      else
        var ver :- DecodeIntegerContent(t0.content);
        var t1 :- ReadTlv(t0.rest);
        if t1.tag != TAG_OCTET_STRING then Err(CommunityNotOctetString)
        else
          var t2 :- ReadTlv(t1.rest);
          var pdu :- DecodePdu(t2.tag, t2.content);
          Ok(Message(ver, FromBytes(t1.content), pdu))
  }

  method ParseVarBind(content: bytes) returns (r: Result<VarBind, Error>)
    ensures r == DecodeVarBind(content)
  {
    var rd := new Reader(content);
    assert content[0..] == content;
    var t := rd.ReadTLV();
    if t.Err? { return Err(t.error); }
    if t.value.tag != TAG_OID { return Err(VarbindNameNotOid); }
    var oid := DecodeOID(t.value.content);
    if oid.Err? { return Err(oid.error); }
    var u := rd.ReadTLV();
    if u.Err? { return Err(u.error); }
    var val := DecodeValue(u.value.tag, u.value.content);
    if val.Err? { return Err(val.error); }
    return Ok(VarBind(oid.value, val.value));
  }

  /** The rest of a varbind list, after `done` has been read. */
  function AfterBindings(done: seq<VarBind>, rest: Result<seq<VarBind>, Error>): Result<seq<VarBind>, Error> {
    if rest.Ok? then Ok(done + rest.value) else rest
  }

  lemma AfterOneMore(done: seq<VarBind>, vb: VarBind, rest: Result<seq<VarBind>, Error>)
    ensures AfterBindings(done, AfterBindings([vb], rest)) == AfterBindings(done + [vb], rest)
  {
    if rest.Ok? {
      assert done + ([vb] + rest.value) == done + [vb] + rest.value;
    }
  }

  method ParsePDU(tag: byte, content: bytes) returns (r: Result<Pdu, Error>)
    ensures r == DecodePdu(tag, content)
  {
    var rd := new Reader(content);
    assert content[0..] == content;
    var t0 := rd.ReadTLV();
    if t0.Err? { return Err(t0.error); }
    var id := DecodeInteger(t0.value.content);
    if id.Err? { return Err(id.error); }
    if t0.value.tag != TAG_INTEGER { return Err(RequestIdNotInteger); }
    var t1 := rd.ReadTLV();
    if t1.Err? { return Err(t1.error); }
    var n1 := DecodeInteger(t1.value.content);
    if n1.Err? { return Err(n1.error); }
    var t2 := rd.ReadTLV();
    if t2.Err? { return Err(t2.error); }
    var n2 := DecodeInteger(t2.value.content);
    if n2.Err? { return Err(n2.error); }
    var t3 := rd.ReadTLV();
    if t3.Err? { return Err(t3.error); }
    if t3.value.tag != TAG_SEQUENCE { return Err(VarbindListNotSequence); }
    var bs := ParseBindings(t3.value.content);
    if bs.Err? { return Err(bs.error); }
    return Ok(PduOf(tag, ToInt32(id.value), n1.value, n2.value, bs.value));
  }

  /** One turn of the loop over the varbind list. */
  lemma BindingsStep(here: bytes)
    requires here != []
    ensures var t := ReadTlv(here);
      && (t.Err? ==> DecodeBindings(here) == Err(t.error))
      && (t.Ok? && t.value.tag != TAG_SEQUENCE ==> DecodeBindings(here) == Err(VarbindNotSequence))
      && (t.Ok? && t.value.tag == TAG_SEQUENCE ==>
            |t.value.rest| < |here| &&
            match DecodeVarBind(t.value.content)
            case Err(e) => DecodeBindings(here) == Err(e)
            case Ok(vb) => DecodeBindings(here) == AfterBindings([vb], DecodeBindings(t.value.rest)))
  {
    ReadTlvShrinks(here);
  }

  method ParseBindings(c: bytes) returns (r: Result<seq<VarBind>, Error>)
    ensures r == DecodeBindings(c)
  {
    var vr := new Reader(c);
    assert c[0..] == c;
    var bindings: seq<VarBind> := [];
    ghost var all := DecodeBindings(c);
    assert AfterBindings([], all) == all by {
      if all.Ok? { assert [] + all.value == all.value; }
    }
    while vr.Remaining() > 0
      invariant fresh(vr) && vr.Valid() && vr.b == c
      invariant AfterBindings(bindings, DecodeBindings(c[vr.i..])) == all
      decreases |c| - vr.i
    {
      ghost var here := c[vr.i..];
      BindingsStep(here);
      var t := vr.ReadTLV();
      if t.Err? { return Err(t.error); }
      if t.value.tag != TAG_SEQUENCE { return Err(VarbindNotSequence); }
      var vb := ParseVarBind(t.value.content);
      if vb.Err? { return Err(vb.error); }
      AfterOneMore(bindings, vb.value, DecodeBindings(t.value.rest));
      bindings := bindings + [vb.value];
    }
    assert c[vr.i..] == [] && bindings + [] == bindings;
    assert DecodeBindings(c[vr.i..]) == Ok([]);
    return Ok(bindings);
  }

  method ParseMessage(raw: bytes) returns (r: Result<Message, Error>)
    ensures r == DecodeMessage(raw)
  {
    var rd := new Reader(raw);
    assert raw[0..] == raw;
    var outer := rd.ReadTLV();
    if outer.Err? { return Err(outer.error); }
    if outer.value.tag != TAG_SEQUENCE { return Err(ExpectedSequence); }
    var inner := new Reader(outer.value.content);
    assert inner.b[0..] == inner.b;
    var t0 := inner.ReadTLV();
    if t0.Err? { return Err(t0.error); }
    if t0.value.tag != TAG_INTEGER { return Err(VersionNotInteger); }
    var ver := DecodeInteger(t0.value.content);
    if ver.Err? { return Err(ver.error); }
    var t1 := inner.ReadTLV();
    if t1.Err? { return Err(t1.error); }
    if t1.value.tag != TAG_OCTET_STRING { return Err(CommunityNotOctetString); }
    var t2 := inner.ReadTLV();
    if t2.Err? { return Err(t2.error); }
    var pdu := ParsePDU(t2.value.tag, t2.value.content);
    if pdu.Err? { return Err(pdu.error); }
    return Ok(Message(ver.value, FromBytes(t1.value.content), pdu.value));
  }

  // ---- decoding undoes encoding ----

  function SentVarBind(b: VarBind): VarBind { VarBind(SentOid(b.name), SentValue(b.value)) }

  function SentBindings(bs: seq<VarBind>): (r: seq<VarBind>)
    ensures |r| == |bs| && forall i :: 0 <= i < |bs| ==> r[i] == SentVarBind(bs[i])
  {
    if bs == [] then [] else [SentVarBind(bs[0])] + SentBindings(bs[1..])
  }

  /** What a receiver reads for the message the agent encodes. */
  function SentMessage(m: Message): Message {
    var p := m.pdu;
    Message(m.version, m.community,
            PduOf(PduTag(p), p.requestId, FirstField(p), SecondField(p), SentBindings(p.bindings)))
  }

  lemma SentVarBindDecodes(b: VarBind, rest: bytes)
    requires |VarBindTlv(b)| < 0x100_0000
    ensures ReadTlv(VarBindTlv(b) + rest).Ok?
    ensures var t := ReadTlv(VarBindTlv(b) + rest).value;
      t.tag == TAG_SEQUENCE && t.rest == rest && DecodeVarBind(t.content) == Ok(SentVarBind(b))
  {
    var name, value := OidContent(b.name), ValueTlv(b.value);
    ReadWrapped(TAG_SEQUENCE, WrapTlv(TAG_OID, name) + value, rest);
    ReadWrapped(TAG_OID, name, value);
    ReadWrapped(ValueTag(b.value), ValueContent(b.value), []);
    assert value + [] == value;
    SentOidDecodes(b.name);
    SentValueDecodes(b.value);
  }

  lemma {:induction false} SentBindingsDecode(bs: seq<VarBind>)
    requires |BindingsBytes(bs)| < 0x100_0000
    ensures DecodeBindings(BindingsBytes(bs)) == Ok(SentBindings(bs))
  {
    if bs != [] {
      SentVarBindDecodes(bs[0], BindingsBytes(bs[1..]));
      SentBindingsDecode(bs[1..]);
    }
  }

  lemma IntegerTlvReads(v: int64, rest: bytes)
    ensures ReadTlv(IntegerTlv(v) + rest) == Ok(Tlv(TAG_INTEGER, IntegerContent(v), rest))
    ensures DecodeIntegerContent(IntegerContent(v)) == Ok(v)
  {
    IntegerRoundTrip(v);
    ReadWrapped(TAG_INTEGER, IntegerContent(v), rest);
  }

  lemma ThreeFieldsRead(id: int64, n1: int64, n2: int64, list: bytes)
    ensures var c := IntegerTlv(id) + (IntegerTlv(n1) + (IntegerTlv(n2) + list));
      && ReadTlv(c) == Ok(Tlv(TAG_INTEGER, IntegerContent(id), IntegerTlv(n1) + (IntegerTlv(n2) + list)))
      && ReadTlv(IntegerTlv(n1) + (IntegerTlv(n2) + list)) == Ok(Tlv(TAG_INTEGER, IntegerContent(n1), IntegerTlv(n2) + list))
      && ReadTlv(IntegerTlv(n2) + list) == Ok(Tlv(TAG_INTEGER, IntegerContent(n2), list))
      && DecodeIntegerContent(IntegerContent(id)) == Ok(id)
      && DecodeIntegerContent(IntegerContent(n1)) == Ok(n1)
      && DecodeIntegerContent(IntegerContent(n2)) == Ok(n2)
  {
    IntegerTlvReads(id, IntegerTlv(n1) + (IntegerTlv(n2) + list));
    IntegerTlvReads(n1, IntegerTlv(n2) + list);
    IntegerTlvReads(n2, list);
  }

  lemma ToInt32Identity(v: int32)
    ensures ToInt32(v) == v
  {
  }

  lemma SentPduDecodes(p: Pdu)
    requires |PduContent(p)| < 0x100_0000
    ensures DecodePdu(PduTag(p), PduContent(p))
      == Ok(PduOf(PduTag(p), p.requestId, FirstField(p), SecondField(p), SentBindings(p.bindings)))
  {
    var items := BindingsBytes(p.bindings);
    var list := WrapTlv(TAG_SEQUENCE, items);
    ThreeFieldsRead(p.requestId, FirstField(p), SecondField(p), list);
    ReadWrapped(TAG_SEQUENCE, items, []);
    assert list + [] == list;
    SentBindingsDecode(p.bindings);
    ToInt32Identity(p.requestId);
  }

  /** Decoding always succeeds on what the agent encodes, and gives the sent message. */
  lemma SentMessageDecodes(m: Message)
    requires |MessageContent(m)| < 0x100_0000
    ensures DecodeMessage(MessageBytes(m)) == Ok(SentMessage(m))
  {
    var pdu := WrapTlv(PduTag(m.pdu), PduContent(m.pdu));
    var c1 := WrapTlv(TAG_OCTET_STRING, ToBytes(m.community)) + pdu;
    ReadWrapped(TAG_SEQUENCE, MessageContent(m), []);
    assert MessageBytes(m) + [] == MessageBytes(m);
    IntegerTlvReads(m.version, c1);
    ReadWrapped(TAG_OCTET_STRING, ToBytes(m.community), pdu);
    ReadWrapped(PduTag(m.pdu), PduContent(m.pdu), []);
    assert pdu + [] == pdu;
    StringBytes(m.community);
    SentPduDecodes(m.pdu);
  }

  /** The messages that survive: a type is set, exactly the fields of that type are used, every
      name is encodable and every value canonical. */
  predicate WellFormed(m: Message) {
    && m.pdu.typ != 0
    && m.pdu.isBulk == (m.pdu.typ == PDU_GET_BULK)
    && (m.pdu.isBulk ==> m.pdu.errorStatus == 0 && m.pdu.errorIndex == 0)
    && (!m.pdu.isBulk ==> m.pdu.nonRepeaters == 0 && m.pdu.maxRepetitions == 0)
    && forall i :: 0 <= i < |m.pdu.bindings| ==>
         Encodable(m.pdu.bindings[i].name) && Canonical(m.pdu.bindings[i].value)
  }

  lemma SentBindingsUnchanged(bs: seq<VarBind>)
    ensures SentBindings(bs) == bs <==>
      forall i :: 0 <= i < |bs| ==> Encodable(bs[i].name) && Canonical(bs[i].value)
  {
    forall i | 0 <= i < |bs|
      ensures SentVarBind(bs[i]) == bs[i] <==> Encodable(bs[i].name) && Canonical(bs[i].value)
    {
      OidRoundTrip(bs[i].name);
      SentOidDecodes(bs[i].name);
      SentUnchanged(bs[i].value);
    }
    if SentBindings(bs) == bs {
      forall i | 0 <= i < |bs|
        ensures SentVarBind(bs[i]) == bs[i]
      {
        assert SentBindings(bs)[i] == bs[i];
      }
    }
  }

  /** Message codec: below 2^24 bytes, decoding an encoded message returns that message
      exactly when it is well formed. */
  lemma MessageRoundTrip(m: Message)
    requires |MessageContent(m)| < 0x100_0000
    ensures DecodeMessage(MessageBytes(m)) == Ok(m) <==> WellFormed(m)
  {
    SentMessageDecodes(m);
    SentBindingsUnchanged(m.pdu.bindings);
  }
}
