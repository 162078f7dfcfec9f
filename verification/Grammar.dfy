/** Exactly which datagrams are SNMP messages to the agent, and of what: a grammar of the bytes. */
module Grammar {
  import opened Bytes
  import opened Wrappers
  import opened Oids
  import opened Ber
  import opened BerValues
  import opened Pdus

  // ---- lengths and TLVs ----

  /** A definite length: one octet below 128, or 1 to 4 octets after their number (X.690 section
      8.1.3). */
  predicate IsLength(l: bytes, n: nat) {
    || (|l| == 1 && l[0] < 128 && n == l[0])
    || (2 <= |l| <= 5 && l[0] == 128 + (|l| - 1) && n == Big(l[1..]))
  }

  /** A TLV at the front of some bytes, its length octets given. */
  predicate LaidOut(b: bytes, tag: byte, l: bytes, content: bytes, rest: bytes) {
    IsLength(l, |content|) && b == [tag] + l + content + rest
  }

  ghost predicate IsTlv(b: bytes, tag: byte, content: bytes, rest: bytes) { exists l :: LaidOut(b, tag, l, content, rest) }

  lemma LengthIsRead(l: bytes, n: nat, rest: bytes)
    requires IsLength(l, n)
    ensures ReadLength(l + rest) == Ok(Length(n, rest))
  {
    var b := l + rest;
    assert b[0] == l[0];
    if l[0] < 128 {
      assert b[1..] == rest;
    } else {
      var k := l[0] - 128;
      assert b[1..1 + k] == l[1..] && b[1 + k..] == rest;
    }
  }

  lemma ReadIsLength(b: bytes) returns (l: bytes)
    requires ReadLength(b).Ok?
    ensures IsLength(l, ReadLength(b).value.len) && b == l + ReadLength(b).value.rest
  {
    if b[0] < 128 {
      l := [b[0]];
    } else {
      l := b[..1 + (b[0] - 128)];
      assert l[1..] == b[1..1 + (b[0] - 128)];
    }
  }

  lemma LaidOutIsRead(b: bytes, tag: byte, l: bytes, content: bytes, rest: bytes)
    requires LaidOut(b, tag, l, content, rest)
    ensures ReadTlv(b) == Ok(Tlv(tag, content, rest))
  {
    var after := content + rest;
    assert b[1..] == l + after;
    LengthIsRead(l, |content|, after);
    assert after[..|content|] == content && after[|content|..] == rest;
  }

  /** The reader reads exactly the TLVs at the front of the bytes. */
  lemma TlvExactly(b: bytes, tag: byte, content: bytes, rest: bytes)
    ensures ReadTlv(b) == Ok(Tlv(tag, content, rest)) <==> IsTlv(b, tag, content, rest)
  {
    if ReadTlv(b) == Ok(Tlv(tag, content, rest)) {
      var l := ReadIsLength(b[1..]);
      var after := ReadLength(b[1..]).value.rest;
      assert after == content + rest;
      assert b == [tag] + l + content + rest;
      assert LaidOut(b, tag, l, content, rest);
    }
    forall l | LaidOut(b, tag, l, content, rest) ensures ReadTlv(b) == Ok(Tlv(tag, content, rest)) {
      LaidOutIsRead(b, tag, l, content, rest);
    }
  }

  // ---- object identifiers ----

  /** The digits of an arc: all but the last have the top bit set. */
  predicate IsArc(ds: bytes) { ds != [] && ds[|ds| - 1] < 128 && forall i :: 0 <= i < |ds| - 1 ==> ds[i] >= 128 }

  /** The digits in base 128, most significant first, added to the ones of `v`. */
  function Digits(v: nat, ds: bytes): nat
    decreases ds
  {
    if ds == [] then v else Digits(v * 128 + ds[0] % 128, ds[1..])
  }

  lemma ShiftIs(v: Arc, b: byte)
    ensures ShiftIn(v, b) == (v * 128 + b % 128) % UINT64_MODULUS
  {
    var top := 0x200_0000_0000_0000;
    var low := if v < top then v else v % top;
    var q := (v - low) / top;
    assert v == low + q * top;
    var w := low * 128 + b % 128;
    assert v * 128 + b % 128 == w + q * UINT64_MODULUS;
    ModUnique(v * 128 + b % 128, q, w);
  }

  lemma {:induction false} DigitsMod(v: nat, w: nat, q: nat, ds: bytes)
    requires v == w + q * UINT64_MODULUS
    ensures Digits(v, ds) % UINT64_MODULUS == Digits(w, ds) % UINT64_MODULUS
    decreases ds
  {
    if ds == [] {
      ModUnique(v, w / UINT64_MODULUS + q, w % UINT64_MODULUS);
    } else {
      DigitsMod(v * 128 + ds[0] % 128, w * 128 + ds[0] % 128, q * 128, ds[1..]);
    }
  }

  /** An arc is read as its number modulo 2^64, and reading goes on after it. */
  lemma {:induction false} ArcIsRead(ds: bytes, v: Arc, rest: bytes, raw: bytes)
    requires IsArc(ds) && raw == ds + rest
    ensures DecodeArcs(raw, v) == [(Digits(v, ds) % UINT64_MODULUS) as Arc] + DecodeArcs(rest, 0)
  {
    var w := ShiftIn(v, ds[0]);
    ShiftIs(v, ds[0]);
    assert raw[0] == ds[0] && raw[1..] == ds[1..] + rest;
    var full := v * 128 + ds[0] % 128;
    DigitsMod(full, w, full / UINT64_MODULUS, ds[1..]);
    if |ds| == 1 {
      assert ds[1..] == [] && raw[1..] == rest;
    } else {
      ArcIsRead(ds[1..], w, rest, raw[1..]);
    }
  }

  /** Digits of an arc that never ends are dropped. */
  lemma {:induction false} UnfinishedIsDropped(ds: bytes, v: Arc)
    requires forall i :: 0 <= i < |ds| ==> ds[i] >= 128
    ensures DecodeArcs(ds, v) == []
  {
    if ds != [] { UnfinishedIsDropped(ds[1..], ShiftIn(v, ds[0])); }
  }

  // ---- values and bindings ----

  /** What a value's tag and content stand for. */
  predicate IsValue(tag: byte, c: bytes, v: Value) {
    if tag == 0x02 then 0 < |c| <= 8 && v.num == Signed(c) && v == Value(tag, v.num, 0, "", [])
    else if tag == 0x04 then v == Value(tag, 0, 0, FromBytes(c), [])
    else if tag == 0x05 || 0x80 <= tag <= 0x82 then v == Value(tag, 0, 0, "", [])
    else if tag == 0x06 then DecodeOidContent(c).Ok? && v == Value(tag, 0, 0, OidText(DecodeOidContent(c).value), [])
    else if 0x41 <= tag <= 0x43 then c != [] && v == Value(tag, Big(c) % UINT32_MODULUS, 0, "", [])
    else if tag == 0x46 then
      c != [] && v.u64 == Big(c) % UINT64_MODULUS
      && v == Value(tag, if v.u64 < 0x8000_0000_0000_0000 then v.u64 else v.u64 - UINT64_MODULUS, v.u64, "", [])
    else v == Value(tag, 0, 0, "", c)
  }

  /** A leading zero changes no value. */
  lemma DigitsOf(c: bytes)
    requires c != []
    ensures DecodeUnsignedContent(c) == Ok(Big(c) % UINT64_MODULUS)
  {
    if |c| > 1 && c[0] == 0 { DropPadding(0, c); }
  }

  lemma NumberExactly(tag: byte, c: bytes, v: Value)
    requires tag == 0x02 || 0x41 <= tag <= 0x43 || tag == 0x46
    ensures DecodeValue(tag, c) == Ok(v) <==> IsValue(tag, c, v)
  {
    if c != [] { DigitsOf(c); }
  }

  lemma TextExactly(tag: byte, c: bytes, v: Value)
    requires tag == 0x04 || tag == 0x05 || tag == 0x06 || 0x80 <= tag <= 0x82
    ensures DecodeValue(tag, c) == Ok(v) <==> IsValue(tag, c, v)
  {
  }

  lemma ValueExactly(tag: byte, c: bytes, v: Value)
    ensures DecodeValue(tag, c) == Ok(v) <==> IsValue(tag, c, v)
  {
    if tag == 0x02 || 0x41 <= tag <= 0x43 || tag == 0x46 { NumberExactly(tag, c, v); }
    else if tag == 0x04 || tag == 0x05 || tag == 0x06 || 0x80 <= tag <= 0x82 { TextExactly(tag, c, v); }
  }

  /** A name and a value; more bytes may follow. */
  ghost predicate BindingParts(c: bytes, b: VarBind, name: Tlv, value: Tlv) {
    && IsTlv(c, 0x06, name.content, name.rest) && IsTlv(name.rest, value.tag, value.content, value.rest)
    && DecodeOidContent(name.content) == Ok(b.name) && IsValue(value.tag, value.content, b.value)
  }

  ghost predicate IsBinding(c: bytes, b: VarBind) { exists name, value :: BindingParts(c, b, name, value) }

  /** The reader's TLV, as what it is. */
  lemma TlvIs(b: bytes, t: Tlv)
    ensures ReadTlv(b) == Ok(t) <==> IsTlv(b, t.tag, t.content, t.rest)
  {
    TlvExactly(b, t.tag, t.content, t.rest);
  }

  lemma BindingExactly(c: bytes, b: VarBind)
    ensures DecodeVarBind(c) == Ok(b) <==> IsBinding(c, b)
  {
    if DecodeVarBind(c) == Ok(b) {
      var name := ReadTlv(c).value;
      var value := ReadTlv(name.rest).value;
      TlvIs(c, name);
      TlvIs(name.rest, value);
      ValueExactly(value.tag, value.content, b.value);
      assert BindingParts(c, b, name, value);
    }
    forall name, value | BindingParts(c, b, name, value) ensures DecodeVarBind(c) == Ok(b) { BindingReads(c, b, name, value); }
  }

  lemma BindingReads(c: bytes, b: VarBind, name: Tlv, value: Tlv)
    requires BindingParts(c, b, name, value)
    ensures DecodeVarBind(c) == Ok(b)
  {
    TlvIs(c, name.(tag := 0x06));
    TlvIs(name.rest, value);
    ValueExactly(value.tag, value.content, b.value);
  }

  /** A list of bindings: sequences one after the other to the end of the bytes. */
  ghost predicate IsBindings(c: bytes, bs: seq<VarBind>)
    decreases bs
  {
    if bs == [] then c == [] else exists t: Tlv :: t.tag == 0x30 && FirstOf(c, t, bs) && IsBindings(t.rest, bs[1..])
  }

  ghost predicate FirstOf(c: bytes, t: Tlv, bs: seq<VarBind>)
    requires bs != []
  {
    IsTlv(c, t.tag, t.content, t.rest) && IsBinding(t.content, bs[0])
  }

  lemma {:induction false} BindingsExactly(c: bytes, bs: seq<VarBind>)
    ensures DecodeBindings(c) == Ok(bs) <==> IsBindings(c, bs)
    decreases bs
  {
    if bs != [] {
      if DecodeBindings(c) == Ok(bs) { BindingsAre(c, bs); }
      forall t: Tlv | t.tag == 0x30 && FirstOf(c, t, bs) && IsBindings(t.rest, bs[1..]) ensures DecodeBindings(c) == Ok(bs) {
        BindingsExactly(t.rest, bs[1..]);
        BindingsRead(c, t, bs);
      }
    } else if c != [] {
      SomeBindings(c);
    }
  }

  lemma SomeBindings(c: bytes)
    requires c != []
    ensures DecodeBindings(c) != Ok([])
  {
  }

  lemma BindingsRead(c: bytes, t: Tlv, bs: seq<VarBind>)
    requires bs != [] && t.tag == 0x30 && FirstOf(c, t, bs) && DecodeBindings(t.rest) == Ok(bs[1..])
    ensures DecodeBindings(c) == Ok(bs)
  {
    TlvIs(c, t);
    BindingExactly(t.content, bs[0]);
    assert [bs[0]] + bs[1..] == bs;
  }

  lemma {:induction false} BindingsAre(c: bytes, bs: seq<VarBind>)
    requires bs != [] && DecodeBindings(c) == Ok(bs)
    ensures IsBindings(c, bs)
    decreases bs, 0
  {
    var t := ReadTlv(c).value;
    var more := DecodeBindings(t.rest).value;
    TlvIs(c, t);
    assert bs == [bs[0]] + more && bs[1..] == more;
    BindingExactly(t.content, bs[0]);
    BindingsExactly(t.rest, more);
    assert t.tag == 0x30 && FirstOf(c, t, bs) && IsBindings(t.rest, bs[1..]);
  }

  // ---- PDUs and messages ----

  predicate IsInteger(c: bytes, n: int) { 0 < |c| <= 8 && n == Signed(c) }

  lemma IntegerExactly(c: bytes, n: int)
    ensures DecodeIntegerContent(c) == Ok(n) <==> IsInteger(c, n)
  {
  }

  /** The low 32 bits of a number, signed. */
  predicate Low32(n: int, id: int) { id % UINT32_MODULUS == n % UINT32_MODULUS && -0x8000_0000 <= id < 0x8000_0000 }

  lemma Low32Exactly(n: int, id: int32)
    ensures ToInt32(n) == id <==> Low32(n, id)
  {
  }

  /** Two numbers of a PDU, by its type: error status and index, or for GETBULK (0xA5) the
      non-repeaters and maximum repetitions. */
  predicate TwoNumbers(tag: byte, n1: int, n2: int, p: Pdu) {
    if tag == 0xA5 then p.nonRepeaters == n1 && p.maxRepetitions == n2 && p.errorStatus == 0 && p.errorIndex == 0 && p.isBulk
    else p.errorStatus == n1 && p.errorIndex == n2 && p.nonRepeaters == 0 && p.maxRepetitions == 0 && !p.isBulk
  }

  /** An id, two numbers of any tag, and a list of bindings; more bytes may follow. */
  ghost predicate PduParts(tag: byte, c: bytes, p: Pdu, id: Tlv, a: Tlv, b: Tlv, list: Tlv) {
    && IsTlv(c, 0x02, id.content, id.rest) && IsTlv(id.rest, a.tag, a.content, a.rest)
    && IsTlv(a.rest, b.tag, b.content, b.rest) && IsTlv(b.rest, 0x30, list.content, list.rest)
    && PduMeans(tag, p, id.content, a.content, b.content) && IsBindings(list.content, p.bindings)
  }

  predicate PduMeans(tag: byte, p: Pdu, id: bytes, a: bytes, b: bytes) {
    && p.typ == tag && 0 < |id| <= 8 && 0 < |a| <= 8 && 0 < |b| <= 8
    && Low32(Signed(id), p.requestId) && TwoNumbers(tag, Signed(a), Signed(b), p)
  }

  ghost predicate IsPdu(tag: byte, c: bytes, p: Pdu) { exists id, a, b, list :: PduParts(tag, c, p, id, a, b, list) }

  lemma PduMeansExactly(tag: byte, p: Pdu, id: int64, n1: int64, n2: int64)
    ensures PduOf(tag, ToInt32(id), n1, n2, p.bindings) == p <==> p.typ == tag && Low32(id, p.requestId) && TwoNumbers(tag, n1, n2, p)
  {
    Low32Exactly(id, p.requestId);
  }

  lemma PduReads(tag: byte, c: bytes, p: Pdu, id: Tlv, a: Tlv, b: Tlv, list: Tlv)
    requires PduParts(tag, c, p, id, a, b, list)
    ensures DecodePdu(tag, c) == Ok(p)
  {
    TlvIs(c, id.(tag := 0x02));
    TlvIs(id.rest, a);
    TlvIs(a.rest, b);
    TlvIs(b.rest, list.(tag := 0x30));
    BindingsExactly(list.content, p.bindings);
    PduMeansExactly(tag, p, DecodeIntegerContent(id.content).value, DecodeIntegerContent(a.content).value, DecodeIntegerContent(b.content).value);
  }

  lemma PduAre(tag: byte, c: bytes, p: Pdu)
    requires DecodePdu(tag, c) == Ok(p)
    ensures IsPdu(tag, c, p)
  {
    var id := ReadTlv(c).value;
    var a := ReadTlv(id.rest).value;
    var b := ReadTlv(a.rest).value;
    var list := ReadTlv(b.rest).value;
    TlvIs(c, id);
    TlvIs(id.rest, a);
    TlvIs(a.rest, b);
    TlvIs(b.rest, list);
    BindingsExactly(list.content, p.bindings);
    PduMeansExactly(tag, p, DecodeIntegerContent(id.content).value, DecodeIntegerContent(a.content).value, DecodeIntegerContent(b.content).value);
    assert PduParts(tag, c, p, id, a, b, list);
  }

  lemma PduExactly(tag: byte, c: bytes, p: Pdu)
    ensures DecodePdu(tag, c) == Ok(p) <==> IsPdu(tag, c, p)
  {
    if DecodePdu(tag, c) == Ok(p) { PduAre(tag, c, p); }
    forall id, a, b, list | PduParts(tag, c, p, id, a, b, list) ensures DecodePdu(tag, c) == Ok(p) {
      PduReads(tag, c, p, id, a, b, list);
    }
  }

  /** A sequence of a version, a community and a PDU; more bytes may follow each of the two ends. */
  ghost predicate MessageParts(raw: bytes, m: Message, outer: Tlv, version: Tlv, community: Tlv, pdu: Tlv) {
    && IsTlv(raw, 0x30, outer.content, outer.rest) && IsTlv(outer.content, 0x02, version.content, version.rest)
    && IsTlv(version.rest, 0x04, community.content, community.rest) && IsTlv(community.rest, pdu.tag, pdu.content, pdu.rest)
    && IsInteger(version.content, m.version) && m.community == FromBytes(community.content) && IsPdu(pdu.tag, pdu.content, m.pdu)
  }

  ghost predicate IsMessage(raw: bytes, m: Message) {
    exists outer, version, community, pdu :: MessageParts(raw, m, outer, version, community, pdu)
  }

  lemma MessageReads(raw: bytes, m: Message, outer: Tlv, version: Tlv, community: Tlv, pdu: Tlv)
    requires MessageParts(raw, m, outer, version, community, pdu)
    ensures DecodeMessage(raw) == Ok(m)
  {
    TlvIs(raw, outer.(tag := 0x30));
    TlvIs(outer.content, version.(tag := 0x02));
    TlvIs(version.rest, community.(tag := 0x04));
    TlvIs(community.rest, pdu);
    IntegerExactly(version.content, m.version);
    PduExactly(pdu.tag, pdu.content, m.pdu);
  }

  lemma MessageAre(raw: bytes, m: Message)
    requires DecodeMessage(raw) == Ok(m)
    ensures IsMessage(raw, m)
  {
    var outer := ReadTlv(raw).value;
    var version := ReadTlv(outer.content).value;
    var community := ReadTlv(version.rest).value;
    var pdu := ReadTlv(community.rest).value;
    TlvIs(raw, outer);
    TlvIs(outer.content, version);
    TlvIs(version.rest, community);
    TlvIs(community.rest, pdu);
    IntegerExactly(version.content, m.version);
    PduExactly(pdu.tag, pdu.content, m.pdu);
    assert MessageParts(raw, m, outer, version, community, pdu);
  }

  /** Exactly the byte strings of this grammar are decoded, each to the message it is of. */
  lemma MessageExactly(raw: bytes, m: Message)
    ensures DecodeMessage(raw) == Ok(m) <==> IsMessage(raw, m)
  {
    if DecodeMessage(raw) == Ok(m) { MessageAre(raw, m); }
    forall outer, version, community, pdu | MessageParts(raw, m, outer, version, community, pdu)
      ensures DecodeMessage(raw) == Ok(m)
    {
      MessageReads(raw, m, outer, version, community, pdu);
    }
  }

  // ---- what is sent ----

  /** The length octets sent are the shortest that say the length. */
  lemma LengthIsShortest(n: nat, l: bytes)
    requires n < 0x100_0000 && IsLength(l, n)
    ensures IsLength(EncodeLength(n), n) && |EncodeLength(n)| <= |l|
  {
    LengthOctets(n);
    if |l| >= 2 { FoldRange(0, l[1..]); Pow256Few(); }
  }

  lemma Pow256Few()
    ensures Pow256(1) == 256 && Pow256(2) == 0x1_0000 && Pow256(3) == 0x100_0000
  {
    assert Pow256(0) == 1;
  }

  lemma LengthOctets(n: nat)
    requires n < 0x100_0000
    ensures IsLength(EncodeLength(n), n)
  {
    var l := EncodeLength(n);
    FoldFew(0, l[1..]);
  }
}
