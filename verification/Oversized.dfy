/** Messages of 2^24 bytes and more: their length octets describe a cut message, and no cut message
    decodes to the one that was encoded. */
module Oversized {
  import opened Bytes
  import opened Wrappers
  import opened Oids
  import opened Ber
  import opened BerValues
  import opened Pdus

  const LIMIT := 0x100_0000

  /** How much of a content its length octets describe. */
  function Described(content: bytes): bytes { content[..|content| % LIMIT] }

  // ---- one TLV ----

  lemma PrefixSplit(x: bytes, a: bytes, b: bytes)
    requires x <= a + b && |x| >= |a|
    ensures x[..|a|] == a && x[|a|..] <= b
  {
  }

  lemma LengthPrefix(x: bytes, n: nat, rest: bytes)
    requires x <= EncodeLength(n) + rest && ReadLength(x).Ok?
    ensures |x| >= |EncodeLength(n)| && ReadLength(x) == Ok(Length(n % LIMIT, x[|EncodeLength(n)|..]))
  {
    var e := EncodeLength(n);
    assert x[0] == (e + rest)[0] == e[0];
    PrefixSplit(x, e, rest);
    assert x == e + x[|e|..];
    ReadEncodedLength(n, x[|e|..]);
  }

  lemma TagPrefix(x: bytes, tag: byte, rest: bytes)
    requires x <= [tag] + rest && x != []
    ensures x[0] == tag && x[1..] <= rest
  {
    PrefixSplit(x, [tag], rest);
  }

  lemma SplitTlv(tag: byte, content: bytes, rest: bytes)
    ensures WrapTlv(tag, content) + rest == [tag] + (EncodeLength(|content|) + (content + rest))
  {
  }

  /** Where the content begins. */
  lemma BodyOfPrefix(x: bytes, tag: byte, content: bytes, rest: bytes, body: bytes)
    requires x <= WrapTlv(tag, content) + rest && ReadTlv(x).Ok?
    requires |x| > |EncodeLength(|content|)| ==> body == x[1 + |EncodeLength(|content|)|..]
    ensures |x| == 1 + |EncodeLength(|content|)| + |body| && body <= content + rest && |content| % LIMIT <= |body|
    ensures ReadTlv(x) == Ok(Tlv(tag, body[..|content| % LIMIT], body[|content| % LIMIT..]))
  {
    var e := EncodeLength(|content|);
    SplitTlv(tag, content, rest);
    TagPrefix(x, tag, e + (content + rest));
    LengthPrefix(x[1..], |content|, content + rest);
    PrefixSplit(x[1..], e, content + rest);
    assert x[1..][|e|..] == body;
  }

  lemma ModLimit(n: nat)
    ensures n % LIMIT <= n && (n < LIMIT ==> n % LIMIT == n)
  {
  }

  lemma BodySplit(body: bytes, content: bytes, rest: bytes, d: nat)
    requires body <= content + rest && d <= |body| && d <= |content|
    ensures body[..d] == content[..d]
    ensures d == |content| ==> body[..d] == content && body[d..] <= rest
  {
    assert body[..d] == (content + rest)[..d];
  }

  /** What is read at the start of a cut stretch that begins with a wrapped content. */
  lemma ReadOfPrefix(x: bytes, tag: byte, content: bytes, rest: bytes)
    requires x <= WrapTlv(tag, content) + rest && ReadTlv(x).Ok?
    ensures var t := ReadTlv(x).value;
      && t.tag == tag && t.content == Described(content)
      && (|content| < LIMIT ==> t.content == content && t.rest <= rest && |x| == |WrapTlv(tag, content)| + |t.rest|)
  {
    var start := 1 + |EncodeLength(|content|)|;
    var body := if start <= |x| then x[start..] else [];
    var d := |content| % LIMIT;
    ModLimit(|content|);
    BodyOfPrefix(x, tag, content, rest, body);
    BodySplit(body, content, rest, d);
    assert ReadTlv(x).value == Tlv(tag, body[..d], body[d..]);
  }

  lemma ProperPart(content: bytes)
    requires |content| >= LIMIT
    ensures Described(content) <= content && |Described(content)| < |content|
  {
  }

  // ---- object identifiers ----

  /** The bytes that end an arc. */
  function Ends(b: bytes): nat {
    if b == [] then 0 else (if b[0] < 0x80 then 1 else 0) + Ends(b[1..])
  }

  lemma {:induction false} EndsJoin(a: bytes, b: bytes)
    ensures Ends(a + b) == Ends(a) + Ends(b)
  {
    if a == [] {
      assert a + b == b;
    } else {
      EndsJoin(a[1..], b);
      assert (a + b)[1..] == a[1..] + b;
    }
  }

  lemma {:induction false} ArcsDecoded(raw: bytes, v: Arc)
    ensures |DecodeArcs(raw, v)| == Ends(raw)
    decreases |raw|
  {
    if raw != [] {
      if raw[0] < 0x80 { ArcsDecoded(raw[1..], 0); } else { ArcsDecoded(raw[1..], ShiftIn(v, raw[0])); }
    }
  }

  lemma {:induction false} ContinuedEndsNothing(n: nat)
    ensures Ends(Continued(n)) == 0
  {
    if n > 0 {
      ContinuedEndsNothing(n / 128);
      EndsJoin(Continued(n / 128), [n % 128 + 128]);
    }
  }

  lemma {:induction false} ArcsEnd(arcs: OID)
    ensures Ends(EncodeArcs(arcs)) == |arcs|
    ensures arcs != [] ==> EncodeArcs(arcs) != [] && EncodeArcs(arcs)[|EncodeArcs(arcs)| - 1] < 0x80
  {
    if arcs != [] {
      ArcsEnd(arcs[1..]);
      ContinuedEndsNothing(arcs[0] / 128);
      EndsJoin(Continued(arcs[0] / 128), [arcs[0] % 128]);
      EndsJoin(Base128(arcs[0]), EncodeArcs(arcs[1..]));
    }
  }

  /** Cutting the arcs loses at least the last one. */
  lemma CutArcs(arcs: OID, k: nat)
    requires k < |EncodeArcs(arcs)|
    ensures Ends(EncodeArcs(arcs)[..k]) < |arcs|
  {
    var b := EncodeArcs(arcs);
    ArcsEnd(arcs);
    var n := |b| - 1;
    assert b == b[..n] + [b[n]] && b[..n] == b[..k] + b[k..n];
    EndsJoin(b[..n], [b[n]]);
    EndsJoin(b[..k], b[k..n]);
  }

  lemma CutOid(oid: OID, k: nat)
    requires k < |OidContent(oid)|
    ensures var r := DecodeOidContent(OidContent(oid)[..k]); r.Ok? ==> |r.value| < |oid|
  {
    if k > 0 {
      var c := OidContent(oid);
      assert c[..k][1..] == c[1..k] == EncodeArcs(oid[2..])[..k - 1];
      CutArcs(oid[2..], k - 1);
      ArcsDecoded(c[1..k], 0);
    }
  }

  // ---- values ----

  lemma {:induction false} FewerArcs(parts: seq<string>)
    ensures |ArcsOf(parts)| <= |parts|
  {
    if parts != [] { FewerArcs(parts[1..]); }
  }

  /** The text of a shorter OID is not the text that was encoded. */
  lemma ShorterText(text: Octets, oid: OID)
    requires |oid| < |Parse(text)|
    ensures OidText(oid) != text
  {
    ParsePrinted(oid);
    PartsAreDigits(oid);
    FewerArcs(PartsOf(oid));
  }

  lemma NumberIsShort(n: int)
    requires -0x8000_0000_0000_0000 <= n < UINT64_MODULUS
    ensures |IntegerContent(n)| <= 9
  {
    Pow256Seven();
    IntegerContentBound(n, 9);
  }

  lemma NumbersAreShort(v: Value)
    requires v.typ != TAG_OCTET_STRING && v.typ != TAG_OID
    ensures |ValueContent(v)| < LIMIT
  {
    NumberIsShort(v.num);
    NumberIsShort(v.num % UINT32_MODULUS);
    NumberIsShort(Counter64Of(v));
  }

  lemma CutOidValue(v: Value, k: nat)
    requires v.typ == TAG_OID && k < |ValueContent(v)|
    ensures DecodeValue(ValueTag(v), ValueContent(v)[..k]) != Ok(v)
  {
    CutOid(Parse(v.str), k);
    var r := DecodeOidContent(ValueContent(v)[..k]);
    if r.Ok? { ShorterText(v.str, r.value); }
  }

  lemma CutValue(v: Value)
    requires |ValueContent(v)| >= LIMIT
    ensures DecodeValue(ValueTag(v), Described(ValueContent(v))) != Ok(v)
  {
    ProperPart(ValueContent(v));
    if v.typ == TAG_OID {
      CutOidValue(v, |ValueContent(v)| % LIMIT);
    } else if v.typ != TAG_OCTET_STRING {
      NumbersAreShort(v);
    }
  }

  // ---- bindings and messages ----

  /** A proper beginning of a varbind does not decode to it. */
  lemma CutVarBind(b: VarBind, x: bytes)
    requires x <= WrapTlv(TAG_OID, OidContent(b.name)) + ValueTlv(b.value)
    requires |x| < |WrapTlv(TAG_OID, OidContent(b.name))| + |ValueTlv(b.value)|
    ensures DecodeVarBind(x) != Ok(b)
  {
    if DecodeVarBind(x) == Ok(b) {
      var name := OidContent(b.name);
      ReadOfPrefix(x, TAG_OID, name, ValueTlv(b.value));
      if |name| >= LIMIT {
        ProperPart(name);
        CutOid(b.name, |name| % LIMIT);
      } else {
        CutValueTlv(b.value, ReadTlv(x).value.rest);
      }
    }
  }

  lemma CutValueTlv(v: Value, x: bytes)
    requires x <= ValueTlv(v) && |x| < |ValueTlv(v)| && ReadTlv(x).Ok?
    ensures var t := ReadTlv(x).value; DecodeValue(t.tag, t.content) != Ok(v)
  {
    assert ValueTlv(v) + [] == ValueTlv(v);
    ReadOfPrefix(x, ValueTag(v), ValueContent(v), []);
    if |ValueContent(v)| >= LIMIT { CutValue(v); }
  }

  lemma {:induction false} CutBindings(bs: seq<VarBind>, x: bytes)
    requires x <= BindingsBytes(bs) && |x| < |BindingsBytes(bs)|
    ensures DecodeBindings(x) != Ok(bs)
  {
    if x != [] && DecodeBindings(x) == Ok(bs) {
      BindingsStep(x);
      var t := ReadTlv(x).value;
      var c := WrapTlv(TAG_OID, OidContent(bs[0].name)) + ValueTlv(bs[0].value);
      ReadOfPrefix(x, TAG_SEQUENCE, c, BindingsBytes(bs[1..]));
      FirstBinding(x, bs);
      if |c| >= LIMIT {
        ProperPart(c);
        CutVarBind(bs[0], t.content);
      } else {
        CutBindings(bs[1..], t.rest);
      }
    }
  }

  lemma FirstBinding(x: bytes, bs: seq<VarBind>)
    requires x != [] && DecodeBindings(x) == Ok(bs)
    ensures bs != [] && ReadTlv(x).Ok?
    ensures var t := ReadTlv(x).value; DecodeVarBind(t.content) == Ok(bs[0]) && DecodeBindings(t.rest) == Ok(bs[1..])
  {
    ReadTlvShrinks(x);
  }

  lemma IntegerOfPrefix(x: bytes, v: int64, rest: bytes)
    requires x <= IntegerTlv(v) + rest && ReadTlv(x).Ok?
    ensures ReadTlv(x).value.rest <= rest && |x| == |IntegerTlv(v)| + |ReadTlv(x).value.rest|
  {
    NumberIsShort(v);
    ReadOfPrefix(x, TAG_INTEGER, IntegerContent(v), rest);
  }

  /** The list read after the three numbers gives the bindings. */
  lemma ListRead(p: Pdu, x: bytes) returns (y: bytes, z: bytes, w: bytes)
    requires DecodePdu(PduTag(p), x) == Ok(p)
    ensures ReadTlv(x).Ok? && y == ReadTlv(x).value.rest
    ensures ReadTlv(y).Ok? && z == ReadTlv(y).value.rest
    ensures ReadTlv(z).Ok? && w == ReadTlv(z).value.rest
    ensures ReadTlv(w).Ok? && DecodeBindings(ReadTlv(w).value.content) == Ok(p.bindings)
  {
    y := ReadTlv(x).value.rest;
    z := ReadTlv(y).value.rest;
    w := ReadTlv(z).value.rest;
  }

  lemma CutPdu(p: Pdu, x: bytes)
    requires x <= PduContent(p) && |x| < |PduContent(p)|
    ensures DecodePdu(PduTag(p), x) != Ok(p)
  {
    if DecodePdu(PduTag(p), x) == Ok(p) {
      var list := WrapTlv(TAG_SEQUENCE, BindingsBytes(p.bindings));
      var y, z, w := ListRead(p, x);
      IntegerOfPrefix(x, p.requestId, IntegerTlv(FirstField(p)) + (IntegerTlv(SecondField(p)) + list));
      IntegerOfPrefix(y, FirstField(p), IntegerTlv(SecondField(p)) + list);
      IntegerOfPrefix(z, SecondField(p), list);
      CutList(p.bindings, w);
    }
  }

  lemma CutList(bs: seq<VarBind>, x: bytes)
    requires var list := WrapTlv(TAG_SEQUENCE, BindingsBytes(bs)); x <= list && |x| < |list| && ReadTlv(x).Ok?
    ensures DecodeBindings(ReadTlv(x).value.content) != Ok(bs)
  {
    var items := BindingsBytes(bs);
    assert WrapTlv(TAG_SEQUENCE, items) + [] == WrapTlv(TAG_SEQUENCE, items);
    ReadOfPrefix(x, TAG_SEQUENCE, items, []);
    if |items| >= LIMIT {
      ProperPart(items);
      CutBindings(bs, Described(items));
    }
  }

  lemma CutCommunity(community: Octets, rest: bytes, x: bytes)
    requires x <= WrapTlv(TAG_OCTET_STRING, ToBytes(community)) + rest && ReadTlv(x).Ok?
    requires FromBytes(ReadTlv(x).value.content) == community
    ensures ReadTlv(x).value.rest <= rest
    ensures |x| == |WrapTlv(TAG_OCTET_STRING, ToBytes(community))| + |ReadTlv(x).value.rest|
  {
    ReadOfPrefix(x, TAG_OCTET_STRING, ToBytes(community), rest);
    if |community| >= LIMIT { ProperPart(ToBytes(community)); }
  }

  lemma CutPduTlv(p: Pdu, x: bytes)
    requires var tlv := WrapTlv(PduTag(p), PduContent(p)); x <= tlv && |x| < |tlv| && ReadTlv(x).Ok?
    ensures var t := ReadTlv(x).value; DecodePdu(t.tag, t.content) != Ok(p)
  {
    assert WrapTlv(PduTag(p), PduContent(p)) + [] == WrapTlv(PduTag(p), PduContent(p));
    ReadOfPrefix(x, PduTag(p), PduContent(p), []);
    if |PduContent(p)| >= LIMIT {
      ProperPart(PduContent(p));
      CutPdu(p, Described(PduContent(p)));
    }
  }

  /** The fields read from a content give the message. */
  ghost predicate Gives(m: Message, x: bytes) {
    && ReadTlv(x).Ok? && ReadTlv(ReadTlv(x).value.rest).Ok?
    && var t1 := ReadTlv(ReadTlv(x).value.rest).value;
    && FromBytes(t1.content) == m.community && ReadTlv(t1.rest).Ok?
    && var t2 := ReadTlv(t1.rest).value;
    && DecodePdu(t2.tag, t2.content) == Ok(m.pdu)
  }

  lemma CutContent(m: Message, x: bytes)
    requires x <= MessageContent(m) && |x| < |MessageContent(m)|
    ensures !Gives(m, x)
  {
    if Gives(m, x) {
      var pdu := WrapTlv(PduTag(m.pdu), PduContent(m.pdu));
      IntegerOfPrefix(x, m.version, WrapTlv(TAG_OCTET_STRING, ToBytes(m.community)) + pdu);
      var y := ReadTlv(x).value.rest;
      CutCommunity(m.community, pdu, y);
      CutPduTlv(m.pdu, ReadTlv(y).value.rest);
    }
  }

  lemma DecodedGives(m: Message, raw: bytes)
    requires DecodeMessage(raw) == Ok(m)
    ensures ReadTlv(raw).Ok? && Gives(m, ReadTlv(raw).value.content)
  {
  }

  /** A message of 2^24 content bytes or more never decodes to itself. */
  lemma CutMessage(m: Message)
    requires |MessageContent(m)| >= LIMIT
    ensures DecodeMessage(MessageBytes(m)) != Ok(m)
  {
    if DecodeMessage(MessageBytes(m)) == Ok(m) {
      var c := MessageContent(m);
      DecodedGives(m, MessageBytes(m));
      assert MessageBytes(m) + [] == MessageBytes(m);
      ReadOfPrefix(MessageBytes(m), TAG_SEQUENCE, c, []);
      ProperPart(c);
      CutContent(m, Described(c));
    }
  }

  /** Message codec, for every message: decoding an encoded message returns it exactly when it is
      well formed and its content is below 2^24 bytes. */
  lemma MessageRoundTripExactly(m: Message)
    ensures DecodeMessage(MessageBytes(m)) == Ok(m) <==> WellFormed(m) && |MessageContent(m)| < LIMIT
  {
    if |MessageContent(m)| < LIMIT { MessageRoundTrip(m); } else { CutMessage(m); }
  }
}
