/** Typed SNMP values and the cursor reader (internal/snmp/ber.go:37-44, 162-345). */
module BerValues {
  import opened Bytes
  import opened Wrappers
  import opened Text
  import opened Oids
  import opened Ber

  /** `num` is the struct's Int field; Raw holds IP addresses and uninterpreted contents. */
  datatype Value = Value(typ: byte, num: int64, u64: uint64, str: Octets, raw: bytes)

  function Bare(typ: byte): Value { Value(typ, 0, 0, "", []) }
  function Number(typ: byte, n: int64): Value { Value(typ, n, 0, "", []) }

  function ToBytes(s: Octets): bytes { seq(|s|, i requires 0 <= i < |s| => s[i] as int) }
  function FromBytes(b: bytes): Octets { seq(|b|, i requires 0 <= i < |b| => b[i] as char) }

  lemma StringBytes(s: Octets)
    ensures FromBytes(ToBytes(s)) == s
  {
  }

  lemma {:induction false} TextIsAscii(oid: OID)
    ensures forall i :: 0 <= i < |ToText(oid)| ==> IsDigit(ToText(oid)[i]) || ToText(oid)[i] == '.'
  {
    if oid != [] {
      DecimalParses(oid[0]);
      TextIsAscii(oid[1..]);
      if |oid| > 1 {
        assert ToText(oid) == Decimal(oid[0]) + "." + ToText(oid[1..]);
      }
    }
  }

  function OidText(oid: OID): Octets {
    TextIsAscii(oid);
    ToText(oid)
  }

  // ---- encoding ----

  predicate KnownType(t: byte) {
    || t == TAG_INTEGER || t == TAG_OCTET_STRING || t == TAG_NULL || t == TAG_OID
    || t == TAG_COUNTER32 || t == TAG_GAUGE32 || t == TAG_TIME_TICKS || t == TAG_COUNTER64
    || t == TAG_IP_ADDRESS || t == TAG_NO_SUCH_OBJECT || t == TAG_NO_SUCH_INSTANCE || t == TAG_END_OF_MIB_VIEW
  }

  predicate Is32Bit(t: byte) { t == TAG_COUNTER32 || t == TAG_GAUGE32 || t == TAG_TIME_TICKS }

  predicate IsMarker(t: byte) {
    t == TAG_NULL || t == TAG_NO_SUCH_OBJECT || t == TAG_NO_SUCH_INSTANCE || t == TAG_END_OF_MIB_VIEW
  }

  /** Unknown types are sent as INTEGER. */
  function ValueTag(v: Value): byte { if KnownType(v.typ) then v.typ else TAG_INTEGER }

  /** The 64-bit number a Counter64 value stands for: U64, or else a non-negative Int. */
  function Counter64Of(v: Value): uint64 {
    if v.u64 != 0 || v.num == 0 then v.u64 else if v.num < 0 then 0 else v.num
  }

  function ValueContent(v: Value): bytes {
    if v.typ == TAG_OCTET_STRING then ToBytes(v.str)
    else if IsMarker(v.typ) then []
    else if v.typ == TAG_OID then OidContent(Parse(v.str))
    else if Is32Bit(v.typ) then IntegerContent(v.num % UINT32_MODULUS)
    else if v.typ == TAG_COUNTER64 then IntegerContent(Counter64Of(v))
    else if v.typ == TAG_IP_ADDRESS then if |v.raw| == 4 then v.raw else [0, 0, 0, 0]
    else IntegerContent(v.num)
  }

  function ValueTlv(v: Value): bytes { WrapTlv(ValueTag(v), ValueContent(v)) }

  method EncodeValue(v: Value) returns (out: bytes)
    ensures out == ValueTlv(v)
  {
    if v.typ == TAG_INTEGER {
      out := EncodeInteger(v.num);
    } else if v.typ == TAG_OCTET_STRING {
      out := WrapTlv(TAG_OCTET_STRING, ToBytes(v.str));
    } else if v.typ == TAG_NULL {
      out := [TAG_NULL, 0x00];
    } else if v.typ == TAG_OID {
      var oid := ParseOID(v.str);
      out := EncodeOID(oid);
    } else if v.typ == TAG_COUNTER32 || v.typ == TAG_GAUGE32 || v.typ == TAG_TIME_TICKS {
      assert Pow256(2) == 0x1_0000 && Pow256(4) == UINT32_MODULUS;
      out := EncodeUnsigned(v.typ, v.num % UINT32_MODULUS, 4);
    } else if v.typ == TAG_COUNTER64 {
      Pow256Seven();
      if v.u64 != 0 || v.num == 0 {
        out := EncodeUnsigned(TAG_COUNTER64, v.u64, 8);
      } else if v.num < 0 {
        out := EncodeUnsigned(TAG_COUNTER64, 0, 8);
      } else {
        out := EncodeUnsigned(TAG_COUNTER64, v.num, 8);
      }
    } else if v.typ == TAG_IP_ADDRESS {
      if |v.raw| == 4 {
        out := WrapTlv(TAG_IP_ADDRESS, v.raw);
      } else {
        out := WrapTlv(TAG_IP_ADDRESS, [0, 0, 0, 0]);
      }
    } else if v.typ == TAG_NO_SUCH_OBJECT {
      out := [TAG_NO_SUCH_OBJECT, 0x00];
    } else if v.typ == TAG_NO_SUCH_INSTANCE {
      out := [TAG_NO_SUCH_INSTANCE, 0x00];
    } else if v.typ == TAG_END_OF_MIB_VIEW {
      out := [TAG_END_OF_MIB_VIEW, 0x00];
    } else {
      out := EncodeInteger(v.num);
    }
  }

  // ---- decoding ----

  function DecodeValue(tag: byte, content: bytes): Result<Value, Error> {
    if tag == TAG_INTEGER then
      var n :- DecodeIntegerContent(content); Ok(Number(tag, n))
    else if tag == TAG_OCTET_STRING then Ok(Bare(tag).(str := FromBytes(content)))
    else if IsMarker(tag) then Ok(Bare(tag))
    else if tag == TAG_OID then
      var oid :- DecodeOidContent(content); Ok(Bare(tag).(str := OidText(oid)))
    else if Is32Bit(tag) then
      var u :- DecodeUnsignedContent(content); Ok(Number(tag, u % UINT32_MODULUS))
    else if tag == TAG_COUNTER64 then
      var u :- DecodeUnsignedContent(content); Ok(Bare(tag).(num := ToInt64(u), u64 := u))
    else Ok(Bare(tag).(raw := content))
  }

  /** What a receiver of the agent's encoding reads for `v`. */
  function SentValue(v: Value): Value {
    if v.typ == TAG_OCTET_STRING then Bare(v.typ).(str := v.str)
    else if IsMarker(v.typ) then Bare(v.typ)
    else if v.typ == TAG_OID then Bare(v.typ).(str := OidText(SentOid(Parse(v.str))))
    else if Is32Bit(v.typ) then Number(v.typ, v.num % UINT32_MODULUS)
    else if v.typ == TAG_COUNTER64 then
      var u := Counter64Of(v); Bare(v.typ).(num := ToInt64(u), u64 := u)
    else if v.typ == TAG_IP_ADDRESS then Bare(v.typ).(raw := if |v.raw| == 4 then v.raw else [0, 0, 0, 0])
    else Number(TAG_INTEGER, v.num)
  }

  lemma SentOtherDecodes(v: Value)
    requires v.typ == TAG_OCTET_STRING || v.typ == TAG_OID || v.typ == TAG_IP_ADDRESS || IsMarker(v.typ)
    ensures DecodeValue(ValueTag(v), ValueContent(v)) == Ok(SentValue(v))
  {
    if v.typ == TAG_OCTET_STRING {
      StringBytes(v.str);
    } else if v.typ == TAG_OID {
      SentOidDecodes(Parse(v.str));
    }
  }

  lemma Sent32Decodes(v: Value, low: uint64)
    requires Is32Bit(v.typ) && low == v.num % UINT32_MODULUS
    ensures DecodeValue(ValueTag(v), ValueContent(v)) == Ok(SentValue(v))
  {
    Unsigned64RoundTrip(low);
  }

  lemma SentCounterDecodes(v: Value, u: uint64)
    requires v.typ == TAG_COUNTER64 && u == Counter64Of(v)
    ensures DecodeValue(ValueTag(v), ValueContent(v)) == Ok(SentValue(v))
  {
    Unsigned64RoundTrip(u);
  }

  lemma SentIntegerDecodes(v: Value)
    requires v.typ == TAG_INTEGER || !KnownType(v.typ)
    ensures DecodeValue(ValueTag(v), ValueContent(v)) == Ok(SentValue(v))
  {
    IntegerRoundTrip(v.num);
    assert ValueTag(v) == TAG_INTEGER;
  }

  lemma SentValueDecodes(v: Value)
    ensures DecodeValue(ValueTag(v), ValueContent(v)) == Ok(SentValue(v))
  {
    if v.typ == TAG_INTEGER || !KnownType(v.typ) {
      SentIntegerDecodes(v);
    } else if Is32Bit(v.typ) {
      Sent32Decodes(v, v.num % UINT32_MODULUS);
    } else if v.typ == TAG_COUNTER64 {
      SentCounterDecodes(v, Counter64Of(v));
    } else {
      SentOtherDecodes(v);
    }
  }

  /** The values that survive a trip over the wire; every test is on the value alone. */
  predicate Canonical(v: Value) {
    && KnownType(v.typ)
    && (v.typ == TAG_COUNTER64 || v.u64 == 0)
    && (v.typ == TAG_OCTET_STRING || v.typ == TAG_OID || v.str == "")
    && (v.typ == TAG_IP_ADDRESS || v.raw == [])
    && (v.typ == TAG_INTEGER || Is32Bit(v.typ) || v.typ == TAG_COUNTER64 || v.num == 0)
    && (Is32Bit(v.typ) ==> 0 <= v.num < UINT32_MODULUS)
    && (v.typ == TAG_COUNTER64 ==> v.num == ToInt64(v.u64))
    && (v.typ == TAG_IP_ADDRESS ==> |v.raw| == 4)
    && (v.typ == TAG_OID ==> Encodable(Parse(v.str)) && v.str == ToText(Parse(v.str)))
  }

  lemma {:induction false} ArcsFit32(parts: seq<string>)
    ensures Fits32(ArcsOf(parts))
  {
    if parts != [] {
      ArcsFit32(parts[1..]);
    }
  }

  lemma SentOidTextIsCanonical(text: Octets)
    ensures OidText(SentOid(Parse(text))) == text <==> Encodable(Parse(text)) && text == ToText(Parse(text))
  {
    var oid := Parse(text);
    OidRoundTrip(oid);
    SentOidDecodes(oid);
    if OidText(SentOid(oid)) == text {
      var s := TrimPrefix(TrimSpace(text), '.');
      if s != "" { ArcsFit32(Split(s, '.')); }
      assert Fits32(SentOid(oid));
      TextRoundTrip(SentOid(oid));
    }
  }

  lemma SentUnchanged(v: Value)
    ensures SentValue(v) == v <==> Canonical(v)
  {
    if v.typ == TAG_OID {
      SentOidTextIsCanonical(v.str);
    }
  }

  /** Value codec: decoding inverts encoding exactly on the canonical values. */
  lemma ValueRoundTrip(v: Value)
    ensures DecodeValue(ValueTag(v), ValueContent(v)) == Ok(v) <==> Canonical(v)
  {
    SentValueDecodes(v);
    SentUnchanged(v);
  }

  // ---- the cursor ----

  lemma TlvOf(from: bytes, len: nat, rest: bytes)
    requires from != [] && ReadLength(from[1..]) == Ok(Length(len, rest)) && len <= |rest|
    ensures ReadTlv(from) == Ok(Tlv(from[0], rest[..len], rest[len..]))
  {
  }


  /** reader: a cursor `i` that moves over a fixed slice. */
  class Reader {
    const b: bytes
    var i: nat

    ghost predicate Valid()
      reads this
    {
      i <= |b|
    }

    constructor (raw: bytes)
      ensures Valid() && b == raw && i == 0
    {
      b, i := raw, 0;
    }

    function Remaining(): nat
      requires Valid()
      reads this
    {
      |b| - i
    }

    method ReadByte() returns (r: Result<byte, Error>)
      requires Valid()
      modifies this
      ensures Valid()
      ensures old(i) == |b| ==> r == Err(Eof) && i == old(i)
      ensures old(i) < |b| ==> r == Ok(b[old(i)]) && i == old(i) + 1
    {
      if i >= |b| { return Err(Eof); }
      r := Ok(b[i]);
      i := i + 1;
    }

    method ReadLen() returns (r: Result<nat, Error>)
      requires Valid()
      modifies this
      ensures Valid()
      ensures match ReadLength(b[old(i)..])
              case Ok(l) => r == Ok(l.len) && b[i..] == l.rest
              case Err(e) => r == Err(e)
    {
      ghost var from := b[i..];
      var b0 := ReadByte();
      if b0.Err? { return Err(b0.error); }
      if b0.value < 0x80 { return Ok(b0.value); }
      var n := b0.value - 0x80;
      if n == 0 || n > 4 { return Err(InvalidLengthForm); }
      var l: nat, k := 0, 0;
      ghost var start := i;
      while k < n
        invariant 0 <= k <= n && Valid() && i == start + k
        invariant l == Big(b[start..i])
      {
        var bb := ReadByte();
        if bb.Err? { return Err(Eof); }
        assert b[start..i][..k] == b[start..i - 1];
        l := l * 256 + bb.value;
        k := k + 1;
      }
      assert b[start..i] == from[1..1 + n];
      return Ok(l);
    }

    method ReadTLV() returns (r: Result<Tlv, Error>)
      requires Valid()
      modifies this
      ensures Valid()
      ensures r == ReadTlv(b[old(i)..])
      ensures r.Ok? ==> b[i..] == r.value.rest
    {
      ghost var from := b[i..];
      var tag := ReadByte();
      if tag.Err? { return Err(tag.error); }
      assert b[i..] == from[1..];
      var l := ReadLen();
      if l.Err? { return Err(l.error); }
      if Remaining() < l.value { return Err(TruncatedContent); }
      var content := b[i..i + l.value];
      ghost var rest := b[i..];
      i := i + l.value;
      assert content == rest[..l.value] && b[i..] == rest[l.value..];
      TlvOf(from, l.value, rest);
      return Ok(Tlv(tag.value, content, b[i..]));
    }
  }
}
