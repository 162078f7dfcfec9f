/** BER primitives of the SNMP agent (internal/snmp/ber.go): definite lengths, INTEGER,
    unsigned and OBJECT IDENTIFIER contents, typed values, and the cursor reader. */
module Ber {
  import opened Bytes
  import opened Wrappers
  import opened Oids

  type int64 = v: int | -0x8000_0000_0000_0000 <= v < 0x8000_0000_0000_0000
  type uint64 = v: int | 0 <= v < UINT64_MODULUS

  /** A Go string, seen as its bytes. */
  type Octets = s: string | forall i :: 0 <= i < |s| ==> s[i] as int < 256

  const TAG_INTEGER: byte := 0x02
  const TAG_OCTET_STRING: byte := 0x04
  const TAG_NULL: byte := 0x05
  const TAG_OID: byte := 0x06
  const TAG_SEQUENCE: byte := 0x30
  const TAG_IP_ADDRESS: byte := 0x40
  const TAG_COUNTER32: byte := 0x41
  const TAG_GAUGE32: byte := 0x42
  const TAG_TIME_TICKS: byte := 0x43
  const TAG_COUNTER64: byte := 0x46
  const TAG_NO_SUCH_OBJECT: byte := 0x80
  const TAG_NO_SUCH_INSTANCE: byte := 0x81
  const TAG_END_OF_MIB_VIEW: byte := 0x82

  datatype Error =
    | Eof | InvalidLengthForm | TruncatedContent
    | EmptyOid | EmptyInteger | IntegerTooLarge | EmptyUnsigned
    | ExpectedSequence | VersionNotInteger | CommunityNotOctetString
    | RequestIdNotInteger | VarbindListNotSequence | VarbindNotSequence | VarbindNameNotOid

  // ---- fixed-width arithmetic ----

  /** The low 64 bits, read as a signed number: Go's int64(u). */
  function ToInt64(u: int): int64 {
    var m := u % UINT64_MODULUS;
    if m < 0x8000_0000_0000_0000 then m else m - UINT64_MODULUS
  }

  /** Most significant byte first, shifting `v` left by 8 for each byte. */
  function Fold(v: int, b: bytes): int {
    if b == [] then v else Fold(v, b[..|b| - 1]) * 256 + b[|b| - 1]
  }

  function Big(b: bytes): int { Fold(0, b) }

  /** Two's-complement value of a non-empty content. */
  function Signed(b: bytes): int
    requires b != []
  {
    Fold(if b[0] >= 0x80 then -1 else 0, b)
  }

  function Pow256(k: nat): (p: nat)
    ensures p >= 1
  {
    if k == 0 then 1 else 256 * Pow256(k - 1)
  }

  lemma {:induction false} FoldSplit(v: int, a: bytes, b: bytes)
    ensures Fold(v, a + b) == Fold(Fold(v, a), b)
  {
    if b == [] {
      assert a + b == a;
    } else {
      assert (a + b)[..|a + b| - 1] == a + b[..|b| - 1];
      FoldSplit(v, a, b[..|b| - 1]);
    }
  }

  lemma FoldStep(v: int, b: bytes)
    requires b != []
    ensures Fold(v, b) == Fold(v * 256 + b[0], b[1..])
  {
    FoldSplit(v, [b[0]], b[1..]);
    assert b == [b[0]] + b[1..];
  }

  lemma {:induction false} FoldRange(v: int, b: bytes)
    ensures v * Pow256(|b|) <= Fold(v, b) < (v + 1) * Pow256(|b|)
  {
    if b != [] {
      FoldRange(v, b[..|b| - 1]);
    }
  }

  // ---- lengths and TLVs ----

  /** Definite form; more than 24 bits are cut off. */
  function EncodeLength(n: nat): bytes {
    if n < 0x80 then [n]
    else if n <= 0xff then [0x81, n]
    else if n <= 0xffff then [0x82, n / 0x100, n % 0x100]
    else [0x83, n / 0x1_0000 % 0x100, n / 0x100 % 0x100, n % 0x100]
  }

  function WrapTlv(tag: byte, content: bytes): bytes {
    [tag] + EncodeLength(|content|) + content
  }

  datatype Length = Length(len: nat, rest: bytes)
  datatype Tlv = Tlv(tag: byte, content: bytes, rest: bytes)

  function ReadLength(b: bytes): Result<Length, Error> {
    if b == [] then Err(Eof)
    else if b[0] < 0x80 then Ok(Length(b[0], b[1..]))
    else
      var n := b[0] - 0x80;
      if n == 0 || n > 4 then Err(InvalidLengthForm)
      else if |b| < 1 + n then Err(Eof)
      else
        FoldRange(0, b[1..1 + n]);
        Ok(Length(Big(b[1..1 + n]), b[1 + n..]))
  }

  function ReadTlv(b: bytes): Result<Tlv, Error> {
    if b == [] then Err(Eof)
    else
      var l :- ReadLength(b[1..]);
      if |l.rest| < l.len then Err(TruncatedContent)
      else Ok(Tlv(b[0], l.rest[..l.len], l.rest[l.len..]))
  }

  lemma ReadTlvShrinks(b: bytes)
    ensures ReadTlv(b).Ok? ==> |ReadTlv(b).value.content| + |ReadTlv(b).value.rest| + 2 <= |b|
  {
  }

  lemma FoldFew(v: int, b: bytes)
    ensures |b| == 1 ==> Fold(v, b) == v * 256 + b[0]
    ensures |b| == 2 ==> Fold(v, b) == (v * 256 + b[0]) * 256 + b[1]
    ensures |b| == 3 ==> Fold(v, b) == ((v * 256 + b[0]) * 256 + b[1]) * 256 + b[2]
  {
    assert Fold(v, []) == v;
    if 1 <= |b| <= 3 {
      assert b[..1][..0] == [];
      assert Fold(v, b[..1]) == v * 256 + b[0];
      if |b| >= 2 {
        assert b[..2][..1] == b[..1];
        assert Fold(v, b[..2]) == (v * 256 + b[0]) * 256 + b[1];
      }
      assert b[..|b|] == b;
    }
  }

  /** The length octets carry the content length modulo 2^24. */
  lemma ReadEncodedLength(n: nat, rest: bytes)
    ensures ReadLength(EncodeLength(n) + rest) == Ok(Length(n % 0x100_0000, rest))
  {
    var e := EncodeLength(n);
    var b := e + rest;
    assert b[|e|..] == rest;
    if n >= 0x80 {
      assert b[1..|e|] == e[1..];
      FoldFew(0, e[1..]);
      BytesOf(n);
    }
  }

  lemma BytesOf(n: nat)
    ensures n <= 0xffff ==> n / 0x100 % 0x100 == n / 0x100
    ensures (n / 0x1_0000 % 0x100 * 256 + n / 0x100 % 0x100) * 256 + n % 0x100 == n % 0x100_0000
  {
    var q := n / 0x100;
    assert n == q * 0x100 + n % 0x100;
    assert n / 0x1_0000 == q / 0x100 && q == q / 0x100 * 0x100 + q % 0x100;
    var r := q / 0x100;
    assert r == r / 0x100 * 0x100 + r % 0x100;
    assert n == r / 0x100 * 0x100_0000 + (r % 0x100 * 0x1_0000 + q % 0x100 * 0x100 + n % 0x100);
  }

  lemma ReadWrapped(tag: byte, content: bytes, rest: bytes)
    requires |content| < 0x100_0000
    ensures ReadTlv(WrapTlv(tag, content) + rest) == Ok(Tlv(tag, content, rest))
  {
    var b := WrapTlv(tag, content) + rest;
    assert b[1..] == EncodeLength(|content|) + (content + rest);
    ReadEncodedLength(|content|, content + rest);
    assert (content + rest)[..|content|] == content && (content + rest)[|content|..] == rest;
  }

  /** Reading a wrapped content returns it exactly when its length fits 24 bits. */
  lemma TlvRoundTrip(tag: byte, content: bytes)
    ensures ReadTlv(WrapTlv(tag, content)) == Ok(Tlv(tag, content, [])) <==> |content| < 0x100_0000
  {
    var b := WrapTlv(tag, content);
    if |content| < 0x100_0000 {
      ReadWrapped(tag, content, []);
      assert b + [] == b;
    } else {
      assert b[1..] == EncodeLength(|content|) + content;
      ReadEncodedLength(|content|, content);
    }
  }

  // ---- INTEGER (X.690 section 8.3) ----

  /** The shortest two's-complement content of `v`, least significant byte last. */
  function IntegerContent(v: int): (b: bytes)
    ensures |b| >= 1
    decreases if v >= 0 then v else -v
  {
    if -128 <= v < 128 then [v % 256] else IntegerContent(v / 256) + [v % 256]
  }

  /** Section 8.3.2: the first nine bits are neither all zero nor all one. */
  predicate Shortest(b: bytes) {
    |b| >= 2 ==> !(b[0] == 0 && b[1] < 0x80) && !(b[0] == 0xff && b[1] >= 0x80)
  }

  lemma {:induction false} IntegerContentValue(v: int)
    ensures Signed(IntegerContent(v)) == v
    ensures Shortest(IntegerContent(v))
    ensures v >= 0 <==> IntegerContent(v)[0] < 0x80
    decreases if v >= 0 then v else -v
  {
    var b := IntegerContent(v);
    if -128 <= v < 128 {
      FoldFew(-1, b);
      FoldFew(0, b);
    } else {
      IntegerContentValue(v / 256);
      var h := IntegerContent(v / 256);
      assert b[..|b| - 1] == h;
    }
  }

  lemma ScaleUp(t: int, p: nat)
    requires p >= 1
    ensures t >= 0 ==> t * p >= t
    ensures t <= 0 ==> t * p <= t
  {
    if p > 1 {
      ScaleUp(t, p - 1);
      assert t * p == t * (p - 1) + t;
    }
  }

  lemma SignedOutsideByte(b: bytes)
    requires |b| >= 2 && Shortest(b)
    ensures !(-128 <= Signed(b) < 128)
  {
    var s: int := if b[0] >= 0x80 then -1 else 0;
    FoldSplit(s, b[..2], b[2..]);
    assert b == b[..2] + b[2..];
    var t := Fold(s, b[..2]);
    FoldFew(s, b[..2]);
    FoldRange(t, b[2..]);
    ScaleUp(t, Pow256(|b[2..]|));
    ScaleUp(t + 1, Pow256(|b[2..]|));
  }

  /** A shortest content is determined by its value. */
  lemma {:induction false} ShortestIsIntegerContent(b: bytes)
    requires b != [] && Shortest(b)
    ensures b == IntegerContent(Signed(b))
  {
    if |b| == 1 {
      FoldFew(-1, b);
      FoldFew(0, b);
    } else {
      SignedOutsideByte(b);
      var h := b[..|b| - 1];
      ShortestIsIntegerContent(h);
      assert b == h + [b[|b| - 1]];
      assert Signed(b) == Signed(h) * 256 + b[|b| - 1];
    }
  }

  lemma {:induction false} SignedRange(b: bytes)
    requires b != []
    ensures -(Pow256(|b| - 1) * 128) <= Signed(b) < Pow256(|b| - 1) * 128
  {
    var s: int := if b[0] >= 0x80 then -1 else 0;
    FoldStep(s, b);
    var t: int := s * 256 + b[0];
    FoldRange(t, b[1..]);
    ScaleMonotone(-128, t, Pow256(|b| - 1));
    ScaleMonotone(t + 1, 128, Pow256(|b| - 1));
  }

  lemma ScaleMonotone(x: int, y: int, p: nat)
    requires x <= y
    ensures x * p <= y * p
  {
  }

  lemma {:induction false} IntegerContentBound(v: int, k: nat)
    requires k >= 1 && -(Pow256(k - 1) * 128) <= v < Pow256(k - 1) * 128
    ensures |IntegerContent(v)| <= k
    decreases k
  {
    if !(-128 <= v < 128) {
      assert k >= 2;
      IntegerContentBound(v / 256, k - 1);
    }
  }

  lemma Pow256Seven()
    ensures Pow256(7) == 0x100_0000_0000_0000 && Pow256(8) == UINT64_MODULUS
  {
    assert Pow256(2) == 0x1_0000 && Pow256(4) == 0x1_0000_0000 && Pow256(6) == 0x1_0000_0000_0000;
  }

  /** No content of the same value is shorter, and every int64 needs at most 8 bytes. */
  lemma IntegerContentIsShortest(v: int, b: bytes)
    requires b != [] && Signed(b) == v
    ensures |IntegerContent(v)| <= |b|
    ensures |IntegerContent(v)| <= 8 <==> -0x8000_0000_0000_0000 <= v < 0x8000_0000_0000_0000
  {
    SignedRange(b);
    IntegerContentBound(v, |b|);
    Pow256Seven();
    if -0x8000_0000_0000_0000 <= v < 0x8000_0000_0000_0000 {
      IntegerContentBound(v, 8);
    }
    if |IntegerContent(v)| <= 8 {
      IntegerContentValue(v);
      SignedRange(IntegerContent(v));
      Pow256Grows(|IntegerContent(v)| - 1, 7);
    }
  }

  lemma {:induction false} Pow256Grows(j: nat, k: nat)
    requires j <= k
    ensures Pow256(j) <= Pow256(k)
  {
    if j < k { Pow256Grows(j, k - 1); }
  }

  function DecodeIntegerContent(raw: bytes): Result<int64, Error> {
    if raw == [] then Err(EmptyInteger)
    else if |raw| > 8 then Err(IntegerTooLarge)
    else
      SignedRange(raw); Pow256Seven(); Pow256Grows(|raw| - 1, 7);
      Ok(Signed(raw))
  }

  /** INTEGER codec: decoding inverts encoding on every int64, and only there. */
  lemma IntegerRoundTrip(v: int)
    ensures DecodeIntegerContent(IntegerContent(v)) == Ok(v) <==> -0x8000_0000_0000_0000 <= v < 0x8000_0000_0000_0000
  {
    IntegerContentValue(v);
    IntegerContentIsShortest(v, IntegerContent(v));
  }

  /** Big-endian, fixed width (binary.BigEndian.PutUint64 and PutUint32). */
  function FixedBytes(u: nat, k: nat): (b: bytes)
    ensures |b| == k
  {
    if k == 0 then [] else FixedBytes(u / 256, k - 1) + [u % 256]
  }

  lemma {:induction false} FixedBytesValue(u: nat, k: nat)
    requires u < Pow256(k)
    ensures Big(FixedBytes(u, k)) == u
  {
    if k > 0 {
      FixedBytesValue(u / 256, k - 1);
      assert FixedBytes(u, k)[..k - 1] == FixedBytes(u / 256, k - 1);
    }
  }

  /** A top bit that is set adds exactly one 256^k when the sign is dropped. */
  lemma {:induction false} FoldShift(v: int, w: int, b: bytes)
    ensures Fold(v, b) == Fold(w, b) + (v - w) * Pow256(|b|)
  {
    if b != [] {
      FoldShift(v, w, b[..|b| - 1]);
      var p := Pow256(|b| - 1);
      assert Pow256(|b|) == 256 * p;
      assert ((v - w) * p) * 256 == (v - w) * (256 * p);
    }
  }

  /** Eight bytes whose value is 2^63 or more have their top bit set. */
  lemma TopByte(b: bytes)
    requires |b| == 8
    ensures Big(b) >= 0x8000_0000_0000_0000 ==> b[0] >= 0x80
  {
    FoldStep(0, b);
    FoldRange(b[0], b[1..]);
    Pow256Seven();
    if b[0] < 0x80 {
      assert (b[0] as int + 1) * Pow256(7) <= 0x80 * Pow256(7);
    }
  }

  lemma DropPadding(v: int, b: bytes)
    requires b != [] && ((v == 0 && b[0] == 0) || (v == -1 && b[0] == 0xff))
    ensures Fold(v, b) == Fold(v, b[1..])
  {
    FoldStep(v, b);
  }

  method EncodeInteger(v: int64) returns (out: bytes)
    ensures out == WrapTlv(TAG_INTEGER, IntegerContent(v))
  {
    var buf := PutUint64(v);
    var start := 0;
    if v >= 0 {
      while start < 7 && buf[start] == 0
        invariant 0 <= start <= 7
        invariant Big(buf[start..]) == v
      {
        DropPadding(0, buf[start..]);
        assert buf[start..][1..] == buf[start + 1..];
        start := start + 1;
      }
      if buf[start] >= 0x80 {
        // a positive value whose high bit is set needs a zero byte in front
        var content := [0x00] + buf[start..];
        DropPadding(0, content);
        ShortestIsIntegerContent(content);
        return WrapTlv(TAG_INTEGER, content);
      }
    } else {
      while start < 7 && buf[start] == 0xff && buf[start + 1] >= 0x80
        invariant 0 <= start <= 7
        invariant Fold(-1, buf[start..]) == v
        invariant buf[start] >= 0x80
      {
        DropPadding(-1, buf[start..]);
        assert buf[start..][1..] == buf[start + 1..];
        start := start + 1;
      }
    }
    ShortestIsIntegerContent(buf[start..]);
    return WrapTlv(TAG_INTEGER, buf[start..]);
  }

  /** binary.BigEndian.PutUint64(buf, uint64(v)). */
  method PutUint64(v: int64) returns (buf: bytes)
    ensures |buf| == 8
    ensures Fold(if v >= 0 then 0 else -1, buf) == v
    ensures v < 0 ==> buf[0] >= 0x80
  {
    Pow256Seven();
    FixedBytesValue(v % UINT64_MODULUS, 8);
    buf := FixedBytes(v % UINT64_MODULUS, 8);
    TopByte(buf);
    FoldShift(-1, 0, buf);
  }

  method DecodeInteger(raw: bytes) returns (r: Result<int64, Error>)
    ensures r == DecodeIntegerContent(raw)
  {
    if |raw| == 0 { return Err(EmptyInteger); }
    if |raw| > 8 { return Err(IntegerTooLarge); }
    var v: int := 0;
    if raw[0] >= 0x80 { v := -1; }
    for i := 0 to |raw|
      invariant v == Fold(if raw[0] >= 0x80 then -1 else 0, raw[..i])
    {
      v := v * 256 + raw[i];
      assert raw[..i + 1][..i] == raw[..i];
    }
    assert raw[..|raw|] == raw;
    assert DecodeIntegerContent(raw) == Ok(v);
    return Ok(v);
  }

  // ---- unsigned contents (Counter32, Gauge32, TimeTicks, Counter64) ----

  /** Any number of bytes, wrapping at 64 bits; one leading zero byte is skipped. */
  function DecodeUnsignedContent(raw: bytes): Result<uint64, Error> {
    if raw == [] then Err(EmptyUnsigned)
    else
      var digits := if |raw| > 1 && raw[0] == 0 then raw[1..] else raw;
      FoldRange(0, digits);
      Ok(Big(digits) % UINT64_MODULUS)
  }

  /** An unsigned value is encoded as the INTEGER content of the same number. */
  lemma UnsignedRoundTrip(u: nat)
    ensures DecodeUnsignedContent(IntegerContent(u)) == Ok(u % UINT64_MODULUS)
  {
    var b := IntegerContent(u);
    IntegerContentValue(u);
    if |b| > 1 && b[0] == 0 {
      DropPadding(0, b);
    }
  }

  lemma Unsigned64RoundTrip(u: uint64)
    ensures DecodeUnsignedContent(IntegerContent(u)) == Ok(u)
  {
    UnsignedRoundTrip(u);
    ModUnique(u, 0, u);
  }

  /** encodeUnsigned32 and encodeCounter64 share this loop, with width 4 and 8. */
  method EncodeUnsigned(tag: byte, v: nat, width: nat) returns (out: bytes)
    requires width == 4 || width == 8
    requires v < Pow256(width)
    ensures out == WrapTlv(tag, IntegerContent(v))
  {
    FixedBytesValue(v, width);
    var buf := FixedBytes(v, width);
    var start := 0;
    while start < width - 1 && buf[start] == 0
      invariant 0 <= start <= width - 1
      invariant Big(buf[start..]) == v
    {
      DropPadding(0, buf[start..]);
      assert buf[start..][1..] == buf[start + 1..];
      start := start + 1;
    }
    if buf[start] >= 0x80 {
      var content := [0x00] + buf[start..];
      DropPadding(0, content);
      ShortestIsIntegerContent(content);
      return WrapTlv(tag, content);
    }
    ShortestIsIntegerContent(buf[start..]);
    return WrapTlv(tag, buf[start..]);
  }

  method DecodeUnsigned(raw: bytes) returns (r: Result<uint64, Error>)
    ensures r == DecodeUnsignedContent(raw)
  {
    if |raw| == 0 { return Err(EmptyUnsigned); }
    var i := 0;
    if |raw| > 1 && raw[0] == 0 { i := 1; }
    ghost var digits := raw[i..];
    ghost var from := i;
    var v: int := 0;
    while i < |raw|
      invariant from <= i <= |raw|
      invariant v == Big(digits[..i - from]) % UINT64_MODULUS
    {
      FoldRange(0, digits[..i - from]);
      assert digits[..i + 1 - from][..i - from] == digits[..i - from];
      WrapStep(Big(digits[..i - from]), raw[i]);
      v := v * 256 % UINT64_MODULUS + raw[i];
      i := i + 1;
    }
    assert digits[..i - from] == digits;
    return Ok(v);
  }

  /** (v << 8) | b on 64 bits, applied to an already wrapped v. */
  lemma WrapStep(x: nat, b: byte)
    ensures x % UINT64_MODULUS * 256 % UINT64_MODULUS + b == (x * 256 + b) % UINT64_MODULUS
  {
    var q, m := x / UINT64_MODULUS, x % UINT64_MODULUS;
    var q', m' := m / 0x100_0000_0000_0000, m % 0x100_0000_0000_0000;
    assert m * 256 == q' * UINT64_MODULUS + m' * 256;
    assert x * 256 + b == (q * 256 + q') * UINT64_MODULUS + (m' * 256 + b);
    ModUnique(m * 256, q', m' * 256);
    ModUnique(x * 256 + b, q * 256 + q', m' * 256 + b);
  }

  lemma ModUnique(x: nat, q: nat, r: nat)
    requires x == q * UINT64_MODULUS + r && r < UINT64_MODULUS
    ensures x % UINT64_MODULUS == r
  {
  }

  // ---- OBJECT IDENTIFIER (X.690 section 8.19) ----

  /** Base-128 digits with the continuation bit on every one of them. */
  function Continued(n: nat): bytes {
    if n == 0 then [] else Continued(n / 128) + [n % 128 + 128]
  }

  function Base128(n: nat): bytes { Continued(n / 128) + [n % 128] }

  /** Base-128 digits, least significant first. */
  function Digits128(n: nat): bytes {
    if n == 0 then [] else [n % 128] + Digits128(n / 128)
  }

  lemma {:induction false} ContinuedIsReversed(n: nat)
    ensures |Continued(n)| == |Digits128(n)|
    ensures forall i :: 0 <= i < |Continued(n)| ==> Continued(n)[i] == Digits128(n)[|Continued(n)| - 1 - i] as int + 128
  {
    if n > 0 {
      ContinuedIsReversed(n / 128);
    }
  }

  /** Reversing the digit stack and marking all but the last byte gives the base-128 form. */
  lemma ReversedDigits(n: nat, out: bytes)
    requires n > 0 && |out| == |Digits128(n)|
    requires forall k :: 0 <= k < |out| - 1 ==> out[k] == Digits128(n)[|out| - 1 - k] as int + 0x80
    requires out[|out| - 1] == Digits128(n)[0]
    ensures out == Base128(n)
  {
    ContinuedIsReversed(n / 128);
    var c := Continued(n / 128);
    assert |out| == |c| + 1;
    forall k | 0 <= k < |c|
      ensures out[k] == c[k]
    {
      assert Digits128(n)[|out| - 1 - k] == Digits128(n / 128)[|c| - 1 - k];
    }
  }

  lemma PushDigit(stack: bytes, m: nat, low: byte, high: nat)
    requires m > 0 && low == m % 128 && high == m / 128
    ensures stack + [low] + Digits128(high) == stack + Digits128(m)
  {
    assert Digits128(m) == [low] + Digits128(high);
  }

  /** The digit loop of encodeBase128. */
  method DigitStack(n: Arc) returns (stack: bytes)
    ensures stack == Digits128(n)
  {
    stack := [];
    var m: nat := n;
    ghost var all := Digits128(n);
    while m > 0
      invariant stack + Digits128(m) == all
    {
      var low: byte, high: nat := m % 128, m / 128;
      PushDigit(stack, m, low, high);
      stack := stack + [low];
      m := high;
    }
  }

  lemma DigitRange(n: nat)
    ensures forall k :: 0 <= k < |Digits128(n)| ==> Digits128(n)[k] < 0x80
    ensures n > 0 ==> |Digits128(n)| > 0
  {
  }

  method EncodeBase128(n: Arc) returns (out: bytes)
    ensures out == Base128(n)
  {
    if n < 0x80 { return [n]; }
    var stack := DigitStack(n);
    DigitRange(n);
    out := [];
    for i := 0 to |stack|
      invariant |out| == i
      invariant forall k :: 0 <= k < i && k < |stack| - 1 ==> out[k] == stack[|stack| - 1 - k] as int + 0x80
      invariant i == |stack| ==> out[i - 1] == stack[0]
    {
      var b: int := stack[|stack| - 1 - i];
      if i < |stack| - 1 { b := b + 0x80; }
      out := out + [b];
    }
    ReversedDigits(n, out);
  }

  function EncodeArcs(arcs: OID): bytes {
    if arcs == [] then [] else Base128(arcs[0]) + EncodeArcs(arcs[1..])
  }

  /** byte(first*40 + second): the value may not fit and is cut to 8 bits. */
  function FirstByte(first: nat, second: nat): byte { (first * 40 + second) % 256 }

  function OidContent(oid: OID): bytes {
    if |oid| < 2 then [0] else [FirstByte(oid[0], oid[1])] + EncodeArcs(oid[2..])
  }

  /** (v << 7) | (b & 0x7f) on 64 bits: the top seven bits of `v` are lost. */
  function ShiftIn(v: Arc, b: byte): Arc {
    (if v < 0x200_0000_0000_0000 then v else v % 0x200_0000_0000_0000) * 128 + (if b < 0x80 then b else b - 0x80)
  }

  /** Arcs of a content after its first byte; `v` holds the digits of an unfinished arc. */
  function DecodeArcs(raw: bytes, v: Arc): OID {
    if raw == [] then []
    else
      var w: Arc := ShiftIn(v, raw[0]);
      if raw[0] < 0x80 then [w] + DecodeArcs(raw[1..], 0) else DecodeArcs(raw[1..], w)
  }

  function DecodeOidContent(raw: bytes): Result<OID, Error> {
    if raw == [] then Err(EmptyOid) else Ok([raw[0] / 40, raw[0] % 40] + DecodeArcs(raw[1..], 0))
  }

  method EncodeOID(oid: OID) returns (out: bytes)
    ensures out == WrapTlv(TAG_OID, OidContent(oid))
  {
    if |oid| < 2 { return WrapTlv(TAG_OID, [0]); }
    var content := [FirstByte(oid[0], oid[1])];
    for i := 2 to |oid|
      invariant content + EncodeArcs(oid[i..]) == OidContent(oid)
    {
      var digits := EncodeBase128(oid[i]);
      assert oid[i..][1..] == oid[i + 1..];
      content := content + digits;
    }
    assert oid[|oid|..] == [];
    return WrapTlv(TAG_OID, content);
  }

  method DecodeOID(raw: bytes) returns (r: Result<OID, Error>)
    ensures r == DecodeOidContent(raw)
  {
    if |raw| == 0 { return Err(EmptyOid); }
    var out: OID := [raw[0] / 40, raw[0] % 40];
    var v: Arc := 0;
    for i := 1 to |raw|
      invariant out + DecodeArcs(raw[i..], v) == [raw[0] / 40, raw[0] % 40] + DecodeArcs(raw[1..], 0)
    {
      assert raw[i..][1..] == raw[i + 1..];
      v := ShiftIn(v, raw[i]);
      if raw[i] < 0x80 {
        out := out + [v];
        v := 0;
      }
    }
    assert raw[|raw|..] == [] && out + [] == out;
    return Ok(out);
  }

  lemma DecodeArcsStep(d: byte, rest: bytes, v: Arc)
    ensures d >= 0x80 ==> DecodeArcs([d] + rest, v) == DecodeArcs(rest, ShiftIn(v, d))
    ensures d < 0x80 ==> DecodeArcs([d] + rest, v) == [ShiftIn(v, d)] + DecodeArcs(rest, 0)
  {
    assert ([d] + rest)[1..] == rest;
  }

  lemma JoinDigits(digits: bytes, d: byte, rest: bytes)
    ensures digits + [d] + rest == digits + ([d] + rest)
  {
  }

  lemma SplitDigit(n: Arc) returns (h: Arc, d: byte)
    ensures n == h * 128 + d && d < 128 && h < 0x200_0000_0000_0000
    ensures n > 0 ==> h < n && Continued(n) == Continued(h) + [d as int + 128]
    ensures Base128(n) == Continued(h) + [d]
  {
    h, d := n / 128, n % 128;
  }

  lemma {:induction false} DecodeContinued(n: Arc, rest: bytes)
    ensures DecodeArcs(Continued(n) + rest, 0) == DecodeArcs(rest, n)
  {
    if n == 0 {
      assert Continued(n) + rest == rest;
    } else {
      var h, d := SplitDigit(n);
      var b: byte := d as int + 128;
      JoinDigits(Continued(h), b, rest);
      DecodeContinued(h, [b] + rest);
      DecodeArcsStep(b, rest, h);
    }
  }

  lemma DecodeBase128(n: Arc, rest: bytes)
    ensures DecodeArcs(Base128(n) + rest, 0) == [n] + DecodeArcs(rest, 0)
  {
    var h, d := SplitDigit(n);
    JoinDigits(Continued(h), d, rest);
    DecodeContinued(h, [d] + rest);
    DecodeArcsStep(d, rest, h);
  }

  lemma {:induction false} DecodeEncodedArcs(arcs: OID)
    ensures DecodeArcs(EncodeArcs(arcs), 0) == arcs
  {
    if arcs != [] {
      DecodeBase128(arcs[0], EncodeArcs(arcs[1..]));
      DecodeEncodedArcs(arcs[1..]);
    }
  }

  /** The OIDs that BER can carry: two arcs at least, packed without loss in one byte. */
  predicate Encodable(oid: OID) {
    |oid| >= 2 && oid[1] < 40 && oid[0] as int * 40 + oid[1] < 256
  }

  /** What a receiver reads for an OID the agent encodes. */
  function SentOid(oid: OID): OID {
    if |oid| < 2 then [0, 0]
    else var first := FirstByte(oid[0], oid[1]); [first / 40, first % 40] + oid[2..]
  }

  lemma SentOidDecodes(oid: OID)
    ensures DecodeOidContent(OidContent(oid)) == Ok(SentOid(oid))
  {
    var c := OidContent(oid);
    if |oid| >= 2 {
      DecodeEncodedArcs(oid[2..]);
      assert c[1..] == EncodeArcs(oid[2..]);
    } else {
      assert c[1..] == [];
      assert SentOid(oid) == [0, 0] + [];
    }
  }

  /** OID codec: decoding inverts encoding exactly on the encodable OIDs. */
  lemma OidRoundTrip(oid: OID)
    ensures DecodeOidContent(OidContent(oid)) == Ok(oid) <==> Encodable(oid)
  {
    SentOidDecodes(oid);
    if |oid| >= 2 {
      assert oid == [oid[0], oid[1]] + oid[2..];
      if SentOid(oid) == oid {
        var first := FirstByte(oid[0], oid[1]);
        assert oid[0] == SentOid(oid)[0] && oid[1] == SentOid(oid)[1];
        assert first == first / 40 * 40 + first % 40;
      }
    }
  }

  /** Every decoded OID can be encoded again. */
  lemma DecodedIsEncodable(raw: bytes)
    ensures DecodeOidContent(raw).Ok? ==> Encodable(DecodeOidContent(raw).value)
  {
    if raw != [] {
      var first := raw[0];
      assert first == first / 40 * 40 + first % 40;
    }
  }
}
