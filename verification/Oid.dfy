/** Object identifiers (internal/snmp/oid.go): dotted text, order and prefixes. */
module Oids {
  import opened Wrappers
  import opened Text
  import Lex

  const UINT64_MODULUS := 0x1_0000_0000_0000_0000
  const UINT32_MODULUS := 0x1_0000_0000

  /** One arc: Go's `uint`, 64 bits wide. */
  type Arc = n: nat | n < UINT64_MODULUS
  type OID = seq<Arc>

  // ---- text form ----

  function ArcsOf(parts: seq<string>): OID {
    if parts == [] then []
    else
      match ParseUint(parts[0], UINT32_MODULUS)
      case Some(n) => [n] + ArcsOf(parts[1..])
      case None => ArcsOf(parts[1..])   // empty, non-numeric or over 32 bits: skipped
  }

  function Parse(text: string): OID {
    var s := TrimPrefix(TrimSpace(text), '.');
    if s == "" then [] else ArcsOf(Split(s, '.'))
  }

  function PartsOf(oid: OID): seq<string> {
    if oid == [] then [] else [Decimal(oid[0])] + PartsOf(oid[1..])
  }

  function ToText(oid: OID): string { Join(PartsOf(oid), '.') }

  method ParseOID(text: string) returns (out: OID)
    ensures out == Parse(text)
  {
    var s := TrimPrefix(TrimSpace(text), '.');
    if s == "" { return []; }
    var parts := Split(s, '.');
    out := [];
    for i := 0 to |parts|
      invariant out + ArcsOf(parts[i..]) == ArcsOf(parts)
    {
      match ParseUint(parts[i], UINT32_MODULUS)
      case Some(n) => out := out + [n];
      case None =>
    }
  }

  method String(oid: OID) returns (b: string)
    ensures b == ToText(oid)
  {
    if |oid| == 0 { return ""; }
    b := "";
    for i := 0 to |oid|
      invariant ToText(oid) == if i == 0 then ToText(oid) else if i == |oid| then b else b + "." + ToText(oid[i..])
      invariant i == 0 ==> b == ""
    {
      if i > 0 { b := b + "."; }
      b := b + Decimal(oid[i]);
      assert PartsOf(oid[i..])[1..] == PartsOf(oid[i..][1..]) && oid[i..][1..] == oid[i + 1..];
      assert oid[0..] == oid;
      if i + 1 < |oid| {
        assert ToText(oid[i..]) == Decimal(oid[i]) + "." + ToText(oid[i + 1..]);
      }
    }
  }

  predicate Fits32(oid: OID) { forall i :: 0 <= i < |oid| ==> oid[i] < UINT32_MODULUS }

  lemma {:induction false} PartsAreDigits(oid: OID)
    ensures |PartsOf(oid)| == |oid|
    ensures forall i :: 0 <= i < |oid| ==> PartsOf(oid)[i] == Decimal(oid[i])
    ensures forall i :: 0 <= i < |oid| ==> PartsOf(oid)[i] != "" && AllDigits(PartsOf(oid)[i]) && Lacks(PartsOf(oid)[i], '.')
  {
    if oid != [] {
      PartsAreDigits(oid[1..]);
      DecimalParses(oid[0]);
    }
  }

  lemma {:induction false} ArcsOfParts(oid: OID)
    ensures Fits32(oid) ==> ArcsOf(PartsOf(oid)) == oid
    ensures Fits32(ArcsOf(PartsOf(oid)))
  {
    if oid != [] {
      ArcsOfParts(oid[1..]);
      DecimalParses(oid[0]);
    }
  }

  lemma {:induction false} JoinEnds(parts: seq<string>)
    requires |parts| >= 1 && forall i :: 0 <= i < |parts| ==> parts[i] != "" && AllDigits(parts[i])
    ensures var s := Join(parts, '.');
      s != "" && IsDigit(s[0]) && IsDigit(s[|s| - 1])
  {
    if |parts| > 1 {
      JoinEnds(parts[1..]);
    }
  }

  /** What reading back a printed OID gives: its arcs, less those over 32 bits. */
  lemma ParsePrinted(oid: OID)
    ensures Parse(ToText(oid)) == ArcsOf(PartsOf(oid))
  {
    if oid != [] {
      PartsAreDigits(oid);
      JoinEnds(PartsOf(oid));
      TrimIdentity(ToText(oid));
      SplitJoin(PartsOf(oid), '.');
    }
  }

  /** Printing then parsing gives the OID back exactly when every arc fits 32 bits. */
  lemma TextRoundTrip(oid: OID)
    ensures Parse(ToText(oid)) == oid <==> Fits32(oid)
  {
    ParsePrinted(oid);
    ArcsOfParts(oid);
  }

  lemma {:induction false} ArcsOfJoin(a: seq<string>, b: seq<string>)
    ensures ArcsOf(a + b) == ArcsOf(a) + ArcsOf(b)
  {
    if a == [] {
      assert a + b == b;
    } else {
      assert (a + b)[1..] == a[1..] + b;
      ArcsOfJoin(a[1..], b);
    }
  }

  /** A part is an arc exactly if it is digits of a number below 2^32; any other is passed over, and
      the parts before and after it are read as if it were not there. */
  lemma BadPartIsSkipped(a: seq<string>, part: string, b: seq<string>)
    ensures ArcsOf(a + [part] + b) == ArcsOf(a)
      + (if part != "" && AllDigits(part) && DigitsValue(part) < 0x1_0000_0000 then [DigitsValue(part)] else []) + ArcsOf(b)
  {
    ArcsOfJoin(a, [part] + b);
    ArcsOfJoin([part], b);
    assert a + [part] + b == a + ([part] + b) && [part][1..] == [];
  }

  /** One dot before the first arc changes nothing. */
  lemma LeadingDot(text: string)
    requires text != "" && text[0] != '.' && !IsSpace(text[0]) && !IsSpace(text[|text| - 1])
    ensures Parse("." + text) == Parse(text)
  {
    TrimIdentity(text);
    TrimIdentity("." + text);
    assert ("." + text)[1..] == text;
  }

  // ---- order and prefixes ----

  method Compare(o: OID, other: OID) returns (c: int)
    ensures c == Lex.Compare(o, other)
  {
    var n := |o|;
    if |other| < n { n := |other|; }
    for i := 0 to n
      invariant o[..i] == other[..i]
      invariant Lex.Compare(o, other) == Lex.Compare(o[i..], other[i..])
    {
      if o[i] < other[i] { return -1; }
      if o[i] > other[i] { return 1; }
      assert o[i..][1..] == o[i + 1..] && other[i..][1..] == other[i + 1..];
    }
    if |o| < |other| { return -1; }
    if |o| > |other| { return 1; }
    return 0;
  }

  method Equal(o: OID, other: OID) returns (same: bool)
    ensures same <==> o == other
  {
    if |o| != |other| { return false; }
    for i := 0 to |o|
      invariant o[..i] == other[..i]
    {
      if o[i] != other[i] { return false; }
    }
    return true;
  }

  /** Whether `o` is a prefix of `other`. */
  method IsPrefix(o: OID, other: OID) returns (yes: bool)
    ensures yes <==> o <= other
  {
    if |o| > |other| { return false; }
    for i := 0 to |o|
      invariant o[..i] == other[..i]
    {
      if o[i] != other[i] { return false; }
    }
    return true;
  }
}
