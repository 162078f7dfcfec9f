/** CIDR blocks (RFC 4632 section 3.1): size, membership, nesting, text. */
module Blocks {
  import opened Wrappers
  import opened Text
  import opened Addresses

  function Pow2(k: nat): (p: nat)
    ensures p >= 1
  {
    if k == 0 then 1 else 2 * Pow2(k - 1)
  }

  lemma {:induction false} Pow2Adds(j: nat, k: nat)
    ensures Pow2(j + k) == Pow2(j) * Pow2(k)
  {
    if j > 0 {
      Pow2Adds(j - 1, k);
    }
  }

  lemma Pow2Values()
    ensures Pow2(8) == 0x100 && Pow2(16) == 0x1_0000 && Pow2(24) == 0x100_0000 && Pow2(32) == ADDRESSES
  {
    assert Pow2(8) == 0x100;
    Pow2Adds(8, 8); Pow2Adds(16, 8); Pow2Adds(16, 16);
  }

  /** A prefix length and the network address of its block, already masked. */
  datatype Cidr = Cidr(net: Ip, prefix: nat) {
    predicate Valid() { prefix <= 32 && net % Pow2(32 - prefix) == 0 }
  }

  function Size(c: Cidr): nat
    requires c.prefix <= 32
  {
    Pow2(32 - c.prefix)
  }

  lemma ModFits(x: nat, p: nat)
    requires p >= 1
    ensures 0 <= x % p <= x
  {
  }

  /** ip & mask. */
  function Masked(ip: Ip, prefix: nat): Cidr
    requires prefix <= 32
  {
    ModFits(ip, Pow2(32 - prefix));
    Cidr(ip - ip % Pow2(32 - prefix), prefix)
  }

  lemma Quotient(x: nat, p: nat) returns (q: nat)
    requires p >= 1
    ensures x == q * p + x % p
  {
    q := x / p;
  }

  lemma MaskedIsValid(ip: Ip, prefix: nat)
    requires prefix <= 32
    ensures Masked(ip, prefix).Valid()
    ensures Cidr(ip, prefix).Valid() ==> Masked(ip, prefix) == Cidr(ip, prefix)
  {
    var p := Pow2(32 - prefix);
    var q := Quotient(ip, p);
    MultipleMod(q, p);
  }

  lemma MultipleMod(q: nat, p: nat)
    requires p >= 1
    ensures q * p % p == 0
  {
    DivModUnique(q * p, q, 0, p);
  }

  lemma Scale(x: int, y: int, p: nat)
    requires x <= y
    ensures x * p <= y * p
  {
  }

  lemma DivModUnique(x: int, q: int, r: int, p: int)
    requires p >= 1 && x == q * p + r && 0 <= r < p
    ensures x / p == q && x % p == r
  {
    var q', r' := x / p, x % p;
    assert x == q' * p + r';
    if q < q' {
      Scale(q + 1, q', p);
    } else if q' < q {
      Scale(q' + 1, q, p);
    }
  }

  /** IPNet.Contains: equal after masking. */
  function Contains(c: Cidr, ip: Ip): bool
    requires c.prefix <= 32
  {
    ip - ip % Size(c) == c.net
  }

  ghost predicate In(c: Cidr, ip: Ip)
    requires c.prefix <= 32
  {
    c.net <= ip < c.net + Size(c)
  }

  lemma ContainsIsIn(c: Cidr, ip: Ip)
    requires c.Valid()
    ensures Contains(c, ip) <==> In(c, ip)
  {
    var p := Size(c);
    var q := Quotient(c.net, p);
    if In(c, ip) {
      DivModUnique(ip, q, ip - c.net, p);
    }
  }

  lemma MultipleFits(x: nat, k: nat, p: nat)
    requires p >= 1 && x % p == 0 && x < k * p
    ensures x + p <= k * p
  {
    var q := Quotient(x, p);
    if k <= q { Scale(k, q, p); }
    Scale(q + 1, k, p);
  }

  lemma BlockFits(c: Cidr)
    requires c.Valid()
    ensures c.net + Size(c) <= ADDRESSES
  {
    Pow2Values();
    Pow2Adds(c.prefix, 32 - c.prefix);
    MultipleFits(c.net, Pow2(c.prefix), Size(c));
  }

  // ---- overlap ----

  /** networksOverlap: two membership tests. */
  function Overlap(a: Cidr, b: Cidr): bool
    requires a.prefix <= 32 && b.prefix <= 32
  {
    Contains(a, b.net) || Contains(b, a.net)
  }

  ghost predicate Meet(a: Cidr, b: Cidr)
    requires a.prefix <= 32 && b.prefix <= 32
  {
    exists x: Ip :: In(a, x) && In(b, x)
  }

  /** A block of `p` that touches [i k p, (i + 1) k p) lies inside it. */
  lemma Inside(i: int, j: int, k: nat, p: nat, x: int)
    requires p >= 1 && i * k * p <= x < (i * k + k) * p && j * p <= x < j * p + p
    ensures i * k * p <= j * p < (i * k + k) * p
  {
    var lo, hi := i * k, i * k + k;
    if j < lo { Scale(j + 1, lo, p); }
    if hi <= j { Scale(hi, j, p); }
    Scale(lo, j, p);
    Scale(j + 1, hi, p);
  }

  lemma NestedNumbers(a: nat, b: nat, k: nat, p: nat, size: nat, x: nat)
    requires p >= 1 && size == k * p && size >= 1 && a % size == 0 && b % p == 0
    requires a <= x < a + size && b <= x < b + p
    ensures a <= b < a + size
  {
    var i := Quotient(a, size);
    var j := Quotient(b, p);
    Regroup(i, k, p);
    Inside(i, j, k, p, x);
  }

  lemma Regroup(i: int, k: int, p: int)
    ensures i * (k * p) == i * k * p && (i * k + k) * p == i * (k * p) + k * p
  {
  }

  /** The bigger block is a whole number of smaller ones. */
  lemma Nested(a: Cidr, b: Cidr, x: Ip)
    requires a.Valid() && b.Valid() && a.prefix <= b.prefix && In(a, x) && In(b, x)
    ensures In(a, b.net)
  {
    Pow2Adds(b.prefix - a.prefix, 32 - b.prefix);
    NestedNumbers(a.net, b.net, Pow2(b.prefix - a.prefix), Size(b), Size(a), x);
  }

  /** The two membership tests hold exactly when the address sets intersect. */
  lemma OverlapIsMeet(a: Cidr, b: Cidr)
    requires a.Valid() && b.Valid()
    ensures Overlap(a, b) <==> Meet(a, b)
  {
    ContainsIsIn(a, b.net);
    ContainsIsIn(b, a.net);
    assert In(a, a.net) && In(b, b.net);
    if x: Ip :| In(a, x) && In(b, x) {
      if a.prefix <= b.prefix {
        Nested(a, b, x);
      } else {
        Nested(b, a, x);
      }
    }
  }

  // ---- text ----

  function CidrText(c: Cidr): string { IpText(c.net) + "/" + Decimal(c.prefix) }

  /** net.ParseCIDR on IPv4: the address as written, and the masked block. */
  function ParseCidr(s: string): Option<(Ip, Cidr)> {
    var p := Split(s, '/');
    if |p| != 2 then None
    else
      match (ParseIp(p[0]), ParseUint(p[1], 33))
      case (Some(ip), Some(n)) => Some((ip, Masked(ip, n)))
      case _ => None
  }

  lemma IpTextChars(ip: Ip)
    ensures forall i :: 0 <= i < |IpText(ip)| ==> IsDigit(IpText(ip)[i]) || IpText(ip)[i] == '.'
    ensures IpText(ip) != "" && IsDigit(IpText(ip)[0]) && IsDigit(IpText(ip)[|IpText(ip)| - 1])
  {
    var o := Octets(ip);
    DecimalParses(o[0]); DecimalParses(o[1]); DecimalParses(o[2]); DecimalParses(o[3]);
    var t := OctetText(ip);
    assert Join(t[3..], '.') == t[3];
    assert t[2..][1..] == t[3..] && t[1..][1..] == t[2..];
    assert Join(t[2..], '.') == t[2] + ['.'] + t[3];
    assert Join(t[1..], '.') == t[1] + ['.'] + Join(t[2..], '.');
    assert Join(t, '.') == t[0] + ['.'] + Join(t[1..], '.');
  }

  lemma CidrTextRoundTrip(c: Cidr)
    requires c.Valid()
    ensures ParseCidr(CidrText(c)) == Some((c.net, c))
    ensures TrimSpace(CidrText(c)) == CidrText(c)
  {
    IpTextChars(c.net);
    DecimalParses(c.prefix);
    assert Lacks(IpText(c.net), '/') && Lacks(Decimal(c.prefix), '/');
    SplitAtSeparator(IpText(c.net), Decimal(c.prefix), '/');
    SplitPlain(Decimal(c.prefix), '/');
    IpTextRoundTrip(c.net);
    MaskedIsValid(c.net, c.prefix);
    TrimIdentity(CidrText(c));
  }

  lemma ParsedIsValid(s: string)
    ensures ParseCidr(s).Some? ==> ParseCidr(s).value.1.Valid()
  {
    if ParseCidr(s).Some? {
      var p := Split(s, '/');
      MaskedIsValid(ParseIp(p[0]).value, ParseUint(p[1], 33).value);
    }
  }

  /** The text of an address, a slash and the digits of a prefix. */
  predicate CidrAt(s: string, ip: Ip, digits: string) {
    s == IpText(ip) + "/" + digits && digits != "" && AllDigits(digits) && DigitsValue(digits) <= 32
  }

  lemma CidrParses(s: string, ip: Ip, digits: string)
    requires CidrAt(s, ip, digits)
    ensures ParseCidr(s) == Some((ip, Masked(ip, DigitsValue(digits))))
  {
    IpTextChars(ip);
    assert Lacks(IpText(ip), '/') && Lacks(digits, '/');
    SplitAtSeparator(IpText(ip), digits, '/');
    SplitPlain(digits, '/');
    IpTextRoundTrip(ip);
  }

  /** A text parses as a CIDR exactly if it is an address, a slash and the digits of a prefix of at
      most 32; the block is that of the prefix around the address. */
  lemma CidrParsesExactly(s: string, r: (Ip, Cidr))
    ensures ParseCidr(s) == Some(r) <==> exists digits :: CidrAt(s, r.0, digits) && r.1 == Masked(r.0, DigitsValue(digits))
  {
    if digits :| CidrAt(s, r.0, digits) && r.1 == Masked(r.0, DigitsValue(digits)) {
      CidrParses(s, r.0, digits);
    }
    if ParseCidr(s) == Some(r) {
      var p := Split(s, '/');
      JoinSplit(s, '/');
      IpParsesExactly(p[0], r.0);
      assert p[1..] == [p[1]];
      assert CidrAt(s, r.0, p[1]);
    }
  }
}
