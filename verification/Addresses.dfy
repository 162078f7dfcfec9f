/** IPv4 addresses as numbers and as dotted text (net.ParseIP and net.IP.String on IPv4). */
module Addresses {
  import opened Wrappers
  import opened Text

  const ADDRESSES := 0x1_0000_0000

  /** An IPv4 address, most significant byte first. */
  type Ip = n: nat | n < ADDRESSES

  function Octets(ip: Ip): (r: seq<nat>)
    ensures |r| == 4 && forall i :: 0 <= i < 4 ==> r[i] < 256
  {
    [ip / 0x100_0000, ip / 0x1_0000 % 256, ip / 0x100 % 256, ip % 256]
  }

  function FromOctets(a: nat, b: nat, c: nat, d: nat): Ip
    requires a < 256 && b < 256 && c < 256 && d < 256
  {
    ((a * 256 + b) * 256 + c) * 256 + d
  }

  lemma OctetsRoundTrip(ip: Ip)
    ensures var o := Octets(ip); FromOctets(o[0], o[1], o[2], o[3]) == ip
  {
    var q := ip / 0x100;
    assert ip == q * 0x100 + ip % 0x100;
    var r := q / 0x100;
    assert q == r * 0x100 + q % 0x100;
    assert ip / 0x1_0000 == r && r == r / 0x100 * 0x100 + r % 0x100;
    assert ip / 0x100_0000 == r / 0x100;
  }

  function OctetText(ip: Ip): (r: seq<string>)
    ensures |r| == 4
  {
    var o := Octets(ip);
    [Decimal(o[0]), Decimal(o[1]), Decimal(o[2]), Decimal(o[3])]
  }

  function IpText(ip: Ip): string { Join(OctetText(ip), '.') }

  /** One dotted field: one to three digits, no leading zero, at most 255. */
  predicate OctetOk(p: string) {
    1 <= |p| <= 3 && AllDigits(p) && DigitsValue(p) < 256 && (|p| > 1 ==> p[0] != '0')
  }

  function ParseIp(s: string): Option<Ip> {
    var p := Split(s, '.');
    if |p| == 4 && OctetOk(p[0]) && OctetOk(p[1]) && OctetOk(p[2]) && OctetOk(p[3])
    then Some(FromOctets(DigitsValue(p[0]), DigitsValue(p[1]), DigitsValue(p[2]), DigitsValue(p[3])))
    else None
  }

  lemma OctetDecimal(n: nat)
    requires n < 256
    ensures OctetOk(Decimal(n)) && DigitsValue(Decimal(n)) == n && Lacks(Decimal(n), '.')
  {
    DecimalParses(n);
    DecimalHead(n);
    DecimalLength(n);
  }

  /** Address text round trip. */
  lemma IpTextRoundTrip(ip: Ip)
    ensures ParseIp(IpText(ip)) == Some(ip)
  {
    var o := Octets(ip);
    OctetDecimal(o[0]); OctetDecimal(o[1]); OctetDecimal(o[2]); OctetDecimal(o[3]);
    SplitJoin(OctetText(ip), '.');
    OctetsRoundTrip(ip);
  }

  lemma TopOctets(q: nat, r: nat)
    requires r < 256
    ensures (q * 256 + r) / 256 == q && (q * 256 + r) % 256 == r
  {
  }

  lemma OctetsOf(a: nat, b: nat, c: nat, d: nat)
    requires a < 256 && b < 256 && c < 256 && d < 256
    ensures Octets(FromOctets(a, b, c, d)) == [a, b, c, d]
  {
    var ab := a * 256 + b;
    var abc := ab * 256 + c;
    TopOctets(abc, d);
    TopOctets(ab, c);
    TopOctets(a, b);
    var ip := abc * 256 + d;
    assert ip / 0x1_0000 == ip / 256 / 256 && ip / 0x100_0000 == ip / 256 / 256 / 256;
  }

  lemma OctetIsDecimal(p: string)
    requires OctetOk(p)
    ensures Decimal(DigitsValue(p)) == p
  {
    DigitsAreDecimal(p);
  }

  /** A text parses as an address exactly if it is that address printed. */
  lemma IpParsesExactly(s: string, ip: Ip)
    ensures ParseIp(s) == Some(ip) <==> s == IpText(ip)
  {
    IpTextRoundTrip(ip);
    var p := Split(s, '.');
    if ParseIp(s) == Some(ip) {
      JoinSplit(s, '.');
      OctetsOf(DigitsValue(p[0]), DigitsValue(p[1]), DigitsValue(p[2]), DigitsValue(p[3]));
      OctetIsDecimal(p[0]); OctetIsDecimal(p[1]); OctetIsDecimal(p[2]); OctetIsDecimal(p[3]);
      assert OctetText(ip) == p;
    }
  }
}
