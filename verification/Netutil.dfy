/** Host allocation (internal/netutil/ip.go): byte-array address arithmetic and the search for
    the next free host of a pool. */
module Netutil {
  import opened Bytes
  import opened Wrappers
  import opened Text
  import opened Addresses
  import opened Blocks

  function Value(b: seq<byte>): Ip
    requires |b| == 4
  {
    FromOctets(b[0], b[1], b[2], b[3])
  }

  function Next(ip: Ip): Ip { (ip + 1) % ADDRESSES }

  // ---- incIP ----

  lemma CarryValue(b: seq<byte>, i: int)
    requires |b| == 4 && -1 <= i < 4 && forall k :: i < k < 4 ==> b[k] == 255
    requires i >= 0 ==> b[i] < 255
    ensures i == -1 ==> Value(b) == ADDRESSES - 1
    ensures i == 3 ==> Value(b[3 := b[3] as int + 1]) == Value(b) + 1
    ensures i == 2 ==> Value([b[0], b[1], b[2] as int + 1, 0]) == Value(b) + 1
    ensures i == 1 ==> Value([b[0], b[1] as int + 1, 0, 0]) == Value(b) + 1
    ensures i == 0 ==> Value([b[0] as int + 1, 0, 0, 0]) == Value(b) + 1
  {
  }

  /** Adds one with carry, wrapping after 255.255.255.255. */
  method IncIP(ip: array<byte>)
    requires ip.Length == 4
    modifies ip
    ensures Value(ip[..]) == Next(old(Value(ip[..])))
  {
    ghost var b := ip[..];
    var i := 3;
    while i >= 0
      invariant -1 <= i <= 3
      invariant forall k :: i < k < 4 ==> b[k] == 255 && ip[k] == 0
      invariant forall k :: 0 <= k <= i ==> ip[k] == b[k]
    {
      ip[i] := (ip[i] as int + 1) % 256;
      if ip[i] != 0 { break; }
      i := i - 1;
    }
    CarryValue(b, i);
    assert i == 3 ==> ip[..] == b[3 := b[3] as int + 1];
    assert i == 2 ==> ip[..] == [b[0], b[1], b[2] as int + 1, 0];
    assert i == 1 ==> ip[..] == [b[0], b[1] as int + 1, 0, 0];
    assert i == 0 ==> ip[..] == [b[0] as int + 1, 0, 0, 0];
    assert i == -1 ==> ip[..] == [0, 0, 0, 0];
  }

  // ---- lastIPv4 ----

  /** Bitwise or of `n`-bit numbers. */
  function Or(x: nat, y: nat, n: nat): nat {
    if n == 0 then 0 else 2 * Or(x / 2, y / 2, n - 1) + (if x % 2 == 1 || y % 2 == 1 then 1 else 0)
  }

  lemma {:induction false} OrZero(x: nat, n: nat)
    requires x < Pow2(n)
    ensures Or(x, 0, n) == x
  {
    if n > 0 { OrZero(x / 2, n - 1); }
  }

  lemma HalfMultiple(x: nat, p: nat)
    requires p >= 1 && x % (2 * p) == 0
    ensures x % 2 == 0 && x / 2 % p == 0
  {
    var q := Quotient(x, 2 * p);
    assert x == 2 * (q * p);
    MultipleMod(q, p);
  }

  lemma OrStep(x: nat, p: nat, n: nat)
    requires n > 0 && p >= 1 && x % 2 == 0 && Or(x / 2, p - 1, n - 1) == x / 2 + p - 1
    ensures Or(x, 2 * p - 1, n) == x + 2 * p - 1
  {
    assert (2 * p - 1) / 2 == p - 1;
  }

  /** Setting the low k bits of a number that has them clear adds 2^k - 1. */
  lemma {:induction false} OrLowBits(x: nat, k: nat, n: nat)
    requires k <= n && x < Pow2(n) && x % Pow2(k) == 0
    ensures Or(x, Pow2(k) - 1, n) == x + Pow2(k) - 1
  {
    if k == 0 {
      OrZero(x, n);
    } else {
      var p := Pow2(k - 1);
      HalfMultiple(x, p);
      OrLowBits(x / 2, k - 1, n - 1);
      OrStep(x, p, n);
    }
  }

  /** Host bits that fall into byte `i` for a block with `h` host bits. */
  function HostBits(h: nat, i: nat): nat
    requires i < 4
  {
    var low := 8 * (3 - i);
    if h <= low then 0 else if h - low >= 8 then 8 else h - low
  }

  /** Byte `i` of the netmask of a prefix. */
  function MaskByte(prefix: nat, i: nat): byte
    requires prefix <= 32 && i < 4
  {
    HostBitsBound(32 - prefix, i);
    256 - Pow2(HostBits(32 - prefix, i))
  }

  lemma {:induction false} Pow2Grows(j: nat, k: nat)
    requires j <= k
    ensures Pow2(j) <= Pow2(k)
  {
    if j < k { Pow2Grows(j, k - 1); }
  }

  lemma HostBitsBound(h: nat, i: nat)
    requires i < 4
    ensures Pow2(HostBits(h, i)) <= 256
  {
    Pow2Values();
    Pow2Grows(HostBits(h, i), 8);
  }

  lemma DivBy(x: nat, q: nat, p: nat)
    requires p >= 1 && x == q * p
    ensures x / p == q && x % p == 0
  {
    DivModUnique(x, q, 0, p);
  }

  /** A multiple of p stays one modulo a multiple of p. */
  lemma ModOfMod(x: nat, m: nat, p: nat)
    requires p >= 1 && m >= 1 && x % p == 0
    ensures m * p >= 1 && x % (m * p) % p == 0
  {
    Scale(1, m, p);
    var size := m * p;
    var d := Quotient(x, size);
    var q := Quotient(x, p);
    var r := x % size;
    assert r == (q - d * m) * p by { assert d * (m * p) == (d * m) * p; assert (q - d * m) * p == q * p - (d * m) * p; }
    if q - d * m < 0 { Scale(q - d * m, -1, p); }
    MultipleMod(q - d * m, p);
  }

  lemma Reassociate(x: int, y: int, z: int)
    ensures x * (y * z) == x * y * z
  {
  }

  /** Dividing by a power of two keeps divisibility by what is left of a higher one. */
  lemma ShiftKeepsMultiple(x: nat, h: nat, low: nat)
    requires low <= h && x % Pow2(h) == 0
    ensures x / Pow2(low) % Pow2(h - low) == 0
  {
    var q := Quotient(x, Pow2(h));
    Pow2Adds(h - low, low);
    Reassociate(q, Pow2(h - low), Pow2(low));
    DivBy(x, q * Pow2(h - low), Pow2(low));
    MultipleMod(q, Pow2(h - low));
  }

  lemma LowerMultiple(x: nat, j: nat, k: nat)
    requires k <= j && x % Pow2(j) == 0
    ensures x % Pow2(k) == 0
  {
    var q := Quotient(x, Pow2(j));
    Pow2Adds(j - k, k);
    Reassociate(q, Pow2(j - k), Pow2(k));
    MultipleMod(q * Pow2(j - k), Pow2(k));
  }

  lemma ModByte(x: nat, m: nat, p: nat)
    requires p >= 1 && m >= 1 && m * p == 256 && x % p == 0
    ensures x % 256 % p == 0
  {
    ModOfMod(x, m, p);
  }

  lemma LowBitsOfByte(x: nat, j: nat, k: nat)
    requires k <= j && k <= 8 && x % Pow2(j) == 0
    ensures x % 256 % Pow2(k) == 0
  {
    LowerMultiple(x, j, k);
    ByteIsPower(k);
    ModByte(x, Pow2(8 - k), Pow2(k));
  }

  lemma ByteIsPower(k: nat)
    requires k <= 8
    ensures Pow2(8 - k) * Pow2(k) == 256
  {
    Pow2Values();
    Pow2Adds(8 - k, k);
  }

  lemma ByteOfMultiple(x: nat, h: nat, low: nat, k: nat)
    requires low + k <= h && k <= 8 && x % Pow2(h) == 0
    ensures x / Pow2(low) % 256 % Pow2(k) == 0
  {
    ShiftKeepsMultiple(x, h, low);
    LowBitsOfByte(x / Pow2(low), h - low, k);
  }

  lemma OctetIs(net: Ip, i: nat)
    requires i < 4
    ensures Octets(net)[i] == net / Pow2(8 * (3 - i)) % 256
  {
    Pow2Values();
    assert Pow2(0) == 1;
  }

  /** The host bits of a masked address are clear in every byte. */
  lemma ByteHostBits(c: Cidr, i: nat)
    requires c.Valid() && i < 4
    ensures Octets(c.net)[i] % Pow2(HostBits(32 - c.prefix, i)) == 0
  {
    var h, k: nat := 32 - c.prefix, HostBits(32 - c.prefix, i);
    if k > 0 {
      OctetIs(c.net, i);
      ByteOfMultiple(c.net, h, 8 * (3 - i), k);
    } else {
      assert Pow2(k) == 1;
    }
  }

  /** Setting the bits a byte of the netmask leaves open. */
  lemma OrMask(x: nat, k: nat, mask: nat)
    requires x < 256 && k <= 8 && x % Pow2(k) == 0 && mask == 256 - Pow2(k)
    ensures Or(x, 255 - mask, 8) == x + Pow2(k) - 1 < 256
  {
    assert Pow2(8) == 256;
    OrLowBits(x, k, 8);
    OrInByte(x, k);
  }

  function Filled(c: Cidr, i: nat): nat
    requires c.Valid() && i < 4
  {
    Octets(c.net)[i] + Pow2(HostBits(32 - c.prefix, i)) - 1
  }

  lemma HostBitsClear(c: Cidr, i: nat, x: nat, k: nat)
    requires c.Valid() && i < 4 && x == Octets(c.net)[i] && k == HostBits(32 - c.prefix, i)
    ensures x < 256 && k <= 8 && x % Pow2(k) == 0 && MaskByte(c.prefix, i) == 256 - Pow2(k)
    ensures Filled(c, i) == x + Pow2(k) - 1
  {
    ByteHostBits(c, i);
  }

  /** One turn of the loop in lastIPv4, on byte `x`. */
  lemma FillByte(c: Cidr, i: nat, x: nat, mask: nat)
    requires c.Valid() && i < 4 && x == Octets(c.net)[i] && mask == MaskByte(c.prefix, i)
    ensures Or(x, 255 - mask, 8) == Filled(c, i) < 256
  {
    var k: nat := HostBits(32 - c.prefix, i);
    HostBitsClear(c, i, x, k);
    OrMask(x, k, mask);
  }

  lemma FilledHostBits(h: nat)
    requires h <= 32
    ensures (((Pow2(HostBits(h, 0)) - 1) * 256 + (Pow2(HostBits(h, 1)) - 1)) * 256 + (Pow2(HostBits(h, 2)) - 1)) * 256
      + (Pow2(HostBits(h, 3)) - 1) == Pow2(h) - 1
  {
    Pow2Values();
    assert Pow2(0) == 1;
    if h < 8 {
      assert HostBits(h, 2) == 0 && HostBits(h, 1) == 0 && HostBits(h, 0) == 0;
    } else if h < 16 {
      assert HostBits(h, 3) == 8 && HostBits(h, 1) == 0 && HostBits(h, 0) == 0;
      Pow2Adds(h - 8, 8);
    } else if h < 24 {
      assert HostBits(h, 3) == 8 && HostBits(h, 2) == 8 && HostBits(h, 0) == 0;
      Pow2Adds(h - 16, 16);
    } else {
      assert HostBits(h, 3) == 8 && HostBits(h, 2) == 8 && HostBits(h, 1) == 8;
      Pow2Adds(h - 24, 24);
    }
  }

  lemma FilledValue(c: Cidr)
    requires c.Valid() && forall i: nat :: i < 4 ==> Filled(c, i) < 256
    ensures FromOctets(Filled(c, 0), Filled(c, 1), Filled(c, 2), Filled(c, 3)) == c.net + Size(c) - 1
  {
    FilledHostBits(32 - c.prefix);
    OctetsRoundTrip(c.net);
  }

  method ToBytes(net: Ip) returns (ip: array<byte>)
    ensures fresh(ip) && ip.Length == 4 && ip[..] == Octets(net) && Value(ip[..]) == net
  {
    var o := Octets(net);
    ip := new byte[4](i requires 0 <= i < 4 => o[i]);
    OctetsRoundTrip(net);
  }

  /** The body of the loop in lastIPv4. */
  method FillHostBits(c: Cidr, ip: array<byte>, i: nat)
    requires c.Valid() && ip.Length == 4 && i < 4 && ip[i] == Octets(c.net)[i]
    modifies ip
    ensures Filled(c, i) < 256 && ip[..] == old(ip[..])[i := Filled(c, i)]
  {
    FillByte(c, i, ip[i], MaskByte(c.prefix, i));
    ip[i] := Or(ip[i], 255 - MaskByte(c.prefix, i), 8);
  }

  /** The last address of a block. */
  method LastIPv4(c: Cidr) returns (ip: array<byte>)
    requires c.Valid()
    ensures fresh(ip) && ip.Length == 4 && Value(ip[..]) == c.net + Size(c) - 1
  {
    ip := ToBytes(c.net);
    ghost var o := ip[..];
    for i := 0 to 4
      invariant forall k: nat :: k < i ==> Filled(c, k) < 256 && ip[k] == Filled(c, k)
      invariant forall k: nat :: i <= k < 4 ==> ip[k] == o[k]
    {
      FillHostBits(c, ip, i);
    }
    FilledValue(c);
  }

  lemma OrInByte(x: nat, k: nat)
    requires x < 256 && k <= 8 && x % Pow2(k) == 0
    ensures x + Pow2(k) - 1 < 256
  {
    Pow2Values();
    Pow2Adds(8 - k, k);
    MultipleFits(x, Pow2(8 - k), Pow2(k));
  }

  // ---- AllocateNextHost ----

  /** NormalizeHostIP: a bare address, or the address part of a host CIDR. */
  function HostIp(s: string): Option<Ip> {
    var t := TrimSpace(s);
    if '/' in t then (match ParseCidr(t) case Some(r) => Some(r.0) case None => None) else ParseIp(t)
  }

  function UsedSet(used: seq<string>): set<Ip> {
    if used == [] then {}
    else
      UsedSet(used[..|used| - 1]) + match HostIp(used[|used| - 1]) case Some(h) => {h} case None => {}
  }

  /** The first address from `from` on, cyclically, that is not taken; none at `stop`. */
  function FirstFree(taken: set<Ip>, from: Ip, stop: Ip): Option<Ip>
    decreases (stop - from) % ADDRESSES
  {
    if from == stop then None
    else if from !in taken then Some(from)
    else FirstFree(taken, Next(from), stop)
  }

  function Broadcast(c: Cidr): Ip
    requires c.Valid()
  {
    BlockFits(c);
    c.net + Size(c) - 1
  }

  function NextHost(c: Cidr, used: set<Ip>): Option<Ip>
    requires c.Valid()
  {
    FirstFree(used + {c.net, Next(c.net), Broadcast(c)}, Next(Next(c.net)), Broadcast(c))
  }

  datatype AllocError = InvalidNetwork | NoFreeHost

  function AllocatedText(serverNetwork: string, used: seq<string>): Result<string, AllocError> {
    ParsedIsValid(TrimSpace(serverNetwork));
    match ParseCidr(TrimSpace(serverNetwork))
    case None => Err(InvalidNetwork)
    case Some(n) =>
      match NextHost(n.1, UsedSet(used))
      case Some(h) => Ok(IpText(h))
      case None => Err(NoFreeHost)
  }

  method AllocateNextHost(serverNetwork: string, used: seq<string>) returns (r: Result<string, AllocError>)
    ensures r == AllocatedText(serverNetwork, used)
    ensures Allocates(serverNetwork, used, r)
  {
    AllocatesLeast(serverNetwork, used);
    var n := ParseCidr(TrimSpace(serverNetwork));
    if n.None? { return Err(InvalidNetwork); }
    ParsedIsValid(TrimSpace(serverNetwork));
    var h := SearchPool(n.value.1, used);
    match h
    case Some(v) => return Ok(IpText(v));
    case None => return Err(NoFreeHost);
  }

  /** The same for a parsed network. */
  method SearchPool(c: Cidr, used: seq<string>) returns (r: Option<Ip>)
    requires c.Valid()
    ensures r == NextHost(c, UsedSet(used))
  {
    var usedSet := CollectUsed(used);
    var taken, ip, bcast := Reserve(c, usedSet);
    NextHostIs(c, usedSet, taken, Value(ip[..]), Value(bcast[..]));
    r := Search(taken, ip, bcast);
  }

  lemma NextHostIs(c: Cidr, used: set<Ip>, taken: set<Ip>, from: Ip, stop: Ip)
    requires c.Valid() && stop == Broadcast(c) && from == Next(Next(c.net)) && taken == used + {c.net, Next(c.net), stop}
    ensures NextHost(c, used) == FirstFree(taken, from, stop)
  {
  }

  /** Network, gateway and broadcast address count as used; the search begins after the gateway. */
  method Reserve(c: Cidr, usedSet: set<Ip>) returns (taken: set<Ip>, ip: array<byte>, bcast: array<byte>)
    requires c.Valid()
    ensures fresh(ip) && fresh(bcast) && ip != bcast && ip.Length == 4 && bcast.Length == 4
    ensures Value(bcast[..]) == Broadcast(c) && Value(ip[..]) == Next(Next(c.net))
    ensures taken == usedSet + {c.net, Next(c.net), Broadcast(c)}
  {
    bcast := LastIPv4(c);
    ip := ToBytes(c.net);
    taken := usedSet + {c.net, Value(bcast[..])};
    IncIP(ip);
    taken := taken + {Value(ip[..])};
    IncIP(ip);
  }

  /** The loop over the used addresses; unparsable ones are skipped. */
  method CollectUsed(used: seq<string>) returns (usedSet: set<Ip>)
    ensures usedSet == UsedSet(used)
  {
    usedSet := {};
    for i := 0 to |used|
      invariant usedSet == UsedSet(used[..i])
    {
      assert used[..i + 1][..i] == used[..i];
      var h := HostIp(used[i]);
      if h.Some? { usedSet := usedSet + {h.value}; }
    }
    assert used[..|used|] == used;
  }

  /** The search loop of AllocateNextHost. */
  method Search(usedSet: set<Ip>, ip: array<byte>, bcast: array<byte>) returns (r: Option<Ip>)
    requires ip.Length == 4 && bcast.Length == 4 && ip != bcast
    modifies ip
    ensures r == FirstFree(usedSet, old(Value(ip[..])), old(Value(bcast[..])))
  {
    ghost var from, stop := Value(ip[..]), Value(bcast[..]);
    while ip[..] != bcast[..]
      invariant Value(bcast[..]) == stop
      invariant FirstFree(usedSet, Value(ip[..]), stop) == FirstFree(usedSet, from, stop)
      decreases (stop - Value(ip[..])) % ADDRESSES
    {
      SameValue(ip[..], bcast[..]);
      ghost var here := Value(ip[..]);
      if Value(ip[..]) !in usedSet { return Some(Value(ip[..])); }
      IncIP(ip);
      DistanceFalls(here, stop);
    }
    return None;
  }

  lemma LastDigit(x: int, c: byte, y: int, d: byte)
    requires x * 256 + c == y * 256 + d
    ensures x == y && c == d
  {
  }

  lemma DistanceFalls(from: Ip, stop: Ip)
    requires from != stop
    ensures (stop - Next(from)) % ADDRESSES < (stop - from) % ADDRESSES
  {
  }

  lemma SameValue(a: seq<byte>, b: seq<byte>)
    requires |a| == 4 && |b| == 4
    ensures Value(a) == Value(b) <==> a == b
  {
    if Value(a) == Value(b) {
      LastDigit((a[0] as int * 256 + a[1]) * 256 + a[2], a[3], (b[0] as int * 256 + b[1]) * 256 + b[2], b[3]);
      LastDigit(a[0] as int * 256 + a[1], a[2], b[0] as int * 256 + b[1], b[2]);
      LastDigit(a[0], a[1], b[0], b[1]);
    }
  }

  // ---- what the allocator promises ----

  /** Without wrap-around the search finds the least free address below `stop`. */
  lemma {:induction false} FirstFreeIsLeast(taken: set<Ip>, from: Ip, stop: Ip)
    requires from <= stop
    ensures match FirstFree(taken, from, stop)
            case Some(h) => from <= h < stop && h !in taken && forall x: Ip :: from <= x < h ==> x in taken
            case None => forall x: Ip :: from <= x < stop ==> x in taken
    decreases stop - from
  {
    if from != stop && from in taken {
      FirstFreeIsLeast(taken, from + 1, stop);
    }
  }

  /** On a pool of at most 30 bits the host is the least unused one from network + 2 up to
      broadcast - 1, and there is none exactly when all of these are used. */
  lemma NextHostIsLeast(c: Cidr, used: set<Ip>)
    requires c.Valid() && c.prefix <= 30
    ensures match NextHost(c, used)
            case Some(h) => c.net + 2 <= h < Broadcast(c) && h !in used
                && forall x: Ip :: c.net + 2 <= x < h ==> x in used
            case None => forall x: Ip :: c.net + 2 <= x < Broadcast(c) ==> x in used
  {
    SmallPool(c);
    BlockFits(c);
    LeastInRange(used, c.net, Broadcast(c));
  }

  lemma NextIsSum(ip: Ip)
    requires ip + 1 < ADDRESSES
    ensures Next(ip) == ip + 1
  {
  }

  lemma LeastInRange(used: set<Ip>, net: Ip, last: Ip)
    requires net + 3 <= last
    ensures match FirstFree(used + {net, Next(net), last}, Next(Next(net)), last)
            case Some(h) => net + 2 <= h < last && h !in used && forall x: Ip :: net + 2 <= x < h ==> x in used
            case None => forall x: Ip :: net + 2 <= x < last ==> x in used
  {
    var taken := used + {net, Next(net), last};
    NextIsSum(net);
    NextIsSum(net + 1);
    FirstFreeIsLeast(taken, net + 2, last);
    assert forall x: Ip :: net + 2 <= x < last && x in taken ==> x in used;
  }

  lemma SmallPool(c: Cidr)
    requires c.Valid()
    ensures c.prefix <= 30 <==> Size(c) >= 4
    ensures c.prefix == 31 ==> Size(c) == 2
    ensures c.prefix == 32 ==> Size(c) == 1
  {
    assert Pow2(0) == 1 && Pow2(1) == 2 && Pow2(2) == 4;
    if c.prefix <= 30 { Pow2Grows(2, 32 - c.prefix); }
  }

  lemma {:induction false} FirstFreeIsFree(taken: set<Ip>, from: Ip, stop: Ip)
    ensures FirstFree(taken, from, stop).Some? ==> FirstFree(taken, from, stop).value !in taken
    decreases (stop - from) % ADDRESSES
  {
    if from != stop && from in taken {
      FirstFreeIsFree(taken, Next(from), stop);
    }
  }

  /** The allocator does not check the pool size: the host it returns lies in the pool exactly
      when the prefix is at most 30. */
  lemma AllocatedHostInPool(c: Cidr, used: set<Ip>)
    requires c.Valid() && NextHost(c, used).Some?
    ensures In(c, NextHost(c, used).value) <==> c.prefix <= 30
  {
    BlockFits(c);
    SmallPool(c);
    if c.prefix <= 30 {
      NextHostIsLeast(c, used);
    } else {
      FirstFreeIsFree(used + {c.net, Next(c.net), Broadcast(c)}, Next(Next(c.net)), Broadcast(c));
    }
  }

  // ---- over texts ----

  /** A used text names an address: the address itself, or a CIDR written with it, in white space. */
  ghost predicate Names(u: string, x: Ip) {
    TrimSpace(u) == IpText(x) || exists digits :: CidrAt(TrimSpace(u), x, digits)
  }

  ghost predicate Named(used: seq<string>, x: Ip) { exists i :: 0 <= i < |used| && Names(used[i], x) }

  lemma CidrHasSlash(t: string, x: Ip)
    ensures (exists digits :: CidrAt(t, x, digits)) ==> '/' in t
  {
    forall digits | CidrAt(t, x, digits) ensures '/' in t { assert t[|IpText(x)|] == '/'; }
  }

  lemma HostIpNames(u: string, x: Ip)
    ensures HostIp(u) == Some(x) <==> Names(u, x)
  {
    var t := TrimSpace(u);
    IpTextChars(x);
    IpParsesExactly(t, x);
    CidrHasSlash(t, x);
    if '/' in t {
      if ParseCidr(t).Some? { CidrParsesExactly(t, ParseCidr(t).value); }
      forall digits | CidrAt(t, x, digits) ensures HostIp(u) == Some(x) { CidrParses(t, x, digits); }
    }
  }

  lemma NamedSnoc(used: seq<string>, u: string, all: seq<string>, x: Ip)
    requires all == used + [u]
    ensures Named(all, x) <==> Named(used, x) || Names(u, x)
  {
    if Named(used, x) {
      var i :| 0 <= i < |used| && Names(used[i], x);
      assert all[i] == used[i];
    }
    if Names(u, x) { assert all[|used|] == u; }
  }

  lemma {:induction false} UsedSetIs(used: seq<string>, x: Ip)
    ensures x in UsedSet(used) <==> Named(used, x)
  {
    if used != [] {
      var n := |used| - 1;
      UsedSetIs(used[..n], x);
      HostIpNames(used[n], x);
      NamedSnoc(used[..n], used[n], used, x);
    }
  }

  /** The pool around an address, with its network address and its number of addresses. */
  predicate Around(a: Ip, digits: string, net: Ip, size: nat)
    requires AllDigits(digits) && DigitsValue(digits) <= 32
  {
    size == Pow2(32 - DigitsValue(digits)) && net == a - a % size
  }

  /** The network text is a CIDR of this pool. */
  ghost predicate PoolAt(serverNetwork: string, net: Ip, size: nat) {
    exists a: Ip, digits :: CidrAt(TrimSpace(serverNetwork), a, digits) && Around(a, digits, net, size)
  }

  /** The least host after the gateway and before the broadcast address that no used text names. */
  ghost predicate LeastUnnamed(net: Ip, size: nat, used: seq<string>, h: Ip) {
    net + 2 <= h < net + size - 1 && !Named(used, h) && forall x: Ip :: net + 2 <= x < h ==> Named(used, x)
  }

  /** The result for a pool of at least four addresses: that host printed, or an error if each is
      named. */
  ghost predicate LeastHost(net: Ip, size: nat, used: seq<string>, r: Result<string, AllocError>) {
    match r
    case Ok(t) => (exists h: Ip :: t == IpText(h) && LeastUnnamed(net, size, used, h))
    case Err(NoFreeHost) => (forall x: Ip :: net + 2 <= x < net + size - 1 ==> Named(used, x))
    case Err(InvalidNetwork) => false
  }

  /** What an allocation returns, in terms of the texts passed in. */
  ghost predicate Allocates(serverNetwork: string, used: seq<string>, r: Result<string, AllocError>) {
    && (r == Err(InvalidNetwork) <==> forall net: Ip, size: nat :: !PoolAt(serverNetwork, net, size))
    && forall net: Ip, size: nat :: PoolAt(serverNetwork, net, size) && size >= 4 ==> LeastHost(net, size, used, r)
  }

  lemma AroundIs(a: Ip, digits: string, net: Ip, size: nat)
    requires AllDigits(digits) && DigitsValue(digits) <= 32
    ensures Around(a, digits, net, size) <==> net == Masked(a, DigitsValue(digits)).net && size == Size(Masked(a, DigitsValue(digits)))
  {
  }

  /** The block of a parsed network text. */
  ghost predicate BlockIs(n: Option<(Ip, Cidr)>, net: Ip, size: nat) {
    n.Some? && n.value.1.prefix <= 32 && net == n.value.1.net && size == Size(n.value.1)
  }

  lemma PoolIs(serverNetwork: string, net: Ip, size: nat)
    ensures PoolAt(serverNetwork, net, size) <==> BlockIs(ParseCidr(TrimSpace(serverNetwork)), net, size)
  {
    var t := TrimSpace(serverNetwork);
    if a: Ip, digits :| CidrAt(t, a, digits) && Around(a, digits, net, size) {
      CidrParses(t, a, digits);
      AroundIs(a, digits, net, size);
    }
    if ParseCidr(t).Some? {
      var r := ParseCidr(t).value;
      CidrParsesExactly(t, r);
      var digits :| CidrAt(t, r.0, digits) && r.1 == Masked(r.0, DigitsValue(digits));
      AroundIs(r.0, digits, net, size);
    }
  }

  lemma LeastOfPool(c: Cidr, used: seq<string>)
    requires c.Valid() && Size(c) >= 4
    ensures LeastHost(c.net, Size(c), used, match NextHost(c, UsedSet(used)) case Some(h) => Ok(IpText(h)) case None => Err(NoFreeHost))
  {
    SmallPool(c);
    NextHostIsLeast(c, UsedSet(used));
    forall x: Ip ensures x in UsedSet(used) <==> Named(used, x) { UsedSetIs(used, x); }
  }

  /** An allocation fails for a text that is no CIDR, and else returns the least host that no used
      text names, over all texts. */
  lemma AllocatesLeast(serverNetwork: string, used: seq<string>)
    ensures Allocates(serverNetwork, used, AllocatedText(serverNetwork, used))
  {
    var n := ParseCidr(TrimSpace(serverNetwork));
    forall net: Ip, size: nat ensures PoolAt(serverNetwork, net, size) <==> BlockIs(n, net, size) { PoolIs(serverNetwork, net, size); }
    if n.Some? {
      ParsedIsValid(TrimSpace(serverNetwork));
      assert PoolAt(serverNetwork, n.value.1.net, Size(n.value.1));
      if Size(n.value.1) >= 4 { LeastOfPool(n.value.1, used); }
    }
  }

  /** The hosts handed out by `n` allocations, each added to the used ones. */
  function Allocations(c: Cidr, n: nat): seq<Option<Ip>>
    requires c.Valid()
  {
    if n == 0 then [] else Allocations(c, n - 1) + [NextHost(c, Handed(Allocations(c, n - 1)))]
  }

  function Handed(hosts: seq<Option<Ip>>): set<Ip> { set h | h in hosts && h.Some? :: h.value }

  /** From an empty pool, allocation i gives network + 2 + i while that is below the broadcast
      address: exactly 2^(32-p) - 3 succeed, all distinct, and every later one fails. */
  lemma {:induction false} PoolExhaustion(c: Cidr, n: nat)
    requires c.Valid() && c.prefix <= 30
    ensures |Allocations(c, n)| == n
    ensures forall i :: 0 <= i < n ==>
      Allocations(c, n)[i] == if i < Size(c) - 3 then Some(c.net + 2 + i) else None
  {
    if n > 0 {
      PoolExhaustion(c, n - 1);
      SmallPool(c);
      BlockFits(c);
      var prev := Allocations(c, n - 1);
      var used := Handed(prev);
      NextHostIsLeast(c, used);
      forall x: Ip ensures x in used <==> c.net + 2 <= x < c.net + 2 + (n - 1) && x < Broadcast(c) {
        if c.net + 2 <= x < c.net + 2 + (n - 1) && x < Broadcast(c) { assert prev[x - c.net - 2] == Some(x); }
        if x in used { var h :| h in prev && h.Some? && h.value == x; var i :| 0 <= i < n - 1 && prev[i] == h; }
      }
      assert n - 1 < Size(c) - 3 ==> (c.net + 2 + (n - 1)) as Ip !in used;
    }
  }

  /** The results of `n` allocations in a row, each returned text added to the used ones. */
  function AllocationRun(alloc: seq<string> -> Result<string, AllocError>, n: nat): seq<Result<string, AllocError>> {
    if n == 0 then [] else AllocationRun(alloc, n - 1) + [alloc(Returned(AllocationRun(alloc, n - 1)))]
  }

  /** Allocations in one network. */
  function AllocatedIn(serverNetwork: string): seq<string> -> Result<string, AllocError> { used => AllocatedText(serverNetwork, used) }

  function Returned(results: seq<Result<string, AllocError>>): seq<string> {
    if results == [] then []
    else Returned(results[..|results| - 1]) + if results[|results| - 1].Ok? then [results[|results| - 1].value] else []
  }

  /** The result is this host printed, or the error of a full pool. */
  predicate Returns(r: Result<string, AllocError>, h: Option<Ip>) {
    r == match h case Some(x) => Ok(IpText(x)) case None => Err(NoFreeHost)
  }

  ghost predicate AllReturn(results: seq<Result<string, AllocError>>, hosts: seq<Option<Ip>>) {
    |results| == |hosts| && forall i :: 0 <= i < |hosts| ==> Returns(results[i], hosts[i])
  }

  lemma {:induction false} ReturnedAre(results: seq<Result<string, AllocError>>, hosts: seq<Option<Ip>>, x: Ip)
    requires AllReturn(results, hosts)
    ensures Named(Returned(results), x) <==> Some(x) in hosts
  {
    if hosts != [] {
      var n := |hosts| - 1;
      ReturnedAre(results[..n], hosts[..n], x);
      LastReturned(results[..n], results[n], hosts[n], x);
      assert results == results[..n] + [results[n]] && hosts == hosts[..n] + [hosts[n]];
    }
  }

  lemma LastReturned(init: seq<Result<string, AllocError>>, last: Result<string, AllocError>, h: Option<Ip>, x: Ip)
    requires Returns(last, h)
    ensures Named(Returned(init + [last]), x) <==> Named(Returned(init), x) || h == Some(x)
  {
    assert (init + [last])[..|init|] == init;
    match h {
      case Some(y) =>
        NamedSnoc(Returned(init), IpText(y), Returned(init + [last]), x);
        OneNamed(y, x);
      case None => assert Returned(init + [last]) == Returned(init);
    }
  }

  lemma OneNamed(h: Ip, x: Ip)
    ensures Names(IpText(h), x) <==> h == x
  {
    IpTextChars(h);
    TrimIdentity(IpText(h));
    IpParsesExactly(IpText(h), x);
    IpTextRoundTrip(h);
    assert '/' !in IpText(h);
    HostIpNames(IpText(h), x);
  }

  /** The host that allocation `i` from an empty pool returns. */
  function Given(net: Ip, size: nat, i: nat): Option<Ip>
    requires net + size <= ADDRESSES
  {
    if i + 3 < size then Some(net + 2 + i) else None
  }

  function AllGiven(net: Ip, size: nat, n: nat): (hosts: seq<Option<Ip>>)
    requires net + size <= ADDRESSES
    ensures |hosts| == n && forall i: nat :: i < n ==> hosts[i] == Given(net, size, i)
  {
    seq(n, i requires 0 <= i < n => Given(net, size, i))
  }

  /** What one more allocation keeps holds of every run. */
  ghost predicate Kept(alloc: seq<string> -> Result<string, AllocError>, good: seq<Result<string, AllocError>> -> bool) {
    good([]) && forall prev {:trigger Returned(prev)} :: good(prev) ==> good(prev + [alloc(Returned(prev))])
  }

  lemma {:induction false} RunKeeps(alloc: seq<string> -> Result<string, AllocError>, good: seq<Result<string, AllocError>> -> bool, n: nat)
    requires Kept(alloc, good)
    ensures good(AllocationRun(alloc, n)) && |AllocationRun(alloc, n)| == n
  {
    if n > 0 { RunKeeps(alloc, good, n - 1); }
  }

  lemma RunGrows(net: Ip, size: nat, prev: seq<Result<string, AllocError>>, r: Result<string, AllocError>, run: seq<Result<string, AllocError>>)
    requires net + size <= ADDRESSES && AllReturn(prev, AllGiven(net, size, |prev|)) && Returns(r, Given(net, size, |prev|))
    requires run == prev + [r]
    ensures AllReturn(run, AllGiven(net, size, |run|))
  {
    forall i | 0 <= i < |run| ensures Returns(run[i], AllGiven(net, size, |run|)[i]) {
      if i < |prev| { assert Returns(prev[i], AllGiven(net, size, |prev|)[i]); }
    }
  }

  /** Over texts: for a pool of at least four addresses, allocations that add each returned text to
      the used ones return the hosts from network + 2 on in order, all size - 3 of them, and then
      fail. */
  lemma RunExhausts(serverNetwork: string, net: Ip, size: nat, n: nat)
    requires PoolAt(serverNetwork, net, size) && size >= 4
    ensures net + size <= ADDRESSES && |AllocationRun(AllocatedIn(serverNetwork), n)| == n
    ensures forall i: nat :: i < n ==>
      Returns(AllocationRun(AllocatedIn(serverNetwork), n)[i], if i < size - 3 then Some(net + 2 + i) else None)
  {
    PoolFits(serverNetwork, net, size);
    var alloc, good := AllocatedIn(serverNetwork), (run: seq<Result<string, AllocError>>) => AllReturn(run, AllGiven(net, size, |run|));
    forall prev | good(prev) ensures good(prev + [alloc(Returned(prev))]) {
      NextInRun(serverNetwork, net, size, prev);
      RunGrows(net, size, prev, alloc(Returned(prev)), prev + [alloc(Returned(prev))]);
    }
    RunKeeps(alloc, good, n);
    forall i: nat | i < n ensures AllGiven(net, size, n)[i] == if i < size - 3 then Some(net + 2 + i) else None {}
  }

  lemma PoolFits(serverNetwork: string, net: Ip, size: nat)
    requires PoolAt(serverNetwork, net, size)
    ensures net + size <= ADDRESSES
  {
    PoolIs(serverNetwork, net, size);
    ParsedIsValid(TrimSpace(serverNetwork));
    BlockFits(ParseCidr(TrimSpace(serverNetwork)).value.1);
  }

  lemma LeastInPool(serverNetwork: string, net: Ip, size: nat, used: seq<string>)
    requires PoolAt(serverNetwork, net, size) && size >= 4
    ensures LeastHost(net, size, used, AllocatedText(serverNetwork, used))
  {
    AllocatesLeast(serverNetwork, used);
  }

  /** The hosts given out so far are those named. */
  ghost predicate NamedBelow(net: Ip, size: nat, k: nat, used: seq<string>) {
    forall x: Ip :: Named(used, x) <==> net + 2 <= x < net + 2 + k && x < net + size - 1
  }

  lemma GivenOut(net: Ip, size: nat, k: nat, x: Ip)
    requires size >= 4 && net + size <= ADDRESSES
    ensures Some(x) in AllGiven(net, size, k) <==> net + 2 <= x < net + 2 + k && x < net + size - 1
  {
    if net + 2 <= x < net + 2 + k && x < net + size - 1 { assert AllGiven(net, size, k)[x - net - 2] == Some(x); }
  }

  lemma ReturnedBelow(net: Ip, size: nat, prev: seq<Result<string, AllocError>>)
    requires size >= 4 && net + size <= ADDRESSES && AllReturn(prev, AllGiven(net, size, |prev|))
    ensures NamedBelow(net, size, |prev|, Returned(prev))
  {
    forall x: Ip ensures Named(Returned(prev), x) <==> net + 2 <= x < net + 2 + |prev| && x < net + size - 1 {
      ReturnedAre(prev, AllGiven(net, size, |prev|), x);
      GivenOut(net, size, |prev|, x);
    }
  }

  lemma NextInRun(serverNetwork: string, net: Ip, size: nat, prev: seq<Result<string, AllocError>>)
    requires PoolAt(serverNetwork, net, size) && size >= 4 && net + size <= ADDRESSES && AllReturn(prev, AllGiven(net, size, |prev|))
    ensures Returns(AllocatedText(serverNetwork, Returned(prev)), Given(net, size, |prev|))
  {
    LeastInPool(serverNetwork, net, size, Returned(prev));
    var h := HostOf(net, size, Returned(prev), AllocatedText(serverNetwork, Returned(prev)));
    ReturnedBelow(net, size, prev);
    NextGiven(net, size, Returned(prev), |prev|, h);
  }

  lemma HostOf(net: Ip, size: nat, used: seq<string>, r: Result<string, AllocError>) returns (h: Option<Ip>)
    requires LeastHost(net, size, used, r)
    ensures Returns(r, h) && LeastOrNone(net, size, used, h)
  {
    h := None;
    if r.Ok? {
      var x: Ip :| r.value == IpText(x) && LeastUnnamed(net, size, used, x);
      h := Some(x);
    }
  }

  ghost predicate LeastOrNone(net: Ip, size: nat, used: seq<string>, h: Option<Ip>) {
    match h
    case Some(x) => LeastUnnamed(net, size, used, x)
    case None => (forall x: Ip :: net + 2 <= x < net + size - 1 ==> Named(used, x))
  }

  lemma NextUnnamed(net: Ip, size: nat, used: seq<string>, k: nat)
    requires net + size <= ADDRESSES && NamedBelow(net, size, k, used) && k + 3 < size
    ensures !Named(used, net + 2 + k)
  {
  }

  lemma NextGiven(net: Ip, size: nat, used: seq<string>, k: nat, h: Option<Ip>)
    requires size >= 4 && net + size <= ADDRESSES && LeastOrNone(net, size, used, h) && NamedBelow(net, size, k, used)
    ensures h == Given(net, size, k)
  {
    if k + 3 < size { NextUnnamed(net, size, used, k); }
    if h.Some? { LeastIs(net, size, used, k, h.value); }
  }

  lemma LeastIs(net: Ip, size: nat, used: seq<string>, k: nat, h: Ip)
    requires net + size <= ADDRESSES && LeastUnnamed(net, size, used, h) && NamedBelow(net, size, k, used)
    ensures k + 3 < size && h == net + 2 + k
  {
    assert net + 2 + k <= h;
    var next: Ip := net + 2 + k;
    assert !Named(used, next);
  }
}
