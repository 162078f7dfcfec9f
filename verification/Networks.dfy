/** Server networks of new instances (internal/instance/create.go, with the checks of
    internal/netutil/ip.go): automatic choice, overlap check, and runs of creates. */
module Networks {
  import opened Wrappers
  import opened Text
  import opened Addresses
  import opened Blocks

  /** IsAutoToken. */
  predicate IsAutoToken(s0: string) {
    var s := ToLower(TrimSpace(s0));
    s == "" || s == "auto" || s == "next" || s == "*"
  }

  /** ValidateServerNetwork: a tunnel pool of prefix 8 to 30. */
  predicate ValidServerNetwork(s: string) {
    match ParseCidr(TrimSpace(s))
    case Some(n) => 8 <= n.1.prefix <= 30
    case None => false
  }

  /** The block a text denotes. */
  function BlockOf(s: string): Cidr
    requires ParseCidr(s).Some?
  {
    ParseCidr(s).value.1
  }

  /** networksOverlap on texts; an unparsable used network is skipped. */
  predicate Clashes(s: string, u: string) {
    ParseCidr(s).Some? && ParseCidr(u).Some? && Overlap(BlockOf(s), BlockOf(u))
  }

  predicate Free(s: string, used: seq<string>) {
    ParseCidr(s).Some? && forall i :: 0 <= i < |used| ==> !Clashes(s, used[i])
  }

  /** checkNetworkOverlap: true when there is no error. */
  method CheckNetworkOverlap(cidr: string, used: seq<string>) returns (ok: bool)
    ensures ok <==> Free(cidr, used)
  {
    var a := ParseCidr(cidr);
    if a.None? { return false; }
    for i := 0 to |used|
      invariant forall k :: 0 <= k < i ==> !Clashes(cidr, used[k])
    {
      var b := ParseCidr(used[i]);
      if b.Some? && Overlap(a.value.1, b.value.1) { return false; }
    }
    return true;
  }

  // ---- automatic choice ----

  /** 10.n.0.0/24. */
  function Candidate(n: nat): Cidr
    requires n < 256
  {
    Cidr(FromOctets(10, n, 0, 0), 24)
  }

  function CandidateText(n: nat): string
    requires n < 256
  {
    CidrText(Candidate(n))
  }

  lemma CandidateParses(n: nat)
    requires n < 256
    ensures Candidate(n).Valid() && ParseCidr(CandidateText(n)) == Some((Candidate(n).net, Candidate(n)))
    ensures TrimSpace(CandidateText(n)) == CandidateText(n)
  {
    Pow2Values();
    CidrTextRoundTrip(Candidate(n));
  }

  lemma JoinFour(a: string, b: string, c: string, d: string)
    ensures Join([a, b, c, d], '.') == a + "." + b + "." + c + "." + d
  {
    assert [a, b, c, d][1..] == [b, c, d] && [b, c, d][1..] == [c, d] && [c, d][1..] == [d];
    assert Join([c, d], '.') == c + "." + d;
    assert Join([b, c, d], '.') == b + "." + (c + "." + d);
  }

  lemma Numerals()
    ensures Decimal(0) == "0" && Decimal(10) == "10" && Decimal(24) == "24"
  {
    assert Decimal(1) == "1" && Decimal(2) == "2";
  }

  lemma CandidateOctets(n: nat)
    requires n < 256
    ensures OctetText(Candidate(n).net) == [Decimal(10), Decimal(n), Decimal(0), Decimal(0)]
  {
    var ip := FromOctets(10, n, 0, 0);
    assert ip == 10 * 0x100_0000 + n * 0x1_0000;
    assert Octets(ip) == [10, n, 0, 0];
  }

  lemma Regroup(ten: string, dot: string, d: string, z: string, rest: string, head: string, tail: string)
    requires head == ten + dot && tail == dot + z + dot + z + rest
    ensures ten + dot + d + dot + z + dot + z + rest == head + d + tail
  {
  }

  /** The candidates are the texts the source formats: 10.<n>.0.0/24. */
  lemma CandidateTextIs(n: nat)
    requires n < 256
    ensures CandidateText(n) == "10." + Decimal(n) + ".0.0/24"
  {
    CandidateOctets(n);
    Numerals();
    JoinFour(Decimal(10), Decimal(n), Decimal(0), Decimal(0));
    FormatPieces(Decimal(n), Decimal(10), Decimal(0), Decimal(24));
  }

  lemma FormatPieces(d: string, ten: string, z: string, m: string)
    requires ten == "10" && z == "0" && m == "24"
    ensures ten + "." + d + "." + z + "." + z + "/" + m == "10." + d + ".0.0/24"
  {
    Regroup(ten, ".", d, z, "/" + m, "10.", ".0.0/24");
  }

  /** The order in which candidates are tried: 8, 9, 10, 11, then 20 to 249. */
  predicate IsCandidate(n: nat) { 8 <= n <= 11 || 20 <= n < 250 }

  predicate Open(n: nat, used: seq<string>) { n < 250 && IsCandidate(n) && Free(CandidateText(n), used) }

  /** The least number from `n` up to `limit` with a property, or `limit`. */
  function FirstFrom(p: nat -> bool, n: nat, limit: nat): (k: nat)
    requires n <= limit
    ensures n <= k <= limit
    decreases limit - n
  {
    if n == limit || p(n) then n else FirstFrom(p, n + 1, limit)
  }

  lemma {:induction false} FirstFromIsFirst(p: nat -> bool, n: nat, limit: nat)
    requires n <= limit
    ensures var k := FirstFrom(p, n, limit); (k < limit ==> p(k)) && forall j :: n <= j < k ==> !p(j)
    decreases limit - n
  {
    if n < limit && !p(n) {
      FirstFromIsFirst(p, n + 1, limit);
    }
  }

  /** Searching the two stretches of a range outside which nothing has the property. */
  lemma TwoStretches(p: nat -> bool, a: nat, b: nat, c: nat, limit: nat)
    requires a <= b <= c <= limit && forall k :: 0 <= k < a || b <= k < c ==> !p(k)
    ensures FirstFrom(p, 0, limit) == var k := FirstFrom(p, a, b); if k < b then k else FirstFrom(p, c, limit)
  {
    FirstFromIsFirst(p, 0, limit);
    FirstFromIsFirst(p, a, b);
    FirstFromIsFirst(p, c, limit);
  }

  function OpenIn(used: seq<string>): nat -> bool { (k: nat) => Open(k, used) }

  /** The first open candidate, or 200 when there is none. */
  function FirstOpen(used: seq<string>): (k: nat)
    ensures k < 250
  {
    var k := FirstFrom(OpenIn(used), 0, 250);
    if k < 250 then k else 200
  }

  method TryCandidate(n: nat, used: seq<string>) returns (free: bool)
    requires n < 250 && IsCandidate(n)
    ensures free == OpenIn(used)(n)
  {
    free := CheckNetworkOverlap(CandidateText(n), used);
  }

  /** One of the two candidate loops. */
  method TryFrom(lo: nat, hi: nat, used: seq<string>) returns (k: nat)
    requires lo <= hi <= 250 && forall n :: lo <= n < hi ==> IsCandidate(n)
    ensures k == FirstFrom(OpenIn(used), lo, hi)
  {
    for n := lo to hi
      invariant FirstFrom(OpenIn(used), n, hi) == FirstFrom(OpenIn(used), lo, hi)
    {
      var free := TryCandidate(n, used);
      if free { return n; }
    }
    return hi;
  }

  method NextServerNetwork(used: seq<string>) returns (r: string)
    ensures r == CandidateText(FirstOpen(used))
  {
    TwoStretches(OpenIn(used), 8, 12, 20, 250);
    var k := TryFrom(8, 12, used);
    if k < 12 { return CandidateText(k); }
    k := TryFrom(20, 250, used);
    if k < 250 { return CandidateText(k); }
    return CandidateText(200);
  }

  // ---- Prepare ----

  datatype NetworkError = BadNetwork | NetworkOverlap

  /** The server-network part of Prepare for a server instance. */
  method PrepareNetwork(requested: string, used: seq<string>) returns (r: Result<string, NetworkError>)
    ensures r == Prepared(requested, used)
  {
    var network := TrimSpace(requested);
    if network == "" || IsAutoToken(network) {
      network := NextServerNetwork(used);
    }
    if !ValidServerNetwork(network) { return Err(BadNetwork); }
    var ok := CheckNetworkOverlap(network, used);
    if !ok { return Err(NetworkOverlap); }
    return Ok(network);
  }

  function Chosen(requested: string, used: seq<string>): string {
    var network := TrimSpace(requested);
    if network == "" || IsAutoToken(network) then CandidateText(FirstOpen(used)) else network
  }

  /** The checks on the chosen network. */
  function Judged(network: string, used: seq<string>): Result<string, NetworkError> {
    if !ValidServerNetwork(network) then Err(BadNetwork)
    else if !Free(network, used) then Err(NetworkOverlap)
    else Ok(network)
  }

  function Prepared(requested: string, used: seq<string>): Result<string, NetworkError> {
    Judged(Chosen(requested, used), used)
  }

  /** Some number has the property exactly when the search, or the fallback, finds one. */
  lemma SearchFinds(p: nat -> bool, limit: nat, fallback: nat)
    requires fallback < limit
    ensures var k := FirstFrom(p, 0, limit); p(if k < limit then k else fallback) <==> exists n :: 0 <= n < limit && p(n)
  {
    FirstFromIsFirst(p, 0, limit);
  }

  lemma CandidateIsValid(n: nat)
    requires n < 256
    ensures ValidServerNetwork(CandidateText(n))
  {
    CandidateParses(n);
  }

  lemma CandidateJudged(n: nat, used: seq<string>)
    requires n < 250 && IsCandidate(n)
    ensures Judged(CandidateText(n), used).Ok? <==> Open(n, used)
    ensures Judged(CandidateText(n), used) != Err(BadNetwork)
  {
    CandidateIsValid(n);
  }

  lemma FirstOpenIsCandidate(used: seq<string>)
    ensures IsCandidate(FirstOpen(used))
    ensures Open(FirstOpen(used), used) <==> exists n :: 0 <= n < 250 && Open(n, used)
  {
    var p := OpenIn(used);
    SearchFinds(p, 250, 200);
    FirstFromIsFirst(p, 0, 250);
    assert forall n: nat {:trigger Open(n, used)} :: n < 250 ==> p(n) == Open(n, used);
  }

  lemma AutoJudged(used: seq<string>)
    ensures var r := Judged(CandidateText(FirstOpen(used)), used);
      && (r.Ok? <==> exists n :: 0 <= n < 250 && Open(n, used))
      && r != Err(BadNetwork)
  {
    FirstOpenIsCandidate(used);
    CandidateJudged(FirstOpen(used), used);
  }

  /** An automatic request is granted exactly when one of the 234 candidates overlaps no used
      network; it is never refused for its form. */
  lemma AutoNetworkExactly(requested: string, used: seq<string>)
    requires IsAutoToken(TrimSpace(requested))
    ensures Prepared(requested, used).Ok? <==> exists n :: 0 <= n < 250 && Open(n, used)
    ensures Prepared(requested, used) != Err(BadNetwork)
  {
    AutoJudged(used);
  }

  // ---- what a request gets ----

  /** Two texts denote networks with an address in common. */
  ghost predicate Shares(s: string, u: string) {
    ParseCidr(s).Some? && ParseCidr(u).Some? && exists x: Ip :: In(BlockOf(s), x) && In(BlockOf(u), x)
  }

  ghost predicate SharesWithNone(s: string, used: seq<string>) { forall i :: 0 <= i < |used| ==> !Shares(s, used[i]) }

  lemma ClashIsShare(s: string, u: string)
    ensures Clashes(s, u) <==> Shares(s, u)
  {
    ParsedIsValid(s);
    ParsedIsValid(u);
    if ParseCidr(s).Some? && ParseCidr(u).Some? { OverlapIsMeet(BlockOf(s), BlockOf(u)); }
  }

  lemma FreeIs(s: string, used: seq<string>)
    ensures Free(s, used) <==> ParseCidr(s).Some? && SharesWithNone(s, used)
  {
    forall i | 0 <= i < |used| ensures Clashes(s, used[i]) <==> Shares(s, used[i]) { ClashIsShare(s, used[i]); }
  }

  /** The texts that ask for an automatic network. */
  predicate AsksAuto(t: string) { t == "" || ToLower(t) == "auto" || ToLower(t) == "next" || ToLower(t) == "*" }

  lemma AsksAutoIs(requested: string)
    ensures AsksAuto(TrimSpace(requested)) <==> TrimSpace(requested) == "" || IsAutoToken(TrimSpace(requested))
  {
    TrimTwice(requested);
    assert ToLower("") == "";
  }

  /** A network asked for by name is granted exactly if it is a CIDR of prefix 8 to 30 that shares no
      address with a used one; otherwise the error says which of the two failed. */
  lemma GrantedExactly(requested: string, used: seq<string>)
    requires !AsksAuto(TrimSpace(requested))
    ensures var t := TrimSpace(requested);
      Prepared(requested, used) ==
        if ParseCidr(t).None? || BlockOf(t).prefix < 8 || BlockOf(t).prefix > 30 then Err(BadNetwork)
        else if SharesWithNone(t, used) then Ok(t) else Err(NetworkOverlap)
  {
    AsksAutoIs(requested);
    TrimTwice(requested);
    FreeIs(TrimSpace(requested), used);
  }

  /** The candidate of a number shares no address with a used network. */
  ghost predicate Vacant(n: nat, used: seq<string>) { SharesWithNone("10." + Decimal(n) + ".0.0/24", used) }

  lemma OpenIsVacant(n: nat, used: seq<string>)
    requires n < 250
    ensures Open(n, used) <==> (8 <= n <= 11 || 20 <= n) && Vacant(n, used)
  {
    CandidateTextIs(n);
    CandidateParses(n);
    FreeIs(CandidateText(n), used);
  }

  /** An automatic request gets the vacant candidate of the least number, and an error if none is
      vacant. */
  lemma AutoGets(requested: string, used: seq<string>, n: nat)
    requires AsksAuto(TrimSpace(requested)) && (8 <= n <= 11 || 20 <= n < 250) && Vacant(n, used)
    requires forall m: nat :: (8 <= m <= 11 || 20 <= m < 250) && m < n ==> !Vacant(m, used)
    ensures Prepared(requested, used) == Ok("10." + Decimal(n) + ".0.0/24")
  {
    AsksAutoIs(requested);
    FirstFromIsFirst(OpenIn(used), 0, 250);
    var k := FirstFrom(OpenIn(used), 0, 250);
    OpenIsVacant(n, used);
    assert OpenIn(used)(n);
    OpenIsVacant(k, used);
    assert OpenIn(used)(k) && k == n;
    CandidateIsValid(n);
    CandidateTextIs(n);
  }

  // ---- runs of creates ----

  /** The networks taken after trying each request in turn; refused creates add nothing. */
  function Creates(requests: seq<string>): seq<string> {
    if requests == [] then []
    else
      var used := Creates(requests[..|requests| - 1]);
      match Prepared(requests[|requests| - 1], used)
      case Ok(network) => used + [network]
      case Err(_) => used
  }

  ghost predicate PoolNetwork(s: string) {
    ParseCidr(s).Some? && BlockOf(s).Valid() && 8 <= BlockOf(s).prefix <= 30
  }

  ghost predicate Disjoint(s: string, t: string)
    requires PoolNetwork(s) && PoolNetwork(t)
  {
    forall x: Ip :: !(In(BlockOf(s), x) && In(BlockOf(t), x))
  }

  lemma ChosenIsTrimmed(requested: string, used: seq<string>)
    ensures TrimSpace(Chosen(requested, used)) == Chosen(requested, used)
  {
    TrimTwice(requested);
    CandidateParses(FirstOpen(used));
  }

  lemma AcceptedIsPool(network: string, used: seq<string>)
    requires TrimSpace(network) == network
    ensures Judged(network, used).Ok? ==> Judged(network, used).value == network && PoolNetwork(network) && Free(network, used)
  {
    ParsedIsValid(network);
  }

  lemma FreeIsDisjoint(s: string, used: seq<string>, i: nat)
    requires Free(s, used) && i < |used| && PoolNetwork(s) && PoolNetwork(used[i])
    ensures Disjoint(s, used[i])
  {
    assert !Clashes(s, used[i]);
    OverlapIsMeet(BlockOf(s), BlockOf(used[i]));
  }

  ghost predicate AllPools(nets: seq<string>) { forall i :: 0 <= i < |nets| ==> PoolNetwork(nets[i]) }

  ghost predicate PairwiseDisjoint(nets: seq<string>)
    requires AllPools(nets)
  {
    forall i, j :: 0 <= i < j < |nets| ==> Disjoint(nets[i], nets[j])
  }

  lemma OneMoreNetwork(used: seq<string>, s: string)
    requires AllPools(used) && PairwiseDisjoint(used) && PoolNetwork(s) && Free(s, used)
    ensures AllPools(used + [s]) && PairwiseDisjoint(used + [s])
  {
    forall i | 0 <= i < |used| ensures Disjoint(used[i], s) { FreeIsDisjoint(s, used, i); }
  }

  /** After every run of creates the server networks are valid pools and pairwise disjoint as
      sets of addresses. */
  lemma {:induction false} EveryRunDisjoint(requests: seq<string>)
    ensures AllPools(Creates(requests)) && PairwiseDisjoint(Creates(requests))
  {
    if requests != [] {
      var last, used := requests[|requests| - 1], Creates(requests[..|requests| - 1]);
      EveryRunDisjoint(requests[..|requests| - 1]);
      if Prepared(last, used).Ok? {
        ChosenIsTrimmed(last, used);
        AcceptedIsPool(Chosen(last, used), used);
        OneMoreNetwork(used, Prepared(last, used).value);
      }
    }
  }
}
