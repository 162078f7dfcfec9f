/** Importing a conf (internal/confimport/parse.go): line scan, directive switch, push options,
    netmasks, and the result. Warnings are not part of the model. */
module ConfImport {
  import opened Wrappers
  import opened Text
  import opened Addresses
  import opened Blocks
  import opened Inline
  import Fields

  datatype Remote = Remote(host: string, port: int, proto: string)
  datatype Plugin = Plugin(path: string, args: seq<string>)

  /** The settings read so far; `pushExtra` holds push options without a setting of their own. */
  datatype Conf = Conf(
    role: string, proto: string, port: int, localBind: string, devType: string, device: string,
    serverNetwork: string, serverIpv6: string, topology: string, remotes: seq<Remote>,
    staticKeyMode: bool, ca: string, cert: string, key: string, dh: string, tlsCrypt: string, staticKey: string,
    cipher: string, dataCiphers: string, authDigest: string, tlsVersionMin: string,
    redirectGateway: bool, pushDns: seq<string>, pushRoutes: seq<string>, pushDomain: string,
    maxClients: int, tunMtu: int, sndbuf: int, rcvbuf: int, plugins: seq<Plugin>,
    pushExtra: string, sawClient: bool, sawServer: bool)

  const BLANK := Conf("", "", 0, "", "", "", "", "", "", [], false, "", "", "", "", "", "", "", "", "", "",
                      false, [], [], "", 0, 0, 0, 0, [], "", false, false)

  // ---- text helpers ----

  function UpperChar(c: char): char {
    if 'a' <= c <= 'z' then (c as int - 32) as char else c
  }

  function ToUpper(s: string): (r: string)
    ensures |r| == |s|
  {
    if s == "" then "" else [UpperChar(s[0])] + ToUpper(s[1..])
  }

  function Negated(n: Option<nat>): Option<int> { if n.Some? then Some(-(n.value as int)) else None }

  /** strconv.Atoi: an optional sign and digits, within 64 bits. */
  function Atoi(s: string): Option<int> {
    if s != "" && s[0] == '-' then
      Negated(ParseUint(s[1..], 0x8000_0000_0000_0001))
    else
      match ParseUint(if s != "" && s[0] == '+' then s[1..] else s, 0x8000_0000_0000_0000) case Some(n) => Some(n) case None => None
  }

  predicate StartsWith(s: string, p: string) { |p| <= |s| && s[..|p|] == p }

  /** The first blank-separated word (strings.Fields). */
  function FirstWord(s: string): string {
    if s == "" || IsSpace(s[0]) then "" else [s[0]] + FirstWord(s[1..])
  }

  function LastQuote(s: string, q: char): int {
    if s == "" then -1 else if s[|s| - 1] == q then |s| - 1 else LastQuote(s[..|s| - 1], q)
  }

  function TrimQuotes(s: string, q: char): string
    decreases |s|
  {
    if s != "" && s[0] == q then TrimQuotes(s[1..], q)
    else if s != "" && s[|s| - 1] == q then TrimQuotes(s[..|s| - 1], q)
    else s
  }

  // ---- netmasks ----

  /** The netmask of a prefix, as an address. */
  function MaskIp(prefix: nat): Ip
    requires prefix <= 32
  {
    Pow2Values();
    Pow2AtMost(32 - prefix);
    ADDRESSES - Pow2(32 - prefix)
  }

  lemma {:induction false} Pow2AtMost(k: nat)
    requires k <= 32
    ensures Pow2(k) <= Pow2(32)
    decreases 32 - k
  {
    if k < 32 { Pow2AtMost(k + 1); }
  }

  /** IPMask.Size: the prefix of a contiguous mask. */
  function MaskPrefix(m: Ip, p: nat): (r: Option<nat>)
    requires p <= 32
    ensures r.Some? ==> r.value <= 32
    decreases 32 - p
  {
    if MaskIp(p) == m then Some(p) else if p == 32 then None else MaskPrefix(m, p + 1)
  }

  /** networkMaskToCIDR. */
  function NetworkMaskToCidr(network: string, mask: string): Option<string> {
    match (ParseIp(TrimSpace(network)), ParseIp(TrimSpace(mask)))
    case (Some(ip), Some(m)) =>
      (match MaskPrefix(m, 0)
       case Some(p) => Some(CidrText(Masked(ip, p)))
       case None => None)
    case _ => None
  }

  // ---- directives ----

  datatype Key =
    | Client | ServerNet | Mode | TlsServer | TlsClient | Proto | Port | Local | Dev | DevType | Topology | RemoteKey
    | Cipher | DataCiphers | Auth | Ca | Cert | KeyFile | Dh | TlsCrypt | TlsAuth | Secret | Push | PluginKey
    | MaxClients | TlsVersionMin | TunMtu | Sndbuf | Rcvbuf | ServerIpv6 | IfconfigPool | Redirect | Other

  function KeyOf(s: string): Key {
    if s == "client" then Client
    else if s == "server" then ServerNet
    else if s == "mode" then Mode
    else if s == "tls-server" then TlsServer
    else if s == "tls-client" then TlsClient
    else if s == "proto" then Proto
    else if s == "port" || s == "lport" then Port
    else if s == "local" then Local
    else if s == "dev" then Dev
    else if s == "dev-type" then DevType
    else if s == "topology" then Topology
    else if s == "remote" then RemoteKey
    else KeyOfRest(s)
  }

  function KeyOfRest(s: string): Key {
    if s == "cipher" then Cipher
    else if s == "data-ciphers" then DataCiphers
    else if s == "auth" then Auth
    else if s == "ca" then Ca
    else if s == "cert" then Cert
    else if s == "key" then KeyFile
    else if s == "dh" then Dh
    else if s == "tls-crypt" then TlsCrypt
    else if s == "tls-auth" then TlsAuth
    else if s == "secret" then Secret
    else if s == "push" then Push
    else KeyOfLast(s)
  }

  function KeyOfLast(s: string): Key {
    if s == "plugin" then PluginKey
    else if s == "max-clients" then MaxClients
    else if s == "tls-version-min" then TlsVersionMin
    else if s == "tun-mtu" then TunMtu
    else if s == "sndbuf" then Sndbuf
    else if s == "rcvbuf" then Rcvbuf
    else if s == "server-ipv6" then ServerIpv6
    else if s == "ifconfig-pool" then IfconfigPool
    else if s == "redirect-gateway" then Redirect
    else Other
  }

  /** The words that make a line ignored, alone or followed by a blank. */
  const IGNORED: seq<string> := [
    "management", "management-client-user", "management-client-group", "status", "writepid", "verb",
    "persist-key", "persist-tun", "persist-local-ip", "persist-remote-ip", "script-security", "daemon",
    "user", "group", "chroot", "setenv FORWARD_COMPATIBLE", "setenv opt", "keepalive"]

  const IGNORED_FIRST: seq<string> := [
    "management", "status", "writepid", "verb", "persist-key", "persist-tun", "persist-local-ip",
    "persist-remote-ip", "daemon", "keepalive"]

  predicate Leads(low: string, p: string) { low == p || StartsWith(low, p + " ") || StartsWith(low, p + "\t") }

  /** shouldIgnore. */
  predicate ShouldIgnore(low: string) {
    (exists i :: 0 <= i < |IGNORED| && Leads(low, IGNORED[i])) || FirstWord(low) in IGNORED_FIRST
  }

  function OrInt(s: string, was: int): int { match Atoi(s) case Some(n) => n case None => was }

  function ReadDev(r: Conf, dev: string): Conf {
    var low := ToLower(dev);
    if low == "tun" || low == "tap" then r.(devType := low)
    else
      var kind := if StartsWith(low, "tun") then "tun" else if StartsWith(low, "tap") then "tap" else r.devType;
      r.(devType := kind, device := dev)
  }

  function ReadRemote(r: Conf, f: seq<string>): Conf
    requires |f| >= 2
  {
    var port := if |f| >= 3 then OrInt(f[2], 1194) else 1194;
    var proto := if |f| >= 4 then ToLower(f[3]) else if |f| == 3 && Atoi(f[2]).None? then ToLower(f[2]) else "";
    r.(remotes := r.remotes + [Remote(f[1], port, proto)], proto := if proto != "" && r.proto == "" then proto else r.proto)
  }

  /** The switch on a directive: its effect on the settings. */
  function Directive(r: Conf, key: Key, f: seq<string>, line: string): Conf
    requires |f| >= 1
  {
    match key
    case Client => r.(sawClient := true, role := "client")
    case ServerNet =>
      var s := r.(sawServer := true, role := "server");
      if |f| >= 3 && NetworkMaskToCidr(f[1], f[2]).Some? then s.(serverNetwork := NetworkMaskToCidr(f[1], f[2]).value) else s
    case Mode => if |f| >= 2 && ToLower(f[1]) == "server" then r.(sawServer := true, role := "server") else r
    case TlsServer => r.(sawServer := true, role := if r.role == "" then "server" else r.role)
    case TlsClient => r.(sawClient := true, role := if r.role == "" then "client" else r.role)
    case Push => ReadPush(r, PushPayload(line))
    case Redirect => r.(redirectGateway := true)
    case IfconfigPool => r
    case Other => r
    case _ => if |f| >= 2 then Setting(r, key, f) else r
  }

  /** Whether the line of a directive is also kept as an extra one. */
  predicate KeptAsExtra(key: Key, f: seq<string>) {
    key.Other? || (key.IfconfigPool? && |f| >= 3) || (key.Redirect? && |f| > 1)
  }

  /** The directives that store their first argument. */
  function Setting(r: Conf, key: Key, f: seq<string>): Conf
    requires |f| >= 2
  {
    match key
    case Proto => r.(proto := ToLower(f[1]))
    case Port => r.(port := OrInt(f[1], r.port))
    case Local => r.(localBind := f[1])
    case Dev => ReadDev(r, f[1])
    case DevType => r.(devType := ToLower(f[1]))
    case Topology => r.(topology := ToLower(f[1]))
    case RemoteKey => ReadRemote(r, f)
    case Cipher => r.(cipher := f[1])
    case DataCiphers => r.(dataCiphers := Join(f[1..], ' '))
    case Auth => r.(authDigest := f[1])
    case Ca => r.(ca := f[1])
    case Cert => r.(cert := f[1])
    case KeyFile => r.(key := f[1])
    case Dh => if ToLower(f[1]) == "none" then r else r.(dh := f[1])
    case TlsCrypt => r.(tlsCrypt := f[1])
    case TlsAuth => r.(staticKey := f[1])
    case Secret => r.(staticKey := f[1], staticKeyMode := true)
    case PluginKey => r.(plugins := r.plugins + [Plugin(f[1], f[2..])])
    case MaxClients => r.(maxClients := OrInt(f[1], r.maxClients))
    case TlsVersionMin => r.(tlsVersionMin := f[1])
    case TunMtu => r.(tunMtu := OrInt(f[1], r.tunMtu))
    case Sndbuf => r.(sndbuf := OrInt(f[1], r.sndbuf))
    case Rcvbuf => r.(rcvbuf := OrInt(f[1], r.rcvbuf))
    case ServerIpv6 => r.(serverIpv6 := f[1])
    case _ => r
  }

  // ---- push options ----

  /** extractPushPayload. */
  function PushPayload(line: string): string {
    var s := TrimSpace(line);
    if |s| < 5 then ""
    else
      var rest := TrimSpace(s[4..]);
      if rest == "" then ""
      else if Fields.IsQuote(rest[0]) then
        var j := LastQuote(rest[1..], rest[0]);
        if 0 <= j < |rest| then rest[1..1 + j] else TrimQuotes(rest, rest[0])
      else rest
  }

  function KeepPush(r: Conf, payload: string): Conf { r.(pushExtra := r.pushExtra + "push \"" + payload + "\"\n") }

  /** parsePush; an empty payload is skipped by the caller. */
  function ReadPush(r: Conf, raw: string): Conf {
    var payload := TrimSpace(raw);
    var f := Fields.Split(payload);
    if payload == "" || f == [] then r else ReadOption(r, ToLower(f[0]), f, payload)
  }

  function ReadOption(r: Conf, key: string, f: seq<string>, payload: string): Conf {
    if key == "redirect-gateway" then r.(redirectGateway := true)
    else if key == "dhcp-option" then (if |f| < 2 then r else ReadDhcp(r, ToUpper(f[1]), f, payload))
    else if key == "route" then ReadRoute(r, f, payload)
    else KeepPush(r, payload)
  }

  function ReadDhcp(r: Conf, opt: string, f: seq<string>, payload: string): Conf {
    if opt == "DNS" then (if |f| >= 3 then r.(pushDns := r.pushDns + [f[2]]) else r)
    else if opt == "DOMAIN" || opt == "DOMAIN-SEARCH" || opt == "ADAPTER_DOMAIN_SUFFIX" then
      if |f| >= 3 && (opt == "DOMAIN" || r.pushDomain == "") then r.(pushDomain := f[2]) else r
    else KeepPush(r, payload)
  }

  function ReadRoute(r: Conf, f: seq<string>, payload: string): Conf {
    if |f| >= 3 && NetworkMaskToCidr(f[1], f[2]).Some? then
      r.(pushRoutes := r.pushRoutes + [NetworkMaskToCidr(f[1], f[2]).value])
    else if |f| >= 2 && !Lacks(f[1], '/') then r.(pushRoutes := r.pushRoutes + [f[1]])
    else KeepPush(r, payload)
  }

  // ---- lines ----

  /** The part of a trimmed line before an unquoted '#'. */
  function Uncommented(line: string): string {
    var k := Fields.UnquotedFrom(line, Fields.Out, '#');
    if k >= 0 then TrimSpace(line[..k]) else line
  }

  /** The settings and the extra lines kept so far. */
  datatype Scanned = Scanned(conf: Conf, extra: seq<string>)

  function ReadTrimmed(s: Scanned, line: string): Scanned {
    if line == "" || ShouldIgnore(ToLower(line)) then s
    else
      var f := Fields.Split(line);
      if f == [] then s
      else
        var key := KeyOf(ToLower(f[0]));
        Scanned(Directive(s.conf, key, f, line), s.extra + if KeptAsExtra(key, f) then [line] else [])
  }

  /** One line of the scan. */
  function ReadLine(s: Scanned, raw: string): Scanned {
    var line := TrimSpace(raw);
    if line == "" || line[0] == '#' || line[0] == ';' then s else ReadTrimmed(s, Uncommented(line))
  }

  function ReadLines(lines: seq<string>): Scanned {
    if lines == [] then Scanned(BLANK, []) else ReadLine(ReadLines(lines[..|lines| - 1]), lines[|lines| - 1])
  }

  function TrimBreaks(s: string): string {
    if s != "" && s[|s| - 1] == '\n' then TrimBreaks(s[..|s| - 1]) else s
  }

  /** The extra directives: leftover push options, then the other lines, in order. */
  function Directives(s: Scanned): string {
    var parts := (if TrimSpace(s.conf.pushExtra) != "" then [TrimBreaks(s.conf.pushExtra)] else [])
      + (if s.extra != [] then [Join(s.extra, '\n')] else []);
    if parts == [] then s.conf.pushExtra else Join(parts, '\n') + "\n"
  }

  /** The role when no marker set it. */
  function InferredRole(r: Conf): Option<string> {
    if r.role != "" then Some(r.role)
    else if r.sawServer then Some("server")
    else if r.sawClient || r.remotes != [] then Some("client")
    else if r.serverNetwork != "" then Some("server")
    else None
  }

  /** A parsed conf: the scan, the extra directives, and the inline blocks. */
  datatype Imported = Imported(conf: Conf, directives: string, inlines: map<string, string>)

  function Finished(s: Scanned, inlines: map<string, string>): Option<Imported> {
    match InferredRole(s.conf)
    case Some(role) => Some(Imported(s.conf.(role := role), Directives(s), inlines))
    case None => None
  }

  function Parsed(content: string): Option<Imported> {
    var e := ExtractTags(Extraction(map[], content), TAGS);
    Finished(ReadLines(Split(e.body, '\n')), e.blocks)
  }

  /** Parse; None is its error for an undeterminable role. */
  method Parse(content: string) returns (r: Option<Imported>)
    ensures r == Parsed(content)
  {
    var inlines, body := ExtractInlineBlocks(content);
    var conf, extra := ScanLines(Split(body, '\n'));
    return Finished(Scanned(conf, extra), inlines);
  }

  /** The scan loop. */
  method ScanLines(lines: seq<string>) returns (conf: Conf, extra: seq<string>)
    ensures Scanned(conf, extra) == ReadLines(lines)
  {
    conf, extra := BLANK, [];
    for i := 0 to |lines|
      invariant Scanned(conf, extra) == ReadLines(lines[..i])
    {
      assert lines[..i + 1][..i] == lines[..i];
      conf, extra := ParseLine(conf, extra, lines[i]);
    }
    assert lines[..|lines|] == lines;
  }

  /** The body of the scan loop. */
  method ParseLine(conf0: Conf, extra0: seq<string>, raw: string) returns (conf: Conf, extra: seq<string>)
    ensures Scanned(conf, extra) == ReadLine(Scanned(conf0, extra0), raw)
  {
    conf, extra := conf0, extra0;
    var line := TrimSpace(raw);
    if line == "" || line[0] == '#' || line[0] == ';' { return; }
    var i := Fields.IndexUnquoted(line, '#');
    if i >= 0 {
      line := TrimSpace(line[..i]);
      if line == "" { return; }
    }
    if ShouldIgnore(ToLower(line)) { return; }
    var fields := Fields.SplitFields(line);
    if |fields| == 0 { return; }
    var key := KeyOf(ToLower(fields[0]));
    conf := Directive(conf, key, fields, line);
    if KeptAsExtra(key, fields) { extra := extra + [line]; }
  }
}
