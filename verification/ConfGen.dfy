/** Rendering the conf of an instance (internal/confgen/render.go): no bridge, no inline CA bundle,
    feature sets already expanded into plugins, no extra directives. */
module ConfGen {
  import opened Wrappers
  import opened Text
  import opened Addresses
  import opened Blocks
  import opened ConfImport
  import Fields

  const GENERATED := "# Generated by openvpnd " + "\U{2014} do not edit by hand"
  const SHAPER_TITLE := "# bandwidth_enforcement=" + "shaper (outgoing only; role=server)"
  const CLIENT_SHAPER_TITLE := "# bandwidth_enforcement=" + "shaper (outgoing only; role=client)"

  /** What a server conf is rendered from. Paths are given as texts; a zero port means 1194. */
  datatype Server = Server(
    name: string, plugins: seq<Plugin>, devType: string, device: string, proto: string, localBind: string,
    port: nat, serverNetwork: string, serverIpv6: string, topology: string, poolStart: string, poolEnd: string,
    maxClients: int, ccdDir: string, pushRoutes: seq<string>, pushDns: seq<string>, pushDomain: string,
    redirectGateway: bool, staticKeyMode: bool, staticKey: string, ca: string, cert: string, key: string,
    dh: string, tlsCrypt: string, crl: string, cipher: string, dataCiphers: string, authDigest: string,
    tlsVersionMin: string, tlsCipher: string, tlsCiphersuites: string, tlsGroups: string, tlsCertProfile: string,
    tunMtu: int, sndbuf: int, rcvbuf: int, ifconfigIpv6: string, authVerify: string, scriptSecurity: nat,
    usernameAsCn: bool, tmpDir: string, pidFile: string, statusFile: string, mgmtSock: string, shaper: nat)

  /** What a client conf is rendered from: of the settings of a server the ones a client has too,
      and its remotes and login. */
  datatype ClientConf = ClientConf(base: Server, remotes: seq<Remote>, userPassFile: string, userPass: bool)

  /** A rendered line: a directive with its arguments, a plugin, a pushed option, or a comment or
      empty line. */
  datatype Line =
    | Words(tokens: seq<string>)
    | PluginLine(plugin: Plugin)
    | PushLine(option: seq<string>)
    | Comment(text: string)

  /** Only plugin arguments are quoted. */
  function ArgText(a: string): string { " " + Fields.QuoteArg(a) }

  function ArgsText(args: seq<string>): string { Joined(args, ArgText) }

  function LineText(l: Line): string {
    match l
    case Words(tokens) => Join(tokens, ' ')
    case PluginLine(p) => "plugin " + p.path + ArgsText(p.args)
    case PushLine(option) => "push \"" + Join(option, ' ') + "\""
    case Comment(text) => text
  }

  function TextLine(l: Line): string { LineText(l) + "\n" }

  function ConfText(lines: seq<Line>): string { Joined(lines, TextLine) }

  function Or(s: string, default: string): string { if s == "" then default else s }

  /** ServerNetworkToOpenVPN: the network address and netmask of a CIDR. */
  function NetAndMask(cidr: string): Option<(string, string)> {
    match ParseCidr(TrimSpace(cidr))
    case Some(n) =>
      ParsedIsValid(TrimSpace(cidr));
      Some((IpText(n.1.net), IpText(MaskIp(n.1.prefix))))
    case None => None
  }

  // ---- sections of the conf, each added to the lines before it ----

  function Add(acc: seq<Line>, tokens: seq<string>): seq<Line> { acc + [Words(tokens)] }

  function AddIf(acc: seq<Line>, on: bool, tokens: seq<string>): seq<Line> { if on then Add(acc, tokens) else acc }

  /** A directive that is left out when its argument is empty. */
  function AddOpt(acc: seq<Line>, key: string, v: string): seq<Line> { AddIf(acc, v != "", [key, v]) }

  /** A directive that is left out when its number is not positive. */
  function AddInt(acc: seq<Line>, key: string, n: int): seq<Line> { if n > 0 then Add(acc, [key, Decimal(n)]) else acc }

  function AddPush(acc: seq<Line>, on: bool, option: seq<string>): seq<Line> { if on then acc + [PushLine(option)] else acc }

  function Header(acc: seq<Line>, s: Server): seq<Line> {
    acc + [Comment(GENERATED)] + [Comment("# instance=" + s.name + " role=server")]
  }

  function PluginLines(acc: seq<Line>, plugins: seq<Plugin>): seq<Line> {
    if plugins == [] then acc
    else
      var p := plugins[|plugins| - 1];
      PluginLines(acc, plugins[..|plugins| - 1]) + if p.path == "" then [] else [PluginLine(p)]
  }

  function Device(acc: seq<Line>, s: Server): seq<Line> {
    var dev := Or(s.devType, "tun");
    if s.device != "" then Add(Add(acc, ["dev", s.device]), ["dev-type", dev]) else Add(acc, ["dev", dev])
  }

  function Bind(acc: seq<Line>, s: Server): seq<Line> {
    var proto := Or(s.proto, "udp");
    var a := Add(acc, ["proto", proto]);
    if s.localBind != "" then Add(a, ["local", s.localBind])
    else AddIf(a, StartsWith(ToLower(proto), "udp"), ["multihome"])
  }

  function Role(acc: seq<Line>, s: Server): seq<Line> {
    Add(Add(Add(acc, ["port", Decimal(if s.port == 0 then 1194 else s.port)]), ["mode", "server"]), ["tls-server"])
  }

  function Net(acc: seq<Line>, s: Server): seq<Line> {
    if s.serverNetwork == "" then acc
    else
      match NetAndMask(s.serverNetwork)
      case Some(nm) => Add(acc, ["server", nm.0, nm.1])
      case None => acc
  }

  function Pool(acc: seq<Line>, s: Server): seq<Line> {
    var a := AddOpt(acc, "server-ipv6", s.serverIpv6);
    var b := Add(a, ["topology", Or(s.topology, "subnet")]);
    var c := AddIf(b, s.poolStart != "" && s.poolEnd != "", ["ifconfig-pool", s.poolStart, s.poolEnd]);
    var d := AddInt(c, "max-clients", s.maxClients);
    Add(Add(d, ["client-config-dir", s.ccdDir]), ["ccd-exclusive"])
  }

  /** A pushed route; a CIDR is written as network and netmask. */
  function RouteOption(r: string): seq<string> {
    if !Lacks(r, '/') && NetAndMask(r).Some? then ["route", NetAndMask(r).value.0, NetAndMask(r).value.1] else ["route", r]
  }

  function Routes(acc: seq<Line>, routes: seq<string>): seq<Line> {
    if routes == [] then acc
    else
      var r := TrimSpace(routes[|routes| - 1]);
      AddPush(Routes(acc, routes[..|routes| - 1]), r != "", RouteOption(r))
  }

  function Dns(acc: seq<Line>, dns: seq<string>): seq<Line> {
    if dns == [] then acc
    else
      var d := TrimSpace(dns[|dns| - 1]);
      AddPush(Dns(acc, dns[..|dns| - 1]), d != "", ["dhcp-option", "DNS", d])
  }

  function Pushes(acc: seq<Line>, s: Server): seq<Line> {
    var a := Dns(Routes(acc, s.pushRoutes), s.pushDns);
    var b := AddPush(a, s.pushDomain != "", ["dhcp-option", "DOMAIN", s.pushDomain]);
    AddPush(b, s.redirectGateway, ["redirect-gateway", "def1", "bypass-dhcp"])
  }

  function Crypto(acc: seq<Line>, s: Server): seq<Line> {
    if s.staticKeyMode then AddOpt(acc, "secret", s.staticKey)
    else
      var a := AddOpt(AddOpt(AddOpt(acc, "ca", s.ca), "cert", s.cert), "key", s.key);
      var b := Add(a, ["dh", Or(s.dh, "none")]);
      AddOpt(AddOpt(AddOpt(b, "tls-crypt", s.tlsCrypt), "tls-auth", s.staticKey), "crl-verify", s.crl)
  }

  function Ciphers(acc: seq<Line>, s: Server): seq<Line> {
    AddOpt(AddOpt(AddOpt(AddOpt(acc, "cipher", s.cipher), "data-ciphers", s.dataCiphers), "auth", s.authDigest),
           "tls-version-min", s.tlsVersionMin)
  }

  function Tls(acc: seq<Line>, s: Server): seq<Line> {
    AddOpt(AddOpt(AddOpt(AddOpt(acc, "tls-cipher", s.tlsCipher), "tls-ciphersuites", s.tlsCiphersuites),
                  "tls-groups", s.tlsGroups), "tls-cert-profile", s.tlsCertProfile)
  }

  function Buffers(acc: seq<Line>, s: Server): seq<Line> {
    AddOpt(AddInt(AddInt(AddInt(acc, "tun-mtu", s.tunMtu), "sndbuf", s.sndbuf), "rcvbuf", s.rcvbuf),
           "ifconfig-ipv6", s.ifconfigIpv6)
  }

  function Verify(acc: seq<Line>, s: Server): seq<Line> {
    var script := TrimSpace(s.authVerify);
    if script == "" then acc
    else
      var sec := if s.scriptSecurity == 0 then 2 else s.scriptSecurity;
      var a := Add(acc, ["script-security", Decimal(sec)]);
      var b := Add(a, ["auth-user-pass-verify", script, if sec >= 2 then "via-env" else "via-file"]);
      AddIf(b, s.usernameAsCn, ["username-as-common-name"])
  }

  function Daemon(acc: seq<Line>, s: Server): seq<Line> {
    var a := Add(Add(Add(acc, ["keepalive", "10", "60"]), ["persist-key"]), ["persist-tun"]);
    var b := Add(Add(Add(a, ["tmp-dir", s.tmpDir]), ["writepid", s.pidFile]), ["status", s.statusFile, "1"]);
    Add(Add(Add(b, ["management", s.mgmtSock, "unix"]), ["management-client-user", "root"]), ["verb", "2"])
  }

  function Shaper(acc: seq<Line>, s: Server): seq<Line> {
    if s.shaper == 0 then acc
    else
      Add(acc + [Comment("")] + [Comment(SHAPER_TITLE)], ["shaper", Decimal(s.shaper)])
  }

  function ServerPart(acc: seq<Line>, s: Server): seq<Line> {
    Add(Pushes(Pool(Net(Role(acc, s), s), s), s), ["duplicate-cn"])
  }

  function Tail(acc: seq<Line>, s: Server): seq<Line> {
    Shaper(Daemon(Verify(Buffers(Tls(Ciphers(Crypto(acc, s), s), s), s), s), s), s)
  }

  /** The lines of a server conf. */
  function ConfLines(s: Server): seq<Line> {
    Tail(ServerPart(Bind(Device(PluginLines(Header([], s), s.plugins), s), s), s), s)
  }

  predicate Renderable(s: Server) { s.serverNetwork == "" || NetAndMask(s.serverNetwork).Some? }

  /** The rendered conf; None when the server network does not parse. */
  function Rendered(s: Server): Option<string> {
    if Renderable(s) then Some(ConfText(ConfLines(s))) else None
  }

  // ---- the conf of a client ----

  function ClientHeader(acc: seq<Line>, s: Server): seq<Line> {
    acc + [Comment(GENERATED)] + [Comment("# instance=" + s.name + " role=client")]
  }

  function ClientBind(acc: seq<Line>, s: Server): seq<Line> {
    AddOpt(Add(acc, ["proto", Or(s.proto, "udp")]), "local", s.localBind)
  }

  function IntText(n: int): string { if n < 0 then "-" + Decimal(-n) else Decimal(n) }

  function RemoteTokens(r: Remote): seq<string> {
    ["remote", r.host, IntText(if r.port == 0 then 1194 else r.port)] + if r.proto != "" then [r.proto] else []
  }

  function Remotes(acc: seq<Line>, remotes: seq<Remote>): seq<Line> {
    if remotes == [] then acc
    else
      var r := remotes[|remotes| - 1];
      AddIf(Remotes(acc, remotes[..|remotes| - 1]), r.host != "", RemoteTokens(r))
  }

  function ClientPart(acc: seq<Line>, remotes: seq<Remote>): seq<Line> {
    var a := Add(Add(Add(acc, ["client"]), ["tls-client"]), ["nobind"]);
    Remotes(Add(Add(a, ["remote-cert-tls", "server"]), ["resolv-retry", "infinite"]), remotes)
  }

  function ClientCrypto(acc: seq<Line>, s: Server): seq<Line> {
    if s.staticKeyMode then AddOpt(acc, "secret", s.staticKey)
    else
      var a := AddOpt(AddOpt(AddOpt(acc, "ca", s.ca), "cert", s.cert), "key", s.key);
      AddOpt(AddOpt(a, "tls-crypt", s.tlsCrypt), "tls-auth", s.staticKey)
  }

  function Login(acc: seq<Line>, c: ClientConf): seq<Line> {
    var file := TrimSpace(c.userPassFile);
    if file != "" then Add(acc, ["auth-user-pass", file]) else AddIf(acc, c.userPass, ["auth-user-pass"])
  }

  function ClientShaper(acc: seq<Line>, s: Server): seq<Line> {
    if s.shaper == 0 then acc
    else
      Add(acc + [Comment("")] + [Comment(CLIENT_SHAPER_TITLE)], ["shaper", Decimal(s.shaper)])
  }

  function ClientHead(s: Server): seq<Line> { ClientBind(Device(PluginLines(ClientHeader([], s), s.plugins), s), s) }

  function ClientTail(acc: seq<Line>, c: ClientConf): seq<Line> {
    var s := c.base;
    ClientShaper(Daemon(Login(Buffers(Tls(Ciphers(ClientCrypto(acc, s), s), s), s), c), s), s)
  }

  /** The lines of a client conf. */
  function ClientLines(c: ClientConf): seq<Line> { ClientTail(ClientPart(ClientHead(c.base), c.remotes), c) }

  /** The rendered conf; None when there is no remote. */
  function RenderedClient(c: ClientConf): Option<string> {
    if c.remotes == [] then None else Some(ConfText(ClientLines(c)))
  }

  // ---- the writer ----

  /** A plugin line, its arguments quoted in a loop. */
  method PluginText(p: Plugin) returns (line: string)
    ensures line == LineText(PluginLine(p))
  {
    line := "";
    for i := 0 to |p.args|
      invariant line == ArgsText(p.args[..i])
    {
      JoinedSnoc(p.args[..i + 1], p.args[..i], p.args[i], ArgText);
      line := line + (" " + Fields.QuoteArg(p.args[i]));
    }
    assert p.args[..|p.args|] == p.args;
    line := "plugin " + p.path + line;
  }

  /** The conf being written; `lines` says what its text consists of. */
  class Builder {
    var text: string
    ghost var lines: seq<Line>

    ghost predicate Valid()
      reads this
    {
      text == ConfText(lines)
    }

    constructor ()
      ensures Valid() && lines == []
    {
      text, lines := "", [];
    }

    method PutText(line: string, ghost l: Line)
      requires Valid() && line == LineText(l)
      modifies this
      ensures Valid() && lines == old(lines) + [l]
    {
      JoinedSnoc(lines + [l], lines, l, TextLine);
      text := text + (line + "\n");
      lines := lines + [l];
    }

    method Put(l: Line)
      requires Valid()
      modifies this
      ensures Valid() && lines == old(lines) + [l]
    {
      PutText(LineText(l), l);
    }

    method PutWords(tokens: seq<string>)
      requires Valid()
      modifies this
      ensures Valid() && lines == Add(old(lines), tokens)
    {
      Put(Words(tokens));
    }

    method PutIf(on: bool, tokens: seq<string>)
      requires Valid()
      modifies this
      ensures Valid() && lines == AddIf(old(lines), on, tokens)
    {
      if on { Put(Words(tokens)); }
    }

    method PutOpt(key: string, v: string)
      requires Valid()
      modifies this
      ensures Valid() && lines == AddOpt(old(lines), key, v)
    {
      if v != "" { Put(Words([key, v])); }
    }

    method PutInt(key: string, n: int)
      requires Valid()
      modifies this
      ensures Valid() && lines == AddInt(old(lines), key, n)
    {
      if n > 0 { Put(Words([key, Decimal(n)])); }
    }

    method PutPush(on: bool, option: seq<string>)
      requires Valid()
      modifies this
      ensures Valid() && lines == AddPush(old(lines), on, option)
    {
      if on { Put(PushLine(option)); }
    }

    /** The loop over plugins. */
    method PutPlugins(plugins: seq<Plugin>)
      requires Valid()
      modifies this
      ensures Valid() && lines == PluginLines(old(lines), plugins)
    {
      for i := 0 to |plugins|
        invariant Valid() && lines == PluginLines(old(lines), plugins[..i])
      {
        assert plugins[..i + 1][..i] == plugins[..i];
        if plugins[i].path != "" { PutPlugin(plugins[i]); }
      }
      assert plugins[..|plugins|] == plugins;
    }

    method PutPlugin(p: Plugin)
      requires Valid()
      modifies this
      ensures Valid() && lines == old(lines) + [PluginLine(p)]
    {
      var line := PluginText(p);
      PutText(line, PluginLine(p));
    }

    /** The loop over push routes. */
    method PutRoutes(routes: seq<string>)
      requires Valid()
      modifies this
      ensures Valid() && lines == Routes(old(lines), routes)
    {
      for i := 0 to |routes|
        invariant Valid() && lines == Routes(old(lines), routes[..i])
      {
        assert routes[..i + 1][..i] == routes[..i];
        PutRoute(TrimSpace(routes[i]));
      }
      assert routes[..|routes|] == routes;
    }

    method PutRoute(r: string)
      requires Valid()
      modifies this
      ensures Valid() && lines == AddPush(old(lines), r != "", RouteOption(r))
    {
      if r == "" { return; }
      if !Lacks(r, '/') {
        var nm := NetAndMask(r);
        if nm.Some? {
          Put(PushLine(["route", nm.value.0, nm.value.1]));
          return;
        }
      }
      Put(PushLine(["route", r]));
    }

    /** The loop over DNS servers. */
    method PutDns(dns: seq<string>)
      requires Valid()
      modifies this
      ensures Valid() && lines == Dns(old(lines), dns)
    {
      for i := 0 to |dns|
        invariant Valid() && lines == Dns(old(lines), dns[..i])
      {
        assert dns[..i + 1][..i] == dns[..i];
        PutPush(TrimSpace(dns[i]) != "", ["dhcp-option", "DNS", TrimSpace(dns[i])]);
      }
      assert dns[..|dns|] == dns;
    }

    method WriteDevice(s: Server)
      requires Valid()
      modifies this
      ensures Valid() && lines == Device(old(lines), s)
    {
      var dev := Or(s.devType, "tun");
      if s.device != "" {
        PutWords(["dev", s.device]);
        PutWords(["dev-type", dev]);
      } else {
        PutWords(["dev", dev]);
      }
    }

    method WriteHead(s: Server)
      requires Valid()
      modifies this
      ensures Valid() && lines == Bind(Device(PluginLines(Header(old(lines), s), s.plugins), s), s)
    {
      Put(Comment(GENERATED));
      Put(Comment("# instance=" + s.name + " role=server"));
      PutPlugins(s.plugins);
      WriteDevice(s);
      var proto := Or(s.proto, "udp");
      PutWords(["proto", proto]);
      if s.localBind != "" {
        PutWords(["local", s.localBind]);
      } else {
        PutIf(StartsWith(ToLower(proto), "udp"), ["multihome"]);
      }
    }

    method WritePool(s: Server)
      requires Valid()
      modifies this
      ensures Valid() && lines == Pool(old(lines), s)
    {
      PutOpt("server-ipv6", s.serverIpv6);
      PutWords(["topology", Or(s.topology, "subnet")]);
      PutIf(s.poolStart != "" && s.poolEnd != "", ["ifconfig-pool", s.poolStart, s.poolEnd]);
      PutInt("max-clients", s.maxClients);
      PutWords(["client-config-dir", s.ccdDir]);
      PutWords(["ccd-exclusive"]);
    }

    method WritePushes(s: Server)
      requires Valid()
      modifies this
      ensures Valid() && lines == Pushes(old(lines), s)
    {
      PutRoutes(s.pushRoutes);
      PutDns(s.pushDns);
      PutPush(s.pushDomain != "", ["dhcp-option", "DOMAIN", s.pushDomain]);
      PutPush(s.redirectGateway, ["redirect-gateway", "def1", "bypass-dhcp"]);
    }

    /** renderServer; false when the server network does not parse. */
    method WriteServer(s: Server) returns (ok: bool)
      requires Valid()
      modifies this
      ensures Valid() && ok == Renderable(s)
      ensures ok ==> lines == ServerPart(old(lines), s)
    {
      PutWords(["port", Decimal(if s.port == 0 then 1194 else s.port)]);
      PutWords(["mode", "server"]);
      PutWords(["tls-server"]);
      if s.serverNetwork != "" {
        var nm := NetAndMask(s.serverNetwork);
        if nm.None? { return false; }
        PutWords(["server", nm.value.0, nm.value.1]);
      }
      WritePool(s);
      WritePushes(s);
      PutWords(["duplicate-cn"]);
      return true;
    }

    method WriteCrypto(s: Server)
      requires Valid()
      modifies this
      ensures Valid() && lines == Crypto(old(lines), s)
    {
      if s.staticKeyMode {
        PutOpt("secret", s.staticKey);
      } else {
        PutOpt("ca", s.ca);
        PutOpt("cert", s.cert);
        PutOpt("key", s.key);
        if s.dh != "" { PutWords(["dh", s.dh]); } else { PutWords(["dh", "none"]); }
        PutOpt("tls-crypt", s.tlsCrypt);
        PutOpt("tls-auth", s.staticKey);
        PutOpt("crl-verify", s.crl);
      }
    }

    method WriteCiphers(s: Server)
      requires Valid()
      modifies this
      ensures Valid() && lines == Tls(Ciphers(old(lines), s), s)
    {
      PutOpt("cipher", s.cipher);
      PutOpt("data-ciphers", s.dataCiphers);
      PutOpt("auth", s.authDigest);
      PutOpt("tls-version-min", s.tlsVersionMin);
      PutOpt("tls-cipher", s.tlsCipher);
      PutOpt("tls-ciphersuites", s.tlsCiphersuites);
      PutOpt("tls-groups", s.tlsGroups);
      PutOpt("tls-cert-profile", s.tlsCertProfile);
    }

    method WriteBuffers(s: Server)
      requires Valid()
      modifies this
      ensures Valid() && lines == Buffers(old(lines), s)
    {
      PutInt("tun-mtu", s.tunMtu);
      PutInt("sndbuf", s.sndbuf);
      PutInt("rcvbuf", s.rcvbuf);
      PutOpt("ifconfig-ipv6", s.ifconfigIpv6);
    }

    method WriteVerify(s: Server)
      requires Valid()
      modifies this
      ensures Valid() && lines == Verify(old(lines), s)
    {
      if TrimSpace(s.authVerify) != "" {
        var sec := s.scriptSecurity;
        if sec == 0 { sec := 2; }
        PutWords(["script-security", Decimal(sec)]);
        var how := "via-file";
        if sec >= 2 { how := "via-env"; }
        PutWords(["auth-user-pass-verify", TrimSpace(s.authVerify), how]);
        PutIf(s.usernameAsCn, ["username-as-common-name"]);
      }
    }

    method WriteDaemon(s: Server)
      requires Valid()
      modifies this
      ensures Valid() && lines == Daemon(old(lines), s)
    {
      PutWords(["keepalive", "10", "60"]);
      PutWords(["persist-key"]);
      PutWords(["persist-tun"]);
      PutWords(["tmp-dir", s.tmpDir]);
      PutWords(["writepid", s.pidFile]);
      PutWords(["status", s.statusFile, "1"]);
      PutWords(["management", s.mgmtSock, "unix"]);
      PutWords(["management-client-user", "root"]);
      PutWords(["verb", "2"]);
    }

    method WriteShaper(s: Server)
      requires Valid()
      modifies this
      ensures Valid() && lines == Shaper(old(lines), s)
    {
      if s.shaper > 0 {
        Put(Comment(""));
        Put(Comment(SHAPER_TITLE));
        PutWords(["shaper", Decimal(s.shaper)]);
      }
    }

    method WriteClientBind(s: Server)
      requires Valid()
      modifies this
      ensures Valid() && lines == ClientBind(old(lines), s)
    {
      PutWords(["proto", Or(s.proto, "udp")]);
      PutOpt("local", s.localBind);
    }

    method WriteClientHead(s: Server)
      requires Valid()
      modifies this
      ensures Valid() && lines == ClientBind(Device(PluginLines(ClientHeader(old(lines), s), s.plugins), s), s)
    {
      Put(Comment(GENERATED));
      Put(Comment("# instance=" + s.name + " role=client"));
      PutPlugins(s.plugins);
      WriteDevice(s);
      WriteClientBind(s);
    }

    /** The loop over remotes. */
    method PutRemotes(remotes: seq<Remote>)
      requires Valid()
      modifies this
      ensures Valid() && lines == Remotes(old(lines), remotes)
    {
      for i := 0 to |remotes|
        invariant Valid() && lines == Remotes(old(lines), remotes[..i])
      {
        assert remotes[..i + 1][..i] == remotes[..i];
        if remotes[i].host != "" { PutRemote(remotes[i]); }
      }
      assert remotes[..|remotes|] == remotes;
    }

    method PutRemote(r: Remote)
      requires Valid()
      modifies this
      ensures Valid() && lines == Add(old(lines), RemoteTokens(r))
    {
      var port := r.port;
      if port == 0 { port := 1194; }
      if r.proto != "" {
        PutWords(["remote", r.host, IntText(port), r.proto]);
        assert RemoteTokens(r) == ["remote", r.host, IntText(port), r.proto];
      } else {
        PutWords(["remote", r.host, IntText(port)]);
        assert RemoteTokens(r) == ["remote", r.host, IntText(port)];
      }
    }

    /** renderClient; false when there is no remote. */
    method WriteClient(remotes: seq<Remote>) returns (ok: bool)
      requires Valid()
      modifies this
      ensures Valid() && ok == (remotes != [])
      ensures ok ==> lines == ClientPart(old(lines), remotes)
    {
      PutWords(["client"]);
      PutWords(["tls-client"]);
      PutWords(["nobind"]);
      PutWords(["remote-cert-tls", "server"]);
      PutWords(["resolv-retry", "infinite"]);
      if |remotes| == 0 { return false; }
      PutRemotes(remotes);
      return true;
    }

    method WriteClientCrypto(s: Server)
      requires Valid()
      modifies this
      ensures Valid() && lines == ClientCrypto(old(lines), s)
    {
      if s.staticKeyMode {
        PutOpt("secret", s.staticKey);
      } else {
        PutOpt("ca", s.ca);
        PutOpt("cert", s.cert);
        PutOpt("key", s.key);
        PutOpt("tls-crypt", s.tlsCrypt);
        PutOpt("tls-auth", s.staticKey);
      }
    }

    method WriteLogin(c: ClientConf)
      requires Valid()
      modifies this
      ensures Valid() && lines == Login(old(lines), c)
    {
      if TrimSpace(c.userPassFile) != "" {
        PutWords(["auth-user-pass", TrimSpace(c.userPassFile)]);
      } else {
        PutIf(c.userPass, ["auth-user-pass"]);
      }
    }

    method WriteClientShaper(s: Server)
      requires Valid()
      modifies this
      ensures Valid() && lines == ClientShaper(old(lines), s)
    {
      if s.shaper > 0 {
        Put(Comment(""));
        Put(Comment(CLIENT_SHAPER_TITLE));
        PutWords(["shaper", Decimal(s.shaper)]);
      }
    }
  }

  /** RenderInstanceOpts for a server. */
  method Render(s: Server) returns (text: Option<string>)
    ensures text == Rendered(s)
  {
    var b := new Builder();
    b.WriteHead(s);
    var ok := b.WriteServer(s);
    if !ok { return None; }
    b.WriteCrypto(s);
    b.WriteCiphers(s);
    b.WriteBuffers(s);
    b.WriteVerify(s);
    b.WriteDaemon(s);
    b.WriteShaper(s);
    return Some(b.text);
  }

  /** RenderInstanceOpts for a client. */
  method RenderClient(c: ClientConf) returns (text: Option<string>)
    ensures text == RenderedClient(c)
  {
    var b := new Builder();
    b.WriteClientHead(c.base);
    var ok := b.WriteClient(c.remotes);
    if !ok { return None; }
    b.WriteClientCrypto(c.base);
    b.WriteCiphers(c.base);
    b.WriteBuffers(c.base);
    b.WriteLogin(c);
    b.WriteDaemon(c.base);
    b.WriteClientShaper(c.base);
    return Some(b.text);
  }
}
