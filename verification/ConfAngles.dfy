/** Settings without '<' render to a text without inline blocks. */
module ConfAngles {
  import opened Text
  import opened Addresses
  import opened Blocks
  import opened Inline
  import opened ConfImport
  import opened ConfGen
  import opened ConfNames
  import opened ConfSections
  import opened ConfResult
  import Fields

  /** No '<' in the text. */
  predicate Plain(t: string) { Lacks(t, '<') }

  ghost predicate AllPlain(ts: seq<string>) { forall i :: 0 <= i < |ts| ==> Plain(ts[i]) }

  predicate FieldsPlain(s: Server) {
    && Plain(s.device) && Plain(s.proto) && Plain(s.localBind) && Plain(s.serverIpv6) && Plain(s.topology)
    && Plain(s.poolStart) && Plain(s.poolEnd) && Plain(s.pushDomain) && Plain(s.cipher) && Plain(s.dataCiphers)
    && Plain(s.authDigest) && Plain(s.tlsVersionMin) && Plain(s.tlsCipher) && Plain(s.tlsCiphersuites)
    && Plain(s.tlsGroups) && Plain(s.tlsCertProfile) && Plain(s.ifconfigIpv6) && Plain(s.authVerify)
  }

  predicate PathsPlain(s: Server) {
    && Plain(s.staticKey) && Plain(s.ca) && Plain(s.cert) && Plain(s.key) && Plain(s.dh) && Plain(s.tlsCrypt)
    && Plain(s.crl) && Plain(s.ccdDir) && Plain(s.tmpDir) && Plain(s.pidFile) && Plain(s.statusFile) && Plain(s.mgmtSock)
  }

  /** No setting holds a '<'. */
  ghost predicate AngleFree(s: Server) {
    && Plain(s.name) && FieldsPlain(s) && PathsPlain(s) && AllPlain(s.pushRoutes) && AllPlain(s.pushDns)
    && forall i :: 0 <= i < |s.plugins| ==> Plain(s.plugins[i].path) && AllPlain(s.plugins[i].args)
  }

  // ---- texts ----

  lemma NameIsPlain(name: string)
    requires NameOk(name)
    ensures Plain(name)
  {
    forall i | 0 <= i < |name| ensures name[i] != '<' { assert TagChar(name[i]); }
  }

  lemma DecimalPlain(n: nat)
    ensures Plain(Decimal(n))
  {
    DecimalParses(n);
    forall i | 0 <= i < |Decimal(n)| ensures Decimal(n)[i] != '<' { assert IsDigit(Decimal(n)[i]); }
  }

  lemma {:induction false} TrimPlain(t: string)
    requires Plain(t)
    ensures Plain(TrimSpace(t))
  {
    TrimLeftPlain(t);
    TrimRightPlain(TrimLeft(t));
  }

  lemma {:induction false} TrimLeftPlain(t: string)
    requires Plain(t)
    ensures Plain(TrimLeft(t))
  {
    if t != "" && IsSpace(t[0]) { TrimLeftPlain(t[1..]); }
  }

  lemma {:induction false} TrimRightPlain(t: string)
    requires Plain(t)
    ensures Plain(TrimRight(t))
  {
    if t != "" && IsSpace(t[|t| - 1]) { TrimRightPlain(t[..|t| - 1]); }
  }

  lemma {:induction false} JoinPlain(ts: seq<string>)
    requires AllPlain(ts)
    ensures Plain(Join(ts, ' '))
  {
    if |ts| > 1 {
      JoinPlain(ts[1..]);
      assert Plain(ts[0]) && Plain([' ']);
    }
  }

  lemma {:induction false} EscapedPlain(a: string)
    requires Plain(a)
    ensures Plain(Fields.Escaped(a))
  {
    if a != "" { EscapedPlain(a[1..]); }
  }

  lemma QuotePlain(a: string)
    requires Plain(a)
    ensures Plain(ArgText(a))
  {
    EscapedPlain(a);
  }

  lemma {:induction false} ArgsPlain(args: seq<string>)
    requires AllPlain(args)
    ensures Plain(ArgsText(args))
  {
    if args != [] {
      ArgsPlain(args[..|args| - 1]);
      QuotePlain(args[|args| - 1]);
    }
  }

  lemma IpPlain(ip: Ip)
    ensures Plain(IpText(ip))
  {
    IpTextChars(ip);
  }

  lemma NetworkPlain(cidr: string)
    requires NetAndMask(cidr).Some?
    ensures var nm := NetAndMask(cidr).value; Plain(nm.0) && Plain(nm.1)
  {
    var c := ParseCidr(TrimSpace(cidr)).value.1;
    IpPlain(c.net);
    ParsedIsValid(TrimSpace(cidr));
    IpPlain(MaskIp(c.prefix));
  }

  // ---- lines ----

  ghost predicate Free(acc: seq<Line>) { forall i :: 0 <= i < |acc| ==> Plain(LineText(acc[i])) }

  lemma FreeAdd(acc: seq<Line>, tokens: seq<string>)
    requires Free(acc) && AllPlain(tokens)
    ensures Free(Add(acc, tokens))
  {
    JoinPlain(tokens);
  }

  lemma FreeWord(acc: seq<Line>, name: string, v: string)
    requires Free(acc) && NameOk(name) && Plain(v)
    ensures Free(Add(acc, [name, v]))
  {
    NameIsPlain(name);
    FreeAdd(acc, [name, v]);
  }

  lemma FreeTwo(acc: seq<Line>, name: string, v: string, w: string)
    requires Free(acc) && NameOk(name) && Plain(v) && Plain(w)
    ensures Free(Add(acc, [name, v, w]))
  {
    NameIsPlain(name);
    FreeAdd(acc, [name, v, w]);
  }

  lemma FreeBare(acc: seq<Line>, name: string)
    requires Free(acc) && NameOk(name)
    ensures Free(Add(acc, [name]))
  {
    NameIsPlain(name);
    FreeAdd(acc, [name]);
  }

  lemma FreeOpt(acc: seq<Line>, name: string, v: string)
    requires Free(acc) && NameOk(name) && Plain(v)
    ensures Free(AddOpt(acc, name, v))
  {
    FreeWord(acc, name, v);
  }

  lemma FreeInt(acc: seq<Line>, name: string, n: int)
    requires Free(acc) && NameOk(name)
    ensures Free(AddInt(acc, name, n))
  {
    if n > 0 {
      DecimalPlain(n);
      FreeWord(acc, name, Decimal(n));
    }
  }

  lemma FreePush(acc: seq<Line>, on: bool, option: seq<string>)
    requires Free(acc) && AllPlain(option)
    ensures Free(AddPush(acc, on, option))
  {
    JoinPlain(option);
    assert Plain("push \"") && Plain("\"");
  }

  lemma FreeComment(acc: seq<Line>, text: string)
    requires Free(acc) && Plain(text)
    ensures Free(acc + [Comment(text)])
  {
  }

  // ---- sections ----

  lemma GeneratedPlain()
    ensures Plain(GENERATED)
  {
    assert Plain("# Generated by openvpnd ") && Plain("\U{2014} do not edit by hand");
  }

  lemma FreeHeader(s: Server)
    requires Plain(s.name)
    ensures Free(Header([], s))
  {
    GeneratedPlain();
    assert Plain("# instance=") && Plain(" role=server");
  }

  lemma PluginPlain(p: Plugin)
    requires Plain(p.path) && AllPlain(p.args)
    ensures Plain(LineText(PluginLine(p)))
  {
    ArgsPlain(p.args);
    assert Plain("plugin ");
  }

  lemma {:induction false} FreePlugins(acc: seq<Line>, plugins: seq<Plugin>)
    requires Free(acc) && forall i :: 0 <= i < |plugins| ==> Plain(plugins[i].path) && AllPlain(plugins[i].args)
    ensures Free(PluginLines(acc, plugins))
  {
    if plugins != [] {
      FreePlugins(acc, plugins[..|plugins| - 1]);
      PluginPlain(plugins[|plugins| - 1]);
    }
  }

  lemma RouteWordPlain() ensures Plain("route") {}
  lemma DhcpWordsPlain() ensures Plain("dhcp-option") && Plain("DNS") && Plain("DOMAIN") {}
  lemma GatewayWordsPlain() ensures Plain("redirect-gateway") && Plain("def1") && Plain("bypass-dhcp") {}

  lemma RouteOptionPlain(r: string)
    requires Plain(r)
    ensures AllPlain(RouteOption(r))
  {
    RouteWordPlain();
    if NetAndMask(r).Some? { NetworkPlain(r); }
  }

  lemma {:induction false} FreeRoutes(acc: seq<Line>, routes: seq<string>)
    requires Free(acc) && AllPlain(routes)
    ensures Free(Routes(acc, routes))
  {
    if routes != [] {
      var init, r := routes[..|routes| - 1], TrimSpace(routes[|routes| - 1]);
      FreeRoutes(acc, init);
      TrimPlain(routes[|routes| - 1]);
      RouteOptionPlain(r);
      FreePush(Routes(acc, init), r != "", RouteOption(r));
    }
  }

  lemma {:induction false} FreeDns(acc: seq<Line>, dns: seq<string>)
    requires Free(acc) && AllPlain(dns)
    ensures Free(Dns(acc, dns))
  {
    if dns != [] {
      var init, d := dns[..|dns| - 1], TrimSpace(dns[|dns| - 1]);
      FreeDns(acc, init);
      TrimPlain(dns[|dns| - 1]);
      DhcpWordsPlain();
      FreePush(Dns(acc, init), d != "", ["dhcp-option", "DNS", d]);
    }
  }

  lemma FreePushes(acc: seq<Line>, s: Server)
    requires Free(acc) && AllPlain(s.pushRoutes) && AllPlain(s.pushDns) && Plain(s.pushDomain)
    ensures Free(Pushes(acc, s))
  {
    FreeRoutes(acc, s.pushRoutes);
    FreeDns(Routes(acc, s.pushRoutes), s.pushDns);
    DhcpWordsPlain(); GatewayWordsPlain();
    var a := Dns(Routes(acc, s.pushRoutes), s.pushDns);
    FreePush(a, s.pushDomain != "", ["dhcp-option", "DOMAIN", s.pushDomain]);
    FreePush(AddPush(a, s.pushDomain != "", ["dhcp-option", "DOMAIN", s.pushDomain]), s.redirectGateway, ["redirect-gateway", "def1", "bypass-dhcp"]);
  }

  lemma ShaperTitlePlain()
    ensures Plain(SHAPER_TITLE)
  {
    assert Plain("# bandwidth_enforcement=") && Plain("shaper (outgoing only; role=server)");
  }

  lemma FreeShaper(acc: seq<Line>, s: Server)
    requires Free(acc)
    ensures Free(Shaper(acc, s))
  {
    if s.shaper > 0 {
      ShaperTitlePlain();
      FreeComment(acc, "");
      FreeComment(acc + [Comment("")], SHAPER_TITLE);
      DecimalPlain(s.shaper);
      IsShaper();
      FreeWord(acc + [Comment("")] + [Comment(SHAPER_TITLE)], "shaper", Decimal(s.shaper));
    }
  }

  lemma FreeDevice(acc: seq<Line>, s: Server)
    requires Free(acc) && DevTypeOk(s) && Plain(s.device)
    ensures Free(Device(acc, s))
  {
    var dev := Or(s.devType, "tun");
    TunOk(); TapOk(); IsDev(); IsDevType();
    NameIsPlain(dev);
    if s.device != "" {
      FreeWord(acc, "dev", s.device);
      FreeWord(Add(acc, ["dev", s.device]), "dev-type", dev);
    } else {
      FreeWord(acc, "dev", dev);
    }
  }

  lemma FreeBind(acc: seq<Line>, s: Server)
    requires Free(acc) && Plain(s.proto) && Plain(s.localBind)
    ensures Free(Bind(acc, s))
  {
    var proto := Or(s.proto, "udp");
    UdpOk(); NameIsPlain("udp"); IsProto(); IsLocal(); IsMultihome();
    FreeWord(acc, "proto", proto);
    var a := Add(acc, ["proto", proto]);
    if s.localBind != "" { FreeWord(a, "local", s.localBind); } else { FreeBare(a, "multihome"); }
  }

  lemma FreeRole(acc: seq<Line>, s: Server)
    requires Free(acc)
    ensures Free(Role(acc, s))
  {
    var port := Decimal(if s.port == 0 then 1194 else s.port);
    DecimalPlain(if s.port == 0 then 1194 else s.port);
    ServerWordOk(); NameIsPlain("server"); IsPort(); IsMode(); IsTlsServer();
    FreeWord(acc, "port", port);
    FreeWord(Add(acc, ["port", port]), "mode", "server");
    FreeBare(Add(Add(acc, ["port", port]), ["mode", "server"]), "tls-server");
  }

  lemma FreeNet(acc: seq<Line>, s: Server)
    requires Free(acc) && Renderable(s)
    ensures Free(Net(acc, s))
  {
    if s.serverNetwork != "" {
      NetworkPlain(s.serverNetwork);
      IsServer();
      var nm := NetAndMask(s.serverNetwork).value;
      FreeTwo(acc, "server", nm.0, nm.1);
    }
  }

  lemma FreePool(acc: seq<Line>, s: Server)
    requires Free(acc) && Plain(s.serverIpv6) && Plain(s.topology) && Plain(s.poolStart) && Plain(s.poolEnd) && Plain(s.ccdDir)
    ensures Free(Pool(acc, s))
  {
    SubnetOk(); NameIsPlain("subnet");
    IsServerIpv6(); IsTopology(); IsIfconfigPool(); IsMaxClients(); IsClientConfigDir(); IsCcdExclusive();
    FreeOpt(acc, "server-ipv6", s.serverIpv6);
    var a := AddOpt(acc, "server-ipv6", s.serverIpv6);
    FreeWord(a, "topology", Or(s.topology, "subnet"));
    var b := Add(a, ["topology", Or(s.topology, "subnet")]);
    if s.poolStart != "" && s.poolEnd != "" { FreeTwo(b, "ifconfig-pool", s.poolStart, s.poolEnd); }
    var c := AddIf(b, s.poolStart != "" && s.poolEnd != "", ["ifconfig-pool", s.poolStart, s.poolEnd]);
    FreeInt(c, "max-clients", s.maxClients);
    var d := AddInt(c, "max-clients", s.maxClients);
    FreeWord(d, "client-config-dir", s.ccdDir);
    FreeBare(Add(d, ["client-config-dir", s.ccdDir]), "ccd-exclusive");
  }

  lemma FreeThree(acc: seq<Line>, a: string, v: string, b: string, w: string, c: string, x: string)
    requires Free(acc) && Plain(v) && Plain(w) && Plain(x)
    requires NameOk(a) && NameOk(b) && NameOk(c)
    ensures Free(AddOpt(AddOpt(AddOpt(acc, a, v), b, w), c, x))
  {
    FreeOpt(acc, a, v);
    FreeOpt(AddOpt(acc, a, v), b, w);
    FreeOpt(AddOpt(AddOpt(acc, a, v), b, w), c, x);
  }

  lemma FreeKeys(acc: seq<Line>, ca: string, cert: string, key: string, dh: string)
    requires Free(acc) && Plain(ca) && Plain(cert) && Plain(key) && Plain(dh)
    ensures Free(Add(AddOpt(AddOpt(AddOpt(acc, "ca", ca), "cert", cert), "key", key), ["dh", Or(dh, "none")]))
  {
    IsCa(); IsCert(); IsKey(); IsDh(); NoneOk(); NameIsPlain("none");
    FreeThree(acc, "ca", ca, "cert", cert, "key", key);
    FreeWord(AddOpt(AddOpt(AddOpt(acc, "ca", ca), "cert", cert), "key", key), "dh", Or(dh, "none"));
  }

  lemma FreeTlsKeys(acc: seq<Line>, tlsCrypt: string, staticKey: string, crl: string)
    requires Free(acc) && Plain(tlsCrypt) && Plain(staticKey) && Plain(crl)
    ensures Free(AddOpt(AddOpt(AddOpt(acc, "tls-crypt", tlsCrypt), "tls-auth", staticKey), "crl-verify", crl))
  {
    IsTlsCrypt(); IsTlsAuth(); IsCrlVerify();
    FreeThree(acc, "tls-crypt", tlsCrypt, "tls-auth", staticKey, "crl-verify", crl);
  }

  lemma FreeCrypto(acc: seq<Line>, s: Server)
    requires Free(acc) && PathsPlain(s)
    ensures Free(Crypto(acc, s))
  {
    if s.staticKeyMode {
      IsSecret();
      FreeOpt(acc, "secret", s.staticKey);
    } else {
      FreeKeys(acc, s.ca, s.cert, s.key, s.dh);
      FreeTlsKeys(Add(AddOpt(AddOpt(AddOpt(acc, "ca", s.ca), "cert", s.cert), "key", s.key), ["dh", Or(s.dh, "none")]),
                  s.tlsCrypt, s.staticKey, s.crl);
    }
  }

  lemma FreeCiphers(acc: seq<Line>, s: Server)
    requires Free(acc) && FieldsPlain(s)
    ensures Free(Ciphers(acc, s))
  {
    IsCipher(); IsDataCiphers(); IsAuth(); IsTlsVersionMin();
    FreeThree(acc, "cipher", s.cipher, "data-ciphers", s.dataCiphers, "auth", s.authDigest);
    FreeOpt(AddOpt(AddOpt(AddOpt(acc, "cipher", s.cipher), "data-ciphers", s.dataCiphers), "auth", s.authDigest), "tls-version-min", s.tlsVersionMin);
  }

  lemma FreeTls(acc: seq<Line>, s: Server)
    requires Free(acc) && FieldsPlain(s)
    ensures Free(Tls(acc, s))
  {
    IsTlsCipher(); IsTlsCiphersuites(); IsTlsGroups(); IsTlsCertProfile();
    FreeThree(acc, "tls-cipher", s.tlsCipher, "tls-ciphersuites", s.tlsCiphersuites, "tls-groups", s.tlsGroups);
    FreeOpt(AddOpt(AddOpt(AddOpt(acc, "tls-cipher", s.tlsCipher), "tls-ciphersuites", s.tlsCiphersuites), "tls-groups", s.tlsGroups), "tls-cert-profile", s.tlsCertProfile);
  }

  lemma FreeBuffers(acc: seq<Line>, s: Server)
    requires Free(acc) && Plain(s.ifconfigIpv6)
    ensures Free(Buffers(acc, s))
  {
    IsTunMtu(); IsSndbuf(); IsRcvbuf(); IsIfconfigIpv6();
    FreeInt(acc, "tun-mtu", s.tunMtu);
    var a := AddInt(acc, "tun-mtu", s.tunMtu);
    FreeInt(a, "sndbuf", s.sndbuf);
    FreeInt(AddInt(a, "sndbuf", s.sndbuf), "rcvbuf", s.rcvbuf);
    FreeOpt(AddInt(AddInt(a, "sndbuf", s.sndbuf), "rcvbuf", s.rcvbuf), "ifconfig-ipv6", s.ifconfigIpv6);
  }

  lemma FreeVerify(acc: seq<Line>, s: Server)
    requires Free(acc) && Plain(s.authVerify)
    ensures Free(Verify(acc, s))
  {
    var script := TrimSpace(s.authVerify);
    TrimPlain(s.authVerify);
    if script != "" {
      var sec := if s.scriptSecurity == 0 then 2 else s.scriptSecurity;
      var how := if sec >= 2 then "via-env" else "via-file";
      SkipsScriptSecurity(); IsAuthUserPassVerify(); IsUsernameAsCommonName();
      EnvOk(); FileOk(); NameIsPlain(how);
      DecimalPlain(sec);
      FreeWord(acc, "script-security", Decimal(sec));
      var a := Add(acc, ["script-security", Decimal(sec)]);
      FreeTwo(a, "auth-user-pass-verify", script, how);
      FreeBare(Add(a, ["auth-user-pass-verify", script, how]), "username-as-common-name");
    }
  }

  lemma FreeDaemon(acc: seq<Line>, s: Server)
    requires Free(acc) && PathsPlain(s)
    ensures Free(Daemon(acc, s))
  {
    TenOk(); SixtyOk(); NameIsPlain("10"); NameIsPlain("60");
    SkipsKeepalive(); SkipsPersistKey(); SkipsPersistTun();
    FreeTwo(acc, "keepalive", "10", "60");
    FreeBare(Add(acc, ["keepalive", "10", "60"]), "persist-key");
    FreeBare(Add(Add(acc, ["keepalive", "10", "60"]), ["persist-key"]), "persist-tun");
    var a := Add(Add(Add(acc, ["keepalive", "10", "60"]), ["persist-key"]), ["persist-tun"]);
    FreeFiles(a, s);
    var b := Add(Add(Add(a, ["tmp-dir", s.tmpDir]), ["writepid", s.pidFile]), ["status", s.statusFile, "1"]);
    FreeManagement(b, s);
  }

  lemma FreeFiles(acc: seq<Line>, s: Server)
    requires Free(acc) && PathsPlain(s)
    ensures Free(Add(Add(Add(acc, ["tmp-dir", s.tmpDir]), ["writepid", s.pidFile]), ["status", s.statusFile, "1"]))
  {
    IsTmpDir(); SkipsWritepid(); SkipsStatus(); OneOk(); NameIsPlain("1");
    FreeWord(acc, "tmp-dir", s.tmpDir);
    FreeWord(Add(acc, ["tmp-dir", s.tmpDir]), "writepid", s.pidFile);
    FreeTwo(Add(Add(acc, ["tmp-dir", s.tmpDir]), ["writepid", s.pidFile]), "status", s.statusFile, "1");
  }

  lemma FreeManagement(acc: seq<Line>, s: Server)
    requires Free(acc) && PathsPlain(s)
    ensures Free(Add(Add(Add(acc, ["management", s.mgmtSock, "unix"]), ["management-client-user", "root"]), ["verb", "2"]))
  {
    SkipsManagement(); SkipsManagementClientUser(); SkipsVerb();
    UnixOk(); RootOk(); VerbOk(); NameIsPlain("unix"); NameIsPlain("root"); NameIsPlain("2");
    FreeTwo(acc, "management", s.mgmtSock, "unix");
    FreeWord(Add(acc, ["management", s.mgmtSock, "unix"]), "management-client-user", "root");
    FreeWord(Add(Add(acc, ["management", s.mgmtSock, "unix"]), ["management-client-user", "root"]), "verb", "2");
  }

  lemma FreeConf(s: Server)
    requires ServerOk(s) && AngleFree(s)
    ensures Free(ConfLines(s))
  {
    var h := PluginLines(Header([], s), s.plugins);
    FreeHeader(s);
    FreePlugins(Header([], s), s.plugins);
    FreeDevice(h, s);
    FreeBind(Device(h, s), s);
    var a := Bind(Device(h, s), s);
    FreeServerPart(a, s);
    FreeTail(ServerPart(a, s), s);
  }

  lemma FreeServerPart(acc: seq<Line>, s: Server)
    requires Free(acc) && ServerOk(s) && AngleFree(s)
    ensures Free(ServerPart(acc, s))
  {
    FreeRole(acc, s);
    FreeNet(Role(acc, s), s);
    FreePool(Net(Role(acc, s), s), s);
    var p := Pool(Net(Role(acc, s), s), s);
    FreePushes(p, s);
    IsDuplicateCn();
    FreeBare(Pushes(p, s), "duplicate-cn");
  }

  lemma FreeTail(acc: seq<Line>, s: Server)
    requires Free(acc) && FieldsPlain(s) && PathsPlain(s)
    ensures Free(Tail(acc, s))
  {
    FreeCrypto(acc, s);
    FreeCiphers(Crypto(acc, s), s);
    FreeTls(Ciphers(Crypto(acc, s), s), s);
    FreeEnd(Tls(Ciphers(Crypto(acc, s), s), s), s);
  }

  lemma FreeEnd(acc: seq<Line>, s: Server)
    requires Free(acc) && FieldsPlain(s) && PathsPlain(s)
    ensures Free(Shaper(Daemon(Verify(Buffers(acc, s), s), s), s))
  {
    FreeBuffers(acc, s);
    FreeVerify(Buffers(acc, s), s);
    FreeDaemon(Verify(Buffers(acc, s), s), s);
    FreeShaper(Daemon(Verify(Buffers(acc, s), s), s), s);
  }

  lemma {:induction false} FreeText(lines: seq<Line>)
    requires Free(lines)
    ensures Plain(ConfText(lines))
  {
    if lines != [] {
      FreeText(lines[..|lines| - 1]);
      assert Plain(LineText(lines[|lines| - 1])) && Plain("\n");
    }
  }

  lemma StartsWithAngle(text: string, low: string, tag: string, i: nat)
    requires low == ToLower(text) && Occurs(low, OpenTag(tag), i)
    ensures i < |text| && text[i] == '<'
  {
    assert low[i..i + |OpenTag(tag)|][0] == low[i];
  }

  /** A text without '<' has none. */
  lemma NoAngleNoInline(text: string)
    requires Lacks(text, '<')
    ensures NoInline(text)
  {
    var low := ToLower(text);
    forall t: nat, i: nat, j: nat | t < |TAGS| ensures !BlockAt(low, TAGS[t], i, j) {
      if Occurs(low, OpenTag(TAGS[t]), i) { StartsWithAngle(text, low, TAGS[t], i); }
    }
  }

  /** Settings without '<' render to a text without inline blocks, so importing it gives them back. */
  lemma AngleFreeIsUndone(s: Server)
    requires ServerOk(s) && AngleFree(s)
    ensures NoInline(ConfText(ConfLines(s))) && Parsed(ConfText(ConfLines(s))) == Undone(s)
  {
    FreeConf(s);
    FreeText(ConfLines(s));
    NoAngleNoInline(ConfText(ConfLines(s)));
    ImportUndoesRender(s);
  }
}
