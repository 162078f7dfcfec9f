/** Importing a rendered server conf gives back what it was rendered from. */
module ConfResult {
  import opened Wrappers
  import opened Text
  import opened Inline
  import opened ConfImport
  import opened ConfGen
  import opened ConfNames
  import opened ConfRoundTrip
  import opened ConfSections
  import opened ConfExtras

  const INT64 := 0x8000_0000_0000_0000

  /** Empty, or without blanks, quotes and '#'. */
  predicate FieldOk(v: string) { v == "" || WordOk(v) }

  /** Its arguments survive quoting, and no '#' in them starts a comment. */
  predicate PluginOk(p: Plugin) { p.path == "" || (WordOk(p.path) && ArgsOk(p.args) && Unhashed(LineText(PluginLine(p)))) }

  /** The settings for which a conf is rendered and read back as it was. */
  predicate ServerOk(s: Server) {
    && Renderable(s) && DevTypeOk(s) && Lacks(s.name, '\n')
    && (forall i :: 0 <= i < |s.plugins| ==> PluginOk(s.plugins[i]))
    && RoutesOk(s.pushRoutes) && DnsOk(s.pushDns) && FieldOk(TrimSpace(s.authVerify))
    && FieldsOk(s) && PathsOk(s)
    && s.port < INT64 && s.maxClients < INT64 && s.tunMtu < INT64 && s.sndbuf < INT64 && s.rcvbuf < INT64
  }

  predicate FieldsOk(s: Server) {
    && FieldOk(s.device) && FieldOk(s.proto) && FieldOk(s.localBind) && FieldOk(s.serverIpv6) && FieldOk(s.topology)
    && FieldOk(s.poolStart) && FieldOk(s.poolEnd) && FieldOk(s.pushDomain) && FieldOk(s.cipher) && FieldOk(s.dataCiphers)
    && FieldOk(s.authDigest) && FieldOk(s.tlsVersionMin) && FieldOk(s.tlsCipher) && FieldOk(s.tlsCiphersuites)
    && FieldOk(s.tlsGroups) && FieldOk(s.tlsCertProfile) && FieldOk(s.ifconfigIpv6)
  }

  predicate PathsOk(s: Server) {
    && FieldOk(s.staticKey) && FieldOk(s.ca) && FieldOk(s.cert) && FieldOk(s.key) && FieldOk(s.dh) && FieldOk(s.tlsCrypt)
    && FieldOk(s.crl) && WordOk(s.ccdDir) && WordOk(s.tmpDir) && WordOk(s.pidFile) && WordOk(s.statusFile) && WordOk(s.mgmtSock)
  }

  // ---- every rendered line is read as one ----

  lemma NameIsWord(name: string)
    requires NameOk(name)
    ensures WordOk(name) && name[0] != ';' && ToLower(name) == name
  {
    NameStays(name);
    forall i | 0 <= i < |name| ensures PlainChar(name[i]) { assert TagChar(name[i]); }
    assert TagChar(name[0]);
  }

  lemma DecimalWord(n: nat)
    ensures WordOk(Decimal(n))
  {
    DecimalParses(n);
    forall i | 0 <= i < |Decimal(n)| ensures PlainChar(Decimal(n)[i]) { assert IsDigit(Decimal(n)[i]); }
  }

  lemma OkAdd(acc: seq<Line>, tokens: seq<string>)
    requires LinesOk(acc) && |tokens| >= 1 && NameOk(tokens[0]) && tokens[0] != "setenv" && WordsOk(tokens[1..])
    ensures LinesOk(Add(acc, tokens))
  {
    NameIsWord(tokens[0]);
    forall i | 0 <= i < |tokens| ensures WordOk(tokens[i]) { if i > 0 { assert tokens[i] == tokens[1..][i - 1]; } }
    assert LineOk(Words(tokens));
  }

  lemma OkWord(acc: seq<Line>, name: string, v: string)
    requires LinesOk(acc) && NameOk(name) && name != "setenv" && WordOk(v)
    ensures LinesOk(Add(acc, [name, v]))
  {
    OkAdd(acc, [name, v]);
  }

  lemma OkTwo(acc: seq<Line>, name: string, v: string, w: string)
    requires LinesOk(acc) && NameOk(name) && name != "setenv" && WordOk(v) && WordOk(w)
    ensures LinesOk(Add(acc, [name, v, w]))
  {
    OkAdd(acc, [name, v, w]);
  }

  lemma OkBare(acc: seq<Line>, name: string)
    requires LinesOk(acc) && NameOk(name) && name != "setenv"
    ensures LinesOk(Add(acc, [name]))
  {
    OkAdd(acc, [name]);
  }

  lemma OkOpt(acc: seq<Line>, name: string, v: string)
    requires LinesOk(acc) && NameOk(name) && name != "setenv" && FieldOk(v)
    ensures LinesOk(AddOpt(acc, name, v))
  {
    if v != "" { OkWord(acc, name, v); }
  }

  lemma OkInt(acc: seq<Line>, name: string, n: int)
    requires LinesOk(acc) && NameOk(name) && name != "setenv"
    ensures LinesOk(AddInt(acc, name, n))
  {
    if n > 0 {
      DecimalWord(n);
      OkWord(acc, name, Decimal(n));
    }
  }

  lemma OkPush(acc: seq<Line>, on: bool, option: seq<string>)
    requires LinesOk(acc) && (on ==> LineOk(PushLine(option)))
    ensures LinesOk(AddPush(acc, on, option))
  {
  }

  lemma OkPushWords(acc: seq<Line>, on: bool, option: seq<string>)
    requires LinesOk(acc) && (on ==> |option| >= 1 && WordsOk(option))
    ensures LinesOk(AddPush(acc, on, option))
  {
    if on { WordsPush(option); }
  }

  lemma OkComment(acc: seq<Line>, text: string)
    requires LinesOk(acc) && LineOk(Comment(text))
    ensures LinesOk(acc + [Comment(text)])
  {
  }

  lemma TunOk() ensures NameOk("tun") {}
  lemma TapOk() ensures NameOk("tap") {}
  lemma UdpOk() ensures NameOk("udp") {}
  lemma ServerWordOk() ensures NameOk("server") {}
  lemma NoneOk() ensures NameOk("none") {}
  lemma SubnetOk() ensures NameOk("subnet") {}
  lemma EnvOk() ensures NameOk("via-env") {}
  lemma FileOk() ensures NameOk("via-file") {}
  lemma UnixOk() ensures NameOk("unix") {}
  lemma RootOk() ensures NameOk("root") {}
  lemma TenOk() ensures NameOk("10") {}
  lemma SixtyOk() ensures NameOk("60") {}
  lemma OneOk() ensures NameOk("1") {}
  lemma VerbOk() ensures NameOk("2") {}

  lemma OkHeader(s: Server)
    requires Lacks(s.name, '\n')
    ensures LinesOk(Header([], s))
  {
    HeaderText();
    var text := "# instance=" + s.name + " role=server";
    assert Lacks("# instance=", '\n') && Lacks(" role=server", '\n');
    assert LineOk(Comment(text));
  }

  lemma HeaderText()
    ensures LineOk(Comment(GENERATED))
  {
    assert Lacks("# Generated by openvpnd ", '\n') && Lacks("\U{2014} do not edit by hand", '\n');
    CommentOk(GENERATED);
  }

  lemma CommentOk(text: string)
    requires Lacks(text, '\n') && text != "" && text[0] == '#'
    ensures LineOk(Comment(text))
  {
  }

  lemma {:induction false} OkPlugins(acc: seq<Line>, plugins: seq<Plugin>)
    requires LinesOk(acc) && forall i :: 0 <= i < |plugins| ==> PluginOk(plugins[i])
    ensures LinesOk(PluginLines(acc, plugins))
  {
    if plugins != [] {
      var init, p := plugins[..|plugins| - 1], plugins[|plugins| - 1];
      OkPlugins(acc, init);
      assert PluginOk(p);
      assert p.path != "" ==> LineOk(PluginLine(p));
    }
  }

  lemma OkDevice(acc: seq<Line>, s: Server)
    requires LinesOk(acc) && DevTypeOk(s) && FieldOk(s.device)
    ensures LinesOk(Device(acc, s))
  {
    var dev := Or(s.devType, "tun");
    TunOk(); TapOk(); IsDev(); IsDevType();
    NameIsWord(dev);
    if s.device != "" {
      OkWord(acc, "dev", s.device);
      OkWord(Add(acc, ["dev", s.device]), "dev-type", dev);
    } else {
      OkWord(acc, "dev", dev);
    }
  }

  lemma OkBind(acc: seq<Line>, s: Server)
    requires LinesOk(acc) && FieldOk(s.proto) && FieldOk(s.localBind)
    ensures LinesOk(Bind(acc, s))
  {
    var proto := Or(s.proto, "udp");
    UdpOk(); NameIsWord("udp"); IsProto(); IsLocal(); IsMultihome();
    OkWord(acc, "proto", proto);
    var a := Add(acc, ["proto", proto]);
    if s.localBind != "" { OkWord(a, "local", s.localBind); } else { OkBare(a, "multihome"); }
  }

  lemma OkRole(acc: seq<Line>, s: Server)
    requires LinesOk(acc)
    ensures LinesOk(Role(acc, s))
  {
    var port := Decimal(if s.port == 0 then 1194 else s.port);
    DecimalWord(if s.port == 0 then 1194 else s.port);
    ServerWordOk(); NameIsWord("server"); IsPort(); IsMode(); IsTlsServer();
    OkWord(acc, "port", port);
    OkWord(Add(acc, ["port", port]), "mode", "server");
    OkBare(Add(Add(acc, ["port", port]), ["mode", "server"]), "tls-server");
  }

  lemma OkNet(acc: seq<Line>, s: Server)
    requires LinesOk(acc) && Renderable(s)
    ensures LinesOk(Net(acc, s))
  {
    if s.serverNetwork != "" {
      NetworkRoundTrip(s.serverNetwork);
      IsServer();
      var nm := NetAndMask(s.serverNetwork).value;
      OkTwo(acc, "server", nm.0, nm.1);
    }
  }

  lemma OkPool(acc: seq<Line>, s: Server)
    requires LinesOk(acc) && FieldOk(s.serverIpv6) && FieldOk(s.topology) && FieldOk(s.poolStart) && FieldOk(s.poolEnd) && WordOk(s.ccdDir)
    ensures LinesOk(Pool(acc, s))
  {
    SubnetOk(); NameIsWord("subnet");
    IsServerIpv6(); IsTopology(); IsIfconfigPool(); IsMaxClients(); IsClientConfigDir(); IsCcdExclusive();
    OkOpt(acc, "server-ipv6", s.serverIpv6);
    var a := AddOpt(acc, "server-ipv6", s.serverIpv6);
    OkWord(a, "topology", Or(s.topology, "subnet"));
    var b := Add(a, ["topology", Or(s.topology, "subnet")]);
    if s.poolStart != "" && s.poolEnd != "" { OkTwo(b, "ifconfig-pool", s.poolStart, s.poolEnd); }
    var c := AddIf(b, s.poolStart != "" && s.poolEnd != "", ["ifconfig-pool", s.poolStart, s.poolEnd]);
    OkInt(c, "max-clients", s.maxClients);
    var d := AddInt(c, "max-clients", s.maxClients);
    OkWord(d, "client-config-dir", s.ccdDir);
    OkBare(Add(d, ["client-config-dir", s.ccdDir]), "ccd-exclusive");
  }

  lemma RouteOptionOk(r: string)
    requires PushOk(r) && r != ""
    ensures LineOk(PushLine(RouteOption(r)))
  {
    if !Lacks(r, '/') && NetAndMask(r).Some? {
      NetworkRoundTrip(r);
      RouteWords();
      WordsPush(RouteOption(r));
    } else {
      JoinTwo("route", r);
    }
  }

  lemma {:induction false} OkRoutes(acc: seq<Line>, routes: seq<string>)
    requires LinesOk(acc) && RoutesOk(routes)
    ensures LinesOk(Routes(acc, routes))
  {
    if routes != [] {
      var init, r := routes[..|routes| - 1], TrimSpace(routes[|routes| - 1]);
      OkRoutes(acc, init);
      assert PushOk(r);
      if r != "" {
        RouteOptionOk(r);
        OkPush(Routes(acc, init), true, RouteOption(r));
      }
    }
  }

  lemma {:induction false} OkDns(acc: seq<Line>, dns: seq<string>)
    requires LinesOk(acc) && DnsOk(dns)
    ensures LinesOk(Dns(acc, dns))
  {
    if dns != [] {
      var init, d := dns[..|dns| - 1], TrimSpace(dns[|dns| - 1]);
      OkDns(acc, init);
      if d != "" {
        DhcpWords();
        OptionNames();
        OkPushWords(Dns(acc, init), true, ["dhcp-option", "DNS", d]);
      }
    }
  }

  lemma OkPushes(acc: seq<Line>, s: Server)
    requires LinesOk(acc) && RoutesOk(s.pushRoutes) && DnsOk(s.pushDns) && FieldOk(s.pushDomain)
    ensures LinesOk(Pushes(acc, s))
  {
    OkRoutes(acc, s.pushRoutes);
    OkDns(Routes(acc, s.pushRoutes), s.pushDns);
    DhcpWords(); OptionNames(); GatewayWord(); GatewayArgs();
    var a := Dns(Routes(acc, s.pushRoutes), s.pushDns);
    OkPushWords(a, s.pushDomain != "", ["dhcp-option", "DOMAIN", s.pushDomain]);
    OkPushWords(AddPush(a, s.pushDomain != "", ["dhcp-option", "DOMAIN", s.pushDomain]), s.redirectGateway, ["redirect-gateway", "def1", "bypass-dhcp"]);
  }

  lemma OkThree(acc: seq<Line>, a: string, v: string, b: string, w: string, c: string, x: string)
    requires LinesOk(acc) && FieldOk(v) && FieldOk(w) && FieldOk(x)
    requires NameOk(a) && NameOk(b) && NameOk(c) && a != "setenv" && b != "setenv" && c != "setenv"
    ensures LinesOk(AddOpt(AddOpt(AddOpt(acc, a, v), b, w), c, x))
  {
    OkOpt(acc, a, v);
    OkOpt(AddOpt(acc, a, v), b, w);
    OkOpt(AddOpt(AddOpt(acc, a, v), b, w), c, x);
  }

  lemma OkCrypto(acc: seq<Line>, s: Server)
    requires LinesOk(acc) && PathsOk(s)
    ensures LinesOk(Crypto(acc, s))
  {
    if s.staticKeyMode {
      IsSecret();
      OkOpt(acc, "secret", s.staticKey);
    } else {
      IsCa(); IsCert(); IsKey(); IsDh(); IsTlsCrypt(); IsTlsAuth(); IsCrlVerify();
      NoneOk(); NameIsWord("none");
      OkThree(acc, "ca", s.ca, "cert", s.cert, "key", s.key);
      var a := AddOpt(AddOpt(AddOpt(acc, "ca", s.ca), "cert", s.cert), "key", s.key);
      OkWord(a, "dh", Or(s.dh, "none"));
      OkThree(Add(a, ["dh", Or(s.dh, "none")]), "tls-crypt", s.tlsCrypt, "tls-auth", s.staticKey, "crl-verify", s.crl);
    }
  }

  lemma OkCiphers(acc: seq<Line>, s: Server)
    requires LinesOk(acc) && FieldsOk(s)
    ensures LinesOk(Ciphers(acc, s))
  {
    IsCipher(); IsDataCiphers(); IsAuth(); IsTlsVersionMin();
    OkThree(acc, "cipher", s.cipher, "data-ciphers", s.dataCiphers, "auth", s.authDigest);
    OkOpt(AddOpt(AddOpt(AddOpt(acc, "cipher", s.cipher), "data-ciphers", s.dataCiphers), "auth", s.authDigest), "tls-version-min", s.tlsVersionMin);
  }

  lemma OkTls(acc: seq<Line>, s: Server)
    requires LinesOk(acc) && FieldsOk(s)
    ensures LinesOk(Tls(acc, s))
  {
    IsTlsCipher(); IsTlsCiphersuites(); IsTlsGroups(); IsTlsCertProfile();
    OkThree(acc, "tls-cipher", s.tlsCipher, "tls-ciphersuites", s.tlsCiphersuites, "tls-groups", s.tlsGroups);
    OkOpt(AddOpt(AddOpt(AddOpt(acc, "tls-cipher", s.tlsCipher), "tls-ciphersuites", s.tlsCiphersuites), "tls-groups", s.tlsGroups), "tls-cert-profile", s.tlsCertProfile);
  }

  lemma OkBuffers(acc: seq<Line>, s: Server)
    requires LinesOk(acc) && FieldOk(s.ifconfigIpv6)
    ensures LinesOk(Buffers(acc, s))
  {
    IsTunMtu(); IsSndbuf(); IsRcvbuf(); IsIfconfigIpv6();
    OkInt(acc, "tun-mtu", s.tunMtu);
    var a := AddInt(acc, "tun-mtu", s.tunMtu);
    OkInt(a, "sndbuf", s.sndbuf);
    OkInt(AddInt(a, "sndbuf", s.sndbuf), "rcvbuf", s.rcvbuf);
    OkOpt(AddInt(AddInt(a, "sndbuf", s.sndbuf), "rcvbuf", s.rcvbuf), "ifconfig-ipv6", s.ifconfigIpv6);
  }

  lemma OkVerify(acc: seq<Line>, s: Server)
    requires LinesOk(acc) && FieldOk(TrimSpace(s.authVerify))
    ensures LinesOk(Verify(acc, s))
  {
    var script := TrimSpace(s.authVerify);
    if script != "" {
      var sec := if s.scriptSecurity == 0 then 2 else s.scriptSecurity;
      var how := if sec >= 2 then "via-env" else "via-file";
      SkipsScriptSecurity(); IsAuthUserPassVerify(); IsUsernameAsCommonName();
      EnvOk(); FileOk(); NameIsWord(how);
      DecimalWord(sec);
      OkWord(acc, "script-security", Decimal(sec));
      var a := Add(acc, ["script-security", Decimal(sec)]);
      OkTwo(a, "auth-user-pass-verify", script, how);
      OkBare(Add(a, ["auth-user-pass-verify", script, how]), "username-as-common-name");
    }
  }

  lemma OkDaemon(acc: seq<Line>, s: Server)
    requires LinesOk(acc) && PathsOk(s)
    ensures LinesOk(Daemon(acc, s))
  {
    TenOk(); SixtyOk(); NameIsWord("10"); NameIsWord("60");
    SkipsKeepalive(); SkipsPersistKey(); SkipsPersistTun();
    OkTwo(acc, "keepalive", "10", "60");
    OkBare(Add(acc, ["keepalive", "10", "60"]), "persist-key");
    OkBare(Add(Add(acc, ["keepalive", "10", "60"]), ["persist-key"]), "persist-tun");
    var a := Add(Add(Add(acc, ["keepalive", "10", "60"]), ["persist-key"]), ["persist-tun"]);
    OkFiles(a, s);
    var b := Add(Add(Add(a, ["tmp-dir", s.tmpDir]), ["writepid", s.pidFile]), ["status", s.statusFile, "1"]);
    OkManagement(b, s);
  }

  lemma OkFiles(acc: seq<Line>, s: Server)
    requires LinesOk(acc) && PathsOk(s)
    ensures LinesOk(Add(Add(Add(acc, ["tmp-dir", s.tmpDir]), ["writepid", s.pidFile]), ["status", s.statusFile, "1"]))
  {
    IsTmpDir(); SkipsWritepid(); SkipsStatus(); OneOk(); NameIsWord("1");
    OkWord(acc, "tmp-dir", s.tmpDir);
    OkWord(Add(acc, ["tmp-dir", s.tmpDir]), "writepid", s.pidFile);
    OkTwo(Add(Add(acc, ["tmp-dir", s.tmpDir]), ["writepid", s.pidFile]), "status", s.statusFile, "1");
  }

  lemma OkManagement(acc: seq<Line>, s: Server)
    requires LinesOk(acc) && PathsOk(s)
    ensures LinesOk(Add(Add(Add(acc, ["management", s.mgmtSock, "unix"]), ["management-client-user", "root"]), ["verb", "2"]))
  {
    SkipsManagement(); SkipsManagementClientUser(); SkipsVerb();
    UnixOk(); RootOk(); VerbOk(); NameIsWord("unix"); NameIsWord("root"); NameIsWord("2");
    OkTwo(acc, "management", s.mgmtSock, "unix");
    OkWord(Add(acc, ["management", s.mgmtSock, "unix"]), "management-client-user", "root");
    OkWord(Add(Add(acc, ["management", s.mgmtSock, "unix"]), ["management-client-user", "root"]), "verb", "2");
  }

  lemma ShaperText()
    ensures LineOk(Comment(SHAPER_TITLE))
  {
    assert Lacks("# bandwidth_enforcement=", '\n') && Lacks("shaper (outgoing only; role=server)", '\n');
    CommentOk(SHAPER_TITLE);
  }

  lemma OkShaper(acc: seq<Line>, s: Server)
    requires LinesOk(acc)
    ensures LinesOk(Shaper(acc, s))
  {
    if s.shaper > 0 {
      ShaperText();
      OkComment(acc, "");
      OkComment(acc + [Comment("")], SHAPER_TITLE);
      DecimalWord(s.shaper);
      IsShaper();
      OkWord(acc + [Comment("")] + [Comment(SHAPER_TITLE)], "shaper", Decimal(s.shaper));
    }
  }

  lemma OkConf(s: Server)
    requires ServerOk(s)
    ensures LinesOk(ConfLines(s))
  {
    var h := PluginLines(Header([], s), s.plugins);
    OkHeader(s);
    OkPlugins(Header([], s), s.plugins);
    OkDevice(h, s);
    OkBind(Device(h, s), s);
    var a := Bind(Device(h, s), s);
    OkServerPart(a, s);
    OkTail(ServerPart(a, s), s);
  }

  lemma OkServerPart(acc: seq<Line>, s: Server)
    requires LinesOk(acc) && ServerOk(s)
    ensures LinesOk(ServerPart(acc, s))
  {
    OkRole(acc, s);
    OkNet(Role(acc, s), s);
    OkPool(Net(Role(acc, s), s), s);
    var p := Pool(Net(Role(acc, s), s), s);
    OkPushes(p, s);
    IsDuplicateCn();
    OkBare(Pushes(p, s), "duplicate-cn");
  }

  lemma OkTail(acc: seq<Line>, s: Server)
    requires LinesOk(acc) && ServerOk(s)
    ensures LinesOk(Tail(acc, s))
  {
    OkCrypto(acc, s);
    OkCiphers(Crypto(acc, s), s);
    OkTls(Ciphers(Crypto(acc, s), s), s);
    var t := Tls(Ciphers(Crypto(acc, s), s), s);
    OkBuffers(t, s);
    OkVerify(Buffers(t, s), s);
    OkDaemon(Verify(Buffers(t, s), s), s);
    OkShaper(Daemon(Verify(Buffers(t, s), s), s), s);
  }

  // ---- the settings read back ----

  /** What the import of a rendered server conf yields, in terms of what it was rendered from. */
  function ExpectedHead(s: Server): Conf {
    BLANK.(plugins := ImportedPlugins(s.plugins), devType := Or(s.devType, "tun"), device := ImportedDevice(s.device),
           proto := ToLower(Or(s.proto, "udp")), localBind := s.localBind)
  }

  function ExpectedServer(s: Server): Conf {
    ExpectedHead(s).(
      port := if s.port == 0 then 1194 else s.port, role := "server", sawServer := true,
      serverNetwork := ImportedNetwork(s.serverNetwork), serverIpv6 := s.serverIpv6, topology := ToLower(Or(s.topology, "subnet")),
      maxClients := if s.maxClients > 0 then s.maxClients else 0,
      pushRoutes := ImportedRoutes(s.pushRoutes), pushDns := ImportedDns(s.pushDns), pushDomain := s.pushDomain,
      redirectGateway := s.redirectGateway, pushExtra := KeptRoutes(s.pushRoutes))
  }

  function Expected(s: Server): Conf {
    WithKeys(ExpectedServer(s), s).(
      cipher := s.cipher, dataCiphers := s.dataCiphers, authDigest := s.authDigest, tlsVersionMin := s.tlsVersionMin,
      tunMtu := Positive(s.tunMtu), sndbuf := Positive(s.sndbuf), rcvbuf := Positive(s.rcvbuf))
  }

  lemma ReadsHeader(read: Reading, s: Server)
    requires Reader(read) && read([]) == BLANK
    ensures read(Header([], s)) == BLANK
  {
    var first := GENERATED;
    ReadsComment(read, [], first, BLANK);
    ReadsComment(read, [] + [Comment(first)], "# instance=" + s.name + " role=server", BLANK);
  }

  lemma ReadsHead(read: Reading, s: Server)
    requires Reader(read) && read([]) == BLANK && ServerOk(s)
    ensures read(Bind(Device(PluginLines(Header([], s), s.plugins), s), s)) == ExpectedHead(s)
  {
    var r1 := BLANK.(plugins := ImportedPlugins(s.plugins));
    var r2 := r1.(devType := Or(s.devType, "tun"), device := ImportedDevice(s.device));
    ReadsHeader(read, s);
    ReadsPlugins(read, Header([], s), s.plugins, BLANK);
    assert [] + ImportedPlugins(s.plugins) == ImportedPlugins(s.plugins);
    ReadsDevice(read, PluginLines(Header([], s), s.plugins), s, r1, r2);
    ReadsBind(read, Device(PluginLines(Header([], s), s.plugins), s), s, r2, ExpectedHead(s));
  }

  lemma ReadsServerPart(read: Reading, acc: seq<Line>, s: Server)
    requires Reader(read) && ServerOk(s) && read(acc) == ExpectedHead(s)
    ensures read(ServerPart(acc, s)) == ExpectedServer(s)
  {
    var r1 := ExpectedHead(s).(port := if s.port == 0 then 1194 else s.port, role := "server", sawServer := true);
    var r2 := r1.(serverNetwork := ImportedNetwork(s.serverNetwork));
    var r3 := r2.(serverIpv6 := s.serverIpv6, topology := ToLower(Or(s.topology, "subnet")), maxClients := if s.maxClients > 0 then s.maxClients else 0);
    ReadsRole(read, acc, s, ExpectedHead(s), r1);
    ReadsNet(read, Role(acc, s), s, r1, r2);
    ReadsPool(read, Net(Role(acc, s), s), s, r2, r3);
    var p := Pool(Net(Role(acc, s), s), s);
    ReadsPushes(read, p, s, r3, ExpectedServer(s));
    IsDuplicateCn();
    ReadsInert(read, Pushes(p, s), ["duplicate-cn"], ExpectedServer(s));
  }

  lemma ReadsTail(read: Reading, acc: seq<Line>, s: Server)
    requires Reader(read) && ServerOk(s) && read(acc) == ExpectedServer(s)
    ensures read(Tail(acc, s)) == Expected(s)
  {
    var r1 := WithKeys(ExpectedServer(s), s);
    var r2 := r1.(cipher := s.cipher, dataCiphers := s.dataCiphers, authDigest := s.authDigest, tlsVersionMin := s.tlsVersionMin);
    ReadsCrypto(read, acc, s, ExpectedServer(s), r1);
    ReadsCiphers(read, Crypto(acc, s), s, r1, r2);
    ReadsTls(read, Ciphers(Crypto(acc, s), s), s, r2);
    var t := Tls(Ciphers(Crypto(acc, s), s), s);
    ReadsBuffers(read, t, s, r2, Expected(s));
    ReadsVerify(read, Buffers(t, s), s, Expected(s));
    ReadsDaemon(read, Verify(Buffers(t, s), s), s, Expected(s));
    ReadsShaper(read, Daemon(Verify(Buffers(t, s), s), s), s, Expected(s));
  }

  lemma ReadsConf(s: Server)
    requires ServerOk(s)
    ensures ReadAll(ConfLines(s)) == Expected(s)
  {
    var head := Bind(Device(PluginLines(Header([], s), s.plugins), s), s);
    ReadAllReads();
    ReadsHead(ReadAll, s);
    ReadsServerPart(ReadAll, head, s);
    ReadsTail(ReadAll, ServerPart(head, s), s);
  }

  // ---- the result ----

  lemma {:induction false} NothingInline(text: string, tags: seq<string>)
    requires forall t :: 0 <= t < |tags| ==> !HasBlock(ToLower(text), tags[t])
    ensures ExtractTags(Extraction(map[], text), tags) == Extraction(map[], text)
  {
    if tags != [] {
      NothingInline(text, tags[..|tags| - 1]);
      FoundExactly(ToLower(text), tags[|tags| - 1]);
    }
  }

  /** No complete inline block in the text. */
  ghost predicate NoInline(text: string) { forall t :: 0 <= t < |TAGS| ==> !HasBlock(ToLower(text), TAGS[t]) }

  lemma {:induction false} BlocksStay(e: Extraction, tag: string)
    ensures e.blocks.Keys <= ExtractTag(e, tag).blocks.Keys
    decreases |e.body|
  {
    var next := Step(e, tag);
    if next.Some? { BlocksStay(next.value, tag); }
  }

  lemma SomeBlockStays(e: Extraction, tag: string)
    requires e.blocks != map[]
    ensures ExtractTag(e, tag).blocks != map[]
  {
    BlocksStay(e, tag);
    var key :| key in e.blocks.Keys;
    assert key in ExtractTag(e, tag).blocks.Keys;
  }

  /** A block of a tag is taken out whenever there is one. */
  lemma BlockIsTaken(e: Extraction, tag: string)
    requires HasBlock(ToLower(e.body), tag)
    ensures ExtractTag(e, tag).blocks != map[]
  {
    FoundExactly(ToLower(e.body), tag);
    var next := Step(e, tag).value;
    assert tag in next.blocks;
    BlocksStay(next, tag);
    assert tag in ExtractTag(e, tag).blocks.Keys;
  }

  /** Extraction that yields no block found none. */
  lemma {:induction false} NoBlocksNoInline(text: string, tags: seq<string>)
    requires ExtractTags(Extraction(map[], text), tags).blocks == map[]
    ensures forall t :: 0 <= t < |tags| ==> !HasBlock(ToLower(text), tags[t])
  {
    if tags != [] {
      var init, tag := tags[..|tags| - 1], tags[|tags| - 1];
      var e := ExtractTags(Extraction(map[], text), init);
      if e.blocks != map[] { SomeBlockStays(e, tag); }
      NoBlocksNoInline(text, init);
      NothingInline(text, init);
      if HasBlock(ToLower(text), tag) { BlockIsTaken(e, tag); }
    }
  }

  lemma {:induction false} VisibleStays(t: string)
    requires t != "" && !IsSpace(t[0])
    ensures TrimRight(t) != ""
  {
    if IsSpace(t[|t| - 1]) { VisibleStays(t[..|t| - 1]); }
  }

  /** Kept routes are whole lines. */
  lemma {:induction false} KeptAreLines(routes: seq<string>)
    ensures var kept := KeptRoutes(routes);
      kept != "" ==> kept[0] == 'p' && TrimBreaks(kept) + "\n" == kept
  {
    if routes != [] {
      var init, r := routes[..|routes| - 1], TrimSpace(routes[|routes| - 1]);
      KeptAreLines(init);
      assert KeptRoutes(init) + "" == KeptRoutes(init);
      if r != "" && ImportedRoute(r).None? { LineAdded(KeptRoutes(init), Join(["route", r], ' '), KeptRoutes(routes)); }
    }
  }

  lemma LineAdded(before: string, payload: string, all: string)
    requires all == before + ("push \"" + payload + "\"" + "\n") && (before != "" ==> before[0] == 'p')
    ensures all[0] == 'p' && TrimBreaks(all) + "\n" == all
  {
    var init := all[..|all| - 1];
    assert all[|all| - 1] == '\n' && init == before + ("push \"" + payload + "\"");
    assert init[|init| - 1] == '"';
    assert TrimBreaks(all) == TrimBreaks(init) == init;
  }

  lemma OneListing(conf: Conf, extra: seq<string>, routes: seq<string>)
    requires conf.pushExtra == KeptRoutes(routes) && extra != []
    ensures Directives(Scanned(conf, extra)) == KeptRoutes(routes) + Join(extra, '\n') + "\n"
  {
    var kept, more := KeptRoutes(routes), Join(extra, '\n');
    KeptAreLines(routes);
    if kept == "" {
      assert TrimSpace("") == "";
      assert [] + [more] == [more] && "" + more == more;
    } else {
      VisibleStays(kept);
      assert [TrimBreaks(kept)] + [more] == [TrimBreaks(kept), more];
      JoinLines(TrimBreaks(kept), more);
    }
  }

  lemma JoinLines(a: string, b: string)
    ensures Join([a, b], '\n') == (a + "\n") + b
  {
    assert [a, b][1..] == [b];
  }

  /** What the import of a rendered conf yields: the settings it was rendered from, then the lines of
      routes that are none to the import, then the lines it keeps, and no inline block. */
  function Undone(s: Server): Option<Imported> {
    Some(Imported(Expected(s), KeptRoutes(s.pushRoutes) + Join(ServerExtras(s), '\n') + "\n", map[]))
  }

  /** Importing the rendered conf of a server gives back its role, protocol, port, bind address,
      device, network, topology, key paths, ciphers, pushed routes, DNS servers and domain in order,
      redirect flag, limits and plugins, with every other line verbatim, exactly if the text holds
      no complete inline block. */
  lemma ImportUndoesRender(s: Server)
    requires ServerOk(s)
    ensures Rendered(s).Some?
    ensures Parsed(Rendered(s).value) == Undone(s) <==> NoInline(Rendered(s).value)
  {
    var text := ConfText(ConfLines(s));
    if NoInline(text) { CleanTextIsUndone(s, text); } else { BlockIsImported(text); }
  }

  /** A text with a complete block is never imported without one. */
  lemma BlockIsImported(text: string)
    requires !NoInline(text)
    ensures Parsed(text).Some? ==> Parsed(text).value.inlines != map[]
  {
    if ExtractTags(Extraction(map[], text), TAGS).blocks == map[] { NoBlocksNoInline(text, TAGS); }
  }

  lemma SomeExtras(s: Server)
    ensures ServerExtras(s) != []
  {
    assert |["tmp-dir " + s.tmpDir]| == 1;
  }

  lemma CleanTextIsUndone(s: Server, text: string)
    requires ServerOk(s) && text == ConfText(ConfLines(s)) && NoInline(text)
    ensures Parsed(text) == Undone(s)
  {
    var lines := ConfLines(s);
    OkConf(s);
    NothingInline(text, TAGS);
    TextRead(lines);
    ReadsConf(s);
    ServerRest(s);
    SomeExtras(s);
    OneListing(Expected(s), ServerExtras(s), s.pushRoutes);
    ImportedParts(text, Expected(s), ServerExtras(s));
  }

  lemma ImportedParts(text: string, conf: Conf, extra: seq<string>)
    requires ExtractTags(Extraction(map[], text), TAGS) == Extraction(map[], text)
    requires ReadLines(Split(text, '\n')) == Scanned(conf, extra) && conf.role != ""
    ensures Parsed(text) == Some(Imported(conf, Directives(Scanned(conf, extra)), map[]))
  {
    assert conf.(role := conf.role) == conf;
  }

  /** The whole conf is undone, the device name included, exactly if the text holds no complete
      inline block and the device is not named just tun or tap. */
  lemma DeviceComesBackExactly(s: Server)
    requires ServerOk(s)
    ensures var text := ConfText(ConfLines(s));
      Parsed(text) == Undone(s) && Undone(s).value.conf.device == s.device <==>
        NoInline(text) && ToLower(s.device) != "tun" && ToLower(s.device) != "tap"
  {
    ImportUndoesRender(s);
    JustTunIsNotEmpty(s.device);
  }

  lemma JustTunIsNotEmpty(device: string)
    ensures ImportedDevice(device) == device <==> ToLower(device) != "tun" && ToLower(device) != "tap"
  {
  }
}
