/** The rendered lines that the import stores nothing from: the kept ones and the ignored ones. */
module ConfExtras {
  import opened Text
  import opened ConfImport
  import opened ConfGen
  import opened ConfNames
  import opened ConfRoundTrip
  import opened ConfSections

  predicate IsIgnored(l: Line) { l.Words? && l.tokens != [] && ToLower(l.tokens[0]) in IGNORED }

  /** The texts of the ignored lines, in order. */
  function Ignored(lines: seq<Line>): seq<string> {
    if lines == [] then []
    else Ignored(lines[..|lines| - 1]) + if IsIgnored(lines[|lines| - 1]) then [LineText(lines[|lines| - 1])] else []
  }

  /** What is kept and what is ignored of lines. */
  predicate Rest(lines: seq<Line>, kept: seq<string>, ignored: seq<string>) { Extras(lines) == kept && Ignored(lines) == ignored }

  function If(on: bool, text: string): seq<string> { if on then [text] else [] }

  function Opt(name: string, v: string): seq<string> { If(v != "", name + " " + v) }

  /** The line that has logins verified. */
  function VerifyText(script: string, sec: nat): string { "auth-user-pass-verify " + script + " " + if sec >= 2 then "via-env" else "via-file" }

  /** The lines of a server conf that the import keeps. */
  function ServerExtras(s: Server): seq<string> {
    var sec := if s.scriptSecurity == 0 then 2 else s.scriptSecurity;
    var script := TrimSpace(s.authVerify);
    If(s.localBind == "" && StartsWith(ToLower(Or(s.proto, "udp")), "udp"), "multihome")
    + If(s.poolStart != "" && s.poolEnd != "", "ifconfig-pool " + s.poolStart + " " + s.poolEnd)
    + ["client-config-dir " + s.ccdDir] + ["ccd-exclusive"] + ["duplicate-cn"]
    + If(!s.staticKeyMode && s.crl != "", "crl-verify " + s.crl)
    + Opt("tls-cipher", s.tlsCipher) + Opt("tls-ciphersuites", s.tlsCiphersuites) + Opt("tls-groups", s.tlsGroups)
    + Opt("tls-cert-profile", s.tlsCertProfile) + Opt("ifconfig-ipv6", s.ifconfigIpv6)
    + If(script != "", VerifyText(script, sec))
    + If(script != "" && s.usernameAsCn, "username-as-common-name")
    + ["tmp-dir " + s.tmpDir] + If(s.shaper > 0, "shaper " + Decimal(s.shaper))
  }

  /** The lines of a server conf that the import ignores. */
  function ServerIgnored(s: Server): seq<string> {
    If(TrimSpace(s.authVerify) != "", "script-security " + Decimal(if s.scriptSecurity == 0 then 2 else s.scriptSecurity))
    + ["keepalive 10 60"] + ["persist-key"] + ["persist-tun"] + ["writepid " + s.pidFile] + ["status " + s.statusFile + " 1"]
    + ["management " + s.mgmtSock + " unix"] + ["management-client-user root"] + ["verb 2"]
  }

  function LoginText(file: string): string { if file != "" then "auth-user-pass " + file else "auth-user-pass" }

  /** The lines of a client conf that the import keeps. */
  function ClientExtras(c: ClientConf): seq<string> {
    var s := c.base;
    var file := TrimSpace(c.userPassFile);
    ["nobind"] + ["remote-cert-tls server"] + ["resolv-retry infinite"]
    + Opt("tls-cipher", s.tlsCipher) + Opt("tls-ciphersuites", s.tlsCiphersuites) + Opt("tls-groups", s.tlsGroups)
    + Opt("tls-cert-profile", s.tlsCertProfile) + Opt("ifconfig-ipv6", s.ifconfigIpv6)
    + If(file != "" || c.userPass, LoginText(file))
    + ["tmp-dir " + s.tmpDir] + If(s.shaper > 0, "shaper " + Decimal(s.shaper))
  }

  /** The lines of a client conf that the import ignores. */
  function ClientIgnored(s: Server): seq<string> {
    ["keepalive 10 60"] + ["persist-key"] + ["persist-tun"] + ["writepid " + s.pidFile] + ["status " + s.statusFile + " 1"]
    + ["management " + s.mgmtSock + " unix"] + ["management-client-user root"] + ["verb 2"]
  }

  // ---- one line ----

  lemma RestSnoc(acc: seq<Line>, l: Line, e: seq<string>, g: seq<string>)
    requires Rest(acc, e, g)
    ensures Rest(acc + [l], e + If(IsExtra(l), LineText(l)), g + If(IsIgnored(l), LineText(l)))
  {
    assert (acc + [l])[..|acc|] == acc;
  }

  lemma Nothing(e: seq<string>)
    ensures e + [] == e
  {
  }

  /** A line with a name of its own and no setting, or a pool, which gives both its ends. */
  predicate Keeps(tokens: seq<string>) {
    tokens != [] && (Known(tokens[0], Other) || (Known(tokens[0], IfconfigPool) && |tokens| >= 3))
  }

  lemma KeepsIsExtra(tokens: seq<string>, name: string)
    requires Keeps(tokens) && name == tokens[0]
    ensures IsExtra(Words(tokens)) && !IsIgnored(Words(tokens))
  {
    NameStays(name);
    assert name !in IGNORED;
    var k := KeyOf(name);
    assert KeptAsExtra(k, tokens);
  }

  lemma RestKept(acc: seq<Line>, tokens: seq<string>, text: string, e: seq<string>, g: seq<string>)
    requires Rest(acc, e, g) && Keeps(tokens) && text == Join(tokens, ' ')
    ensures Rest(Add(acc, tokens), e + [text], g)
  {
    KeepsIsExtra(tokens, tokens[0]);
    RestSnoc(acc, Words(tokens), e, g);
    Nothing(g);
  }

  lemma RestKeptIf(acc: seq<Line>, on: bool, tokens: seq<string>, text: string, e: seq<string>, g: seq<string>)
    requires Rest(acc, e, g) && Keeps(tokens) && text == Join(tokens, ' ')
    ensures Rest(AddIf(acc, on, tokens), e + If(on, text), g)
  {
    if on { RestKept(acc, tokens, text, e, g); } else { Nothing(e); }
  }

  lemma RestSkip(acc: seq<Line>, tokens: seq<string>, text: string, e: seq<string>, g: seq<string>)
    requires Rest(acc, e, g) && tokens != [] && text == Join(tokens, ' ') && Skipped(tokens[0])
    ensures Rest(Add(acc, tokens), e, g + [text])
  {
    NameStays(tokens[0]);
    RestSnoc(acc, Words(tokens), e, g);
    Nothing(e);
  }

  lemma RestStored(acc: seq<Line>, tokens: seq<string>, k: Key, e: seq<string>, g: seq<string>)
    requires Rest(acc, e, g) && tokens != [] && Known(tokens[0], k) && !k.Other? && !k.IfconfigPool? && !k.Redirect?
    ensures Rest(Add(acc, tokens), e, g)
  {
    NameStays(tokens[0]);
    RestSnoc(acc, Words(tokens), e, g);
    Nothing(e);
    Nothing(g);
  }

  lemma RestStoredIf(acc: seq<Line>, on: bool, tokens: seq<string>, k: Key, e: seq<string>, g: seq<string>)
    requires Rest(acc, e, g) && tokens != [] && Known(tokens[0], k) && !k.Other? && !k.IfconfigPool? && !k.Redirect?
    ensures Rest(AddIf(acc, on, tokens), e, g)
  {
    if on { RestStored(acc, tokens, k, e, g); }
  }

  lemma RestStoredInt(acc: seq<Line>, name: string, n: int, k: Key, e: seq<string>, g: seq<string>)
    requires Rest(acc, e, g) && Known(name, k) && !k.Other? && !k.IfconfigPool? && !k.Redirect?
    ensures Rest(AddInt(acc, name, n), e, g)
  {
    if n > 0 { RestStored(acc, [name, Decimal(n)], k, e, g); }
  }

  lemma RestPlain(acc: seq<Line>, l: Line, e: seq<string>, g: seq<string>)
    requires Rest(acc, e, g) && !l.Words?
    ensures Rest(acc + [l], e, g)
  {
    RestSnoc(acc, l, e, g);
    Nothing(e);
    Nothing(g);
  }

  lemma JoinOne(a: string)
    ensures Join([a], ' ') == a
  {
  }

  lemma JoinPair(a: string, b: string)
    ensures Join([a, b], ' ') == a + " " + b
  {
    assert [a, b][1..] == [b];
  }

  lemma JoinThree(a: string, b: string, c: string)
    ensures Join([a, b, c], ' ') == a + " " + b + " " + c
  {
    assert [a, b, c][1..] == [b, c];
    JoinPair(b, c);
    assert a + " " + (b + " " + c) == a + " " + b + " " + c;
  }

  lemma RestOpt(acc: seq<Line>, name: string, v: string, e: seq<string>, g: seq<string>)
    requires Rest(acc, e, g) && Known(name, Other)
    ensures Rest(AddOpt(acc, name, v), e + Opt(name, v), g)
  {
    JoinPair(name, v);
    RestKeptIf(acc, v != "", [name, v], name + " " + v, e, g);
  }

  lemma RestOptStored(acc: seq<Line>, name: string, v: string, k: Key, e: seq<string>, g: seq<string>)
    requires Rest(acc, e, g) && Known(name, k) && !k.Other? && !k.IfconfigPool? && !k.Redirect?
    ensures Rest(AddOpt(acc, name, v), e, g)
  {
    RestStoredIf(acc, v != "", [name, v], k, e, g);
  }

  // ---- sections ----

  lemma {:induction false} RestPlugins(acc: seq<Line>, plugins: seq<Plugin>, e: seq<string>, g: seq<string>)
    requires Rest(acc, e, g)
    ensures Rest(PluginLines(acc, plugins), e, g)
  {
    if plugins != [] {
      var init, p := plugins[..|plugins| - 1], plugins[|plugins| - 1];
      RestPlugins(acc, init, e, g);
      var a := PluginLines(acc, init);
      assert a + [] == a;
      if p.path != "" { RestPlain(a, PluginLine(p), e, g); }
    }
  }

  lemma RestDevice(acc: seq<Line>, s: Server, e: seq<string>, g: seq<string>)
    requires Rest(acc, e, g)
    ensures Rest(Device(acc, s), e, g)
  {
    IsDev(); IsDevType();
    var dev := Or(s.devType, "tun");
    if s.device != "" {
      RestStored(acc, ["dev", s.device], Dev, e, g);
      RestStored(Add(acc, ["dev", s.device]), ["dev-type", dev], DevType, e, g);
    } else {
      RestStored(acc, ["dev", dev], Dev, e, g);
    }
  }

  lemma RestBind(acc: seq<Line>, s: Server, e: seq<string>, g: seq<string>)
    requires Rest(acc, e, g)
    ensures Rest(Bind(acc, s), e + If(s.localBind == "" && StartsWith(ToLower(Or(s.proto, "udp")), "udp"), "multihome"), g)
  {
    var proto := Or(s.proto, "udp");
    var a := Add(acc, ["proto", proto]);
    IsProto(); IsLocal(); IsMultihome();
    RestStored(acc, ["proto", proto], Proto, e, g);
    Nothing(e);
    if s.localBind != "" {
      RestStored(a, ["local", s.localBind], Local, e, g);
    } else {
      JoinOne("multihome");
      RestKeptIf(a, StartsWith(ToLower(proto), "udp"), ["multihome"], "multihome", e, g);
    }
  }

  lemma RestRole(acc: seq<Line>, s: Server, e: seq<string>, g: seq<string>)
    requires Rest(acc, e, g)
    ensures Rest(Role(acc, s), e, g)
  {
    var port := Decimal(if s.port == 0 then 1194 else s.port);
    IsPort(); IsMode(); IsTlsServer();
    RestStored(acc, ["port", port], Port, e, g);
    RestStored(Add(acc, ["port", port]), ["mode", "server"], Mode, e, g);
    RestStored(Add(Add(acc, ["port", port]), ["mode", "server"]), ["tls-server"], TlsServer, e, g);
  }

  lemma RestNet(acc: seq<Line>, s: Server, e: seq<string>, g: seq<string>)
    requires Rest(acc, e, g)
    ensures Rest(Net(acc, s), e, g)
  {
    IsServer();
    if s.serverNetwork != "" && NetAndMask(s.serverNetwork).Some? {
      var nm := NetAndMask(s.serverNetwork).value;
      RestStored(acc, ["server", nm.0, nm.1], ServerNet, e, g);
    }
  }

  lemma RestPool(acc: seq<Line>, s: Server, e: seq<string>, g: seq<string>)
    requires Rest(acc, e, g)
    ensures Rest(Pool(acc, s), e + If(s.poolStart != "" && s.poolEnd != "", "ifconfig-pool " + s.poolStart + " " + s.poolEnd)
                               + ["client-config-dir " + s.ccdDir] + ["ccd-exclusive"], g)
  {
    var on := s.poolStart != "" && s.poolEnd != "";
    IsServerIpv6(); IsTopology(); IsIfconfigPool(); IsMaxClients(); IsClientConfigDir(); IsCcdExclusive();
    RestOptStored(acc, "server-ipv6", s.serverIpv6, ServerIpv6, e, g);
    var a := AddOpt(acc, "server-ipv6", s.serverIpv6);
    RestStored(a, ["topology", Or(s.topology, "subnet")], Topology, e, g);
    var b := Add(a, ["topology", Or(s.topology, "subnet")]);
    PoolText(s.poolStart, s.poolEnd);
    RestKeptIf(b, on, ["ifconfig-pool", s.poolStart, s.poolEnd], "ifconfig-pool " + s.poolStart + " " + s.poolEnd, e, g);
    var c := AddIf(b, on, ["ifconfig-pool", s.poolStart, s.poolEnd]);
    var e1 := e + If(on, "ifconfig-pool " + s.poolStart + " " + s.poolEnd);
    RestStoredInt(c, "max-clients", s.maxClients, MaxClients, e1, g);
    RestCcd(AddInt(c, "max-clients", s.maxClients), s.ccdDir, e1, g);
  }

  lemma PoolText(a: string, b: string)
    ensures Join(["ifconfig-pool", a, b], ' ') == "ifconfig-pool " + a + " " + b
  {
    JoinThree("ifconfig-pool", a, b);
  }

  lemma RestCcd(acc: seq<Line>, dir: string, e: seq<string>, g: seq<string>)
    requires Rest(acc, e, g)
    ensures Rest(Add(Add(acc, ["client-config-dir", dir]), ["ccd-exclusive"]), e + ["client-config-dir " + dir] + ["ccd-exclusive"], g)
  {
    IsClientConfigDir(); IsCcdExclusive();
    JoinPair("client-config-dir", dir);
    JoinOne("ccd-exclusive");
    RestKept(acc, ["client-config-dir", dir], "client-config-dir " + dir, e, g);
    RestKept(Add(acc, ["client-config-dir", dir]), ["ccd-exclusive"], "ccd-exclusive", e + ["client-config-dir " + dir], g);
  }

  lemma RestPushIf(acc: seq<Line>, on: bool, option: seq<string>, e: seq<string>, g: seq<string>)
    requires Rest(acc, e, g)
    ensures Rest(AddPush(acc, on, option), e, g)
  {
    if on { RestPlain(acc, PushLine(option), e, g); }
  }

  lemma {:induction false} RestRoutes(acc: seq<Line>, routes: seq<string>, e: seq<string>, g: seq<string>)
    requires Rest(acc, e, g)
    ensures Rest(Routes(acc, routes), e, g)
  {
    if routes != [] {
      var init, r := routes[..|routes| - 1], TrimSpace(routes[|routes| - 1]);
      RestRoutes(acc, init, e, g);
      RestPushIf(Routes(acc, init), r != "", RouteOption(r), e, g);
    }
  }

  lemma {:induction false} RestDns(acc: seq<Line>, dns: seq<string>, e: seq<string>, g: seq<string>)
    requires Rest(acc, e, g)
    ensures Rest(Dns(acc, dns), e, g)
  {
    if dns != [] {
      var init, d := dns[..|dns| - 1], TrimSpace(dns[|dns| - 1]);
      RestDns(acc, init, e, g);
      RestPushIf(Dns(acc, init), d != "", ["dhcp-option", "DNS", d], e, g);
    }
  }

  lemma RestPushes(acc: seq<Line>, s: Server, e: seq<string>, g: seq<string>)
    requires Rest(acc, e, g)
    ensures Rest(Pushes(acc, s), e, g)
  {
    RestRoutes(acc, s.pushRoutes, e, g);
    RestDns(Routes(acc, s.pushRoutes), s.pushDns, e, g);
    var a := Dns(Routes(acc, s.pushRoutes), s.pushDns);
    RestPushIf(a, s.pushDomain != "", ["dhcp-option", "DOMAIN", s.pushDomain], e, g);
    RestPushIf(AddPush(a, s.pushDomain != "", ["dhcp-option", "DOMAIN", s.pushDomain]), s.redirectGateway,
               ["redirect-gateway", "def1", "bypass-dhcp"], e, g);
  }

  lemma RestPaths(acc: seq<Line>, s: Server, e: seq<string>, g: seq<string>)
    requires Rest(acc, e, g)
    ensures Rest(AddOpt(AddOpt(AddOpt(acc, "ca", s.ca), "cert", s.cert), "key", s.key), e, g)
  {
    IsCa(); IsCert(); IsKey();
    RestOptStored(acc, "ca", s.ca, Ca, e, g);
    RestOptStored(AddOpt(acc, "ca", s.ca), "cert", s.cert, Cert, e, g);
    RestOptStored(AddOpt(AddOpt(acc, "ca", s.ca), "cert", s.cert), "key", s.key, KeyFile, e, g);
  }

  lemma RestTlsKeys(acc: seq<Line>, s: Server, e: seq<string>, g: seq<string>)
    requires Rest(acc, e, g)
    ensures Rest(AddOpt(AddOpt(acc, "tls-crypt", s.tlsCrypt), "tls-auth", s.staticKey), e, g)
  {
    IsTlsCrypt(); IsTlsAuth();
    RestOptStored(acc, "tls-crypt", s.tlsCrypt, TlsCrypt, e, g);
    RestOptStored(AddOpt(acc, "tls-crypt", s.tlsCrypt), "tls-auth", s.staticKey, TlsAuth, e, g);
  }

  lemma RestSecret(acc: seq<Line>, s: Server, e: seq<string>, g: seq<string>)
    requires Rest(acc, e, g)
    ensures Rest(AddOpt(acc, "secret", s.staticKey), e, g)
  {
    IsSecret();
    RestOptStored(acc, "secret", s.staticKey, Secret, e, g);
  }

  lemma RestPki(acc: seq<Line>, s: Server, e: seq<string>, g: seq<string>)
    requires Rest(acc, e, g) && !s.staticKeyMode
    ensures Rest(Crypto(acc, s), e + Opt("crl-verify", s.crl), g)
  {
    IsDh(); IsCrlVerify();
    var a := AddOpt(AddOpt(AddOpt(acc, "ca", s.ca), "cert", s.cert), "key", s.key);
    var b := Add(a, ["dh", Or(s.dh, "none")]);
    RestPaths(acc, s, e, g);
    RestStored(a, ["dh", Or(s.dh, "none")], Dh, e, g);
    RestTlsKeys(b, s, e, g);
    RestOpt(AddOpt(AddOpt(b, "tls-crypt", s.tlsCrypt), "tls-auth", s.staticKey), "crl-verify", s.crl, e, g);
  }

  lemma CrlText(crl: string)
    ensures Opt("crl-verify", crl) == If(crl != "", "crl-verify " + crl)
  {
    assert "crl-verify" + " " + crl == "crl-verify " + crl;
  }

  lemma RestCrypto(acc: seq<Line>, s: Server, e: seq<string>, g: seq<string>)
    requires Rest(acc, e, g)
    ensures Rest(Crypto(acc, s), e + If(!s.staticKeyMode && s.crl != "", "crl-verify " + s.crl), g)
  {
    CrlText(s.crl);
    if s.staticKeyMode {
      RestSecret(acc, s, e, g);
      Nothing(e);
    } else {
      RestPki(acc, s, e, g);
    }
  }

  lemma RestClientCrypto(acc: seq<Line>, s: Server, e: seq<string>, g: seq<string>)
    requires Rest(acc, e, g)
    ensures Rest(ClientCrypto(acc, s), e, g)
  {
    if s.staticKeyMode {
      RestSecret(acc, s, e, g);
    } else {
      RestPaths(acc, s, e, g);
      RestTlsKeys(AddOpt(AddOpt(AddOpt(acc, "ca", s.ca), "cert", s.cert), "key", s.key), s, e, g);
    }
  }

  lemma RestCiphers(acc: seq<Line>, s: Server, e: seq<string>, g: seq<string>)
    requires Rest(acc, e, g)
    ensures Rest(Ciphers(acc, s), e, g)
  {
    IsCipher(); IsDataCiphers(); IsAuth(); IsTlsVersionMin();
    RestOptStored(acc, "cipher", s.cipher, Cipher, e, g);
    var a := AddOpt(acc, "cipher", s.cipher);
    RestOptStored(a, "data-ciphers", s.dataCiphers, DataCiphers, e, g);
    var b := AddOpt(a, "data-ciphers", s.dataCiphers);
    RestOptStored(b, "auth", s.authDigest, Auth, e, g);
    RestOptStored(AddOpt(b, "auth", s.authDigest), "tls-version-min", s.tlsVersionMin, TlsVersionMin, e, g);
  }

  lemma RestTls(acc: seq<Line>, s: Server, e: seq<string>, g: seq<string>)
    requires Rest(acc, e, g)
    ensures Rest(Tls(acc, s), e + Opt("tls-cipher", s.tlsCipher) + Opt("tls-ciphersuites", s.tlsCiphersuites)
                              + Opt("tls-groups", s.tlsGroups) + Opt("tls-cert-profile", s.tlsCertProfile), g)
  {
    IsTlsCipher(); IsTlsCiphersuites(); IsTlsGroups(); IsTlsCertProfile();
    var a, e1 := AddOpt(acc, "tls-cipher", s.tlsCipher), e + Opt("tls-cipher", s.tlsCipher);
    var b, e2 := AddOpt(a, "tls-ciphersuites", s.tlsCiphersuites), e1 + Opt("tls-ciphersuites", s.tlsCiphersuites);
    RestOpt(acc, "tls-cipher", s.tlsCipher, e, g);
    RestOpt(a, "tls-ciphersuites", s.tlsCiphersuites, e1, g);
    RestOpt(b, "tls-groups", s.tlsGroups, e2, g);
    RestOpt(AddOpt(b, "tls-groups", s.tlsGroups), "tls-cert-profile", s.tlsCertProfile, e2 + Opt("tls-groups", s.tlsGroups), g);
  }

  lemma RestBuffers(acc: seq<Line>, s: Server, e: seq<string>, g: seq<string>)
    requires Rest(acc, e, g)
    ensures Rest(Buffers(acc, s), e + Opt("ifconfig-ipv6", s.ifconfigIpv6), g)
  {
    IsTunMtu(); IsSndbuf(); IsRcvbuf(); IsIfconfigIpv6();
    RestStoredInt(acc, "tun-mtu", s.tunMtu, TunMtu, e, g);
    var a := AddInt(acc, "tun-mtu", s.tunMtu);
    RestStoredInt(a, "sndbuf", s.sndbuf, Sndbuf, e, g);
    var b := AddInt(a, "sndbuf", s.sndbuf);
    RestStoredInt(b, "rcvbuf", s.rcvbuf, Rcvbuf, e, g);
    RestOpt(AddInt(b, "rcvbuf", s.rcvbuf), "ifconfig-ipv6", s.ifconfigIpv6, e, g);
  }

  lemma VerifyJoin(script: string, how: string)
    ensures Join(["auth-user-pass-verify", script, how], ' ') == "auth-user-pass-verify " + script + " " + how
  {
    JoinThree("auth-user-pass-verify", script, how);
  }

  lemma SecurityJoin(sec: string)
    ensures Join(["script-security", sec], ' ') == "script-security " + sec
  {
    JoinPair("script-security", sec);
  }

  lemma RestScript(acc: seq<Line>, script: string, sec: nat, on: bool, e: seq<string>, g: seq<string>)
    requires Rest(acc, e, g)
    ensures var how := if sec >= 2 then "via-env" else "via-file";
      var a := Add(Add(acc, ["script-security", Decimal(sec)]), ["auth-user-pass-verify", script, how]);
      Rest(AddIf(a, on, ["username-as-common-name"]), e + [VerifyText(script, sec)] + If(on, "username-as-common-name"),
           g + ["script-security " + Decimal(sec)])
  {
    var how := if sec >= 2 then "via-env" else "via-file";
    var a, g1 := Add(acc, ["script-security", Decimal(sec)]), g + ["script-security " + Decimal(sec)];
    SkipsScriptSecurity(); IsAuthUserPassVerify(); IsUsernameAsCommonName();
    SecurityJoin(Decimal(sec));
    RestSkip(acc, ["script-security", Decimal(sec)], "script-security " + Decimal(sec), e, g);
    VerifyJoin(script, how);
    RestKept(a, ["auth-user-pass-verify", script, how], VerifyText(script, sec), e, g1);
    JoinOne("username-as-common-name");
    RestKeptIf(Add(a, ["auth-user-pass-verify", script, how]), on, ["username-as-common-name"], "username-as-common-name",
               e + [VerifyText(script, sec)], g1);
  }

  lemma RestVerify(acc: seq<Line>, s: Server, sec: nat, e: seq<string>, g: seq<string>)
    requires Rest(acc, e, g) && sec == if s.scriptSecurity == 0 then 2 else s.scriptSecurity
    ensures var script := TrimSpace(s.authVerify);
      Rest(Verify(acc, s), e + If(script != "", VerifyText(script, sec)) + If(script != "" && s.usernameAsCn, "username-as-common-name"),
           g + If(script != "", "script-security " + Decimal(sec)))
  {
    var script := TrimSpace(s.authVerify);
    if script == "" {
      Nothing(e);
      Nothing(g);
    } else {
      RestScript(acc, script, sec, s.usernameAsCn, e, g);
    }
  }

  lemma KeepaliveJoin() ensures Join(["keepalive", "10", "60"], ' ') == "keepalive 10 60" { JoinThree("keepalive", "10", "60"); }

  lemma RestStart(acc: seq<Line>, e: seq<string>, g: seq<string>)
    requires Rest(acc, e, g)
    ensures Rest(Add(Add(Add(acc, ["keepalive", "10", "60"]), ["persist-key"]), ["persist-tun"]), e,
                 g + ["keepalive 10 60"] + ["persist-key"] + ["persist-tun"])
  {
    SkipsKeepalive(); SkipsPersistKey(); SkipsPersistTun();
    KeepaliveJoin(); JoinOne("persist-key"); JoinOne("persist-tun");
    var a, g1 := Add(acc, ["keepalive", "10", "60"]), g + ["keepalive 10 60"];
    RestSkip(acc, ["keepalive", "10", "60"], "keepalive 10 60", e, g);
    RestSkip(a, ["persist-key"], "persist-key", e, g1);
    RestSkip(Add(a, ["persist-key"]), ["persist-tun"], "persist-tun", e, g1 + ["persist-key"]);
  }

  lemma TmpJoin(dir: string) ensures Join(["tmp-dir", dir], ' ') == "tmp-dir " + dir { JoinPair("tmp-dir", dir); }
  lemma PidJoin(file: string) ensures Join(["writepid", file], ' ') == "writepid " + file { JoinPair("writepid", file); }
  lemma StatusJoin(file: string) ensures Join(["status", file, "1"], ' ') == "status " + file + " 1" {
    JoinThree("status", file, "1");
    assert " " + "1" == " 1";
    assert "status " + file + " " + "1" == "status " + file + (" " + "1");
  }

  lemma RestFiles(acc: seq<Line>, s: Server, e: seq<string>, g: seq<string>)
    requires Rest(acc, e, g)
    ensures Rest(Add(Add(Add(acc, ["tmp-dir", s.tmpDir]), ["writepid", s.pidFile]), ["status", s.statusFile, "1"]),
                 e + ["tmp-dir " + s.tmpDir], g + ["writepid " + s.pidFile] + ["status " + s.statusFile + " 1"])
  {
    IsTmpDir(); SkipsWritepid(); SkipsStatus();
    TmpJoin(s.tmpDir); PidJoin(s.pidFile); StatusJoin(s.statusFile);
    var a, e1 := Add(acc, ["tmp-dir", s.tmpDir]), e + ["tmp-dir " + s.tmpDir];
    RestKept(acc, ["tmp-dir", s.tmpDir], "tmp-dir " + s.tmpDir, e, g);
    RestSkip(a, ["writepid", s.pidFile], "writepid " + s.pidFile, e1, g);
    RestSkip(Add(a, ["writepid", s.pidFile]), ["status", s.statusFile, "1"], "status " + s.statusFile + " 1", e1, g + ["writepid " + s.pidFile]);
  }

  lemma ManagementJoin(sock: string) ensures Join(["management", sock, "unix"], ' ') == "management " + sock + " unix" {
    JoinThree("management", sock, "unix");
    assert " " + "unix" == " unix";
    assert "management " + sock + " " + "unix" == "management " + sock + (" " + "unix");
  }

  lemma RootJoin() ensures Join(["management-client-user", "root"], ' ') == "management-client-user root" { JoinPair("management-client-user", "root"); }
  lemma VerbJoin() ensures Join(["verb", "2"], ' ') == "verb 2" { JoinPair("verb", "2"); }

  lemma RestManagement(acc: seq<Line>, s: Server, e: seq<string>, g: seq<string>)
    requires Rest(acc, e, g)
    ensures Rest(Add(Add(Add(acc, ["management", s.mgmtSock, "unix"]), ["management-client-user", "root"]), ["verb", "2"]), e,
                 g + ["management " + s.mgmtSock + " unix"] + ["management-client-user root"] + ["verb 2"])
  {
    SkipsManagement(); SkipsManagementClientUser(); SkipsVerb();
    ManagementJoin(s.mgmtSock); RootJoin(); VerbJoin();
    var a, g1 := Add(acc, ["management", s.mgmtSock, "unix"]), g + ["management " + s.mgmtSock + " unix"];
    RestSkip(acc, ["management", s.mgmtSock, "unix"], "management " + s.mgmtSock + " unix", e, g);
    RestSkip(a, ["management-client-user", "root"], "management-client-user root", e, g1);
    RestSkip(Add(a, ["management-client-user", "root"]), ["verb", "2"], "verb 2", e, g1 + ["management-client-user root"]);
  }

  lemma RestDaemon(acc: seq<Line>, s: Server, e: seq<string>, g: seq<string>)
    requires Rest(acc, e, g)
    ensures Rest(Daemon(acc, s), e + ["tmp-dir " + s.tmpDir],
                 g + ["keepalive 10 60"] + ["persist-key"] + ["persist-tun"] + ["writepid " + s.pidFile] + ["status " + s.statusFile + " 1"]
                   + ["management " + s.mgmtSock + " unix"] + ["management-client-user root"] + ["verb 2"])
  {
    var a, g1 := Add(Add(Add(acc, ["keepalive", "10", "60"]), ["persist-key"]), ["persist-tun"]), g + ["keepalive 10 60"] + ["persist-key"] + ["persist-tun"];
    RestStart(acc, e, g);
    RestFiles(a, s, e, g1);
    var b := Add(Add(Add(a, ["tmp-dir", s.tmpDir]), ["writepid", s.pidFile]), ["status", s.statusFile, "1"]);
    RestManagement(b, s, e + ["tmp-dir " + s.tmpDir], g1 + ["writepid " + s.pidFile] + ["status " + s.statusFile + " 1"]);
  }

  lemma RestRate(acc: seq<Line>, title: string, rate: nat, e: seq<string>, g: seq<string>)
    requires Rest(acc, e, g)
    ensures Rest(Add(acc + [Comment("")] + [Comment(title)], ["shaper", Decimal(rate)]), e + ["shaper " + Decimal(rate)], g)
  {
    IsShaper();
    JoinPair("shaper", Decimal(rate));
    assert "shaper" + " " + Decimal(rate) == "shaper " + Decimal(rate);
    RestPlain(acc, Comment(""), e, g);
    RestPlain(acc + [Comment("")], Comment(title), e, g);
    RestKept(acc + [Comment("")] + [Comment(title)], ["shaper", Decimal(rate)], "shaper " + Decimal(rate), e, g);
  }

  lemma RestShaper(acc: seq<Line>, s: Server, e: seq<string>, g: seq<string>)
    requires Rest(acc, e, g)
    ensures Rest(Shaper(acc, s), e + If(s.shaper > 0, "shaper " + Decimal(s.shaper)), g)
    ensures Rest(ClientShaper(acc, s), e + If(s.shaper > 0, "shaper " + Decimal(s.shaper)), g)
  {
    if s.shaper > 0 {
      RestRate(acc, SHAPER_TITLE, s.shaper, e, g);
      RestRate(acc, CLIENT_SHAPER_TITLE, s.shaper, e, g);
    } else {
      Nothing(e);
    }
  }

  // ---- whole confs ----

  lemma RestHead(s: Server)
    ensures Rest(Header([], s), [], []) && Rest(ClientHeader([], s), [], [])
  {
    RestPlain([], Comment(GENERATED), [], []);
    RestPlain([] + [Comment(GENERATED)], Comment("# instance=" + s.name + " role=server"), [], []);
    RestPlain([] + [Comment(GENERATED)], Comment("# instance=" + s.name + " role=client"), [], []);
  }

  function HeadExtras(s: Server): seq<string> { If(s.localBind == "" && StartsWith(ToLower(Or(s.proto, "udp")), "udp"), "multihome") }

  lemma RestServerHead(s: Server)
    ensures Rest(Bind(Device(PluginLines(Header([], s), s.plugins), s), s), HeadExtras(s), [])
  {
    RestHead(s);
    RestPlugins(Header([], s), s.plugins, [], []);
    RestDevice(PluginLines(Header([], s), s.plugins), s, [], []);
    RestBind(Device(PluginLines(Header([], s), s.plugins), s), s, [], []);
    assert [] + HeadExtras(s) == HeadExtras(s);
  }

  lemma RestServerPart(acc: seq<Line>, s: Server, e: seq<string>, g: seq<string>)
    requires Rest(acc, e, g)
    ensures Rest(ServerPart(acc, s), e + If(s.poolStart != "" && s.poolEnd != "", "ifconfig-pool " + s.poolStart + " " + s.poolEnd)
                                     + ["client-config-dir " + s.ccdDir] + ["ccd-exclusive"] + ["duplicate-cn"], g)
  {
    RestRole(acc, s, e, g);
    RestNet(Role(acc, s), s, e, g);
    RestPool(Net(Role(acc, s), s), s, e, g);
    var p := Pool(Net(Role(acc, s), s), s);
    var e1 := e + If(s.poolStart != "" && s.poolEnd != "", "ifconfig-pool " + s.poolStart + " " + s.poolEnd)
                + ["client-config-dir " + s.ccdDir] + ["ccd-exclusive"];
    RestPushes(p, s, e1, g);
    IsDuplicateCn();
    JoinOne("duplicate-cn");
    RestKept(Pushes(p, s), ["duplicate-cn"], "duplicate-cn", e1, g);
  }

  lemma RestCiphered(acc: seq<Line>, s: Server, e: seq<string>, g: seq<string>)
    requires Rest(acc, e, g)
    ensures Rest(Buffers(Tls(Ciphers(acc, s), s), s),
                 e + Opt("tls-cipher", s.tlsCipher) + Opt("tls-ciphersuites", s.tlsCiphersuites) + Opt("tls-groups", s.tlsGroups)
                   + Opt("tls-cert-profile", s.tlsCertProfile) + Opt("ifconfig-ipv6", s.ifconfigIpv6), g)
  {
    RestCiphers(acc, s, e, g);
    RestTls(Ciphers(acc, s), s, e, g);
    RestBuffers(Tls(Ciphers(acc, s), s), s, e + Opt("tls-cipher", s.tlsCipher) + Opt("tls-ciphersuites", s.tlsCiphersuites)
      + Opt("tls-groups", s.tlsGroups) + Opt("tls-cert-profile", s.tlsCertProfile), g);
  }

  lemma RestEnd(acc: seq<Line>, s: Server, e: seq<string>, g: seq<string>)
    requires Rest(acc, e, g)
    ensures var end := ["keepalive 10 60"] + ["persist-key"] + ["persist-tun"] + ["writepid " + s.pidFile] + ["status " + s.statusFile + " 1"]
                       + ["management " + s.mgmtSock + " unix"] + ["management-client-user root"] + ["verb 2"];
      var kept := e + ["tmp-dir " + s.tmpDir] + If(s.shaper > 0, "shaper " + Decimal(s.shaper));
      Rest(Shaper(Daemon(acc, s), s), kept, g + end) && Rest(ClientShaper(Daemon(acc, s), s), kept, g + end)
  {
    RestDaemon(acc, s, e, g);
    EightInOrder(g, ["keepalive 10 60"], ["persist-key"], ["persist-tun"], ["writepid " + s.pidFile], ["status " + s.statusFile + " 1"],
                 ["management " + s.mgmtSock + " unix"], ["management-client-user root"], ["verb 2"]);
    RestShaper(Daemon(acc, s), s, e + ["tmp-dir " + s.tmpDir],
               g + (["keepalive 10 60"] + ["persist-key"] + ["persist-tun"] + ["writepid " + s.pidFile] + ["status " + s.statusFile + " 1"]
                    + ["management " + s.mgmtSock + " unix"] + ["management-client-user root"] + ["verb 2"]));
  }

  lemma EightInOrder(x: seq<string>, a: seq<string>, b: seq<string>, c: seq<string>, d: seq<string>, e: seq<string>, f: seq<string>,
                     g: seq<string>, h: seq<string>)
    ensures x + a + b + c + d + e + f + g + h == x + (a + b + c + d + e + f + g + h)
  {
  }

  /** Exactly these lines of a server conf are kept, and exactly these ignored, in this order. */
  lemma ServerRest(s: Server)
    ensures Extras(ConfLines(s)) == ServerExtras(s) && Ignored(ConfLines(s)) == ServerIgnored(s)
  {
    var head := Bind(Device(PluginLines(Header([], s), s.plugins), s), s);
    RestServerHead(s);
    RestServerPart(head, s, HeadExtras(s), []);
    var e := Extras(ServerPart(head, s));
    RestTail(ServerPart(head, s), s, e, e + If(!s.staticKeyMode && s.crl != "", "crl-verify " + s.crl));
    ServerIgnoredIs(s);
  }

  function CipheredExtras(e: seq<string>, s: Server): seq<string> {
    e + Opt("tls-cipher", s.tlsCipher) + Opt("tls-ciphersuites", s.tlsCiphersuites) + Opt("tls-groups", s.tlsGroups)
      + Opt("tls-cert-profile", s.tlsCertProfile) + Opt("ifconfig-ipv6", s.ifconfigIpv6)
  }

  function VerifyExtras(e: seq<string>, s: Server): seq<string> {
    var script, sec := TrimSpace(s.authVerify), if s.scriptSecurity == 0 then 2 else s.scriptSecurity;
    e + If(script != "", VerifyText(script, sec)) + If(script != "" && s.usernameAsCn, "username-as-common-name")
  }

  function VerifyIgnored(s: Server): seq<string> {
    If(TrimSpace(s.authVerify) != "", "script-security " + Decimal(if s.scriptSecurity == 0 then 2 else s.scriptSecurity))
  }

  lemma RestLogins(acc: seq<Line>, s: Server, e: seq<string>)
    requires Rest(acc, e, [])
    ensures Rest(Verify(Buffers(Tls(Ciphers(acc, s), s), s), s), VerifyExtras(CipheredExtras(e, s), s), VerifyIgnored(s))
  {
    var sec := if s.scriptSecurity == 0 then 2 else s.scriptSecurity;
    RestCiphered(acc, s, e, []);
    RestVerify(Buffers(Tls(Ciphers(acc, s), s), s), s, sec, CipheredExtras(e, s), []);
    assert [] + VerifyIgnored(s) == VerifyIgnored(s);
  }

  function EndExtras(e: seq<string>, s: Server): seq<string> { e + ["tmp-dir " + s.tmpDir] + If(s.shaper > 0, "shaper " + Decimal(s.shaper)) }

  lemma RestTail(acc: seq<Line>, s: Server, e: seq<string>, e1: seq<string>)
    requires Rest(acc, e, []) && e1 == e + If(!s.staticKeyMode && s.crl != "", "crl-verify " + s.crl)
    ensures Rest(Tail(acc, s), EndExtras(VerifyExtras(CipheredExtras(e1, s), s), s), VerifyIgnored(s) + ClientIgnored(s))
  {
    RestCrypto(acc, s, e, []);
    RestLogins(Crypto(acc, s), s, e1);
    RestEnd(Verify(Buffers(Tls(Ciphers(Crypto(acc, s), s), s), s), s), s, VerifyExtras(CipheredExtras(e1, s), s), VerifyIgnored(s));
  }

  lemma ServerIgnoredIs(s: Server)
    ensures ServerIgnored(s) == VerifyIgnored(s) + ClientIgnored(s)
  {
    EightInOrder(VerifyIgnored(s), ["keepalive 10 60"], ["persist-key"], ["persist-tun"], ["writepid " + s.pidFile],
                 ["status " + s.statusFile + " 1"], ["management " + s.mgmtSock + " unix"], ["management-client-user root"], ["verb 2"]);
  }

  lemma {:induction false} RestRemotes(acc: seq<Line>, remotes: seq<Remote>, e: seq<string>, g: seq<string>)
    requires Rest(acc, e, g)
    ensures Rest(Remotes(acc, remotes), e, g)
  {
    if remotes != [] {
      var init, r := remotes[..|remotes| - 1], remotes[|remotes| - 1];
      RestRemotes(acc, init, e, g);
      RemoteKnown(r);
      RestStoredIf(Remotes(acc, init), r.host != "", RemoteTokens(r), RemoteKey, e, g);
    }
  }

  lemma RemoteKnown(r: Remote) ensures RemoteTokens(r) != [] && Known(RemoteTokens(r)[0], RemoteKey) { IsRemote(); }

  lemma RestMarks(acc: seq<Line>, e: seq<string>, g: seq<string>)
    requires Rest(acc, e, g)
    ensures Rest(Add(Add(acc, ["client"]), ["tls-client"]), e, g)
  {
    IsClient(); IsTlsClient();
    RestStored(acc, ["client"], Client, e, g);
    RestStored(Add(acc, ["client"]), ["tls-client"], TlsClient, e, g);
  }

  lemma CertTlsJoin() ensures Join(["remote-cert-tls", "server"], ' ') == "remote-cert-tls server" { JoinPair("remote-cert-tls", "server"); }
  lemma RetryJoin() ensures Join(["resolv-retry", "infinite"], ' ') == "resolv-retry infinite" { JoinPair("resolv-retry", "infinite"); }

  lemma RestFixed(acc: seq<Line>, e: seq<string>, g: seq<string>)
    requires Rest(acc, e, g)
    ensures Rest(Add(Add(Add(acc, ["nobind"]), ["remote-cert-tls", "server"]), ["resolv-retry", "infinite"]),
                 e + ["nobind"] + ["remote-cert-tls server"] + ["resolv-retry infinite"], g)
  {
    IsNobind(); IsRemoteCertTls(); IsResolvRetry();
    JoinOne("nobind"); CertTlsJoin(); RetryJoin();
    var a, e1 := Add(acc, ["nobind"]), e + ["nobind"];
    RestKept(acc, ["nobind"], "nobind", e, g);
    RestKept(a, ["remote-cert-tls", "server"], "remote-cert-tls server", e1, g);
    RestKept(Add(a, ["remote-cert-tls", "server"]), ["resolv-retry", "infinite"], "resolv-retry infinite", e1 + ["remote-cert-tls server"], g);
  }

  lemma RestClientPart(acc: seq<Line>, remotes: seq<Remote>, e: seq<string>, g: seq<string>)
    requires Rest(acc, e, g)
    ensures Rest(ClientPart(acc, remotes), e + ["nobind"] + ["remote-cert-tls server"] + ["resolv-retry infinite"], g)
  {
    var m := Add(Add(acc, ["client"]), ["tls-client"]);
    RestMarks(acc, e, g);
    RestFixed(m, e, g);
    RestRemotes(Add(Add(Add(m, ["nobind"]), ["remote-cert-tls", "server"]), ["resolv-retry", "infinite"]), remotes,
                e + ["nobind"] + ["remote-cert-tls server"] + ["resolv-retry infinite"], g);
  }

  lemma RestClientHead(s: Server)
    ensures Rest(ClientHead(s), [], [])
  {
    var d := Device(PluginLines(ClientHeader([], s), s.plugins), s);
    IsProto(); IsLocal();
    RestHead(s);
    RestPlugins(ClientHeader([], s), s.plugins, [], []);
    RestDevice(PluginLines(ClientHeader([], s), s.plugins), s, [], []);
    RestStored(d, ["proto", Or(s.proto, "udp")], Proto, [], []);
    RestOptStored(Add(d, ["proto", Or(s.proto, "udp")]), "local", s.localBind, Local, [], []);
  }

  lemma LoginJoin(file: string)
    ensures Join(["auth-user-pass", file], ' ') == "auth-user-pass " + file
  {
    JoinPair("auth-user-pass", file);
  }

  lemma RestLogin(acc: seq<Line>, c: ClientConf, e: seq<string>, g: seq<string>)
    requires Rest(acc, e, g)
    ensures var file := TrimSpace(c.userPassFile); Rest(Login(acc, c), e + If(file != "" || c.userPass, LoginText(file)), g)
  {
    var file := TrimSpace(c.userPassFile);
    IsAuthUserPass();
    LoginJoin(file);
    JoinOne("auth-user-pass");
    if file != "" {
      RestKept(acc, ["auth-user-pass", file], "auth-user-pass " + file, e, g);
    } else {
      RestKeptIf(acc, c.userPass, ["auth-user-pass"], "auth-user-pass", e, g);
    }
  }

  lemma RestClientTail(acc: seq<Line>, c: ClientConf, e: seq<string>)
    requires Rest(acc, e, []) && e == ["nobind"] + ["remote-cert-tls server"] + ["resolv-retry infinite"]
    ensures Rest(ClientTail(acc, c), ClientExtras(c), ClientIgnored(c.base))
  {
    var s, file := c.base, TrimSpace(c.userPassFile);
    var e2 := e + Opt("tls-cipher", s.tlsCipher) + Opt("tls-ciphersuites", s.tlsCiphersuites) + Opt("tls-groups", s.tlsGroups)
                + Opt("tls-cert-profile", s.tlsCertProfile) + Opt("ifconfig-ipv6", s.ifconfigIpv6);
    var b := Buffers(Tls(Ciphers(ClientCrypto(acc, s), s), s), s);
    RestClientCrypto(acc, s, e, []);
    RestCiphered(ClientCrypto(acc, s), s, e, []);
    RestLogin(b, c, e2, []);
    RestEnd(Login(b, c), s, e2 + If(file != "" || c.userPass, LoginText(file)), []);
    assert [] + ClientIgnored(s) == ClientIgnored(s);
  }

  lemma ThreeInOrder(a: seq<string>, b: seq<string>, c: seq<string>)
    ensures [] + a + b + c == a + b + c
  {
  }

  /** Exactly these lines of a client conf are kept, and exactly these ignored, in this order. */
  lemma ClientRest(c: ClientConf)
    ensures Extras(ClientLines(c)) == ClientExtras(c) && Ignored(ClientLines(c)) == ClientIgnored(c.base)
  {
    var fixed := ["nobind"] + ["remote-cert-tls server"] + ["resolv-retry infinite"];
    RestClientHead(c.base);
    RestClientPart(ClientHead(c.base), c.remotes, [], []);
    ThreeInOrder(["nobind"], ["remote-cert-tls server"], ["resolv-retry infinite"]);
    RestClientTail(ClientPart(ClientHead(c.base), c.remotes), c, fixed);
  }
}
