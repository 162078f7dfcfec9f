/** Section by section: the settings that importing a rendered server conf yields. */
module ConfSections {
  import opened Wrappers
  import opened Text
  import opened Blocks
  import opened ConfImport
  import opened ConfGen
  import opened ConfNames
  import opened ConfRoundTrip
  import Fields

  // ---- device, protocol, port ----

  /** The device as imported: one named just tun or tap is not kept. */
  function ImportedDevice(device: string): string {
    if ToLower(device) == "tun" || ToLower(device) == "tap" then "" else device
  }

  predicate DevTypeOk(s: Server) { s.devType == "" || s.devType == "tun" || s.devType == "tap" }

  lemma DevTypeStays(s: Server)
    requires DevTypeOk(s)
    ensures var dev := Or(s.devType, "tun"); ToLower(dev) == dev && (dev == "tun" || dev == "tap")
  {
    NameStays("tun");
    NameStays("tap");
  }

  lemma NamedDevice(r: Conf, device: string, dev: string)
    requires r.device == ""
    ensures ReadDev(r, device).(devType := dev) == r.(devType := dev, device := ImportedDevice(device))
  {
  }

  lemma JustDevice(r: Conf, dev: string)
    requires ToLower(dev) == dev && (dev == "tun" || dev == "tap")
    ensures ReadDev(r, dev) == r.(devType := dev)
  {
  }

  lemma ReadsNamedDevice(read: Reading, acc: seq<Line>, device: string, dev: string, r: Conf, r': Conf)
    requires Reader(read) && read(acc) == r && r.device == "" && ToLower(dev) == dev
    requires r' == r.(devType := dev, device := ImportedDevice(device))
    ensures read(Add(Add(acc, ["dev", device]), ["dev-type", dev])) == r'
  {
    IsDev();
    IsDevType();
    var mid := ReadDev(r, device);
    NamedDevice(r, device, dev);
    ReadsSet(read, acc, "dev", Dev, device, r, mid);
    ReadsSet(read, Add(acc, ["dev", device]), "dev-type", DevType, dev, mid, r');
  }

  lemma ReadsDevice(read: Reading, acc: seq<Line>, s: Server, r: Conf, r': Conf)
    requires Reader(read) && read(acc) == r && DevTypeOk(s) && r.device == ""
    requires r' == r.(devType := Or(s.devType, "tun"), device := ImportedDevice(s.device))
    ensures read(Device(acc, s)) == r'
  {
    var dev := Or(s.devType, "tun");
    DevTypeStays(s);
    if s.device != "" {
      ReadsNamedDevice(read, acc, s.device, dev, r, r');
    } else {
      IsDev();
      JustDevice(r, dev);
      ReadsSet(read, acc, "dev", Dev, dev, r, r');
    }
  }

  lemma ReadsBind(read: Reading, acc: seq<Line>, s: Server, r: Conf, r': Conf)
    requires Reader(read) && read(acc) == r && r.localBind == ""
    requires r' == r.(proto := ToLower(Or(s.proto, "udp")), localBind := s.localBind)
    ensures read(Bind(acc, s)) == r'
  {
    var proto := Or(s.proto, "udp");
    var mid := r.(proto := ToLower(proto));
    IsProto();
    ReadsSet(read, acc, "proto", Proto, proto, r, mid);
    if s.localBind != "" {
      IsLocal();
      ReadsSet(read, Add(acc, ["proto", proto]), "local", Local, s.localBind, mid, r');
    } else {
      IsMultihome();
      ReadsInertIf(read, Add(acc, ["proto", proto]), StartsWith(ToLower(proto), "udp"), ["multihome"], mid);
    }
  }

  lemma ReadsRole(read: Reading, acc: seq<Line>, s: Server, r: Conf, r': Conf)
    requires Reader(read) && read(acc) == r && s.port < 0x8000_0000_0000_0000
    requires r' == r.(port := if s.port == 0 then 1194 else s.port, role := "server", sawServer := true)
    ensures read(Role(acc, s)) == r'
  {
    var port := if s.port == 0 then 1194 else s.port;
    var a := r.(port := port);
    IsPort();
    DecimalInt(port, r.port);
    ReadsSet(read, acc, "port", Port, Decimal(port), r, a);
    var acc1 := Add(acc, ["port", Decimal(port)]);
    ReadsMode(read, acc1, a);
    ReadsTlsServer(read, Add(acc1, ["mode", "server"]), r');
  }

  lemma ModeReads(r: Conf, name: string, arg: string)
    requires Known(name, Mode) && ToLower(arg) == "server"
    ensures Reads(r, Words([name, arg])) == r.(sawServer := true, role := "server")
  {
    NameStays(name);
  }

  lemma ReadsMode(read: Reading, acc: seq<Line>, r: Conf)
    requires Reader(read) && read(acc) == r
    ensures read(Add(acc, ["mode", "server"])) == r.(sawServer := true, role := "server")
  {
    IsMode();
    NameStays("server");
    ModeReads(r, "mode", "server");
    ReadSnoc(read, acc, Words(["mode", "server"]), r);
  }

  lemma TlsServerReads(r: Conf, name: string)
    requires Known(name, TlsServer) && r.role == "server" && r.sawServer
    ensures Reads(r, Words([name])) == r
  {
    NameStays(name);
  }

  lemma ReadsTlsServer(read: Reading, acc: seq<Line>, r: Conf)
    requires Reader(read) && read(acc) == r && r.role == "server" && r.sawServer
    ensures read(Add(acc, ["tls-server"])) == r
  {
    IsTlsServer();
    TlsServerReads(r, "tls-server");
    ReadSnoc(read, acc, Words(["tls-server"]), r);
  }

  // ---- network and pool ----

  /** The network as imported: the masked CIDR. */
  function ImportedNetwork(network: string): string {
    if network == "" then ""
    else
      match ParseCidr(TrimSpace(network))
      case Some(n) => CidrText(n.1)
      case None => ""
  }

  lemma ReadsNetLine(read: Reading, acc: seq<Line>, network: string, mask: string, cidr: string, r: Conf, r': Conf)
    requires Reader(read) && read(acc) == r && r.role == "server" && r.sawServer && NetworkMaskToCidr(network, mask) == Some(cidr)
    requires r' == r.(serverNetwork := cidr)
    ensures read(Add(acc, ["server", network, mask])) == r'
  {
    IsServer();
    NameStays("server");
    ReadSnoc(read, acc, Words(["server", network, mask]), r);
  }

  lemma ReadsNet(read: Reading, acc: seq<Line>, s: Server, r: Conf, r': Conf)
    requires Reader(read) && read(acc) == r && Renderable(s) && r.role == "server" && r.sawServer && r.serverNetwork == ""
    requires r' == r.(serverNetwork := ImportedNetwork(s.serverNetwork))
    ensures read(Net(acc, s)) == r'
  {
    if s.serverNetwork != "" {
      var nm := NetAndMask(s.serverNetwork).value;
      NetworkRoundTrip(s.serverNetwork);
      ReadsNetLine(read, acc, nm.0, nm.1, ImportedNetwork(s.serverNetwork), r, r');
    }
  }

  lemma ReadsSubnet(read: Reading, acc: seq<Line>, topology: string, r: Conf)
    requires Reader(read) && read(acc) == r
    ensures read(Add(acc, ["topology", topology])) == r.(topology := ToLower(topology))
  {
    IsTopology();
    ReadsSet(read, acc, "topology", Topology, topology, r, r.(topology := ToLower(topology)));
  }

  lemma ReadsIpv6(read: Reading, acc: seq<Line>, v: string, r: Conf)
    requires Reader(read) && read(acc) == r && r.serverIpv6 == ""
    ensures read(AddOpt(acc, "server-ipv6", v)) == r.(serverIpv6 := v)
  {
    IsServerIpv6();
    ReadsOpt(read, acc, "server-ipv6", ServerIpv6, v, r, r.(serverIpv6 := v));
  }

  lemma ReadsTopology(read: Reading, acc: seq<Line>, s: Server, r: Conf, r': Conf)
    requires Reader(read) && read(acc) == r && r.serverIpv6 == ""
    requires r' == r.(serverIpv6 := s.serverIpv6, topology := ToLower(Or(s.topology, "subnet")))
    ensures read(Add(AddOpt(acc, "server-ipv6", s.serverIpv6), ["topology", Or(s.topology, "subnet")])) == r'
  {
    ReadsIpv6(read, acc, s.serverIpv6, r);
    ReadsSubnet(read, AddOpt(acc, "server-ipv6", s.serverIpv6), Or(s.topology, "subnet"), r.(serverIpv6 := s.serverIpv6));
  }

  lemma ReadsLimit(read: Reading, acc: seq<Line>, s: Server, r: Conf, r': Conf)
    requires Reader(read) && read(acc) == r && r.maxClients == 0 && s.maxClients < 0x8000_0000_0000_0000
    requires r' == r.(maxClients := if s.maxClients > 0 then s.maxClients else 0)
    ensures read(AddInt(acc, "max-clients", s.maxClients)) == r'
  {
    IsMaxClients();
    if s.maxClients > 0 { DecimalInt(s.maxClients, r.maxClients); }
    ReadsInt(read, acc, "max-clients", MaxClients, s.maxClients, r, r');
  }

  lemma ReadsCcd(read: Reading, acc: seq<Line>, dir: string, r: Conf)
    requires Reader(read) && read(acc) == r
    ensures read(Add(Add(acc, ["client-config-dir", dir]), ["ccd-exclusive"])) == r
  {
    IsClientConfigDir();
    IsCcdExclusive();
    ReadsInert(read, acc, ["client-config-dir", dir], r);
    ReadsInert(read, Add(acc, ["client-config-dir", dir]), ["ccd-exclusive"], r);
  }

  lemma ReadsPool(read: Reading, acc: seq<Line>, s: Server, r: Conf, r': Conf)
    requires Reader(read) && read(acc) == r && r.serverIpv6 == "" && r.maxClients == 0 && s.maxClients < 0x8000_0000_0000_0000
    requires r' == r.(serverIpv6 := s.serverIpv6, topology := ToLower(Or(s.topology, "subnet")),
                      maxClients := if s.maxClients > 0 then s.maxClients else 0)
    ensures read(Pool(acc, s)) == r'
  {
    var r1 := r.(serverIpv6 := s.serverIpv6, topology := ToLower(Or(s.topology, "subnet")));
    ReadsTopology(read, acc, s, r, r1);
    var b := Add(AddOpt(acc, "server-ipv6", s.serverIpv6), ["topology", Or(s.topology, "subnet")]);
    IsIfconfigPool();
    ReadsInertIf(read, b, s.poolStart != "" && s.poolEnd != "", ["ifconfig-pool", s.poolStart, s.poolEnd], r1);
    var c := AddIf(b, s.poolStart != "" && s.poolEnd != "", ["ifconfig-pool", s.poolStart, s.poolEnd]);
    ReadsLimit(read, c, s, r1, r');
    ReadsCcd(read, AddInt(c, "max-clients", s.maxClients), s.ccdDir, r');
  }

  // ---- pushed options ----

  /** The route read from the words of a pushed option: a network and netmask become a CIDR, and a
      word with '/' is taken as it is. */
  function TakenRoute(words: seq<string>): Option<string> {
    if |words| >= 2 && NetworkMaskToCidr(words[0], words[1]).Some? then NetworkMaskToCidr(words[0], words[1])
    else if words != [] && !Lacks(words[0], '/') then Some(words[0])
    else None
  }

  /** A route as imported, if it is: a CIDR comes back masked. */
  function ImportedRoute(r: string): Option<string> {
    if !Lacks(r, '/') && NetAndMask(r).Some? then Some(ImportedNetwork(r)) else TakenRoute(Fields.Split(r))
  }

  /** The routes as imported, in order. */
  function ImportedRoutes(routes: seq<string>): seq<string> {
    if routes == [] then []
    else
      var r := TrimSpace(routes[|routes| - 1]);
      ImportedRoutes(routes[..|routes| - 1]) + if r == "" || ImportedRoute(r).None? then [] else [ImportedRoute(r).value]
  }

  /** The lines of the other routes: they are kept as they were rendered. */
  function KeptRoutes(routes: seq<string>): string {
    if routes == [] then ""
    else
      var r := TrimSpace(routes[|routes| - 1]);
      KeptRoutes(routes[..|routes| - 1]) + if r == "" || ImportedRoute(r).Some? then "" else TextLine(PushLine(["route", r]))
  }

  predicate RoutesOk(routes: seq<string>) { forall i :: 0 <= i < |routes| ==> PushOk(TrimSpace(routes[i])) }

  function ImportedDns(dns: seq<string>): seq<string> {
    if dns == [] then []
    else
      var d := TrimSpace(dns[|dns| - 1]);
      ImportedDns(dns[..|dns| - 1]) + if d == "" then [] else [d]
  }

  predicate DnsOk(dns: seq<string>) { forall i :: 0 <= i < |dns| ==> TrimSpace(dns[i]) == "" || WordOk(TrimSpace(dns[i])) }

  /** What the import makes of the words of a pushed option. */
  lemma PushedWords(option: seq<string>)
    requires |option| >= 1 && WordsOk(option)
    ensures var payload := Join(option, ' ');
      && TrimSpace(payload) == payload && payload != "" && Fields.Split(payload) == option
  {
    var payload := Join(option, ' ');
    PlainJoin(option);
    forall i | 0 <= i < |option| ensures ArgOk(option[i]) { WordIsArg(option[i]); }
    ArgsAreLine(option);
    QuotedHead(option);
    assert WordOk(option[0]) && PlainChar(option[0][0]);
    assert payload[0] == option[0][0];
    TrimIdentity(payload);
    forall i | 0 <= i < |option| ensures Fields.Survives(option[i]) { assert ArgOk(option[i]); }
    Fields.SplitUndoesQuoting(option);
  }

  lemma RouteWords() ensures WordOk("route") && NameOk("route") {}
  lemma DhcpWords() ensures WordOk("dhcp-option") && NameOk("dhcp-option") {}
  lemma GatewayWord() ensures WordOk("redirect-gateway") && NameOk("redirect-gateway") {}
  lemma GatewayArgs() ensures WordOk("def1") && WordOk("bypass-dhcp") {}
  lemma OptionNames() ensures WordOk("DNS") && WordOk("DOMAIN") {}
  lemma UpperDns() ensures ToUpper("DNS") == "DNS" {}
  lemma UpperDomain() ensures ToUpper("DOMAIN") == "DOMAIN" {}

  /** A pushed option is read by its first word. */
  lemma OptionRead(r: Conf, option: seq<string>, name: string)
    requires |option| >= 1 && option[0] == name && NameOk(name) && WordsOk(option)
    ensures Reads(r, PushLine(option)) == ReadOption(r, name, option, Join(option, ' '))
  {
    PushedWords(option);
    NameStays(name);
  }

  lemma RouteOptionRead(r: Conf, f: seq<string>, payload: string)
    ensures ReadOption(r, "route", f, payload) == ReadRoute(r, f, payload)
  {
  }

  lemma DhcpOptionRead(r: Conf, f: seq<string>, payload: string)
    requires |f| >= 2
    ensures ReadOption(r, "dhcp-option", f, payload) == ReadDhcp(r, ToUpper(f[1]), f, payload)
  {
  }

  lemma DnsRead(r: Conf, f: seq<string>, payload: string)
    requires |f| == 3
    ensures ReadDhcp(r, "DNS", f, payload) == r.(pushDns := r.pushDns + [f[2]])
  {
  }

  lemma DomainRead(r: Conf, f: seq<string>, payload: string)
    requires |f| == 3
    ensures ReadDhcp(r, "DOMAIN", f, payload) == r.(pushDomain := f[2])
  {
  }

  lemma GatewayRead(r: Conf, f: seq<string>, payload: string)
    ensures ReadOption(r, "redirect-gateway", f, payload) == r.(redirectGateway := true)
  {
  }

  lemma PushesRoute(r: Conf, network: string, mask: string, cidr: string)
    requires WordOk(network) && WordOk(mask) && NetworkMaskToCidr(network, mask) == Some(cidr)
    ensures Reads(r, PushLine(["route", network, mask])) == r.(pushRoutes := r.pushRoutes + [cidr])
  {
    var option := ["route", network, mask];
    RouteWords();
    OptionRead(r, option, "route");
    RouteOptionRead(r, option, Join(option, ' '));
  }

  lemma JoinTwo(a: string, b: string)
    ensures Join([a, b], ' ') == a + (" " + b)
  {
    assert [a, b][1..] == [b];
    assert a + [' '] + b == a + (" " + b);
  }

  /** The fields of a pushed route. */
  lemma RouteFields(route: string)
    requires route != "" && TrimSpace(route) == route
    ensures var payload := Join(["route", route], ' ');
      TrimSpace(payload) == payload && Fields.Split(payload) == ["route"] + Fields.Split(route)
  {
    var payload, word := Join(["route", route], ' '), "route";
    JoinTwo(word, route);
    TrimEnds(TrimLeft(route));
    TrimIdentity(payload);
    Fields.ScanPlain(word, " " + route, "");
    assert "" + word == word;
    Fields.FirstThenRest(word, route);
  }

  lemma TakenRead(r: Conf, words: seq<string>, payload: string)
    ensures ReadRoute(r, ["route"] + words, payload) ==
      match TakenRoute(words) case Some(c) => r.(pushRoutes := r.pushRoutes + [c]) case None => KeepPush(r, payload)
  {
    var f := ["route"] + words;
    if |words| >= 1 { assert f[1] == words[0]; }
    if |words| >= 2 { assert f[2] == words[1]; }
  }

  lemma KeptLine(extra: string, payload: string)
    ensures extra + "push \"" + payload + "\"\n" == extra + ("push \"" + payload + "\"" + "\n")
  {
  }

  /** What a pushed route that is no CIDR imports as. */
  lemma PushesTextRoute(r: Conf, route: string)
    requires route != "" && TrimSpace(route) == route
    ensures Reads(r, PushLine(["route", route])) ==
      match TakenRoute(Fields.Split(route))
      case Some(c) => r.(pushRoutes := r.pushRoutes + [c])
      case None => r.(pushExtra := r.pushExtra + TextLine(PushLine(["route", route])))
  {
    var payload := Join(["route", route], ' ');
    RouteFields(route);
    RouteWords(); NameStays("route");
    var f := ["route"] + Fields.Split(route);
    assert f[0] == "route";
    RouteOptionRead(r, f, payload);
    TakenRead(r, Fields.Split(route), payload);
    KeptLine(r.pushExtra, payload);
  }

  /** A route given as network and netmask comes back as their CIDR. */
  lemma NetmaskRouteIs(network: string, mask: string)
    requires WordOk(network) && WordOk(mask) && Lacks(network, '/') && Lacks(mask, '/') && NetworkMaskToCidr(network, mask).Some?
    ensures ImportedRoute(network + " " + mask) == NetworkMaskToCidr(network, mask)
  {
    var words := [network, mask];
    JoinTwo(network, mask);
    assert network + (" " + mask) == network + " " + mask;
    PushedWords(words);
    assert Lacks(network + " " + mask, '/');
  }

  lemma PushesDns(r: Conf, d: string)
    requires WordOk(d)
    ensures Reads(r, PushLine(["dhcp-option", "DNS", d])) == r.(pushDns := r.pushDns + [d])
  {
    var option := ["dhcp-option", "DNS", d];
    DhcpWords(); OptionNames(); UpperDns();
    OptionRead(r, option, "dhcp-option");
    DhcpOptionRead(r, option, Join(option, ' '));
    DnsRead(r, option, Join(option, ' '));
  }

  lemma PushesDomain(r: Conf, d: string)
    requires WordOk(d)
    ensures Reads(r, PushLine(["dhcp-option", "DOMAIN", d])) == r.(pushDomain := d)
  {
    var option := ["dhcp-option", "DOMAIN", d];
    DhcpWords(); OptionNames(); UpperDomain();
    OptionRead(r, option, "dhcp-option");
    DhcpOptionRead(r, option, Join(option, ' '));
    DomainRead(r, option, Join(option, ' '));
  }

  lemma PushesGateway(r: Conf)
    ensures Reads(r, PushLine(["redirect-gateway", "def1", "bypass-dhcp"])) == r.(redirectGateway := true)
  {
    var option := ["redirect-gateway", "def1", "bypass-dhcp"];
    GatewayWord(); GatewayArgs();
    OptionRead(r, option, "redirect-gateway");
    GatewayRead(r, option, Join(option, ' '));
  }

  lemma MoreRoutes(r: Conf, routes: seq<string>, route: string, all: seq<string>)
    requires all == routes + [route]
    ensures r.(pushRoutes := r.pushRoutes + all) == r.(pushRoutes := (r.pushRoutes + routes) + [route])
  {
  }

  lemma MoreKept(r: Conf, kept: string, line: string, all: string)
    requires all == kept + line
    ensures r.(pushExtra := r.pushExtra + all) == r.(pushExtra := (r.pushExtra + kept) + line)
  {
  }

  /** One more route. */
  function AfterRoute(r: Conf, route: string): Conf {
    match ImportedRoute(route)
    case Some(c) => r.(pushRoutes := r.pushRoutes + [c])
    case None => r.(pushExtra := r.pushExtra + TextLine(PushLine(["route", route])))
  }

  /** The settings after the routes. */
  function AfterRoutes(r: Conf, routes: seq<string>): Conf {
    r.(pushRoutes := r.pushRoutes + ImportedRoutes(routes), pushExtra := r.pushExtra + KeptRoutes(routes))
  }

  lemma AfterOneMore(r: Conf, routes: seq<string>)
    requires routes != []
    ensures var route := TrimSpace(routes[|routes| - 1]);
      AfterRoutes(r, routes) == if route == "" then AfterRoutes(r, routes[..|routes| - 1]) else AfterRoute(AfterRoutes(r, routes[..|routes| - 1]), route)
  {
    var init, route := routes[..|routes| - 1], TrimSpace(routes[|routes| - 1]);
    assert ImportedRoutes(init) + [] == ImportedRoutes(init) && KeptRoutes(init) + "" == KeptRoutes(init);
    if route != "" {
      match ImportedRoute(route) {
        case Some(c) => MoreRoutes(r, ImportedRoutes(init), c, ImportedRoutes(routes));
        case None => MoreKept(r, KeptRoutes(init), TextLine(PushLine(["route", route])), KeptRoutes(routes));
      }
    }
  }

  lemma {:induction false} ReadsRoutes(read: Reading, acc: seq<Line>, routes: seq<string>, r: Conf)
    requires Reader(read) && read(acc) == r
    ensures read(Routes(acc, routes)) == AfterRoutes(r, routes)
  {
    if routes == [] {
      assert r.pushRoutes + [] == r.pushRoutes && r.pushExtra + "" == r.pushExtra;
    } else {
      var init, route := routes[..|routes| - 1], TrimSpace(routes[|routes| - 1]);
      ReadsRoutes(read, acc, init, r);
      AfterOneMore(r, routes);
      TrimTwice(routes[|routes| - 1]);
      if route != "" { ReadsRoute(read, Routes(acc, init), route, AfterRoutes(r, init)); }
    }
  }

  lemma ReadsRoute(read: Reading, acc: seq<Line>, route: string, r: Conf)
    requires Reader(read) && read(acc) == r && route != "" && TrimSpace(route) == route
    ensures read(acc + [PushLine(RouteOption(route))]) == AfterRoute(r, route)
  {
    if !Lacks(route, '/') && NetAndMask(route).Some? {
      var nm := NetAndMask(route).value;
      NetworkRoundTrip(route);
      PushesRoute(r, nm.0, nm.1, ImportedNetwork(route));
    } else {
      PushesTextRoute(r, route);
    }
    ReadSnoc(read, acc, PushLine(RouteOption(route)), r);
  }

  lemma MoreDns(r: Conf, dns: seq<string>, d: string, all: seq<string>)
    requires all == dns + [d]
    ensures r.(pushDns := r.pushDns + all) == r.(pushDns := (r.pushDns + dns) + [d])
  {
  }

  lemma ReadsServer(read: Reading, acc: seq<Line>, d: string, r: Conf)
    requires Reader(read) && read(acc) == r && WordOk(d)
    ensures read(acc + [PushLine(["dhcp-option", "DNS", d])]) == r.(pushDns := r.pushDns + [d])
  {
    PushesDns(r, d);
    ReadSnoc(read, acc, PushLine(["dhcp-option", "DNS", d]), r);
  }

  lemma {:induction false} ReadsDns(read: Reading, acc: seq<Line>, dns: seq<string>, r: Conf)
    requires Reader(read) && read(acc) == r && DnsOk(dns)
    ensures read(Dns(acc, dns)) == r.(pushDns := r.pushDns + ImportedDns(dns))
  {
    if dns == [] {
      assert r.pushDns + [] == r.pushDns;
    } else {
      var init, d := dns[..|dns| - 1], TrimSpace(dns[|dns| - 1]);
      ReadsDns(read, acc, init, r);
      if d != "" {
        ReadsServer(read, Dns(acc, init), d, r.(pushDns := r.pushDns + ImportedDns(init)));
        MoreDns(r, ImportedDns(init), d, ImportedDns(dns));
      }
    }
  }

  lemma ReadsDomain(read: Reading, acc: seq<Line>, d: string, r: Conf)
    requires Reader(read) && read(acc) == r && r.pushDomain == "" && (d == "" || WordOk(d))
    ensures read(AddPush(acc, d != "", ["dhcp-option", "DOMAIN", d])) == r.(pushDomain := d)
  {
    if d != "" {
      PushesDomain(r, d);
      ReadSnoc(read, acc, PushLine(["dhcp-option", "DOMAIN", d]), r);
    }
  }

  lemma ReadsGateway(read: Reading, acc: seq<Line>, on: bool, r: Conf)
    requires Reader(read) && read(acc) == r && !r.redirectGateway
    ensures read(AddPush(acc, on, ["redirect-gateway", "def1", "bypass-dhcp"])) == r.(redirectGateway := on)
  {
    if on {
      PushesGateway(r);
      ReadSnoc(read, acc, PushLine(["redirect-gateway", "def1", "bypass-dhcp"]), r);
    }
  }

  lemma ReadsPushes(read: Reading, acc: seq<Line>, s: Server, r: Conf, r': Conf)
    requires Reader(read) && read(acc) == r && DnsOk(s.pushDns) && (s.pushDomain == "" || WordOk(s.pushDomain))
    requires r.pushRoutes == [] && r.pushDns == [] && r.pushDomain == "" && !r.redirectGateway && r.pushExtra == ""
    requires r' == r.(pushRoutes := ImportedRoutes(s.pushRoutes), pushExtra := KeptRoutes(s.pushRoutes), pushDns := ImportedDns(s.pushDns),
                      pushDomain := s.pushDomain, redirectGateway := s.redirectGateway)
    ensures read(Pushes(acc, s)) == r'
  {
    var r1 := r.(pushRoutes := ImportedRoutes(s.pushRoutes), pushExtra := KeptRoutes(s.pushRoutes));
    var r2 := r1.(pushDns := ImportedDns(s.pushDns));
    ReadsRoutes(read, acc, s.pushRoutes, r);
    assert [] + ImportedRoutes(s.pushRoutes) == ImportedRoutes(s.pushRoutes) && "" + KeptRoutes(s.pushRoutes) == KeptRoutes(s.pushRoutes);
    ReadsDns(read, Routes(acc, s.pushRoutes), s.pushDns, r1);
    assert [] + ImportedDns(s.pushDns) == ImportedDns(s.pushDns);
    var b := Dns(Routes(acc, s.pushRoutes), s.pushDns);
    ReadsDomain(read, b, s.pushDomain, r2);
    ReadsGateway(read, AddPush(b, s.pushDomain != "", ["dhcp-option", "DOMAIN", s.pushDomain]), s.redirectGateway, r2.(pushDomain := s.pushDomain));
  }

  // ---- plugins ----

  function ImportedPlugins(plugins: seq<Plugin>): seq<Plugin> {
    if plugins == [] then []
    else ImportedPlugins(plugins[..|plugins| - 1]) + if plugins[|plugins| - 1].path == "" then [] else [plugins[|plugins| - 1]]
  }

  lemma ReadsPlugin(read: Reading, acc: seq<Line>, p: Plugin, r: Conf)
    requires Reader(read) && read(acc) == r
    ensures read(acc + [PluginLine(p)]) == r.(plugins := r.plugins + [p])
  {
    ReadSnoc(read, acc, PluginLine(p), r);
  }

  lemma MorePlugins(r: Conf, plugins: seq<Plugin>, p: Plugin, all: seq<Plugin>)
    requires all == plugins + [p]
    ensures r.(plugins := r.plugins + all) == r.(plugins := (r.plugins + plugins) + [p])
  {
  }

  lemma {:induction false} ReadsPlugins(read: Reading, acc: seq<Line>, plugins: seq<Plugin>, r: Conf)
    requires Reader(read) && read(acc) == r
    ensures read(PluginLines(acc, plugins)) == r.(plugins := r.plugins + ImportedPlugins(plugins))
  {
    if plugins == [] {
      assert r.plugins + [] == r.plugins;
    } else {
      var init, p := plugins[..|plugins| - 1], plugins[|plugins| - 1];
      ReadsPlugins(read, acc, init, r);
      assert PluginLines(acc, init) + [] == PluginLines(acc, init);
      if p.path != "" {
        ReadsPlugin(read, PluginLines(acc, init), p, r.(plugins := r.plugins + ImportedPlugins(init)));
        MorePlugins(r, ImportedPlugins(init), p, ImportedPlugins(plugins));
      }
    }
  }

  // ---- keys and ciphers ----

  function ImportedDh(dh: string): string { if ToLower(dh) == "none" then "" else dh }

  lemma ReadsCa(read: Reading, acc: seq<Line>, ca: string, r: Conf)
    requires Reader(read) && read(acc) == r && r.ca == ""
    ensures read(AddOpt(acc, "ca", ca)) == r.(ca := ca)
  {
    IsCa();
    ReadsOpt(read, acc, "ca", Ca, ca, r, r.(ca := ca));
  }

  lemma ReadsCert(read: Reading, acc: seq<Line>, cert: string, r: Conf)
    requires Reader(read) && read(acc) == r && r.cert == ""
    ensures read(AddOpt(acc, "cert", cert)) == r.(cert := cert)
  {
    IsCert();
    ReadsOpt(read, acc, "cert", Cert, cert, r, r.(cert := cert));
  }

  lemma ReadsKey(read: Reading, acc: seq<Line>, key: string, r: Conf, r': Conf)
    requires Reader(read) && read(acc) == r && r.key == "" && r' == r.(key := key)
    ensures read(AddOpt(acc, "key", key)) == r'
  {
    IsKey();
    ReadsOpt(read, acc, "key", KeyFile, key, r, r');
  }

  lemma ReadsPaths(read: Reading, acc: seq<Line>, s: Server, r: Conf, r': Conf)
    requires Reader(read) && read(acc) == r && r.ca == "" && r.cert == "" && r.key == ""
    requires r' == r.(ca := s.ca, cert := s.cert, key := s.key)
    ensures read(AddOpt(AddOpt(AddOpt(acc, "ca", s.ca), "cert", s.cert), "key", s.key)) == r'
  {
    var r1 := r.(ca := s.ca);
    var r2 := r1.(cert := s.cert);
    ReadsCa(read, acc, s.ca, r);
    ReadsCert(read, AddOpt(acc, "ca", s.ca), s.cert, r1);
    ReadsKey(read, AddOpt(AddOpt(acc, "ca", s.ca), "cert", s.cert), s.key, r2, r');
  }

  lemma ReadsDh(read: Reading, acc: seq<Line>, dh: string, r: Conf, r': Conf)
    requires Reader(read) && read(acc) == r && r.dh == "" && r' == r.(dh := ImportedDh(dh))
    ensures read(Add(acc, ["dh", Or(dh, "none")])) == r'
  {
    IsDh();
    NoneStays();
    ReadsSet(read, acc, "dh", Dh, Or(dh, "none"), r, r');
  }

  lemma NoneStays()
    ensures ToLower("none") == "none" && ToLower("") == ""
  {
    NameStays("none");
  }

  lemma ReadsCrl(read: Reading, acc: seq<Line>, crl: string, r: Conf)
    requires Reader(read) && read(acc) == r
    ensures read(AddOpt(acc, "crl-verify", crl)) == r
  {
    IsCrlVerify();
    ReadsInertIf(read, acc, crl != "", ["crl-verify", crl], r);
  }

  lemma ReadsTlsCrypt(read: Reading, acc: seq<Line>, v: string, r: Conf, r': Conf)
    requires Reader(read) && read(acc) == r && r.tlsCrypt == "" && r' == r.(tlsCrypt := v)
    ensures read(AddOpt(acc, "tls-crypt", v)) == r'
  {
    IsTlsCrypt();
    ReadsOpt(read, acc, "tls-crypt", TlsCrypt, v, r, r');
  }

  lemma ReadsTlsAuth(read: Reading, acc: seq<Line>, v: string, r: Conf, r': Conf)
    requires Reader(read) && read(acc) == r && r.staticKey == "" && r' == r.(staticKey := v)
    ensures read(AddOpt(acc, "tls-auth", v)) == r'
  {
    IsTlsAuth();
    ReadsOpt(read, acc, "tls-auth", TlsAuth, v, r, r');
  }

  lemma ReadsTlsKeys(read: Reading, acc: seq<Line>, s: Server, r: Conf, r': Conf)
    requires Reader(read) && read(acc) == r && r.tlsCrypt == "" && r.staticKey == ""
    requires r' == r.(tlsCrypt := s.tlsCrypt, staticKey := s.staticKey)
    ensures read(AddOpt(AddOpt(AddOpt(acc, "tls-crypt", s.tlsCrypt), "tls-auth", s.staticKey), "crl-verify", s.crl)) == r'
  {
    var r1 := r.(tlsCrypt := s.tlsCrypt);
    ReadsTlsCrypt(read, acc, s.tlsCrypt, r, r1);
    ReadsTlsAuth(read, AddOpt(acc, "tls-crypt", s.tlsCrypt), s.staticKey, r1, r');
    ReadsCrl(read, AddOpt(AddOpt(acc, "tls-crypt", s.tlsCrypt), "tls-auth", s.staticKey), s.crl, r');
  }

  /** The settings of the key material: PKI paths, or the static key alone. */
  function WithKeys(r: Conf, s: Server): Conf {
    if s.staticKeyMode then r.(staticKey := s.staticKey, staticKeyMode := s.staticKey != "")
    else
      r.(ca := s.ca, cert := s.cert, key := s.key, dh := ImportedDh(s.dh), tlsCrypt := s.tlsCrypt, staticKey := s.staticKey)
  }

  predicate NoKeys(r: Conf) {
    r.ca == "" && r.cert == "" && r.key == "" && r.dh == "" && r.tlsCrypt == "" && r.staticKey == "" && !r.staticKeyMode
  }

  lemma ReadsPki(read: Reading, acc: seq<Line>, s: Server, r: Conf, r': Conf)
    requires Reader(read) && read(acc) == r && NoKeys(r) && !s.staticKeyMode && r' == WithKeys(r, s)
    ensures read(Crypto(acc, s)) == r'
  {
    var r1 := r.(ca := s.ca, cert := s.cert, key := s.key);
    var r2 := r1.(dh := ImportedDh(s.dh));
    ReadsPaths(read, acc, s, r, r1);
    var a := AddOpt(AddOpt(AddOpt(acc, "ca", s.ca), "cert", s.cert), "key", s.key);
    ReadsDh(read, a, s.dh, r1, r2);
    ReadsTlsKeys(read, Add(a, ["dh", Or(s.dh, "none")]), s, r2, r');
  }

  lemma ReadsSecret(read: Reading, acc: seq<Line>, key: string, r: Conf, r': Conf)
    requires Reader(read) && read(acc) == r && NoKeys(r) && r' == r.(staticKey := key, staticKeyMode := key != "")
    ensures read(AddOpt(acc, "secret", key)) == r'
  {
    IsSecret();
    ReadsOpt(read, acc, "secret", Secret, key, r, r');
  }

  lemma ReadsCrypto(read: Reading, acc: seq<Line>, s: Server, r: Conf, r': Conf)
    requires Reader(read) && read(acc) == r && NoKeys(r) && r' == WithKeys(r, s)
    ensures read(Crypto(acc, s)) == r'
  {
    if s.staticKeyMode {
      ReadsSecret(read, acc, s.staticKey, r, r');
    } else {
      ReadsPki(read, acc, s, r, r');
    }
  }

  lemma ReadsCipher(read: Reading, acc: seq<Line>, v: string, r: Conf, r': Conf)
    requires Reader(read) && read(acc) == r && r.cipher == "" && r' == r.(cipher := v)
    ensures read(AddOpt(acc, "cipher", v)) == r'
  {
    IsCipher();
    ReadsOpt(read, acc, "cipher", Cipher, v, r, r');
  }

  lemma ReadsDataList(read: Reading, acc: seq<Line>, v: string, r: Conf, r': Conf)
    requires Reader(read) && read(acc) == r && r.dataCiphers == "" && r' == r.(dataCiphers := v)
    ensures read(AddOpt(acc, "data-ciphers", v)) == r'
  {
    IsDataCiphers();
    assert ["data-ciphers", v][1..] == [v];
    ReadsOpt(read, acc, "data-ciphers", DataCiphers, v, r, r');
  }

  lemma ReadsDataCiphers(read: Reading, acc: seq<Line>, s: Server, r: Conf, r': Conf)
    requires Reader(read) && read(acc) == r && r.cipher == "" && r.dataCiphers == ""
    requires r' == r.(cipher := s.cipher, dataCiphers := s.dataCiphers)
    ensures read(AddOpt(AddOpt(acc, "cipher", s.cipher), "data-ciphers", s.dataCiphers)) == r'
  {
    var r1 := r.(cipher := s.cipher);
    ReadsCipher(read, acc, s.cipher, r, r1);
    ReadsDataList(read, AddOpt(acc, "cipher", s.cipher), s.dataCiphers, r1, r');
  }

  lemma ReadsDigest(read: Reading, acc: seq<Line>, digest: string, r: Conf)
    requires Reader(read) && read(acc) == r && r.authDigest == ""
    ensures read(AddOpt(acc, "auth", digest)) == r.(authDigest := digest)
  {
    IsAuth();
    ReadsOpt(read, acc, "auth", Auth, digest, r, r.(authDigest := digest));
  }

  lemma ReadsVersionMin(read: Reading, acc: seq<Line>, v: string, r: Conf)
    requires Reader(read) && read(acc) == r && r.tlsVersionMin == ""
    ensures read(AddOpt(acc, "tls-version-min", v)) == r.(tlsVersionMin := v)
  {
    IsTlsVersionMin();
    ReadsOpt(read, acc, "tls-version-min", TlsVersionMin, v, r, r.(tlsVersionMin := v));
  }

  lemma ReadsCiphers(read: Reading, acc: seq<Line>, s: Server, r: Conf, r': Conf)
    requires Reader(read) && read(acc) == r && r.cipher == "" && r.dataCiphers == "" && r.authDigest == "" && r.tlsVersionMin == ""
    requires r' == r.(cipher := s.cipher, dataCiphers := s.dataCiphers, authDigest := s.authDigest, tlsVersionMin := s.tlsVersionMin)
    ensures read(Ciphers(acc, s)) == r'
  {
    var r1 := r.(cipher := s.cipher, dataCiphers := s.dataCiphers);
    ReadsDataCiphers(read, acc, s, r, r1);
    var a := AddOpt(AddOpt(acc, "cipher", s.cipher), "data-ciphers", s.dataCiphers);
    ReadsDigest(read, a, s.authDigest, r1);
    ReadsVersionMin(read, AddOpt(a, "auth", s.authDigest), s.tlsVersionMin, r1.(authDigest := s.authDigest));
  }

  lemma ReadsTls(read: Reading, acc: seq<Line>, s: Server, r: Conf)
    requires Reader(read) && read(acc) == r
    ensures read(Tls(acc, s)) == r
  {
    IsTlsCipher(); IsTlsCiphersuites(); IsTlsGroups(); IsTlsCertProfile();
    ReadsInertIf(read, acc, s.tlsCipher != "", ["tls-cipher", s.tlsCipher], r);
    var a := AddOpt(acc, "tls-cipher", s.tlsCipher);
    ReadsInertIf(read, a, s.tlsCiphersuites != "", ["tls-ciphersuites", s.tlsCiphersuites], r);
    var b := AddOpt(a, "tls-ciphersuites", s.tlsCiphersuites);
    ReadsInertIf(read, b, s.tlsGroups != "", ["tls-groups", s.tlsGroups], r);
    ReadsInertIf(read, AddOpt(b, "tls-groups", s.tlsGroups), s.tlsCertProfile != "", ["tls-cert-profile", s.tlsCertProfile], r);
  }

  // ---- buffers, verification, daemon ----

  function Positive(n: int): int { if n > 0 then n else 0 }

  lemma ReadsTunMtu(read: Reading, acc: seq<Line>, n: int, r: Conf, r': Conf)
    requires Reader(read) && read(acc) == r && n < 0x8000_0000_0000_0000 && r.tunMtu == 0 && r' == r.(tunMtu := Positive(n))
    ensures read(AddInt(acc, "tun-mtu", n)) == r'
  {
    IsTunMtu();
    if n > 0 { DecimalInt(n, r.tunMtu); }
    ReadsInt(read, acc, "tun-mtu", TunMtu, n, r, r');
  }

  lemma ReadsSndbuf(read: Reading, acc: seq<Line>, n: int, r: Conf, r': Conf)
    requires Reader(read) && read(acc) == r && n < 0x8000_0000_0000_0000 && r.sndbuf == 0 && r' == r.(sndbuf := Positive(n))
    ensures read(AddInt(acc, "sndbuf", n)) == r'
  {
    IsSndbuf();
    if n > 0 { DecimalInt(n, r.sndbuf); }
    ReadsInt(read, acc, "sndbuf", Sndbuf, n, r, r');
  }

  lemma ReadsRcvbuf(read: Reading, acc: seq<Line>, n: int, r: Conf, r': Conf)
    requires Reader(read) && read(acc) == r && n < 0x8000_0000_0000_0000 && r.rcvbuf == 0 && r' == r.(rcvbuf := Positive(n))
    ensures read(AddInt(acc, "rcvbuf", n)) == r'
  {
    IsRcvbuf();
    if n > 0 { DecimalInt(n, r.rcvbuf); }
    ReadsInt(read, acc, "rcvbuf", Rcvbuf, n, r, r');
  }

  lemma ReadsBuffers(read: Reading, acc: seq<Line>, s: Server, r: Conf, r': Conf)
    requires Reader(read) && read(acc) == r && r.tunMtu == 0 && r.sndbuf == 0 && r.rcvbuf == 0
    requires s.tunMtu < 0x8000_0000_0000_0000 && s.sndbuf < 0x8000_0000_0000_0000 && s.rcvbuf < 0x8000_0000_0000_0000
    requires r' == r.(tunMtu := Positive(s.tunMtu), sndbuf := Positive(s.sndbuf), rcvbuf := Positive(s.rcvbuf))
    ensures read(Buffers(acc, s)) == r'
  {
    var r1 := r.(tunMtu := Positive(s.tunMtu));
    var r2 := r1.(sndbuf := Positive(s.sndbuf));
    IsIfconfigIpv6();
    ReadsTunMtu(read, acc, s.tunMtu, r, r1);
    var a := AddInt(acc, "tun-mtu", s.tunMtu);
    ReadsSndbuf(read, a, s.sndbuf, r1, r2);
    var b := AddInt(a, "sndbuf", s.sndbuf);
    ReadsRcvbuf(read, b, s.rcvbuf, r2, r');
    ReadsInertIf(read, AddInt(b, "rcvbuf", s.rcvbuf), s.ifconfigIpv6 != "", ["ifconfig-ipv6", s.ifconfigIpv6], r');
  }

  lemma ReadsScript(read: Reading, acc: seq<Line>, script: string, sec: nat, how: string, r: Conf)
    requires Reader(read) && read(acc) == r
    ensures read(Add(Add(acc, ["script-security", Decimal(sec)]), ["auth-user-pass-verify", script, how])) == r
  {
    SkipsScriptSecurity(); IsAuthUserPassVerify();
    ReadsInert(read, acc, ["script-security", Decimal(sec)], r);
    ReadsInert(read, Add(acc, ["script-security", Decimal(sec)]), ["auth-user-pass-verify", script, how], r);
  }

  lemma ReadsVerify(read: Reading, acc: seq<Line>, s: Server, r: Conf)
    requires Reader(read) && read(acc) == r
    ensures read(Verify(acc, s)) == r
  {
    var script := TrimSpace(s.authVerify);
    if script != "" {
      var sec := if s.scriptSecurity == 0 then 2 else s.scriptSecurity;
      var how := if sec >= 2 then "via-env" else "via-file";
      ReadsScript(read, acc, script, sec, how, r);
      IsUsernameAsCommonName();
      var a := Add(acc, ["script-security", Decimal(sec)]);
      ReadsInertIf(read, Add(a, ["auth-user-pass-verify", script, how]), s.usernameAsCn, ["username-as-common-name"], r);
    }
  }

  lemma ReadsThree(read: Reading, acc: seq<Line>, a: seq<string>, b: seq<string>, c: seq<string>, r: Conf)
    requires Reader(read) && read(acc) == r && a != [] && b != [] && c != [] && Inert(a[0]) && Inert(b[0]) && Inert(c[0])
    ensures read(Add(Add(Add(acc, a), b), c)) == r
  {
    ReadsInert(read, acc, a, r);
    ReadsInert(read, Add(acc, a), b, r);
    ReadsInert(read, Add(Add(acc, a), b), c, r);
  }

  lemma ReadsDaemon(read: Reading, acc: seq<Line>, s: Server, r: Conf)
    requires Reader(read) && read(acc) == r
    ensures read(Daemon(acc, s)) == r
  {
    SkipsKeepalive(); SkipsPersistKey(); SkipsPersistTun();
    ReadsThree(read, acc, ["keepalive", "10", "60"], ["persist-key"], ["persist-tun"], r);
    var a := Add(Add(Add(acc, ["keepalive", "10", "60"]), ["persist-key"]), ["persist-tun"]);
    IsTmpDir(); SkipsWritepid(); SkipsStatus();
    ReadsThree(read, a, ["tmp-dir", s.tmpDir], ["writepid", s.pidFile], ["status", s.statusFile, "1"], r);
    var b := Add(Add(Add(a, ["tmp-dir", s.tmpDir]), ["writepid", s.pidFile]), ["status", s.statusFile, "1"]);
    SkipsManagement(); SkipsManagementClientUser(); SkipsVerb();
    ReadsThree(read, b, ["management", s.mgmtSock, "unix"], ["management-client-user", "root"], ["verb", "2"], r);
  }

  lemma ReadsShaper(read: Reading, acc: seq<Line>, s: Server, r: Conf)
    requires Reader(read) && read(acc) == r
    ensures read(Shaper(acc, s)) == r
  {
    if s.shaper > 0 {
      var title := SHAPER_TITLE;
      ReadsComment(read, acc, "", r);
      ReadsComment(read, acc + [Comment("")], title, r);
      IsShaper();
      ReadsInert(read, acc + [Comment("")] + [Comment(title)], ["shaper", Decimal(s.shaper)], r);
    }
  }
}
