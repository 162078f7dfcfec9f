/** The pushed options and extra lines that any conf imports as, and with them the whole import. */
module ConfPushed {
  import opened Wrappers
  import opened Text
  import opened Inline
  import opened ConfImport
  import opened ConfNames
  import opened ConfRoundTrip
  import opened ConfWords
  import opened ConfReads
  import opened ConfMarks
  import Fields

  // ---- pushed options ----

  /** The words of a pushed option. */
  function Pushed(raw: string): seq<string> {
    var f := Said(raw);
    if f != [] && ToLower(f[0]) == "push" then Fields.Split(TrimSpace(PushPayload(Bare(raw)))) else []
  }

  predicate Begins(p: seq<string>, name: string) { p != [] && ToLower(p[0]) == name }

  predicate Dhcp(p: seq<string>, opt: string) { Begins(p, "dhcp-option") && |p| >= 2 && ToUpper(p[1]) == opt }

  predicate Search(p: seq<string>) { Dhcp(p, "DOMAIN-SEARCH") || Dhcp(p, "ADAPTER_DOMAIN_SUFFIX") }

  function DnsIn(p: seq<string>): Option<string> { if Dhcp(p, "DNS") && |p| >= 3 then Some(p[2]) else None }

  function DomainIn(p: seq<string>): Option<string> { if Dhcp(p, "DOMAIN") && |p| >= 3 then Some(p[2]) else None }

  function SearchIn(p: seq<string>): Option<string> { if Search(p) && |p| >= 3 then Some(p[2]) else None }

  /** A network and netmask become their CIDR; a word with '/' is taken as it is. */
  function RouteIn(p: seq<string>): Option<string> {
    if Begins(p, "route") && |p| >= 3 && NetworkMaskToCidr(p[1], p[2]).Some? then NetworkMaskToCidr(p[1], p[2])
    else if Begins(p, "route") && |p| >= 2 && !Lacks(p[1], '/') then Some(p[1])
    else None
  }

  /** The options without a setting of their own. */
  predicate KeptIn(p: seq<string>) {
    && p != [] && !Begins(p, "redirect-gateway") && RouteIn(p) == None
    && !(Begins(p, "dhcp-option") && (|p| < 2 || Dhcp(p, "DNS") || Dhcp(p, "DOMAIN") || Search(p)))
  }

  function PushText(payload: string): string { "push \"" + payload + "\"\n" }

  /** What pushed options change, from their words. */
  predicate PushSet(r: Conf, t: Conf, p: seq<string>, payload: string) {
    && t.pushDns == r.pushDns + Listed(DnsIn(p))
    && t.pushDomain == Given(DomainIn(p), if r.pushDomain == "" then Given(SearchIn(p), "") else r.pushDomain)
    && t.pushRoutes == r.pushRoutes + Listed(RouteIn(p))
    && t.redirectGateway == (r.redirectGateway || Begins(p, "redirect-gateway"))
    && t.pushExtra == r.pushExtra + if KeptIn(p) then PushText(payload) else ""
  }

  lemma OptionsApart()
    ensures "redirect-gateway" != "dhcp-option" && "redirect-gateway" != "route" && "dhcp-option" != "route"
  {
  }

  lemma DhcpApart()
    ensures "DNS" != "DOMAIN" && "DNS" != "DOMAIN-SEARCH" && "DNS" != "ADAPTER_DOMAIN_SUFFIX"
    ensures "DOMAIN" != "DOMAIN-SEARCH" && "DOMAIN" != "ADAPTER_DOMAIN_SUFFIX"
  {
  }

  lemma KeepSets(r: Conf, payload: string, t: Conf)
    requires t == KeepPush(r, payload)
    ensures t.pushDns == r.pushDns && t.pushDomain == r.pushDomain && t.pushRoutes == r.pushRoutes && t.redirectGateway == r.redirectGateway
    ensures t.pushExtra == r.pushExtra + PushText(payload)
  {
  }

  lemma NoneSets(r: Conf)
    ensures r.pushDns + [] == r.pushDns && r.pushRoutes + [] == r.pushRoutes && r.pushExtra + "" == r.pushExtra
  {
  }

  lemma GatewaySet(r: Conf, p: seq<string>, payload: string, t: Conf)
    requires Begins(p, "redirect-gateway") && t == ReadOption(r, ToLower(p[0]), p, payload)
    ensures PushSet(r, t, p, payload)
  {
    OptionsApart();
    NoneSets(r);
  }

  lemma DnsSet(r: Conf, p: seq<string>, payload: string, t: Conf)
    requires Dhcp(p, "DNS") && t == ReadDhcp(r, "DNS", p, payload)
    ensures PushSet(r, t, p, payload)
  {
    OptionsApart();
    DhcpApart();
    NoneSets(r);
  }

  lemma DomainSet(r: Conf, p: seq<string>, payload: string, t: Conf)
    requires Dhcp(p, "DOMAIN") && t == ReadDhcp(r, "DOMAIN", p, payload)
    ensures PushSet(r, t, p, payload)
  {
    OptionsApart();
    DhcpApart();
    NoneSets(r);
  }

  lemma SearchReads(r: Conf, opt: string, p: seq<string>, payload: string)
    requires opt == "DOMAIN-SEARCH" || opt == "ADAPTER_DOMAIN_SUFFIX"
    ensures ReadDhcp(r, opt, p, payload) == if |p| >= 3 && r.pushDomain == "" then r.(pushDomain := p[2]) else r
  {
    DhcpApart();
  }

  lemma SearchSet(r: Conf, p: seq<string>, payload: string, t: Conf)
    requires Search(p) && t == if |p| >= 3 && r.pushDomain == "" then r.(pushDomain := p[2]) else r
    ensures PushSet(r, t, p, payload)
  {
    OptionsApart();
    DhcpApart();
    NoneSets(r);
  }

  lemma UnknownSet(r: Conf, p: seq<string>, payload: string, t: Conf)
    requires Begins(p, "dhcp-option") && |p| >= 2 && !Dhcp(p, "DNS") && !Dhcp(p, "DOMAIN") && !Search(p) && t == KeepPush(r, payload)
    ensures PushSet(r, t, p, payload)
  {
    OptionsApart();
    NoneSets(r);
    KeepSets(r, payload, t);
  }

  lemma DhcpSet(r: Conf, p: seq<string>, payload: string, t: Conf)
    requires Begins(p, "dhcp-option") && |p| >= 2 && t == ReadDhcp(r, ToUpper(p[1]), p, payload)
    ensures PushSet(r, t, p, payload)
  {
    var opt := ToUpper(p[1]);
    if opt == "DNS" { DnsSet(r, p, payload, t); }
    else if opt == "DOMAIN" { DomainSet(r, p, payload, t); }
    else if Search(p) { SearchReads(r, opt, p, payload); SearchSet(r, p, payload, t); }
    else { UnknownSet(r, p, payload, t); }
  }

  lemma RouteReads(r: Conf, p: seq<string>, payload: string)
    requires Begins(p, "route")
    ensures ReadRoute(r, p, payload) ==
      match RouteIn(p) case Some(c) => r.(pushRoutes := r.pushRoutes + [c]) case None => KeepPush(r, payload)
  {
  }

  lemma RouteTakenSet(r: Conf, p: seq<string>, payload: string)
    requires Begins(p, "route") && RouteIn(p).Some?
    ensures PushSet(r, r.(pushRoutes := r.pushRoutes + [RouteIn(p).value]), p, payload)
  {
    OptionsApart();
    NoneSets(r);
  }

  lemma RouteKeptSet(r: Conf, p: seq<string>, payload: string, t: Conf)
    requires Begins(p, "route") && RouteIn(p) == None && t == KeepPush(r, payload)
    ensures PushSet(r, t, p, payload)
  {
    OptionsApart();
    NoneSets(r);
    KeepSets(r, payload, t);
  }

  lemma RouteSet(r: Conf, p: seq<string>, payload: string, t: Conf)
    requires Begins(p, "route") && t == ReadRoute(r, p, payload)
    ensures PushSet(r, t, p, payload)
  {
    RouteReads(r, p, payload);
    if RouteIn(p).Some? { RouteTakenSet(r, p, payload); } else { RouteKeptSet(r, p, payload, t); }
  }

  lemma NothingSet(r: Conf, p: seq<string>, payload: string)
    requires p == [] || (Begins(p, "dhcp-option") && |p| < 2)
    ensures PushSet(r, r, p, payload)
  {
    OptionsApart();
    NoneSets(r);
  }

  lemma OtherSet(r: Conf, p: seq<string>, payload: string, t: Conf)
    requires p != [] && !Begins(p, "redirect-gateway") && !Begins(p, "dhcp-option") && !Begins(p, "route") && t == KeepPush(r, payload)
    ensures PushSet(r, t, p, payload)
  {
    NoneSets(r);
    KeepSets(r, payload, t);
  }

  lemma OptionSet(r: Conf, p: seq<string>, payload: string, t: Conf)
    requires p != [] && t == ReadOption(r, ToLower(p[0]), p, payload)
    ensures PushSet(r, t, p, payload)
  {
    OptionsApart();
    if Begins(p, "redirect-gateway") { GatewaySet(r, p, payload, t); }
    else if Begins(p, "dhcp-option") { if |p| >= 2 { DhcpSet(r, p, payload, t); } else { NothingSet(r, p, payload); } }
    else if Begins(p, "route") { RouteSet(r, p, payload, t); }
    else { OtherSet(r, p, payload, t); }
  }

  lemma PushIs(r: Conf, raw: string, t: Conf)
    requires t == ReadPush(r, raw)
    ensures PushSet(r, t, Fields.Split(TrimSpace(raw)), TrimSpace(raw))
  {
    var payload := TrimSpace(raw);
    var p := Fields.Split(payload);
    if payload == "" || p == [] {
      assert Fields.Split("") == [];
      NothingSet(r, p, payload);
    } else {
      OptionSet(r, p, payload, t);
    }
  }

  // ---- lines with pushed options ----

  function PayloadOf(raw: string): string { TrimSpace(PushPayload(Bare(raw))) }

  lemma PushAfter(r: Conf, raw: string, t: Conf)
    requires t == After(r, raw) && Begins(Said(raw), "push")
    ensures PushSet(r, t, Pushed(raw), PayloadOf(raw))
  {
    IsPush();
    PushIs(r, PushPayload(Bare(raw)), t);
  }

  /** Whether a line has traffic redirected, itself or by a pushed option. */
  predicate Redirects(raw: string) { Begins(Said(raw), "redirect-gateway") || Begins(Pushed(raw), "redirect-gateway") }

  predicate LineSet(r: Conf, t: Conf, raw: string) {
    && t.pushDns == r.pushDns + Listed(DnsIn(Pushed(raw)))
    && t.pushDomain == Given(DomainIn(Pushed(raw)), if r.pushDomain == "" then Given(SearchIn(Pushed(raw)), "") else r.pushDomain)
    && t.pushRoutes == r.pushRoutes + Listed(RouteIn(Pushed(raw)))
    && t.redirectGateway == (r.redirectGateway || Redirects(raw))
    && t.pushExtra == r.pushExtra + if KeptIn(Pushed(raw)) then PushText(PayloadOf(raw)) else ""
  }

  predicate SamePushes(r: Conf, t: Conf) {
    t.pushDns == r.pushDns && t.pushDomain == r.pushDomain && t.pushRoutes == r.pushRoutes && t.pushExtra == r.pushExtra
  }

  lemma RedirectPushes(r: Conf, f: seq<string>, line: string)
    requires |f| >= 1
    ensures Directive(r, Redirect, f, line) == r.(redirectGateway := true)
  {
  }

  lemma ServerPushes(r: Conf, f: seq<string>, line: string, t: Conf)
    requires |f| >= 1 && t == Directive(r, ServerNet, f, line)
    ensures SamePushes(r, t) && t.redirectGateway == r.redirectGateway
  {
  }

  lemma MarkerPushes(r: Conf, key: Key, f: seq<string>, line: string, t: Conf)
    requires |f| >= 1 && !Stores(key) && key != Push && key != Redirect && t == Directive(r, key, f, line)
    ensures SamePushes(r, t) && t.redirectGateway == r.redirectGateway
  {
    match key {
      case Client => ClientRole(r, f, line);
      case ServerNet => ServerPushes(r, f, line, t);
      case Mode => ModeRole(r, f, line);
      case TlsServer => TlsServerRole(r, f, line);
      case TlsClient => TlsClientRole(r, f, line);
      case Other => OtherKeeps(r, f, line);
      case _ => KeptKey(r, key, f, line);
    }
  }

  lemma OthersLeave(r: Conf, key: Key, f: seq<string>, line: string, t: Conf)
    requires |f| >= 1 && key != Push && t == Directive(r, key, f, line)
    ensures SamePushes(r, t) && t.redirectGateway == (r.redirectGateway || key == Redirect)
  {
    if key == Redirect { RedirectPushes(r, f, line); }
    else if Stores(key) { StoringLeaves(r, key, f, line); }
    else { MarkerPushes(r, key, f, line, t); }
  }

  lemma NotPushed(r: Conf, raw: string, t: Conf)
    requires !Begins(Said(raw), "push") && SamePushes(r, t)
    requires t.redirectGateway == (r.redirectGateway || Begins(Said(raw), "redirect-gateway"))
    ensures LineSet(r, t, raw)
  {
    NoneSets(r);
  }

  lemma PushNotRedirect()
    ensures "push" != "redirect-gateway"
  {
  }

  lemma WordAfter(r: Conf, raw: string, t: Conf)
    requires t == After(r, raw) && Said(raw) != [] && !Begins(Said(raw), "push")
    ensures SamePushes(r, t) && t.redirectGateway == (r.redirectGateway || Begins(Said(raw), "redirect-gateway"))
  {
    var w := ToLower(Said(raw)[0]);
    IsPush(); IsRedirect();
    Names(w, Push, "push");
    Names(w, Redirect, "redirect-gateway");
    OthersLeave(r, KeyOf(w), Said(raw), Bare(raw), t);
  }

  lemma LineAfter(r: Conf, raw: string, t: Conf)
    requires t == After(r, raw)
    ensures LineSet(r, t, raw)
  {
    PushNotRedirect();
    if Begins(Said(raw), "push") {
      PushAfter(r, raw, t);
    } else {
      if Said(raw) != [] { WordAfter(r, raw, t); }
      NotPushed(r, raw, t);
    }
  }

  // ---- the pushed settings of a conf ----

  function From<T>(take: seq<string> -> Option<T>): string -> Option<T> { raw => take(Pushed(raw)) }

  function RedirectMark(raw: string): Option<bool> { if Redirects(raw) then Some(true) else None }

  function KeptPush(raw: string): Option<string> { if KeptIn(Pushed(raw)) then Some(PayloadOf(raw)) else None }

  lemma PushDnsIs(lines: seq<string>)
    ensures Settings(lines).pushDns == All(lines, From(DnsIn))
  {
    forall r, raw {:trigger After(r, raw)} ensures After(r, raw).pushDns == r.pushDns + Listed(From(DnsIn)(raw)) {
      LineAfter(r, raw, After(r, raw));
    }
    AllIs(lines, From(DnsIn), (c: Conf) => c.pushDns);
  }

  lemma PushRoutesAre(lines: seq<string>)
    ensures Settings(lines).pushRoutes == All(lines, From(RouteIn))
  {
    forall r, raw {:trigger After(r, raw)} ensures After(r, raw).pushRoutes == r.pushRoutes + Listed(From(RouteIn)(raw)) {
      LineAfter(r, raw, After(r, raw));
    }
    AllIs(lines, From(RouteIn), (c: Conf) => c.pushRoutes);
  }

  lemma RedirectIsMarked(lines: seq<string>)
    ensures Settings(lines).redirectGateway == Given(Last(lines, RedirectMark), false)
  {
    forall r, raw {:trigger After(r, raw)} ensures After(r, raw).redirectGateway == Given(RedirectMark(raw), r.redirectGateway) {
      LineAfter(r, raw, After(r, raw));
    }
    LastIs(lines, RedirectMark, (c: Conf) => c.redirectGateway);
  }

  lemma DomainsAreTexts(raw: string)
    ensures DomainIn(Pushed(raw)) != Some("") && SearchIn(Pushed(raw)) != Some("")
  {
    var payload := PayloadOf(raw);
    if |Pushed(raw)| >= 3 {
      Fields.FieldsNotEmpty(payload, Fields.Out, "");
      assert Fields.Scan(payload, Fields.Out, "")[2] != "";
    }
  }

  lemma PushDomainIs(lines: seq<string>)
    ensures Settings(lines).pushDomain == Given(Prefer(lines, From(DomainIn), From(SearchIn)), "")
  {
    var get := (c: Conf) => c.pushDomain;
    forall r, raw ensures PreferredAt(From(DomainIn), From(SearchIn), get, r, raw) {
      LineAfter(r, raw, After(r, raw));
      DomainsAreTexts(raw);
    }
    PreferIs(lines, From(DomainIn), From(SearchIn), get);
  }

  lemma {:induction false} PushExtraIs(lines: seq<string>)
    ensures Settings(lines).pushExtra == Joined(All(lines, KeptPush), PushText)
  {
    if lines != [] {
      var init, last := lines[..|lines| - 1], lines[|lines| - 1];
      PushExtraIs(init);
      LineIs(ReadLines(init), last);
      LineAfter(Settings(init), last, Settings(lines));
      var kept := All(init, KeptPush);
      if KeptIn(Pushed(last)) {
        JoinedSnoc(All(lines, KeptPush), kept, PayloadOf(last), PushText);
      } else {
        assert kept + [] == kept;
        assert Settings(init).pushExtra + "" == Settings(init).pushExtra;
      }
    }
  }

  // ---- extra lines ----

  /** A line kept as it is: it begins with no known name, or gives a pool or a redirection arguments. */
  function KeptLine(raw: string): Option<string> {
    var f := Said(raw);
    if f == [] || Dropped(ToLower(Bare(raw))) then None
    else if (Begins(f, "ifconfig-pool") && |f| >= 3) || (Begins(f, "redirect-gateway") && |f| >= 2) then Some(Bare(raw))
    else if exists k: Key :: Named(k, ToLower(f[0])) then None
    else Some(Bare(raw))
  }

  lemma FirstKeys(k: Key, w: string)
    requires NamedFirst(k, w)
    ensures KeyOf(w) == k
  {
    match k {
      case Client => IsClient();
      case ServerNet => IsServer();
      case Mode => IsMode();
      case TlsServer => IsTlsServer();
      case TlsClient => IsTlsClient();
      case Proto => IsProto();
      case Port => PortNames(w);
      case Local => IsLocal();
      case Dev => IsDev();
      case DevType => IsDevType();
      case Topology => IsTopology();
      case RemoteKey => IsRemote();
    }
  }

  lemma RestKeys(k: Key, w: string)
    requires NamedRest(k, w)
    ensures KeyOf(w) == k
  {
    match k {
      case Cipher => IsCipher();
      case DataCiphers => IsDataCiphers();
      case Auth => IsAuth();
      case Ca => IsCa();
      case Cert => IsCert();
      case KeyFile => IsKey();
      case Dh => IsDh();
      case TlsCrypt => IsTlsCrypt();
      case TlsAuth => IsTlsAuth();
      case Secret => IsSecret();
      case Push => IsPush();
    }
  }

  lemma LastKeys(k: Key, w: string)
    requires NamedLast(k, w)
    ensures KeyOf(w) == k
  {
    match k {
      case PluginKey => IsPlugin();
      case MaxClients => IsMaxClients();
      case TlsVersionMin => IsTlsVersionMin();
      case TunMtu => IsTunMtu();
      case Sndbuf => IsSndbuf();
      case Rcvbuf => IsRcvbuf();
      case ServerIpv6 => IsServerIpv6();
      case IfconfigPool => IsIfconfigPool();
      case Redirect => IsRedirect();
    }
  }

  lemma OtherExactly(w: string)
    ensures KeyOf(w) == Other <==> !exists k: Key :: Named(k, w)
  {
    KeyName(w);
    forall k: Key | Named(k, w) ensures KeyOf(w) != Other {
      if NamedFirst(k, w) { FirstKeys(k, w); } else if NamedRest(k, w) { RestKeys(k, w); } else { LastKeys(k, w); }
    }
  }
}
