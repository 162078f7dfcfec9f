/** What any conf imports as, directive by directive. */
module ConfReads {
  import opened Wrappers
  import opened Text
  import opened Inline
  import opened ConfImport
  import opened ConfNames
  import opened ConfRoundTrip
  import opened ConfWords
  import Fields

  /** The settings after one more line. */
  function After(r: Conf, raw: string): Conf {
    var f := Said(raw);
    if f == [] then r else Directive(r, KeyOf(ToLower(f[0])), f, Bare(raw))
  }

  function Settings(lines: seq<string>): Conf { ReadLines(lines).conf }

  lemma OtherKeeps(r: Conf, f: seq<string>, line: string)
    requires |f| >= 1
    ensures Directive(r, Other, f, line) == r
  {
  }

  lemma TrimmedIs(s: Scanned, line: string)
    ensures ReadTrimmed(s, line).conf ==
      var f := Fields.Split(line); if f == [] then s.conf else Directive(s.conf, KeyOf(ToLower(f[0])), f, line)
  {
    var f := Fields.Split(line);
    if line != "" && ShouldIgnore(ToLower(line)) {
      IgnoredIsOther(line);
      OtherKeeps(s.conf, f, line);
    }
  }

  lemma LineIs(s: Scanned, raw: string)
    ensures ReadLine(s, raw).conf == After(s.conf, raw)
  {
    TrimmedIs(s, Bare(raw));
  }

  // ---- picking from lines ----

  /** What the last line has that has any. */
  function Last<T>(lines: seq<string>, pick: string -> Option<T>): Option<T> {
    if lines == [] then None
    else
      match pick(lines[|lines| - 1])
      case Some(v) => Some(v)
      case None => Last(lines[..|lines| - 1], pick)
  }

  /** What the first line has that has any. */
  function First<T>(lines: seq<string>, pick: string -> Option<T>): Option<T> {
    if lines == [] then None
    else
      match pick(lines[0])
      case Some(v) => Some(v)
      case None => First(lines[1..], pick)
  }

  /** What the lines have, in order. */
  function All<T>(lines: seq<string>, pick: string -> Option<T>): seq<T> {
    if lines == [] then [] else All(lines[..|lines| - 1], pick) + Listed(pick(lines[|lines| - 1]))
  }

  function Listed<T>(o: Option<T>): seq<T> { match o case Some(v) => [v] case None => [] }

  function Given<T>(o: Option<T>, default: T): T { match o case Some(v) => v case None => default }

  lemma {:induction false} FirstSnoc<T>(lines: seq<string>, init: seq<string>, last: string, pick: string -> Option<T>)
    requires lines == init + [last]
    ensures First(lines, pick) == if First(init, pick).Some? then First(init, pick) else pick(last)
  {
    if init == [] {
      assert lines[1..] == [];
    } else {
      assert lines[1..] == init[1..] + [last];
      FirstSnoc(lines[1..], init[1..], last, pick);
    }
  }

  /** A setting that each line that has it replaces. */
  ghost predicate Replaced<T(!new)>(pick: string -> Option<T>, get: Conf -> T) {
    forall r, raw {:trigger After(r, raw)} :: get(After(r, raw)) == Given(pick(raw), get(r))
  }

  lemma {:induction false} LastIs<T(!new)>(lines: seq<string>, pick: string -> Option<T>, get: Conf -> T)
    requires Replaced(pick, get)
    ensures get(Settings(lines)) == Given(Last(lines, pick), get(BLANK))
  {
    if lines != [] {
      var init, last := lines[..|lines| - 1], lines[|lines| - 1];
      LastIs(init, pick, get);
      LineIs(ReadLines(init), last);
      assert get(After(Settings(init), last)) == Given(pick(last), get(Settings(init)));
    }
  }

  /** A setting that each line that has it adds to. */
  ghost predicate Added<T(!new)>(pick: string -> Option<T>, get: Conf -> seq<T>) {
    forall r, raw {:trigger After(r, raw)} :: get(After(r, raw)) == get(r) + Listed(pick(raw))
  }

  lemma {:induction false} AllIs<T(!new)>(lines: seq<string>, pick: string -> Option<T>, get: Conf -> seq<T>)
    requires Added(pick, get) && get(BLANK) == []
    ensures get(Settings(lines)) == All(lines, pick)
  {
    if lines != [] {
      var init, last := lines[..|lines| - 1], lines[|lines| - 1];
      AllIs(init, pick, get);
      LineIs(ReadLines(init), last);
      assert get(After(Settings(init), last)) == get(Settings(init)) + Listed(pick(last));
    }
  }

  predicate PreferredAt(strong: string -> Option<string>, weak: string -> Option<string>, get: Conf -> string, r: Conf, raw: string) {
    && strong(raw) != Some("") && weak(raw) != Some("")
    && get(After(r, raw)) == Given(strong(raw), if get(r) == "" then Given(weak(raw), "") else get(r))
  }

  /** A text set by some lines always, and by others only while there is none. */
  ghost predicate Preferred(strong: string -> Option<string>, weak: string -> Option<string>, get: Conf -> string) {
    forall r, raw :: PreferredAt(strong, weak, get, r, raw)
  }

  /** The last of the strong ones, else the first of the weak ones. */
  function Prefer(lines: seq<string>, strong: string -> Option<string>, weak: string -> Option<string>): Option<string> {
    if Last(lines, strong).Some? then Last(lines, strong) else First(lines, weak)
  }

  lemma {:induction false} PreferIs(lines: seq<string>, strong: string -> Option<string>, weak: string -> Option<string>, get: Conf -> string)
    requires Preferred(strong, weak, get) && get(BLANK) == ""
    ensures get(Settings(lines)) == Given(Prefer(lines, strong, weak), "") && Prefer(lines, strong, weak) != Some("")
  {
    if lines != [] {
      var init, last := lines[..|lines| - 1], lines[|lines| - 1];
      PreferIs(init, strong, weak, get);
      LineIs(ReadLines(init), last);
      FirstSnoc(lines, init, last, weak);
      assert PreferredAt(strong, weak, get, Settings(init), last);
    }
  }

  // ---- what a directive leaves alone ----

  /** No more than the pushed options differ. */
  predicate PushedOnly(r: Conf, t: Conf) {
    t == r.(redirectGateway := t.redirectGateway, pushDns := t.pushDns, pushRoutes := t.pushRoutes, pushDomain := t.pushDomain,
            pushExtra := t.pushExtra)
  }

  lemma KeptLeaves(r: Conf, payload: string)
    ensures PushedOnly(r, KeepPush(r, payload))
  {
  }

  lemma DnsLeaves(r: Conf, dns: seq<string>)
    ensures PushedOnly(r, r.(pushDns := dns))
  {
  }

  lemma DomainLeaves(r: Conf, domain: string)
    ensures PushedOnly(r, r.(pushDomain := domain))
  {
  }

  lemma NothingLeaves(r: Conf)
    ensures PushedOnly(r, r)
  {
  }

  lemma DhcpLeaves(r: Conf, opt: string, f: seq<string>, payload: string, t: Conf)
    requires t == ReadDhcp(r, opt, f, payload)
    ensures PushedOnly(r, t)
  {
    KeptLeaves(r, payload);
    NothingLeaves(r);
    if |f| >= 3 {
      DnsLeaves(r, r.pushDns + [f[2]]);
      DomainLeaves(r, f[2]);
    }
  }

  lemma RoutesLeaves(r: Conf, routes: seq<string>)
    ensures PushedOnly(r, r.(pushRoutes := routes))
  {
  }

  lemma RouteLeaves(r: Conf, f: seq<string>, payload: string, t: Conf)
    requires t == ReadRoute(r, f, payload)
    ensures PushedOnly(r, t)
  {
    KeptLeaves(r, payload);
    if |f| >= 3 && NetworkMaskToCidr(f[1], f[2]).Some? {
      RoutesLeaves(r, r.pushRoutes + [NetworkMaskToCidr(f[1], f[2]).value]);
    } else if |f| >= 2 {
      RoutesLeaves(r, r.pushRoutes + [f[1]]);
    }
  }

  lemma RedirectLeaves(r: Conf)
    ensures PushedOnly(r, r.(redirectGateway := true))
  {
  }

  lemma OptionLeaves(r: Conf, key: string, f: seq<string>, payload: string, t: Conf)
    requires t == ReadOption(r, key, f, payload)
    ensures PushedOnly(r, t)
  {
    if key == "redirect-gateway" {
      RedirectLeaves(r);
    } else if key == "dhcp-option" {
      NothingLeaves(r);
      if |f| >= 2 { DhcpLeaves(r, ToUpper(f[1]), f, payload, t); }
    } else if key == "route" {
      RouteLeaves(r, f, payload, t);
    } else {
      KeptLeaves(r, payload);
    }
  }

  lemma PushLeaves(r: Conf, raw: string, t: Conf)
    requires t == ReadPush(r, raw)
    ensures PushedOnly(r, t)
  {
    var payload := TrimSpace(raw);
    var f := Fields.Split(payload);
    if payload == "" || f == [] { NothingLeaves(r); } else { OptionLeaves(r, ToLower(f[0]), f, payload, t); }
  }

  /** No more than the role, the server network and the pushed options differ. */
  predicate MarkedOnly(r: Conf, t: Conf) {
    t == r.(role := t.role, sawClient := t.sawClient, sawServer := t.sawServer, serverNetwork := t.serverNetwork,
            redirectGateway := t.redirectGateway, pushDns := t.pushDns, pushRoutes := t.pushRoutes, pushDomain := t.pushDomain,
            pushExtra := t.pushExtra)
  }

  lemma PushedIsMarked(r: Conf, t: Conf)
    requires PushedOnly(r, t)
    ensures MarkedOnly(r, t)
  {
  }

  lemma ServerLeaves(r: Conf, f: seq<string>, line: string)
    requires |f| >= 1
    ensures MarkedOnly(r, Directive(r, ServerNet, f, line))
  {
  }

  lemma RoleLeaves(r: Conf, key: Key, f: seq<string>, line: string)
    requires |f| >= 1 && (key.Client? || key.Mode? || key.TlsServer? || key.TlsClient?)
    ensures MarkedOnly(r, Directive(r, key, f, line))
  {
  }

  lemma MarkerLeaves(r: Conf, key: Key, f: seq<string>, line: string, t: Conf)
    requires |f| >= 1 && !Stores(key) && t == Directive(r, key, f, line)
    ensures MarkedOnly(r, t)
  {
    match key {
      case Push => PushLeaves(r, PushPayload(line), t); PushedIsMarked(r, t);
      case ServerNet => ServerLeaves(r, f, line);
      case Redirect => RedirectLeaves(r); PushedIsMarked(r, t);
      case IfconfigPool => NothingLeaves(r); PushedIsMarked(r, t);
      case Other => NothingLeaves(r); PushedIsMarked(r, t);
      case _ => RoleLeaves(r, key, f, line);
    }
  }

  /** The role, the server network and the pushed options agree. */
  predicate SameMarks(r: Conf, t: Conf) {
    && t.role == r.role && t.sawClient == r.sawClient && t.sawServer == r.sawServer && t.serverNetwork == r.serverNetwork
    && t.redirectGateway == r.redirectGateway && t.pushDns == r.pushDns && t.pushRoutes == r.pushRoutes
    && t.pushDomain == r.pushDomain && t.pushExtra == r.pushExtra
  }

  lemma NumberLeaves(r: Conf, key: Key, f: seq<string>)
    requires |f| >= 2 && (key.Port? || key.MaxClients? || key.TunMtu? || key.Sndbuf? || key.Rcvbuf?)
    ensures SameMarks(r, Setting(r, key, f))
  {
  }

  lemma PathLeaves(r: Conf, key: Key, f: seq<string>)
    requires |f| >= 2 && (key.Ca? || key.Cert? || key.KeyFile? || key.Dh? || key.TlsCrypt? || key.TlsAuth? || key.Secret? || key.PluginKey?)
    ensures SameMarks(r, Setting(r, key, f))
  {
  }

  lemma SettingLeaves(r: Conf, key: Key, f: seq<string>)
    requires |f| >= 2
    ensures SameMarks(r, Setting(r, key, f))
  {
    if key.Dev? { DevLeaves(r, f[1]); }
    else if key.RemoteKey? { RemoteLeaves(r, f); }
    else if key.Port? || key.MaxClients? || key.TunMtu? || key.Sndbuf? || key.Rcvbuf? { NumberLeaves(r, key, f); }
    else if key.Ca? || key.Cert? || key.KeyFile? || key.Dh? || key.TlsCrypt? || key.TlsAuth? || key.Secret? || key.PluginKey? {
      PathLeaves(r, key, f);
    }
  }

  lemma DevLeaves(r: Conf, dev: string)
    ensures SameMarks(r, ReadDev(r, dev))
  {
  }

  lemma RemoteLeaves(r: Conf, f: seq<string>)
    requires |f| >= 2
    ensures SameMarks(r, ReadRemote(r, f))
  {
  }

  lemma StoringIs(r: Conf, key: Key, f: seq<string>, line: string)
    requires |f| >= 1 && Stores(key)
    ensures Directive(r, key, f, line) == if |f| >= 2 then Setting(r, key, f) else r
  {
  }

  lemma StoringLeaves(r: Conf, key: Key, f: seq<string>, line: string)
    requires |f| >= 1 && Stores(key)
    ensures SameMarks(r, Directive(r, key, f, line))
  {
    StoringIs(r, key, f, line);
    if |f| >= 2 { SettingLeaves(r, key, f); }
  }

  // ---- settings with one name ----

  /** The arguments of the lines that begin with a name and have one. */
  function Of<T>(name: string, take: seq<string> -> Option<T>): string -> Option<T> {
    raw => if |Said(raw)| >= 2 && ToLower(Said(raw)[0]) == name then take(Said(raw)) else None
  }

  function Arg(f: seq<string>): Option<string> { if |f| >= 2 then Some(f[1]) else None }

  function LowArg(f: seq<string>): Option<string> { if |f| >= 2 then Some(ToLower(f[1])) else None }

  function Args(f: seq<string>): Option<string> { if |f| >= 2 then Some(Join(f[1..], ' ')) else None }

  function NotNone(f: seq<string>): Option<string> { if |f| >= 2 && ToLower(f[1]) != "none" then Some(f[1]) else None }

  function IntArg(f: seq<string>): Option<int> { if |f| >= 2 then Atoi(f[1]) else None }

  /** A setting that only one directive changes. */
  ghost predicate Stored<T(!new)>(k: Key, take: seq<string> -> Option<T>, get: Conf -> T) {
    forall r, key, f, line {:trigger Directive(r, key, f, line)} ::
      |f| >= 1 ==> get(Directive(r, key, f, line)) == if key == k && |f| >= 2 then Given(take(f), get(r)) else get(r)
  }

  lemma StoredAfter<T(!new)>(r: Conf, raw: string, name: string, k: Key, take: seq<string> -> Option<T>, get: Conf -> T)
    requires Known(name, k) && Stores(k) && k != Port && Stored(k, take, get)
    ensures get(After(r, raw)) == Given(Of(name, take)(raw), get(r))
  {
    var f := Said(raw);
    if f != [] {
      Names(ToLower(f[0]), k, name);
      assert After(r, raw) == Directive(r, KeyOf(ToLower(f[0])), f, Bare(raw));
    }
  }

  lemma StoredIs<T(!new)>(lines: seq<string>, name: string, k: Key, take: seq<string> -> Option<T>, get: Conf -> T)
    requires Known(name, k) && Stores(k) && k != Port && Stored(k, take, get)
    ensures get(Settings(lines)) == Given(Last(lines, Of(name, take)), get(BLANK))
  {
    forall r, raw ensures get(After(r, raw)) == Given(Of(name, take)(raw), get(r)) {
      StoredAfter(r, raw, name, k, take, get);
    }
    LastIs(lines, Of(name, take), get);
  }

  /** A setting that two directives change. */
  ghost predicate StoredTwo<T(!new)>(k: Key, take: seq<string> -> Option<T>, k': Key, take': seq<string> -> Option<T>, get: Conf -> T) {
    forall r, key, f, line {:trigger Directive(r, key, f, line)} ::
      |f| >= 1 ==>
        (get(Directive(r, key, f, line)) ==
           if key == k && |f| >= 2 then Given(take(f), get(r)) else if key == k' && |f| >= 2 then Given(take'(f), get(r)) else get(r))
  }

  function Either<T>(a: string -> Option<T>, b: string -> Option<T>): string -> Option<T> {
    raw => if a(raw).Some? then a(raw) else b(raw)
  }

  lemma StoredTwoAfter<T(!new)>(r: Conf, raw: string, name: string, k: Key, take: seq<string> -> Option<T>,
                                name': string, k': Key, take': seq<string> -> Option<T>, get: Conf -> T)
    requires Known(name, k) && Stores(k) && k != Port && Known(name', k') && Stores(k') && k' != Port && k != k'
    requires StoredTwo(k, take, k', take', get)
    ensures get(After(r, raw)) == Given(Either(Of(name, take), Of(name', take'))(raw), get(r))
  {
    var f := Said(raw);
    if f != [] {
      Names(ToLower(f[0]), k, name);
      Names(ToLower(f[0]), k', name');
      assert After(r, raw) == Directive(r, KeyOf(ToLower(f[0])), f, Bare(raw));
    }
  }

  lemma StoredTwoIs<T(!new)>(lines: seq<string>, name: string, k: Key, take: seq<string> -> Option<T>,
                             name': string, k': Key, take': seq<string> -> Option<T>, get: Conf -> T)
    requires Known(name, k) && Stores(k) && k != Port && Known(name', k') && Stores(k') && k' != Port && k != k'
    requires StoredTwo(k, take, k', take', get)
    ensures get(Settings(lines)) == Given(Last(lines, Either(Of(name, take), Of(name', take'))), get(BLANK))
  {
    forall r, raw ensures get(After(r, raw)) == Given(Either(Of(name, take), Of(name', take'))(raw), get(r)) {
      StoredTwoAfter(r, raw, name, k, take, name', k', take', get);
    }
    LastIs(lines, Either(Of(name, take), Of(name', take')), get);
  }

  /** A list that only one directive adds to. */
  ghost predicate Listing<T(!new)>(k: Key, take: seq<string> -> Option<T>, get: Conf -> seq<T>) {
    forall r, key, f, line {:trigger Directive(r, key, f, line)} ::
      |f| >= 1 ==> get(Directive(r, key, f, line)) == if key == k && |f| >= 2 then get(r) + Listed(take(f)) else get(r)
  }

  lemma ListingAfter<T(!new)>(r: Conf, raw: string, name: string, k: Key, take: seq<string> -> Option<T>, get: Conf -> seq<T>)
    requires Known(name, k) && Stores(k) && k != Port && Listing(k, take, get)
    ensures get(After(r, raw)) == get(r) + Listed(Of(name, take)(raw))
  {
    var f := Said(raw);
    if f != [] {
      Names(ToLower(f[0]), k, name);
      assert After(r, raw) == Directive(r, KeyOf(ToLower(f[0])), f, Bare(raw));
    }
  }

  lemma ListingIs<T(!new)>(lines: seq<string>, name: string, k: Key, take: seq<string> -> Option<T>, get: Conf -> seq<T>)
    requires Known(name, k) && Stores(k) && k != Port && Listing(k, take, get) && get(BLANK) == []
    ensures get(Settings(lines)) == All(lines, Of(name, take))
  {
    forall r, raw ensures get(After(r, raw)) == get(r) + Listed(Of(name, take)(raw)) {
      ListingAfter(r, raw, name, k, take, get);
    }
    AllIs(lines, Of(name, take), get);
  }

  /** A text that one directive sets always, and another only while there is none. */
  ghost predicate StoredOr(k: Key, take: seq<string> -> Option<string>, k': Key, take': seq<string> -> Option<string>, get: Conf -> string) {
    forall r, key, f, line {:trigger Directive(r, key, f, line)} ::
      |f| >= 1 ==>
        (get(Directive(r, key, f, line)) ==
           if key == k && |f| >= 2 then Given(take(f), get(r))
           else if key == k' && |f| >= 2 && get(r) == "" then Given(take'(f), "") else get(r))
  }

  lemma StoredOrAfter(r: Conf, raw: string, name: string, k: Key, take: seq<string> -> Option<string>,
                      name': string, k': Key, take': seq<string> -> Option<string>, get: Conf -> string)
    requires Known(name, k) && Stores(k) && k != Port && Known(name', k') && Stores(k') && k' != Port && k != k'
    requires StoredOr(k, take, k', take', get)
    ensures get(After(r, raw)) == Given(Of(name, take)(raw), if get(r) == "" then Given(Of(name', take')(raw), "") else get(r))
  {
    var f := Said(raw);
    if f != [] {
      Names(ToLower(f[0]), k, name);
      Names(ToLower(f[0]), k', name');
      assert After(r, raw) == Directive(r, KeyOf(ToLower(f[0])), f, Bare(raw));
    }
  }

  function Chosen<T>(on: bool, o: Option<T>, was: T): T { if on then Given(o, was) else was }

  /** The texts that a directive of their own sets. */
  predicate TextsSet(r: Conf, t: Conf, key: Key, f: seq<string>) {
    && t.localBind == Chosen(key.Local?, Arg(f), r.localBind) && t.serverIpv6 == Chosen(key.ServerIpv6?, Arg(f), r.serverIpv6)
    && t.topology == Chosen(key.Topology?, LowArg(f), r.topology) && t.cipher == Chosen(key.Cipher?, Arg(f), r.cipher)
    && t.dataCiphers == Chosen(key.DataCiphers?, Args(f), r.dataCiphers) && t.authDigest == Chosen(key.Auth?, Arg(f), r.authDigest)
    && t.tlsVersionMin == Chosen(key.TlsVersionMin?, Arg(f), r.tlsVersionMin)
  }

  predicate PathsSet(r: Conf, t: Conf, key: Key, f: seq<string>) {
    && t.ca == Chosen(key.Ca?, Arg(f), r.ca) && t.cert == Chosen(key.Cert?, Arg(f), r.cert)
    && t.key == Chosen(key.KeyFile?, Arg(f), r.key) && t.dh == Chosen(key.Dh?, NotNone(f), r.dh)
    && t.tlsCrypt == Chosen(key.TlsCrypt?, Arg(f), r.tlsCrypt)
    && t.staticKey == Chosen(key.TlsAuth? || key.Secret?, Arg(f), r.staticKey)
    && t.staticKeyMode == (r.staticKeyMode || (key.Secret? && |f| >= 2))
  }

  predicate NumbersSet(r: Conf, t: Conf, key: Key, f: seq<string>) {
    && t.port == Chosen(key.Port?, IntArg(f), r.port) && t.maxClients == Chosen(key.MaxClients?, IntArg(f), r.maxClients)
    && t.tunMtu == Chosen(key.TunMtu?, IntArg(f), r.tunMtu) && t.sndbuf == Chosen(key.Sndbuf?, IntArg(f), r.sndbuf)
    && t.rcvbuf == Chosen(key.Rcvbuf?, IntArg(f), r.rcvbuf)
  }

  predicate EarlyKey(key: Key) {
    || key.Proto? || key.Port? || key.Local? || key.DevType? || key.Topology? || key.Cipher? || key.DataCiphers? || key.Auth?
    || key.Ca? || key.Cert? || key.KeyFile?
  }

  lemma DevTexts(r: Conf, f: seq<string>)
    requires |f| >= 2
    ensures TextsSet(r, ReadDev(r, f[1]), Dev, f) && TextsSet(r, ReadRemote(r, f), RemoteKey, f)
  {
  }

  lemma FirstTexts(r: Conf, key: Key, f: seq<string>, t: Conf)
    requires |f| >= 2 && EarlyKey(key) && t == Setting(r, key, f)
    ensures TextsSet(r, t, key, f)
  {
  }

  lemma LateTexts(r: Conf, key: Key, f: seq<string>, t: Conf)
    requires |f| >= 2 && Stores(key) && !EarlyKey(key) && !key.Dev? && !key.RemoteKey? && t == Setting(r, key, f)
    ensures TextsSet(r, t, key, f)
  {
  }

  lemma SettingTexts(r: Conf, key: Key, f: seq<string>, t: Conf)
    requires |f| >= 2 && Stores(key) && t == Setting(r, key, f)
    ensures TextsSet(r, t, key, f)
  {
    if key.Dev? || key.RemoteKey? { DevTexts(r, f); } else if EarlyKey(key) { FirstTexts(r, key, f, t); } else { LateTexts(r, key, f, t); }
  }

  lemma DevPaths(r: Conf, f: seq<string>)
    requires |f| >= 2
    ensures PathsSet(r, ReadDev(r, f[1]), Dev, f) && PathsSet(r, ReadRemote(r, f), RemoteKey, f)
  {
  }

  lemma FirstPaths(r: Conf, key: Key, f: seq<string>, t: Conf)
    requires |f| >= 2 && EarlyKey(key) && t == Setting(r, key, f)
    ensures PathsSet(r, t, key, f)
  {
  }

  lemma LatePaths(r: Conf, key: Key, f: seq<string>, t: Conf)
    requires |f| >= 2 && Stores(key) && !EarlyKey(key) && !key.Dev? && !key.RemoteKey? && t == Setting(r, key, f)
    ensures PathsSet(r, t, key, f)
  {
  }

  lemma SettingPaths(r: Conf, key: Key, f: seq<string>, t: Conf)
    requires |f| >= 2 && Stores(key) && t == Setting(r, key, f)
    ensures PathsSet(r, t, key, f)
  {
    if key.Dev? || key.RemoteKey? { DevPaths(r, f); } else if EarlyKey(key) { FirstPaths(r, key, f, t); } else { LatePaths(r, key, f, t); }
  }

  lemma DevNumbers(r: Conf, f: seq<string>)
    requires |f| >= 2
    ensures NumbersSet(r, ReadDev(r, f[1]), Dev, f) && NumbersSet(r, ReadRemote(r, f), RemoteKey, f)
  {
  }

  lemma FirstNumbers(r: Conf, key: Key, f: seq<string>, t: Conf)
    requires |f| >= 2 && EarlyKey(key) && t == Setting(r, key, f)
    ensures NumbersSet(r, t, key, f)
  {
  }

  lemma LateNumbers(r: Conf, key: Key, f: seq<string>, t: Conf)
    requires |f| >= 2 && Stores(key) && !EarlyKey(key) && !key.Dev? && !key.RemoteKey? && t == Setting(r, key, f)
    ensures NumbersSet(r, t, key, f)
  {
  }

  lemma SettingNumbers(r: Conf, key: Key, f: seq<string>, t: Conf)
    requires |f| >= 2 && Stores(key) && t == Setting(r, key, f)
    ensures NumbersSet(r, t, key, f)
  {
    if key.Dev? || key.RemoteKey? { DevNumbers(r, f); } else if EarlyKey(key) { FirstNumbers(r, key, f, t); } else { LateNumbers(r, key, f, t); }
  }

  lemma MarkedTexts(r: Conf, t: Conf, key: Key, f: seq<string>)
    requires MarkedOnly(r, t) && !Stores(key)
    ensures TextsSet(r, t, key, f)
  {
  }

  lemma SameTexts(r: Conf, key: Key, f: seq<string>)
    requires |f| < 2
    ensures TextsSet(r, r, key, f)
  {
  }

  lemma DirectiveTexts(r: Conf, key: Key, f: seq<string>, line: string, t: Conf)
    requires |f| >= 1 && t == Directive(r, key, f, line)
    ensures TextsSet(r, t, key, f)
  {
    if !Stores(key) {
      MarkerLeaves(r, key, f, line, t);
      MarkedTexts(r, t, key, f);
    } else {
      StoringIs(r, key, f, line);
      if |f| >= 2 { SettingTexts(r, key, f, t); } else { SameTexts(r, key, f); }
    }
  }

  lemma MarkedPaths(r: Conf, t: Conf, key: Key, f: seq<string>)
    requires MarkedOnly(r, t) && !Stores(key)
    ensures PathsSet(r, t, key, f)
  {
  }

  lemma SamePaths(r: Conf, key: Key, f: seq<string>)
    requires |f| < 2
    ensures PathsSet(r, r, key, f)
  {
  }

  lemma DirectivePaths(r: Conf, key: Key, f: seq<string>, line: string, t: Conf)
    requires |f| >= 1 && t == Directive(r, key, f, line)
    ensures PathsSet(r, t, key, f)
  {
    if !Stores(key) {
      MarkerLeaves(r, key, f, line, t);
      MarkedPaths(r, t, key, f);
    } else {
      StoringIs(r, key, f, line);
      if |f| >= 2 { SettingPaths(r, key, f, t); } else { SamePaths(r, key, f); }
    }
  }

  lemma MarkedNumbers(r: Conf, t: Conf, key: Key, f: seq<string>)
    requires MarkedOnly(r, t) && !Stores(key)
    ensures NumbersSet(r, t, key, f)
  {
  }

  lemma SameNumbers(r: Conf, key: Key, f: seq<string>)
    requires |f| < 2
    ensures NumbersSet(r, r, key, f)
  {
  }

  lemma DirectiveNumbers(r: Conf, key: Key, f: seq<string>, line: string, t: Conf)
    requires |f| >= 1 && t == Directive(r, key, f, line)
    ensures NumbersSet(r, t, key, f)
  {
    if !Stores(key) {
      MarkerLeaves(r, key, f, line, t);
      MarkedNumbers(r, t, key, f);
    } else {
      StoringIs(r, key, f, line);
      if |f| >= 2 { SettingNumbers(r, key, f, t); } else { SameNumbers(r, key, f); }
    }
  }

  lemma LocalIs(lines: seq<string>)
    ensures Settings(lines).localBind == Given(Last(lines, Of("local", Arg)), "")
  {
    IsLocal();
    forall r, key, f, line | |f| >= 1
      ensures Directive(r, key, f, line).localBind == if key == Local && |f| >= 2 then Given(Arg(f), r.localBind) else r.localBind
    {
      DirectiveTexts(r, key, f, line, Directive(r, key, f, line));
    }
    StoredIs(lines, "local", Local, Arg, (c: Conf) => c.localBind);
  }

  lemma Ipv6Is(lines: seq<string>)
    ensures Settings(lines).serverIpv6 == Given(Last(lines, Of("server-ipv6", Arg)), "")
  {
    IsServerIpv6();
    forall r, key, f, line | |f| >= 1
      ensures Directive(r, key, f, line).serverIpv6 == if key == ServerIpv6 && |f| >= 2 then Given(Arg(f), r.serverIpv6) else r.serverIpv6
    {
      DirectiveTexts(r, key, f, line, Directive(r, key, f, line));
    }
    StoredIs(lines, "server-ipv6", ServerIpv6, Arg, (c: Conf) => c.serverIpv6);
  }

  lemma TopologyIs(lines: seq<string>)
    ensures Settings(lines).topology == Given(Last(lines, Of("topology", LowArg)), "")
  {
    IsTopology();
    forall r, key, f, line | |f| >= 1
      ensures Directive(r, key, f, line).topology == if key == Topology && |f| >= 2 then Given(LowArg(f), r.topology) else r.topology
    {
      DirectiveTexts(r, key, f, line, Directive(r, key, f, line));
    }
    StoredIs(lines, "topology", Topology, LowArg, (c: Conf) => c.topology);
  }

  lemma CipherIs(lines: seq<string>)
    ensures Settings(lines).cipher == Given(Last(lines, Of("cipher", Arg)), "")
  {
    IsCipher();
    forall r, key, f, line | |f| >= 1
      ensures Directive(r, key, f, line).cipher == if key == Cipher && |f| >= 2 then Given(Arg(f), r.cipher) else r.cipher
    {
      DirectiveTexts(r, key, f, line, Directive(r, key, f, line));
    }
    StoredIs(lines, "cipher", Cipher, Arg, (c: Conf) => c.cipher);
  }

  lemma DataCiphersAre(lines: seq<string>)
    ensures Settings(lines).dataCiphers == Given(Last(lines, Of("data-ciphers", Args)), "")
  {
    IsDataCiphers();
    forall r, key, f, line | |f| >= 1
      ensures Directive(r, key, f, line).dataCiphers == if key == DataCiphers && |f| >= 2 then Given(Args(f), r.dataCiphers) else r.dataCiphers
    {
      DirectiveTexts(r, key, f, line, Directive(r, key, f, line));
    }
    StoredIs(lines, "data-ciphers", DataCiphers, Args, (c: Conf) => c.dataCiphers);
  }

  lemma DigestIs(lines: seq<string>)
    ensures Settings(lines).authDigest == Given(Last(lines, Of("auth", Arg)), "")
  {
    IsAuth();
    forall r, key, f, line | |f| >= 1
      ensures Directive(r, key, f, line).authDigest == if key == Auth && |f| >= 2 then Given(Arg(f), r.authDigest) else r.authDigest
    {
      DirectiveTexts(r, key, f, line, Directive(r, key, f, line));
    }
    StoredIs(lines, "auth", Auth, Arg, (c: Conf) => c.authDigest);
  }

  lemma VersionIs(lines: seq<string>)
    ensures Settings(lines).tlsVersionMin == Given(Last(lines, Of("tls-version-min", Arg)), "")
  {
    IsTlsVersionMin();
    forall r, key, f, line | |f| >= 1
      ensures Directive(r, key, f, line).tlsVersionMin == if key == TlsVersionMin && |f| >= 2 then Given(Arg(f), r.tlsVersionMin) else r.tlsVersionMin
    {
      DirectiveTexts(r, key, f, line, Directive(r, key, f, line));
    }
    StoredIs(lines, "tls-version-min", TlsVersionMin, Arg, (c: Conf) => c.tlsVersionMin);
  }

  lemma CaIs(lines: seq<string>)
    ensures Settings(lines).ca == Given(Last(lines, Of("ca", Arg)), "")
  {
    IsCa();
    forall r, key, f, line | |f| >= 1
      ensures Directive(r, key, f, line).ca == if key == Ca && |f| >= 2 then Given(Arg(f), r.ca) else r.ca
    {
      DirectivePaths(r, key, f, line, Directive(r, key, f, line));
    }
    StoredIs(lines, "ca", Ca, Arg, (c: Conf) => c.ca);
  }

  lemma CertIs(lines: seq<string>)
    ensures Settings(lines).cert == Given(Last(lines, Of("cert", Arg)), "")
  {
    IsCert();
    forall r, key, f, line | |f| >= 1
      ensures Directive(r, key, f, line).cert == if key == Cert && |f| >= 2 then Given(Arg(f), r.cert) else r.cert
    {
      DirectivePaths(r, key, f, line, Directive(r, key, f, line));
    }
    StoredIs(lines, "cert", Cert, Arg, (c: Conf) => c.cert);
  }

  lemma KeyIs(lines: seq<string>)
    ensures Settings(lines).key == Given(Last(lines, Of("key", Arg)), "")
  {
    IsKey();
    forall r, key, f, line | |f| >= 1
      ensures Directive(r, key, f, line).key == if key == KeyFile && |f| >= 2 then Given(Arg(f), r.key) else r.key
    {
      DirectivePaths(r, key, f, line, Directive(r, key, f, line));
    }
    StoredIs(lines, "key", KeyFile, Arg, (c: Conf) => c.key);
  }

  lemma DhIs(lines: seq<string>)
    ensures Settings(lines).dh == Given(Last(lines, Of("dh", NotNone)), "")
  {
    IsDh();
    forall r, key, f, line | |f| >= 1
      ensures Directive(r, key, f, line).dh == if key == Dh && |f| >= 2 then Given(NotNone(f), r.dh) else r.dh
    {
      DirectivePaths(r, key, f, line, Directive(r, key, f, line));
    }
    StoredIs(lines, "dh", Dh, NotNone, (c: Conf) => c.dh);
  }

  lemma TlsCryptIs(lines: seq<string>)
    ensures Settings(lines).tlsCrypt == Given(Last(lines, Of("tls-crypt", Arg)), "")
  {
    IsTlsCrypt();
    forall r, key, f, line | |f| >= 1
      ensures Directive(r, key, f, line).tlsCrypt == if key == TlsCrypt && |f| >= 2 then Given(Arg(f), r.tlsCrypt) else r.tlsCrypt
    {
      DirectivePaths(r, key, f, line, Directive(r, key, f, line));
    }
    StoredIs(lines, "tls-crypt", TlsCrypt, Arg, (c: Conf) => c.tlsCrypt);
  }

  lemma ClientsAre(lines: seq<string>)
    ensures Settings(lines).maxClients == Given(Last(lines, Of("max-clients", IntArg)), 0)
  {
    IsMaxClients();
    forall r, key, f, line | |f| >= 1
      ensures Directive(r, key, f, line).maxClients == if key == MaxClients && |f| >= 2 then Given(IntArg(f), r.maxClients) else r.maxClients
    {
      DirectiveNumbers(r, key, f, line, Directive(r, key, f, line));
    }
    StoredIs(lines, "max-clients", MaxClients, IntArg, (c: Conf) => c.maxClients);
  }

  lemma MtuIs(lines: seq<string>)
    ensures Settings(lines).tunMtu == Given(Last(lines, Of("tun-mtu", IntArg)), 0)
  {
    IsTunMtu();
    forall r, key, f, line | |f| >= 1
      ensures Directive(r, key, f, line).tunMtu == if key == TunMtu && |f| >= 2 then Given(IntArg(f), r.tunMtu) else r.tunMtu
    {
      DirectiveNumbers(r, key, f, line, Directive(r, key, f, line));
    }
    StoredIs(lines, "tun-mtu", TunMtu, IntArg, (c: Conf) => c.tunMtu);
  }

  lemma SndbufIs(lines: seq<string>)
    ensures Settings(lines).sndbuf == Given(Last(lines, Of("sndbuf", IntArg)), 0)
  {
    IsSndbuf();
    forall r, key, f, line | |f| >= 1
      ensures Directive(r, key, f, line).sndbuf == if key == Sndbuf && |f| >= 2 then Given(IntArg(f), r.sndbuf) else r.sndbuf
    {
      DirectiveNumbers(r, key, f, line, Directive(r, key, f, line));
    }
    StoredIs(lines, "sndbuf", Sndbuf, IntArg, (c: Conf) => c.sndbuf);
  }

  lemma RcvbufIs(lines: seq<string>)
    ensures Settings(lines).rcvbuf == Given(Last(lines, Of("rcvbuf", IntArg)), 0)
  {
    IsRcvbuf();
    forall r, key, f, line | |f| >= 1
      ensures Directive(r, key, f, line).rcvbuf == if key == Rcvbuf && |f| >= 2 then Given(IntArg(f), r.rcvbuf) else r.rcvbuf
    {
      DirectiveNumbers(r, key, f, line, Directive(r, key, f, line));
    }
    StoredIs(lines, "rcvbuf", Rcvbuf, IntArg, (c: Conf) => c.rcvbuf);
  }
}
