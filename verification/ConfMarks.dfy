/** The role, remotes, plugins, device and ports that any conf imports as. */
module ConfMarks {
  import opened Wrappers
  import opened Text
  import opened ConfImport
  import opened ConfNames
  import opened ConfRoundTrip
  import opened ConfWords
  import opened ConfReads
  import Fields

  // ---- the role ----

  /** The role a line sets whatever came before. */
  function SetsRole(raw: string): Option<string> {
    var f := Said(raw);
    if f == [] then None
    else if ToLower(f[0]) == "client" then Some("client")
    else if ToLower(f[0]) == "server" then Some("server")
    else if ToLower(f[0]) == "mode" && |f| >= 2 && ToLower(f[1]) == "server" then Some("server")
    else None
  }

  /** The role a line sets if there is none yet. */
  function SideOf(raw: string): Option<string> {
    var f := Said(raw);
    if f == [] then None
    else if ToLower(f[0]) == "tls-server" then Some("server")
    else if ToLower(f[0]) == "tls-client" then Some("client")
    else None
  }

  function Unless(was: string, v: string): string { if was == "" then v else was }

  lemma ClientRole(r: Conf, f: seq<string>, line: string)
    requires |f| >= 1
    ensures Directive(r, Client, f, line) == r.(sawClient := true, role := "client")
  {
  }

  lemma ServerRole(r: Conf, f: seq<string>, line: string)
    requires |f| >= 1
    ensures Directive(r, ServerNet, f, line).role == "server"
    ensures Directive(r, ServerNet, f, line).serverNetwork == if |f| >= 3 then Given(NetworkMaskToCidr(f[1], f[2]), r.serverNetwork) else r.serverNetwork
  {
  }

  lemma ModeRole(r: Conf, f: seq<string>, line: string)
    requires |f| >= 1
    ensures Directive(r, Mode, f, line) == if |f| >= 2 && ToLower(f[1]) == "server" then r.(sawServer := true, role := "server") else r
  {
  }

  lemma TlsServerRole(r: Conf, f: seq<string>, line: string)
    requires |f| >= 1
    ensures Directive(r, TlsServer, f, line) == r.(sawServer := true, role := Unless(r.role, "server"))
  {
  }

  lemma TlsClientRole(r: Conf, f: seq<string>, line: string)
    requires |f| >= 1
    ensures Directive(r, TlsClient, f, line) == r.(sawClient := true, role := Unless(r.role, "client"))
  {
  }

  predicate Marks(key: Key) { key.Client? || key.ServerNet? || key.Mode? || key.TlsServer? || key.TlsClient? }

  lemma NoMarkSame(r: Conf, key: Key, f: seq<string>, line: string, t: Conf)
    requires |f| >= 1 && !Marks(key) && t == Directive(r, key, f, line)
    ensures t.role == r.role && t.sawClient == r.sawClient && t.sawServer == r.sawServer && t.serverNetwork == r.serverNetwork
  {
    if Stores(key) {
      StoringLeaves(r, key, f, line);
    } else {
      match key {
        case Push => PushLeaves(r, PushPayload(line), t);
        case Redirect => RedirectLeaves(r);
        case Other => OtherKeeps(r, f, line);
        case _ => KeptKey(r, key, f, line);
      }
    }
  }

  lemma RoleNames(w: string)
    ensures KeyOf(w) == Client <==> w == "client"
    ensures KeyOf(w) == ServerNet <==> w == "server"
    ensures KeyOf(w) == Mode <==> w == "mode"
    ensures KeyOf(w) == TlsServer <==> w == "tls-server"
    ensures KeyOf(w) == TlsClient <==> w == "tls-client"
  {
    IsClient(); IsServer(); IsMode(); IsTlsServer(); IsTlsClient();
    Names(w, Client, "client"); Names(w, ServerNet, "server"); Names(w, Mode, "mode");
    Names(w, TlsServer, "tls-server"); Names(w, TlsClient, "tls-client");
  }

  /** The role after a directive. */
  function RoleBy(key: Key, f: seq<string>, was: string): string {
    match key
    case Client => "client"
    case ServerNet => "server"
    case Mode => if |f| >= 2 && ToLower(f[1]) == "server" then "server" else was
    case TlsServer => Unless(was, "server")
    case TlsClient => Unless(was, "client")
    case _ => was
  }

  lemma RoleDirective(r: Conf, key: Key, f: seq<string>, line: string, t: Conf)
    requires |f| >= 1 && t == Directive(r, key, f, line)
    ensures t.role == RoleBy(key, f, r.role)
  {
    match key {
      case Client => ClientRole(r, f, line);
      case ServerNet => ServerRole(r, f, line);
      case Mode => ModeRole(r, f, line);
      case TlsServer => TlsServerRole(r, f, line);
      case TlsClient => TlsClientRole(r, f, line);
      case _ => NoMarkSame(r, key, f, line, t);
    }
  }

  lemma RoleBySaid(raw: string, was: string)
    requires Said(raw) != []
    ensures var f := Said(raw);
      RoleBy(KeyOf(ToLower(f[0])), f, was) == Given(SetsRole(raw), if was == "" then Given(SideOf(raw), "") else was)
  {
    RoleNames(ToLower(Said(raw)[0]));
    ApartNames();
  }

  lemma RoleAfter(r: Conf, raw: string)
    ensures After(r, raw).role == Given(SetsRole(raw), if r.role == "" then Given(SideOf(raw), "") else r.role)
  {
    var f := Said(raw);
    if f != [] {
      RoleDirective(r, KeyOf(ToLower(f[0])), f, Bare(raw), After(r, raw));
      RoleBySaid(raw, r.role);
    }
  }

  lemma ApartNames()
    ensures "client" != "server" && "mode" != "client" && "mode" != "server" && "tls-server" != "tls-client"
    ensures "tls-server" != "client" && "tls-server" != "server" && "tls-server" != "mode"
    ensures "tls-client" != "client" && "tls-client" != "server" && "tls-client" != "mode"
  {
  }

  lemma RolesAreTexts(raw: string)
    ensures SetsRole(raw) != Some("") && SideOf(raw) != Some("")
  {
  }

  lemma RoleIsPreferred(lines: seq<string>)
    ensures Settings(lines).role == Given(Prefer(lines, SetsRole, SideOf), "") && Prefer(lines, SetsRole, SideOf) != Some("")
  {
    var get := (c: Conf) => c.role;
    forall r, raw ensures PreferredAt(SetsRole, SideOf, get, r, raw) {
      RoleAfter(r, raw);
      RolesAreTexts(raw);
    }
    PreferIs(lines, SetsRole, SideOf, get);
  }

  /** No mark without a role. */
  predicate RoleKnown(r: Conf) { r.sawServer || r.sawClient || r.serverNetwork != "" ==> r.role != "" }

  lemma KnownAfter(r: Conf, raw: string)
    requires RoleKnown(r)
    ensures RoleKnown(After(r, raw))
  {
    var f, line := Said(raw), Bare(raw);
    if f != [] {
      var w := ToLower(f[0]);
      match KeyOf(w) {
        case Client => ClientRole(r, f, line);
        case ServerNet => ServerRole(r, f, line);
        case Mode => ModeRole(r, f, line);
        case TlsServer => TlsServerRole(r, f, line);
        case TlsClient => TlsClientRole(r, f, line);
        case _ => NoMarkSame(r, KeyOf(w), f, line, After(r, raw));
      }
    }
  }

  lemma {:induction false} KnownThroughout(lines: seq<string>)
    ensures RoleKnown(Settings(lines))
  {
    if lines != [] {
      var init, last := lines[..|lines| - 1], lines[|lines| - 1];
      KnownThroughout(init);
      LineIs(ReadLines(init), last);
      KnownAfter(Settings(init), last);
    }
  }

  /** The network of a server line whose netmask is one. */
  function NetOf(raw: string): Option<string> {
    var f := Said(raw);
    if |f| >= 3 && ToLower(f[0]) == "server" then NetworkMaskToCidr(f[1], f[2]) else None
  }

  lemma NetDirective(r: Conf, key: Key, f: seq<string>, line: string, t: Conf)
    requires |f| >= 1 && t == Directive(r, key, f, line)
    ensures t.serverNetwork ==
      if key == ServerNet && |f| >= 3 then Given(NetworkMaskToCidr(f[1], f[2]), r.serverNetwork) else r.serverNetwork
  {
    match key {
      case Client => ClientRole(r, f, line);
      case ServerNet => ServerRole(r, f, line);
      case Mode => ModeRole(r, f, line);
      case TlsServer => TlsServerRole(r, f, line);
      case TlsClient => TlsClientRole(r, f, line);
      case _ => NoMarkSame(r, key, f, line, t);
    }
  }

  lemma NetAfter(r: Conf, raw: string)
    ensures After(r, raw).serverNetwork == Given(NetOf(raw), r.serverNetwork)
  {
    var f := Said(raw);
    if f != [] {
      var w := ToLower(f[0]);
      IsServer();
      Names(w, ServerNet, "server");
      NetDirective(r, KeyOf(w), f, Bare(raw), After(r, raw));
    }
  }

  lemma NetworkIs(lines: seq<string>)
    ensures Settings(lines).serverNetwork == Given(Last(lines, NetOf), "")
  {
    forall r, raw ensures After(r, raw).serverNetwork == Given(NetOf(raw), r.serverNetwork) { NetAfter(r, raw); }
    LastIs(lines, NetOf, (c: Conf) => c.serverNetwork);
  }

  // ---- remotes and the protocol ----

  /** The port of a remote: its second argument if that is a number. */
  function PortSaid(f: seq<string>): int { if |f| >= 3 then Given(Atoi(f[2]), 1194) else 1194 }

  /** The protocol of a remote: its third argument, or its second if that is the last and no number. */
  function ProtoSaid(f: seq<string>): string {
    if |f| >= 4 then ToLower(f[3]) else if |f| == 3 && Atoi(f[2]) == None then ToLower(f[2]) else ""
  }

  function RemoteArg(f: seq<string>): Option<Remote> {
    if |f| >= 2 then Some(Remote(f[1], PortSaid(f), ProtoSaid(f))) else None
  }

  function RemoteProto(f: seq<string>): Option<string> {
    if |f| >= 2 && ProtoSaid(f) != "" then Some(ProtoSaid(f)) else None
  }

  lemma RemoteSets(r: Conf, f: seq<string>, t: Conf)
    requires |f| >= 2 && t == ReadRemote(r, f)
    ensures t.remotes == r.remotes + Listed(RemoteArg(f)) && t.proto == if r.proto == "" then Given(RemoteProto(f), "") else r.proto
    ensures t.plugins == r.plugins && t.devType == r.devType && t.device == r.device
  {
  }

  lemma DevSets(r: Conf, dev: string, t: Conf)
    requires t == ReadDev(r, dev)
    ensures t.remotes == r.remotes && t.proto == r.proto && t.plugins == r.plugins
  {
  }

  /** The lists and the protocol of the directives that set neither. */
  predicate SameLists(r: Conf, t: Conf, key: Key) {
    && (key.RemoteKey? || t.remotes == r.remotes) && (key.RemoteKey? || key.Proto? || t.proto == r.proto)
    && (key.PluginKey? || t.plugins == r.plugins)
    && (key.Dev? || key.DevType? || t.devType == r.devType) && (key.Dev? || t.device == r.device)
  }

  lemma SettingLists(r: Conf, key: Key, f: seq<string>, t: Conf)
    requires |f| >= 2 && Stores(key) && t == Setting(r, key, f)
    ensures SameLists(r, t, key)
  {
    if key.Dev? { DevSets(r, f[1], t); } else if key.RemoteKey? { RemoteSets(r, f, t); }
  }

  lemma MarkedLists(r: Conf, t: Conf, key: Key)
    requires MarkedOnly(r, t) && !Stores(key)
    ensures SameLists(r, t, key)
  {
  }

  lemma DirectiveLists(r: Conf, key: Key, f: seq<string>, line: string, t: Conf)
    requires |f| >= 1 && t == Directive(r, key, f, line)
    ensures SameLists(r, t, key)
  {
    if !Stores(key) {
      MarkerLeaves(r, key, f, line, t);
      MarkedLists(r, t, key);
    } else {
      StoringIs(r, key, f, line);
      if |f| >= 2 { SettingLists(r, key, f, t); }
    }
  }

  lemma RemoteDirective(r: Conf, key: Key, f: seq<string>, line: string, t: Conf)
    requires |f| >= 1 && t == Directive(r, key, f, line)
    ensures t.remotes == if key == RemoteKey && |f| >= 2 then r.remotes + Listed(RemoteArg(f)) else r.remotes
    ensures key != Proto ==> t.proto == if key == RemoteKey && |f| >= 2 && r.proto == "" then Given(RemoteProto(f), "") else r.proto
  {
    DirectiveLists(r, key, f, line, t);
    if key == RemoteKey {
      StoringIs(r, RemoteKey, f, line);
      if |f| >= 2 { RemoteSets(r, f, t); }
    }
  }

  lemma ProtoDirective(r: Conf, f: seq<string>, line: string)
    requires |f| >= 1
    ensures Directive(r, Proto, f, line).proto == if |f| >= 2 then ToLower(f[1]) else r.proto
  {
  }

  lemma RemotesAre(lines: seq<string>)
    ensures Settings(lines).remotes == All(lines, Of("remote", RemoteArg))
  {
    IsRemote();
    forall r, key, f, line | |f| >= 1
      ensures Directive(r, key, f, line).remotes == if key == RemoteKey && |f| >= 2 then r.remotes + Listed(RemoteArg(f)) else r.remotes
    {
      RemoteDirective(r, key, f, line, Directive(r, key, f, line));
    }
    ListingIs(lines, "remote", RemoteKey, RemoteArg, (c: Conf) => c.remotes);
  }

  lemma SaidIsText(raw: string, i: nat)
    requires i < |Said(raw)|
    ensures ToLower(Said(raw)[i]) != ""
  {
    Fields.FieldsNotEmpty(Bare(raw), Fields.Out, "");
    assert Fields.Scan(Bare(raw), Fields.Out, "")[i] != "";
  }

  lemma ProtosAreTexts(raw: string)
    ensures Of("proto", LowArg)(raw) != Some("") && Of("remote", RemoteProto)(raw) != Some("")
  {
    var f := Said(raw);
    if |f| >= 2 {
      SaidIsText(raw, 1);
      assert LowArg(f).value != "" && (RemoteProto(f).Some? ==> RemoteProto(f).value != "");
    }
    var p, q := Of("proto", LowArg)(raw), Of("remote", RemoteProto)(raw);
    assert p.Some? ==> p == LowArg(f);
    assert q.Some? ==> q == RemoteProto(f);
  }

  lemma ProtoIs(lines: seq<string>)
    ensures Settings(lines).proto == Given(Prefer(lines, Of("proto", LowArg), Of("remote", RemoteProto)), "")
  {
    var get := (c: Conf) => c.proto;
    forall r, key, f, line | |f| >= 1
      ensures Directive(r, key, f, line).proto ==
        if key == Proto && |f| >= 2 then Given(LowArg(f), r.proto)
        else if key == RemoteKey && |f| >= 2 && r.proto == "" then Given(RemoteProto(f), "") else r.proto
    {
      if key == Proto { ProtoDirective(r, f, line); } else { RemoteDirective(r, key, f, line, Directive(r, key, f, line)); }
    }
    IsProto(); IsRemote();
    forall r, raw ensures PreferredAt(Of("proto", LowArg), Of("remote", RemoteProto), get, r, raw) {
      StoredOrAfter(r, raw, "proto", Proto, LowArg, "remote", RemoteKey, RemoteProto, get);
      ProtosAreTexts(raw);
    }
    PreferIs(lines, Of("proto", LowArg), Of("remote", RemoteProto), get);
  }

  // ---- plugins and the device ----

  function PluginArg(f: seq<string>): Option<Plugin> { if |f| >= 2 then Some(Plugin(f[1], f[2..])) else None }

  lemma PluginDirectiveIs(r: Conf, key: Key, f: seq<string>, line: string)
    requires |f| >= 1
    ensures Directive(r, key, f, line).plugins == if key == PluginKey && |f| >= 2 then r.plugins + Listed(PluginArg(f)) else r.plugins
  {
    DirectiveLists(r, key, f, line, Directive(r, key, f, line));
    if key == PluginKey { StoringIs(r, PluginKey, f, line); }
  }

  lemma PluginsAre(lines: seq<string>)
    ensures Settings(lines).plugins == All(lines, Of("plugin", PluginArg))
  {
    IsPlugin();
    forall r, key, f, line | |f| >= 1
      ensures Directive(r, key, f, line).plugins == if key == PluginKey && |f| >= 2 then r.plugins + Listed(PluginArg(f)) else r.plugins
    {
      PluginDirectiveIs(r, key, f, line);
    }
    ListingIs(lines, "plugin", PluginKey, PluginArg, (c: Conf) => c.plugins);
  }

  /** The kind of device that a device name begins with. */
  function KindArg(f: seq<string>): Option<string> {
    if |f| < 2 then None else if "tun" <= ToLower(f[1]) then Some("tun") else if "tap" <= ToLower(f[1]) then Some("tap") else None
  }

  /** The device a line names; just tun or tap is none. */
  function DeviceArg(f: seq<string>): Option<string> {
    if |f| >= 2 && ToLower(f[1]) != "tun" && ToLower(f[1]) != "tap" then Some(f[1]) else None
  }

  lemma Starts(s: string, p: string)
    ensures StartsWith(s, p) <==> p <= s
  {
  }

  lemma DevIs(r: Conf, dev: string, low: string, t: Conf)
    requires t == ReadDev(r, dev) && low == ToLower(dev)
    ensures t.device == if low == "tun" || low == "tap" then r.device else dev
  {
  }

  lemma DevKind(r: Conf, dev: string, low: string, t: Conf)
    requires t == ReadDev(r, dev) && low == ToLower(dev)
    ensures t.devType == if "tun" <= low then "tun" else if "tap" <= low then "tap" else r.devType
  {
    Starts(low, "tun");
    Starts(low, "tap");
    assert !("tun" <= "tap") by { assert "tun"[1] != "tap"[1]; }
  }

  lemma DevDirective(r: Conf, key: Key, f: seq<string>, line: string, t: Conf)
    requires |f| >= 1 && t == Directive(r, key, f, line)
    ensures t.device == if key == Dev && |f| >= 2 then Given(DeviceArg(f), r.device) else r.device
    ensures t.devType ==
      if key == Dev && |f| >= 2 then Given(KindArg(f), r.devType)
      else if key == DevType && |f| >= 2 then Given(LowArg(f), r.devType) else r.devType
  {
    DirectiveLists(r, key, f, line, t);
    if key == Dev {
      StoringIs(r, Dev, f, line);
      if |f| >= 2 { DevIs(r, f[1], ToLower(f[1]), t); DevKind(r, f[1], ToLower(f[1]), t); }
    } else if key == DevType {
      StoringIs(r, DevType, f, line);
    }
  }

  lemma DeviceIs(lines: seq<string>)
    ensures Settings(lines).device == Given(Last(lines, Of("dev", DeviceArg)), "")
  {
    IsDev();
    forall r, key, f, line | |f| >= 1
      ensures Directive(r, key, f, line).device == if key == Dev && |f| >= 2 then Given(DeviceArg(f), r.device) else r.device
    {
      DevDirective(r, key, f, line, Directive(r, key, f, line));
    }
    StoredIs(lines, "dev", Dev, DeviceArg, (c: Conf) => c.device);
  }

  lemma DevTypeIs(lines: seq<string>)
    ensures Settings(lines).devType == Given(Last(lines, Either(Of("dev", KindArg), Of("dev-type", LowArg))), "")
  {
    IsDev(); IsDevType();
    forall r, key, f, line | |f| >= 1
      ensures Directive(r, key, f, line).devType ==
        if key == Dev && |f| >= 2 then Given(KindArg(f), r.devType)
        else if key == DevType && |f| >= 2 then Given(LowArg(f), r.devType) else r.devType
    {
      DevDirective(r, key, f, line, Directive(r, key, f, line));
    }
    StoredTwoIs(lines, "dev", Dev, KindArg, "dev-type", DevType, LowArg, (c: Conf) => c.devType);
  }

  // ---- settings with two names ----

  function PortArg(raw: string): Option<int> {
    var f := Said(raw);
    if |f| >= 2 && (ToLower(f[0]) == "port" || ToLower(f[0]) == "lport") then Atoi(f[1]) else None
  }

  function SecretMark(f: seq<string>): Option<bool> { if |f| >= 2 then Some(true) else None }

  lemma PortAfter(r: Conf, raw: string)
    ensures After(r, raw).port == Given(PortArg(raw), r.port)
  {
    var f, line := Said(raw), Bare(raw);
    if f != [] {
      PortNames(ToLower(f[0]));
      DirectiveNumbers(r, KeyOf(ToLower(f[0])), f, line, After(r, raw));
    }
  }

  lemma PortIs(lines: seq<string>)
    ensures Settings(lines).port == Given(Last(lines, PortArg), 0)
  {
    forall r, raw {:trigger After(r, raw)} ensures After(r, raw).port == Given(PortArg(raw), r.port) { PortAfter(r, raw); }
    LastIs(lines, PortArg, (c: Conf) => c.port);
  }

  lemma StaticIs(lines: seq<string>)
    ensures Settings(lines).staticKey == Given(Last(lines, Either(Of("tls-auth", Arg), Of("secret", Arg))), "")
  {
    IsTlsAuth(); IsSecret();
    forall r, key, f, line | |f| >= 1
      ensures Directive(r, key, f, line).staticKey ==
        if key == TlsAuth && |f| >= 2 then Given(Arg(f), r.staticKey)
        else if key == Secret && |f| >= 2 then Given(Arg(f), r.staticKey) else r.staticKey
    {
      DirectivePaths(r, key, f, line, Directive(r, key, f, line));
    }
    StoredTwoIs(lines, "tls-auth", TlsAuth, Arg, "secret", Secret, Arg, (c: Conf) => c.staticKey);
  }

  lemma StaticModeIs(lines: seq<string>)
    ensures Settings(lines).staticKeyMode == Given(Last(lines, Of("secret", SecretMark)), false)
  {
    IsSecret();
    forall r, key, f, line | |f| >= 1
      ensures Directive(r, key, f, line).staticKeyMode ==
        if key == Secret && |f| >= 2 then Given(SecretMark(f), r.staticKeyMode) else r.staticKeyMode
    {
      DirectivePaths(r, key, f, line, Directive(r, key, f, line));
    }
    StoredIs(lines, "secret", Secret, SecretMark, (c: Conf) => c.staticKeyMode);
  }

  // ---- the role in the end ----

  /** The role a conf says: that of the last client, server or mode server line, else that of the
      first tls-server or tls-client line, else client if there is a remote. */
  function RoleSaid(lines: seq<string>): Option<string> {
    if Last(lines, SetsRole).Some? then Last(lines, SetsRole)
    else if First(lines, SideOf).Some? then First(lines, SideOf)
    else if All(lines, Of("remote", RemoteArg)) != [] then Some("client")
    else None
  }

  lemma RoleIs(lines: seq<string>)
    ensures InferredRole(Settings(lines)) == RoleSaid(lines)
  {
    RoleIsPreferred(lines);
    KnownThroughout(lines);
    RemotesAre(lines);
  }
}
