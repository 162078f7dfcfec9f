/** Importing a rendered client conf gives back what it was rendered from. */
module ConfClient {
  import opened Wrappers
  import opened Text
  import opened Inline
  import opened ConfImport
  import opened ConfGen
  import opened ConfNames
  import opened ConfRoundTrip
  import opened ConfSections
  import opened ConfExtras
  import opened ConfResult
  import Fields

  // ---- numbers ----

  predicate IntFits(n: int) { -INT64 <= n < INT64 }

  /** A number is read back exactly if it fits 64 bits. */
  lemma IntReadsExactly(n: int)
    ensures Atoi(IntText(n)) == if IntFits(n) then Some(n) else None
  {
    var d := if n < 0 then -n else n;
    DecimalParses(d);
    assert IsDigit(Decimal(d)[0]);
    if n < 0 { assert IntText(n)[1..] == Decimal(d); }
  }

  lemma IntWord(n: int)
    ensures WordOk(IntText(n))
  {
    DecimalWord(if n < 0 then -n else n);
    assert PlainChar('-');
  }

  lemma InfiniteOk() ensures NameOk("infinite") {}

  // ---- what comes back ----

  /** A remote as imported: port 0 is the default, and the protocol is in lower case. */
  function RemoteBack(r: Remote): Remote { Remote(r.host, if r.port == 0 then 1194 else r.port, ToLower(r.proto)) }

  /** The remotes as imported, in order; those without a host are not rendered. */
  function RemotesBack(remotes: seq<Remote>): seq<Remote> {
    if remotes == [] then []
    else RemotesBack(remotes[..|remotes| - 1]) + if remotes[|remotes| - 1].host == "" then [] else [RemoteBack(remotes[|remotes| - 1])]
  }

  predicate RemoteOk(r: Remote) { FieldOk(r.host) && FieldOk(r.proto) && IntFits(r.port) }

  predicate RemotesOk(remotes: seq<Remote>) { forall i :: 0 <= i < |remotes| ==> RemoteOk(remotes[i]) }

  /** The settings for which a client conf is rendered and read back as it was. */
  predicate ClientOk(c: ClientConf) {
    var s := c.base;
    && DevTypeOk(s) && Lacks(s.name, '\n') && (forall i :: 0 <= i < |s.plugins| ==> PluginOk(s.plugins[i]))
    && RemotesOk(c.remotes) && FieldOk(TrimSpace(c.userPassFile))
    && FieldsOk(s) && PathsOk(s) && s.tunMtu < INT64 && s.sndbuf < INT64 && s.rcvbuf < INT64
  }

  function HeadBack(s: Server): Conf {
    BLANK.(plugins := ImportedPlugins(s.plugins), devType := Or(s.devType, "tun"), device := ImportedDevice(s.device),
           proto := ToLower(Or(s.proto, "udp")), localBind := s.localBind)
  }

  function PartBack(c: ClientConf): Conf {
    HeadBack(c.base).(role := "client", sawClient := true, remotes := RemotesBack(c.remotes))
  }

  /** The key material of a client: no dh parameters and no revocation list. */
  function KeysBack(r: Conf, s: Server): Conf {
    if s.staticKeyMode then r.(staticKey := s.staticKey, staticKeyMode := s.staticKey != "")
    else r.(ca := s.ca, cert := s.cert, key := s.key, tlsCrypt := s.tlsCrypt, staticKey := s.staticKey)
  }

  /** What the import of a rendered client conf yields, in terms of what it was rendered from. */
  function ClientBack(c: ClientConf): Conf {
    var s := c.base;
    KeysBack(PartBack(c), s).(
      cipher := s.cipher, dataCiphers := s.dataCiphers, authDigest := s.authDigest, tlsVersionMin := s.tlsVersionMin,
      tunMtu := Positive(s.tunMtu), sndbuf := Positive(s.sndbuf), rcvbuf := Positive(s.rcvbuf))
  }

  // ---- every rendered line is read as one ----

  lemma OkClientHeader(s: Server)
    requires Lacks(s.name, '\n')
    ensures LinesOk(ClientHeader([], s))
  {
    HeaderText();
    var text := "# instance=" + s.name + " role=client";
    assert Lacks("# instance=", '\n') && Lacks(" role=client", '\n');
    assert LineOk(Comment(text));
  }

  lemma OkClientBind(acc: seq<Line>, s: Server)
    requires LinesOk(acc) && FieldOk(s.proto) && FieldOk(s.localBind)
    ensures LinesOk(ClientBind(acc, s))
  {
    var proto := Or(s.proto, "udp");
    UdpOk(); NameIsWord("udp"); IsProto(); IsLocal();
    OkWord(acc, "proto", proto);
    OkOpt(Add(acc, ["proto", proto]), "local", s.localBind);
  }

  lemma {:induction false} OkRemotes(acc: seq<Line>, remotes: seq<Remote>)
    requires LinesOk(acc) && RemotesOk(remotes)
    ensures LinesOk(Remotes(acc, remotes))
  {
    if remotes != [] {
      var init, r := remotes[..|remotes| - 1], remotes[|remotes| - 1];
      OkRemotes(acc, init);
      assert RemoteOk(r);
      if r.host != "" { OkRemote(Remotes(acc, init), r); }
    }
  }

  lemma OkRemote(acc: seq<Line>, r: Remote)
    requires LinesOk(acc) && RemoteOk(r) && r.host != ""
    ensures LinesOk(Add(acc, RemoteTokens(r)))
  {
    var port := if r.port == 0 then 1194 else r.port;
    IsRemote();
    IntWord(port);
    var tokens := RemoteTokens(r);
    assert WordsOk(tokens[1..]) by {
      forall i | 0 <= i < |tokens[1..]| ensures WordOk(tokens[1..][i]) {
        assert tokens[1..][i] == if i == 0 then r.host else if i == 1 then IntText(port) else r.proto;
      }
    }
    OkAdd(acc, tokens);
  }

  lemma OkClientPart(acc: seq<Line>, remotes: seq<Remote>)
    requires LinesOk(acc) && RemotesOk(remotes)
    ensures LinesOk(ClientPart(acc, remotes))
  {
    IsClient(); IsTlsClient(); IsNobind(); IsRemoteCertTls(); IsResolvRetry();
    ServerWordOk(); NameIsWord("server"); InfiniteOk(); NameIsWord("infinite");
    OkBare(acc, "client");
    OkBare(Add(acc, ["client"]), "tls-client");
    OkBare(Add(Add(acc, ["client"]), ["tls-client"]), "nobind");
    var a := Add(Add(Add(acc, ["client"]), ["tls-client"]), ["nobind"]);
    OkWord(a, "remote-cert-tls", "server");
    OkWord(Add(a, ["remote-cert-tls", "server"]), "resolv-retry", "infinite");
    OkRemotes(Add(Add(a, ["remote-cert-tls", "server"]), ["resolv-retry", "infinite"]), remotes);
  }

  lemma OkClientCrypto(acc: seq<Line>, s: Server)
    requires LinesOk(acc) && PathsOk(s)
    ensures LinesOk(ClientCrypto(acc, s))
  {
    if s.staticKeyMode {
      IsSecret();
      OkOpt(acc, "secret", s.staticKey);
    } else {
      IsCa(); IsCert(); IsKey(); IsTlsCrypt(); IsTlsAuth();
      OkThree(acc, "ca", s.ca, "cert", s.cert, "key", s.key);
      var a := AddOpt(AddOpt(AddOpt(acc, "ca", s.ca), "cert", s.cert), "key", s.key);
      OkOpt(a, "tls-crypt", s.tlsCrypt);
      OkOpt(AddOpt(a, "tls-crypt", s.tlsCrypt), "tls-auth", s.staticKey);
    }
  }

  lemma OkLogin(acc: seq<Line>, c: ClientConf)
    requires LinesOk(acc) && FieldOk(TrimSpace(c.userPassFile))
    ensures LinesOk(Login(acc, c))
  {
    IsAuthUserPass();
    var file := TrimSpace(c.userPassFile);
    if file != "" { OkWord(acc, "auth-user-pass", file); } else { OkBare(acc, "auth-user-pass"); }
  }

  lemma ClientShaperText()
    ensures LineOk(Comment(CLIENT_SHAPER_TITLE))
  {
    assert Lacks("# bandwidth_enforcement=", '\n') && Lacks("shaper (outgoing only; role=client)", '\n');
    CommentOk(CLIENT_SHAPER_TITLE);
  }

  lemma OkClientShaper(acc: seq<Line>, s: Server)
    requires LinesOk(acc)
    ensures LinesOk(ClientShaper(acc, s))
  {
    if s.shaper > 0 {
      ClientShaperText();
      OkComment(acc, "");
      OkComment(acc + [Comment("")], CLIENT_SHAPER_TITLE);
      DecimalWord(s.shaper);
      IsShaper();
      OkWord(acc + [Comment("")] + [Comment(CLIENT_SHAPER_TITLE)], "shaper", Decimal(s.shaper));
    }
  }

  lemma OkClientTail(acc: seq<Line>, c: ClientConf)
    requires LinesOk(acc) && ClientOk(c)
    ensures LinesOk(ClientTail(acc, c))
  {
    var s := c.base;
    OkClientCrypto(acc, s);
    OkCiphers(ClientCrypto(acc, s), s);
    OkTls(Ciphers(ClientCrypto(acc, s), s), s);
    var t := Tls(Ciphers(ClientCrypto(acc, s), s), s);
    OkBuffers(t, s);
    OkLogin(Buffers(t, s), c);
    OkDaemon(Login(Buffers(t, s), c), s);
    OkClientShaper(Daemon(Login(Buffers(t, s), c), s), s);
  }

  lemma OkClient(c: ClientConf)
    requires ClientOk(c)
    ensures LinesOk(ClientLines(c))
  {
    var s := c.base;
    var h := PluginLines(ClientHeader([], s), s.plugins);
    OkClientHeader(s);
    OkPlugins(ClientHeader([], s), s.plugins);
    OkDevice(h, s);
    OkClientBind(Device(h, s), s);
    OkClientPart(ClientHead(s), c.remotes);
    OkClientTail(ClientPart(ClientHead(s), c.remotes), c);
  }

  // ---- the settings read back ----

  lemma ReadsClientHead(read: Reading, s: Server)
    requires Reader(read) && read([]) == BLANK && DevTypeOk(s)
    ensures read(ClientHead(s)) == HeadBack(s)
  {
    var r1 := BLANK.(plugins := ImportedPlugins(s.plugins));
    var r2 := r1.(devType := Or(s.devType, "tun"), device := ImportedDevice(s.device));
    ReadsComment(read, [], GENERATED, BLANK);
    ReadsComment(read, [] + [Comment(GENERATED)], "# instance=" + s.name + " role=client", BLANK);
    ReadsPlugins(read, ClientHeader([], s), s.plugins, BLANK);
    assert [] + ImportedPlugins(s.plugins) == ImportedPlugins(s.plugins);
    ReadsDevice(read, PluginLines(ClientHeader([], s), s.plugins), s, r1, r2);
    ReadsClientBind(read, Device(PluginLines(ClientHeader([], s), s.plugins), s), s, r2, HeadBack(s));
  }

  lemma ReadsClientBind(read: Reading, acc: seq<Line>, s: Server, r: Conf, r': Conf)
    requires Reader(read) && read(acc) == r && r.localBind == ""
    requires r' == r.(proto := ToLower(Or(s.proto, "udp")), localBind := s.localBind)
    ensures read(ClientBind(acc, s)) == r'
  {
    var proto := Or(s.proto, "udp");
    var mid := r.(proto := ToLower(proto));
    IsProto(); IsLocal();
    ReadsSet(read, acc, "proto", Proto, proto, r, mid);
    ReadsOpt(read, Add(acc, ["proto", proto]), "local", Local, s.localBind, mid, r');
  }

  lemma ClientWordReads(r: Conf, name: string)
    requires Known(name, Client)
    ensures Reads(r, Words([name])) == r.(sawClient := true, role := "client")
  {
    NameStays(name);
  }

  lemma TlsClientReads(r: Conf, name: string)
    requires Known(name, TlsClient) && r.role == "client" && r.sawClient
    ensures Reads(r, Words([name])) == r
  {
    NameStays(name);
  }

  lemma ReadsMarks(read: Reading, acc: seq<Line>, r: Conf, r': Conf)
    requires Reader(read) && read(acc) == r && r' == r.(sawClient := true, role := "client")
    ensures read(Add(Add(acc, ["client"]), ["tls-client"])) == r'
  {
    IsClient(); IsTlsClient();
    ClientWordReads(r, "client");
    ReadSnoc(read, acc, Words(["client"]), r);
    TlsClientReads(r', "tls-client");
    ReadSnoc(read, Add(acc, ["client"]), Words(["tls-client"]), r');
  }

  lemma RemoteIsRead(r: Conf, rm: Remote, f: seq<string>)
    requires r.proto != "" && IntFits(rm.port) && f == RemoteTokens(rm)
    ensures ReadRemote(r, f) == r.(remotes := r.remotes + [RemoteBack(rm)])
  {
    var port := if rm.port == 0 then 1194 else rm.port;
    IntReadsExactly(port);
    assert f[1] == rm.host && f[2] == IntText(port);
    if rm.proto != "" { assert f[3] == rm.proto; } else { assert ToLower(rm.proto) == ""; }
  }

  lemma RemoteKeyReads(r: Conf, name: string, tokens: seq<string>)
    requires Known(name, RemoteKey) && |tokens| >= 2 && tokens[0] == name
    ensures Reads(r, Words(tokens)) == ReadRemote(r, tokens)
  {
    NameStays(name);
    RemoteStores(r, tokens, LineText(Words(tokens)));
  }

  lemma RemoteStores(r: Conf, tokens: seq<string>, line: string)
    requires |tokens| >= 2
    ensures Directive(r, RemoteKey, tokens, line) == ReadRemote(r, tokens)
  {
  }

  lemma RemoteReads(r: Conf, rm: Remote, tokens: seq<string>)
    requires r.proto != "" && IntFits(rm.port) && tokens == RemoteTokens(rm)
    ensures Reads(r, Words(tokens)) == r.(remotes := r.remotes + [RemoteBack(rm)])
  {
    IsRemote();
    RemoteKeyReads(r, "remote", tokens);
    RemoteIsRead(r, rm, tokens);
  }

  lemma MoreRemotes(r: Conf, remotes: seq<Remote>, rm: Remote, all: seq<Remote>)
    requires all == remotes + [rm]
    ensures r.(remotes := r.remotes + all) == r.(remotes := (r.remotes + remotes) + [rm])
  {
  }

  lemma {:induction false} ReadsRemotes(read: Reading, acc: seq<Line>, remotes: seq<Remote>, r: Conf)
    requires Reader(read) && read(acc) == r && r.proto != "" && RemotesOk(remotes)
    ensures read(Remotes(acc, remotes)) == r.(remotes := r.remotes + RemotesBack(remotes))
  {
    if remotes == [] {
      assert r.remotes + [] == r.remotes;
    } else {
      var init, rm := remotes[..|remotes| - 1], remotes[|remotes| - 1];
      ReadsRemotes(read, acc, init, r);
      assert RemoteOk(rm);
      var mid := r.(remotes := r.remotes + RemotesBack(init));
      if rm.host == "" {
        assert RemotesBack(init) + [] == RemotesBack(init);
      } else {
        RemoteReads(mid, rm, RemoteTokens(rm));
        ReadSnoc(read, Remotes(acc, init), Words(RemoteTokens(rm)), mid);
        MoreRemotes(r, RemotesBack(init), RemoteBack(rm), RemotesBack(remotes));
      }
    }
  }

  lemma ReadsFixed(read: Reading, acc: seq<Line>, r: Conf)
    requires Reader(read) && read(acc) == r
    ensures read(Add(Add(Add(acc, ["nobind"]), ["remote-cert-tls", "server"]), ["resolv-retry", "infinite"])) == r
  {
    IsNobind(); IsRemoteCertTls(); IsResolvRetry();
    ReadsThree(read, acc, ["nobind"], ["remote-cert-tls", "server"], ["resolv-retry", "infinite"], r);
  }

  lemma ReadsClientPart(read: Reading, acc: seq<Line>, remotes: seq<Remote>, r: Conf, r': Conf)
    requires Reader(read) && read(acc) == r && r.proto != "" && r.remotes == [] && RemotesOk(remotes)
    requires r' == r.(role := "client", sawClient := true, remotes := RemotesBack(remotes))
    ensures read(ClientPart(acc, remotes)) == r'
  {
    var r1 := r.(sawClient := true, role := "client");
    var m := Add(Add(acc, ["client"]), ["tls-client"]);
    var n := Add(Add(Add(m, ["nobind"]), ["remote-cert-tls", "server"]), ["resolv-retry", "infinite"]);
    ReadsMarks(read, acc, r, r1);
    ReadsFixed(read, m, r1);
    ReadsRemotes(read, n, remotes, r1);
    assert r1.remotes + RemotesBack(remotes) == RemotesBack(remotes);
  }

  lemma ReadsTwoKeys(read: Reading, acc: seq<Line>, s: Server, r: Conf, r': Conf)
    requires Reader(read) && read(acc) == r && r.tlsCrypt == "" && r.staticKey == ""
    requires r' == r.(tlsCrypt := s.tlsCrypt, staticKey := s.staticKey)
    ensures read(AddOpt(AddOpt(acc, "tls-crypt", s.tlsCrypt), "tls-auth", s.staticKey)) == r'
  {
    var r1 := r.(tlsCrypt := s.tlsCrypt);
    ReadsTlsCrypt(read, acc, s.tlsCrypt, r, r1);
    ReadsTlsAuth(read, AddOpt(acc, "tls-crypt", s.tlsCrypt), s.staticKey, r1, r');
  }

  lemma ReadsClientCrypto(read: Reading, acc: seq<Line>, s: Server, r: Conf, r': Conf)
    requires Reader(read) && read(acc) == r && NoKeys(r) && r' == KeysBack(r, s)
    ensures read(ClientCrypto(acc, s)) == r'
  {
    if s.staticKeyMode {
      ReadsSecret(read, acc, s.staticKey, r, r');
    } else {
      var r1 := r.(ca := s.ca, cert := s.cert, key := s.key);
      ReadsPaths(read, acc, s, r, r1);
      ReadsTwoKeys(read, AddOpt(AddOpt(AddOpt(acc, "ca", s.ca), "cert", s.cert), "key", s.key), s, r1, r');
    }
  }

  lemma ReadsLogin(read: Reading, acc: seq<Line>, c: ClientConf, r: Conf)
    requires Reader(read) && read(acc) == r
    ensures read(Login(acc, c)) == r
  {
    IsAuthUserPass();
    var file := TrimSpace(c.userPassFile);
    if file != "" { ReadsInert(read, acc, ["auth-user-pass", file], r); }
    else { ReadsInertIf(read, acc, c.userPass, ["auth-user-pass"], r); }
  }

  lemma ReadsClientShaper(read: Reading, acc: seq<Line>, s: Server, r: Conf)
    requires Reader(read) && read(acc) == r
    ensures read(ClientShaper(acc, s)) == r
  {
    if s.shaper > 0 {
      ReadsComment(read, acc, "", r);
      ReadsComment(read, acc + [Comment("")], CLIENT_SHAPER_TITLE, r);
      IsShaper();
      ReadsInert(read, acc + [Comment("")] + [Comment(CLIENT_SHAPER_TITLE)], ["shaper", Decimal(s.shaper)], r);
    }
  }

  lemma ReadsClientTail(read: Reading, acc: seq<Line>, c: ClientConf)
    requires Reader(read) && ClientOk(c) && read(acc) == PartBack(c)
    ensures read(ClientTail(acc, c)) == ClientBack(c)
  {
    var s := c.base;
    var r1 := KeysBack(PartBack(c), s);
    var r2 := r1.(cipher := s.cipher, dataCiphers := s.dataCiphers, authDigest := s.authDigest, tlsVersionMin := s.tlsVersionMin);
    ReadsClientCrypto(read, acc, s, PartBack(c), r1);
    ReadsCiphers(read, ClientCrypto(acc, s), s, r1, r2);
    ReadsTls(read, Ciphers(ClientCrypto(acc, s), s), s, r2);
    var t := Tls(Ciphers(ClientCrypto(acc, s), s), s);
    ReadsBuffers(read, t, s, r2, ClientBack(c));
    ReadsLogin(read, Buffers(t, s), c, ClientBack(c));
    ReadsDaemon(read, Login(Buffers(t, s), c), s, ClientBack(c));
    ReadsClientShaper(read, Daemon(Login(Buffers(t, s), c), s), s, ClientBack(c));
  }

  lemma ProtoIsSet(s: Server)
    ensures HeadBack(s).proto != ""
  {
    assert |ToLower(Or(s.proto, "udp"))| > 0;
  }

  lemma ReadsClientLines(read: Reading, c: ClientConf)
    requires Reader(read) && read([]) == BLANK && ClientOk(c)
    ensures read(ClientLines(c)) == ClientBack(c)
  {
    var head := ClientHead(c.base);
    ReadsClientHead(read, c.base);
    ProtoIsSet(c.base);
    ReadsClientPart(read, head, c.remotes, HeadBack(c.base), PartBack(c));
    ReadsClientTail(read, ClientPart(head, c.remotes), c);
  }

  lemma ReadsClient(c: ClientConf)
    requires ClientOk(c)
    ensures ReadAll(ClientLines(c)) == ClientBack(c)
  {
    ReadAllReads();
    ReadsClientLines(ReadAll, c);
  }

  // ---- the result ----

  /** What the import of a rendered client conf yields: its settings, then the lines it keeps, and no
      inline block. */
  function ClientUndone(c: ClientConf): Option<Imported> {
    Some(Imported(ClientBack(c), Join(ClientExtras(c), '\n') + "\n", map[]))
  }

  /** Importing the rendered conf of a client gives back its role, remotes in order, protocol, bind
      address, device, key paths, ciphers, buffers and plugins, with the other lines verbatim,
      exactly if the text holds no complete inline block. */
  lemma ImportUndoesClient(c: ClientConf)
    requires ClientOk(c)
    ensures RenderedClient(c).Some? <==> c.remotes != []
    ensures c.remotes != [] ==> (Parsed(RenderedClient(c).value) == ClientUndone(c) <==> NoInline(RenderedClient(c).value))
  {
    var text := ConfText(ClientLines(c));
    if NoInline(text) { CleanClientIsUndone(c, text); } else { BlockIsImported(text); }
  }

  lemma SomeClientExtras(c: ClientConf)
    ensures ClientExtras(c) != []
  {
    assert |["nobind"]| == 1;
  }

  lemma ClientListing(c: ClientConf)
    ensures Directives(Scanned(ClientBack(c), ClientExtras(c))) == Join(ClientExtras(c), '\n') + "\n"
  {
    SomeClientExtras(c);
    OneListing(ClientBack(c), ClientExtras(c), []);
    assert KeptRoutes([]) + Join(ClientExtras(c), '\n') == Join(ClientExtras(c), '\n');
  }

  lemma ClientIsScanned(c: ClientConf, text: string)
    requires ClientOk(c) && text == ConfText(ClientLines(c))
    ensures ReadLines(Split(text, '\n')) == Scanned(ClientBack(c), ClientExtras(c))
  {
    OkClient(c);
    TextRead(ClientLines(c));
    ReadsClient(c);
    ClientRest(c);
  }

  lemma CleanClientIsUndone(c: ClientConf, text: string)
    requires ClientOk(c) && text == ConfText(ClientLines(c)) && NoInline(text)
    ensures Parsed(text) == ClientUndone(c)
  {
    NothingInline(text, TAGS);
    ClientIsScanned(c, text);
    ClientListing(c);
    ImportedParts(text, ClientBack(c), ClientExtras(c));
  }
}
