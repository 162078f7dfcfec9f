/** The whole import of any conf, said by its lines. */
module ConfWhole {
  import opened Wrappers
  import opened Text
  import opened Inline
  import opened ConfImport
  import opened ConfNames
  import opened ConfRoundTrip
  import opened ConfWords
  import opened ConfReads
  import opened ConfMarks
  import opened ConfPushed
  import opened ConfResult
  import Fields

  // ---- extra lines ----

  lemma KeptKeys(w: string)
    ensures KeyOf(w) == IfconfigPool <==> w == "ifconfig-pool"
    ensures KeyOf(w) == Redirect <==> w == "redirect-gateway"
    ensures KeyOf(w) == Other <==> !exists k: Key :: Named(k, w)
  {
    IsIfconfigPool(); IsRedirect();
    Names(w, IfconfigPool, "ifconfig-pool");
    Names(w, Redirect, "redirect-gateway");
    OtherExactly(w);
  }

  lemma TrimmedExtra(s: Scanned, raw: string)
    ensures ReadTrimmed(s, Bare(raw)).extra == s.extra + Listed(KeptLine(raw))
  {
    var line, f := Bare(raw), Said(raw);
    LowIsLow(line);
    IgnoresExactly(ToLower(line));
    assert s.extra + [] == s.extra;
    if f != [] { KeptKeys(ToLower(f[0])); }
  }

  lemma LineExtra(s: Scanned, raw: string)
    ensures ReadLine(s, raw).extra == s.extra + Listed(KeptLine(raw))
  {
    TrimmedExtra(s, raw);
    assert Fields.Split("") == [] && s.extra + [] == s.extra;
  }

  lemma {:induction false} ExtraIs(lines: seq<string>)
    ensures ReadLines(lines).extra == All(lines, KeptLine)
  {
    if lines != [] {
      ExtraIs(lines[..|lines| - 1]);
      LineExtra(ReadLines(lines[..|lines| - 1]), lines[|lines| - 1]);
    }
  }

  // ---- the extra directives ----

  function WithBreak(line: string): string { line + "\n" }

  lemma {:induction false} JoinIsJoined(extra: seq<string>)
    requires extra != []
    ensures Join(extra, '\n') + "\n" == Joined(extra, WithBreak)
  {
    JoinedFront(extra, WithBreak);
    if |extra| == 1 {
      assert extra[1..] == [];
    } else {
      JoinIsJoined(extra[1..]);
      assert Join(extra, '\n') == (extra[0] + ['\n']) + Join(extra[1..], '\n');
      JoinTexts(extra[0] + ['\n'], Join(extra[1..], '\n'), "\n");
    }
  }

  /** Kept options are whole lines. */
  lemma {:induction false} KeptWhole(payloads: seq<string>)
    ensures var kept := Joined(payloads, PushText);
      kept != "" ==> kept[0] == 'p' && TrimBreaks(kept) + "\n" == kept
  {
    if payloads != [] {
      var init, last := payloads[..|payloads| - 1], payloads[|payloads| - 1];
      KeptWhole(init);
      var text := "push \"" + last + "\"";
      assert PushText(last) == text + "\n";
      LineAdded(Joined(init, PushText), last, Joined(payloads, PushText));
    }
  }

  /** The extra directives: the kept push options, then the kept lines, each with a line break. */
  lemma DirectivesAre(s: Scanned, payloads: seq<string>)
    requires s.conf.pushExtra == Joined(payloads, PushText)
    ensures Directives(s) == Joined(payloads, PushText) + Joined(s.extra, WithBreak)
  {
    var kept, more := Joined(payloads, PushText), Join(s.extra, '\n');
    KeptWhole(payloads);
    if s.extra != [] { JoinIsJoined(s.extra); }
    if kept == "" {
      assert TrimSpace("") == "";
      if s.extra != [] {
        assert [] + [more] == [more];
        assert "" + Joined(s.extra, WithBreak) == Joined(s.extra, WithBreak);
      }
    } else {
      VisibleStays(kept);
      if s.extra == [] {
        assert [TrimBreaks(kept)] + [] == [TrimBreaks(kept)];
        assert kept + "" == kept;
      } else {
        assert [TrimBreaks(kept)] + [more] == [TrimBreaks(kept), more];
        JoinLines(TrimBreaks(kept), more);
        JoinTexts(TrimBreaks(kept) + "\n", more, "\n");
      }
    }
  }

  // ---- the settings a conf says ----

  predicate PathsSaid(lines: seq<string>, c: Conf) {
    && c.ca == Given(Last(lines, Of("ca", Arg)), "") && c.cert == Given(Last(lines, Of("cert", Arg)), "")
    && c.key == Given(Last(lines, Of("key", Arg)), "") && c.dh == Given(Last(lines, Of("dh", NotNone)), "")
    && c.tlsCrypt == Given(Last(lines, Of("tls-crypt", Arg)), "")
    && c.staticKey == Given(Last(lines, Either(Of("tls-auth", Arg), Of("secret", Arg))), "")
    && c.staticKeyMode == Given(Last(lines, Of("secret", SecretMark)), false)
  }

  predicate TextsSaid(lines: seq<string>, c: Conf) {
    && c.localBind == Given(Last(lines, Of("local", Arg)), "") && c.serverIpv6 == Given(Last(lines, Of("server-ipv6", Arg)), "")
    && c.topology == Given(Last(lines, Of("topology", LowArg)), "") && c.cipher == Given(Last(lines, Of("cipher", Arg)), "")
    && c.dataCiphers == Given(Last(lines, Of("data-ciphers", Args)), "") && c.authDigest == Given(Last(lines, Of("auth", Arg)), "")
    && c.tlsVersionMin == Given(Last(lines, Of("tls-version-min", Arg)), "") && c.serverNetwork == Given(Last(lines, NetOf), "")
    && c.device == Given(Last(lines, Of("dev", DeviceArg)), "")
    && c.devType == Given(Last(lines, Either(Of("dev", KindArg), Of("dev-type", LowArg))), "")
    && c.proto == Given(Prefer(lines, Of("proto", LowArg), Of("remote", RemoteProto)), "")
  }

  predicate NumbersSaid(lines: seq<string>, c: Conf) {
    && c.port == Given(Last(lines, PortArg), 0) && c.maxClients == Given(Last(lines, Of("max-clients", IntArg)), 0)
    && c.tunMtu == Given(Last(lines, Of("tun-mtu", IntArg)), 0) && c.sndbuf == Given(Last(lines, Of("sndbuf", IntArg)), 0)
    && c.rcvbuf == Given(Last(lines, Of("rcvbuf", IntArg)), 0)
  }

  predicate ListsSaid(lines: seq<string>, c: Conf) {
    && c.remotes == All(lines, Of("remote", RemoteArg)) && c.plugins == All(lines, Of("plugin", PluginArg))
    && c.pushDns == All(lines, From(DnsIn)) && c.pushRoutes == All(lines, From(RouteIn))
    && c.pushDomain == Given(Prefer(lines, From(DomainIn), From(SearchIn)), "")
    && c.redirectGateway == Given(Last(lines, RedirectMark), false)
  }

  predicate AllSaid(lines: seq<string>, c: Conf) { PathsSaid(lines, c) && TextsSaid(lines, c) && NumbersSaid(lines, c) && ListsSaid(lines, c) }

  lemma PathsAre(lines: seq<string>)
    ensures PathsSaid(lines, Settings(lines))
  {
    CaIs(lines); CertIs(lines); KeyIs(lines); DhIs(lines); TlsCryptIs(lines); StaticIs(lines); StaticModeIs(lines);
  }

  lemma TextsAre(lines: seq<string>)
    ensures TextsSaid(lines, Settings(lines))
  {
    LocalIs(lines); Ipv6Is(lines); TopologyIs(lines); CipherIs(lines); DataCiphersAre(lines); DigestIs(lines); VersionIs(lines);
    NetworkIs(lines); DeviceIs(lines); DevTypeIs(lines); ProtoIs(lines);
  }

  lemma NumbersAre(lines: seq<string>)
    ensures NumbersSaid(lines, Settings(lines))
  {
    PortIs(lines); ClientsAre(lines); MtuIs(lines); SndbufIs(lines); RcvbufIs(lines);
  }

  lemma ListsAre(lines: seq<string>)
    ensures ListsSaid(lines, Settings(lines))
  {
    RemotesAre(lines); PluginsAre(lines); PushDnsIs(lines); PushRoutesAre(lines); PushDomainIs(lines); RedirectIsMarked(lines);
  }

  lemma RoleIsApart(lines: seq<string>, c: Conf, role: string)
    requires AllSaid(lines, c)
    ensures AllSaid(lines, c.(role := role))
  {
  }

  /** What the import of a text yields whose lines, inline blocks taken out, are these. */
  predicate ImportSaid(lines: seq<string>, blocks: map<string, string>, imported: Imported) {
    && RoleSaid(lines) == Some(imported.conf.role) && AllSaid(lines, imported.conf) && imported.inlines == blocks
    && imported.directives == Joined(All(lines, KeptPush), PushText) + Joined(All(lines, KeptLine), WithBreak)
  }

  lemma LinesImport(lines: seq<string>, blocks: map<string, string>)
    ensures var imported := Finished(ReadLines(lines), blocks);
      (imported.Some? <==> RoleSaid(lines).Some?) && (imported.Some? ==> ImportSaid(lines, blocks, imported.value))
  {
    var c := Settings(lines);
    RoleIs(lines);
    PathsAre(lines); TextsAre(lines); NumbersAre(lines); ListsAre(lines);
    ExtraIs(lines);
    PushExtraIs(lines);
    DirectivesAre(ReadLines(lines), All(lines, KeptPush));
    if RoleSaid(lines).Some? { RoleIsApart(lines, c, RoleSaid(lines).value); }
  }

  /** The import of any text without a complete inline block is what its lines say, and it fails
      exactly if no line has a role and none is a remote; of any other text, it is what the text
      with its blocks taken out says. */
  lemma ImportIsSaid(content: string)
    ensures var e := ExtractTags(Extraction(map[], content), TAGS);
      var lines, imported := Split(e.body, '\n'), Parsed(content);
      && (NoInline(content) ==> e.body == content && e.blocks == map[])
      && (imported.Some? <==> RoleSaid(lines).Some?)
      && (imported.Some? ==> ImportSaid(lines, e.blocks, imported.value))
  {
    var e := ExtractTags(Extraction(map[], content), TAGS);
    LinesImport(Split(e.body, '\n'), e.blocks);
    if NoInline(content) { NothingInline(content, TAGS); }
  }
}
