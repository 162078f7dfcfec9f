/** The directive names a rendered conf uses, as the import reads them. */
module ConfNames {
  import opened Text
  import opened Inline
  import opened ConfImport

  /** A name of lower-case letters, digits and dashes. */
  predicate NameOk(s: string) { s != "" && forall i :: 0 <= i < |s| ==> TagChar(s[i]) }

  lemma NameStays(s: string)
    requires NameOk(s)
    ensures ToLower(s) == s
  {
    forall i | 0 <= i < |s| ensures LowerChar(s[i]) == s[i] { assert TagChar(s[i]); }
  }

  /** A name that is not ignored and stands for a directive. */
  predicate Known(name: string, k: Key) { NameOk(name) && name != "setenv" && name !in IGNORED && KeyOf(name) == k }

  predicate Skipped(name: string) { NameOk(name) && name != "setenv" && name in IGNORED }

  /** No directive the import knows is longer than 16 characters, and only one has 13. */
  lemma LongIsOther(s: string)
    requires |s| > 16 || (|s| == 13 && s[0] != 'i')
    ensures KeyOf(s) == Other
  {
  }

  lemma OtherOfNine(s: string)
    requires |s| == 9 && s[0] != 't'
    ensures KeyOf(s) == Other
  {
  }

  lemma OtherOfTen(s: string)
    requires |s| == 10 && (s[0] != 't' || (s[4] != 's' && s[5] != 'l'))
    ensures KeyOf(s) == Other
  {
  }

  lemma OtherOfTwelve(s: string)
    requires |s| == 12 && s[1] != 'a'
    ensures KeyOf(s) == Other
  {
  }

  lemma OtherOfThirteen(s: string)
    requires |s| == 13 && s[9] != 'p'
    ensures KeyOf(s) == Other
  {
  }

  lemma OtherOfMore(s: string)
    requires (|s| == 15 && s[0] != 't') || (|s| == 16 && s[0] != 'r') || |s| == 14
    ensures KeyOf(s) == Other
  {
  }

  predicate BeginsListed(c: char) {
    c == 'm' || c == 's' || c == 'w' || c == 'v' || c == 'p' || c == 'd' || c == 'u' || c == 'g' || c == 'c' || c == 'k'
  }

  lemma ListedLetters(i: nat)
    requires i < |IGNORED|
    ensures IGNORED[i] != "" && BeginsListed(IGNORED[i][0])
  {
    if i < 6 { FirstLetters(i); } else if i < 12 { SecondLetters(i); } else { LastLetters(i); }
  }

  lemma FirstLetters(i: nat)
    requires i < 6
    ensures IGNORED[i] != "" && BeginsListed(IGNORED[i][0])
  {
  }

  lemma SecondLetters(i: nat)
    requires 6 <= i < 12
    ensures IGNORED[i] != "" && BeginsListed(IGNORED[i][0])
  {
  }

  lemma LastLetters(i: nat)
    requires 12 <= i < 18
    ensures IGNORED[i] != "" && BeginsListed(IGNORED[i][0])
  {
  }

  /** A name whose first letter begins no ignored word. */
  lemma LetterNotListed(s: string)
    requires s != "" && !BeginsListed(s[0])
    ensures s !in IGNORED && s != "setenv"
  {
    forall i: nat | i < |IGNORED| ensures IGNORED[i] != s { ListedLetters(i); }
  }

  /** Of the names of six letters three are told apart last. */
  lemma SixIsLast(s: string)
    requires |s| == 6 && (s[1] == 'h' || s[1] == 'c' || s[1] == 'n')
    ensures KeyOf(s) == if s == "sndbuf" then Sndbuf else if s == "rcvbuf" then Rcvbuf else Other
  {
  }

  lemma IsPlugin() ensures Known("plugin", PluginKey) {}
  lemma IsDev() ensures Known("dev", Dev) {}
  lemma IsDevType() ensures Known("dev-type", DevType) {}
  lemma IsProto() ensures Known("proto", Proto) {}
  lemma IsLocal() ensures Known("local", Local) { LetterNotListed("local"); }
  lemma IsPort() ensures Known("port", Port) {}
  lemma IsTopology() ensures Known("topology", Topology) { LetterNotListed("topology"); }
  lemma IsServerIpv6() ensures Known("server-ipv6", ServerIpv6) {}
  lemma IsMaxClients() ensures Known("max-clients", MaxClients) {}
  lemma IsSecret() ensures Known("secret", Secret) {}
  lemma IsCa() ensures Known("ca", Ca) {}
  lemma IsCert() ensures Known("cert", Cert) {}
  lemma IsKey() ensures Known("key", KeyFile) {}
  lemma IsDh() ensures Known("dh", Dh) {}
  lemma IsTlsCrypt() ensures Known("tls-crypt", TlsCrypt) { LetterNotListed("tls-crypt"); }
  lemma IsTlsAuth() ensures Known("tls-auth", TlsAuth) { LetterNotListed("tls-auth"); }
  lemma IsCipher() ensures Known("cipher", Cipher) {}
  lemma IsDataCiphers() ensures Known("data-ciphers", DataCiphers) {}
  lemma IsAuth() ensures Known("auth", Auth) { LetterNotListed("auth"); }
  lemma IsTlsVersionMin() ensures Known("tls-version-min", TlsVersionMin) { LetterNotListed("tls-version-min"); }
  lemma IsTunMtu() ensures Known("tun-mtu", TunMtu) { LetterNotListed("tun-mtu"); }
  lemma IsSndbuf() ensures Known("sndbuf", Sndbuf) { SixIsLast("sndbuf"); }
  lemma IsRcvbuf() ensures Known("rcvbuf", Rcvbuf) { LetterNotListed("rcvbuf"); SixIsLast("rcvbuf"); }
  lemma IsMode() ensures Known("mode", Mode) {}
  lemma IsTlsServer() ensures Known("tls-server", TlsServer) { LetterNotListed("tls-server"); }
  lemma IsServer() ensures Known("server", ServerNet) {}
  lemma IsIfconfigPool() ensures Known("ifconfig-pool", IfconfigPool) { LetterNotListed("ifconfig-pool"); }
  lemma IsClient() ensures Known("client", Client) {}
  lemma IsTlsClient() ensures Known("tls-client", TlsClient) { LetterNotListed("tls-client"); }
  lemma IsRemote() ensures Known("remote", RemoteKey) { LetterNotListed("remote"); }
  lemma IsMultihome() ensures Known("multihome", Other) { OtherOfNine("multihome"); }
  lemma IsClientConfigDir() ensures Known("client-config-dir", Other) { LongIsOther("client-config-dir"); }
  lemma IsCcdExclusive() ensures Known("ccd-exclusive", Other) { LongIsOther("ccd-exclusive"); }
  lemma IsDuplicateCn() ensures Known("duplicate-cn", Other) { OtherOfTwelve("duplicate-cn"); }
  lemma IsCrlVerify() ensures Known("crl-verify", Other) { OtherOfTen("crl-verify"); }
  lemma IsTlsCipher() ensures Known("tls-cipher", Other) { LetterNotListed("tls-cipher"); OtherOfTen("tls-cipher"); }
  lemma IsTlsCiphersuites() ensures Known("tls-ciphersuites", Other) { LetterNotListed("tls-ciphersuites"); OtherOfMore("tls-ciphersuites"); }
  lemma IsTlsGroups() ensures Known("tls-groups", Other) { LetterNotListed("tls-groups"); OtherOfTen("tls-groups"); }
  lemma IsTlsCertProfile() ensures Known("tls-cert-profile", Other) { LetterNotListed("tls-cert-profile"); OtherOfMore("tls-cert-profile"); }
  lemma IsIfconfigIpv6() ensures Known("ifconfig-ipv6", Other) { LetterNotListed("ifconfig-ipv6"); OtherOfThirteen("ifconfig-ipv6"); }
  lemma IsAuthUserPassVerify() ensures Known("auth-user-pass-verify", Other) { LetterNotListed("auth-user-pass-verify"); LongIsOther("auth-user-pass-verify"); }
  lemma IsUsernameAsCommonName() ensures Known("username-as-common-name", Other) { LongIsOther("username-as-common-name"); }
  lemma IsTmpDir() ensures Known("tmp-dir", Other) { LetterNotListed("tmp-dir"); }
  lemma IsPush() ensures Known("push", Push) {}
  lemma IsRedirect() ensures Known("redirect-gateway", Redirect) {}
  lemma IsNobind() ensures Known("nobind", Other) { LetterNotListed("nobind"); }
  lemma IsRemoteCertTls() ensures Known("remote-cert-tls", Other) { LetterNotListed("remote-cert-tls"); OtherOfMore("remote-cert-tls"); }
  lemma IsResolvRetry() ensures Known("resolv-retry", Other) { LetterNotListed("resolv-retry"); OtherOfTwelve("resolv-retry"); }
  lemma IsAuthUserPass() ensures Known("auth-user-pass", Other) { LetterNotListed("auth-user-pass"); OtherOfMore("auth-user-pass"); }
  lemma IsShaper() ensures Known("shaper", Other) { SixIsLast("shaper"); }

  lemma SkipsScriptSecurity() ensures Skipped("script-security") { assert IGNORED[10] == "script-security"; }
  lemma SkipsKeepalive() ensures Skipped("keepalive") { assert IGNORED[17] == "keepalive"; }
  lemma SkipsPersistKey() ensures Skipped("persist-key") { assert IGNORED[6] == "persist-key"; }
  lemma SkipsPersistTun() ensures Skipped("persist-tun") { assert IGNORED[7] == "persist-tun"; }
  lemma SkipsWritepid() ensures Skipped("writepid") { assert IGNORED[4] == "writepid"; }
  lemma SkipsStatus() ensures Skipped("status") { assert IGNORED[3] == "status"; }
  lemma SkipsManagement() ensures Skipped("management") { assert IGNORED[0] == "management"; }
  lemma SkipsManagementClientUser() ensures Skipped("management-client-user") { assert IGNORED[1] == "management-client-user"; }
  lemma SkipsVerb() ensures Skipped("verb") { assert IGNORED[5] == "verb"; }
}
