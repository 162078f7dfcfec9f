/** The words of the lines of any conf: which are ignored, and which directive each begins. */
module ConfWords {
  import opened Wrappers
  import opened Text
  import opened Inline
  import opened ConfImport
  import opened ConfNames
  import Fields

  /** A line without its comment and surrounding white space. */
  function Bare(raw: string): string {
    var line := TrimSpace(raw);
    if line == "" || line[0] == '#' || line[0] == ';' then "" else Uncommented(line)
  }

  function Said(raw: string): seq<string> { Fields.Split(Bare(raw)) }

  // ---- names and directives ----

  predicate NamedFirst(k: Key, w: string) {
    match k
    case Client => w == "client"
    case ServerNet => w == "server"
    case Mode => w == "mode"
    case TlsServer => w == "tls-server"
    case TlsClient => w == "tls-client"
    case Proto => w == "proto"
    case Port => w == "port" || w == "lport"
    case Local => w == "local"
    case Dev => w == "dev"
    case DevType => w == "dev-type"
    case Topology => w == "topology"
    case RemoteKey => w == "remote"
    case _ => false
  }

  predicate NamedRest(k: Key, w: string) {
    match k
    case Cipher => w == "cipher"
    case DataCiphers => w == "data-ciphers"
    case Auth => w == "auth"
    case Ca => w == "ca"
    case Cert => w == "cert"
    case KeyFile => w == "key"
    case Dh => w == "dh"
    case TlsCrypt => w == "tls-crypt"
    case TlsAuth => w == "tls-auth"
    case Secret => w == "secret"
    case Push => w == "push"
    case _ => false
  }

  predicate NamedLast(k: Key, w: string) {
    match k
    case PluginKey => w == "plugin"
    case MaxClients => w == "max-clients"
    case TlsVersionMin => w == "tls-version-min"
    case TunMtu => w == "tun-mtu"
    case Sndbuf => w == "sndbuf"
    case Rcvbuf => w == "rcvbuf"
    case ServerIpv6 => w == "server-ipv6"
    case IfconfigPool => w == "ifconfig-pool"
    case Redirect => w == "redirect-gateway"
    case _ => false
  }

  /** Whether a word in lower case names a directive the import knows. */
  predicate Named(k: Key, w: string) { NamedFirst(k, w) || NamedRest(k, w) || NamedLast(k, w) }

  lemma LastNames(w: string, k: Key)
    requires k == KeyOfLast(w) && k != Other
    ensures NamedLast(k, w)
  {
  }

  lemma RestNames(w: string, k: Key)
    requires k == KeyOfRest(w) && k != KeyOfLast(w)
    ensures NamedRest(k, w)
  {
  }

  lemma FirstNames(w: string, k: Key)
    requires k == KeyOf(w) && k != KeyOfRest(w)
    ensures NamedFirst(k, w)
  {
  }

  /** A known word is the name of its directive. */
  lemma KeyName(w: string)
    ensures KeyOf(w) == Other || Named(KeyOf(w), w)
  {
    var k := KeyOf(w);
    if k != KeyOfRest(w) {
      FirstNames(w, k);
    } else if k != KeyOfLast(w) {
      RestNames(w, k);
    } else if k != Other {
      LastNames(w, k);
    }
  }

  lemma OneName(k: Key, w: string, name: string)
    requires Named(k, w) && Named(k, name) && k != Port
    ensures w == name
  {
  }

  lemma Names(w: string, k: Key, name: string)
    requires Known(name, k) && k != Other && k != Port
    ensures KeyOf(w) == k <==> w == name
  {
    KeyName(w);
    KeyName(name);
    if KeyOf(w) == k { OneName(k, w, name); }
  }

  lemma LportIsPort() ensures Known("lport", Port) {}

  lemma PortNames(w: string)
    ensures KeyOf(w) == Port <==> w == "port" || w == "lport"
  {
    KeyName(w);
    IsPort();
    LportIsPort();
  }

  predicate NoSpaces(s: string) { forall i :: 0 <= i < |s| ==> !IsSpace(s[i]) }

  lemma NameHasNone(w: string)
    requires NameOk(w)
    ensures NoSpaces(w)
  {
    forall i | 0 <= i < |w| ensures !IsSpace(w[i]) { assert TagChar(w[i]); }
  }

  lemma FirstSpaces(k: Key, w: string)
    requires NamedFirst(k, w)
    ensures NoSpaces(w)
  {
  }

  lemma RestSpaces(k: Key, w: string)
    requires NamedRest(k, w)
    ensures NoSpaces(w)
  {
  }

  lemma LastSpaces(k: Key, w: string)
    requires NamedLast(k, w)
    ensures NoSpaces(w)
  {
    IsPlugin(); IsMaxClients(); IsTlsVersionMin(); IsTunMtu(); IsSndbuf(); IsRcvbuf(); IsServerIpv6(); IsIfconfigPool();
    IsRedirect();
    NameHasNone(w);
  }

  /** A word with white space inside is no directive. */
  lemma SpacedIsOther(w: string, i: nat)
    requires i < |w| && IsSpace(w[i])
    ensures KeyOf(w) == Other
  {
    var k := KeyOf(w);
    KeyName(w);
    if NamedFirst(k, w) { FirstSpaces(k, w); } else if NamedRest(k, w) { RestSpaces(k, w); } else if NamedLast(k, w) { LastSpaces(k, w); }
  }

  // ---- ignored lines ----

  /** The words that make a line ignored if no more than a blank follows. */
  predicate IgnoredWord(w: string) {
    || w == "management-client-user" || w == "management-client-group" || w == "script-security" || w == "user"
    || w == "group" || w == "chroot"
  }

  /** The words that make a line ignored whatever white space follows. */
  predicate IgnoredName(w: string) {
    || w == "management" || w == "status" || w == "writepid" || w == "verb" || w == "persist-key" || w == "persist-tun"
    || w == "persist-local-ip" || w == "persist-remote-ip" || w == "daemon" || w == "keepalive"
  }

  /** Whether the first word of a text ends it or is followed by a blank. */
  predicate Blanked(s: string) { |FirstWord(s)| >= |s| || Fields.IsBlank(s[|FirstWord(s)|]) }

  /** A line in lower case that the import ignores. */
  predicate Dropped(low: string) {
    IgnoredName(FirstWord(low)) || (IgnoredWord(FirstWord(low)) && Blanked(low)) || Leads(low, "setenv opt")
  }

  lemma {:induction false} FirstWordPart(s: string)
    ensures var w := FirstWord(s); |w| <= |s| && w == s[..|w|] && NoSpaces(w) && (|w| < |s| ==> IsSpace(s[|w|]))
  {
    if s != "" && !IsSpace(s[0]) { FirstWordPart(s[1..]); }
  }

  lemma {:induction false} FirstWordEnds(s: string, w: string)
    requires w <= s && NoSpaces(w) && (|w| < |s| ==> IsSpace(s[|w|]))
    ensures FirstWord(s) == w
  {
    if w != "" {
      assert s[0] == w[0] && !IsSpace(w[0]);
      assert w[1..] <= s[1..];
      FirstWordEnds(s[1..], w[1..]);
    }
  }

  lemma LeadsHow(low: string, p: string)
    ensures Leads(low, p) <==> p <= low && (|low| == |p| || Fields.IsBlank(low[|p|]))
  {
    if p <= low && |low| > |p| {
      assert low[..|p| + 1] == p + [low[|p|]];
      assert p + " " == p + [' '] && p + "\t" == p + ['\t'];
    }
    if StartsWith(low, p + " ") { assert low[..|p| + 1][|p|] == ' ' && low[..|p| + 1][..|p|] == p; }
    if StartsWith(low, p + "\t") { assert low[..|p| + 1][|p|] == '\t' && low[..|p| + 1][..|p|] == p; }
  }

  /** A line leads with a word exactly if that is its first word and no more than a blank follows. */
  lemma LeadsWord(low: string, p: string)
    requires NoSpaces(p)
    ensures Leads(low, p) <==> FirstWord(low) == p && Blanked(low)
  {
    FirstWordPart(low);
    LeadsHow(low, p);
    if Leads(low, p) { FirstWordEnds(low, p); }
  }

  predicate LowText(s: string) { forall i :: 0 <= i < |s| ==> !('A' <= s[i] <= 'Z') }

  lemma LowIsLow(s: string)
    ensures LowText(ToLower(s))
  {
  }

  /** Capitals never match a text in lower case. */
  lemma CapitalsNeverLead(low: string, p: string, i: nat)
    requires LowText(low) && i < |p| && 'A' <= p[i] <= 'Z'
    ensures !Leads(low, p)
  {
    LeadsHow(low, p);
  }

  predicate LeadsOne(low: string, lo: nat, hi: nat)
    requires lo <= hi <= |IGNORED|
  {
    exists i :: lo <= i < hi && Leads(low, IGNORED[i])
  }

  lemma LocalName() ensures NoSpaces("persist-local-ip") {}
  lemma RemoteName() ensures NoSpaces("persist-remote-ip") {}
  lemma GroupName() ensures NoSpaces("management-client-group") {}
  lemma ShortNames() ensures NoSpaces("daemon") && NoSpaces("user") && NoSpaces("group") && NoSpaces("chroot") {}

  predicate FirstThree(w: string) { w == "management" || w == "management-client-user" || w == "management-client-group" }

  lemma LeadsFirst(low: string)
    ensures LeadsOne(low, 0, 3) <==> FirstThree(FirstWord(low)) && Blanked(low)
  {
    SkipsManagement(); SkipsManagementClientUser(); GroupName();
    NameHasNone("management"); NameHasNone("management-client-user");
    LeadsWord(low, IGNORED[0]); LeadsWord(low, IGNORED[1]); LeadsWord(low, IGNORED[2]);
  }

  predicate SecondThree(w: string) { w == "status" || w == "writepid" || w == "verb" }

  lemma LeadsSecond(low: string)
    ensures LeadsOne(low, 3, 6) <==> SecondThree(FirstWord(low)) && Blanked(low)
  {
    SkipsStatus(); SkipsWritepid(); SkipsVerb();
    NameHasNone("status"); NameHasNone("writepid"); NameHasNone("verb");
    LeadsWord(low, IGNORED[3]); LeadsWord(low, IGNORED[4]); LeadsWord(low, IGNORED[5]);
  }

  predicate ThirdThree(w: string) { w == "persist-key" || w == "persist-tun" || w == "persist-local-ip" }

  lemma LeadsThird(low: string)
    ensures LeadsOne(low, 6, 9) <==> ThirdThree(FirstWord(low)) && Blanked(low)
  {
    SkipsPersistKey(); SkipsPersistTun(); LocalName();
    NameHasNone("persist-key"); NameHasNone("persist-tun");
    LeadsWord(low, IGNORED[6]); LeadsWord(low, IGNORED[7]); LeadsWord(low, IGNORED[8]);
  }

  predicate FourthThree(w: string) { w == "persist-remote-ip" || w == "script-security" || w == "daemon" }

  lemma LeadsFourth(low: string)
    ensures LeadsOne(low, 9, 12) <==> FourthThree(FirstWord(low)) && Blanked(low)
  {
    SkipsScriptSecurity(); RemoteName(); ShortNames();
    NameHasNone("script-security");
    LeadsWord(low, IGNORED[9]); LeadsWord(low, IGNORED[10]); LeadsWord(low, IGNORED[11]);
  }

  predicate FifthThree(w: string) { w == "user" || w == "group" || w == "chroot" }

  lemma LeadsFifth(low: string)
    ensures LeadsOne(low, 12, 15) <==> FifthThree(FirstWord(low)) && Blanked(low)
  {
    ShortNames();
    LeadsWord(low, IGNORED[12]); LeadsWord(low, IGNORED[13]); LeadsWord(low, IGNORED[14]);
  }

  lemma LastOnes() ensures IGNORED[16] == "setenv opt" && IGNORED[17] == "keepalive" {}

  lemma NeverLeads(low: string)
    requires LowText(low)
    ensures !Leads(low, IGNORED[15])
  {
    assert IGNORED[15][7] == 'F';
    CapitalsNeverLead(low, IGNORED[15], 7);
  }

  /** Of the two listed texts with a blank inside only one ever matches: the other holds capitals. */
  lemma LeadsLast(low: string)
    requires LowText(low)
    ensures LeadsOne(low, 15, 18) <==> Leads(low, "setenv opt") || (FirstWord(low) == "keepalive" && Blanked(low))
  {
    SkipsKeepalive();
    NameHasNone("keepalive");
    NeverLeads(low);
    LeadsWord(low, "keepalive");
    LastOnes();
    assert Leads(low, IGNORED[17]) <==> Leads(low, "keepalive");
    assert Leads(low, IGNORED[16]) <==> Leads(low, "setenv opt");
  }

  lemma IgnoredFirstIs(w: string)
    ensures w in IGNORED_FIRST <==> IgnoredName(w)
  {
  }

  lemma SixParts(low: string)
    ensures (exists i :: 0 <= i < |IGNORED| && Leads(low, IGNORED[i])) <==>
      LeadsOne(low, 0, 3) || LeadsOne(low, 3, 6) || LeadsOne(low, 6, 9) || LeadsOne(low, 9, 12) || LeadsOne(low, 12, 15) || LeadsOne(low, 15, 18)
  {
  }

  lemma WordParts(w: string)
    ensures IgnoredName(w) || IgnoredWord(w) <==>
      FirstThree(w) || SecondThree(w) || ThirdThree(w) || FourthThree(w) || FifthThree(w) || w == "keepalive"
  {
  }

  /** Exactly the lines that begin with a listed word are ignored. */
  lemma IgnoresExactly(low: string)
    requires LowText(low)
    ensures ShouldIgnore(low) <==> Dropped(low)
  {
    SixParts(low);
    LeadsFirst(low); LeadsSecond(low); LeadsThird(low); LeadsFourth(low); LeadsFifth(low); LeadsLast(low);
    WordParts(FirstWord(low));
    IgnoredFirstIs(FirstWord(low));
  }

  lemma KeyManagement() ensures KeyOf("management") == Other {}
  lemma KeyManagementUser() ensures KeyOf("management-client-user") == Other { LongIsOther("management-client-user"); }
  lemma KeyManagementGroup() ensures KeyOf("management-client-group") == Other { LongIsOther("management-client-group"); }
  lemma KeyStatus() ensures KeyOf("status") == Other {}
  lemma KeyWritepid() ensures KeyOf("writepid") == Other {}
  lemma KeyVerb() ensures KeyOf("verb") == Other {}
  lemma KeyPersistKey() ensures KeyOf("persist-key") == Other {}
  lemma KeyPersistTun() ensures KeyOf("persist-tun") == Other {}
  lemma KeyPersistLocal() ensures KeyOf("persist-local-ip") == Other {}
  lemma KeyPersistRemote() ensures KeyOf("persist-remote-ip") == Other { LongIsOther("persist-remote-ip"); }
  lemma KeyScriptSecurity() ensures KeyOf("script-security") == Other {}
  lemma KeyDaemon() ensures KeyOf("daemon") == Other {}
  lemma KeyUser() ensures KeyOf("user") == Other {}
  lemma KeyGroup() ensures KeyOf("group") == Other {}
  lemma KeyChroot() ensures KeyOf("chroot") == Other {}
  lemma KeyKeepalive() ensures KeyOf("keepalive") == Other {}
  lemma KeySetenv() ensures KeyOf("setenv") == Other {}
  lemma NameLocal() ensures NameOk("persist-local-ip") && NameOk("persist-remote-ip") {}
  lemma NameGroup() ensures NameOk("management-client-group") {}
  lemma NameShort() ensures NameOk("daemon") && NameOk("user") && NameOk("group") && NameOk("chroot") {}

  lemma FirstAreOther(w: string)
    requires FirstThree(w)
    ensures KeyOf(w) == Other && NameOk(w)
  {
    KeyManagement(); KeyManagementUser(); KeyManagementGroup();
    SkipsManagement(); SkipsManagementClientUser(); NameGroup();
  }

  lemma SecondAreOther(w: string)
    requires SecondThree(w)
    ensures KeyOf(w) == Other && NameOk(w)
  {
    KeyStatus(); KeyWritepid(); KeyVerb();
    SkipsStatus(); SkipsWritepid(); SkipsVerb();
  }

  lemma ThirdAreOther(w: string)
    requires ThirdThree(w)
    ensures KeyOf(w) == Other && NameOk(w)
  {
    KeyPersistKey(); KeyPersistTun(); KeyPersistLocal();
    SkipsPersistKey(); SkipsPersistTun(); NameLocal();
  }

  lemma FourthAreOther(w: string)
    requires FourthThree(w)
    ensures KeyOf(w) == Other && NameOk(w)
  {
    KeyPersistRemote(); KeyScriptSecurity(); KeyDaemon();
    NameLocal(); SkipsScriptSecurity(); NameShort();
  }

  lemma FifthAreOther(w: string)
    requires FifthThree(w)
    ensures KeyOf(w) == Other && NameOk(w)
  {
    KeyUser(); KeyGroup(); KeyChroot();
    NameShort();
  }

  /** No listed word is a directive the import knows. */
  lemma ListedIsOther(w: string)
    requires IgnoredName(w) || IgnoredWord(w)
    ensures KeyOf(w) == Other && NameOk(w)
  {
    WordParts(w);
    if FirstThree(w) { FirstAreOther(w); }
    else if SecondThree(w) { SecondAreOther(w); }
    else if ThirdThree(w) { ThirdAreOther(w); }
    else if FourthThree(w) { FourthAreOther(w); }
    else if FifthThree(w) { FifthAreOther(w); }
    else { KeyKeepalive(); SkipsKeepalive(); }
  }

  lemma PlainPart(line: string, w: string)
    requires NameOk(w) && w <= ToLower(line)
    ensures !Fields.NeedsQuotes(line[..|w|]) && ToLower(line[..|w|]) == w
  {
    forall i | 0 <= i < |w| ensures !Fields.IsBlank(line[i]) && !Fields.IsQuote(line[i]) && LowerChar(line[i]) == w[i] {
      assert ToLower(line)[i] == w[i] && TagChar(w[i]);
    }
  }

  /** The first field of a line that begins with a name followed by white space, if anything. */
  lemma FirstField(line: string, w: string)
    requires NameOk(w) && w <= ToLower(line) && (|line| > |w| ==> IsSpace(line[|w|]))
    ensures var f := Fields.Split(line); f != [] && (ToLower(f[0]) == w || exists i :: 0 <= i < |f[0]| && IsSpace(f[0][i]))
    ensures |line| > |w| && Fields.IsBlank(line[|w|]) ==> ToLower(Fields.Split(line)[0]) == w
  {
    PlainPart(line, w);
    var head, rest := line[..|w|], line[|w|..];
    assert line == head + rest && "" + head == head;
    Fields.ScanPlain(head, rest, "");
    if rest != "" {
      var c := rest[0];
      if Fields.IsBlank(c) {
        assert Fields.Split(line) == [head] + Fields.Scan(rest[1..], Fields.Out, "");
      } else {
        var cur := head + [c];
        Fields.FieldExtends(rest[1..], Fields.Out, cur);
        assert Fields.Split(line)[0][|head|] == c;
      }
    }
  }

  lemma SetenvFirst(line: string)
    requires Leads(ToLower(line), "setenv opt")
    ensures var f := Fields.Split(line); f != [] && KeyOf(ToLower(f[0])) == Other
  {
    var low := ToLower(line);
    LeadsHow(low, "setenv opt");
    assert low[..6] == "setenv" by { assert low[..10] == "setenv opt" && low[..10][..6] == "setenv"; }
    assert low[6] == ' ' by { assert low[..10][6] == ' '; }
    assert NameOk("setenv");
    KeySetenv();
    FirstField(line, "setenv");
  }

  /** An ignored line begins with no directive the import knows. */
  lemma IgnoredIsOther(line: string)
    requires ShouldIgnore(ToLower(line))
    ensures var f := Fields.Split(line); f != [] && KeyOf(ToLower(f[0])) == Other
  {
    var low := ToLower(line);
    LowIsLow(line);
    IgnoresExactly(low);
    if Leads(low, "setenv opt") {
      SetenvFirst(line);
    } else {
      var w := FirstWord(low);
      FirstWordPart(low);
      ListedIsOther(w);
      assert |line| > |w| ==> low[|w|] == LowerChar(line[|w|]);
      FirstField(line, w);
      var f := Fields.Split(line);
      if ToLower(f[0]) != w {
        var i :| 0 <= i < |f[0]| && IsSpace(f[0][i]);
        SpacedIsOther(ToLower(f[0]), i);
      }
    }
  }
}
