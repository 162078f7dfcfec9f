/** Importing a rendered server conf gives its settings back. */
module ConfRoundTrip {
  import opened Wrappers
  import opened Text
  import opened Addresses
  import opened Blocks
  import opened Inline
  import opened ConfImport
  import opened ConfGen
  import opened ConfNames
  import Fields

  // ---- netmasks ----

  lemma {:induction false} Pow2Injective(j: nat, k: nat)
    requires j < k
    ensures Pow2(j) < Pow2(k)
  {
    if j < k - 1 { Pow2Injective(j, k - 1); }
  }

  lemma {:induction false} MaskPrefixFinds(prefix: nat, p: nat)
    requires p <= prefix <= 32
    ensures MaskPrefix(MaskIp(prefix), p) == Some(prefix)
    decreases prefix - p
  {
    if p < prefix {
      Pow2Injective(32 - prefix, 32 - p);
      MaskPrefixFinds(prefix, p + 1);
    }
  }

  lemma IpWord(ip: Ip)
    ensures WordOk(IpText(ip)) && TrimSpace(IpText(ip)) == IpText(ip)
  {
    IpTextChars(ip);
    TrimIdentity(IpText(ip));
  }

  /** The netmask form of a network and its import undo each other: what comes back is the masked
      CIDR. */
  lemma NetworkRoundTrip(cidr: string)
    requires NetAndMask(cidr).Some?
    ensures var nm := NetAndMask(cidr).value;
      && WordOk(nm.0) && WordOk(nm.1)
      && NetworkMaskToCidr(nm.0, nm.1) == Some(CidrText(ParseCidr(TrimSpace(cidr)).value.1))
  {
    ParsedIsValid(TrimSpace(cidr));
    var c := ParseCidr(TrimSpace(cidr)).value.1;
    IpWord(c.net);
    IpWord(MaskIp(c.prefix));
    IpTextRoundTrip(c.net);
    IpTextRoundTrip(MaskIp(c.prefix));
    MaskPrefixFinds(c.prefix, 0);
    MaskedIsValid(c.net, c.prefix);
  }

  // ---- words and lines ----

  predicate PlainChar(c: char) { !IsSpace(c) && !Fields.IsQuote(c) && c != '#' }

  /** A word that needs no quotes: no blanks, quotes or '#'. */
  predicate WordOk(a: string) { a != "" && forall i :: 0 <= i < |a| ==> PlainChar(a[i]) }

  /** An argument that survives quoting and has no white space but blanks. */
  predicate ArgOk(a: string) {
    Fields.Survives(a) && forall i :: 0 <= i < |a| ==> (IsSpace(a[i]) ==> Fields.IsBlank(a[i]))
  }

  predicate WordsOk(words: seq<string>) { forall i :: 0 <= i < |words| ==> WordOk(words[i]) }

  predicate ArgsOk(args: seq<string>) { forall i :: 0 <= i < |args| ==> ArgOk(args[i]) }

  lemma WordIsArg(a: string)
    requires WordOk(a)
    ensures ArgOk(a) && !Fields.NeedsQuotes(a) && Fields.QuoteArg(a) == a
  {
    forall i | 0 <= i < |a| ensures !Fields.IsBlank(a[i]) && !Fields.IsQuote(a[i]) { assert PlainChar(a[i]); }
  }

  /** One line. */
  predicate OneLine(s: string) { Lacks(s, '\n') }

  lemma LineJoin(a: string, b: string)
    requires OneLine(a) && OneLine(b)
    ensures OneLine(a + b)
  {
  }

  lemma {:induction false} EscapedIsLine(a: string)
    requires OneLine(a)
    ensures OneLine(Fields.Escaped(a))
  {
    if a != "" {
      EscapedIsLine(a[1..]);
    }
  }

  lemma QuotedIsLine(a: string)
    requires ArgOk(a)
    ensures OneLine(Fields.QuoteArg(a)) && Fields.QuoteArg(a) != ""
    ensures !IsSpace(Fields.QuoteArg(a)[|Fields.QuoteArg(a)| - 1])
  {
    EscapedIsLine(a);
    if !Fields.NeedsQuotes(a) {
      var last := a[|a| - 1];
      assert !Fields.IsBlank(last);
    }
  }

  /** The text of quoted arguments is one line and ends in a visible character. */
  lemma {:induction false} ArgsAreLine(args: seq<string>)
    requires args != [] && ArgsOk(args)
    ensures OneLine(Fields.Quoted(args)) && Fields.Quoted(args) != ""
    ensures !IsSpace(Fields.Quoted(args)[|Fields.Quoted(args)| - 1])
  {
    assert ArgOk(args[0]);
    QuotedIsLine(args[0]);
    if |args| > 1 {
      ArgsAreLine(args[1..]);
      LineJoin(Fields.QuoteArg(args[0]) + " ", Fields.Quoted(args[1..]));
    }
  }

  /** No '#' that starts a comment. */
  predicate Unhashed(line: string) { Fields.UnquotedFrom(line, Fields.Out, '#') == -1 }

  lemma {:induction false} LacksHash(s: string, st: Fields.State)
    requires Lacks(s, '#')
    ensures Fields.UnquotedFrom(s, st, '#') == -1
  {
    if s != "" {
      var next := if st.In? then (if s[0] == st.quote then Fields.Out else st)
                  else if Fields.IsQuote(s[0]) then Fields.In(s[0]) else Fields.Out;
      LacksHash(s[1..], next);
    }
  }

  // ---- ignored lines ----

  predicate NoBlank(s: string) { forall i :: 0 <= i < |s| ==> !IsSpace(s[i]) }

  /** Whether a low line starts with a given word: its first word. */
  lemma LeadsExactly(key: string, rest: string, low: string, p: string)
    requires low == key + rest && NoBlank(key) && NoBlank(p) && (rest == "" || rest[0] == ' ')
    ensures Leads(low, p) <==> key == p
  {
    if key == p {
      if rest == "" {
        assert low == p;
      } else {
        assert low[..|p| + 1] == p + " ";
      }
    } else if low == p {
      WordEnds(key, rest, low, p);
    } else if StartsWith(low, p + " ") {
      assert low[..|p|] == p && low[|p|] == ' ' by { assert low[..|p| + 1] == p + " "; }
      WordEnds(key, rest, low, p);
    } else if StartsWith(low, p + "\t") {
      assert low[..|p|] == p && low[|p|] == '\t' by { assert low[..|p| + 1] == p + "\t"; }
      WordEnds(key, rest, low, p);
    }
  }

  lemma {:induction false} FirstWordIs(key: string, rest: string)
    requires NoBlank(key) && (rest == "" || IsSpace(rest[0]))
    ensures FirstWord(key + rest) == key
  {
    if key == "" {
      assert key + rest == rest;
    } else {
      assert (key + rest)[1..] == key[1..] + rest;
      FirstWordIs(key[1..], rest);
    }
  }

  lemma WordEnds(key: string, rest: string, low: string, p: string)
    requires low == key + rest && NoBlank(key) && NoBlank(p) && (rest == "" || rest[0] == ' ')
    requires |p| <= |low| && low[..|p|] == p && (|p| < |low| ==> IsSpace(low[|p|]))
    ensures key == p
  {
    FirstWordIs(key, rest);
    assert low == p + low[|p|..];
    FirstWordIs(p, low[|p|..]);
  }

  const SETENV := "setenv "

  lemma IgnoredWords(i: nat)
    requires i < |IGNORED|
    ensures NoBlank(IGNORED[i]) || StartsWith(IGNORED[i], SETENV)
  {
    if i < 3 { IgnoredWords0(i); } else if i < 6 { IgnoredWords1(i); } else if i < 12 { IgnoredWords2(i); } else { IgnoredWords3(i); }
  }

  lemma IgnoredWords0(i: nat)
    requires i < 3
    ensures NoBlank(IGNORED[i])
  {
    var words := ["management", "management-client-user", "management-client-group"];
    assert IGNORED[i] == words[i];
  }

  lemma IgnoredWords1(i: nat)
    requires 3 <= i < 6
    ensures NoBlank(IGNORED[i])
  {
    var words := ["status", "writepid", "verb"];
    assert IGNORED[i] == words[i - 3];
  }

  lemma IgnoredWords2(i: nat)
    requires 6 <= i < 12
    ensures NoBlank(IGNORED[i])
  {
    var words := ["persist-key", "persist-tun", "persist-local-ip", "persist-remote-ip", "script-security", "daemon"];
    assert IGNORED[i] == words[i - 6];
  }

  lemma IgnoredWords3(i: nat)
    requires 12 <= i < |IGNORED|
    ensures NoBlank(IGNORED[i]) || StartsWith(IGNORED[i], SETENV)
  {
    var words := ["user", "group", "chroot", "setenv FORWARD_COMPATIBLE", "setenv opt", "keepalive"];
    assert IGNORED[i] == words[i - 12];
  }

  lemma SetenvLeads(key: string, rest: string, low: string, p: string)
    requires low == key + rest && NoBlank(key) && (rest == "" || rest[0] == ' ') && key != "setenv" && StartsWith(p, SETENV)
    ensures !Leads(low, p)
  {
    if Leads(low, p) {
      assert StartsWith(low, SETENV) by { StartsTrans(low, p); }
      var word := "setenv";
      assert SETENV == word + " ";
      assert low[..6] == word && low[6] == ' ' by { assert low[..7] == SETENV; }
      WordEnds(key, rest, low, word);
    }
  }

  lemma StartsTrans(low: string, p: string)
    requires Leads(low, p) && StartsWith(p, SETENV)
    ensures StartsWith(low, SETENV)
  {
    assert low[..|p|] == p;
    assert low[..7] == p[..7];
  }

  lemma IgnoredFirst(key: string)
    requires key in IGNORED_FIRST
    ensures key in IGNORED
  {
  }

  /** A line is ignored exactly if its first word is in the list. */
  lemma IgnoredExactly(key: string, rest: string, low: string)
    requires low == key + rest && NoBlank(key) && (rest == "" || rest[0] == ' ') && key != "setenv"
    ensures ShouldIgnore(low) <==> key in IGNORED
  {
    FirstWordIs(key, rest);
    if key in IGNORED_FIRST { IgnoredFirst(key); }
    forall i: nat | i < |IGNORED| ensures Leads(low, IGNORED[i]) <==> key == IGNORED[i] {
      IgnoredWords(i);
      if NoBlank(IGNORED[i]) {
        LeadsExactly(key, rest, low, IGNORED[i]);
      } else {
        SetenvLeads(key, rest, low, IGNORED[i]);
        assert key != IGNORED[i] by { assert IGNORED[i][6] == SETENV[6]; }
      }
    }
    if key in IGNORED {
      var i: nat :| i < |IGNORED| && IGNORED[i] == key;
      assert Leads(low, IGNORED[i]);
    }
  }

  // ---- what a line reads as ----

  /** The text of a pushed option: no double quote, one line. */
  predicate PushOk(payload: string) { Lacks(payload, '"') && Lacks(payload, '\n') }

  predicate LineOk(l: Line) {
    match l
    case Words(tokens) => |tokens| >= 1 && WordsOk(tokens) && tokens[0][0] != ';' && ToLower(tokens[0]) != "setenv"
    case PluginLine(p) => WordOk(p.path) && ArgsOk(p.args) && Unhashed(LineText(l))
    case PushLine(option) => |option| >= 1 && PushOk(Join(option, ' '))
    case Comment(text) => Lacks(text, '\n') && (text == "" || text[0] == '#')
  }

  /** The effect of a line on the settings. */
  function Reads(r: Conf, l: Line): Conf {
    match l
    case Words(tokens) =>
      if tokens == [] || ToLower(tokens[0]) in IGNORED then r
      else Directive(r, KeyOf(ToLower(tokens[0])), tokens, LineText(l))
    case PluginLine(p) => r.(plugins := r.plugins + [p])
    case PushLine(option) => ReadPush(r, Join(option, ' '))
    case Comment(_) => r
  }

  /** Lines that are kept as extra directives. */
  predicate IsExtra(l: Line) {
    l.Words? && l.tokens != [] && ToLower(l.tokens[0]) !in IGNORED && KeptAsExtra(KeyOf(ToLower(l.tokens[0])), l.tokens)
  }

  function ReadsLine(s: Scanned, l: Line): Scanned {
    Scanned(Reads(s.conf, l), s.extra + if IsExtra(l) then [LineText(l)] else [])
  }

  lemma QuotedHead(tokens: seq<string>)
    requires |tokens| >= 1 && WordOk(tokens[0])
    ensures var rest := if |tokens| == 1 then "" else " " + Fields.Quoted(tokens[1..]);
      Fields.Quoted(tokens) == tokens[0] + rest
  {
    WordIsArg(tokens[0]);
  }

  /** Tokens whose quoted text is read as these tokens. */
  predicate TokensOk(tokens: seq<string>) {
    && |tokens| >= 1 && WordOk(tokens[0]) && tokens[0][0] != ';' && ToLower(tokens[0]) != "setenv" && ArgsOk(tokens)
    && Unhashed(Fields.Quoted(tokens))
  }

  /** The text of a directive line is trimmed and has no comment. */
  lemma WordsTrimmed(tokens: seq<string>, line: string)
    requires TokensOk(tokens) && line == Fields.Quoted(tokens)
    ensures line != "" && line[0] != '#' && line[0] != ';' && TrimSpace(line) == line && Uncommented(line) == line
  {
    QuotedHead(tokens);
    ArgsAreLine(tokens);
    assert line[0] == tokens[0][0] && PlainChar(tokens[0][0]);
    TrimIdentity(line);
  }

  lemma WordsIgnored(tokens: seq<string>, line: string)
    requires TokensOk(tokens) && line == Fields.Quoted(tokens)
    ensures ShouldIgnore(ToLower(line)) <==> ToLower(tokens[0]) in IGNORED
  {
    var rest := if |tokens| == 1 then "" else " " + Fields.Quoted(tokens[1..]);
    QuotedHead(tokens);
    LowerJoin(tokens[0], rest);
    LowerRest(rest);
    LowerNoBlank(tokens[0]);
    IgnoredExactly(ToLower(tokens[0]), ToLower(rest), ToLower(line));
  }

  lemma WordsSplit(tokens: seq<string>, line: string)
    requires ArgsOk(tokens) && line == Fields.Quoted(tokens)
    ensures Fields.Split(line) == tokens
  {
    forall i | 0 <= i < |tokens| ensures Fields.Survives(tokens[i]) { assert ArgOk(tokens[i]); }
    Fields.SplitUndoesQuoting(tokens);
  }

  lemma TokensRead(s: Scanned, tokens: seq<string>, line: string)
    requires TokensOk(tokens) && line == Fields.Quoted(tokens)
    ensures OneLine(line)
    ensures ReadLine(s, line) ==
      if ToLower(tokens[0]) in IGNORED then s
      else
        var key := KeyOf(ToLower(tokens[0]));
        Scanned(Directive(s.conf, key, tokens, line), s.extra + if KeptAsExtra(key, tokens) then [line] else [])
  {
    ArgsAreLine(tokens);
    WordsTrimmed(tokens, line);
    WordsIgnored(tokens, line);
    WordsSplit(tokens, line);
  }

  lemma WordsRead(s: Scanned, tokens: seq<string>)
    requires LineOk(Words(tokens))
    ensures ReadLine(s, LineText(Words(tokens))) == ReadsLine(s, Words(tokens)) && OneLine(LineText(Words(tokens)))
  {
    PlainJoin(tokens);
    WordsLack(tokens, '#');
    LacksHash(Join(tokens, ' '), Fields.Out);
    assert WordOk(tokens[0]);
    forall i | 0 <= i < |tokens| ensures ArgOk(tokens[i]) { WordIsArg(tokens[i]); }
    TokensRead(s, tokens, LineText(Words(tokens)));
  }

  lemma ArgsFront(args: seq<string>)
    requires args != []
    ensures ArgsText(args) == ArgText(args[0]) + ArgsText(args[1..])
  {
    JoinedFront(args, ArgText);
  }

  lemma Glue(a: string, b: string, c: string)
    ensures a + " " + (b + c) == a + ((" " + b) + c)
  {
  }

  /** Quoted arguments one after the other. */
  lemma {:induction false} QuotedIs(args: seq<string>)
    requires args != []
    ensures Fields.Quoted(args) == Fields.QuoteArg(args[0]) + ArgsText(args[1..])
  {
    if |args| > 1 {
      var rest := args[1..];
      QuotedIs(rest);
      ArgsFront(rest);
      Glue(Fields.QuoteArg(args[0]), Fields.QuoteArg(rest[0]), ArgsText(rest[1..]));
    }
  }

  lemma QuotedPair(first: string, rest: seq<string>)
    requires WordOk(first) && rest != []
    ensures Fields.Quoted([first] + rest) == first + " " + Fields.Quoted(rest)
  {
    WordIsArg(first);
    assert ([first] + rest)[1..] == rest;
  }

  lemma PluginTokens(p: Plugin)
    requires WordOk(p.path)
    ensures LineText(PluginLine(p)) == Fields.Quoted(["plugin", p.path] + p.args)
  {
    PluginWord();
    WordIsArg(p.path);
    QuotedIs([p.path] + p.args);
    assert ([p.path] + p.args)[1..] == p.args;
    QuotedPair("plugin", [p.path] + p.args);
    assert ["plugin"] + ([p.path] + p.args) == ["plugin", p.path] + p.args;
    JoinTexts("plugin ", p.path, ArgsText(p.args));
  }

  lemma PluginWord() ensures WordOk("plugin") {}

  lemma PluginTokensOk(p: Plugin, tokens: seq<string>)
    requires LineOk(PluginLine(p)) && tokens == ["plugin", p.path] + p.args
    ensures TokensOk(tokens)
  {
    NameStays("plugin");
    PluginWord();
    PluginTokens(p);
    WordIsArg("plugin");
    WordIsArg(p.path);
    forall i | 0 <= i < |tokens| ensures ArgOk(tokens[i]) { if i >= 2 { assert tokens[i] == p.args[i - 2]; } }
  }

  lemma PluginDirective(r: Conf, p: Plugin, tokens: seq<string>, line: string)
    requires tokens == ["plugin", p.path] + p.args
    ensures Directive(r, PluginKey, tokens, line) == r.(plugins := r.plugins + [p]) && !KeptAsExtra(PluginKey, tokens)
  {
    assert tokens[1] == p.path && tokens[2..] == p.args;
  }

  lemma PluginRead(s: Scanned, p: Plugin)
    requires LineOk(PluginLine(p))
    ensures ReadLine(s, LineText(PluginLine(p))) == ReadsLine(s, PluginLine(p)) && OneLine(LineText(PluginLine(p)))
  {
    var tokens, line := ["plugin", p.path] + p.args, LineText(PluginLine(p));
    IsPlugin();
    PluginTokensOk(p, tokens);
    PluginTokens(p);
    KnownRead(s, tokens, PluginKey, line);
    PluginDirective(s.conf, p, tokens, line);
  }

  lemma KnownRead(s: Scanned, tokens: seq<string>, k: Key, line: string)
    requires TokensOk(tokens) && Known(tokens[0], k) && line == Fields.Quoted(tokens)
    ensures OneLine(line)
    ensures ReadLine(s, line) == Scanned(Directive(s.conf, k, tokens, line), s.extra + if KeptAsExtra(k, tokens) then [line] else [])
  {
    NameStays(tokens[0]);
    TokensRead(s, tokens, line);
  }

  lemma LowerRest(rest: string)
    requires rest == "" || rest[0] == ' '
    ensures ToLower(rest) == "" || ToLower(rest)[0] == ' '
  {
  }

  lemma LowerNoBlank(word: string)
    requires WordOk(word)
    ensures NoBlank(ToLower(word))
  {
    forall i | 0 <= i < |word| ensures !IsSpace(ToLower(word)[i]) { assert PlainChar(word[i]); }
  }

  // ---- pushed options ----

  lemma {:induction false} PlainJoin(words: seq<string>)
    requires |words| >= 1 && WordsOk(words)
    ensures Join(words, ' ') == Fields.Quoted(words)
  {
    WordIsArg(words[0]);
    if |words| > 1 { PlainJoin(words[1..]); }
  }

  lemma {:induction false} WordsLack(words: seq<string>, c: char)
    requires |words| >= 1 && WordsOk(words) && (c == '"' || c == '#' || c == '\n')
    ensures Lacks(Join(words, ' '), c)
  {
    assert WordOk(words[0]);
    forall i | 0 <= i < |words[0]| ensures words[0][i] != c { assert PlainChar(words[0][i]); }
    if |words| > 1 { WordsLack(words[1..], c); }
  }

  /** Words make a pushed option. */
  lemma WordsPush(words: seq<string>)
    requires |words| >= 1 && WordsOk(words)
    ensures PushOk(Join(words, ' '))
  {
    WordsLack(words, '"');
    WordsLack(words, '\n');
  }

  lemma {:induction false} LastQuoteIs(s: string, q: char)
    requires Lacks(s, q)
    ensures LastQuote(s + [q], q) == |s|
  {
  }

  lemma PushPayloadIs(payload: string, line: string)
    requires line == "push \"" + payload + "\"" && Lacks(payload, '"')
    ensures TrimSpace(line) == line && PushPayload(line) == payload
  {
    TrimIdentity(line);
    var quoted := "\"" + payload + "\"";
    assert line[4..] == " " + quoted;
    TrimBlank(quoted);
    assert quoted[1..] == payload + ['"'];
    LastQuoteIs(payload, '"');
    assert quoted[1..1 + |payload|] == payload;
  }

  lemma TrimBlank(s: string)
    requires s != "" && !IsSpace(s[0]) && !IsSpace(s[|s| - 1])
    ensures TrimSpace(" " + s) == s
  {
    assert (" " + s)[1..] == s;
    assert TrimLeft(" " + s) == TrimLeft(s);
    TrimIdentity(s);
  }

  lemma PushKey()
    ensures KeyOf("push") == Push && ToLower("push") == "push" && "push" !in IGNORED
  {
    assert KeyOf("push") == KeyOfRest("push");
  }

  /** The first field of a push line. */
  lemma PushFields(payload: string, line: string)
    requires line == "push \"" + payload + "\""
    ensures var f := Fields.Split(line); |f| >= 1 && f[0] == "push"
  {
    var rest := " \"" + payload + "\"";
    assert line == "push" + rest;
    Fields.ScanPlain("push", rest, "");
    assert "" + "push" == "push";
    assert Fields.Split(line) == Fields.Scan(rest, Fields.Out, "push");
    assert Fields.Split(line) == ["push"] + Fields.Scan(rest[1..], Fields.Out, "");
  }

  lemma {:induction false} QuotedUnhashed(payload: string, k: nat)
    requires Lacks(payload, '"') && k <= |payload|
    ensures Fields.UnquotedFrom(payload[k..] + "\"", Fields.In('"'), '#') == -1
    decreases |payload| - k
  {
    var rest := payload[k..] + "\"";
    if k < |payload| {
      QuotedUnhashed(payload, k + 1);
      assert rest[0] == payload[k] && rest[1..] == payload[k + 1..] + "\"";
    } else {
      assert rest == ['"'] && rest[1..] == "";
    }
  }

  /** A '#' in a pushed option is within its quotes. */
  lemma PushUnhashed(payload: string, line: string)
    requires Lacks(payload, '"') && line == "push \"" + payload + "\""
    ensures Unhashed(line)
  {
    QuotedUnhashed(payload, 0);
    var quoted := "\"" + payload + "\"";
    assert payload[0..] == payload;
    assert quoted[0] == '"' && quoted[1..] == payload + "\"";
    assert Fields.UnquotedFrom(quoted, Fields.Out, '#') == -1;
    PlainThenUnhashed("push ", quoted, line);
  }

  lemma {:induction false} PlainThenUnhashed(a: string, rest: string, line: string)
    requires line == a + rest && Lacks(a, '#') && Fields.UnquotedFrom(rest, Fields.Out, '#') == -1
    requires forall i :: 0 <= i < |a| ==> !Fields.IsQuote(a[i])
    ensures Fields.UnquotedFrom(line, Fields.Out, '#') == -1
  {
    if a == "" {
      assert line == rest;
    } else {
      PlainThenUnhashed(a[1..], rest, line[1..]);
    }
  }

  lemma PushIsLine(payload: string, line: string)
    requires OneLine(payload) && line == "push \"" + payload + "\""
    ensures OneLine(line)
  {
    LineJoin("push \"", payload);
    LineJoin("push \"" + payload, "\"");
  }

  lemma PushNotIgnored(payload: string, line: string)
    requires line == "push \"" + payload + "\""
    ensures !ShouldIgnore(ToLower(line))
  {
    PushWordNotIgnored(" \"" + payload + "\"", line);
  }

  lemma PushWordNotIgnored(rest: string, line: string)
    requires line == "push" + rest && rest != "" && rest[0] == ' '
    ensures !ShouldIgnore(ToLower(line))
  {
    LowerJoin("push", rest);
    PushKey();
    LowerRest(rest);
    IgnoredExactly("push", ToLower(rest), ToLower(line));
  }

  lemma PushTrimmed(s: Scanned, payload: string, line: string)
    requires line == "push \"" + payload + "\"" && Lacks(payload, '"')
    ensures ReadTrimmed(s, line) == Scanned(ReadPush(s.conf, payload), s.extra)
  {
    PushNotIgnored(payload, line);
    PushPayloadIs(payload, line);
    PushFields(payload, line);
    PushKey();
  }

  lemma PushRead(s: Scanned, option: seq<string>)
    requires LineOk(PushLine(option))
    ensures ReadLine(s, LineText(PushLine(option))) == ReadsLine(s, PushLine(option))
    ensures OneLine(LineText(PushLine(option)))
  {
    var payload, line := Join(option, ' '), LineText(PushLine(option));
    PushIsLine(payload, line);
    PushUnhashed(payload, line);
    PushPayloadIs(payload, line);
    PushTrimmed(s, payload, line);
    assert line[0] == 'p';
  }

  lemma LineRead(s: Scanned, l: Line)
    requires LineOk(l)
    ensures ReadLine(s, LineText(l)) == ReadsLine(s, l) && Lacks(LineText(l), '\n')
  {
    match l {
      case Words(tokens) => WordsRead(s, tokens);
      case PluginLine(p) => PluginRead(s, p);
      case PushLine(option) => PushRead(s, option);
      case Comment(text) => CommentRead(s, text);
    }
  }

  lemma CommentRead(s: Scanned, text: string)
    requires LineOk(Comment(text))
    ensures ReadLine(s, text) == s
  {
    TrimEnds(text);
    TrimEnds(TrimLeft(text));
    if text != "" { assert TrimLeft(text) == text; }
  }

  // ---- whole texts ----

  function Texts(lines: seq<Line>): seq<string> { seq(|lines|, i requires 0 <= i < |lines| => LineText(lines[i])) }

  predicate LinesOk(lines: seq<Line>) { forall i :: 0 <= i < |lines| ==> LineOk(lines[i]) }

  lemma TextFront(lines: seq<Line>)
    requires lines != []
    ensures ConfText(lines) == LineText(lines[0]) + "\n" + ConfText(lines[1..])
  {
    JoinedFront(lines, TextLine);
  }

  lemma LineIsOneLine(l: Line)
    requires LineOk(l)
    ensures Lacks(LineText(l), '\n')
  {
    LineRead(Scanned(BLANK, []), l);
  }

  lemma TextsFront(lines: seq<Line>)
    requires lines != []
    ensures Texts(lines) == [LineText(lines[0])] + Texts(lines[1..])
  {
  }

  lemma SplitFront(text: string, first: string, rest: string, texts: seq<string>)
    requires text == first + "\n" + rest && Lacks(first, '\n') && Split(rest, '\n') == texts + [""]
    ensures Split(text, '\n') == ([first] + texts) + [""]
  {
    SplitAtSeparator(first, rest, '\n');
    assert [first] + (texts + [""]) == ([first] + texts) + [""];
  }

  lemma {:induction false} SplitText(lines: seq<Line>)
    requires LinesOk(lines)
    ensures Split(ConfText(lines), '\n') == Texts(lines) + [""]
  {
    if lines != [] {
      TextFront(lines);
      LineIsOneLine(lines[0]);
      SplitText(lines[1..]);
      SplitFront(ConfText(lines), LineText(lines[0]), ConfText(lines[1..]), Texts(lines[1..]));
      TextsFront(lines);
    }
  }

  /** The settings read from lines, and the extra lines among them. */
  function ReadAll(lines: seq<Line>): Conf {
    if lines == [] then BLANK else Reads(ReadAll(lines[..|lines| - 1]), lines[|lines| - 1])
  }

  function Extras(lines: seq<Line>): seq<string> {
    if lines == [] then []
    else Extras(lines[..|lines| - 1]) + if IsExtra(lines[|lines| - 1]) then [LineText(lines[|lines| - 1])] else []
  }

  lemma {:induction false} TextsRead(lines: seq<Line>)
    requires LinesOk(lines)
    ensures ReadLines(Texts(lines)) == Scanned(ReadAll(lines), Extras(lines))
  {
    if lines != [] {
      var init, last := lines[..|lines| - 1], lines[|lines| - 1];
      TextsRead(init);
      LineRead(ReadLines(Texts(init)), last);
      assert Texts(lines)[..|lines| - 1] == Texts(init);
    }
  }

  lemma LastEmpty(texts: seq<string>)
    ensures ReadLines(texts + [""]) == ReadLines(texts)
  {
    assert (texts + [""])[..|texts|] == texts;
    assert TrimSpace("") == "";
  }

  /** Reading a rendered text is reading its lines. */
  lemma TextRead(lines: seq<Line>)
    requires LinesOk(lines)
    ensures ReadLines(Split(ConfText(lines), '\n')) == Scanned(ReadAll(lines), Extras(lines))
  {
    SplitText(lines);
    TextsRead(lines);
    LastEmpty(Texts(lines));
  }

  /** A way to read lines one after the other; what follows holds of any. */
  type Reading = seq<Line> -> Conf

  function Snoc(acc: seq<Line>, l: Line): seq<Line> { acc + [l] }

  ghost predicate Reader(read: Reading) {
    forall acc, l {:trigger Snoc(acc, l)} :: read(Snoc(acc, l)) == Reads(read(acc), l)
  }

  lemma ReadAllReads()
    ensures Reader(ReadAll)
  {
    forall acc, l ensures ReadAll(Snoc(acc, l)) == Reads(ReadAll(acc), l) {
      assert Snoc(acc, l)[..|acc|] == acc;
    }
  }

  lemma ReadSnoc(read: Reading, acc: seq<Line>, l: Line, r: Conf)
    requires Reader(read) && read(acc) == r
    ensures read(acc + [l]) == Reads(r, l)
  {
    assert Snoc(acc, l) == acc + [l];
  }

  // ---- directives by name ----

  predicate Stores(k: Key) {
    !k.Client? && !k.ServerNet? && !k.Mode? && !k.TlsServer? && !k.TlsClient? && !k.Push? && !k.IfconfigPool? && !k.Redirect? && !k.Other?
  }

  lemma ReadsSet(read: Reading, acc: seq<Line>, name: string, k: Key, v: string, r: Conf, r': Conf)
    requires Reader(read) && read(acc) == r && Known(name, k) && Stores(k) && r' == Setting(r, k, [name, v])
    ensures read(Add(acc, [name, v])) == r'
  {
    NameStays(name);
    ReadSnoc(read, acc, Words([name, v]), r);
  }

  lemma ReadsOpt(read: Reading, acc: seq<Line>, name: string, k: Key, v: string, r: Conf, r': Conf)
    requires Reader(read) && read(acc) == r && Known(name, k) && Stores(k)
    requires r' == if v == "" then r else Setting(r, k, [name, v])
    ensures read(AddOpt(acc, name, v)) == r'
  {
    if v != "" { ReadsSet(read, acc, name, k, v, r, r'); }
  }

  lemma DecimalInt(n: nat, was: int)
    requires n < 0x8000_0000_0000_0000
    ensures OrInt(Decimal(n), was) == n
  {
    DecimalParses(n);
    assert IsDigit(Decimal(n)[0]);
  }

  lemma ReadsInt(read: Reading, acc: seq<Line>, name: string, k: Key, n: int, r: Conf, r': Conf)
    requires Reader(read) && read(acc) == r && Known(name, k) && Stores(k)
    requires r' == if n > 0 then Setting(r, k, [name, Decimal(n)]) else r
    ensures read(AddInt(acc, name, n)) == r'
  {
    if n > 0 { ReadsSet(read, acc, name, k, Decimal(n), r, r'); }
  }

  /** A directive that stores nothing: ignored, or kept as an extra line only. */
  predicate Inert(name: string) { Skipped(name) || Known(name, Other) || Known(name, IfconfigPool) }

  lemma SkippedReads(r: Conf, tokens: seq<string>)
    requires tokens != [] && Skipped(tokens[0])
    ensures Reads(r, Words(tokens)) == r
  {
    NameStays(tokens[0]);
  }

  lemma KeptReads(r: Conf, tokens: seq<string>, k: Key)
    requires tokens != [] && Known(tokens[0], k) && (k.Other? || k.IfconfigPool?)
    ensures Reads(r, Words(tokens)) == r
  {
    NameStays(tokens[0]);
    KeptKey(r, k, tokens, LineText(Words(tokens)));
  }

  lemma KeptKey(r: Conf, k: Key, tokens: seq<string>, line: string)
    requires tokens != [] && (k.Other? || k.IfconfigPool?)
    ensures Directive(r, k, tokens, line) == r
  {
  }

  lemma InertReads(r: Conf, tokens: seq<string>)
    requires tokens != [] && Inert(tokens[0])
    ensures Reads(r, Words(tokens)) == r
  {
    if Skipped(tokens[0]) { SkippedReads(r, tokens); }
    else if Known(tokens[0], Other) { KeptReads(r, tokens, Other); }
    else { KeptReads(r, tokens, IfconfigPool); }
  }

  lemma ReadsInert(read: Reading, acc: seq<Line>, tokens: seq<string>, r: Conf)
    requires Reader(read) && read(acc) == r && tokens != [] && Inert(tokens[0])
    ensures read(Add(acc, tokens)) == r
  {
    InertReads(r, tokens);
    ReadSnoc(read, acc, Words(tokens), r);
  }

  lemma ReadsInertIf(read: Reading, acc: seq<Line>, on: bool, tokens: seq<string>, r: Conf)
    requires Reader(read) && read(acc) == r && tokens != [] && Inert(tokens[0])
    ensures read(AddIf(acc, on, tokens)) == r
  {
    if on { ReadsInert(read, acc, tokens, r); }
  }

  lemma ReadsComment(read: Reading, acc: seq<Line>, text: string, r: Conf)
    requires Reader(read) && read(acc) == r
    ensures read(acc + [Comment(text)]) == r
  {
    ReadSnoc(read, acc, Comment(text), r);
  }
}
