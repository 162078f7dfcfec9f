/** Exactly which texts a single rendered line gives back when it is imported. */
module ConfExact {
  import opened Text
  import opened ConfImport
  import opened ConfGen
  import opened ConfRoundTrip
  import ConfMarks
  import Fields

  // ---- what splitting can keep ----

  function Count(s: string, c: char): nat {
    if s == "" then 0 else (if s[0] == c then 1 else 0) + Count(s[1..], c)
  }

  function CountAll(fields: seq<string>, c: char): nat {
    if fields == [] then 0 else Count(fields[0], c) + CountAll(fields[1..], c)
  }

  function Weight(fields: seq<string>): nat {
    if fields == [] then 0 else |fields[0]| + Weight(fields[1..])
  }

  lemma {:induction false} CountJoin(a: string, b: string, c: char)
    ensures Count(a + b, c) == Count(a, c) + Count(b, c)
  {
    if a == "" {
      assert a + b == b;
    } else {
      assert (a + b)[1..] == a[1..] + b;
      CountJoin(a[1..], b, c);
    }
  }

  lemma CountOne(x: char, c: char)
    ensures Count([x], c) == if x == c then 1 else 0
  {
    assert [x][1..] == "";
  }

  lemma FlushedKeeps(cur: string, rest: seq<string>, c: char)
    ensures CountAll(Fields.Flushed(cur) + rest, c) == Count(cur, c) + CountAll(rest, c)
    ensures Weight(Fields.Flushed(cur) + rest) == |cur| + Weight(rest)
  {
    if cur == "" {
      assert Fields.Flushed(cur) + rest == rest;
    } else {
      assert ([cur] + rest)[1..] == rest;
    }
  }

  /** Splitting makes no characters up. */
  lemma {:induction false} ScanKeeps(line: string, st: Fields.State, cur: string, c: char)
    ensures CountAll(Fields.Scan(line, st, cur), c) <= Count(line, c) + Count(cur, c)
    ensures Weight(Fields.Scan(line, st, cur)) <= |line| + |cur|
    decreases |line|
  {
    if line == "" {
      FlushedKeeps(cur, [], c);
      assert Fields.Flushed(cur) + [] == Fields.Flushed(cur);
    } else {
      var x := line[0];
      CountJoin(cur, [x], c);
      CountOne(x, c);
      match st
      case In(q) =>
        if x == q {
          ScanKeeps(line[1..], Fields.Out, cur, c);
        } else if x == Fields.BACKSLASH && |line| > 1 {
          CountJoin(cur, [line[1]], c);
          CountOne(line[1], c);
          assert line[1..][1..] == line[2..];
          ScanKeeps(line[2..], st, cur + [line[1]], c);
        } else {
          ScanKeeps(line[1..], st, cur + [x], c);
        }
      case Out =>
        if Fields.IsQuote(x) {
          ScanKeeps(line[1..], Fields.In(x), cur, c);
        } else if Fields.IsBlank(x) {
          ScanKeeps(line[1..], Fields.Out, "", c);
          FlushedKeeps(cur, Fields.Scan(line[1..], Fields.Out, ""), c);
        } else {
          ScanKeeps(line[1..], Fields.Out, cur + [x], c);
        }
    }
  }

  // ---- comments ----

  lemma {:induction false} FoundIsThere(s: string, st: Fields.State, c: char)
    ensures var k := Fields.UnquotedFrom(s, st, c); k >= 0 ==> s[k] == c
  {
    if s != "" {
      var next := if st.In? then (if s[0] == st.quote then Fields.Out else st)
                  else if Fields.IsQuote(s[0]) then Fields.In(s[0]) else Fields.Out;
      FoundIsThere(s[1..], next, c);
    }
  }

  /** What is scanned of a line that begins with a visible character: a prefix, shorter exactly if
      the line ends in white space or holds a comment. */
  lemma ScannedPart(line: string) returns (m: nat)
    requires line != "" && !IsSpace(line[0])
    ensures m <= |line| && Uncommented(TrimSpace(line)) == line[..m]
    ensures m == |line| <==> !IsSpace(line[|line| - 1]) && Unhashed(line)
    ensures !IsSpace(line[|line| - 1]) && !Unhashed(line) ==> m <= Fields.UnquotedFrom(line, Fields.Out, '#')
  {
    var trimmed := TrimSpace(line);
    TrimRightIs(line);
    assert trimmed == line[..|trimmed|];
    var k := Fields.UnquotedFrom(trimmed, Fields.Out, '#');
    if k < 0 {
      m := |trimmed|;
    } else if k == 0 {
      FoundIsThere(trimmed, Fields.Out, '#');
      m := 0;
      assert trimmed[..0] == "";
    } else {
      var cut := trimmed[..k];
      TrimRightIs(cut);
      assert cut[0] == line[0];
      m := |TrimSpace(cut)|;
      assert cut[..m] == line[..m];
    }
    if |trimmed| == |line| { assert trimmed == line; }
    if !IsSpace(line[|line| - 1]) { assert trimmed == line; }
  }

  // ---- plugins ----

  lemma {:induction false} EscapedKeeps(a: string)
    ensures Count(Fields.Escaped(a), '#') == Count(a, '#')
  {
    if a != "" {
      EscapedKeeps(a[1..]);
      CountJoin(if a[0] == '"' then [Fields.BACKSLASH, '"'] else [a[0]], Fields.Escaped(a[1..]), '#');
      CountOne(a[0], '#');
      assert Count([Fields.BACKSLASH, '"'], '#') == 0 by { assert [Fields.BACKSLASH, '"'][1..] == ['"']; CountOne('"', '#'); }
    }
  }

  lemma QuoteKeeps(a: string)
    ensures Count(Fields.QuoteArg(a), '#') == Count(a, '#')
  {
    EscapedKeeps(a);
    var e := Fields.Escaped(a);
    CountJoin("\"" + e, "\"", '#');
    CountJoin("\"", e, '#');
    CountOne('"', '#');
    assert "\"" == ['"'];
    if a == "" { CountJoin("\"", "\"", '#'); assert "\"" + "\"" == "\"\""; }
  }

  lemma {:induction false} QuotedKeeps(args: seq<string>)
    ensures Count(Fields.Quoted(args), '#') == CountAll(args, '#')
  {
    if args != [] {
      QuoteKeeps(args[0]);
      QuotedKeeps(args[1..]);
      CountJoin(Fields.QuoteArg(args[0]) + " ", Fields.Quoted(args[1..]), '#');
      CountJoin(Fields.QuoteArg(args[0]), " ", '#');
      CountOne(' ', '#');
      assert " " == [' '];
    }
  }

  /** Only plugin directives add to the plugins. */
  lemma DirectivePlugins(r: Conf, key: Key, f: seq<string>, line: string)
    requires |f| >= 1
    ensures Directive(r, key, f, line).plugins == r.plugins
      || (|f| >= 2 && Directive(r, key, f, line).plugins == r.plugins + [Plugin(f[1], f[2..])])
  {
    ConfMarks.PluginDirectiveIs(r, key, f, line);
  }

  lemma TwoThenRest(f: seq<string>, c: char)
    requires |f| >= 2
    ensures CountAll(f, c) == Count(f[0], c) + Count(f[1], c) + CountAll(f[2..], c)
  {
    assert f[1..][1..] == f[2..];
  }

  lemma OtherPlugins(plugins: seq<Plugin>, f: seq<string>, p: Plugin)
    requires |f| >= 2 && CountAll(f, '#') < Count(p.path, '#') + CountAll(p.args, '#')
    ensures plugins + [Plugin(f[1], f[2..])] != plugins + [p]
  {
    TwoThenRest(f, '#');
    assert (plugins + [p])[|plugins|] == p;
    assert (plugins + [Plugin(f[1], f[2..])])[|plugins|] == Plugin(f[1], f[2..]);
  }

  lemma FieldsWrong(r: Conf, key: Key, f: seq<string>, line: string, p: Plugin)
    requires |f| >= 1 && CountAll(f, '#') < Count(p.path, '#') + CountAll(p.args, '#')
    ensures Directive(r, key, f, line).plugins != r.plugins + [p]
  {
    DirectivePlugins(r, key, f, line);
    if |f| >= 2 { OtherPlugins(r.plugins, f, p); }
  }

  /** A line with fewer '#' is read as something else. */
  lemma CutIsWrong(s: Scanned, p: Plugin, cut: string)
    requires Count(cut, '#') < Count(p.path, '#') + CountAll(p.args, '#')
    ensures ReadTrimmed(s, cut).conf.plugins != s.conf.plugins + [p]
  {
    var f := Fields.Split(cut);
    ScanKeeps(cut, Fields.Out, "", '#');
    if f != [] { FieldsWrong(s.conf, KeyOf(ToLower(f[0])), f, cut, p); }
  }

  /** A rendered plugin is read back exactly if no '#' in its arguments is outside the quotes. */
  lemma PluginReadExactly(s: Scanned, p: Plugin)
    requires WordOk(p.path) && ArgsOk(p.args)
    ensures var line := LineText(PluginLine(p));
      ReadLine(s, line).conf.plugins == s.conf.plugins + [p] <==> Unhashed(line)
  {
    var line := LineText(PluginLine(p));
    if Unhashed(line) {
      PluginRead(s, p);
    } else {
      PluginEnds(p);
      var m := ScannedPart(line);
      var k := Fields.UnquotedFrom(line, Fields.Out, '#');
      FoundIsThere(line, Fields.Out, '#');
      CountSplit(line, m, k);
      CutIsWrong(s, p, line[..m]);
    }
  }

  /** The text before an occurrence holds fewer. */
  lemma CountSplit(line: string, m: nat, k: nat)
    requires m <= k < |line| && line[k] == '#'
    ensures Count(line[..m], '#') < Count(line, '#')
  {
    assert line == line[..m] + (line[m..k] + ([line[k]] + line[k + 1..]));
    CountJoin(line[..m], line[m..k] + ([line[k]] + line[k + 1..]), '#');
    CountJoin(line[m..k], [line[k]] + line[k + 1..], '#');
    CountJoin([line[k]], line[k + 1..], '#');
    CountOne(line[k], '#');
  }

  lemma PluginEnds(p: Plugin)
    requires WordOk(p.path) && ArgsOk(p.args)
    ensures var line := LineText(PluginLine(p));
      && line != "" && line[0] == 'p' && !IsSpace(line[|line| - 1]) && TrimSpace(line) == line
      && Count(line, '#') == Count(p.path, '#') + CountAll(p.args, '#')
  {
    var line, tokens := LineText(PluginLine(p)), ["plugin", p.path] + p.args;
    PluginTokens(p);
    PluginWord();
    WordIsArg("plugin");
    WordIsArg(p.path);
    forall i | 0 <= i < |tokens| ensures ArgOk(tokens[i]) { if i >= 2 { assert tokens[i] == p.args[i - 2]; } }
    ArgsAreLine(tokens);
    assert line[0] == 'p';
    TrimIdentity(line);
    QuotedKeeps(tokens);
    TwoThenRest(tokens, '#');
    assert tokens[2..] == p.args;
    LacksCount("plugin", '#');
  }

  lemma {:induction false} LacksCount(s: string, c: char)
    requires Lacks(s, c)
    ensures Count(s, c) == 0
  {
    if s != "" { LacksCount(s[1..], c); }
  }

  // ---- settings ----

  /** No blank, quote or '#', and no white space at the end. */
  predicate ReadsBack(v: string) {
    v != "" && !Fields.NeedsQuotes(v) && Lacks(v, '#') && !IsSpace(v[|v| - 1])
  }

  lemma NameThenRest(name: string, w: string)
    requires name != "" && !Fields.NeedsQuotes(name)
    ensures Fields.Split(name + " " + w) == [name] + Fields.Split(w)
  {
    assert name + " " + w == name + (" " + w);
    Fields.ScanPlain(name, " " + w, "");
    assert "" + name == name;
    Fields.FirstThenRest(name, w);
  }

  /** A text with a blank or a quote is not read as one field. */
  lemma SpecialIsLost(v: string, i: nat)
    requires i < |v| && !Fields.NeedsQuotes(v[..i]) && (Fields.IsBlank(v[i]) || Fields.IsQuote(v[i]))
    ensures Weight(Fields.Split(v)) < |v|
  {
    var rest := v[i..];
    assert v == v[..i] + rest && rest[0] == v[i] && rest[1..] == v[i + 1..];
    Fields.ScanPlain(v[..i], rest, "");
    assert "" + v[..i] == v[..i];
    if Fields.IsQuote(v[i]) {
      ScanKeeps(rest[1..], Fields.In(v[i]), v[..i], '#');
    } else {
      ScanKeeps(rest[1..], Fields.Out, "", '#');
      FlushedKeeps(v[..i], Fields.Scan(rest[1..], Fields.Out, ""), '#');
    }
  }

  lemma {:induction false} FirstSpecial(v: string) returns (i: nat)
    requires Fields.NeedsQuotes(v)
    ensures i < |v| && !Fields.NeedsQuotes(v[..i]) && (Fields.IsBlank(v[i]) || Fields.IsQuote(v[i]))
  {
    if Fields.IsBlank(v[0]) || Fields.IsQuote(v[0]) {
      i := 0;
    } else {
      var k :| 0 <= k < |v| && (Fields.IsBlank(v[k]) || Fields.IsQuote(v[k]));
      assert v[1..][k - 1] == v[k];
      var j := FirstSpecial(v[1..]);
      i := j + 1;
      assert forall n :: 0 < n < i ==> v[..i][n] == v[1..][..j][n - 1];
    }
  }

  lemma PlainSplits(v: string)
    requires v != "" && !Fields.NeedsQuotes(v)
    ensures Fields.Split(v) == [v]
  {
    assert v + "" == v && "" + v == v;
    Fields.ScanPlain(v, "", "");
  }

  lemma {:induction false} HashFound(s: string)
    requires !Fields.NeedsQuotes(s) && !Lacks(s, '#')
    ensures Fields.UnquotedFrom(s, Fields.Out, '#') >= 0
  {
    assert !Fields.IsQuote(s[0]);
    if s[0] != '#' {
      assert forall i :: 0 <= i < |s[1..]| ==> s[1..][i] == s[i + 1];
      HashFound(s[1..]);
    }
  }

  lemma {:induction false} PlainThenHash(a: string, rest: string, line: string)
    requires line == a + rest && Lacks(a, '#') && Fields.UnquotedFrom(rest, Fields.Out, '#') >= 0
    requires forall i :: 0 <= i < |a| ==> !Fields.IsQuote(a[i])
    ensures !Unhashed(line)
  {
    if a == "" {
      assert line == rest;
    } else {
      PlainThenHash(a[1..], rest, line[1..]);
    }
  }

  lemma NameIsPlain(name: string)
    requires WordOk(name)
    ensures Lacks(name + " ", '#') && !Fields.NeedsQuotes(name) && forall i :: 0 <= i <= |name| ==> !Fields.IsQuote((name + " ")[i])
  {
    WordIsArg(name);
    forall i | 0 <= i < |name| ensures name[i] != '#' && !Fields.IsQuote(name[i]) { assert PlainChar(name[i]); }
  }

  lemma BackIsRead(name: string, v: string)
    requires WordOk(name) && ReadsBack(v)
    ensures Fields.Split(Uncommented(TrimSpace(name + " " + v))) == [name, v]
  {
    var line := name + " " + v;
    NameIsPlain(name);
    assert line[0] == name[0] && PlainChar(name[0]);
    TrimIdentity(line);
    LacksHash(line, Fields.Out);
    NameThenRest(name, v);
    PlainSplits(v);
  }

  /** A field as long as the text it is read from is that text. */
  lemma WholeField(v: string, w: string)
    requires w <= v && v != "" && Fields.Split(w) != [] && Fields.Split(w)[0] == v
    ensures w == v && !Fields.NeedsQuotes(v)
  {
    ScanKeeps(w, Fields.Out, "", '#');
    if Fields.NeedsQuotes(v) {
      var i := FirstSpecial(v);
      SpecialIsLost(v, i);
    }
  }

  lemma ReadIsBack(name: string, v: string, m: nat)
    requires WordOk(name) && m <= |name| + 1 + |v|
    requires var f := Fields.Split((name + " " + v)[..m]); |f| >= 2 && f[0] == name && f[1] == v
    ensures m == |name| + 1 + |v| && v != "" && !Fields.NeedsQuotes(v)
  {
    var line := name + " " + v;
    var f := Fields.Split(line[..m]);
    Fields.FieldsNotEmpty(line[..m], Fields.Out, "");
    ScanKeeps(line[..m], Fields.Out, "", '#');
    assert Weight(f) >= |name| + |v| by { assert f[1..][0] == v; }
    var w := v[..m - |name| - 1];
    assert line[..m] == name + " " + w;
    NameIsPlain(name);
    NameThenRest(name, w);
    assert f[1..] == Fields.Split(w);
    WholeField(v, w);
  }

  /** The argument of a setting's line is read back exactly if it has no blank, quote or '#', and no
      white space at its end. */
  lemma SettingReadExactly(name: string, v: string)
    requires WordOk(name)
    ensures var f := Fields.Split(Uncommented(TrimSpace(name + " " + v)));
      |f| >= 2 && f[0] == name && f[1] == v <==> ReadsBack(v)
  {
    var line := name + " " + v;
    if ReadsBack(v) {
      BackIsRead(name, v);
    } else {
      NameIsPlain(name);
      assert line[0] == name[0] && PlainChar(name[0]);
      var m := ScannedPart(line);
      var f := Fields.Split(line[..m]);
      if |f| >= 2 && f[0] == name && f[1] == v {
        ReadIsBack(name, v, m);
        assert line[|line| - 1] == v[|v| - 1];
        HashFound(v);
        PlainThenHash(name + " ", v, line);
      }
    }
  }
}
