/** Splitting conf lines into fields (internal/confimport/parse.go) and quoting arguments
    (internal/confgen/render.go). */
module Fields {
  import opened Text

  const BACKSLASH := '\\'

  predicate IsQuote(c: char) { c == '"' || c == '\'' }
  predicate IsBlank(c: char) { c == ' ' || c == '\t' }

  /** Whether the scan is inside quotes, and which. */
  datatype State = Out | In(quote: char)

  function Flushed(cur: string): seq<string> { if cur == "" then [] else [cur] }

  /** The fields of the rest of a line, with `cur` read of the current one. */
  function Scan(line: string, st: State, cur: string): seq<string>
    decreases |line|
  {
    if line == "" then Flushed(cur)
    else
      var c := line[0];
      match st
      case In(q) =>
        if c == q then Scan(line[1..], Out, cur)
        else if c == BACKSLASH && |line| > 1 then Scan(line[2..], st, cur + [line[1]])
        else Scan(line[1..], st, cur + [c])
      case Out =>
        if IsQuote(c) then Scan(line[1..], In(c), cur)
        else if IsBlank(c) then Flushed(cur) + Scan(line[1..], Out, "")
        else Scan(line[1..], Out, cur + [c])
  }

  function Split(line: string): seq<string> { Scan(line, Out, "") }

  /** splitFields. */
  method SplitFields(line: string) returns (out: seq<string>)
    ensures out == Split(line)
  {
    out := [];
    var b, inQ, q := "", false, '"';
    var i := 0;
    while i < |line|
      invariant 0 <= i <= |line|
      invariant Split(line) == out + Scan(line[i..], if inQ then In(q) else Out, b)
    {
      var c := line[i];
      ghost var rest := line[i..];
      assert rest[0] == c && rest[1..] == line[i + 1..];
      if inQ {
        if c == q {
          inQ := false;
        } else if c == '\\' && i + 1 < |line| {
          assert rest[1] == line[i + 1] && rest[2..] == line[i + 2..];
          b := b + [line[i + 1]];
          i := i + 1;
        } else {
          b := b + [c];
        }
      } else if c == '"' || c == '\'' {
        inQ, q := true, c;
      } else if c == ' ' || c == '\t' {
        if |b| > 0 {
          out := out + [b];
          b := "";
        }
      } else {
        b := b + [c];
      }
      i := i + 1;
    }
    if |b| > 0 { out := out + [b]; }
  }

  /** The first unquoted occurrence of a character, or -1. */
  function UnquotedFrom(s: string, st: State, ch: char): (k: int)
    ensures -1 <= k < |s|
  {
    if s == "" then -1
    else
      var c := s[0];
      if st.Out? && !IsQuote(c) && c == ch then 0
      else
        var next := if st.In? then (if c == st.quote then Out else st) else if IsQuote(c) then In(c) else Out;
        var k := UnquotedFrom(s[1..], next, ch);
        if k < 0 then -1 else k + 1
  }

  /** indexUnquoted. */
  method IndexUnquoted(s: string, ch: char) returns (k: int)
    ensures k == UnquotedFrom(s, Out, ch)
  {
    var inQ, q := false, '"';
    for i := 0 to |s|
      invariant var rest := UnquotedFrom(s[i..], if inQ then In(q) else Out, ch);
        UnquotedFrom(s, Out, ch) == if rest < 0 then -1 else rest + i
    {
      var c := s[i];
      ghost var rest := s[i..];
      assert rest[0] == c && rest[1..] == s[i + 1..];
      if inQ {
        if c == q { inQ := false; }
      } else if c == '"' || c == '\'' {
        inQ, q := true, c;
      } else if c == ch {
        return i;
      }
    }
    return -1;
  }

  // ---- quoting ----

  predicate NeedsQuotes(a: string) { exists i :: 0 <= i < |a| && (IsBlank(a[i]) || IsQuote(a[i])) }

  /** strings.ReplaceAll of a double quote by an escaped one. */
  function Escaped(a: string): string {
    if a == "" then "" else (if a[0] == '"' then [BACKSLASH, '"'] else [a[0]]) + Escaped(a[1..])
  }

  function QuoteArg(a: string): string {
    if a == "" then "\"\"" else if NeedsQuotes(a) then "\"" + Escaped(a) + "\"" else a
  }

  /** Arguments separated by single spaces, quoted. */
  function Quoted(args: seq<string>): string {
    if args == [] then ""
    else if |args| == 1 then QuoteArg(args[0])
    else QuoteArg(args[0]) + " " + Quoted(args[1..])
  }

  /** An argument that survives: not empty, and without a backslash that quoting would expose. */
  predicate Survives(a: string) { a != "" && (Lacks(a, BACKSLASH) || !NeedsQuotes(a)) }

  // ---- splitting undoes quoting ----

  lemma {:induction false} ScanPlain(a: string, rest: string, cur: string)
    requires !NeedsQuotes(a)
    ensures Scan(a + rest, Out, cur) == Scan(rest, Out, cur + a)
  {
    if a == "" {
      assert a + rest == rest && cur + a == cur;
    } else {
      assert (a + rest)[0] == a[0] && (a + rest)[1..] == a[1..] + rest;
      ScanPlain(a[1..], rest, cur + [a[0]]);
      assert cur + [a[0]] + a[1..] == cur + a;
    }
  }

  /** Inside double quotes an escaped text without backslashes is read back as it was. */
  lemma {:induction false} ScanEscaped(a: string, rest: string, cur: string)
    requires Lacks(a, BACKSLASH)
    ensures Scan(Escaped(a) + rest, In('"'), cur) == Scan(rest, In('"'), cur + a)
  {
    if a == "" {
      assert Escaped(a) + rest == rest && cur + a == cur;
    } else {
      var text, tail := Escaped(a) + rest, Escaped(a[1..]) + rest;
      if a[0] == '"' {
        assert text[0] == BACKSLASH && text[1] == '"' && text[2..] == tail;
      } else {
        assert text[0] == a[0] && text[1..] == tail;
      }
      ScanEscaped(a[1..], rest, cur + [a[0]]);
      assert cur + [a[0]] + a[1..] == cur + a;
    }
  }

  lemma ScanInQuotes(a: string, rest: string, text: string)
    requires Lacks(a, BACKSLASH) && text == "\"" + Escaped(a) + "\"" + rest
    ensures Scan(text, Out, "") == Scan(rest, Out, a)
  {
    var tail := "\"" + rest;
    assert text[0] == '"' && text[1..] == Escaped(a) + tail;
    ScanEscaped(a, tail, "");
    assert tail[0] == '"' && tail[1..] == rest;
    assert "" + a == a;
  }

  lemma ScanQuoted(a: string, rest: string)
    requires Survives(a)
    ensures Scan(QuoteArg(a) + rest, Out, "") == Scan(rest, Out, a)
  {
    if NeedsQuotes(a) {
      ScanInQuotes(a, rest, QuoteArg(a) + rest);
    } else {
      ScanPlain(a, rest, "");
      assert "" + a == a;
    }
  }

  /** Splitting the space-joined quoted form of arguments gives the arguments back. */
  lemma {:induction false} SplitUndoesQuoting(args: seq<string>)
    requires forall i :: 0 <= i < |args| ==> Survives(args[i])
    ensures Split(Quoted(args)) == args
  {
    if |args| == 1 {
      assert QuoteArg(args[0]) + "" == Quoted(args);
      ScanQuoted(args[0], "");
    } else if |args| > 1 {
      var rest := " " + Quoted(args[1..]);
      assert Quoted(args) == QuoteArg(args[0]) + rest;
      ScanQuoted(args[0], rest);
      assert rest[1..] == Quoted(args[1..]);
      SplitUndoesQuoting(args[1..]);
    }
  }

  // ---- exactly which arguments survive ----

  /** The field read first, if any. */
  ghost predicate StartsWithField(fields: seq<string>, f: string) { fields != [] && fields[0] == f }

  lemma {:induction false} FieldsNotEmpty(line: string, st: State, cur: string)
    ensures forall i :: 0 <= i < |Scan(line, st, cur)| ==> Scan(line, st, cur)[i] != ""
    decreases |line|
  {
    if line != "" {
      var c := line[0];
      match st
      case In(q) =>
        if c == q { FieldsNotEmpty(line[1..], Out, cur); }
        else if c == BACKSLASH && |line| > 1 { FieldsNotEmpty(line[2..], st, cur + [line[1]]); }
        else { FieldsNotEmpty(line[1..], st, cur + [c]); }
      case Out =>
        if IsQuote(c) { FieldsNotEmpty(line[1..], In(c), cur); }
        else if IsBlank(c) { FieldsNotEmpty(line[1..], Out, ""); }
        else { FieldsNotEmpty(line[1..], Out, cur + [c]); }
    }
  }

  /** What has been read of a field is how it begins. */
  lemma {:induction false} FieldExtends(line: string, st: State, cur: string)
    requires cur != ""
    ensures Scan(line, st, cur) != [] && cur <= Scan(line, st, cur)[0]
    decreases |line|
  {
    if line != "" {
      var c := line[0];
      match st
      case In(q) =>
        if c == q { FieldExtends(line[1..], Out, cur); }
        else if c == BACKSLASH && |line| > 1 { FieldExtends(line[2..], st, cur + [line[1]]); }
        else { FieldExtends(line[1..], st, cur + [c]); }
      case Out =>
        if IsQuote(c) { FieldExtends(line[1..], In(c), cur); }
        else if !IsBlank(c) { FieldExtends(line[1..], Out, cur + [c]); }
    }
  }

  /** A wrong character read makes a wrong field. */
  lemma WrongChar(line: string, st: State, cur: string, c: char, f: string)
    requires |cur| < |f| && f[|cur|] != c
    ensures !StartsWithField(Scan(line, st, cur + [c]), f)
  {
    FieldExtends(line, st, cur + [c]);
  }

  /** What follows a quoted argument. */
  predicate Separated(rest: string) { rest == "" || rest[0] == ' ' }

  /** A field that is not finished when the quotes of its argument are left is read wrong. */
  lemma LeftShort(st: State, cur: string, f: string, rest: string)
    requires cur != "" && |cur| < |f| && f[|cur|] != ' ' && Separated(rest) && (st.In? ==> IsQuote(st.quote))
    ensures !StartsWithField(Scan(rest, st, cur), f)
  {
    if rest != "" && st.In? { WrongChar(rest[1..], st, cur, ' ', f); }
  }

  predicate IsSpecial(c: char) { IsQuote(c) || c == BACKSLASH }

  /** `lag` is what a scan has fallen behind: special characters of the field still to be read
      before the rest of the argument. It never catches up again. */
  ghost predicate Behind(st: State, cur: string, lag: string, w: string, f: string) {
    && cur != "" && lag != "" && f == cur + (lag + w) && (st.In? ==> IsQuote(st.quote)) && (st == In('\'') ==> |lag| >= 2)
    && forall i :: 0 <= i < |lag| ==> IsSpecial(lag[i])
  }

  /** One character `c` of the field is read and `added` goes from the argument to the lag. */
  lemma Advance(cur: string, lag: string, added: string, w: string, c: char)
    requires lag != "" && lag[0] == c
    ensures cur + (lag + (added + w)) == (cur + [c]) + ((lag[1..] + added) + w)
  {
    assert lag == [c] + lag[1..];
  }

  lemma Grow(cur: string, lag: string, added: string, w: string)
    ensures cur + (lag + (added + w)) == cur + ((lag + added) + w)
  {
  }

  lemma NextOfField(cur: string, lag: string, w: string, f: string)
    requires f == cur + (lag + w) && lag != ""
    ensures |cur| < |f| && f[|cur|] == lag[0]
  {
  }

  lemma EscapedFirst(w: string, rest: string)
    requires w != ""
    ensures var text, tail := Escaped(w) + "\"" + rest, Escaped(w[1..]) + "\"" + rest;
      text == (if w[0] == '"' then [BACKSLASH, '"'] else [w[0]]) + tail
  {
  }

  /** The scan from a state, over the rest of a quoted argument and what follows it. */
  function ScanArg(w: string, st: State, cur: string, rest: string): seq<string> { Scan(Escaped(w) + "\"" + rest, st, cur) }

  lemma EndBehind(st: State, cur: string, lag: string, f: string, rest: string)
    requires Behind(st, cur, lag, "", f) && Separated(rest)
    ensures !StartsWithField(ScanArg("", st, cur, rest), f)
  {
    var text := Escaped("") + "\"" + rest;
    assert text[0] == '"' && text[1..] == rest;
    NextOfField(cur, lag, "", f);
    if st == In('\'') {
      if lag[0] != '"' {
        WrongChar(rest, st, cur, '"', f);
      } else {
        assert f[|cur| + 1] == lag[1];
        LeftShort(st, cur + "\"", f, rest);
      }
      ScanPlainIn(text, st, cur, rest);
    } else {
      LeftShort(if st == Out then In('"') else Out, cur, f, rest);
    }
  }

  lemma ScanPlainIn(text: string, st: State, cur: string, rest: string)
    requires st.In? && text != "" && text[0] != st.quote && text[0] != BACKSLASH && text[1..] == rest
    ensures Scan(text, st, cur) == Scan(rest, st, cur + [text[0]])
  {
  }

  lemma ScanPair(text: string, st: State, cur: string, rest: string)
    requires st.In? && IsQuote(st.quote) && |text| >= 2 && text[0] == BACKSLASH && text[2..] == rest
    ensures Scan(text, st, cur) == Scan(rest, st, cur + [text[1]])
  {
  }

  /** A scan that has fallen behind inside a quoted argument reads a wrong field. */
  lemma {:induction false} BehindIsWrong(w: string, st: State, cur: string, lag: string, f: string, rest: string)
    requires Behind(st, cur, lag, w, f) && Separated(rest)
    ensures !StartsWithField(ScanArg(w, st, cur, rest), f)
    decreases |w|, 3
  {
    if w == "" {
      EndBehind(st, cur, lag, f, rest);
    } else {
      NextOfField(cur, lag, w, f);
      assert w == [w[0]] + w[1..];
      if w[0] == '"' { BehindAtQuote(w, st, cur, lag, f, rest); }
      else if w[0] == BACKSLASH && st.In? { BehindAtPair(w, st, cur, lag, f, rest); }
      else if w[0] == '\'' && st != In('"') { BehindAtSingle(w, st, cur, lag, f, rest); }
      else { BehindAtPlain(w, st, cur, lag, f, rest); }
    }
  }

  /** The next character is read, and the scan goes on one character later. */
  lemma {:induction false} ReadsOne(w: string, st: State, cur: string, lag: string, f: string, rest: string,
                                    c: char, k: nat, next: State)
    requires Behind(st, cur, lag, w, f) && Separated(rest) && 1 <= k <= |w| && |lag| + k >= (if next == In('\'') then 3 else 2)
    requires forall i :: 0 <= i < k ==> IsSpecial(w[i]) || w[i] == c
    requires next.In? ==> IsQuote(next.quote)
    ensures !StartsWithField(ScanArg(w[k..], next, cur + [c], rest), f)
    decreases |w|, 0
  {
    NextOfField(cur, lag, w, f);
    if lag[0] != c {
      WrongChar(Escaped(w[k..]) + "\"" + rest, next, cur, c, f);
    } else {
      assert w == w[..k] + w[k..];
      Advance(cur, lag, w[..k], w[k..], c);
      BehindIsWrong(w[k..], next, cur + [c], lag[1..] + w[..k], f, rest);
    }
  }

  lemma {:induction false} BehindAtQuote(w: string, st: State, cur: string, lag: string, f: string, rest: string)
    requires Behind(st, cur, lag, w, f) && Separated(rest) && w != "" && w[0] == '"'
    ensures !StartsWithField(ScanArg(w, st, cur, rest), f)
    decreases |w|, 1
  {
    var text, tail := Escaped(w) + "\"" + rest, Escaped(w[1..]) + "\"" + rest;
    EscapedFirst(w, rest);
    assert text[2..] == tail && text[1..][1..] == tail;
    if st.In? {
      ScanPair(text, st, cur, tail);
      ReadsOne(w, st, cur, lag, f, rest, '"', 1, st);
    } else {
      ReadsOne(w, st, cur, lag, f, rest, BACKSLASH, 1, In('"'));
      assert Scan(text, Out, cur) == Scan(text[1..], Out, cur + [BACKSLASH]) == Scan(tail, In('"'), cur + [BACKSLASH]);
    }
  }

  lemma {:induction false} BehindAtSingle(w: string, st: State, cur: string, lag: string, f: string, rest: string)
    requires Behind(st, cur, lag, w, f) && Separated(rest) && w != "" && w[0] == '\'' && st != In('"')
    ensures !StartsWithField(ScanArg(w, st, cur, rest), f)
    decreases |w|, 1
  {
    var text, tail := Escaped(w) + "\"" + rest, Escaped(w[1..]) + "\"" + rest;
    EscapedFirst(w, rest);
    assert text[0] == '\'' && text[1..] == tail;
    Grow(cur, lag, [w[0]], w[1..]);
    assert w == [w[0]] + w[1..];
    BehindIsWrong(w[1..], if st == Out then In('\'') else Out, cur, lag + [w[0]], f, rest);
  }

  lemma {:induction false} BehindAtPlain(w: string, st: State, cur: string, lag: string, f: string, rest: string)
    requires Behind(st, cur, lag, w, f) && Separated(rest) && w != "" && w[0] != '"'
    requires !(w[0] == BACKSLASH && st.In?) && !(w[0] == '\'' && st != In('"'))
    ensures !StartsWithField(ScanArg(w, st, cur, rest), f)
    decreases |w|, 1
  {
    var text, tail := Escaped(w) + "\"" + rest, Escaped(w[1..]) + "\"" + rest;
    EscapedFirst(w, rest);
    assert text[0] == w[0] && text[1..] == tail;
    NextOfField(cur, lag, w, f);
    if st == Out && IsBlank(w[0]) {
      assert Scan(text, Out, cur)[0] == cur;
    } else {
      ReadsOne(w, st, cur, lag, f, rest, w[0], 1, st);
    }
  }

  lemma {:induction false} BehindAtPair(w: string, st: State, cur: string, lag: string, f: string, rest: string)
    requires Behind(st, cur, lag, w, f) && Separated(rest) && w != "" && w[0] == BACKSLASH && st.In?
    ensures !StartsWithField(ScanArg(w, st, cur, rest), f)
    decreases |w|, 2
  {
    var text := Escaped(w) + "\"" + rest;
    NextOfField(cur, lag, w, f);
    EscapedFirst(w, rest);
    if |w| == 1 {
      assert text == [BACKSLASH, '"'] + rest && text[2..] == rest;
      ScanPair(text, st, cur, rest);
      if lag[0] != '"' {
        WrongChar(rest, st, cur, '"', f);
      } else {
        assert f[|cur| + 1] == (lag + w)[1];
        LeftShort(st, cur + "\"", f, rest);
      }
    } else {
      EscapedFirst(w[1..], rest);
      assert w[1..][1..] == w[2..];
      var tail := Escaped(w[2..]) + "\"" + rest;
      if w[1] == '"' {
        BehindAtEscapedQuote(w, st, cur, lag, f, rest, text, tail);
      } else {
        assert text[1] == w[1] && text[2..] == tail;
        ScanPair(text, st, cur, tail);
        ReadsOne(w, st, cur, lag, f, rest, w[1], 2, st);
      }
    }
  }

  /** A backslash takes the escape of the quote after it, which then counts as a quote. */
  lemma {:induction false} BehindAtEscapedQuote(w: string, st: State, cur: string, lag: string, f: string, rest: string,
                                                text: string, tail: string)
    requires Behind(st, cur, lag, w, f) && Separated(rest) && |w| >= 2 && w[0] == BACKSLASH && w[1] == '"' && st.In?
    requires tail == Escaped(w[2..]) + "\"" + rest && text == [BACKSLASH] + ([BACKSLASH, '"'] + tail)
    ensures !StartsWithField(Scan(text, st, cur), f)
    decreases |w|, 1
  {
    var at := ['"'] + tail;
    assert text[1] == BACKSLASH && text[2..] == at && at[1..] == tail;
    ScanPair(text, st, cur, at);
    NextOfField(cur, lag, w, f);
    if st == In('"') {
      ReadsOne(w, st, cur, lag, f, rest, BACKSLASH, 2, Out);
      assert Scan(at, st, cur + [BACKSLASH]) == Scan(tail, Out, cur + [BACKSLASH]);
    } else if lag[0] != BACKSLASH {
      WrongChar(at, st, cur, BACKSLASH, f);
    } else {
      ScanPlainIn(at, st, cur + [BACKSLASH], tail);
      assert w == w[..2] + w[2..];
      Advance(cur, lag, w[..2], w[2..], BACKSLASH);
      var lag' := lag[1..] + w[..2];
      NextOfField(cur + [BACKSLASH], lag', w[2..], f);
      if lag'[0] != '"' {
        WrongChar(tail, st, cur + [BACKSLASH], '"', f);
      } else {
        Advance(cur + [BACKSLASH], lag', "", w[2..], '"');
        assert "" + w[2..] == w[2..];
        BehindIsWrong(w[2..], st, cur + [BACKSLASH] + ['"'], lag'[1..] + "", f, rest);
      }
    }
  }

  lemma {:induction false} FirstBackslash(a: string) returns (p: nat)
    requires !Lacks(a, BACKSLASH)
    ensures p < |a| && a[p] == BACKSLASH && Lacks(a[..p], BACKSLASH)
  {
    if a[0] == BACKSLASH {
      p := 0;
    } else {
      var q := FirstBackslash(a[1..]);
      p := q + 1;
      assert forall i :: 0 < i < p ==> a[i] == a[1..][i - 1] && a[1..][i - 1] == a[1..][..q][i - 1];
    }
  }

  lemma {:induction false} EscapedJoin(a: string, b: string)
    ensures Escaped(a + b) == Escaped(a) + Escaped(b)
  {
    if a == "" {
      assert a + b == b;
    } else {
      assert (a + b)[1..] == a[1..] + b;
      EscapedJoin(a[1..], b);
    }
  }

  /** The first backslash inside quotes. */
  lemma BackslashIsWrong(a: string, u: string, v: string, rest: string)
    requires a == u + ([BACKSLASH] + v) && Separated(rest)
    ensures !StartsWithField(Scan([BACKSLASH] + (Escaped(v) + "\"" + rest), In('"'), u), a)
  {
    var text, st := [BACKSLASH] + (Escaped(v) + "\"" + rest), In('"');
    if v == "" {
      assert text[1] == '"' && text[2..] == rest;
      ScanPair(text, st, u, rest);
      WrongChar(rest, st, u, '"', a);
    } else {
      var tail := Escaped(v[1..]) + "\"" + rest;
      EscapedFirst(v, rest);
      assert v == [v[0]] + v[1..];
      if v[0] == '"' {
        var at := ['"'] + tail;
        assert text[1] == BACKSLASH && text[2..] == at && at[1..] == tail;
        ScanPair(text, st, u, at);
        assert a == (u + [BACKSLASH]) + (['"'] + v[1..]);
        BehindIsWrong(v[1..], Out, u + [BACKSLASH], ['"'], a, rest);
      } else {
        assert text[1] == v[0] && text[2..] == tail;
        ScanPair(text, st, u, tail);
        if v[0] == BACKSLASH {
          assert a == (u + [BACKSLASH]) + ([BACKSLASH] + v[1..]);
          BehindIsWrong(v[1..], st, u + [BACKSLASH], [BACKSLASH], a, rest);
        } else {
          WrongChar(tail, st, u, v[0], a);
        }
      }
    }
  }

  lemma QuotedText(a: string, u: string, v: string, rest: string)
    requires a == u + ([BACKSLASH] + v)
    ensures "\"" + Escaped(a) + "\"" + rest == ['"'] + (Escaped(u) + ([BACKSLASH] + (Escaped(v) + "\"" + rest)))
  {
    EscapedJoin(u, [BACKSLASH] + v);
    assert ([BACKSLASH] + v)[1..] == v;
    Regroup(Escaped(u), [BACKSLASH], Escaped(v), rest);
  }

  lemma Regroup(u: string, b: string, v: string, rest: string)
    ensures "\"" + (u + (b + v)) + "\"" + rest == ['"'] + (u + (b + (v + "\"" + rest)))
  {
    assert "\"" == ['"'];
  }

  /** An argument that does not survive is not the field read first. */
  lemma BadIsWrong(a: string, rest: string)
    requires a != "" && !Survives(a) && Separated(rest)
    ensures !StartsWithField(Scan(QuoteArg(a) + rest, Out, ""), a)
  {
    var p := FirstBackslash(a);
    var u, v := a[..p], a[p + 1..];
    var tail := [BACKSLASH] + (Escaped(v) + "\"" + rest);
    assert a == u + ([BACKSLASH] + v);
    QuotedText(a, u, v, rest);
    var text := QuoteArg(a) + rest;
    assert text[0] == '"' && text[1..] == Escaped(u) + tail;
    ScanEscaped(u, tail, "");
    assert "" + u == u;
    BackslashIsWrong(a, u, v, rest);
  }

  lemma FirstThenRest(a: string, more: string)
    requires a != ""
    ensures Scan(" " + more, Out, a) == [a] + Split(more)
  {
    assert (" " + more)[0] == ' ' && (" " + more)[1..] == more;
  }

  /** Splitting the space-joined quoted form of any list of arguments gives the list back exactly if
      none is empty or has a backslash inside quotes. */
  lemma {:induction false} SplitUndoesQuotingExactly(args: seq<string>)
    ensures Split(Quoted(args)) == args <==> forall i :: 0 <= i < |args| ==> Survives(args[i])
  {
    if args != [] {
      var rest := if |args| == 1 then "" else " " + Quoted(args[1..]);
      assert Quoted(args) == QuoteArg(args[0]) + rest;
      if args[0] == "" {
        FieldsNotEmpty(Quoted(args), Out, "");
      } else if !Survives(args[0]) {
        BadIsWrong(args[0], rest);
      } else {
        ScanQuoted(args[0], rest);
        if |args| > 1 {
          FirstThenRest(args[0], Quoted(args[1..]));
          SplitUndoesQuotingExactly(args[1..]);
          assert args == [args[0]] + args[1..];
        }
      }
    }
  }

  /** Quoting and splitting one argument gives it back exactly if it is not empty and has no
      backslash inside quotes. */
  lemma SurvivesExactly(a: string)
    ensures Split(QuoteArg(a)) == [a] <==> Survives(a)
  {
    SplitUndoesQuotingExactly([a]);
  }
}
