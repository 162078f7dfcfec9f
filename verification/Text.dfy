/** The string library operations the system relies on: decimal numerals, splitting and
    joining, trimming, ASCII lower-casing and substring search. */
module Text {
  import opened Wrappers

  // ---- decimal numerals (strconv.FormatUint / ParseUint, base 10) ----

  predicate IsDigit(c: char) { '0' <= c <= '9' }

  function DigitChar(d: nat): (c: char)
    requires d < 10
    ensures IsDigit(c) && DigitValue(c) == d
  {
    ('0' as int + d) as char
  }

  function DigitValue(c: char): nat
    requires IsDigit(c)
  {
    c as int - '0' as int
  }

  function Decimal(n: nat): string {
    if n < 10 then [DigitChar(n)] else Decimal(n / 10) + [DigitChar(n % 10)]
  }

  predicate AllDigits(s: string) { forall i :: 0 <= i < |s| ==> IsDigit(s[i]) }

  function DigitsValue(s: string): nat
    requires AllDigits(s)
  {
    if s == "" then 0 else DigitsValue(s[..|s| - 1]) * 10 + DigitValue(s[|s| - 1])
  }

  /** Digits only, at least one, value below `limit`. */
  function ParseUint(s: string, limit: nat): Option<nat> {
    if s != "" && AllDigits(s) && DigitsValue(s) < limit then Some(DigitsValue(s)) else None
  }

  lemma {:induction false} DecimalParses(n: nat)
    ensures Decimal(n) != "" && AllDigits(Decimal(n)) && DigitsValue(Decimal(n)) == n
  {
    if n >= 10 {
      DecimalParses(n / 10);
      assert Decimal(n)[..|Decimal(n)| - 1] == Decimal(n / 10);
    }
  }

  /** No leading zero, except for 0 itself. */
  lemma {:induction false} DecimalHead(n: nat)
    ensures Decimal(n) != "" && (Decimal(n)[0] == '0' <==> n == 0)
  {
    if n >= 10 {
      DecimalHead(n / 10);
    }
  }

  lemma {:induction false} DecimalLength(n: nat)
    requires n < 256
    ensures 1 <= |Decimal(n)| <= 3
  {
    if n >= 10 {
      if n / 10 >= 10 { assert Decimal(n / 10) == [DigitChar(n / 100)] + [DigitChar(n / 10 % 10)]; }
    }
  }

  lemma {:induction false} DigitsPositive(s: string)
    requires AllDigits(s) && s != "" && s[0] != '0'
    ensures DigitsValue(s) >= 1
  {
    if |s| > 1 { DigitsPositive(s[..|s| - 1]); }
  }

  /** Digits without a leading zero are the numeral of their value. */
  lemma {:induction false} DigitsAreDecimal(s: string)
    requires AllDigits(s) && s != "" && (|s| > 1 ==> s[0] != '0')
    ensures Decimal(DigitsValue(s)) == s
  {
    var init, last := s[..|s| - 1], DigitValue(s[|s| - 1]);
    assert s == init + [s[|s| - 1]] && DigitChar(last) == s[|s| - 1];
    if init == "" {
      assert DigitsValue(s) == last;
    } else {
      DigitsPositive(init);
      DigitsAreDecimal(init);
      var v := DigitsValue(init);
      assert DigitsValue(s) == v * 10 + last;
      assert (v * 10 + last) / 10 == v && (v * 10 + last) % 10 == last;
    }
  }

  // ---- strings.Split / Join on one separator character ----

  predicate Lacks(s: string, c: char) { forall i :: 0 <= i < |s| ==> s[i] != c }

  function Split(s: string, c: char): (parts: seq<string>)
    ensures |parts| >= 1
  {
    if s == "" then [""]
    else
      var rest := Split(s[1..], c);
      if s[0] == c then [""] + rest else [[s[0]] + rest[0]] + rest[1..]
  }

  function Join(parts: seq<string>, c: char): string {
    if |parts| == 0 then ""
    else if |parts| == 1 then parts[0]
    else parts[0] + [c] + Join(parts[1..], c)
  }

  lemma {:induction false} SplitPlain(s: string, c: char)
    requires Lacks(s, c)
    ensures Split(s, c) == [s]
  {
    if s != "" {
      SplitPlain(s[1..], c);
      assert s == [s[0]] + s[1..];
    }
  }

  lemma {:induction false} SplitAtSeparator(s: string, t: string, c: char)
    requires Lacks(s, c)
    ensures Split(s + [c] + t, c) == [s] + Split(t, c)
  {
    var u := s + [c] + t;
    if s == "" {
      assert u[1..] == t;
    } else {
      assert u[1..] == s[1..] + [c] + t;
      SplitAtSeparator(s[1..], t, c);
      assert s == [s[0]] + s[1..];
    }
  }

  lemma {:induction false} SplitJoin(parts: seq<string>, c: char)
    requires |parts| >= 1 && forall i :: 0 <= i < |parts| ==> Lacks(parts[i], c)
    ensures Split(Join(parts, c), c) == parts
  {
    if |parts| == 1 {
      SplitPlain(parts[0], c);
    } else {
      SplitAtSeparator(parts[0], Join(parts[1..], c), c);
      SplitJoin(parts[1..], c);
    }
  }

  /** The parts of a text hold no separator, and joined they are the text. */
  lemma {:induction false} JoinSplit(s: string, c: char)
    ensures Join(Split(s, c), c) == s && forall i :: 0 <= i < |Split(s, c)| ==> Lacks(Split(s, c)[i], c)
  {
    if s != "" {
      var rest := Split(s[1..], c);
      JoinSplit(s[1..], c);
      if s[0] == c {
        assert ([""] + rest)[1..] == rest;
      } else {
        var parts := [[s[0]] + rest[0]] + rest[1..];
        assert parts[1..] == rest[1..];
        assert s == [s[0]] + s[1..];
      }
    }
  }

  // ---- texts built up piece by piece ----

  /** Texts one after the other. */
  function Joined<T>(items: seq<T>, text: T -> string): string {
    if items == [] then "" else Joined(items[..|items| - 1], text) + text(items[|items| - 1])
  }

  lemma JoinedSnoc<T>(items: seq<T>, init: seq<T>, last: T, text: T -> string)
    requires items == init + [last]
    ensures Joined(items, text) == Joined(init, text) + text(last)
  {
    assert items[..|items| - 1] == init;
  }

  lemma {:induction false} JoinedJoin<T>(a: seq<T>, b: seq<T>, text: T -> string)
    ensures Joined(a + b, text) == Joined(a, text) + Joined(b, text)
  {
    if b == [] {
      assert a + b == a;
    } else {
      var init, last := b[..|b| - 1], b[|b| - 1];
      JoinedJoin(a, init, text);
      JoinedSnoc(a + b, a + init, last, text);
      JoinTexts(Joined(a, text), Joined(init, text), text(last));
    }
  }

  lemma JoinedFront<T>(items: seq<T>, text: T -> string)
    requires items != []
    ensures Joined(items, text) == text(items[0]) + Joined(items[1..], text)
  {
    JoinedJoin([items[0]], items[1..], text);
    assert [items[0]] + items[1..] == items;
    JoinedSnoc([items[0]], [], items[0], text);
  }

  lemma JoinTexts(a: string, b: string, c: string)
    ensures a + b + c == a + (b + c)
  {
  }

  // ---- strings.TrimSpace, ToLower on ASCII ----

  predicate IsSpace(c: char) {
    c == ' ' || c == '\t' || c == '\n' || c == '\r' || c as int == 11 || c as int == 12
  }

  function TrimLeft(s: string): string {
    if s != "" && IsSpace(s[0]) then TrimLeft(s[1..]) else s
  }

  function TrimRight(s: string): string {
    if s != "" && IsSpace(s[|s| - 1]) then TrimRight(s[..|s| - 1]) else s
  }

  function TrimSpace(s: string): string { TrimRight(TrimLeft(s)) }

  function TrimPrefix(s: string, c: char): string {
    if s != "" && s[0] == c then s[1..] else s
  }

  function LowerChar(c: char): char {
    if 'A' <= c <= 'Z' then (c as int + 32) as char else c
  }

  function ToLower(s: string): (r: string)
    ensures |r| == |s|
    ensures forall i :: 0 <= i < |s| ==> r[i] == LowerChar(s[i])
  {
    if s == "" then "" else [LowerChar(s[0])] + ToLower(s[1..])
  }

  lemma TrimIdentity(s: string)
    requires s != "" ==> !IsSpace(s[0]) && !IsSpace(s[|s| - 1])
    ensures TrimSpace(s) == s
  {
  }

  lemma {:induction false} TrimEnds(s: string)
    ensures TrimLeft(s) != "" ==> !IsSpace(TrimLeft(s)[0])
    ensures TrimRight(s) != "" ==> !IsSpace(TrimRight(s)[|TrimRight(s)| - 1]) && TrimRight(s)[0] == s[0]
  {
    if s != "" {
      TrimEnds(s[1..]);
      TrimEnds(s[..|s| - 1]);
    }
  }

  lemma {:induction false} TrimLeftIs(s: string) returns (i: nat)
    ensures i <= |s| && TrimLeft(s) == s[i..] && forall k :: 0 <= k < i ==> IsSpace(s[k])
  {
    if s != "" && IsSpace(s[0]) {
      var j := TrimLeftIs(s[1..]);
      i := j + 1;
      assert forall k :: 0 < k < i ==> s[k] == s[1..][k - 1];
    } else {
      i := 0;
    }
  }

  lemma {:induction false} TrimRightIs(s: string)
    ensures |TrimRight(s)| <= |s| && TrimRight(s) == s[..|TrimRight(s)|] && forall k :: |TrimRight(s)| <= k < |s| ==> IsSpace(s[k])
    ensures s != "" && IsSpace(s[|s| - 1]) ==> |TrimRight(s)| < |s|
  {
    if s != "" && IsSpace(s[|s| - 1]) { TrimRightIs(s[..|s| - 1]); }
  }

  /** Trimming takes white space off both ends, and all of it. */
  lemma TrimIs(s: string) returns (i: nat, j: nat)
    ensures i <= j <= |s| && TrimSpace(s) == s[i..j]
    ensures forall k :: 0 <= k < i || j <= k < |s| ==> IsSpace(s[k])
    ensures i < j ==> !IsSpace(s[i]) && !IsSpace(s[j - 1])
  {
    i := TrimLeftIs(s);
    var rest := TrimLeft(s);
    TrimRightIs(rest);
    TrimEnds(s);
    TrimEnds(rest);
    j := i + |TrimRight(rest)|;
    assert TrimSpace(s) == s[i..j];
    assert forall k :: j <= k < |s| ==> s[k] == rest[k - i];
  }

  lemma TrimTwice(s: string)
    ensures TrimSpace(TrimSpace(s)) == TrimSpace(s)
  {
    TrimEnds(s);
    TrimEnds(TrimLeft(s));
    TrimIdentity(TrimSpace(s));
  }
}
