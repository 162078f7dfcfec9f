/** The texts inside directives: numbers, netmasks, comments and the payloads of push lines. */
module ConfAtoms {
  import opened Wrappers
  import opened Text
  import opened Addresses
  import opened Blocks
  import opened ConfImport
  import opened ConfRoundTrip
  import Fields

  // ---- numbers ----

  predicate Signed(s: string) { s != "" && (s[0] == '-' || s[0] == '+') }

  function Unsigned(s: string): string { if Signed(s) then s[1..] else s }

  /** Exactly optionally signed digits within 64 bits are numbers, of that value. */
  lemma AtoiExactly(s: string, n: int)
    ensures Atoi(s) == Some(n) <==>
      var d := Unsigned(s);
      d != "" && AllDigits(d) && -0x8000_0000_0000_0000 <= n < 0x8000_0000_0000_0000
        && n == if s[0] == '-' then -(DigitsValue(d) as int) else DigitsValue(d)
  {
    var d := Unsigned(s);
    if s != "" && s[0] == '-' {
      assert Atoi(s) == Negated(ParseUint(d, 0x8000_0000_0000_0001));
    } else if s != "" && s[0] == '+' {
      assert d == s[1..];
    } else if d != "" && AllDigits(d) {
      assert IsDigit(s[0]);
    }
  }

  // ---- netmasks ----

  lemma {:induction false} MaskPrefixIs(m: Ip, p: nat)
    requires p <= 32
    ensures MaskPrefix(m, p).Some? ==> MaskIp(MaskPrefix(m, p).value) == m
    decreases 32 - p
  {
    if MaskIp(p) != m && p < 32 { MaskPrefixIs(m, p + 1); }
  }

  /** A network and netmask are a CIDR exactly if both are addresses and the mask is that of a prefix;
      the CIDR is that of the network, masked. */
  lemma NetmaskExactly(network: string, mask: string, cidr: string)
    ensures NetworkMaskToCidr(network, mask) == Some(cidr) <==>
      exists prefix: nat :: IsNetmask(network, mask, cidr, prefix)
  {
    if NetworkMaskToCidr(network, mask) == Some(cidr) {
      var m := ParseIp(TrimSpace(mask)).value;
      MaskPrefixIs(m, 0);
      assert IsNetmask(network, mask, cidr, MaskPrefix(m, 0).value);
    }
    forall prefix: nat | IsNetmask(network, mask, cidr, prefix) ensures NetworkMaskToCidr(network, mask) == Some(cidr) {
      MaskPrefixFinds(prefix, 0);
    }
  }

  predicate IsNetmask(network: string, mask: string, cidr: string, prefix: nat) {
    && prefix <= 32 && ParseIp(TrimSpace(mask)) == Some(MaskIp(prefix)) && ParseIp(TrimSpace(network)).Some?
    && cidr == CidrText(Masked(ParseIp(TrimSpace(network)).value, prefix))
  }

  // ---- comments ----

  /** A '#' after text without quotes starts the comment. */
  lemma {:induction false} HashFound(a: string, rest: string, line: string)
    requires line == a + "#" + rest && Lacks(a, '#') && forall i :: 0 <= i < |a| ==> !Fields.IsQuote(a[i])
    ensures Fields.UnquotedFrom(line, Fields.Out, '#') == |a|
  {
    if a != "" {
      assert line[0] == a[0] && line[1..] == a[1..] + "#" + rest;
      HashFound(a[1..], rest, line[1..]);
    }
  }

  lemma CommentIsCut(a: string, rest: string)
    requires Lacks(a, '#') && forall i :: 0 <= i < |a| ==> !Fields.IsQuote(a[i])
    ensures Uncommented(a + "#" + rest) == TrimSpace(a)
  {
    var line := a + "#" + rest;
    HashFound(a, rest, line);
    assert line[..|a|] == a;
  }

  // ---- push lines ----

  lemma {:induction false} LastQuoteAt(a: string, q: char, tail: string, s: string)
    requires s == a + [q] + tail && Lacks(tail, q)
    ensures LastQuote(s, q) == |a|
  {
    if tail != "" {
      var init := tail[..|tail| - 1];
      assert s[..|s| - 1] == a + [q] + init && s[|s| - 1] == tail[|tail| - 1];
      LastQuoteAt(a, q, init, s[..|s| - 1]);
    }
  }

  lemma {:induction false} LastQuoteNone(s: string, q: char)
    requires Lacks(s, q)
    ensures LastQuote(s, q) == -1
  {
    if s != "" { LastQuoteNone(s[..|s| - 1], q); }
  }

  lemma PushRest(line: string, rest: string)
    requires line == "push " + rest && rest != "" && !IsSpace(rest[0]) && !IsSpace(rest[|rest| - 1])
    ensures TrimSpace(line) == line && line[4..] == " " + rest && TrimSpace(line[4..]) == rest
  {
    TrimIdentity(line);
    TrimBlank(rest);
  }

  /** The payload of a push line in quotes is the text up to the last such quote. */
  lemma QuotedPayload(q: char, payload: string, tail: string, line: string)
    requires Fields.IsQuote(q) && Lacks(tail, q) && (tail != "" ==> !IsSpace(tail[|tail| - 1]))
    requires line == "push " + ([q] + (payload + [q] + tail))
    ensures PushPayload(line) == payload
  {
    var inner := payload + [q] + tail;
    var rest := [q] + inner;
    assert inner != "" && rest[|rest| - 1] == inner[|inner| - 1];
    PushRest(line, rest);
    LastQuoteAt(payload, q, tail, inner);
    assert rest[1..] == inner && rest[1..1 + |payload|] == payload;
  }

  /** A quote that is never closed is dropped. */
  lemma OpenPayload(q: char, payload: string, line: string)
    requires Fields.IsQuote(q) && Lacks(payload, q) && payload != "" && !IsSpace(payload[|payload| - 1]) && line == "push " + ([q] + payload)
    ensures PushPayload(line) == payload
  {
    var rest := [q] + payload;
    PushRest(line, rest);
    LastQuoteNone(payload, q);
    assert rest[1..] == payload;
    assert TrimQuotes(payload, q) == payload;
  }

  /** Without quotes the payload is the rest of the line. */
  lemma BarePayload(payload: string, line: string)
    requires payload != "" && !IsSpace(payload[0]) && !IsSpace(payload[|payload| - 1]) && !Fields.IsQuote(payload[0])
    requires line == "push " + payload
    ensures PushPayload(line) == payload
  {
    PushRest(line, payload);
  }

  lemma CapitalsOfSmall()
    ensures ToUpper("dns") == "DNS" && ToUpper("Domain") == "DOMAIN"
  {
  }
}
