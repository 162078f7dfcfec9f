/** Inline PEM blocks: written by writeInlinePEM (internal/confgen/profile.go), extracted by
    ExtractInlineBlocks (internal/confimport/inline.go). */
module Inline {
  import opened Wrappers
  import opened Text

  const TAGS: seq<string> := ["ca", "cert", "key", "tls-crypt", "tls-auth", "secret", "dh", "extra-certs", "tls-crypt-v2"]

  function OpenTag(tag: string): string { "<" + tag + ">" }
  function CloseTag(tag: string): string { "</" + tag + ">" }

  // ---- strings.Index ----

  predicate Occurs(t: string, p: string, k: nat) { k + |p| <= |t| && t[k..k + |p|] == p }

  /** No occurrence at all. */
  ghost predicate Free(t: string, p: string) { forall k: nat :: !Occurs(t, p, k) }

  function IndexFrom(t: string, p: string, k: nat): (i: int)
    requires k <= |t|
    decreases |t| - k
  {
    if Occurs(t, p, k) then k else if k == |t| then -1 else IndexFrom(t, p, k + 1)
  }

  function Index(t: string, p: string): int { IndexFrom(t, p, 0) }

  lemma {:induction false} IndexFromIs(t: string, p: string, k: nat)
    requires k <= |t|
    ensures var i := IndexFrom(t, p, k);
      if i < 0 then forall j: nat :: k <= j ==> !Occurs(t, p, j)
      else k <= i && Occurs(t, p, i) && forall j: nat :: k <= j < i ==> !Occurs(t, p, j)
    decreases |t| - k
  {
    if !Occurs(t, p, k) && k < |t| {
      IndexFromIs(t, p, k + 1);
    }
  }

  lemma IndexAt(t: string, p: string, i: nat)
    requires Occurs(t, p, i) && forall j: nat :: j < i ==> !Occurs(t, p, j)
    ensures Index(t, p) == i
  {
    IndexFromIs(t, p, 0);
  }

  lemma IndexNone(t: string, p: string)
    ensures Index(t, p) < 0 <==> Free(t, p)
    ensures Index(t, p) >= 0 ==> Occurs(t, p, Index(t, p)) && forall j: nat :: j < Index(t, p) ==> !Occurs(t, p, j)
  {
    IndexFromIs(t, p, 0);
  }

  // ---- extraction ----

  datatype Extraction = Extraction(blocks: map<string, string>, body: string)

  /** An opening tag with a closing one somewhere after it. */
  ghost predicate HasBlock(low: string, tag: string) {
    exists i: nat, j: nat :: BlockAt(low, tag, i, j)
  }

  ghost predicate BlockAt(low: string, tag: string, i: nat, j: nat) {
    Occurs(low, OpenTag(tag), i) && i + |OpenTag(tag)| <= j && Occurs(low, CloseTag(tag), j)
  }

  /** The first opening tag and the first closing tag after it. */
  function FindBlock(low: string, tag: string): (r: Option<(nat, nat)>)
    ensures r.Some? ==> r.value.0 + |OpenTag(tag)| <= r.value.1 && r.value.1 + |CloseTag(tag)| <= |low|
  {
    var open, close := OpenTag(tag), CloseTag(tag);
    var i := Index(low, open);
    IndexNone(low, open);
    if i < 0 then None
    else
      var j := Index(low[i + |open|..], close);
      IndexNone(low[i + |open|..], close);
      if j < 0 then None
      else
        Some((i, i + |open| + j))
  }

  /** A stretch cut out and replaced by a line break. */
  function Cut(t: string, i: nat, e: nat): string
    requires i <= e <= |t|
  {
    t[..i] + "\n" + t[e..]
  }

  predicate Fits(body: string, tag: string, at: Option<(nat, nat)>) {
    at.Some? ==> at.value.0 + |OpenTag(tag)| <= at.value.1 && at.value.1 + |CloseTag(tag)| <= |body|
  }

  /** The block found is taken out. */
  function Taken(e: Extraction, tag: string, at: Option<(nat, nat)>): (r: Option<Extraction>)
    requires Fits(e.body, tag, at)
    ensures r.Some? ==> |r.value.body| < |e.body|
  {
    if at.None? then None
    else
      var (i, j) := at.value;
      Some(Extraction(e.blocks[tag := TrimSpace(e.body[i + |OpenTag(tag)|..j]) + "\n"], Cut(e.body, i, j + |CloseTag(tag)|)))
  }

  /** One turn of the inner loop, or None when no complete block of the tag is found. */
  function Step(e: Extraction, tag: string): (r: Option<Extraction>)
    ensures r.Some? ==> |r.value.body| < |e.body|
  {
    Taken(e, tag, FindBlock(ToLower(e.body), tag))
  }

  function ExtractTag(e: Extraction, tag: string): Extraction
    decreases |e.body|
  {
    match Step(e, tag)
    case None => e
    case Some(next) => ExtractTag(next, tag)
  }

  function ExtractTags(e: Extraction, tags: seq<string>): Extraction {
    if tags == [] then e else ExtractTag(ExtractTags(e, tags[..|tags| - 1]), tags[|tags| - 1])
  }

  /** The two searches of the inner loop. */
  method SearchBlock(low: string, tag: string) returns (found: bool, i: nat, j: nat)
    ensures FindBlock(low, tag) == if found then Some((i, j)) else None
  {
    var open, close := OpenTag(tag), CloseTag(tag);
    var k := Index(low, open);
    IndexNone(low, open);
    if k < 0 { return false, 0, 0; }
    var l := Index(low[k + |open|..], close);
    IndexNone(low[k + |open|..], close);
    if l < 0 { return false, 0, 0; }
    return true, k, k + |open| + l;
  }

  /** One turn of the inner loop. */
  method TakeBlock(tag: string, blocks: map<string, string>, body: string)
    returns (found: bool, blocks': map<string, string>, body': string)
    ensures Step(Extraction(blocks, body), tag) == if found then Some(Extraction(blocks', body')) else None
  {
    var low := ToLower(body);
    var i, end;
    found, i, end := SearchBlock(low, tag);
    blocks', body' := blocks, body;
    if found {
      var start := i + |OpenTag(tag)|;
      blocks' := blocks[tag := TrimSpace(body[start..end]) + "\n"];
      body' := body[..i] + "\n" + body[end + |CloseTag(tag)|..];
    }
  }

  /** The inner loop, for one tag; it ends because the body shrinks. */
  method ExtractOneTag(tag: string, blocks0: map<string, string>, body0: string)
    returns (blocks: map<string, string>, body: string)
    ensures Extraction(blocks, body) == ExtractTag(Extraction(blocks0, body0), tag)
  {
    blocks, body := blocks0, body0;
    while true
      invariant ExtractTag(Extraction(blocks, body), tag) == ExtractTag(Extraction(blocks0, body0), tag)
      decreases |body|
    {
      var found, blocks', body' := TakeBlock(tag, blocks, body);
      if !found { break; }
      blocks, body := blocks', body';
    }
  }

  /** ExtractInlineBlocks on ASCII text. */
  method ExtractInlineBlocks(content: string) returns (blocks: map<string, string>, body: string)
    ensures Extraction(blocks, body) == ExtractTags(Extraction(map[], content), TAGS)
  {
    blocks, body := map[], content;
    for t := 0 to |TAGS|
      invariant Extraction(blocks, body) == ExtractTags(Extraction(map[], content), TAGS[..t])
    {
      assert TAGS[..t + 1][..t] == TAGS[..t];
      blocks, body := ExtractOneTag(TAGS[t], blocks, body);
    }
    assert TAGS[..|TAGS|] == TAGS;
  }

  // ---- no block is left ----

  predicate TagChar(c: char) { 'a' <= c <= 'z' || '0' <= c <= '9' || c == '-' }

  predicate TagOk(tag: string) { tag != "" && forall i :: 0 <= i < |tag| ==> TagChar(tag[i]) }

  lemma TagsOk(t: nat)
    requires t < |TAGS|
    ensures TagOk(TAGS[t])
  {
  }

  lemma LowerJoin(x: string, y: string)
    ensures ToLower(x + y) == ToLower(x) + ToLower(y)
  {
  }

  lemma LowerSlice(x: string, i: nat, j: nat)
    requires i <= j <= |x|
    ensures ToLower(x[i..j]) == ToLower(x)[i..j]
  {
  }

  lemma FirstOpen(low: string, tag: string)
    requires FindBlock(low, tag).Some?
    ensures var i := FindBlock(low, tag).value.0; Index(low, OpenTag(tag)) == i && Occurs(low, OpenTag(tag), i)
  {
    IndexNone(low, OpenTag(tag));
  }

  lemma FirstClose(low: string, tag: string, start: nat)
    requires FindBlock(low, tag).Some? && start == FindBlock(low, tag).value.0 + |OpenTag(tag)|
    ensures start <= |low| && start <= FindBlock(low, tag).value.1
    ensures Occurs(low[start..], CloseTag(tag), FindBlock(low, tag).value.1 - start)
  {
    IndexNone(low, OpenTag(tag));
    IndexNone(low[start..], CloseTag(tag));
  }

  lemma FoundIsBlock(low: string, tag: string)
    requires FindBlock(low, tag).Some?
    ensures BlockAt(low, tag, FindBlock(low, tag).value.0, FindBlock(low, tag).value.1)
  {
    var (i, j) := FindBlock(low, tag).value;
    var start := i + |OpenTag(tag)|;
    FirstOpen(low, tag);
    FirstClose(low, tag, start);
    OccursLater(low, CloseTag(tag), start, j - start);
  }

  lemma OccursLater(t: string, p: string, start: nat, j: nat)
    requires start <= |t| && Occurs(t[start..], p, j)
    ensures Occurs(t, p, start + j)
  {
    forall k | 0 <= k < |p| ensures t[start + j + k] == p[k] { assert t[start..][j..j + |p|][k] == t[start..][j + k]; }
  }

  lemma FoundExactly(low: string, tag: string)
    ensures FindBlock(low, tag).None? <==> !HasBlock(low, tag)
  {
    var open, close := OpenTag(tag), CloseTag(tag);
    if FindBlock(low, tag).Some? {
      FoundIsBlock(low, tag);
    } else {
      IndexNone(low, open);
      var i := Index(low, open);
      if i >= 0 { NoneAfter(low, close, i + |open|); }
    }
  }

  lemma OccursShift(t: string, p: string, start: nat, j: nat)
    requires start <= j && Occurs(t, p, j)
    ensures start <= |t| && Occurs(t[start..], p, j - start)
  {
    assert t[start..][j - start..j - start + |p|] == t[j..j + |p|];
  }

  lemma NoneAfter(low: string, close: string, start: nat)
    requires start <= |low| && Index(low[start..], close) < 0
    ensures forall j: nat :: start <= j ==> !Occurs(low, close, j)
  {
    IndexNone(low[start..], close);
    forall j: nat | start <= j ensures !Occurs(low, close, j) {
      if Occurs(low, close, j) { OccursShift(low, close, start, j); }
    }
  }

  lemma CutSpan(t: string, i: nat, e: nat, p: string, k: nat)
    requires i <= e <= |t| && k <= i < k + |p| && Occurs(Cut(t, i, e), p, k)
    ensures !Lacks(p, '\n')
  {
    assert p[i - k] == Cut(t, i, e)[i];
  }

  /** A pattern without line breaks occurs in the cut text only where it occurred before. */
  lemma OccursBefore(t: string, i: nat, e: nat, p: string, k: nat)
    requires i <= e <= |t| && p != "" && Lacks(p, '\n') && Occurs(Cut(t, i, e), p, k)
    ensures if k < i then k + |p| <= i && Occurs(t, p, k) else k > i && Occurs(t, p, k - i - 1 + e)
  {
    var u := Cut(t, i, e);
    if k <= i < k + |p| {
      CutSpan(t, i, e, p, k);
    } else if k > i {
      assert u[k..k + |p|] == t[k - i - 1 + e..k - i - 1 + e + |p|];
    } else {
      assert u[k..k + |p|] == t[k..k + |p|];
    }
  }

  lemma TagsLackBreaks(tag: string)
    requires TagOk(tag)
    ensures Lacks(OpenTag(tag), '\n') && Lacks(CloseTag(tag), '\n')
  {
    forall i | 0 <= i < |tag| ensures tag[i] != '\n' { assert TagChar(tag[i]); }
  }

  lemma CutMakesNoBlock(t: string, i: nat, e: nat, tag: string)
    requires i <= e <= |t| && TagOk(tag) && !HasBlock(t, tag)
    ensures !HasBlock(Cut(t, i, e), tag)
  {
    var open, close := OpenTag(tag), CloseTag(tag);
    TagsLackBreaks(tag);
    forall a: nat, b: nat ensures !BlockAt(Cut(t, i, e), tag, a, b) {
      if BlockAt(Cut(t, i, e), tag, a, b) {
        OccursBefore(t, i, e, open, a);
        OccursBefore(t, i, e, close, b);
        assert BlockAt(t, tag, if a < i then a else a - i - 1 + e, if b < i then b else b - i - 1 + e);
      }
    }
  }

  lemma LowerBreak()
    ensures ToLower("\n") == "\n"
  {
  }

  lemma LowerAround(a: string, n: string, b: string)
    requires ToLower(n) == n
    ensures ToLower(a + n + b) == ToLower(a) + n + ToLower(b)
  {
    LowerJoin(a + n, b);
    LowerJoin(a, n);
  }

  lemma LowerCut(x: string, i: nat, e: nat, cut: string)
    requires i <= e <= |x| && cut == Cut(x, i, e)
    ensures ToLower(cut) == Cut(ToLower(x), i, e)
  {
    var head, tail := x[..i], x[e..];
    LowerSlice(x, 0, i);
    LowerSlice(x, e, |x|);
    LowerBreak();
    LowerAround(head, "\n", tail);
    assert ToLower(head) == ToLower(x)[..i] && ToLower(tail) == ToLower(x)[e..];
  }

  lemma StepMakesNoBlock(e: Extraction, tag: string, other: string)
    requires Step(e, tag).Some? && TagOk(other) && !HasBlock(ToLower(e.body), other)
    ensures !HasBlock(ToLower(Step(e, tag).value.body), other)
  {
    var low, next := ToLower(e.body), Step(e, tag).value.body;
    var at := FindBlock(low, tag).value;
    CutMakesNoBlock(low, at.0, at.1 + |CloseTag(tag)|, other);
    LowerCut(e.body, at.0, at.1 + |CloseTag(tag)|, next);
  }

  lemma {:induction false} TagLeavesNoBlock(e: Extraction, tag: string, other: string)
    requires TagOk(other) && (other == tag || !HasBlock(ToLower(e.body), other))
    ensures !HasBlock(ToLower(ExtractTag(e, tag).body), other)
    decreases |e.body|
  {
    var next := Step(e, tag);
    if next.None? {
      FoundExactly(ToLower(e.body), tag);
    } else {
      if other != tag { StepMakesNoBlock(e, tag, other); }
      TagLeavesNoBlock(next.value, tag, other);
    }
  }

  lemma {:induction false} TagsLeaveNoBlock(e: Extraction, tags: seq<string>, t: nat)
    requires t < |tags| && TagOk(tags[t])
    ensures !HasBlock(ToLower(ExtractTags(e, tags).body), tags[t])
  {
    var n := |tags| - 1;
    if t < n { TagsLeaveNoBlock(e, tags[..n], t); }
    TagLeavesNoBlock(ExtractTags(e, tags[..n]), tags[n], tags[t]);
  }

  /** On any ASCII text extraction leaves no complete block of any listed tag, whatever the case
      of its letters. */
  lemma NoBlockIsLeft(content: string, t: nat)
    requires t < |TAGS|
    ensures !HasBlock(ToLower(ExtractTags(Extraction(map[], content), TAGS).body), TAGS[t])
  {
    TagsOk(t);
    TagsLeaveNoBlock(Extraction(map[], content), TAGS, t);
  }

  /** The tags as written. */
  lemma TagTexts(tag: string)
    ensures OpenTag(tag) == "<" + tag + ">" && CloseTag(tag) == "</" + tag + ">"
  {
  }

  /** The nine block names of a conf. */
  predicate IsBlockName(tag: string) {
    || tag == "ca" || tag == "cert" || tag == "key" || tag == "tls-crypt" || tag == "tls-auth"
    || tag == "secret" || tag == "dh" || tag == "extra-certs" || tag == "tls-crypt-v2"
  }

  lemma TagsAre(t: nat)
    requires t < |TAGS|
    ensures IsBlockName(TAGS[t])
  {
  }

  lemma NamesAreTags(tag: string) returns (t: nat)
    requires IsBlockName(tag)
    ensures t < |TAGS| && TAGS[t] == tag
  {
    t := if tag == "ca" then 0 else if tag == "cert" then 1 else if tag == "key" then 2 else if tag == "tls-crypt" then 3
         else if tag == "tls-auth" then 4 else if tag == "secret" then 5 else if tag == "dh" then 6 else if tag == "extra-certs" then 7 else 8;
  }

  lemma {:induction false} KeysAreTags(e: Extraction, tag: string)
    ensures ExtractTag(e, tag).blocks.Keys <= e.blocks.Keys + {tag}
    decreases |e.body|
  {
    var next := Step(e, tag);
    if next.Some? { KeysAreTags(next.value, tag); }
  }

  lemma {:induction false} AllKeysAreTags(e: Extraction, tags: seq<string>, key: string)
    requires key in ExtractTags(e, tags).blocks
    ensures key in e.blocks || key in tags
  {
    if tags != [] {
      var init, tag := tags[..|tags| - 1], tags[|tags| - 1];
      KeysAreTags(ExtractTags(e, init), tag);
      assert key in ExtractTags(e, tags).blocks.Keys;
      if key in ExtractTags(e, init).blocks { AllKeysAreTags(e, init, key); } else { assert key == tag; }
    }
  }

  /** Extraction takes out the blocks of exactly the nine names: it returns blocks under these names
      only, and leaves no complete block of any of them. */
  lemma NineNamesAreExtracted(content: string)
    ensures var e := ExtractTags(Extraction(map[], content), TAGS);
      && (forall key :: key in e.blocks ==> IsBlockName(key))
      && (forall tag :: IsBlockName(tag) ==> !HasBlock(ToLower(e.body), tag))
  {
    var e := ExtractTags(Extraction(map[], content), TAGS);
    forall key | key in e.blocks ensures IsBlockName(key) {
      AllKeysAreTags(Extraction(map[], content), TAGS, key);
      var t :| 0 <= t < |TAGS| && TAGS[t] == key;
      TagsAre(t);
    }
    forall tag | IsBlockName(tag) ensures !HasBlock(ToLower(e.body), tag) {
      var t := NamesAreTags(tag);
      NoBlockIsLeft(content, t);
    }
  }
}
