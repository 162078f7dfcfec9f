/** Inline PEM blocks written by writeInlinePEM (internal/confgen/profile.go) are found again by
    extraction. */
module InlineRoundTrip {
  import opened Wrappers
  import opened Text
  import opened Inline

  /** A conf as pieces: lines without tags, and inline blocks. */
  datatype Piece = Lines(text: string) | Block(tag: string, pem: string)

  /** writeInlinePEM. */
  function InlinePem(tag: string, pem: string): string {
    OpenTag(tag) + "\n" + (TrimSpace(pem) + "\n") + (CloseTag(tag) + "\n")
  }

  function TextOf(p: Piece): string { if p.Lines? then p.text else InlinePem(p.tag, p.pem) }

  function Written(pieces: seq<Piece>): string { Joined(pieces, TextOf) }

  /** No listed tag, in any case. */
  ghost predicate TagFree(s: string) {
    forall t :: 0 <= t < |TAGS| ==> Free(ToLower(s), OpenTag(TAGS[t])) && Free(ToLower(s), CloseTag(TAGS[t]))
  }

  predicate WholeLines(s: string) { s == "" || s[|s| - 1] == '\n' }

  ghost predicate PieceOk(p: Piece) {
    match p
    case Lines(text) => WholeLines(text) && TagFree(text)
    case Block(tag, pem) => tag in TAGS && TagFree(TrimSpace(pem))
  }

  ghost predicate PiecesOk(pieces: seq<Piece>) { forall i :: 0 <= i < |pieces| ==> PieceOk(pieces[i]) }

  lemma OccursLeft(x: string, y: string, p: string, k: nat)
    requires Occurs(x + y, p, k) && k + |p| <= |x|
    ensures Occurs(x, p, k)
  {
    assert (x + y)[k..k + |p|] == x[k..k + |p|];
  }

  lemma OccursRight(x: string, y: string, p: string, k: nat)
    requires Occurs(x + y, p, k) && k >= |x|
    ensures Occurs(y, p, k - |x|)
  {
    assert (x + y)[k..k + |p|] == y[k - |x|..k - |x| + |p|];
  }

  lemma SpanHasBreak(x: string, y: string, p: string, k: nat)
    requires WholeLines(x) && k < |x| < k + |p| && Occurs(x + y, p, k)
    ensures !Lacks(p, '\n')
  {
    assert p[|x| - 1 - k] == (x + y)[|x| - 1];
  }

  /** A text of whole lines has a pattern without line breaks only inside one of its parts. */
  lemma FreeJoin(x: string, y: string, p: string)
    requires WholeLines(x) && p != "" && Lacks(p, '\n') && Free(x, p) && Free(y, p)
    ensures Free(x + y, p)
  {
    forall k: nat ensures !Occurs(x + y, p, k) {
      if Occurs(x + y, p, k) {
        if k + |p| <= |x| {
          OccursLeft(x, y, p, k);
        } else if k >= |x| {
          OccursRight(x, y, p, k);
        } else {
          SpanHasBreak(x, y, p, k);
        }
      }
    }
  }

  /** As FreeJoin, for the occurrences that begin in the first part. */
  lemma FreeBefore(x: string, y: string, p: string, k: nat)
    requires WholeLines(x) && p != "" && Lacks(p, '\n') && Free(x, p) && k < |x|
    ensures !Occurs(x + y, p, k)
  {
    if Occurs(x + y, p, k) {
      if k + |p| <= |x| {
        OccursLeft(x, y, p, k);
      } else {
        SpanHasBreak(x, y, p, k);
      }
    }
  }

  /** A tag line has no tag other than its own. */
  lemma TagLine(tag: string, other: string, opening: bool, otherOpening: bool)
    requires TagOk(tag) && TagOk(other) && !(tag == other && opening == otherOpening)
    ensures var line := (if opening then OpenTag(tag) else CloseTag(tag)) + "\n";
      Free(ToLower(line), if otherOpening then OpenTag(other) else CloseTag(other))
  {
    var name := if opening then OpenTag(tag) else CloseTag(tag);
    var p := if otherOpening then OpenTag(other) else CloseTag(other);
    var line := name + "\n";
    LowerTag(tag, opening);
    TagsLackBreaks(other);
    forall k: nat ensures !Occurs(line, p, k) {
      if Occurs(line, p, k) {
        assert p[0] == '<' && line[k] == line[k..k + |p|][0];
        if k > 0 {
          TagCharAt(tag, opening, k);
        } else {
          SameTag(tag, other, opening, otherOpening, line, p);
        }
      }
    }
  }

  lemma LowerTag(tag: string, opening: bool)
    requires TagOk(tag)
    ensures var line := (if opening then OpenTag(tag) else CloseTag(tag)) + "\n"; ToLower(line) == line
  {
    var line := (if opening then OpenTag(tag) else CloseTag(tag)) + "\n";
    var offset := if opening then 1 else 2;
    forall i | 0 <= i < |line| ensures LowerChar(line[i]) == line[i] {
      if offset <= i < offset + |tag| { assert TagChar(tag[i - offset]); }
    }
  }

  lemma TagCharAt(tag: string, opening: bool, k: nat)
    requires TagOk(tag) && 0 < k < |(if opening then OpenTag(tag) else CloseTag(tag)) + "\n"|
    ensures ((if opening then OpenTag(tag) else CloseTag(tag)) + "\n")[k] != '<'
  {
    var offset := if opening then 1 else 2;
    if offset <= k < offset + |tag| { assert TagChar(tag[k - offset]); }
  }

  /** The characters before the first '>'. */
  function BeforeEnd(s: string): string { if s == "" || s[0] == '>' then "" else [s[0]] + BeforeEnd(s[1..]) }

  lemma {:induction false} BeforeEndIs(name: string, rest: string)
    requires forall i :: 0 <= i < |name| ==> TagChar(name[i])
    ensures BeforeEnd(name + ">" + rest) == name
  {
    if name != "" {
      var s := name + ">" + rest;
      assert TagChar(name[0]) && s[0] == name[0];
      assert s[1..] == name[1..] + ">" + rest;
      BeforeEndIs(name[1..], rest);
    } else {
      assert (name + ">" + rest)[0] == '>';
    }
  }

  lemma SameKind(tag: string, other: string, opening: bool, otherOpening: bool, line: string, p: string)
    requires TagOk(tag) && TagOk(other)
    requires line == (if opening then OpenTag(tag) else CloseTag(tag)) + "\n"
    requires p == if otherOpening then OpenTag(other) else CloseTag(other)
    requires Occurs(line, p, 0)
    ensures opening == otherOpening
  {
    assert TagChar(tag[0]) && TagChar(other[0]);
    assert p[1] == line[1] by { assert line[..|p|] == p; }
  }

  lemma SameName(opener: string, tag: string, other: string, line: string, p: string)
    requires TagOk(tag) && TagOk(other) && line == opener + tag + ">" + "\n" && p == opener + other + ">"
    requires Occurs(line, p, 0)
    ensures tag == other
  {
    var rest := line[|p|..];
    assert line == p + rest;
    assert line[|opener|..] == tag + ">" + "\n";
    assert line[|opener|..] == other + ">" + rest;
    BeforeEndIs(tag, "\n");
    BeforeEndIs(other, rest);
  }

  lemma SameTag(tag: string, other: string, opening: bool, otherOpening: bool, line: string, p: string)
    requires TagOk(tag) && TagOk(other)
    requires line == (if opening then OpenTag(tag) else CloseTag(tag)) + "\n"
    requires p == if otherOpening then OpenTag(other) else CloseTag(other)
    requires Occurs(line, p, 0)
    ensures tag == other && opening == otherOpening
  {
    SameKind(tag, other, opening, otherOpening, line, p);
    SameName(if opening then "<" else "</", tag, other, line, p);
  }

  // ---- pieces without a tag ----

  function Tag(tag: string, opening: bool): string { if opening then OpenTag(tag) else CloseTag(tag) }

  lemma TagShape(tag: string, opening: bool)
    requires TagOk(tag)
    ensures Tag(tag, opening) != "" && Lacks(Tag(tag, opening), '\n') && ToLower(Tag(tag, opening) + "\n") == Tag(tag, opening) + "\n"
  {
    TagsLackBreaks(tag);
    LowerTag(tag, opening);
  }

  lemma FreeThenBreak(x: string, p: string)
    requires p != "" && Lacks(p, '\n') && Free(x, p)
    ensures Free(x + "\n", p)
  {
    forall k: nat ensures !Occurs(x + "\n", p, k) {
      if Occurs(x + "\n", p, k) {
        if k + |p| <= |x| { OccursLeft(x, "\n", p, k); } else { EndsWithBreak(x, p, k); }
      }
    }
  }

  lemma EndsWithBreak(x: string, p: string, k: nat)
    requires Occurs(x + "\n", p, k) && k + |p| > |x| && p != ""
    ensures !Lacks(p, '\n')
  {
    assert p[|p| - 1] == (x + "\n")[k + |p| - 1];
  }

  /** The lower-cased parts of an inline block. */
  lemma LowerInline(tag: string, pem: string)
    requires TagOk(tag)
    ensures ToLower(InlinePem(tag, pem)) ==
      OpenTag(tag) + "\n" + (ToLower(TrimSpace(pem)) + "\n") + (CloseTag(tag) + "\n")
  {
    var p := TrimSpace(pem);
    TagShape(tag, true);
    TagShape(tag, false);
    LowerBreak();
    LowerJoin(p, "\n");
    LowerJoin(OpenTag(tag) + "\n", p + "\n");
    LowerJoin(OpenTag(tag) + "\n" + (p + "\n"), CloseTag(tag) + "\n");
  }

  lemma PemFree(pem: string, t: nat, opening: bool)
    requires t < |TAGS| && TagFree(TrimSpace(pem))
    ensures Free(ToLower(TrimSpace(pem)), Tag(TAGS[t], opening))
  {
  }

  /** A block has no tag but its own. */
  lemma BlockFree(tag: string, pem: string, t: nat, opening: bool)
    requires t < |TAGS| && TagOk(tag) && tag != TAGS[t] && TagFree(TrimSpace(pem))
    ensures Free(ToLower(InlinePem(tag, pem)), Tag(TAGS[t], opening))
  {
    var p := Tag(TAGS[t], opening);
    var body := ToLower(TrimSpace(pem));
    TagsOk(t);
    TagShape(TAGS[t], opening);
    TagLine(tag, TAGS[t], true, opening);
    TagLine(tag, TAGS[t], false, opening);
    LowerTag(tag, true);
    LowerTag(tag, false);
    PemFree(pem, t, opening);
    FreeThenBreak(body, p);
    LowerInline(tag, pem);
    FreeJoin(OpenTag(tag) + "\n", body + "\n", p);
    FreeJoin(OpenTag(tag) + "\n" + (body + "\n"), CloseTag(tag) + "\n", p);
  }

  lemma TagIndex(tag: string) returns (t: nat)
    requires tag in TAGS
    ensures t < |TAGS| && TAGS[t] == tag && TagOk(tag)
  {
    t :| t < |TAGS| && TAGS[t] == tag;
    TagsOk(t);
  }

  lemma PieceFree(p: Piece, t: nat, opening: bool)
    requires t < |TAGS| && PieceOk(p) && !(p.Block? && p.tag == TAGS[t])
    ensures Free(ToLower(TextOf(p)), Tag(TAGS[t], opening))
  {
    match p {
      case Lines(text) =>
      case Block(tag, pem) =>
        var own := TagIndex(tag);
        BlockFree(tag, pem, t, opening);
    }
  }

  ghost predicate Without(pieces: seq<Piece>, tag: string) {
    forall i :: 0 <= i < |pieces| ==> !(pieces[i].Block? && pieces[i].tag == tag)
  }

  lemma PieceWhole(p: Piece)
    requires PieceOk(p)
    ensures WholeLines(TextOf(p))
  {
  }

  lemma LowerWhole(s: string)
    requires WholeLines(s)
    ensures WholeLines(ToLower(s))
  {
  }

  lemma FreeSnoc(init: string, last: string, p: string)
    requires WholeLines(init) && WholeLines(last) && p != "" && Lacks(p, '\n') && Free(ToLower(init), p) && Free(ToLower(last), p)
    ensures WholeLines(init + last) && Free(ToLower(init + last), p)
  {
    LowerWhole(init);
    LowerJoin(init, last);
    FreeJoin(ToLower(init), ToLower(last), p);
  }

  lemma {:induction false} WrittenFree(pieces: seq<Piece>, t: nat, opening: bool)
    requires t < |TAGS| && PiecesOk(pieces) && Without(pieces, TAGS[t])
    ensures WholeLines(Written(pieces)) && Free(ToLower(Written(pieces)), Tag(TAGS[t], opening))
  {
    TagsOk(t);
    TagShape(TAGS[t], opening);
    if pieces != [] {
      var init, last := pieces[..|pieces| - 1], pieces[|pieces| - 1];
      assert PieceOk(last);
      WrittenFree(init, t, opening);
      PieceFree(last, t, opening);
      PieceWhole(last);
      JoinedSnoc(pieces, init, last, TextOf);
      FreeSnoc(Written(init), TextOf(last), Tag(TAGS[t], opening));
    }
  }

  // ---- one extraction ----

  /** The search finds a block whose tag does not occur before it and whose body is free of it. */
  lemma FindsFirst(low: string, before: string, body: string, after: string, tag: string)
    requires TagOk(tag) && WholeLines(before) && Free(before, OpenTag(tag)) && Free(body, CloseTag(tag))
    requires low == before + (OpenTag(tag) + "\n" + (body + "\n") + (CloseTag(tag) + "\n")) + after
    ensures FindBlock(low, tag) == Some((|before|, |before| + |OpenTag(tag)| + |body| + 2))
  {
    var open, close := OpenTag(tag), CloseTag(tag);
    TagsLackBreaks(tag);
    var rest := "\n" + (body + "\n") + (close + ("\n" + after));
    assert low == before + (open + rest);
    FirstOpen(low, before, open, rest);
    assert low[|before| + |open|..] == rest;
    FirstClose(rest, body, close, after);
  }

  lemma FirstClose(rest: string, body: string, close: string, after: string)
    requires close != "" && Lacks(close, '\n') && Free(body, close) && rest == "\n" + (body + "\n") + (close + ("\n" + after))
    ensures Index(rest, close) == |body| + 2
  {
    FreeThenBreak(body, close);
    FreeJoin("\n", body + "\n", close);
    FirstOpen(rest, "\n" + (body + "\n"), close, "\n" + after);
  }

  /** The first occurrence of a pattern after whole lines free of it. */
  lemma FirstOpen(t: string, before: string, p: string, after: string)
    requires WholeLines(before) && p != "" && Lacks(p, '\n') && Free(before, p) && t == before + (p + after)
    ensures Index(t, p) == |before|
  {
    assert t[|before|..|before| + |p|] == p;
    forall j: nat | j < |before| ensures !Occurs(t, p, j) { FreeBefore(before, p + after, p, j); }
    IndexAt(t, p, |before|);
  }

  lemma TrimPadded(p: string)
    requires TrimSpace(p) == p
    ensures TrimSpace("\n" + p + "\n") == p
  {
    var s := "\n" + p + "\n";
    assert s[1..] == p + "\n";
    if p == "" {
      assert s[1..] == "\n" && "\n"[1..] == "";
      assert TrimLeft("\n") == TrimLeft("");
    } else {
      TrimmedEnds(p);
      assert (p + "\n")[0] == p[0] && (p + "\n")[..|p|] == p;
      assert TrimLeft(s) == TrimLeft(p + "\n") == p + "\n";
      assert TrimRight(p + "\n") == TrimRight(p) == p;
    }
  }

  lemma {:induction false} TrimLeftShrinks(s: string)
    ensures |TrimLeft(s)| <= |s| && (|TrimLeft(s)| == |s| ==> s == "" || !IsSpace(s[0]))
  {
    if s != "" && IsSpace(s[0]) { TrimLeftShrinks(s[1..]); }
  }

  lemma {:induction false} TrimRightShrinks(s: string)
    ensures |TrimRight(s)| <= |s| && (|TrimRight(s)| == |s| ==> s == "" || !IsSpace(s[|s| - 1]))
  {
    if s != "" && IsSpace(s[|s| - 1]) { TrimRightShrinks(s[..|s| - 1]); }
  }

  lemma TrimmedEnds(p: string)
    requires TrimSpace(p) == p && p != ""
    ensures !IsSpace(p[0]) && !IsSpace(p[|p| - 1])
  {
    TrimLeftShrinks(p);
    TrimRightShrinks(TrimLeft(p));
    assert TrimLeft(p) == p;
  }

  const GAP := "\n\n"

  lemma GapOk()
    ensures PieceOk(Lines(GAP))
  {
    forall t | 0 <= t < |TAGS| ensures Free(ToLower(GAP), OpenTag(TAGS[t])) && Free(ToLower(GAP), CloseTag(TAGS[t])) {
      TagsOk(t);
      ShortIsFree(GAP, OpenTag(TAGS[t]));
      ShortIsFree(GAP, CloseTag(TAGS[t]));
    }
  }

  lemma ShortIsFree(s: string, p: string)
    requires |s| < |p|
    ensures Free(ToLower(s), p)
  {
  }

  /** What is between the tags of a written block, and what remains when the block is cut out. */
  lemma BlockSlices(before: string, tag: string, p: string, after: string, body: string)
    requires body == before + (OpenTag(tag) + "\n" + (p + "\n") + (CloseTag(tag) + "\n")) + after
    ensures var i, j := |before|, |before| + |OpenTag(tag)| + |p| + 2;
      && i + |OpenTag(tag)| <= j && j + |CloseTag(tag)| <= |body|
      && body[i + |OpenTag(tag)|..j] == "\n" + p + "\n"
      && Cut(body, i, j + |CloseTag(tag)|) == before + GAP + after
  {
    var i, j := |before|, |before| + |OpenTag(tag)| + |p| + 2;
    assert body[..i] == before;
    assert body == (before + OpenTag(tag)) + (("\n" + p + "\n") + (CloseTag(tag) + "\n" + after));
    assert body == (before + OpenTag(tag) + ("\n" + p + "\n") + CloseTag(tag)) + ("\n" + after);
    assert body[j + |CloseTag(tag)|..] == "\n" + after;
  }

  lemma LowerBlock(before: string, tag: string, pem: string, after: string, body: string)
    requires TagOk(tag) && body == before + InlinePem(tag, pem) + after
    ensures ToLower(body) == ToLower(before)
      + (OpenTag(tag) + "\n" + (ToLower(TrimSpace(pem)) + "\n") + (CloseTag(tag) + "\n")) + ToLower(after)
  {
    LowerInline(tag, pem);
    LowerJoin(before + InlinePem(tag, pem), after);
    LowerJoin(before, InlinePem(tag, pem));
  }

  lemma PaddedIsTrimmed(pem: string, s: string)
    requires s == "\n" + TrimSpace(pem) + "\n"
    ensures TrimSpace(s) == TrimSpace(pem)
  {
    TrimTwice(pem);
    TrimPadded(TrimSpace(pem));
  }

  lemma FindsBlock(before: string, tag: string, pem: string, after: string, low: string)
    requires TagOk(tag) && WholeLines(before) && Free(ToLower(before), OpenTag(tag)) && Free(ToLower(TrimSpace(pem)), CloseTag(tag))
    requires low == ToLower(before + InlinePem(tag, pem) + after)
    ensures FindBlock(low, tag) == Some((|before|, |before| + |OpenTag(tag)| + |TrimSpace(pem)| + 2))
  {
    LowerBlock(before, tag, pem, after, before + InlinePem(tag, pem) + after);
    LowerWhole(before);
    FindsFirst(low, ToLower(before), ToLower(TrimSpace(pem)), ToLower(after), tag);
  }

  lemma StepOn(m: map<string, string>, body: string, tag: string, i: nat, j: nat, pem: string, cut: string)
    requires i + |OpenTag(tag)| <= j && j + |CloseTag(tag)| <= |body|
    requires TrimSpace(body[i + |OpenTag(tag)|..j]) == TrimSpace(pem) && cut == Cut(body, i, j + |CloseTag(tag)|)
    requires FindBlock(ToLower(body), tag) == Some((i, j))
    ensures Step(Extraction(m, body), tag) == Some(Extraction(m[tag := TrimSpace(pem) + "\n"], cut))
  {
    TakenIs(m, body, tag, i, j, body[i + |OpenTag(tag)|..j], cut);
    StepFollows(Extraction(m, body), tag, ToLower(body), Some((i, j)));
  }

  lemma StepFollows(e: Extraction, tag: string, low: string, at: Option<(nat, nat)>)
    requires low == ToLower(e.body) && FindBlock(low, tag) == at
    ensures Fits(e.body, tag, at) && Step(e, tag) == Taken(e, tag, at)
  {
  }

  lemma TakenIs(m: map<string, string>, body: string, tag: string, i: nat, j: nat, inner: string, cut: string)
    requires i + |OpenTag(tag)| <= j && j + |CloseTag(tag)| <= |body|
    requires inner == body[i + |OpenTag(tag)|..j] && cut == Cut(body, i, j + |CloseTag(tag)|)
    ensures Taken(Extraction(m, body), tag, Some((i, j))) == Some(Extraction(m[tag := TrimSpace(inner) + "\n"], cut))
  {
  }

  lemma BlockAround(before: string, tag: string, pem: string, after: string, body: string, i: nat, j: nat, cut: string)
    requires body == before + InlinePem(tag, pem) + after && cut == before + GAP + after
    requires i == |before| && j == |before| + |OpenTag(tag)| + |TrimSpace(pem)| + 2
    ensures i + |OpenTag(tag)| <= j && j + |CloseTag(tag)| <= |body|
    ensures TrimSpace(body[i + |OpenTag(tag)|..j]) == TrimSpace(pem) && cut == Cut(body, i, j + |CloseTag(tag)|)
  {
    BlockSlices(before, tag, TrimSpace(pem), after, body);
    PaddedIsTrimmed(pem, body[i + |OpenTag(tag)|..j]);
  }

  lemma StepTakesAt(m: map<string, string>, before: string, tag: string, pem: string, after: string, body: string)
    requires TagOk(tag) && WholeLines(before) && Free(ToLower(before), OpenTag(tag)) && Free(ToLower(TrimSpace(pem)), CloseTag(tag))
    requires body == before + InlinePem(tag, pem) + after
    ensures Step(Extraction(m, body), tag) == Some(Extraction(m[tag := TrimSpace(pem) + "\n"], before + GAP + after))
  {
    FindsBlock(before, tag, pem, after, ToLower(body));
    TakesAt(m, before, tag, pem, after, body);
  }

  lemma TakesAt(m: map<string, string>, before: string, tag: string, pem: string, after: string, body: string)
    requires body == before + InlinePem(tag, pem) + after
    requires FindBlock(ToLower(body), tag) == Some((|before|, |before| + |OpenTag(tag)| + |TrimSpace(pem)| + 2))
    ensures Step(Extraction(m, body), tag) == Some(Extraction(m[tag := TrimSpace(pem) + "\n"], before + GAP + after))
  {
    var i, j := |before|, |before| + |OpenTag(tag)| + |TrimSpace(pem)| + 2;
    BlockAround(before, tag, pem, after, body, i, j, before + GAP + after);
    StepOn(m, body, tag, i, j, pem, before + GAP + after);
  }

  /** Extraction takes the first block of a tag and leaves an empty line. */
  lemma StepTakes(m: map<string, string>, a: seq<Piece>, pem: string, after: string, t: nat, body: string)
    requires t < |TAGS| && PiecesOk(a) && Without(a, TAGS[t]) && TagFree(TrimSpace(pem))
    requires body == Written(a) + InlinePem(TAGS[t], pem) + after
    ensures Step(Extraction(m, body), TAGS[t]) ==
      Some(Extraction(m[TAGS[t] := TrimSpace(pem) + "\n"], Written(a) + GAP + after))
  {
    var tag, before := TAGS[t], Written(a);
    TagsOk(t);
    WrittenFree(a, t, true);
    PemFree(pem, t, false);
    StepTakesAt(m, before, tag, pem, after, body);
  }

  lemma StuckWithout(m: map<string, string>, pieces: seq<Piece>, t: nat)
    requires t < |TAGS| && PiecesOk(pieces) && Without(pieces, TAGS[t])
    ensures Step(Extraction(m, Written(pieces)), TAGS[t]) == None
  {
    WrittenFree(pieces, t, true);
    IndexNone(ToLower(Written(pieces)), OpenTag(TAGS[t]));
  }

  // ---- all extractions ----

  predicate Has(p: Piece, tag: string) { p.Block? && p.tag == tag }

  /** The pieces with the blocks of a tag replaced by empty lines. */
  function Strip(pieces: seq<Piece>, tag: string): (r: seq<Piece>)
    ensures |r| == |pieces|
  {
    if pieces == [] then [] else [if Has(pieces[0], tag) then Lines(GAP) else pieces[0]] + Strip(pieces[1..], tag)
  }

  /** The last block of a tag: the one that wins. */
  function LastPem(pieces: seq<Piece>, tag: string): Option<string> {
    if pieces == [] then None
    else
      var rest := LastPem(pieces[1..], tag);
      if rest.Some? then rest else if Has(pieces[0], tag) then Some(pieces[0].pem) else None
  }

  function Kept(m: map<string, string>, tag: string, pem: Option<string>): map<string, string> {
    if pem.Some? then m[tag := TrimSpace(pem.value) + "\n"] else m
  }

  lemma MovePiece(a: seq<Piece>, p: Piece, rest: seq<Piece>)
    ensures a + ([p] + rest) == (a + [p]) + rest
    ensures Written(a + ([p] + rest)) == Written(a) + TextOf(p) + Written(rest)
  {
    assert a + ([p] + rest) == (a + [p]) + rest;
    JoinedJoin(a + [p], rest, TextOf);
    JoinedSnoc(a + [p], a, p, TextOf);
  }

  lemma ExtractNext(e: Extraction, tag: string, next: Extraction)
    requires Step(e, tag) == Some(next)
    ensures ExtractTag(e, tag) == ExtractTag(next, tag)
  {
  }

  lemma ExtractStops(e: Extraction, tag: string)
    requires Step(e, tag) == None
    ensures ExtractTag(e, tag) == e
  {
  }

  /** The first piece is a block of the tag. */
  lemma TakesHead(m: map<string, string>, a: seq<Piece>, p: Piece, rest: seq<Piece>, t: nat, body: string, body': string)
    requires t < |TAGS| && PiecesOk(a) && Without(a, TAGS[t]) && PieceOk(p) && Has(p, TAGS[t])
    requires body == Written(a + ([p] + rest)) && body' == Written((a + [Lines(GAP)]) + rest)
    ensures ExtractTag(Extraction(m, body), TAGS[t]) == ExtractTag(Extraction(m[TAGS[t] := TrimSpace(p.pem) + "\n"], body'), TAGS[t])
  {
    MovePiece(a, p, rest);
    MovePiece(a, Lines(GAP), rest);
    StepTakes(m, a, p.pem, Written(rest), t, body);
    ExtractNext(Extraction(m, body), TAGS[t], Extraction(m[TAGS[t] := TrimSpace(p.pem) + "\n"], body'));
  }

  lemma StripHead(a: seq<Piece>, b: seq<Piece>, tag: string, p: Piece)
    requires b != [] && p == if Has(b[0], tag) then Lines(GAP) else b[0]
    ensures a + Strip(b, tag) == a + [p] + Strip(b[1..], tag)
  {
  }

  lemma PrefixOk(a: seq<Piece>, p: Piece, tag: string)
    requires PiecesOk(a) && Without(a, tag) && PieceOk(p) && !Has(p, tag)
    ensures PiecesOk(a + [p]) && Without(a + [p], tag)
  {
  }

  lemma KeptHead(m: map<string, string>, b: seq<Piece>, tag: string, m': map<string, string>)
    requires b != [] && m' == if Has(b[0], tag) then m[tag := TrimSpace(b[0].pem) + "\n"] else m
    ensures Kept(m, tag, LastPem(b, tag)) == Kept(m', tag, LastPem(b[1..], tag))
  {
  }

  /** The first piece, whether it is a block of the tag or not. */
  lemma ReadsHead(m: map<string, string>, a: seq<Piece>, b: seq<Piece>, t: nat, q: Piece, m': map<string, string>)
    requires t < |TAGS| && PiecesOk(a) && Without(a, TAGS[t]) && PiecesOk(b) && b != []
    requires q == if Has(b[0], TAGS[t]) then Lines(GAP) else b[0]
    requires m' == if Has(b[0], TAGS[t]) then m[TAGS[t] := TrimSpace(b[0].pem) + "\n"] else m
    ensures ExtractTag(Extraction(m, Written(a + b)), TAGS[t]) == ExtractTag(Extraction(m', Written((a + [q]) + b[1..])), TAGS[t])
    ensures PiecesOk(a + [q]) && Without(a + [q], TAGS[t])
  {
    GapOk();
    assert b == [b[0]] + b[1..] && PieceOk(b[0]);
    PrefixOk(a, q, TAGS[t]);
    if Has(b[0], TAGS[t]) {
      TakesHead(m, a, b[0], b[1..], t, Written(a + b), Written((a + [q]) + b[1..]));
    } else {
      MovePiece(a, b[0], b[1..]);
    }
  }

  /** Extracting one tag: every block of it goes, the last one is kept. */
  lemma {:induction false} ExtractsTag(m: map<string, string>, a: seq<Piece>, b: seq<Piece>, t: nat)
    requires t < |TAGS| && PiecesOk(a) && PiecesOk(b) && Without(a, TAGS[t])
    ensures ExtractTag(Extraction(m, Written(a + b)), TAGS[t]) ==
      Extraction(Kept(m, TAGS[t], LastPem(b, TAGS[t])), Written(a + Strip(b, TAGS[t])))
    decreases |b|
  {
    if b == [] {
      assert a + b == a;
      StuckWithout(m, a, t);
      ExtractStops(Extraction(m, Written(a)), TAGS[t]);
    } else {
      var q := if Has(b[0], TAGS[t]) then Lines(GAP) else b[0];
      var m' := if Has(b[0], TAGS[t]) then m[TAGS[t] := TrimSpace(b[0].pem) + "\n"] else m;
      ReadsHead(m, a, b, t, q, m');
      KeptHead(m, b, TAGS[t], m');
      StripHead(a, b, TAGS[t], q);
      ExtractsTag(m', a + [q], b[1..], t);
    }
  }

  function StripFirst(pieces: seq<Piece>, n: nat): (r: seq<Piece>)
    requires n <= |TAGS|
    ensures |r| == |pieces|
  {
    if n == 0 then pieces else Strip(StripFirst(pieces, n - 1), TAGS[n - 1])
  }

  lemma {:induction false} StripAt(pieces: seq<Piece>, tag: string, i: nat)
    requires i < |pieces|
    ensures Strip(pieces, tag)[i] == if Has(pieces[i], tag) then Lines(GAP) else pieces[i]
  {
    if i > 0 { StripAt(pieces[1..], tag, i - 1); }
  }

  lemma StripOk(pieces: seq<Piece>, tag: string)
    requires PiecesOk(pieces)
    ensures PiecesOk(Strip(pieces, tag))
  {
    GapOk();
    forall i | 0 <= i < |pieces| ensures PieceOk(Strip(pieces, tag)[i]) { StripAt(pieces, tag, i); }
  }

  lemma {:induction false} StripKeepsOthers(pieces: seq<Piece>, tag: string, other: string)
    requires tag != other
    ensures LastPem(Strip(pieces, tag), other) == LastPem(pieces, other)
  {
    if pieces != [] {
      StripKeepsOthers(pieces[1..], tag, other);
      assert Strip(pieces, tag)[1..] == Strip(pieces[1..], tag);
    }
  }

  lemma TagsDiffer(s: nat, t: nat)
    requires s < t < |TAGS|
    ensures TAGS[s] != TAGS[t]
  {
  }

  lemma {:induction false} StripFirstOk(pieces: seq<Piece>, n: nat)
    requires n <= |TAGS| && PiecesOk(pieces)
    ensures PiecesOk(StripFirst(pieces, n))
  {
    if n > 0 {
      StripFirstOk(pieces, n - 1);
      StripOk(StripFirst(pieces, n - 1), TAGS[n - 1]);
    }
  }

  /** Stripping the first tags leaves the blocks of any other tag. */
  lemma {:induction false} StripFirstKeeps(pieces: seq<Piece>, n: nat, other: string)
    requires n <= |TAGS| && forall i :: 0 <= i < n ==> TAGS[i] != other
    ensures LastPem(StripFirst(pieces, n), other) == LastPem(pieces, other)
  {
    if n > 0 {
      StripFirstKeeps(pieces, n - 1, other);
      StripKeepsOthers(StripFirst(pieces, n - 1), TAGS[n - 1], other);
    }
  }

  lemma StripFirstIs(pieces: seq<Piece>, n: nat, t: nat)
    requires n <= |TAGS| && PiecesOk(pieces) && n <= t < |TAGS|
    ensures PiecesOk(StripFirst(pieces, n)) && LastPem(StripFirst(pieces, n), TAGS[t]) == LastPem(pieces, TAGS[t])
  {
    forall i: nat | i < n ensures TAGS[i] != TAGS[t] { TagsDiffer(i, t); }
    StripFirstOk(pieces, n);
    StripFirstKeeps(pieces, n, TAGS[t]);
  }

  /** The blocks extracted for the first `n` tags. */
  function KeptFirst(pieces: seq<Piece>, n: nat): map<string, string>
    requires n <= |TAGS|
  {
    if n == 0 then map[] else Kept(KeptFirst(pieces, n - 1), TAGS[n - 1], LastPem(pieces, TAGS[n - 1]))
  }

  lemma NextTag(e: Extraction, n: nat)
    requires n < |TAGS|
    ensures ExtractTags(e, TAGS[..n + 1]) == ExtractTag(ExtractTags(e, TAGS[..n]), TAGS[n])
  {
    assert TAGS[..n + 1][..n] == TAGS[..n];
  }

  lemma ExtractsWhole(m: map<string, string>, b: seq<Piece>, t: nat)
    requires t < |TAGS| && PiecesOk(b)
    ensures ExtractTag(Extraction(m, Written(b)), TAGS[t]) == Extraction(Kept(m, TAGS[t], LastPem(b, TAGS[t])), Written(Strip(b, TAGS[t])))
  {
    ExtractsTag(m, [], b, t);
    assert [] + b == b && [] + Strip(b, TAGS[t]) == Strip(b, TAGS[t]);
  }

  lemma {:induction false} ExtractsFirst(pieces: seq<Piece>, n: nat)
    requires n <= |TAGS| && PiecesOk(pieces)
    ensures ExtractTags(Extraction(map[], Written(pieces)), TAGS[..n]) == Extraction(KeptFirst(pieces, n), Written(StripFirst(pieces, n)))
  {
    if n > 0 {
      ExtractsFirst(pieces, n - 1);
      NextTag(Extraction(map[], Written(pieces)), n - 1);
      StripFirstIs(pieces, n - 1, n - 1);
      ExtractsWhole(KeptFirst(pieces, n - 1), StripFirst(pieces, n - 1), n - 1);
    }
  }

  lemma {:induction false} KeptIs(pieces: seq<Piece>, n: nat, t: nat)
    requires t < |TAGS| && n <= |TAGS|
    ensures var m, pem := KeptFirst(pieces, n), LastPem(pieces, TAGS[t]);
      && (TAGS[t] in m <==> t < n && pem.Some?)
      && (t < n && pem.Some? ==> m[TAGS[t]] == TrimSpace(pem.value) + "\n")
  {
    if n > 0 {
      KeptIs(pieces, n - 1, t);
      if t < n - 1 { TagsDiffer(t, n - 1); }
      if n - 1 < t { TagsDiffer(n - 1, t); }
    }
  }

  lemma {:induction false} StrippedIs(pieces: seq<Piece>, n: nat, i: nat)
    requires n <= |TAGS| && i < |pieces|
    ensures StripFirst(pieces, n)[i] ==
      if pieces[i].Block? && pieces[i].tag in TAGS[..n] then Lines(GAP) else pieces[i]
  {
    if n > 0 {
      StrippedIs(pieces, n - 1, i);
      StripAt(StripFirst(pieces, n - 1), TAGS[n - 1], i);
      assert TAGS[..n] == TAGS[..n - 1] + [TAGS[n - 1]];
    }
  }

  /** A conf without its blocks: each one leaves an empty line. */
  function Bare(pieces: seq<Piece>): seq<Piece> { seq(|pieces|, i requires 0 <= i < |pieces| => if pieces[i].Block? then Lines(GAP) else pieces[i]) }

  /** From a conf of tag-free lines and inline blocks with tag-free material, extraction returns
      for every tag the trimmed material of its last block and a line break, and the conf with its
      blocks blanked out. */
  lemma ExtractionUndoesWriting(pieces: seq<Piece>, t: nat)
    requires PiecesOk(pieces) && t < |TAGS|
    ensures var e, pem := ExtractTags(Extraction(map[], Written(pieces)), TAGS), LastPem(pieces, TAGS[t]);
      && e.body == Written(Bare(pieces))
      && (TAGS[t] in e.blocks <==> pem.Some?)
      && (pem.Some? ==> e.blocks[TAGS[t]] == TrimSpace(pem.value) + "\n")
  {
    assert TAGS[..|TAGS|] == TAGS;
    ExtractsFirst(pieces, |TAGS|);
    KeptIs(pieces, |TAGS|, t);
    forall i | 0 <= i < |pieces| ensures StripFirst(pieces, |TAGS|)[i] == Bare(pieces)[i] {
      StrippedIs(pieces, |TAGS|, i);
      assert PieceOk(pieces[i]);
    }
    assert StripFirst(pieces, |TAGS|) == Bare(pieces);
  }
}
