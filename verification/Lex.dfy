/** Lexicographic order on integer sequences: OID arcs and the bytes of a string. */
module Lex {
  /** -1, 0 or 1, as the first difference decides; a proper prefix comes first. */
  function Compare(a: seq<int>, b: seq<int>): int {
    if |a| == 0 then if |b| == 0 then 0 else -1
    else if |b| == 0 then 1
    else if a[0] < b[0] then -1
    else if a[0] > b[0] then 1
    else Compare(a[1..], b[1..])
  }

  predicate Less(a: seq<int>, b: seq<int>) {
    Compare(a, b) < 0
  }

  lemma {:induction false} CompareRange(a: seq<int>, b: seq<int>)
    ensures -1 <= Compare(a, b) <= 1
    ensures Compare(a, b) == 0 <==> a == b
    ensures Compare(b, a) == -Compare(a, b)
  {
    if |a| > 0 && |b| > 0 && a[0] == b[0] {
      CompareRange(a[1..], b[1..]);
      assert a == [a[0]] + a[1..] && b == [b[0]] + b[1..];
    }
  }

  lemma {:induction false} LessTransitive(a: seq<int>, b: seq<int>, c: seq<int>)
    requires Compare(a, b) <= 0 && Compare(b, c) <= 0
    ensures Compare(a, c) <= 0
    ensures Less(a, b) || Less(b, c) ==> Less(a, c)
  {
    if |a| > 0 && |b| > 0 && |c| > 0 && a[0] == b[0] == c[0] {
      LessTransitive(a[1..], b[1..], c[1..]);
    }
  }

  lemma {:induction false} CommonPrefix(p: seq<int>, a: seq<int>, b: seq<int>)
    ensures Compare(p + a, p + b) == Compare(a, b)
  {
    if |p| == 0 {
      assert p + a == a && p + b == b;
    } else {
      assert (p + a)[1..] == p[1..] + a && (p + b)[1..] == p[1..] + b;
      CommonPrefix(p[1..], a, b);
    }
  }

  /** Independent reading of the order: `a < b` holds exactly when there is a first place
      where they part, and there `a` has ended or has the smaller entry. */
  lemma {:induction false} LessMeansFirstDifference(a: seq<int>, b: seq<int>)
    ensures Less(a, b) <==>
      exists k: nat :: k <= |a| && k < |b| && a[..k] == b[..k] && (k == |a| || a[k] < b[k])
  {
    if k: nat :| k <= |a| && k < |b| && a[..k] == b[..k] && (k == |a| || a[k] < b[k]) {
      CommonPrefix(a[..k], a[k..], b[k..]);
      assert a == a[..k] + a[k..] && b == a[..k] + b[k..];
    }
    if Less(a, b) {
      var k := FirstDifference(a, b);
    }
  }

  lemma {:induction false} FirstDifference(a: seq<int>, b: seq<int>) returns (k: nat)
    requires Less(a, b)
    ensures k <= |a| && k < |b| && a[..k] == b[..k] && (k == |a| || a[k] < b[k])
  {
    if |a| == 0 || a[0] < b[0] {
      k := 0;
    } else {
      var j := FirstDifference(a[1..], b[1..]);
      k := j + 1;
      assert a[..k] == [a[0]] + a[1..][..j] && b[..k] == [b[0]] + b[1..][..j];
    }
  }
}
