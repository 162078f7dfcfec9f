/** Repeating a step with and without an early stop, over any kind of cursor. */
module Repetition {
  /** The cursor after `r` steps. */
  ghost function At<C>(step: C -> C, c: C, r: nat): C {
    if r == 0 then c else step(At(step, c, r - 1))
  }

  /** The rows of `n` repetitions. */
  ghost function Full<C, V>(step: C -> C, row: C -> seq<V>, c: C, n: nat): seq<V> {
    if n == 0 then [] else Full(step, row, c, n - 1) + row(At(step, c, n - 1))
  }

  /** The rows of at most `n` repetitions, none after one that starts at an end. */
  ghost function Early<C, V>(step: C -> C, row: C -> seq<V>, end: C -> bool, c: C, n: nat): seq<V>
    decreases n
  {
    if n == 0 then [] else row(c) + if end(c) then [] else Early(step, row, end, step(c), n - 1)
  }

  /** How many of `n` repetitions are made, when the first `r` did not start at an end. */
  ghost function Made<C>(step: C -> C, end: C -> bool, c: C, r: nat, n: nat): (k: nat)
    requires r <= n
    ensures r <= k <= n && (r < n ==> r < k)
    decreases n - r
  {
    if r == n then n else if end(At(step, c, r)) then r + 1 else Made(step, end, c, r + 1, n)
  }

  lemma {:induction false} MadeStopsAtFirstEnd<C>(step: C -> C, end: C -> bool, c: C, r: nat, n: nat)
    requires r <= n
    ensures var k := Made(step, end, c, r, n);
      && (k < n ==> end(At(step, c, k - 1)))
      && forall j :: r <= j < k - 1 ==> !end(At(step, c, j))
    decreases n - r
  {
    if r < n && !end(At(step, c, r)) {
      MadeStopsAtFirstEnd(step, end, c, r + 1, n);
    }
  }

  lemma EarlyStep<C, V>(step: C -> C, row: C -> seq<V>, end: C -> bool, c: C, n: nat, sent: seq<V>)
    requires n > 0
    ensures sent + Early(step, row, end, c, n)
      == if end(c) then sent + row(c) else sent + row(c) + Early(step, row, end, step(c), n - 1)
  {
    assert row(c) + [] == row(c);
  }

  lemma EarlyFront<C, V>(step: C -> C, row: C -> seq<V>, end: C -> bool, c: C, n: nat)
    requires n > 0 && !end(c)
    ensures Early(step, row, end, c, n) == row(c) + Early(step, row, end, step(c), n - 1)
  {
  }

  lemma {:induction false} EarlyFrom<C, V>(step: C -> C, row: C -> seq<V>, end: C -> bool, c: C, r: nat, left: nat)
    ensures Full(step, row, c, r) + Early(step, row, end, At(step, c, r), left)
      == Full(step, row, c, Made(step, end, c, r, r + left))
    decreases left
  {
    if left == 0 {
      assert Full(step, row, c, r) + [] == Full(step, row, c, r);
    } else {
      EarlyStep(step, row, end, At(step, c, r), left, Full(step, row, c, r));
      if !end(At(step, c, r)) {
        EarlyFrom(step, row, end, c, r + 1, left - 1);
      }
    }
  }

  lemma EarlyIsPrefix<C, V>(step: C -> C, row: C -> seq<V>, end: C -> bool, c: C, n: nat)
    ensures Early(step, row, end, c, n) == Full(step, row, c, Made(step, end, c, 0, n))
  {
    EarlyFrom(step, row, end, c, 0, n);
    assert [] + Early(step, row, end, c, n) == Early(step, row, end, c, n);
  }

  /** A cursor that a step leaves in place is the cursor of every later repetition. */
  lemma {:induction false} FixedForEver<C>(step: C -> C, c: C, from: nat, r: nat)
    requires from <= r && step(At(step, c, from)) == At(step, c, from)
    ensures At(step, c, r) == At(step, c, from)
  {
    if from < r {
      FixedForEver(step, c, from, r - 1);
    }
  }
}
