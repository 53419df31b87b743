/** Events a fixed gap apart, and how many of them an interval can hold. */
module Spacing {

  ghost predicate Spaced(times: seq<int>, gap: int) {
    forall i :: 0 <= i < |times| - 1 ==> times[i + 1] - times[i] >= gap
  }

  lemma {:induction false} SpacedSpan(times: seq<int>, gap: int, i: nat, j: nat)
    requires Spaced(times, gap) && i <= j < |times|
    ensures times[j] - times[i] >= (j - i) * gap
    decreases j
  {
    if i < j {
      SpacedSpan(times, gap, i, j - 1);
      assert times[j - 1 + 1] - times[j - 1] >= gap;
      assert (j - i) * gap == (j - 1 - i) * gap + gap;
    }
  }

  /** At most span/gap + 1 of them lie in any interval of length `span`. */
  lemma SpacedCount(times: seq<int>, gap: int, i: nat, j: nat, lo: int, span: int)
    requires Spaced(times, gap) && gap > 0 && i <= j < |times|
    requires lo <= times[i] && times[j] <= lo + span
    ensures j - i + 1 <= span / gap + 1
  {
    SpacedSpan(times, gap, i, j);
    assert times[j] - times[i] <= span;
    QuotientBound(j - i, gap, span);
  }

  lemma QuotientBound(n: int, gap: int, span: int)
    requires gap > 0 && n * gap <= span
    ensures n <= span / gap
  {
    var q := span / gap;
    assert span < (q + 1) * gap;
    CancelFactor(n, q + 1, gap);
  }

  lemma CancelFactor(a: int, b: int, gap: int)
    requires gap > 0 && a * gap < b * gap
    ensures a < b
  {
    assert (b - a) * gap > 0;
  }
}
