/**
 * The arithmetic of the final report, computed from the recorded leaf
 * levels: an integer average and a maximum that defaults to 0.
 */
module Report {
  import opened Dom
  import opened Census

  /** The sum of the recorded levels. */
  function Sum(ds: seq<nat>): nat {
    if ds == [] then 0 else Sum(ds[..|ds| - 1]) + ds[|ds| - 1]
  }

  /**
   * The average depth: the sum divided by the count, rounded down.  The
   * report divides without a guard, so the count must be positive.
   */
  function AverageDepth(ds: seq<nat>): (r: nat)
    requires |ds| > 0
    ensures r * |ds| <= Sum(ds) < (r + 1) * |ds|
  {
    Sum(ds) / |ds|
  }

  /** The largest recorded level, or 0 when nothing was recorded. */
  function MaxDepth(ds: seq<nat>): (r: nat)
    ensures ds == [] ==> r == 0
    ensures ds != [] ==> r in ds
    ensures forall i :: 0 <= i < |ds| ==> ds[i] <= r
  {
    if ds == [] then 0 else
      var m, d := MaxDepth(ds[..|ds| - 1]), ds[|ds| - 1];
      if m < d then d else m
  }

  /** The maximum of two recorded runs, one after the other, is the larger of their maxima. */
  lemma MaxDepthAppend(a: seq<nat>, b: seq<nat>)
    ensures MaxDepth(a + b) == if MaxDepth(a) < MaxDepth(b) then MaxDepth(b) else MaxDepth(a)
  {
    var m, ma, mb := MaxDepth(a + b), MaxDepth(a), MaxDepth(b);
    forall i | 0 <= i < |a| ensures a[i] <= m { assert a[i] == (a + b)[i]; }
    forall i | 0 <= i < |b| ensures b[i] <= m { assert b[i] == (a + b)[|a| + i]; }
    if a + b != [] {
      assert m in a || m in b;
    }
  }

  /** The sum of the levels is at most their count times their maximum. */
  lemma {:induction false} SumAtMostCountTimesMax(ds: seq<nat>)
    ensures Sum(ds) <= |ds| * MaxDepth(ds)
  {
    if ds != [] {
      var init, last := ds[..|ds| - 1], ds[|ds| - 1];
      var k, m := |init|, MaxDepth(ds);
      SumAtMostCountTimesMax(init);
      MaxDepthAppend(init, [last]);
      assert init + [last] == ds;
      StepBound(Sum(init), k, MaxDepth(init), last, m);
    }
  }

  /** One more level, no larger than the maximum, keeps the sum within the bound. */
  lemma StepBound(sum: nat, k: nat, m0: nat, d: nat, m: nat)
    requires sum <= k * m0 && m0 <= m && d <= m
    ensures sum + d <= (k + 1) * m
  {
    MulMonotone(k, m0, m);
    assert (k + 1) * m == k * m + m;
  }

  /** Multiplication by a natural number preserves order. */
  lemma MulMonotone(k: nat, x: nat, y: nat)
    requires x <= y
    ensures k * x <= k * y
  {
  }

  /** The average never exceeds the maximum. */
  lemma AverageAtMostMax(ds: seq<nat>)
    requires |ds| > 0
    ensures AverageDepth(ds) <= MaxDepth(ds)
  {
    SumAtMostCountTimesMax(ds);
    QuotientBound(Sum(ds), |ds|, MaxDepth(ds));
  }

  /** A quotient is at most m when the dividend is at most m times the divisor. */
  lemma QuotientBound(sum: nat, k: nat, m: nat)
    requires k > 0 && sum <= k * m
    ensures sum / k <= m
  {
    var r := sum / k;
    assert r * k <= sum;
    if r > m {
      MulMonotone(k, m + 1, r);
    }
  }

  /** The reported maximum of a subtree's leaf levels is its level plus its height. */
  lemma {:induction false} MaxLeafDepthIsHeight(level: nat, n: Node)
    ensures MaxDepth(LeafDepths(level, n)) == level + Height(n)
    decreases n
  {
    if |n.children| > 0 {
      MaxLeafDepthIsHeightIn(level + 1, n.children);
    }
  }

  lemma {:induction false} MaxLeafDepthIsHeightIn(level: nat, ns: seq<Node>)
    requires ns != []
    ensures MaxDepth(LeafDepthsIn(level, ns)) == level + HeightIn(ns)
    decreases ns
  {
    var init, last := ns[..|ns| - 1], ns[|ns| - 1];
    MaxLeafDepthIsHeight(level, last);
    if init == [] {
      assert LeafDepthsIn(level, ns) == LeafDepths(level, last);
    } else {
      MaxLeafDepthIsHeightIn(level, init);
      MaxDepthAppend(LeafDepthsIn(level, init), LeafDepths(level, last));
    }
  }
}
