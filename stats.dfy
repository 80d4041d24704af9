/**
 * Running statistics over a sequence of integer samples, as both the probe
 * (per session) and the reporter (per window) keep them: a sum, and a
 * fastest/slowest pair in which 0 stands for "no sample yet".
 *
 * Every fold here consumes the samples left to right, one at a time, so that
 * appending a sample to the sequence is one more step of the fold.
 */
module Stats {

  import opened Arith

  /** Sum of the samples. */
  function Sum(xs: seq<int>): int
  {
    if xs == [] then 0 else Sum(xs[..|xs| - 1]) + xs[|xs| - 1]
  }

  /** One step of the slowest-so-far update: replace when unset (0) or exceeded. */
  function Slower(cur: int, t: int): int
  {
    if cur == 0 || t > cur then t else cur
  }

  /** One step of the fastest-so-far update: replace when unset (0) or undercut. */
  function Faster(cur: int, t: int): int
  {
    if cur == 0 || t < cur then t else cur
  }

  /** The slowest-so-far after all samples, starting from the sentinel 0. */
  function Slowest(ts: seq<int>): int
  {
    if ts == [] then 0 else Slower(Slowest(ts[..|ts| - 1]), ts[|ts| - 1])
  }

  /** The fastest-so-far after all samples, starting from the sentinel 0. */
  function Fastest(ts: seq<int>): int
  {
    if ts == [] then 0 else Faster(Fastest(ts[..|ts| - 1]), ts[|ts| - 1])
  }

  /** Reference definition: the largest sample. */
  function Max(ts: seq<int>): int
    requires ts != []
  {
    if |ts| == 1 then ts[0]
    else
      var m := Max(ts[..|ts| - 1]);
      if ts[|ts| - 1] > m then ts[|ts| - 1] else m
  }

  /** Reference definition: the smallest sample. */
  function Min(ts: seq<int>): int
    requires ts != []
  {
    if |ts| == 1 then ts[0]
    else
      var m := Min(ts[..|ts| - 1]);
      if ts[|ts| - 1] < m then ts[|ts| - 1] else m
  }

  predicate NonNegative(ts: seq<int>)
  {
    forall i :: 0 <= i < |ts| ==> ts[i] >= 0
  }

  predicate Positive(ts: seq<int>)
  {
    forall i :: 0 <= i < |ts| ==> ts[i] > 0
  }

  /** Appending a sample is one more step of every fold. */
  lemma Snoc(xs: seq<int>, x: int)
    ensures Sum(xs + [x]) == Sum(xs) + x
    ensures Slowest(xs + [x]) == Slower(Slowest(xs), x)
    ensures Fastest(xs + [x]) == Faster(Fastest(xs), x)
  {
    assert (xs + [x])[..|xs|] == xs;
  }

  /** Max is attained and bounds every sample from above. */
  lemma {:induction false} MaxIsMaximum(ts: seq<int>)
    requires ts != []
    ensures Max(ts) in ts
    ensures forall i :: 0 <= i < |ts| ==> ts[i] <= Max(ts)
  {
    if |ts| > 1 {
      var init := ts[..|ts| - 1];
      MaxIsMaximum(init);
      assert forall i :: 0 <= i < |ts| - 1 ==> ts[i] == init[i];
    }
  }

  /** Min is attained and bounds every sample from below. */
  lemma {:induction false} MinIsMinimum(ts: seq<int>)
    requires ts != []
    ensures Min(ts) in ts
    ensures forall i :: 0 <= i < |ts| ==> Min(ts) <= ts[i]
  {
    if |ts| > 1 {
      var init := ts[..|ts| - 1];
      MinIsMinimum(init);
      assert forall i :: 0 <= i < |ts| - 1 ==> ts[i] == init[i];
    }
  }

  /**
   * With non-negative samples the sentinel-0 slowest-so-far is the true
   * maximum (and 0 when there is no sample).
   */
  lemma {:induction false} SlowestIsMax(ts: seq<int>)
    requires NonNegative(ts)
    ensures ts == [] ==> Slowest(ts) == 0
    ensures ts != [] ==> Slowest(ts) == Max(ts)
  {
    if |ts| > 1 {
      var init := ts[..|ts| - 1];
      assert NonNegative(init);
      SlowestIsMax(init);
      MaxIsMaximum(init);
    }
  }

  /** The fastest-so-far is always one of the samples once there is one. */
  lemma {:induction false} FastestIsSample(ts: seq<int>)
    requires ts != []
    ensures Fastest(ts) in ts
  {
    var init := ts[..|ts| - 1];
    if |ts| > 1 {
      FastestIsSample(init);
      assert Fastest(init) in ts;
    }
  }

  /**
   * With strictly positive samples the sentinel 0 never collides with a real
   * sample, and the fastest-so-far is the true minimum.
   */
  lemma {:induction false} FastestIsMin(ts: seq<int>)
    requires Positive(ts)
    requires ts != []
    ensures Fastest(ts) == Min(ts)
  {
    if |ts| > 1 {
      var init := ts[..|ts| - 1];
      assert Positive(init);
      FastestIsMin(init);
      MinIsMinimum(init);
    }
  }

  /** With non-negative samples the fastest never exceeds the slowest. */
  lemma FastestNotAboveSlowest(ts: seq<int>)
    requires NonNegative(ts)
    ensures 0 <= Fastest(ts) <= Slowest(ts)
  {
    SlowestIsMax(ts);
    if ts != [] {
      FastestIsSample(ts);
      MaxIsMaximum(ts);
    }
  }

  /**
   * The sentinel collides with a genuine zero sample: after [0, 5] the
   * fastest-so-far is 5, although a 0 was seen.
   */
  lemma ZeroSampleIsForgotten()
    ensures Fastest([0, 5]) == 5 && Min([0, 5]) == 0
  {
    assert [0, 5][..1] == [0];
    assert [0][..0] == [];
  }

  /** The sum lies between |ts| times the smallest and |ts| times the largest sample. */
  lemma {:induction false} SumBetween(ts: seq<int>)
    requires ts != []
    ensures |ts| * Min(ts) <= Sum(ts) <= |ts| * Max(ts)
  {
    var n, init, x := |ts| - 1, ts[..|ts| - 1], ts[|ts| - 1];
    if n == 0 {
      assert init == [];
    } else {
      SumBetween(init);
      MinIsMinimum(ts);
      MaxIsMaximum(ts);
      MinIsMinimum(init);
      MaxIsMaximum(init);
      assert Min(ts) <= Min(init) && Max(init) <= Max(ts);
      MulMonotone(n, Min(ts), Min(init));
      MulMonotone(n, Max(init), Max(ts));
      assert Sum(ts) == Sum(init) + x;
      assert |ts| * Min(ts) == n * Min(ts) + Min(ts);
      assert |ts| * Max(ts) == n * Max(ts) + Max(ts);
    }
  }
}
