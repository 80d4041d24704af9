/**
 * The status-code histogram of the reporter: a map from each observed code to
 * the number of times it was observed, built one observation at a time.
 */
module Histograms {

  /** Record one more observation of `c`: a new key starts at 1, a known key is incremented. */
  function Tally(h: map<int, int>, c: int): map<int, int>
  {
    if c in h then h[c := h[c] + 1] else h[c := 1]
  }

  /** The histogram of a sequence of observations, tallied left to right. */
  function Histogram(cs: seq<int>): map<int, int>
  {
    if cs == [] then map[] else Tally(Histogram(cs[..|cs| - 1]), cs[|cs| - 1])
  }

  /** Sum of all the counts in a histogram. */
  ghost function SumValues(h: map<int, int>): int
    decreases |h|
  {
    if exists k :: k in h then
      var k :| k in h;
      h[k] + SumValues(h - {k})
    else 0
  }

  lemma Snoc(cs: seq<int>, c: int)
    ensures Histogram(cs + [c]) == Tally(Histogram(cs), c)
  {
    assert (cs + [c])[..|cs|] == cs;
  }

  /** The sum of the counts does not depend on which key is taken out first. */
  lemma {:induction false} SumValuesRemove(h: map<int, int>, k: int)
    requires k in h
    ensures SumValues(h) == h[k] + SumValues(h - {k})
    decreases |h|
  {
    var j :| j in h && SumValues(h) == h[j] + SumValues(h - {j});
    if j != k {
      var hj, hk := h - {j}, h - {k};
      assert |hj| == |h| - 1 && |hk| == |h| - 1;
      SumValuesRemove(hj, k);
      SumValuesRemove(hk, j);
      assert hj - {k} == hk - {j};
    }
  }

  /** One more observation adds exactly one to the total. */
  lemma TallyAddsOne(h: map<int, int>, c: int)
    ensures SumValues(Tally(h, c)) == SumValues(h) + 1
  {
    var t := Tally(h, c);
    SumValuesRemove(t, c);
    if c in h {
      SumValuesRemove(h, c);
      assert t - {c} == h - {c};
    } else {
      assert t - {c} == h;
    }
  }

  /**
   * The histogram has exactly the observed codes as keys, maps each to its
   * number of occurrences, and its counts add up to the number of observations.
   */
  lemma {:induction false} HistogramCounts(cs: seq<int>)
    ensures forall c :: c in Histogram(cs) <==> c in cs
    ensures forall c :: c in Histogram(cs) ==> Histogram(cs)[c] == multiset(cs)[c]
    ensures SumValues(Histogram(cs)) == |cs|
  {
    if cs != [] {
      var init, c := cs[..|cs| - 1], cs[|cs| - 1];
      assert cs == init + [c];
      HistogramCounts(init);
      TallyAddsOne(Histogram(init), c);
    }
  }

  /** The observations [200, 200, 404, 200, 500] give {200: 3, 404: 1, 500: 1}. */
  lemma Example()
    ensures Histogram([200, 200, 404, 200, 500]) == map[200 := 3, 404 := 1, 500 := 1]
  {
    var cs := [200, 200, 404, 200, 500];
    HistogramCounts(cs);
    var h := Histogram(cs);
    assert multiset(cs) == multiset{200, 200, 404, 200, 500};
    assert forall c :: c in h <==> c == 200 || c == 404 || c == 500;
  }
}
