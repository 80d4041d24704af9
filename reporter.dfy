/**
 * The reporter: the single consumer of the records the probes emit. It
 * folds every request record into a windowed summary (a count, a duration
 * sum, sentinel-0 fastest and slowest durations, compression and reuse
 * counts, and a status-code histogram), passes session records through to
 * the report, and on every tick reports the window in whole milliseconds
 * and starts an empty one.
 *
 * The channel is replaced by calls to `Receive`, the ticker by calls to
 * `Tick`, and the printed lines by values appended to `output`.
 */
module Reporter {

  import opened Wrappers
  import opened Arith
  import opened Stats
  import opened Records
  import opened Histograms
  import Poller

  /** The window's request statistics. */
  datatype RequestSummary = RequestSummary(
    requests: int, reqFastest: int, reqSlowest: int, reqTotal: int,
    compression: int, tcpreuse: int, statusCodes: map<int, int>)

  const EmptySummary: RequestSummary := RequestSummary(0, 0, 0, 0, 0, 0, map[])

  /** The figures of one window report: counts, and durations in whole milliseconds. */
  datatype Figures = Figures(
    requests: int, tcpreuse: int, compression: int,
    avgMilli: int, fastestMilli: int, slowestMilli: int, codes: map<int, int>)

  /** One line of the report: a session record passed through, or a window summary. */
  datatype Line = SessionLine(session: Record) | SummaryLine(figures: Figures)

  /**
   * A session record with no duration: the one a probe emits before its first
   * session, and a session superseded at the instant it started.
   */
  predicate Ignored(event: Record)
  {
    IsSession in event && Get(event, TimeNano) == 0
  }

  /** A session record that is passed through to the report. */
  predicate Reported(event: Record)
  {
    IsSession in event && Get(event, TimeNano) != 0
  }

  /** A record that is folded into the window: a request record, unless it is ignored. */
  predicate Counted(event: Record)
  {
    IsRequest in event && !Ignored(event)
  }

  /**
   * One request record folded into the summary: one more request, its
   * duration added to the total and taking the sentinel-0 fastest and
   * slowest steps, its compression and reuse flags added, and its status
   * code (0 when it has none) tallied.
   */
  function Add(s: RequestSummary, event: Record): RequestSummary
  {
    var t := Get(event, TimeNano);
    RequestSummary(
      s.requests + 1, Faster(s.reqFastest, t), Slower(s.reqSlowest, t), s.reqTotal + t,
      s.compression + Get(event, Compression), s.tcpreuse + Get(event, TCPreuse),
      Tally(s.statusCodes, Get(event, StatusCode)))
  }

  /** The summary of a window holding the given request records, in order. */
  function Summarize(window: seq<Record>): RequestSummary
  {
    if window == [] then EmptySummary
    else Add(Summarize(window[..|window| - 1]), window[|window| - 1])
  }

  lemma SummarizeSnoc(window: seq<Record>, event: Record)
    ensures Summarize(window + [event]) == Add(Summarize(window), event)
  {
    assert (window + [event])[..|window|] == window;
  }

  /**
   * The summary holds the statistics of the window's columns: the number of
   * request records, the sentinel-0 fastest and slowest duration, the sums
   * of the duration, compression and reuse columns, and the histogram of the
   * status-code column.
   */
  lemma {:induction false} SummaryIsColumnStats(window: seq<Record>)
    ensures Summarize(window) == RequestSummary(
      |window|, Fastest(Column(window, TimeNano)), Slowest(Column(window, TimeNano)),
      Sum(Column(window, TimeNano)), Sum(Column(window, Compression)), Sum(Column(window, TCPreuse)),
      Histogram(Column(window, StatusCode)))
  {
    if window != [] {
      var init, r := window[..|window| - 1], window[|window| - 1];
      assert window == init + [r];
      SummaryIsColumnStats(init);
      ColumnSnoc(init, r, TimeNano);
      ColumnSnoc(init, r, Compression);
      ColumnSnoc(init, r, TCPreuse);
      ColumnSnoc(init, r, StatusCode);
      Stats.Snoc(Column(init, TimeNano), Get(r, TimeNano));
      Stats.Snoc(Column(init, Compression), Get(r, Compression));
      Stats.Snoc(Column(init, TCPreuse), Get(r, TCPreuse));
      Histograms.Snoc(Column(init, StatusCode), Get(r, StatusCode));
    }
  }

  /**
   * The histogram of a window has exactly the status codes seen in it as
   * keys (0 standing for a record without one), maps each to the number of
   * records that carry it, and its counts add up to the number of requests.
   */
  lemma WindowHistogram(window: seq<Record>)
    ensures forall c :: c in Summarize(window).statusCodes <==>
      exists i :: 0 <= i < |window| && Get(window[i], StatusCode) == c
    ensures forall c :: c in Summarize(window).statusCodes ==>
      Summarize(window).statusCodes[c] == multiset(Column(window, StatusCode))[c]
    ensures SumValues(Summarize(window).statusCodes) == Summarize(window).requests
  {
    var codes := Column(window, StatusCode);
    SummaryIsColumnStats(window);
    HistogramCounts(codes);
    ColumnAt(window, StatusCode);
    forall c
      ensures c in codes <==> exists i :: 0 <= i < |window| && Get(window[i], StatusCode) == c
    {
      if c in codes {
        var i :| 0 <= i < |codes| && codes[i] == c;
        assert Get(window[i], StatusCode) == c;
      }
    }
  }

  /**
   * With non-negative durations the window's slowest is its largest
   * duration (0 for an empty window) and its fastest is no larger; with
   * positive durations its fastest is the smallest.
   */
  lemma WindowExtremes(window: seq<Record>)
    requires NonNegative(Column(window, TimeNano))
    ensures window == [] ==> Summarize(window).reqSlowest == 0
    ensures window != [] ==> Summarize(window).reqSlowest == Max(Column(window, TimeNano))
    ensures 0 <= Summarize(window).reqFastest <= Summarize(window).reqSlowest
    ensures window != [] && Positive(Column(window, TimeNano)) ==>
              Summarize(window).reqFastest == Min(Column(window, TimeNano))
  {
    var times := Column(window, TimeNano);
    SummaryIsColumnStats(window);
    SlowestIsMax(times);
    FastestNotAboveSlowest(times);
    if window != [] && Positive(times) {
      FastestIsMin(times);
    }
  }

  /**
   * printRequestSummary: nothing for a window without requests; otherwise
   * the counts, and the average, fastest and slowest durations converted
   * from nanoseconds with Go's truncating division.
   */
  function Printed(s: RequestSummary): (f: Option<Figures>)
    ensures f.None? <==> s.requests == 0
    ensures f.Some? ==> f.value.requests == s.requests && f.value.codes == s.statusCodes
  {
    if s.requests == 0 then None
    else Some(Figures(
      s.requests, s.tcpreuse, s.compression,
      Quo(Quo(Quo(s.reqTotal, s.requests), 1000), 1000),
      Quo(Quo(s.reqFastest, 1000), 1000),
      Quo(Quo(s.reqSlowest, 1000), 1000),
      s.statusCodes))
  }

  /**
   * With non-negative figures the printed values are whole milliseconds:
   * the total divided by requests times a million, and the extremes
   * divided by a million, each rounded down.
   */
  lemma MillisecondFigures(s: RequestSummary)
    requires s.requests > 0 && s.reqTotal >= 0 && s.reqFastest >= 0 && s.reqSlowest >= 0
    ensures Printed(s).Some?
    ensures Printed(s).value.avgMilli == s.reqTotal / (s.requests * 1000000)
    ensures Printed(s).value.fastestMilli == s.reqFastest / 1000000
    ensures Printed(s).value.slowestMilli == s.reqSlowest / 1000000
  {
    var n, total := s.requests, s.reqTotal;
    var perRequest := total / n;
    assert Quo(total, n) == perRequest;
    DivDiv(total, n, 1000);
    assert Quo(perRequest, 1000) == total / (n * 1000);
    DivDiv(total, n * 1000, 1000);
    assert n * 1000 * 1000 == n * 1000000;
    DivDiv(s.reqFastest, 1000, 1000);
    DivDiv(s.reqSlowest, 1000, 1000);
  }

  /** The mean of non-empty samples lies between the smallest and the largest, after rounding down. */
  lemma MeanBetween(ts: seq<int>)
    requires ts != []
    ensures Min(ts) <= Sum(ts) / |ts| <= Max(ts)
  {
    SumBetween(ts);
    DivMonotone(|ts| * Min(ts), Sum(ts), |ts|);
    DivMonotone(Sum(ts), |ts| * Max(ts), |ts|);
    MulDivCancel(Min(ts), |ts|);
    MulDivCancel(Max(ts), |ts|);
  }

  /**
   * What a tick reports for a window: nothing when it is empty; otherwise
   * one figure per request record, the reuse and compression counts, the
   * status-code histogram, and, with non-negative durations, the mean and
   * the largest duration in whole milliseconds, the fastest no larger than
   * the slowest. With positive durations the fastest is the smallest
   * duration, and the average lies between the fastest and the slowest.
   */
  lemma WindowReport(window: seq<Record>)
    ensures window == [] ==> Printed(Summarize(window)) == None
    ensures window != [] ==>
      && Printed(Summarize(window)).Some?
      && Printed(Summarize(window)).value.requests == |window|
      && Printed(Summarize(window)).value.tcpreuse == Sum(Column(window, TCPreuse))
      && Printed(Summarize(window)).value.compression == Sum(Column(window, Compression))
      && Printed(Summarize(window)).value.codes == Histogram(Column(window, StatusCode))
    ensures window != [] && NonNegative(Column(window, TimeNano)) ==>
      && Printed(Summarize(window)).value.avgMilli == Sum(Column(window, TimeNano)) / |window| / 1000000
      && Printed(Summarize(window)).value.slowestMilli == Max(Column(window, TimeNano)) / 1000000
      && 0 <= Printed(Summarize(window)).value.fastestMilli <= Printed(Summarize(window)).value.slowestMilli
    ensures window != [] && Positive(Column(window, TimeNano)) ==>
      && Printed(Summarize(window)).value.fastestMilli == Min(Column(window, TimeNano)) / 1000000
      && Printed(Summarize(window)).value.fastestMilli <= Printed(Summarize(window)).value.avgMilli
      && Printed(Summarize(window)).value.avgMilli <= Printed(Summarize(window)).value.slowestMilli
  {
    var s, times := Summarize(window), Column(window, TimeNano);
    SummaryIsColumnStats(window);
    if window != [] && NonNegative(times) {
      WindowExtremes(window);
      SumNonNegative(times);
      MillisecondFigures(s);
      DivDiv(Sum(times), |window|, 1000000);
      DivMonotone(s.reqFastest, s.reqSlowest, 1000000);
      if Positive(times) {
        MeanBetween(times);
        DivMonotone(Min(times), Sum(times) / |window|, 1000000);
        DivMonotone(Sum(times) / |window|, Max(times), 1000000);
      }
    }
  }

  /** A sum of non-negative samples is non-negative. */
  lemma {:induction false} SumNonNegative(ts: seq<int>)
    requires NonNegative(ts)
    ensures Sum(ts) >= 0
  {
    if ts != [] {
      var init := ts[..|ts| - 1];
      assert NonNegative(init);
      SumNonNegative(init);
    }
  }

  /** The first five durations of the example, in nanoseconds: 26 ms in total, 1 ms to 9 ms. */
  lemma ExampleFirstHalf()
    ensures Sum([5000000, 3000000, 8000000, 1000000, 9000000]) == 26000000
    ensures Fastest([5000000, 3000000, 8000000, 1000000, 9000000]) == 1000000
    ensures Slowest([5000000, 3000000, 8000000, 1000000, 9000000]) == 9000000
  {
    Stats.Snoc([], 5000000);
    assert [] + [5000000] == [5000000];
    Stats.Snoc([5000000], 3000000);
    assert [5000000] + [3000000] == [5000000, 3000000];
    Stats.Snoc([5000000, 3000000], 8000000);
    assert [5000000, 3000000] + [8000000] == [5000000, 3000000, 8000000];
    Stats.Snoc([5000000, 3000000, 8000000], 1000000);
    assert [5000000, 3000000, 8000000] + [1000000] == [5000000, 3000000, 8000000, 1000000];
    Stats.Snoc([5000000, 3000000, 8000000, 1000000], 9000000);
    assert [5000000, 3000000, 8000000, 1000000] + [9000000] == [5000000, 3000000, 8000000, 1000000, 9000000];
  }

  /** All ten durations of the example, in nanoseconds: 45 ms in total, 0 ms to 9 ms. */
  lemma ExampleDurations()
    ensures Sum([5000000, 3000000, 8000000, 1000000, 9000000, 2000000, 4000000, 7000000, 6000000, 0]) == 45000000
    ensures Fastest([5000000, 3000000, 8000000, 1000000, 9000000, 2000000, 4000000, 7000000, 6000000, 0]) == 0
    ensures Slowest([5000000, 3000000, 8000000, 1000000, 9000000, 2000000, 4000000, 7000000, 6000000, 0]) == 9000000
  {
    ExampleFirstHalf();
    Stats.Snoc([5000000, 3000000, 8000000, 1000000, 9000000], 2000000);
    assert [5000000, 3000000, 8000000, 1000000, 9000000] + [2000000] == [5000000, 3000000, 8000000, 1000000, 9000000, 2000000];
    Stats.Snoc([5000000, 3000000, 8000000, 1000000, 9000000, 2000000], 4000000);
    assert [5000000, 3000000, 8000000, 1000000, 9000000, 2000000] + [4000000] == [5000000, 3000000, 8000000, 1000000, 9000000, 2000000, 4000000];
    Stats.Snoc([5000000, 3000000, 8000000, 1000000, 9000000, 2000000, 4000000], 7000000);
    assert [5000000, 3000000, 8000000, 1000000, 9000000, 2000000, 4000000] + [7000000] == [5000000, 3000000, 8000000, 1000000, 9000000, 2000000, 4000000, 7000000];
    Stats.Snoc([5000000, 3000000, 8000000, 1000000, 9000000, 2000000, 4000000, 7000000], 6000000);
    assert [5000000, 3000000, 8000000, 1000000, 9000000, 2000000, 4000000, 7000000] + [6000000] == [5000000, 3000000, 8000000, 1000000, 9000000, 2000000, 4000000, 7000000, 6000000];
    Stats.Snoc([5000000, 3000000, 8000000, 1000000, 9000000, 2000000, 4000000, 7000000, 6000000], 0);
    assert [5000000, 3000000, 8000000, 1000000, 9000000, 2000000, 4000000, 7000000, 6000000] + [0] == [5000000, 3000000, 8000000, 1000000, 9000000, 2000000, 4000000, 7000000, 6000000, 0];
  }

  /**
   * A window whose requests took 5, 3, 8, 1, 9, 2, 4, 7, 6 and 0 ms, in that
   * order, is reported with an average of 4 ms (45 ms over 10, rounded
   * down), a fastest of 0 ms (the last request undercuts 1 ms) and a
   * slowest of 9 ms, whatever its other columns hold.
   */
  lemma TimingExample(window: seq<Record>)
    requires Column(window, TimeNano) == [5000000, 3000000, 8000000, 1000000, 9000000, 2000000, 4000000, 7000000, 6000000, 0]
    ensures Printed(Summarize(window)).Some?
    ensures Printed(Summarize(window)).value.avgMilli == 4
    ensures Printed(Summarize(window)).value.fastestMilli == 0
    ensures Printed(Summarize(window)).value.slowestMilli == 9
  {
    SummaryIsColumnStats(window);
    ExampleDurations();
  }

  /**
   * A session record a probe emits is reported exactly when its stamped
   * duration is non-zero; the one emitted when the first connection is
   * made, before any session has started, is always ignored. A session
   * record, which is never tagged as a request, is never counted.
   */
  lemma StampedSessionReported(session: Record, start: Option<int>, now: int)
    requires IsSession in session
    ensures var stamped := session[TimeNano := Poller.SessionDuration(start, now)];
      && (Reported(stamped) <==> Poller.SessionDuration(start, now) != 0)
      && (start.None? ==> Ignored(stamped))
      && (IsRequest !in session ==> !Counted(stamped))
  {
  }

  /**
   * Every request record a probe emits is counted, a failed one included,
   * and tallies its status code, 0 for a failed request.
   */
  lemma RequestRecordCounted(trace: Poller.Trace, outcome: Poller.Outcome)
    ensures Counted(Poller.RequestRecord(trace, outcome))
    ensures !Reported(Poller.RequestRecord(trace, outcome))
    ensures outcome.DoError? ==> Get(Poller.RequestRecord(trace, outcome), StatusCode) == 0
  {
    Poller.RequestRecordShape(trace, outcome);
    Poller.RequestRecordFields(trace, outcome);
  }

  /**
   * The fields of the summary updated for one request record: one more
   * request, its duration added and taking the fastest and slowest steps,
   * its flags added, and its status code tallied, a new code starting at 1.
   * The step written field by field; `Add` is the function it computes.
   */
  method CountRequest(summary: RequestSummary, event: Record) returns (s: RequestSummary)
    ensures s == Add(summary, event)
  {
    s := summary;
    var t := Get(event, TimeNano);
    s := s.(requests := s.requests + 1);
    s := s.(reqTotal := s.reqTotal + t);
    if s.reqFastest == 0 || t < s.reqFastest {
      s := s.(reqFastest := t);
    }
    if s.reqSlowest == 0 || t > s.reqSlowest {
      s := s.(reqSlowest := t);
    }
    s := s.(compression := s.compression + Get(event, Compression));
    s := s.(tcpreuse := s.tcpreuse + Get(event, TCPreuse));
    var code := Get(event, StatusCode);
    if code in s.statusCodes {
      s := s.(statusCodes := s.statusCodes[code := s.statusCodes[code] + 1]);
    } else {
      s := s.(statusCodes := s.statusCodes[code := 1]);
    }
  }

  class Aggregator {
    /** The summary of the current window, updated field by field. */
    var summary: RequestSummary
    /** Every line reported so far, in order. */
    var output: seq<Line>
    /** The request records folded into the current window, in order. */
    ghost var window: seq<Record>

    ghost predicate Valid()
      reads this
    {
      summary == Summarize(window)
    }

    constructor ()
      ensures Valid()
      ensures summary == EmptySummary && window == [] && output == []
    {
      summary := EmptySummary;
      output := [];
      window := [];
    }

    /**
     * A record arrives. A session record without a duration is dropped; any
     * other session record is reported. A request record that is not dropped
     * is folded into the summary, its status code tallied.
     */
    method Receive(event: Record)
      requires Valid()
      modifies this
      ensures Valid()
      ensures window == old(window) + (if Counted(event) then [event] else [])
      ensures summary == (if Counted(event) then Add(old(summary), event) else old(summary))
      ensures output == old(output) + (if Reported(event) then [SessionLine(event)] else [])
    {
      if IsSession in event && Get(event, TimeNano) == 0 {
        return;
      }
      if IsSession in event {
        output := output + [SessionLine(event)];
      }
      if IsRequest in event {
        summary := CountRequest(summary, event);
        SummarizeSnoc(window, event);
        window := window + [event];
      }
    }

    /**
     * The ticker fires: the window is reported, unless it holds no request,
     * and a new, empty window starts.
     */
    method Tick()
      requires Valid()
      modifies this
      ensures Valid()
      ensures output == old(output) + (match Printed(old(summary))
        case None => []
        case Some(f) => [SummaryLine(f)])
      ensures summary == EmptySummary && window == []
    {
      var figures := Printed(summary);
      if figures.Some? {
        output := output + [SummaryLine(figures.value)];
      }
      summary := EmptySummary;
      window := [];
    }
  }
}
