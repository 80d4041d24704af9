/**
 * One simulated client. The probe keeps a request record and a session
 * record, both maps from key to counter, and the start time of the live
 * session. A request tick resets the request record, issues one GET and
 * emits a copy of the record; the transport's GotConn callback, which fires
 * inside the request, is the only signal of a session boundary: a new
 * physical connection ends the live session, whose record is stamped with
 * its duration and emitted before a fresh session starts.
 *
 * The transport, the clock and the tickers are replaced by explicit inputs:
 * each tick is a method call, the trace callbacks of one request are a
 * `Trace` value, and the result of `client.Do` is an `Outcome`. Emitting to
 * the reporter's channel appends to `outbox`.
 *
 * The helpers resetRequest, resetSession and updateSession mutate the map
 * they are given; here each takes the map and returns its new contents,
 * which the caller stores back.
 */
module Poller {

  import opened Wrappers
  import opened Stats
  import opened Records

  /** The statistic keys of a request record (all but its IsRequest tag). */
  const RequestStats: set<Key> :=
    {StatusCode, TimeNano, Error, ContentLength, Compression, TCPreuse, TLSstart, TLSsuccess, DNSstart, DNSsuccess}

  /** The keys a new session starts from zero. */
  const RollupKeys: set<Key> :=
    {ReqFastest, ReqSlowest, ReqSum, NumRequests, CompRequests, ClientClose, TimeNano, Error, TLSstart, TLSsuccess}

  /** The keys that folding one request into the session writes. */
  const SessionUpdates: set<Key> :=
    {NumRequests, Error, ReqSum, ReqFastest, ReqSlowest, CompRequests, TLSstart, TLSsuccess}

  /** The keys a session reset writes: the rollups and the two carried values. */
  const ResetKeys: set<Key> := RollupKeys + {PrevError, PrevClientClose}

  /** How `client.Do` ended: with a transport error, or with a response whose body was read. */
  datatype Outcome =
    | DoError(elapsed: nat)
    | Response(elapsed: nat, statusCode: int, bodyLength: nat, uncompressed: bool)

  /** The connection handed to a request, as the GotConn callback reports it, and when. */
  datatype Conn = Conn(reused: bool, at: int)

  /** The trace callbacks the transport fires while it runs one request. */
  datatype Trace = Trace(
    dnsStart: bool,       // DNSStart fired
    dnsSucceeded: bool,   // DNSDone fired without an error
    tlsStart: bool,       // TLSHandshakeStart fired
    tlsCompleted: bool,   // TLSHandshakeDone fired with a completed handshake
    conn: Option<Conn>)   // GotConn fired (not at all when no connection was obtained)

  predicate NewConnection(trace: Trace)
  {
    trace.conn.Some? && !trace.conn.value.reused
  }

  function Flag(b: bool): int
  {
    if b then 1 else 0
  }

  /**
   * The duration stamped on a session when a new connection supersedes it.
   * Before the first session there is no start time, and the duration is 0.
   */
  function SessionDuration(start: Option<int>, now: int): int
  {
    match start
    case None => 0
    case Some(s) => now - s
  }

  /**
   * With a clock that does not run backwards, a stamp is never negative, and
   * it is 0 exactly for the record emitted before the first session and for
   * a session superseded at the instant it started.
   */
  lemma SessionDurationNonNegative(start: Option<int>, now: int)
    requires start.Some? ==> start.value <= now
    ensures SessionDuration(start, now) >= 0
    ensures SessionDuration(start, now) == 0 <==> start.None? || start.value == now
  {
  }

  const NanosPerSecond: int := 1000000000

  /**
   * The duration stamp as the GotConn callback computes it, with instants
   * as nanosecond counts and the zero instant (never set) as 0. Whether a
   * session has started is tested by the start instant having a non-zero
   * nanosecond-of-second; only then is the end instant moved to `now`. The
   * result is the stamped duration and the end instant kept for next time.
   */
  function StampAsWritten(sStart: nat, sEnd: int, now: int): (int, int)
  {
    var end := if sStart % NanosPerSecond != 0 then now else sEnd;
    (end - sStart, end)
  }

  /**
   * Where the start-time test works, the stamp as written agrees with
   * `SessionDuration`: before the first session (start and end both the
   * zero instant) it is 0, and after a start instant with a non-zero
   * nanosecond-of-second it is the elapsed time.
   */
  lemma StampAsWrittenAgrees(sStart: nat, sEnd: int, now: int)
    ensures sStart == 0 && sEnd == 0 ==> StampAsWritten(sStart, sEnd, now).0 == SessionDuration(None, now)
    ensures sStart % NanosPerSecond != 0 ==> StampAsWritten(sStart, sEnd, now).0 == SessionDuration(Some(sStart), now)
  {
  }

  /**
   * A session that started on a whole second is stamped with a stale end
   * instant: started at 5 s and superseded at 7 s, with the end instant
   * still the zero instant, it is stamped -5 s instead of 2 s.
   */
  lemma StampAsWrittenOnWholeSecond()
    ensures StampAsWritten(5 * NanosPerSecond, 0, 7 * NanosPerSecond).0 == -5 * NanosPerSecond
    ensures SessionDuration(Some(5 * NanosPerSecond), 7 * NanosPerSecond) == 2 * NanosPerSecond
  {
  }

  /** A request record: tagged, and holding no key but the statistics. */
  predicate RequestShape(request: Record)
  {
    && request.Keys <= {IsRequest} + RequestStats
    && IsRequest in request && request[IsRequest] == 1
  }

  /**
   * A session record: tagged as a session and never as a request, holding
   * the lifetime, and holding a carried value only once the value it
   * carries exists.
   */
  predicate SessionShape(session: Record)
  {
    && IsSession in session && session[IsSession] == 1
    && IsRequest !in session
    && Lifetime in session
    && (PrevError in session ==> Error in session)
    && (PrevClientClose in session ==> ClientClose in session)
  }

  /** The record a reset leaves behind: the tag, and every statistic at 0. */
  const ZeroRequest: Record := map[
    IsRequest := 1, StatusCode := 0, TimeNano := 0, Error := 0, ContentLength := 0, Compression := 0,
    TCPreuse := 0, TLSstart := 0, TLSsuccess := 0, DNSstart := 0, DNSsuccess := 0]

  /** The flags the DNS and TLS callbacks set. */
  const TraceFlagKeys: set<Key> := {DNSstart, DNSsuccess, TLSstart, TLSsuccess}

  /** A reset request record once the DNS and TLS callbacks have fired. */
  function FlagsRecord(trace: Trace): Record
  {
    ZeroRequest
      [DNSstart := Flag(trace.dnsStart)]
      [DNSsuccess := Flag(trace.dnsSucceeded)]
      [TLSstart := Flag(trace.tlsStart)]
      [TLSsuccess := Flag(trace.tlsCompleted)]
  }

  /** The request record once all trace callbacks, GotConn last, have fired, before `client.Do` returns. */
  function TraceRecord(trace: Trace): Record
  {
    FlagsRecord(trace)[TCPreuse := Flag(trace.conn.Some? && trace.conn.value.reused)]
  }

  /** The request record once the outcome of `client.Do` is recorded in it. */
  function Recorded(r: Record, outcome: Outcome): Record
  {
    match outcome
    case DoError(elapsed) => r[Error := 1][TimeNano := elapsed]
    case Response(elapsed, status, bodyLength, uncompressed) =>
      var timed := r[TimeNano := elapsed][StatusCode := status];
      (if uncompressed then timed[Compression := 1] else timed)[ContentLength := bodyLength]
  }

  /** The request record one request tick produces, from the tick's inputs alone. */
  function RequestRecord(trace: Trace, outcome: Outcome): Record
  {
    Recorded(TraceRecord(trace), outcome)
  }

  /** Recording an outcome writes only statistic keys, all of which a reset record already holds. */
  lemma RecordedKeys(r: Record, outcome: Outcome)
    requires {IsRequest} + RequestStats <= r.Keys
    ensures Recorded(r, outcome).Keys == r.Keys
    ensures Recorded(r, outcome)[IsRequest] == r[IsRequest]
  {
  }

  /** A request record holds exactly the tag and the ten statistics. */
  lemma RequestRecordShape(trace: Trace, outcome: Outcome)
    ensures RequestRecord(trace, outcome).Keys == {IsRequest} + RequestStats
    ensures RequestShape(RequestRecord(trace, outcome))
  {
    assert TraceRecord(trace).Keys == ZeroRequest.Keys == {IsRequest} + RequestStats;
    RecordedKeys(TraceRecord(trace), outcome);
  }

  /**
   * What a request record reports: a failed request has error 1 and no
   * status code, body or compression; a response has error 0; the duration
   * is the request's; every flag is 1 exactly when its callback fired.
   */
  lemma RequestRecordFields(trace: Trace, outcome: Outcome)
    ensures RequestRecord(trace, outcome)[TimeNano] == outcome.elapsed
    ensures RequestRecord(trace, outcome)[Error] == Flag(outcome.DoError?)
    ensures RequestRecord(trace, outcome)[StatusCode] == (if outcome.Response? then outcome.statusCode else 0)
    ensures RequestRecord(trace, outcome)[ContentLength] == (if outcome.Response? then outcome.bodyLength else 0)
    ensures RequestRecord(trace, outcome)[Compression] == Flag(outcome.Response? && outcome.uncompressed)
    ensures RequestRecord(trace, outcome)[TCPreuse] == Flag(trace.conn.Some? && trace.conn.value.reused)
    ensures RequestRecord(trace, outcome)[TLSstart] == Flag(trace.tlsStart)
    ensures RequestRecord(trace, outcome)[TLSsuccess] == Flag(trace.tlsCompleted)
    ensures RequestRecord(trace, outcome)[DNSstart] == Flag(trace.dnsStart)
    ensures RequestRecord(trace, outcome)[DNSsuccess] == Flag(trace.dnsSucceeded)
  {
  }

  /** The rollups of a session record: what it says about the requests of the session. */
  datatype Rollups = Rollups(
    numRequests: int, errors: int, reqSum: int, reqFastest: int, reqSlowest: int,
    compRequests: int, tlsStarts: int, tlsSuccesses: int)

  /** The rollups a session record holds, a missing key read as 0. */
  function RollupsOf(session: Record): Rollups
  {
    Rollups(
      Get(session, NumRequests), Get(session, Error), Get(session, ReqSum), Get(session, ReqFastest),
      Get(session, ReqSlowest), Get(session, CompRequests), Get(session, TLSstart), Get(session, TLSsuccess))
  }

  /** One request folded into the rollups: counters and sums grow, fastest/slowest take the sentinel-0 step. */
  function Fold(acc: Rollups, r: Record): Rollups
  {
    var t := Get(r, TimeNano);
    Rollups(
      acc.numRequests + 1, acc.errors + Get(r, Error), acc.reqSum + t,
      Faster(acc.reqFastest, t), Slower(acc.reqSlowest, t), acc.compRequests + Get(r, Compression),
      acc.tlsStarts + Get(r, TLSstart), acc.tlsSuccesses + Get(r, TLSsuccess))
  }

  /** The rollups of a session that has seen the given requests, in order. */
  function Rollup(reqs: seq<Record>): Rollups
  {
    if reqs == [] then Rollups(0, 0, 0, 0, 0, 0, 0, 0)
    else Fold(Rollup(reqs[..|reqs| - 1]), reqs[|reqs| - 1])
  }

  /** The session record summarizes exactly the requests folded into it. */
  predicate Summarizes(session: Record, reqs: seq<Record>)
  {
    RollupsOf(session) == Rollup(reqs)
  }

  lemma RollupSnoc(reqs: seq<Record>, r: Record)
    ensures Rollup(reqs + [r]) == Fold(Rollup(reqs), r)
  {
    assert (reqs + [r])[..|reqs|] == reqs;
  }

  /**
   * The rollups are the statistics of the session's columns: the request
   * count, the sums of the error, duration, compression and TLS columns, and
   * the sentinel-0 fastest and slowest duration.
   */
  lemma {:induction false} RollupIsColumnStats(reqs: seq<Record>)
    ensures Rollup(reqs) == Rollups(
      |reqs|, Sum(Column(reqs, Error)), Sum(Column(reqs, TimeNano)),
      Fastest(Column(reqs, TimeNano)), Slowest(Column(reqs, TimeNano)),
      Sum(Column(reqs, Compression)), Sum(Column(reqs, TLSstart)), Sum(Column(reqs, TLSsuccess)))
  {
    if reqs != [] {
      var init, r := reqs[..|reqs| - 1], reqs[|reqs| - 1];
      assert reqs == init + [r];
      RollupIsColumnStats(init);
      ColumnSnoc(init, r, Error);
      ColumnSnoc(init, r, TimeNano);
      ColumnSnoc(init, r, Compression);
      ColumnSnoc(init, r, TLSstart);
      ColumnSnoc(init, r, TLSsuccess);
      Stats.Snoc(Column(init, Error), Get(r, Error));
      Stats.Snoc(Column(init, TimeNano), Get(r, TimeNano));
      Stats.Snoc(Column(init, Compression), Get(r, Compression));
      Stats.Snoc(Column(init, TLSstart), Get(r, TLSstart));
      Stats.Snoc(Column(init, TLSsuccess), Get(r, TLSsuccess));
    }
  }

  /**
   * With non-negative request durations, a session's slowest is the largest
   * duration of its requests and its fastest is no larger; with positive
   * durations its fastest is the smallest.
   */
  lemma SessionExtremes(session: Record, reqs: seq<Record>)
    requires Summarizes(session, reqs)
    requires NonNegative(Column(reqs, TimeNano))
    ensures reqs == [] ==> Get(session, ReqSlowest) == 0
    ensures reqs != [] ==> Get(session, ReqSlowest) == Max(Column(reqs, TimeNano))
    ensures 0 <= Get(session, ReqFastest) <= Get(session, ReqSlowest)
    ensures reqs != [] && Positive(Column(reqs, TimeNano)) ==>
              Get(session, ReqFastest) == Min(Column(reqs, TimeNano))
  {
    var times := Column(reqs, TimeNano);
    RollupIsColumnStats(reqs);
    SlowestIsMax(times);
    FastestNotAboveSlowest(times);
    if reqs != [] && Positive(times) {
      FastestIsMin(times);
    }
  }

  /** Stamping a session's duration leaves its rollups as they were. */
  lemma StampKeepsRollups(session: Record, d: int)
    ensures RollupsOf(session[TimeNano := d]) == RollupsOf(session)
  {
  }

  /**
   * Once the session ticker has marked a session, the mark stays until the
   * next reset: a further tick changes nothing, and folding requests into the
   * session leaves clientClose alone. The reset that ends the session moves
   * the mark into prevClientClose and clears clientClose.
   */
  lemma ClientCloseIdempotent(marked: Record, s: Record)
    requires Get(marked, ClientClose) == 1
    ensures marked[ClientClose := 1] == marked
    ensures s - SessionUpdates == marked - SessionUpdates ==> Get(s, ClientClose) == 1
    ensures ResetFrom(marked, s) ==> Get(s, ClientClose) == 0 && Get(s, PrevClientClose) == 1
  {
    assert ClientClose !in SessionUpdates && ClientClose in marked;
    if s - SessionUpdates == marked - SessionUpdates {
      assert ClientClose in marked - SessionUpdates;
      assert ClientClose in s;
      assert s[ClientClose] == (s - SessionUpdates)[ClientClose] == (marked - SessionUpdates)[ClientClose];
    }
  }

  /**
   * GotConn marks the request record only for a reused connection; otherwise
   * TCPreuse keeps the 0 the reset wrote.
   */
  lemma TraceRecordReuse(trace: Trace)
    ensures trace.conn.Some? && trace.conn.value.reused ==> TraceRecord(trace) == FlagsRecord(trace)[TCPreuse := 1]
    ensures !(trace.conn.Some? && trace.conn.value.reused) ==> TraceRecord(trace) == FlagsRecord(trace)
  {
    assert TCPreuse in FlagsRecord(trace) && FlagsRecord(trace)[TCPreuse] == 0;
    Unchanged(FlagsRecord(trace), TCPreuse);
  }

  /** Writing a key's current value back leaves the record as it was. */
  lemma Unchanged(r: Record, k: Key)
    requires k in r
    ensures r[k := r[k]] == r
  {
  }

  /**
   * resetRequest: every statistic key is set to 0 (and created when
   * missing); every other key keeps its value. A request record comes out
   * as the all-zero record.
   */
  method ResetRequest(request: Record) returns (r: Record)
    ensures r.Keys == request.Keys + RequestStats
    ensures forall k :: k in RequestStats ==> r[k] == 0
    ensures r - RequestStats == request - RequestStats
    ensures RequestShape(request) ==> r == ZeroRequest
  {
    r := request;
    r := r[StatusCode := 0];
    r := r[TimeNano := 0];
    r := r[Error := 0];
    r := r[ContentLength := 0];
    r := r[Compression := 0];
    r := r[TCPreuse := 0];
    r := r[TLSstart := 0];
    r := r[TLSsuccess := 0];
    r := r[DNSstart := 0];
    r := r[DNSsuccess := 0];
  }

  /**
   * `s` is `session` after a reset: the key set gains the rollups, and the
   * carried keys when what they carry exists; every rollup is 0; the error
   * count and client-close flag are carried into PrevError and
   * PrevClientClose; every other key keeps its value.
   */
  ghost predicate ResetFrom(session: Record, s: Record)
  {
    && s.Keys == session.Keys + RollupKeys
         + (if Error in session then {PrevError} else {})
         + (if ClientClose in session then {PrevClientClose} else {})
    && (forall k :: k in RollupKeys ==> s[k] == 0)
    && (Error in session ==> s[PrevError] == session[Error])
    && (ClientClose in session ==> s[PrevClientClose] == session[ClientClose])
    && (Error !in session && PrevError in session ==> s[PrevError] == session[PrevError])
    && (ClientClose !in session && PrevClientClose in session ==> s[PrevClientClose] == session[PrevClientClose])
    && s - ResetKeys == session - ResetKeys
  }

  /** Stamping the duration before a reset makes no difference to what the reset leaves. */
  lemma ResetOfStamped(session: Record, d: int, s: Record)
    requires ResetFrom(session[TimeNano := d], s)
    ensures ResetFrom(session, s)
  {
    var stamped := session[TimeNano := d];
    assert TimeNano in RollupKeys;
    assert stamped.Keys == session.Keys + {TimeNano};
    assert stamped - ResetKeys == session - ResetKeys;
  }

  /**
   * resetSession: the superseded session's error count and client-close
   * flag are carried into PrevError and PrevClientClose, but only when
   * those keys exist; then every rollup is set to 0, so that the session
   * summarizes no request. Every other key keeps its value.
   */
  method ResetSession(session: Record) returns (s: Record)
    ensures ResetFrom(session, s)
    ensures Summarizes(s, [])
  {
    s := session;
    if Error in s {
      s := s[PrevError := s[Error]];
    }
    if ClientClose in s {
      s := s[PrevClientClose := s[ClientClose]];
    }
    s := s[ReqFastest := 0];
    s := s[ReqSlowest := 0];
    s := s[ReqSum := 0];
    s := s[NumRequests := 0];
    s := s[CompRequests := 0];
    s := s[ClientClose := 0];
    s := s[TimeNano := 0];
    s := s[Error := 0];
    s := s[TLSstart := 0];
    s := s[TLSsuccess := 0];
  }

  /**
   * updateSession: fold one request into the session. The rollups take one
   * `Fold` step (the count goes up by one, the error, duration, compression
   * and TLS counters go up by the request's values, a missing key counting
   * as 0, and fastest/slowest take the sentinel-0 update); every other key
   * keeps its value. Each key is read before it is written, so its value is
   * read from the incoming map. `Fold` is the function on rollups it computes.
   */
  method UpdateSession(request: Record, session: Record) returns (s: Record)
    ensures s.Keys == session.Keys + SessionUpdates
    ensures RollupsOf(s) == Fold(RollupsOf(session), request)
    ensures s - SessionUpdates == session - SessionUpdates
  {
    var t := Get(request, TimeNano);
    s := session;
    s := s[NumRequests := Get(session, NumRequests) + 1];
    s := s[Error := Get(session, Error) + Get(request, Error)];
    s := s[ReqSum := Get(session, ReqSum) + t];
    if Get(session, ReqFastest) == 0 || t < Get(session, ReqFastest) {
      s := s[ReqFastest := t];
    }
    if Get(session, ReqSlowest) == 0 || t > Get(session, ReqSlowest) {
      s := s[ReqSlowest := t];
    }
    s := s[CompRequests := Get(session, CompRequests) + Get(request, Compression)];
    s := s[TLSstart := Get(session, TLSstart) + Get(request, TLSstart)];
    s := s[TLSsuccess := Get(session, TLSsuccess) + Get(request, TLSsuccess)];
  }

  /** A session reset keeps the session's shape and its lifetime. */
  lemma ResetKeepsShape(session: Record, s: Record)
    requires s - ResetKeys == session - ResetKeys
    requires RollupKeys <= s.Keys
    requires SessionShape(session)
    ensures SessionShape(s) && s[Lifetime] == session[Lifetime]
  {
    var kept := session - ResetKeys;
    assert IsSession in kept && Lifetime in kept && IsRequest !in kept;
    assert IsRequest !in ResetKeys && IsRequest !in s - ResetKeys;
    assert kept[IsSession] == session[IsSession] && kept[Lifetime] == session[Lifetime];
    assert s - ResetKeys == kept;
    assert (s - ResetKeys)[IsSession] == s[IsSession] && (s - ResetKeys)[Lifetime] == s[Lifetime];
  }

  /** Folding a request into a session keeps the session's shape and its lifetime. */
  lemma UpdateKeepsShape(session: Record, s: Record)
    requires s.Keys == session.Keys + SessionUpdates
    requires s - SessionUpdates == session - SessionUpdates
    requires SessionShape(session)
    ensures SessionShape(s) && s[Lifetime] == session[Lifetime]
  {
    var kept := session - SessionUpdates;
    assert IsSession in kept && Lifetime in kept;
    assert kept[IsSession] == session[IsSession] && kept[Lifetime] == session[Lifetime];
    assert s - SessionUpdates == kept;
    assert (s - SessionUpdates)[IsSession] == s[IsSession] && (s - SessionUpdates)[Lifetime] == s[Lifetime];
  }

  /** A key that folding a request does not write reads the same before and after. */
  lemma KeptByFold(session: Record, s: Record, k: Key)
    requires s - SessionUpdates == session - SessionUpdates
    requires k !in SessionUpdates
    ensures Get(s, k) == Get(session, k)
  {
    if k in session {
      assert k in session - SessionUpdates;
      assert s[k] == (s - SessionUpdates)[k];
    } else {
      assert k !in session - SessionUpdates;
    }
  }

  /**
   * A request on a new connection: the reset carries the superseded
   * session's error count and client-close flag, and folding the request in
   * afterwards leaves them, the cleared clientClose and timeNano, and every
   * key the reset keeps as they were.
   */
  lemma FoldAfterReset(session: Record, reset: Record, s: Record)
    requires SessionShape(session)
    requires ResetFrom(session, reset)
    requires s - SessionUpdates == reset - SessionUpdates
    ensures s - ResetKeys == session - ResetKeys
    ensures Get(s, PrevError) == Get(session, Error)
    ensures Get(s, PrevClientClose) == Get(session, ClientClose)
    ensures Get(s, ClientClose) == 0 && Get(s, TimeNano) == 0
  {
    assert SessionUpdates <= ResetKeys;
    assert s - ResetKeys == (s - SessionUpdates) - ResetKeys;
    assert reset - ResetKeys == (reset - SessionUpdates) - ResetKeys;
    KeptByFold(reset, s, PrevError);
    KeptByFold(reset, s, PrevClientClose);
    KeptByFold(reset, s, ClientClose);
    KeptByFold(reset, s, TimeNano);
  }

  /**
   * The DNSStart, DNSDone, TLSHandshakeStart and TLSHandshakeDone callbacks
   * of one request: each that fires (DNSDone only without an error,
   * TLSHandshakeDone only for a completed handshake) sets its flag to 1. No
   * other key changes, so a reset record comes out as `FlagsRecord`.
   */
  method FireTraceFlags(request: Record, trace: Trace) returns (r: Record)
    ensures Get(r, DNSstart) == (if trace.dnsStart then 1 else Get(request, DNSstart))
    ensures Get(r, DNSsuccess) == (if trace.dnsSucceeded then 1 else Get(request, DNSsuccess))
    ensures Get(r, TLSstart) == (if trace.tlsStart then 1 else Get(request, TLSstart))
    ensures Get(r, TLSsuccess) == (if trace.tlsCompleted then 1 else Get(request, TLSsuccess))
    ensures r - TraceFlagKeys == request - TraceFlagKeys
    ensures request == ZeroRequest ==> r == FlagsRecord(trace)
  {
    r := request;
    if trace.dnsStart {
      r := r[DNSstart := 1];
    }
    if trace.dnsSucceeded {
      r := r[DNSsuccess := 1];
    }
    if trace.tlsStart {
      r := r[TLSstart := 1];
    }
    if trace.tlsCompleted {
      r := r[TLSsuccess := 1];
    }
  }

  /**
   * Recording the outcome of `client.Do` in the request record: a failed
   * request gets the error flag and its duration; a response gets its
   * duration, status code, compression flag and body length. `Recorded` is
   * the function it computes.
   */
  method RecordOutcome(request: Record, outcome: Outcome) returns (r: Record)
    ensures r == Recorded(request, outcome)
    ensures RequestShape(request) ==> RequestShape(r)
  {
    r := request;
    match outcome {
      case DoError(elapsed) =>
        r := r[Error := 1];
        r := r[TimeNano := elapsed];
      case Response(elapsed, status, bodyLength, uncompressed) =>
        r := r[TimeNano := elapsed];
        r := r[StatusCode := status];
        if uncompressed {
          r := r[Compression := 1];
        }
        r := r[ContentLength := bodyLength];
    }
  }

  /** copyReport: a fresh map holding every key of the input with its value. */
  method CopyReport(input: Record) returns (output: Record)
    ensures output == input
  {
    output := map[];
    var rest := input.Keys;
    while rest != {}
      invariant forall k :: k in output <==> k in input && k !in rest
      invariant forall k :: k in output ==> output[k] == input[k]
      invariant forall k :: k in rest ==> k in input
      decreases rest
    {
      var k :| k in rest;
      output := output[k := input[k]];
      rest := rest - {k};
    }
  }

  class Probe {
    /** The configured session lifetime in seconds, echoed in every session record. */
    const lifetime: int
    /** The live request record, reset before every request. */
    var request: Record
    /** The live session record. */
    var session: Record
    /** When the live session started; None before the first new connection. */
    var sStart: Option<int>
    /** Every record sent to the reporter, in order. */
    var outbox: seq<Record>
    /** The request records folded into the live session since it started. */
    ghost var live: seq<Record>

    ghost predicate Valid()
      reads this
    {
      && RequestShape(request)
      && SessionShape(session) && session[Lifetime] == lifetime
      && Summarizes(session, live)
    }

    constructor (lifetime: int)
      ensures Valid()
      ensures this.lifetime == lifetime
      ensures request == map[IsRequest := 1]
      ensures session == map[IsSession := 1, Lifetime := lifetime]
      ensures sStart == None && outbox == [] && live == []
    {
      this.lifetime := lifetime;
      request := map[IsRequest := 1];
      session := map[IsSession := 1, Lifetime := lifetime];
      sStart := None;
      outbox := [];
      live := [];
    }

    /**
     * The GotConn trace callback. A reused connection only marks the request.
     * A new connection ends the live session: its record, stamped with its
     * duration, is emitted, the session clock restarts at `now`, and the
     * session is reset, carrying its error count and client-close flag.
     */
    method GotConn(reused: bool, now: int)
      requires Valid()
      modifies this
      ensures Valid()
      ensures reused ==>
        && request == old(request)[TCPreuse := 1]
        && session == old(session) && sStart == old(sStart)
        && outbox == old(outbox) && live == old(live)
      ensures !reused ==>
        && request == old(request)
        && outbox == old(outbox) + [old(session)[TimeNano := SessionDuration(old(sStart), now)]]
        && Summarizes(outbox[|outbox| - 1], old(live))
        && sStart == Some(now)
        && live == []
        && ResetFrom(old(session), session)
    ensures !reused && old(sStart).Some? ==>
        Get(outbox[|outbox| - 1], TimeNano) == now - old(sStart).value
    {
      if reused {
        request := request[TCPreuse := 1];
      } else {
        StampKeepsRollups(session, SessionDuration(sStart, now));
        session := session[TimeNano := SessionDuration(sStart, now)];
        var report := CopyReport(session);
        outbox := outbox + [report];
        sStart := Some(now);
        var reset := ResetSession(session);
        ResetKeepsShape(session, reset);
        ResetOfStamped(old(session), SessionDuration(old(sStart), now), reset);
        session := reset;
        live := [];
      }
    }

    /** The session ticker fired: mark the live session as closed by the client. */
    method SessionTick()
      requires Valid()
      modifies this
      ensures Valid()
      ensures session == old(session)[ClientClose := 1]
      ensures request == old(request) && sStart == old(sStart)
      ensures outbox == old(outbox) && live == old(live)
    {
      session := session[ClientClose := 1];
    }

    /**
     * The first half of a request tick, up to the return of `client.Do`:
     * the request record is reset, and the trace callbacks the transport
     * fires while it obtains a connection each set their flag. GotConn, the
     * last of them, may end the live session.
     */
    method Launch(trace: Trace)
      requires Valid()
      modifies this
      ensures Valid()
      ensures request == TraceRecord(trace)
      ensures NewConnection(trace) ==>
        && outbox == old(outbox) + [old(session)[TimeNano := SessionDuration(old(sStart), trace.conn.value.at)]]
        && sStart == Some(trace.conn.value.at)
        && live == []
      ensures NewConnection(trace) ==> ResetFrom(old(session), session)
      ensures !NewConnection(trace) ==>
        && outbox == old(outbox) && sStart == old(sStart) && live == old(live) && session == old(session)
    {
      var r := ResetRequest(request);
      r := FireTraceFlags(r, trace);
      assert r == FlagsRecord(trace);
      request := r;
      TraceRecordReuse(trace);
      if trace.conn.Some? {
        GotConn(trace.conn.value.reused, trace.conn.value.at);
      }
    }

    /**
     * The second half of a request tick: the outcome of `client.Do` is
     * recorded, a copy of the request record is emitted, and the record is
     * folded into the session.
     */
    method Complete(outcome: Outcome)
      requires Valid()
      modifies this
      ensures Valid()
      ensures request == Recorded(old(request), outcome)
      ensures outbox == old(outbox) + [request]
      ensures live == old(live) + [request]
      ensures sStart == old(sStart)
      ensures session.Keys == old(session).Keys + SessionUpdates
      ensures session - SessionUpdates == old(session) - SessionUpdates
      ensures forall k :: k !in SessionUpdates ==> Get(session, k) == Get(old(session), k)
    {
      request := RecordOutcome(request, outcome);
      var report := CopyReport(request);
      outbox := outbox + [report];
      RollupSnoc(live, request);
      var updated := UpdateSession(request, session);
      UpdateKeepsShape(session, updated);
      forall k | k !in SessionUpdates
        ensures Get(updated, k) == Get(session, k)
      {
        KeptByFold(session, updated, k);
      }
      session := updated;
      live := live + [request];
    }

    /**
     * The request ticker fired: reset the request record, run one request
     * (whose trace callbacks, GotConn included, fire before it completes),
     * emit a copy of the request record and fold it into the session. A
     * session record emitted by GotConn comes first, and the request then
     * counts in the new session.
     */
    method RequestTick(trace: Trace, outcome: Outcome)
      requires Valid()
      modifies this
      ensures Valid()
      ensures request == RequestRecord(trace, outcome)
      ensures NewConnection(trace) ==>
        && outbox == old(outbox) + [old(session)[TimeNano := SessionDuration(old(sStart), trace.conn.value.at)], request]
        && sStart == Some(trace.conn.value.at)
        && live == [request]
        && session - ResetKeys == old(session) - ResetKeys
        && Get(session, PrevError) == Get(old(session), Error)
        && Get(session, PrevClientClose) == Get(old(session), ClientClose)
        && Get(session, ClientClose) == 0 && Get(session, TimeNano) == 0
      ensures !NewConnection(trace) ==>
        && outbox == old(outbox) + [request]
        && sStart == old(sStart)
        && live == old(live) + [request]
        && session.Keys == old(session).Keys + SessionUpdates
        && session - SessionUpdates == old(session) - SessionUpdates
        && (forall k :: k !in SessionUpdates ==> Get(session, k) == Get(old(session), k))
    {
      Launch(trace);
      ghost var reset := session;
      Complete(outcome);
      if NewConnection(trace) {
        FoldAfterReset(old(session), reset, session);
      }
    }
  }
}
