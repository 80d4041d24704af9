# mosquitoes: probe and reporter model

mosquitoes is a synthetic-traffic probe. Each simulated client (a *poller*)
issues an HTTP GET on every tick of a request ticker and records what
happened in a *request record*. A request record is a map from statistic
name to a 64-bit counter: status code, duration in nanoseconds, error flag,
body length, compression, connection reuse, and the DNS and TLS flags. The
client also keeps a *session record* for the TCP connection it is using. A
session record holds rollups of the session's requests: count, error count,
duration sum, sentinel-0 fastest and slowest, compressed count and TLS
counts. The transport never says that a connection closed. The probe infers
a session boundary only from the `GotConn` trace callback, when a request is
handed a new connection. At that moment the superseded session is stamped
with its duration and emitted, and a fresh session starts. The fresh session
carries the old error count and client-close flag. A session ticker only
marks the live session as closed by the client.

A single *reporter* consumes every emitted record:

- Session records with a zero duration are dropped. Other session records are reported as they arrive.
- Request records are folded into a window summary: count, duration sum, sentinel-0 fastest and slowest, compression and reuse counts, and a status-code histogram.
- On each tick of its own ticker, the reporter prints the window in whole milliseconds, unless the window is empty, and starts a new window.

The model has these modules:

- `Records`: the record key set, `Get` (Go's map index: a missing key reads 0) and per-key columns.
- `Stats`: sums, the sentinel-0 fastest/slowest folds, and their relation to the true minimum and maximum.
- `Histograms`: the status-code tally, its histogram over a sequence of codes, and the histogram's counts.
- `Arith`: Go's truncating division `Quo`, and division facts.
- `Poller`: the poller as the class `Probe`. Its ghost sequence `live` holds the requests folded into the live session. `Probe.Valid()` states that the session record's rollups are exactly the fold of `live`. Every method keeps this invariant.
- `Reporter`: the reporter as the class `Aggregator`. Its ghost `window` holds the requests of the current window. Its invariant is that the summary is `Summarize(window)`.

Time, the transport and the channel become explicit inputs and outputs:

- A request tick takes the request's trace callbacks as a `Trace` value and the result of `client.Do` as an `Outcome` value.
- The clock reading at `GotConn` is part of the `Trace`.
- Emitting a record appends it to the probe's `outbox`.
- Printing a line appends a `Line` to the reporter's `output`.

`resetRequest`, `resetSession` and `updateSession` mutate the map they are given. They are modelled as methods that take the map's contents and return its new contents, which the caller stores back.

Two behaviours of the code are worth stating plainly:

- **Failed requests are counted.** The reporter counts every request record in `requests`, the duration sum, fastest/slowest and the histogram, failed requests included. A failed request adds to `requests` and the duration statistics, and is tallied in the histogram under status code 0. `RequestRecordCounted` states this.
- **"No sample yet" is the sentinel 0.** It is not an explicit absent marker. `ZeroSampleIsForgotten` shows the collision.

## Model

| member | source | states |
|---|---|---|
| Records.Get | poller.go:177-191 | Go's map index: a missing key reads as 0 |
| Records.ColumnAt | reporter.go:61 | the column of a key holds, at every position, that record's value of the key |
| Stats.SlowestIsMax | poller.go:185-187 | with non-negative samples the sentinel-0 slowest-so-far is the maximum (0 with no samples) |
| Stats.FastestIsMin | poller.go:182-184 | with positive samples the sentinel-0 fastest-so-far is the minimum |
| Stats.FastestIsSample | poller.go:182-184 | once there is a sample, the fastest-so-far is one of the samples |
| Stats.FastestNotAboveSlowest | reporter.go:62-67 | with non-negative samples 0 <= fastest <= slowest |
| Stats.ZeroSampleIsForgotten | reporter.go:62-64 | a genuine 0 duration collides with the sentinel: after [0, 5] the fastest is 5 while the minimum is 0 |
| Stats.SumBetween | reporter.go:94 | n·min <= sum <= n·max, the bound behind the average |
| Stats.MaxIsMaximum | reporter.go:65-67 | the reference maximum is attained and bounds every sample |
| Stats.MinIsMinimum | reporter.go:62-64 | the reference minimum is attained and bounds every sample |
| Histograms.HistogramCounts | reporter.go:73-79 | the histogram's keys are exactly the observed codes, each maps to its number of occurrences, and the counts add up to the number of observations |
| Histograms.TallyAddsOne | reporter.go:74-79 | one tally adds exactly one to the total count, for a new code (set to 1) and a known code (incremented) alike |
| Histograms.Example | reporter.go:73-79 | codes [200, 200, 404, 200, 500] give {200: 3, 404: 1, 500: 1} |
| Arith.Quo | reporter.go:94-97 | Go's truncating quotient agrees with Euclidean division on non-negative operands and, for every other sign of dividend and divisor, is the quotient of the magnitudes rounded toward zero |
| Arith.DivDiv | reporter.go:94-97 | dividing by 1000 and then by 1000 again is dividing by a million |
| Poller.ResetRequest | poller.go:131-145 | all ten statistic keys are 0, the key set gains exactly those keys, nothing else changes, and a tagged request record becomes the all-zero record with isRequest = 1 |
| Poller.ResetSession | poller.go:147-174 | prevError/prevClientClose receive error/clientClose only when those keys exist, and otherwise keep their values; the ten rollup keys are 0; no other key changes; the result summarizes no request |
| Poller.ResetOfStamped | poller.go:76-81 | stamping timeNano before the reset does not change what the reset leaves |
| Poller.ResetKeepsShape | poller.go:147-174 | a reset keeps isSession = 1 and the lifetime, and every carried key has its source key |
| Poller.UpdateSession | poller.go:176-192 | the rollups take exactly one `Fold` step: numRequests + 1; error, reqSum, compRequests, TLSstart and TLSsuccess grow by the request's values (missing = 0); fastest/slowest take the sentinel-0 step; no other key changes |
| Poller.KeptByFold | poller.go:176-192 | a key that updateSession does not write (clientClose, prevError, prevClientClose, timeNano, lifetime, ...) reads the same afterwards |
| Poller.FoldAfterReset | poller.go:147-192 | after a reset and one fold, prevError/prevClientClose hold the superseded error/clientClose, clientClose and timeNano are 0, and every other key the reset keeps is unchanged |
| Poller.UpdateKeepsShape | poller.go:176-192 | folding a request keeps isSession = 1 and the lifetime |
| Poller.RollupIsColumnStats | poller.go:176-192 | the rollups of a session are the count, the error/duration/compression/TLS column sums and the sentinel-0 fastest/slowest of its requests' durations |
| Poller.SessionExtremes | poller.go:181-187 | after a reset and any updates, with non-negative durations reqSlowest is the largest duration (0 with none) and 0 <= reqFastest <= reqSlowest; with positive durations reqFastest is the smallest |
| Poller.CopyReport | poller.go:195-201 | the copy is equal key for key to its input |
| Poller.FireTraceFlags | poller.go:52-68 | DNSStart, DNSDone without error, TLSHandshakeStart and completed TLSHandshakeDone each set their flag to 1, for any input record, and a flag whose callback did not fire keeps its value; nothing else changes, so a reset record becomes `FlagsRecord` |
| Poller.TraceRecordReuse | poller.go:69-72 | GotConn sets TCPreuse = 1 only for a reused connection; for a new connection or none the record keeps the 0 the reset wrote |
| Poller.RecordOutcome | poller.go:101-120 | a failed request gets error = 1 and its duration; a response gets its duration, status code, compression flag when uncompressed by the transport, and body length |
| Poller.RequestRecordShape | poller.go:131-145 | a request tick's record holds exactly isRequest = 1 and the ten statistics |
| Poller.RequestRecordFields | poller.go:52-120 | on transport failure error = 1 and statusCode, contentLength and compression are 0; on a response error = 0; the duration is the request's; each flag is 1 exactly when its callback fired |
| Poller.SessionDurationNonNegative | poller.go:73-76 | with a clock that does not run backwards the stamp is never negative, and it is 0 exactly before the first session or when no time passed since the session started |
| Poller.StampAsWrittenAgrees | poller.go:73-76 | the code's nanosecond-of-second test gives the same stamp when the start instant is unset or off a whole second |
| Poller.StampAsWrittenOnWholeSecond | poller.go:73-76 | a session started on a whole second is stamped with a stale end instant (-5 s instead of 2 s) |
| Poller.ClientCloseIdempotent | poller.go:124-192 | once clientClose is 1, a further session tick changes nothing and folding requests leaves clientClose at 1; the reset that ends the session sets prevClientClose to 1 and clientClose to 0 |
| Poller.Probe.constructor | poller.go:33-37 | the request record is {isRequest: 1}, the session record {isSession: 1, lifetime}, no session has started and nothing is emitted |
| Poller.Probe.GotConn | poller.go:69-83 | a reused connection sets request TCPreuse = 1 and changes nothing else; a new connection emits one copy of the session stamped with its duration (0 before the first session), which summarizes the superseded session's requests and, after a started session, carries the elapsed time since its start; sets the start time to now; and resets the session in full (`ResetFrom`): rollups, clientClose and timeNano 0, prevError/prevClientClose carried, every other key kept |
| Poller.Probe.SessionTick | poller.go:124-127 | sets session clientClose = 1 and changes nothing else |
| Poller.Probe.Launch | poller.go:88-100 | the request record is reset and then holds the trace flags; a new connection emits the stamped session and starts a new one whose record is the full reset of the old one, otherwise the session side is unchanged |
| Poller.Probe.Complete | poller.go:101-122 | the outcome is recorded, a copy of the request record is emitted and the record is folded into the live session; only the eight keys updateSession writes change, so clientClose, prevError, prevClientClose, timeNano and lifetime keep their values |
| Poller.Probe.RequestTick | poller.go:88-122 | the request record equals `RequestRecord(trace, outcome)`; exactly one request record is emitted, after the session record a new connection emits, and the request counts in the new session; on a new connection the session carries the old error/clientClose into prevError/prevClientClose with clientClose and timeNano 0; otherwise it counts in the live session and only the keys updateSession writes change |
| Reporter.SummaryIsColumnStats | reporter.go:58-80 | the window summary is the request count, the sentinel-0 fastest/slowest and sum of durations, the compression and reuse sums, and the histogram of status codes (0 when absent) |
| Reporter.WindowHistogram | reporter.go:73-79 | the histogram's keys are exactly the status codes in the window, each maps to its number of occurrences, and the counts add up to `requests` |
| Reporter.WindowExtremes | reporter.go:62-67 | with non-negative durations reqSlowest is the window's largest duration and 0 <= reqFastest <= reqSlowest; with positive durations reqFastest is the smallest |
| Reporter.CountRequest | reporter.go:60-79 | one request record adds 1 to requests whatever its error flag, adds its duration, compression and reuse, takes the fastest/slowest step and tallies its status code |
| Reporter.Printed | reporter.go:86-97 | nothing is printed exactly when the window has no request, so the average never divides by 0; otherwise the request count and histogram are printed |
| Reporter.MillisecondFigures | reporter.go:94-97 | with non-negative values the average is total / (requests · 10^6) and the extremes are value / 10^6, rounded down |
| Reporter.MeanBetween | reporter.go:94 | the truncated mean of samples lies between their minimum and maximum |
| Reporter.WindowReport | reporter.go:86-97 | an empty window prints nothing; otherwise the figures give the request count, reuse and compression sums and histogram, and with non-negative durations the truncated mean and maximum in ms and fastest <= slowest; with positive durations fastest <= average <= slowest |
| Reporter.SumNonNegative | reporter.go:61 | the duration total of non-negative durations is non-negative |
| Reporter.ExampleDurations | reporter.go:94-97 | durations [5, 3, 8, 1, 9, 2, 4, 7, 6, 0] ms sum to 45 ms with a sentinel fastest of 0 and slowest of 9 ms |
| Reporter.TimingExample | reporter.go:94-97 | a window with those durations prints avg 4 ms, fastest 0 ms, slowest 9 ms |
| Reporter.StampedSessionReported | reporter.go:50-56 | a stamped session record is reported exactly when its duration is non-zero, and the one emitted before any session started is dropped; a session record, never tagged as a request, is never counted, so it leaves the window summary alone |
| Reporter.RequestRecordCounted | reporter.go:58-79 | every request record a probe emits is counted, failed ones included, is never reported as a session, and a failed one tallies status code 0 |
| Reporter.Aggregator.constructor | reporter.go:36-38 | the reporter starts with an empty summary and no output |
| Reporter.Aggregator.Receive | reporter.go:49-81 | a session record with timeNano 0 is dropped; another session record is reported and leaves the summary unchanged; a request record that is not dropped is folded in with `Add` and joins the window |
| Reporter.Aggregator.Tick | reporter.go:43-47 | the window's figures are printed unless it is empty, and the summary becomes empty (all counters 0, no status code) whatever it held |

## Left out

- Integer width: every counter is an unbounded integer. The model does not capture int64 overflow of durations, sums or counts.
- Negative durations: durations are `nat`, the monotonic clock's elapsed time. Dafny's `/` and Go's truncating division agree whenever the dividend is non-negative. The lemmas about reported milliseconds assume non-negative values, and `Quo` models Go's division in the code itself.
- Poller.SessionDuration: abstracts the code's "a session has started" test (`sStart.Nanosecond() != 0`) as an explicit `Option`. Both the end and the start instant of a new session are the one `now` reading; the code reads the clock twice. `StampAsWritten` models the test as written, and the Findings table shows where it differs.
- The request, session and reporter tickers, `sTicker.Reset`, and the `select` loop: each tick is a method call, in any order the caller chooses.
- `tr.CloseIdleConnections()` on a session tick (poller.go:125): it closes the probe's idle connection, so the next request that obtains a connection gets a new one and its `GotConn` ends the session. The model does not require the request after a session tick to use a new connection; `Trace.conn` stays an unconstrained input.
- `net/http`, DNS and TLS: the callbacks and the result of `client.Do` are inputs (`Trace`, `Outcome`). `io.ReadAll` supplies only the body length. The model assumes `GotConn` fires at most once per request (no transport retry or redirect) and after the DNS and TLS callbacks.
- The fatal `http.NewRequest` error path (poller.go:91-95) and the printing of a `client.Do` error: configuration failure that exits the process, and output only.
- The buffered channel, goroutines and backpressure: emitting is appending to `outbox`, and the reporter receives records through `Receive` in whatever interleaving the caller chooses.
- main.go: flag parsing, the configuration printout, exit codes, starting the goroutines and the staggered start. main.go is not part of this model.
- Printing: `fmt` text layout, the `session report` line text and Go's random map iteration order in `codes(...)`. Only the numeric content of a window report (`Figures`) and the record of a session line are modelled.
- Record keys: the Go maps are keyed by strings. The model uses an enumeration with one constructor per string constant the code writes.
- Maps are passed by reference in Go, and `resetRequest`, `resetSession` and `updateSession` mutate them. Here they return the new contents, which the caller stores back. No record is aliased in the code, because every emitted record is a copy.
- `rStart`, `rEnd` and the clock readings around `client.Do`: the request's elapsed time is the `elapsed` field of the `Outcome`.

## Findings

| source | as written | input that shows it | evidently intended | confidence | as-written member | corrected member |
|---|---|---|---|---|---|---|
| poller.go:73-76 | "a session has started" is tested as `sStart.Nanosecond() != 0`, and only then is `sEnd` moved to now | a session that started exactly on a whole second (start 5 s, end instant never set, superseded at 7 s) is stamped -5 s on the model's timeline, whose zero instant is 0; in Go an unset `sEnd` is the zero `Time`, far before any `time.Now()`, so the stamp saturates to the minimum Duration, and a stale `sEnd` from an earlier boundary gives a small negative stamp; either way it is non-zero and the reporter prints it | a started session is stamped with the time elapsed since it started (2 s) | not executed | Poller.StampAsWrittenOnWholeSecond | Poller.Probe.GotConn |
