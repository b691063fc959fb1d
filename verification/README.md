# box-agent: a verified model of its concurrent core

box-agent connects a local language-model server to a router. This project models the parts of it in which several
goroutines or several functions have to fit together, and proves what they keep over every run:

- the request windows, the latency histogram and its 95th percentile, and the reporter that swaps windows out
  (`Histogram`, `Windows`, `RequestWindows`, `MetricsRuns`, `PercentileRuns`);
- the debounced health monitor, the router gate and the N connection loops it cuts and releases
  (`Trails`, `Gates`, `Monitors`, `ProbeHistories`, `GateRuns`, `OutageRuns`, `ReconnectRuns`);
- the coalescing notification between the state-writing goroutine and the status reporter (`StatusRuns`);
- a completion, streamed or whole: the event-stream framing (a subset of section 9.2 of the WHATWG HTML Living
  Standard), the scanner loop, the tool-call accumulator, the frames and counters of one request, and all requests of
  one connection together (`Sse`, `ToolCalls`, `Completion`, `Refinement`, `FakeLlm`, `Chat`, `HandleChats`, `Replies`,
  `ConnectionRuns`);
- the vLLM supervisor's restart loop against any number of kills and status calls (`Supervisors`, `SupervisorRuns`).

## How it is modelled

Objects the program updates in place are classes, and its loops are loops: `RequestWindow`, `RequestMetrics`,
`RouterGate`, `HealthMonitor`, `Accumulator`, `Stream`, `ResponseWriter`, `StreamText`, `VllmSupervisor`, the methods of
`HandleChats`. Each is proved against a function or predicate on values.

Concurrency is modelled on values, by a `State`, a total `Step` (a step that is not enabled changes nothing) and
`Run(acts)`, the state after a list of steps. Every list of steps is a run, so "for all `acts`" ranges over every
interleaving. A step is one atomic operation of the source: an atomic add or load, the locked section of a mutex, one
write under the write mutex, one channel operation.

The two forms share their definitions, and the order of atomic operations is proved of the methods, not assumed. Every
operation the monitor works with (gate, health, state, channel, API client, kill) notes its own action in one shared
`Trail`, and `HealthMonitor.Tick` is proved to leave exactly the `Round` that `GateRuns` and `StatusRuns` perform. Every
counter of a window changes through one `AddInt64`, which notes its increment, and the methods of `HandleChats` are
proved to leave exactly the `Script` that `MetricsRuns` performs, and to write the `Trace` that `ConnectionRuns` performs.
`SupervisorRuns` uses the locked sections of `VllmSupervisor`; its `Supervise` is proved to perform them in `Cycles`, and
`SupervisorRuns.OwnSectionsInCycles` that the loop does so in every run. A handler in
`MetricsRuns` carries the way it will end from the start; since it can be observed after any number of its increments,
this leaves out no interleaving.

Parameters stand for what the program cannot decide: probe results, dial results, when a connection drops, measured
milliseconds, the JSON codec, whether a write or a scan fails.

## Where the code and its own documentation differ

The model follows the code.

- "No sample is ever lost" and "no concurrent writers left" (metrics.go:116-118, 167-172): a request keeps the window it
  pinned, so what it adds after that window was read is in no report. `MetricsRuns.SampleIsLost` is such a run,
  `MetricsRuns.ResidueIsOwedAtRead` says exactly how much it is, `MetricsRuns.OwedCanBeLost` that all of it can be lost, and
  `MetricsRuns.LateIffStraddled` when there can be any. The percentile can even be meaningless
  (`PercentileRuns.HalfRecordedIsOff`); `PercentileRuns.P95IsExact` says when it is exact.
- The build document asks for exactly one final frame per stream, or one error frame in its place; backend.go:551-552 does
  not keep that. When the scan ends in a read error the final frame has already gone out, and an error frame follows it.
  `ConnectionRuns.TraceIsReply` gives the exact condition. The read error may even be one that arrived together with
  "[DONE]" and is only found afterwards (`Sse.ErrorExactly`). A stream may also carry no chunk at all:
  `ConnectionRuns.ChunksAreDeltas` and `Refinement.NoDeltas` say when.
- Streaming gives back what was framed only while every line fits the scanner's 64 KiB buffer, which backend.go:472 does
  not enlarge: `Sse.RoundTrip` and `Sse.ReadUpToOverlong` have the exact condition, `Sse.OverlongIsLost` a payload of the
  first length that is lost. A tool call whose arguments make its line too long is lost with a read error
  (`FakeLlm.StreamedToolCall`).
- Collapsing bursts never loses the final state (backend.go:63-70): true of the backend state and the model information,
  not of the health flag, whose recovery is written after the last signal of its round. `StatusRuns.RecoveryCanBeMissed`
  says that it can be missed until the next heartbeat in every outage, `StatusRuns.HealthSignalledExactly` which writes are
  signalled, and `StatusRuns.FinalStateIsReported` that one recovery is the most a quiet reporter can have missed. An
  outage that is over before the reporter reads is not seen.
- An open connection during an outage is possible: `GateRuns.OpenThroughOutage` is a run from the start,
  `GateRuns.OpenDuringOutage` says what such a connection is, and `OutageRuns.OpenAfterCutIff` exactly when there can be one.
- A child that a kill signalled may be put down to a crash and one that crashed to the watchdog
  (`SupervisorRuns.SignalledYetCrash`, `SupervisorRuns.CrashedYetWatchdog`); `SupervisorRuns.ExitAttribution` is what does
  hold.

## Model

| member | source | states |
|---|---|---|
| Histogram.BucketIndex | metrics.go:22-29 | the first bucket whose upper edge is not below the sample; overflow when none is |
| Histogram.Edge | metrics.go:8-13 | the upper edges are 50, 100, 200 and so on, each twice the one before, up to 25600, which also stands for the overflow bucket |
| Histogram.P95FromBuckets | metrics.go:39-58 | the edge of the bucket at which the running total first reaches rank k, where k is 95 per cent of the samples rounded down and at least 1; 25600 for the overflow bucket or when none does, 0 for no samples |
| Histogram.CrossingIsUnique | metrics.go:47-56 | at most one bucket is the crossing one, whatever the bucket contents |
| Histogram.BucketsOfSnoc | metrics.go:102-114 | recording a sample adds one to its own bucket and touches no other |
| Histogram.CountUpToPermutes | metrics.go:47-56 | cumulative counts do not depend on the order of the samples |
| Histogram.OrderStatistic | metrics.go:43-56 | at least k samples lie up to a bucket iff the k-th smallest sample does |
| Histogram.WalkFindsOrderStatistic | metrics.go:39-58 | for every non-empty list of n samples the crossing bucket is the bucket of the k-th smallest sample of its sorted rearrangement, k >= 1 with 95n < 100(k+1), and 100k <= 95n unless k is 1 |
| Histogram.P95OfSamples | metrics.go:31-58 | the reported value is an edge, at least the k-th smallest sample and less than twice it, except below 50 and above 25600 where it is 50 and 25600 |
| Windows.AddMoves | metrics.go:86-114 | one atomic addition moves exactly the counters and bucket sums that cover it |
| RequestWindows.RequestWindow.constructor | metrics.go:71-84 | a new window is empty and shares no storage |
| RequestWindows.RequestWindow.AddInt64 | metrics.go:86-114 | one atomic addition changes its own counter and no other; at all times the counters are what the additions so far make them |
| RequestWindows.RequestWindow.MeasuresAddUp | metrics.go:86-114 | every counter, and the sum of each bucket array, is what the additions so far add up to |
| RequestWindows.RequestWindow.RecordRequestStart | metrics.go:86-88 | makes one addition, of one to the request count |
| RequestWindows.RequestWindow.RecordError | metrics.go:90-92 | makes one addition, of one to the error count |
| RequestWindows.RequestWindow.RecordTokens | metrics.go:94-100 | adds the input tokens and then the output tokens, or nothing without usage |
| RequestWindows.RequestWindow.RecordNonStreamLatency | metrics.go:102-107 | adds to the count, then the sum, then the sample's own bucket, in this order, and nothing else |
| RequestWindows.RequestWindow.RecordTTFT | metrics.go:109-114 | adds to the count, then the sum, then the sample's own bucket of the streaming series, in this order, and nothing else |
| RequestWindows.RequestWindow.Snapshot | metrics.go:119-146 | counters as they stand, means that multiply out to the sums, percentiles of the two bucket arrays; zero where there is nothing to average |
| RequestWindows.RequestMetrics.Swap | metrics.go:167-177 | hands out the current window unchanged; the new one is empty and fresh |
| MetricsRuns.DoneBounds | connection.go:137-210 | wherever a handler is stopped: at most one error and one latency per request, and its series count is ahead of its bucket exactly while a recording is half way |
| MetricsRuns.ScriptTotals | connection.go:137-210 | what one request adds in all: one request, one error iff it failed or its stream ended in a read error, the tokens it used, its latency in the right bucket |
| MetricsRuns.TtftTotals | connection.go:176-189 | and its time to first content in the right bucket, iff content was streamed |
| MetricsRuns.RequestIsRecorded | connection.go:137-210 | every request, at whatever moment it arrives, pins the current window and can be recorded there in full |
| MetricsRuns.NextReport | reporter.go:142-147 | from every run the reporter alone can swap the current window and load all that its report needs |
| MetricsRuns.Conservation | metrics.go:86-177 | in every interleaving, all increments ever made to a counter = those in reports + those in windows not yet read + those that came after their window's read; each in one window only |
| MetricsRuns.RetiredIsReported | reporter.go:142-147 | every window before the current one, except the one being read, has all its counters in its report, and of each series the buckets up to where the percentile walk stops |
| MetricsRuns.ReportPlusResidue | connection.go:137-210 | reported, late and still owed make up all that the requests pinned to the window will ever add |
| MetricsRuns.RetiredIsFixed | metrics.go:173-177 | what a retired window will have received in all, and what was reported of it, never change afterwards |
| MetricsRuns.ResidueIsOwedAtRead | metrics.go:116-129 | late plus still to come always equals what the pinned requests owed at the moment of the load |
| MetricsRuns.OwedCanBeLost | connection.go:137-210 | from every such moment there is a continuation in which everything then owed comes late |
| MetricsRuns.SampleIsLost | metrics.go:167-177 | there is a run in which a request is counted in a retired window after its snapshot |
| MetricsRuns.NoStraddleNoResidue | metrics.go:167-177 | when no request straddled the swap nothing comes late and the window is already complete |
| MetricsRuns.LateIffStraddled | metrics.go:173-177 | at the swap: something can still come late to the window if and only if some request that pinned it is not finished |
| MetricsRuns.WindowBounds | metrics.go:86-114 | at every point of every run errors <= requests, latencies <= requests, and each series count minus its buckets is the number of recordings half way through |
| PercentileRuns.SettledBuckets | metrics.go:102-114 | once no pinned request owes a series anything, its buckets are the histogram of exactly their samples, in every run |
| PercentileRuns.SettledP95 | metrics.go:137-144 | so a snapshot then reports the edge of the bucket of the exact order statistic of the recorded samples |
| PercentileRuns.P95IsExact | metrics.go:39-58 | read load by load: if no pinned request owes the series anything when its count is loaded, the walk over the buckets loaded later gives the edge of the exact order statistic, whatever else goes on in between |
| PercentileRuns.HalfRecordedIsOff | metrics.go:102-107 | there is a run in which one sample of 10 ms is reported as 25600, because its request was between count and bucket |
| ToolCalls.Accumulator.Add | backend.go:529-543 | the map and order list go on holding, for every index seen, the call its fragments make up |
| ToolCalls.Accumulator.Collect | backend.go:547-550 | one finished call per index, in order of first appearance |
| ToolCalls.OrderIsFirstAppearance | backend.go:530-535 | every index that occurs has exactly one place, ordered by where it first occurs |
| ToolCalls.LastOfPieces | backend.go:536-541 | the id and name kept are the ones the pieces agree on |
| ToolCalls.LastIsLast | backend.go:536-541 | in general they are the last ones that are not empty |
| ToolCalls.FragmentsGiveBack | backend.go:433-440 | streaming any interleaving of the pieces of any list of calls, under any distinct indices, gives the calls back, each once, in order of first pieces, and in their own order if the first pieces come in it |
| Sse.ScanOne | backend.go:472-474 | scanning splits off one line, without its newline and one carriage return, or stops with an error when the line does not fit the 64 KiB buffer |
| Sse.ResponseWriter.WriteChunk | cmd/fakellm/main.go:265-268 | appends exactly one event with the payload |
| Sse.RoundTrip | backend.go:472-481 | for every list of payloads and whatever follows "[DONE]", reading gives the payloads back if and only if each is free of newlines, does not end in a carriage return, is not "[DONE]" and fits the buffer |
| Sse.ReadUpToOverlong | backend.go:472-481 | framable payloads are read exactly up to the first whose line does not fit; then, and only then, the loop ends in an error instead of at "[DONE]" |
| Sse.OverlongIsLost | backend.go:472-474 | a payload of the first length that does not fit is lost, with an error |
| Sse.LongestFits | backend.go:472-474 | a framable payload comes back if and only if it has at most 65529 bytes |
| Sse.LastLineCounts | backend.go:472-474 | text after the last newline is a line too |
| Sse.OtherLinesIgnored | backend.go:475-477 | a line that does not begin with "data: " changes nothing, wherever it stands |
| Sse.ErrorExactly | backend.go:472-481 | the loop leaves an error exactly when a line did not fit, or reading failed with an error that came along with the newline after "[DONE]" |
| Sse.CarriageReturnIsLost | backend.go:472-478 | a payload ending in a carriage return comes back without it, so newline-free is not enough |
| Completion.Stream | backend.go:467-552 | the scanner loop delivers the deltas, last usage, last finish reason and accumulated calls that its payloads say, and returns the error that stopped the scanner or that it already held when it delivered "[DONE]" |
| Completion.TakeChunk | backend.go:512-544 | one chunk extends each of these by exactly its share |
| Completion.UndecodableIgnored | backend.go:508-510 | a payload that does not decode changes nothing, wherever it stands |
| Refinement.DeltasKeepText | backend.go:520-525 | dropping empty deltas loses no text and no reasoning |
| Refinement.NoEmptyDelta | backend.go:520-525 | nothing empty is sent on |
| Refinement.NoDeltas | backend.go:519-525 | nothing at all is sent on exactly when no chunk has content or reasoning in its first choice |
| Refinement.ContentFirst | backend.go:520-525 | a chunk with both sends its content before its reasoning |
| Refinement.LogprobsKept | backend.go:520-522 | every content sent on keeps its own logprobs, in order |
| Refinement.FinishIsLast | backend.go:526-528 | the finish reason is that of the last chunk that has one |
| Refinement.ReasoningIsLast | backend.go:512-518 | the reasoning tokens are those of the last usage with details |
| Refinement.ChatReadsWire | backend.go:367-431 | chat reports exactly what the first choice and the usage on the wire say; an answer that is not 200 fails with exactly that status, any other failure without one |
| Refinement.UsageExactly | backend.go:512-518 | the usage is the last chunk's if and only if that chunk has details or no reasoning tokens were left over from before it |
| Refinement.StreamRefinesChat | backend.go:367-552 | however a completion is split into chunks, stream delivers the text, reasoning, usage, finish reason and tool calls that are on the wire of the whole one and that chat returns for it, calls in order of first appearance and with type "function" |
| FakeLlm.FieldsOfSpaced | cmd/fakellm/main.go:196-201 | splitting words joined by single blanks gives the words back |
| FakeLlm.SpacedFields | cmd/fakellm/main.go:196-201 | joining the fields is a fixed point, and gives the text itself if and only if its only white space is single blanks between words |
| FakeLlm.SplitsAtSpace | cmd/fakellm/main.go:196 | any one white-space character splits two words; printable ASCII and letters do not |
| FakeLlm.StreamText | cmd/fakellm/main.go:190-220 | prints one event per word, then the final event, then "[DONE]" |
| FakeLlm.StreamToolCall | cmd/fakellm/main.go:222-251 | prints the call in one fragment, then the final event, then "[DONE]" |
| FakeLlm.ReadBack | backend.go:472-510 | whatever is appended after "[DONE]" and however the body ends, exactly the chunks up to the first whose line does not fit are decoded; with an error if and only if there is one, or reading failed with an error that came along with the newline after "[DONE]" |
| FakeLlm.StreamedText | cmd/fakellm/main.go:145-220 | if every line fits, reading the printed stream gives the words joined by blanks, the usage and "stop", and equals what chat returns for the whole answer if and only if the content is normal; otherwise the text before the long line and a read error |
| FakeLlm.StreamedToolCall | cmd/fakellm/main.go:168-251 | reading the printed stream gives the tool call back and nothing else, as chat does for the whole answer, if and only if both lines fit, and a read error otherwise |
| HandleChats.Connection.Send | connection.go:59-67 | a write appends its frame unless it or an earlier one failed |
| HandleChats.HandleWhole | connection.go:136-174 | a request that is not streamed makes exactly its script's increments, in their order, so that every measure of the window grows by the script's total, and sends its response or error if the connection holds |
| HandleChats.HandleStream | connection.go:136-211 | a streamed request makes exactly its script's increments, in their order, so that every measure of the window grows by the script's total, and sends its trace, or the start of it up to where the connection broke |
| HandleChats.SendDeltas | connection.go:176-198 | every delta is sent as its own chunk and one time to first content is recorded iff there is content |
| HandleChats.SendEnd | connection.go:199-210 | final goes out before a read error is turned into an error frame |
| Replies.StreamedFrames | connection.go:176-210 | the chunk frames of a streamed reply put together give its text, its reasoning and the logprobs of each content; then come the final frame with usage, finish reason and calls, and after a read error an error frame without a status |
| Replies.WholeReply | connection.go:158-174 | a request that is not streamed leaves one response frame with what is on the wire, or one error frame with exactly the status of an answer that was not 200 |
| Replies.RefusedReply | connection.go:207-210 | a refused streaming request leaves one error frame with the backend's status |
| Replies.SameReply | connection.go:158-210 | however a completion is split, the frames of streaming it carry the same content, reasoning, usage, finish reason and tool calls as the one response frame, and as the wire |
| Replies.WholeCounts | connection.go:137-174 | a decoded answer counts as one latency, the measured one, and the tokens on the wire; anything else as one error |
| Replies.StreamCounts | connection.go:137-210 | a streamed request counts one error iff refused or its scan left an error, the measured time to first content iff there was content, and the tokens of its usage |
| ConnectionRuns.TraceIsReply | connection.go:158-210 | the frames of a request follow the grammar, and there is exactly one terminal frame if and only if the stream did not end in a read error |
| ConnectionRuns.ChunksAreDeltas | connection.go:176-198 | a request has no chunk frame exactly when it streamed no delta, and its chunks are its first frames |
| ConnectionRuns.HelloFirst | connection.go:58-74 | in every run hello is the first data frame written, if any is, and the only one |
| ConnectionRuns.OwnFramesInOrder | connection.go:113-127 | in every interleaving of requests with distinct ids, the log seen through an id is that request's own frames in order, all those sent while the connection holds and a prefix once it broke |
| ConnectionRuns.FinishedReply | connection.go:136-211 | what a finished chat request left on a connection that holds is a whole reply by the grammar |
| ConnectionRuns.HelloIsSent | connection.go:72-74 | a connection tries its hello first, and accepts requests whether it was written or not |
| ConnectionRuns.ChatIsServed | connection.go:113-121 | a chat request with an unused id is accepted at any moment after that, and its whole reply can be sent while the connection holds |
| ConnectionRuns.BenchmarkIsServed | connection.go:122-134 | so is a benchmark request, with its one result |
| Gates.RouterGate.PassOrWait | gate.go:33-39 | a loop passes if and only if the gate is healthy, and joins the wait set otherwise |
| Gates.RouterGate.SetConn | gate.go:44-48 | registers the connection and changes nothing else |
| Gates.RouterGate.ClearConn | gate.go:50-54 | removes the registration and changes nothing else |
| Gates.RouterGate.MarkUnhealthy | gate.go:58-70 | marks the gate and closes every registered connection; the registrations stay |
| Gates.RouterGate.MarkHealthy | gate.go:74-79 | marks the gate, keeps the registrations and wakes every loop in the wait set |
| Gates.NotifyChannel.NotifyBackendState | backend.go:71-76 | after a send exactly one token is pending, however many there were |
| Monitors.HealthMonitor.Tick | backend.go:208-266 | one round performs exactly the operations of its round, in order, each of them noted by the operation itself, and leaves the view they lead to |
| Monitors.HealthMonitor.RestartBackend | backend.go:252-262 | kill first, then the counter, the state and the signal; the watchdog flag is raised iff the child has a process |
| Monitors.HealthMonitor.Monitor | backend.go:198-267 | any number of rounds performs the operations of the whole history, in order, and ends in its final view |
| Monitors.AfterIs | backend.go:211-265 | what a round amounts to, from the order and effect of its actions |
| ProbeHistories.SuccessSeparates | backend.go:211-240 | a success separates failure runs: the runs of a history are those before it followed by those after it |
| ProbeHistories.FailuresAreOneRun | backend.go:239-240 | failures without a success between them are one run of their number |
| ProbeHistories.MonitorClosedForm | backend.go:205-266 | for every probe sequence with trailing failure run r: unhealthy iff r >= 3; counter r, or r mod 3 when supervised; state a function of r; kills the sum of the thirds of all maximal runs; reports alternate, outages first |
| ProbeHistories.ReportsMatchOutages | backend.go:240-244 | the last report equals the flag, and the outages reported are exactly the maximal failure runs of at least three |
| GateRuns.OpenDuringOutage | gate.go:58-70 | once markUnhealthy has closed what it captured, any open connection has exactly one owner, which passed waitHealthy before the cut and has not called setConn, or called it after the cut, or called clearConn before it |
| GateRuns.OneLateRegistration | connection.go:44-53 | a loop registers at most once in an outage, and is then not on its way to another registration |
| OutageRuns.PastGateShrinks | gate.go:33-39 | in every run, during an outage the set of loops past the gate only shrinks, and all of them passed before the cut |
| OutageRuns.FailedDialWaits | connection.go:45-50 | a loop whose dial fails in an outage does not dial again before the gate is released |
| OutageRuns.OpenLaterIff | gate.go:44-70 | from any point of an outage a connection can be open once the captured ones are closed, before the gate is released, if and only if some loop is dialling or has an open connection that was not captured |
| OutageRuns.OpenAfterCutIff | gate.go:58-70 | at the cut: if and only if some loop is then dialling, or has an open connection it has not registered yet or has deregistered already |
| OutageRuns.RegistersInOutage | connection.go:44-53 | every loop that is dialling or has dialled during an outage can register an open connection that nothing closes |
| OutageRuns.ClearedInOutage | connection.go:51-53 | there is a run in which a connection deregistered before the cut is open in the outage |
| GateRuns.NoLostWakeup | gate.go:74-79 | in every run, a loop in the wait set while the gate is healthy is about to be woken by the broadcast still to come |
| ReconnectRuns.RecheckExactly | gate.go:36-38 | in every run a woken loop goes past the gate if and only if the gate is healthy, and waits again otherwise |
| ReconnectRuns.Reconnects | main.go:380-395 | from every run with a healthy gate and nothing to broadcast, every loop can by its own steps come to serve an open connection registered as its own |
| ReconnectRuns.LostIsReplaced | connection.go:83-90 | a connection that is lost is replaced by another one |
| ReconnectRuns.ServesAny | connection.go:113-121 | a serving loop can have any number of handlers at work |
| ReconnectRuns.NextProbe | backend.go:208-266 | from every run the monitor can finish its round and go through another one, with either probe result |
| ReconnectRuns.BackendRecovers | backend.go:211-235 | after a probe that succeeds, and its round, the gate is healthy, whatever went before |
| ReconnectRuns.ComesBack | gate.go:74-79 | so from every run every loop can come to serve again |
| GateRuns.LiveConnections | gate.go:84-88 | the map holds exactly the loops between setConn and clearConn, each with its own connection, never more than N, and keeps an entry while a handler of it runs |
| GateRuns.HeadsFollowHistory | backend.go:205-250 | at every loop head of the monitor in every run, flag, shared health and gate agree and the view is the closed form of the probes so far |
| GateRuns.OpenThroughOutage | gate.go:44-70 | there is a run in which a connection registered during an outage stays open |
| StatusRuns.RoundWrites | backend.go:211-263 | the writes and signals of a round as the reporter can see them |
| StatusRuns.StaleIsOnItsWay | backend.go:63-76 | in every reachable state, a backend state or model information not yet read, or a health write not yet read that is more than one recovery, has a token pending, a signal owed, or a read still to come |
| StatusRuns.FinalStateIsReported | reporter.go:82-128 | when everything is quiet the last report has read the final state and information, and the final health or, if that is a recovery written after it was read, the outage before |
| StatusRuns.ReadsNeverGoBack | reporter.go:82-112 | the values read of each of the three cells never go back in the order of writing |
| StatusRuns.ReporterCatchesUp | reporter.go:120-128 | once the writer is idle the reporter alone reaches a quiet state, with at most one more send |
| StatusRuns.HeartbeatCatchesUp | reporter.go:124-127 | a heartbeat reads everything as it stands, so that not even a recovery is missed after it |
| StatusRuns.StartupThenMonitor | main.go:252-290 | in every run the states written begin with Starting and, when vLLM is deployed, DownloadingModel, Booting, Ready; the monitor starts from the last of them, and then the last state written is the closed form of the probes |
| StatusRuns.ReportedFollowsProbes | reporter.go:82-128 | so when everything is quiet the state last read is that function of the probes |
| StatusRuns.AnyProbes | backend.go:205-266 | from every run, whatever the reporter does, the writer can finish, start the monitor and go through any probe results |
| StatusRuns.HealthSignalledExactly | backend.go:223-250 | a health write has a signal of its own to come exactly when it says unhealthy |
| StatusRuns.HealthFollowsFlag | backend.go:223-250 | in every run, what the health cell holds once the writes in progress are made is the monitor's flag |
| StatusRuns.RecoveryCanBeMissed | backend.go:223-235 | from every state in which the monitor is at its loop head in an outage and the reporter in its select, some continuation ends quiet with the backend healthy and last reported unhealthy |
| StatusRuns.OutageIsReached | backend.go:240-250 | such states are reached |
| Supervisors.VllmSupervisor.Launching | vllm.go:189-192 | the new command is current and the watchdog flag is down |
| Supervisors.VllmSupervisor.Started | vllm.go:209-215 | the start time is recorded and every launch but the first counts as a restart |
| Supervisors.VllmSupervisor.Exited | vllm.go:220-228 | the command is cleared and the exit put down by the flag |
| Supervisors.VllmSupervisor.RunOnce | vllm.go:178-231 | one round of the loop performs exactly the sections of one attempt, in order: assigned and cleared, or assigned, started, noted and exited, put down to the watchdog iff a kill held the lock meanwhile; restarts count every start but the first |
| Supervisors.VllmSupervisor.Supervise | vllm.go:178-231 | any number of rounds performs the sections of all attempts, one after the other |
| Supervisors.VllmSupervisor.KillSection | vllm.go:238-243 | captures the command, and raises the flag iff it has a process |
| Supervisors.VllmSupervisor.Kill | vllm.go:237-249 | undisturbed: picks the current child if it has a process, and raises the flag exactly then |
| Supervisors.VllmSupervisor.ReportStatus | vllm.go:253-269 | running iff there is a command with a process; uptime from the recorded start; last exit if there was one |
| SupervisorRuns.OwnSectionsInCycles | vllm.go:178-231 | in every run, whatever kills do in between, the loop's own sections are those cycles, one after the other and numbered in order |
| SupervisorRuns.ComesRound | vllm.go:178-231 | from every run the loop can by its own steps have the next attempt running |
| SupervisorRuns.FailedStartIsCleared | vllm.go:195-202 | an attempt that does not start is cleared and the loop is back at its top |
| SupervisorRuns.ExitAttribution | vllm.go:189-228 | in every run, an exit is put down to the watchdog if and only if some kill held the lock after that attempt's successful start and before that exit was noted |
| SupervisorRuns.SignalHitsCaptured | vllm.go:237-249 | a signal goes to the attempt that was current when its kill held the lock, already started, and never to a younger one |
| SupervisorRuns.LockExactly | vllm.go:238-243 | a kill that takes the lock captures the attempt that is current and raises the flag exactly when that attempt has started |
| SupervisorRuns.SignalExactly | vllm.go:244-248 | it then signals attempt n if and only if n was current when it last held the lock and has started by now, and nothing otherwise |
| SupervisorRuns.Counters | vllm.go:178-231 | restarts are the successful starts but one once the start is noted; exits lag starts by one exactly while an attempt is live |
| SupervisorRuns.StatusIsCurrent | vllm.go:253-269 | status reports exactly the attempt that has started and whose exit is not noted; its uptime is its own if and only if run is past the post-start section |
| SupervisorRuns.SignalledYetCrash | vllm.go:237-249 | there is a run in which a signalled child is put down to a crash |
| SupervisorRuns.CrashedYetWatchdog | vllm.go:237-249 | there is a run in which a child that was never signalled is put down to the watchdog |

## Left out

- HTTP, WebSocket, TLS and JSON themselves: their outcomes are parameters. In the framing a character stands for a byte; the JSON codec maps values to such text.
- Sse.ScanLines: for a last line without a newline and of exactly 65536 bytes the scanner's verdict depends on how the reader reports the end of the body; the model takes it as too long.
- 64-bit wrap-around of the metric counters, which are unbounded integers here.
- Histogram.P95FromBuckets: the source multiplies the total by 0.95 in floating point; the model takes 95 * total / 100 rounded down.
- RequestWindows.RequestWindow.Snapshot: averages and rates are over exact reals, without rounding.
- StatusRuns.FinalStateIsReported: a report is what the reporter has read; a post that fails is logged and dropped (reporter.go:109-111), so the values can still be lost until the next report.
- MetricsRuns.Conservation: likewise, a window's report is what was loaded of it; when its post fails (reporter.go:147-149) the whole window is lost.
- Time: sleeps, jitter and tickers are steps that may come at any moment, durations are whole milliseconds.
- GateRuns, StatusRuns, SupervisorRuns and ConnectionRuns model connectAndServe, runConnLoop, reportStatusLoop, the order of writes in runAgent and the supervisor's loop on values, as step systems; what that does not capture is aliasing between the goroutines' objects.
- Monitors.HealthMonitor.Tick: the report to the management API is an operation without further effect, since the monitor goes on whether it succeeds or not.
- Gates.RouterGate.MarkHealthy: that the broadcast comes after the unlock, and that a woken loop looks at the gate again, is in GateRuns.
- Supervisors.VllmSupervisor.Kill: the second, unlocked look at the process and the signal itself are in SupervisorRuns.
- ConnectionRuns.OwnFramesInOrder: the router gives each request of a connection its own id; two requests with one id would share a projection. Marshalling a frame is taken not to fail, and pongs are not data frames.
- The sampling parameters, tools and message lists that a request forwards, max_tokens clamping and the effective_max_tokens field.
- Error message texts: an error frame carries only the backend's status, 0 when there is none.
- Registration, token provisioning, benchmarks' contents, host status, Ollama and vLLM metrics scraping: calls that copy fields or do input and output.
- fakellm's tool trigger and its token count, each settled by reading its few lines.
