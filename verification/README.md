# Span correlation in mcp-trace

mcp-trace sits between MCP clients and servers and turns each JSON-RPC call into one span. A span is opened by
the POST handler and closed by whichever comes first: the session's event stream, the failure of the POST, the
end of the stream, or a periodic evictor. This project models that machinery for all three transports and proves
what it promises over every interleaving and every input.

| Files | What they model |
|---|---|
| `Text`, `Rpc`, `Spans` | byte strings, decoded JSON-RPC messages, the trace filter, verdicts; which requests open a span and what its entry says |
| `RequestMap` | the flat in-flight map, its refinement of a map keyed by (session, id), and the map object |
| `Scanner` | line scanning under a cap, and the relay of scanned lines to the client |
| `EventStreamSpec` | sections 9.2.5 and 9.2.6 of the HTML Living Standard (WHATWG), as the reference for both readers |
| `EventStream`, `Streamable` | the buffered event parser and the streamable handler |
| `SseReader` | the streaming line machine |
| `SseProtocol` | the SSE proxy as a transition system: posts, streams, evictor, clock, request map, session table |
| `SseConservation`, `SseTruth`, `SseEviction`, `SseClients`, `SseRouting`, `SseNoninterference` | properties of all its runs |
| `SseScenarios` | short runs of that system behind what is said below about its documentation |
| `SseProxy` | the proxy object; each of its methods is proved to be a step or a run of that system |
| `StdioLifecycle`, `StdioChannel`, `StdioMux`, `StdioBook` | the subprocess lifecycle, the response channel, and many handlers over one channel |
| `StdioProxy` | the stdio handler, proved to be a run of that system |

How to read it. In each transition system an action is one critical section or one step between two of them. A
disabled action changes nothing, so every sequence of actions is a run, and a statement about all sequences is a
statement about all interleavings. A span is named by the post or handler that opens it; `started`, `ended` and
`displaced` are logs that nothing depends on. The classes hold the fields the program holds, and a ghost `model`
that their invariant ties to those fields; their contracts say which actions their code performs.

Facts the code does not enforce appear as hypotheses: ids and session ids free of NUL (`Plain`, `CleanRun`), no
reuse of an id in flight (`NeverReuses`, `NeverDisplaces`, `NoIdReused`), one session per stream (`OneSessionEach`),
ticks at most an interval apart (`Timely`). What the map needs of its keys is shown to be exact, and so is what no
reuse in flight buys, and which calls a stream with several sessions settles. An id is compared by its `IDString`,
so the number 1 and the string "1" are one id, and "a message carrying that id" includes a request made by the
server.

## What the proofs show about the code

- The flat map gives the answers of a map keyed by pairs, for every sequence of operations on given pairs and
  sessions, exactly when the joined keys tell those pairs apart and each drained session's prefix selects its own
  pairs (`FlatMapRefinesExactly`). NUL-free ids are enough (`FlatMapRefinesPairMap`), and one more pair can be added
  to them exactly when its key starts with a NUL (`OnePairMoreExactly`). Otherwise closing session "a" also drains a
  call of session "a NUL b" (`PrefixScanCrossesNul`).
- A call stored over one with the same session and id displaces its span for good. This is the only way a span
  is lost to displacement (`NothingDisplacedExactly`, `BooksBalanceExactly`).
- When a stream ends, exactly the calls of the session it registered last are ended with it
  (`StreamEndSettlesExactly`), and exactly that session is forgotten (`StreamEndForgetsExactly`). So a stream that
  advertises a second session orphans the first: its calls wait for the evictor.
- The streamable handler leaves a traced span open for good when the body is empty or is a JSON document that
  does not answer the call; that transport has no evictor. `Concludes` is the exact condition.
- The streaming reader acts on each data line under the event type read so far. Its calls are the standard's events
  exactly when each event has at most one data line, its type does not change after that line, and none is left
  without an end (`CallsAreDispatchesExactly`). An event whose data spans two lines breaks this wherever it stands in
  a stream (`SplitDataDisagrees`).
- The relay changes the bytes exactly when the stream does not end in a line feed, holds a carriage return before
  a line feed, or goes on for `cap` bytes without a line feed (`RelayIsTransparentExactly`).
- The scanner's lines are the standard's exactly when every carriage return is followed by a line feed or is the last
  byte (`ScanIsSpecLinesExactly`); the standard also ends a line at a carriage return alone.
- `Stop` returns with a started process not yet waited for exactly when the call enters after another one has set
  `stopped` and before `waitDone` closes (`StopReturnsEarlyExactly`), and there is such a run (`StopCanReturnEarly`).
- A stdout reader that is cancelled with a line in hand returns without closing the channel, so waiting handlers
  have only their own timers to rely on (`LastWord`, and `GivesUpOnWaiter` for such a run).
- On stdio an answer becomes the reply to its request exactly when the handler of that request is the one that
  receives it (`AnswerReachesItsTakerExactly`). Another handler that receives it discards it, and the first one times
  out (`AnswerCanBeLost`). A request body that does not parse is forwarded and then waits for an answer with the
  id "".
- The program's own README.md, line 291, and internal/telemetry/span.go:17 say `error` means the server answered with
  an error, and line 293 of that README.md says `timeout` means the stream stayed open. The code also uses `error` for
  a POST that failed or was rejected (`RejectionIsAnError`), and evicts calls that never had a stream
  (`TimeoutWithoutStream`); the model follows the code.
- A JSON id `null` is present and has the correlation form "null" (internal/proxy/rpc_test.go:15), so a request
  with it is traced and, on stdio, waits for an answer.

## Model

| member | source | states |
|---|---|---|
| Text.TrimmedExactly | internal/proxy/sse.go:233-237 | A text is the trimmed one if and only if it is the stretch between the white space at both ends and neither begins nor ends with any: trimming loses nothing else |
| Rpc.IdKept | internal/proxy/rpc.go:86-100 | An id correlates as a text if and only if it is that string, or other JSON written so, or is absent and the text is empty |
| Rpc.IsErrorReports | internal/proxy/rpc.go:120-143 | For every response: an error exactly when it has an error member or a tool-level error; the first wins and gives its message and code, the other its first text, "tool error" without one, and code 0 |
| Rpc.AnswerMeans | internal/proxy/sse.go:276-301 | A message answers a call with a verdict if and only if it parses, has that id and not "", and the verdict is its error report with the size of the data |
| Rpc.TracedMethods | internal/proxy/filter.go:13-34 | Lifecycle methods are traced exactly when asked for, tool calls always, everything else exactly when all methods are |
| Rpc.DecimalIsNumeral | internal/proxy/sse.go:433-433 | The status in a rejection text is written in decimal digits without a leading zero that stand for that number |
| Spans.TracedExactly | internal/proxy/sse.go:339-341 | A request opens a span if and only if it parses, its method is traced and it has a present id that does not correlate as "" |
| Spans.ClientIsLastInitialize | internal/proxy/stdio.go:259-263 | On the transports without sessions the client is, after any series of requests, what the last initialize said, an empty name included |
| RequestMaps.UnkeyOfKey | internal/proxy/request_map.go:31-36 | A key determines its (session, id) pair when the session has no NUL, and the id has none where there is no session |
| RequestMaps.KeySplits | internal/proxy/request_map.go:21-36 | With no hypothesis: exactly which pairs can share a given key |
| RequestMaps.PlainIsExact | internal/proxy/request_map.go:31-36 | A pair is the only plain reading of its key just when it is plain, or its key starts with a NUL, which no plain pair's does |
| RequestMaps.OwnershipAgrees | internal/proxy/request_map.go:82-88 | The prefix scan selects a plain pair's key exactly when the pair belongs to the session |
| RequestMaps.StepRefines | internal/proxy/request_map.go:50-110 | Each operation on the flat map, over pairs and sessions its keys separate, keeps it equal to a map keyed by pairs and gives the same outcome, drained entries as a multiset |
| RequestMaps.FlatMapRefinesExactly | internal/proxy/request_map.go:21-110 | For any pairs and sessions in use, every sequence of Store, Take, TakeSession and EvictStale on them gives the answers of the pair map if and only if the joined keys tell the pairs apart and each session's prefix selects its own pairs |
| RequestMaps.OnePairMoreExactly | internal/proxy/request_map.go:31-110 | With NUL-free sessions, the plain pairs and one more, every sequence gives the answers of the pair map if and only if that pair is plain or its key starts with a NUL |
| RequestMaps.FlatMapRefinesPairMap | internal/proxy/request_map.go:21-110 | In particular every sequence on plain pairs and NUL-free sessions gives the answers of the pair map |
| RequestMaps.PrefixScanCrossesNul | internal/proxy/request_map.go:82-91 | A sequence on which the two maps disagree: the drain of a session takes a call of another whose id continues it after a NUL |
| RequestMaps.RequestMap.constructor | internal/proxy/request_map.go:45-48 | The map starts empty |
| RequestMaps.RequestMap.Store | internal/proxy/request_map.go:50-55 | The entry is under its key, replacing whatever was there, and no other key changes |
| RequestMaps.RequestMap.Take | internal/proxy/request_map.go:57-69 | Exactly the entry under the key is removed and returned, or nothing |
| RequestMaps.RequestMap.TakeSession | internal/proxy/request_map.go:71-93 | The delete-while-iterating loop, in any key order, removes and returns exactly the session's entries, none lost or duplicated; nothing for "" |
| RequestMaps.RequestMap.EvictStale | internal/proxy/request_map.go:95-110 | The loop splits the map exactly by age: strictly older entries are returned once each, the rest stay |
| Scanner.StopsShortExactly | internal/proxy/sse.go:213-217 | The scan stops at an over-long line if and only if some stretch of as many bytes as the cap holds no LF |
| Scanner.RelayIsTransparentExactly | internal/proxy/sse.go:213-224 | The client gets the upstream bytes unchanged if and only if they end in LF, hold no CR LF and have no stretch of as many bytes as the cap without LF |
| Scanner.RelayNotLonger | internal/proxy/sse.go:213-224 | The relay adds no byte but the line feed of an unterminated last line, and loses bytes when a line is too long |
| Scanner.ScannedLinesFit | internal/proxy/sse.go:213-218 | Every scanned line is free of LF and shorter than the cap, for every input |
| Scanner.ScanUnlines | internal/proxy/sse.go:213-221 | Scanning printed lines gives them back, less one trailing CR each |
| Scanner.LastLineNeedsNoLineFeed | internal/proxy/sse.go:213-217 | Data within the cap that ends without a line feed scans as it does with one added |
| Scanner.RescanAgreesExactly | internal/proxy/sse.go:213-224 | A client scanning the relayed bytes sees the same lines if and only if none of them ends in CR |
| EventStream.BlankIsAllSpace | internal/proxy/streamable.go:220-225 | The payloads skipped are exactly those of white space alone |
| EventStream.PayloadsAreDispatchedData | internal/proxy/streamable.go:214-253 | On every list of lines the parser's payloads are the non-blank data of the events section 9.2.6 of the HTML Living Standard dispatches, the input being closed by a blank line and bare "data" lines removed |
| EventStream.ScanIsSpecLinesExactly | internal/proxy/streamable.go:215-216 | On data within the cap the scanned lines are those of section 9.2.5 and at most one more, if and only if every CR is followed by LF or is the last byte; they are the same lines if the data then ends in LF |
| EventStream.RoundTrip | internal/proxy/streamable.go:209-268 | Printing any non-blank CR-free payloads as events, with comment, id, retry and event lines anywhere, then scanning and parsing gives back those payloads in order, as does the standard |
| EventStream.CutPayloads | internal/proxy/streamable.go:235-253 | The same payloads are read when the printed body lacks its closing blank line, or that and the line feed of the line before it |
| EventStream.PrintEventPrintsExactly | internal/proxy/streamable.go:235-250 | The printer that splits on LF into data lines is such a printing if and only if the payload has no CR and each of its lines fits the cap behind its field name |
| Streamable.ExactlyOneStreamVerdict | internal/proxy/streamable.go:209-213 | For every list of payloads there is exactly one verdict: the first answer's, or abandoned |
| Streamable.PrintedAnswerSettlesTheCall | internal/proxy/streamable.go:209-261 | An answer printed anywhere in an event stream settles its call, whatever precedes it without that id, also when the body lacks its closing blank line, or that and the line feed before it |
| Streamable.PayloadsAfterNext | internal/proxy/streamable.go:235-250 | One pass of the scan loop keeps the payloads found so far plus those to come equal to those of the whole body |
| Streamable.StreamableProxy.constructor | internal/proxy/streamable.go:35-44 | A new proxy knows no client and has opened and ended no span |
| Streamable.StreamableProxy.EndSpan | internal/proxy/streamable.go:301-308 | Exactly one end is recorded, after all earlier ones |
| Streamable.StreamableProxy.FinishIfMatch | internal/proxy/streamable.go:270-299 | The span is ended, with the message's verdict, if and only if the message carries the call's id |
| Streamable.StreamableProxy.FinishEvent | internal/proxy/streamable.go:220-233 | Ending an event keeps the span settled by the first answer among the payloads seen, and by no later one |
| Streamable.StreamableProxy.EndSpanFromEventStream | internal/proxy/streamable.go:214-261 | For every byte sequence, over-long lines and unterminated events included, the span is ended exactly once: by the first answer in the scanned prefix, else abandoned |
| Streamable.StreamableProxy.StreamAndParseResponse | internal/proxy/streamable.go:162-197 | The client gets the body unchanged, up to a break; the span is ended once exactly when the body concludes the call |
| Streamable.StreamableProxy.ServeHTTP | internal/proxy/streamable.go:46-160 | For every request and upstream outcome: the reply, the client identity, the span opened, and that it is ended exactly once or, precisely when nothing concludes it, never |
| SseReader.TypeIsLastEventLine | internal/proxy/sse.go:226-235 | After any lines the event type is the trimmed value of the last event line since the last blank line |
| SseReader.SessionIsLastRegistered | internal/proxy/sse.go:236-241 | The stream's session is the one its last registering call gave it, or none |
| SseReader.CallsAreDispatchesExactly | internal/proxy/sse.go:226-242 | With no line that is just "data", the calls of handleSSEData are the dispatches of section 9.2.6 of the HTML Living Standard, up to white space, if and only if every event has at most one data line, read under the type the event ends with, and none is left unended |
| SseReader.CallsAreDispatchesOfRest | internal/proxy/sse.go:226-242 | The same if and only if for every stream whatever, against the standard's reading of it without its bare "data" lines |
| SseReader.NoMoreEventsThanCalls | internal/proxy/sse.go:236-242 | With no bare "data" line, no part of a stream has more dispatches than calls made and owed |
| SseReader.SplitDataDisagrees | internal/proxy/sse.go:236-242 | In any stream, two data lines of one event, anywhere in it, make the calls differ from the dispatches |
| SseConservation.StepKeepsWellFormed | internal/proxy/sse.go:357-369 | Every step keeps each entry, wherever it is, the one its post stored, under that post's key |
| SseConservation.StepConserves | internal/proxy/sse.go:192-211 | Every step keeps each started span in exactly one place |
| SseConservation.RunIsSound | internal/proxy/sse.go:113-465 | In every reachable state each started span is exactly one of: being opened, in the map, held by the thread that took it, ended, displaced |
| SseConservation.SpansEndAtMostOnce | internal/proxy/sse.go:456-465 | No run ends a span twice, ends a displaced span, or ends one never started |
| SseConservation.NothingDisplacedExactly | internal/proxy/request_map.go:50-55 | No span is displaced if and only if no (session, id) is reused while in flight |
| SseTruth.EveryHeldWasTaken | internal/proxy/sse.go:284-287 | Every ended span was taken out of the map by an action of the run |
| SseTruth.FailureExplained | internal/proxy/sse.go:404-434 | A reply to a POST is a failure with a text if and only if the request could not be made or sent and the text says which, or the status is from 400 up and the text says so with its number; no other status is one |
| SseTruth.AnswerAtMeans | internal/proxy/sse.go:236-301 | A stream line answers a call with a verdict if and only if it is a data line of a message, or of no type, whose trimmed data answers that call so |
| SseTruth.ClosingHungUp | internal/proxy/sse.go:192-205 | In every run a stream that is closing hung up before, by an enabled action with the reason it now has |
| SseTruth.StatusIsTruthful | internal/proxy/sse.go:113-465 | Every ended span was taken, while its call was in flight, by an enabled action that is what its verdict says: a message with that id on that session's stream, age over the deadline, a POST of that call that failed or got a status from 400 up, or the end of that stream after an enabled hangup of it in the run, by the client or by upstream as the verdict says |
| SseTruth.FailureIsItsOwn | internal/proxy/sse.go:404-454 | When no id is reused in a session, a span with a POST failure was taken by the enabled conclusion of its own POST, whose reply, no status below 400, explains its text |
| SseTruth.CallsAreSettledExactly | internal/proxy/sse.go:276-302 | In a reachable state an action takes a call out of flight if and only if it is that call's answer, the end of its session, the failure of its POST or its deadline, and the taker holds it with that verdict |
| SseTruth.StreamEndSettlesExactly | internal/proxy/sse.go:191-211 | In every clean run a drained stream takes exactly the calls in flight of the session its lines registered last; those of a session it registered before stay |
| SseTruth.StreamEndForgetsExactly | internal/proxy/sse.go:191-198 | In every run a stream that hangs up removes exactly the record of the session its lines registered last |
| SseTruth.SpansSayTheirCall | internal/proxy/sse.go:339-366 | In every run an ended span said from its start what its own request said: the method, the tool exactly for a tool call, the present id, and by index over its query the session |
| SseEviction.StepKeepsSwept | internal/proxy/sse.go:113-128 | Every step keeps the map free of entries that were stale at the last tick |
| SseEviction.EvictionBound | internal/proxy/sse.go:108-128 | With ticks at most an interval apart every entry's age is at most timeout + interval, and every evicted span was over the timeout by at most one interval |
| SseEviction.TrackedSpanKeepsStart | internal/proxy/sse.go:359-366 | A stored span's entry has the time it was stored in every later state |
| SseEviction.NoSpanOutlivesTheWindow | internal/proxy/sse.go:108-128 | A span stored longer ago than timeout + interval is ended, displaced, or in the hand of the thread about to end it, with or without a stream |
| SseClients.StreamsFollowTheirLines | internal/proxy/sse.go:191-242 | Under every interleaving a stream's event type and session are those of its own lines alone |
| SseClients.SessionTableHasLatestClient | internal/proxy/sse.go:467-493 | The table's client of a session is the latest named initialize on it since its stream last ended |
| SseClients.SpansCarryTheirClient | internal/proxy/sse.go:335-355 | For any history over any sessions every span carries exactly its own session's latest client, or empty strings, at the enabled action that opened it |
| SseRouting.SessionIsCarried | internal/proxy/sse.go:65-81 | By index over the pairs of a query: the first session_id gives the session if it has a value, else the first sessionId does, else there is none; no other id is read |
| SseRouting.SessionIsNamed | internal/proxy/sse.go:71-81 | An endpoint text names a session if and only if it parses and its query carries that id, or names none |
| SseRouting.AdvertisesExactly | internal/proxy/sse.go:236-272 | A stream line registers a session with an endpoint text if and only if it is a data line of an endpoint event whose trimmed data is that text and names that session |
| SseRouting.UpstreamGoesThere | internal/proxy/sse.go:383-402 | For every endpoint and target: one that starts with "http" is the destination as it stands; a relative one gives the target's scheme and authority, its own query, and its own path if that starts with a slash, else the target's path up to the last slash and then its own; with none, or one that does not parse, the request's own path and query on the target |
| SseRouting.ResolveKeepsSession | internal/proxy/sse.go:389-394 | Resolving a reference (section 5.2.2 of RFC 3986) that carries a session id keeps that id |
| SseRouting.UpstreamKeepsSession | internal/proxy/sse.go:372-402 | Each of the three ways to build the upstream URL keeps the request's session |
| SseRouting.NoCrossRouting | internal/proxy/sse.go:254-402 | In every reachable state each registered endpoint is of its own session, and every forwarded POST went to a URL of the request's session |
| SseRouting.SessionTableHasLatestEndpoint | internal/proxy/sse.go:196-272 | The table's endpoint of a session is the latest one advertised for it since its stream last ended |
| SseRouting.PostsFollowTheirEndpoint | internal/proxy/sse.go:372-402 | Every forwarded POST went, at the enabled action that routed it, to the place just described for the endpoint its own session's stream had last advertised |
| SseRouting.ForwardedWithItsSession | internal/proxy/sse.go:372-402 | In every run a forwarded POST carries upstream, by index over the queries, the session id it came with |
| SseNoninterference.ViewOfStep | internal/proxy/sse.go:252-454 | One step, seen from a session, is that step in the session's view if it is the session's own, and nothing otherwise |
| SseNoninterference.Noninterference | internal/proxy/sse.go:252-454 | For any run and session, the session's calls, spans, end order, verdicts, times, clients and upstream URLs are those of the run without the other sessions |
| SseConservation.RunHoldsLast | internal/proxy/sse.go:404-434 | In every reachable state a POST handler holds an entry only after its last section |
| SseScenarios.RejectionIsAnError | internal/proxy/sse.go:428-434 | For any traced request and status from 400 up, a run in which its span ends as failed with that rejection and no stream was ever open |
| SseScenarios.TimeoutWithoutStream | internal/proxy/sse.go:108-128 | For any traced request, a run in which its span ends as timed out though no stream was ever open |
| SseProxy.Proxy.constructor | internal/proxy/sse.go:91-106 | A new proxy is in the initial state |
| SseProxy.Proxy.EndSpan | internal/proxy/sse.go:456-465 | One held span is exported with its verdict after all earlier ones, and is held no longer |
| SseProxy.Proxy.EndAll | internal/proxy/sse.go:206-210 | The loop exports each of the taken entries once, in order, with the verdict, and its thread then holds nothing |
| SseProxy.Proxy.RememberClient | internal/proxy/sse.go:467-480 | A named client is recorded for the session, keeping its endpoint; a nameless one changes nothing |
| SseProxy.Proxy.RegisterEndpoint | internal/proxy/sse.go:263-270 | The endpoint is recorded for that session, keeping its client, and no other record changes |
| SseProxy.Proxy.ReceivePost | internal/proxy/sse.go:320-338 | The first part of the POST handler is the arrival action |
| SseProxy.Proxy.StartSpan | internal/proxy/sse.go:342-357 | Starting the span is the opening action, with the attributes the log records |
| SseProxy.Proxy.Track | internal/proxy/sse.go:359-366 | Storing the entry is the tracking action |
| SseProxy.Proxy.TraceIfAsked | internal/proxy/sse.go:339-370 | A request is opened and tracked exactly when its method is traced and it has an id |
| SseProxy.Proxy.ChooseUpstream | internal/proxy/sse.go:372-402 | Choosing the URL is the routing action; the URL is of the request's session and is where its recorded endpoint sends it |
| SseProxy.Proxy.TakeAndEnd | internal/proxy/sse.go:445-454 | Taking one entry and ending its span is the action that grabs it; the entry leaves the map and is exported once with the verdict, and nothing new stays held |
| SseProxy.Proxy.Settle | internal/proxy/sse.go:404-434 | A status below 400 leaves map and exports as they are; a traced POST with any other reply takes its call out of the map and exports it with the text that explains that reply |
| SseProxy.Proxy.HandlePost | internal/proxy/sse.go:308-443 | The handler performs exactly its actions in order, forwards to a URL of the request's session, and returns holding nothing: with its own entry stored and nothing exported when the status is below 400, else with its key absent and exactly its entry exported with the text that explains the reply |
| SseProxy.Proxy.HandleEndpoint | internal/proxy/sse.go:254-272 | An endpoint event is one line action; it returns the session its text names, and that session's record alone gets the endpoint, keeping its client |
| SseProxy.Proxy.HandleMessage | internal/proxy/sse.go:274-304 | A message event is one line action; what it says answers a call takes that call of this session out of the map and exports it so, and anything else changes neither |
| SseProxy.Proxy.HandleSSEData | internal/proxy/sse.go:249-306 | Every data payload is one line action, with the session it registers |
| SseProxy.Proxy.ReadLine | internal/proxy/sse.go:226-241 | One pass of the scan loop is one line action, and its locals are the stream's state |
| SseProxy.Proxy.EndTaken | internal/proxy/sse.go:206-210 | Ending the entries a section took is that action, and each of them is exported once with the verdict |
| SseProxy.Proxy.Teardown | internal/proxy/sse.go:191-211 | The deferred teardown forgets the session, drains exactly its entries as the drain of the map does, and exports each once as abandoned with whether the client had gone; with no session it changes nothing |
| SseProxy.Proxy.ScanLoop | internal/proxy/sse.go:213-242 | The scan loop writes each line followed by LF and is exactly one line action per line, in order |
| SseProxy.Proxy.HandleSSE | internal/proxy/sse.go:191-247 | A whole stream: the client gets each scanned line, and the reader's actions are its connection, each line in order and the teardown |
| SseProxy.Proxy.TakeStale | internal/proxy/request_map.go:95-110 | The stale entries, and only those, leave the map |
| SseProxy.Proxy.EvictOnce | internal/proxy/sse.go:120-126 | One tick is the tick action; the map loses exactly what the eviction drains, and each of those is exported once as timed out |
| SseProxy.Proxy.WaitAndEvict | internal/proxy/sse.go:116-127 | One round of the loop is the wait and then the tick |
| SseProxy.Proxy.EvictLoop | internal/proxy/sse.go:113-128 | The eviction loop over any series of waits is exactly those waits, each with its tick |
| StdioLifecycle.StepKeepsSound | internal/proxy/stdio.go:94-221 | Every step keeps the flags, the channels and the monitor's position consistent |
| StdioLifecycle.LifecycleIsSafe | internal/proxy/stdio.go:94-221 | In every run waitDone closes at most once; a started process not running has it closed; the Stop call that set stopped returns only after that; exitErr gets one value exactly if the monitor saw stopped false |
| StdioLifecycle.NeverRunsAgain | internal/proxy/stdio.go:95-121 | A process noted gone never runs again, whatever is called, and waitDone stays closed once |
| StdioLifecycle.StopReturnsEarlyExactly | internal/proxy/stdio.go:122-154 | In every run a Stop call comes back at once with a started process not waited for if and only if it enters after another call set stopped and before waitDone closes |
| StdioLifecycle.StopCanReturnEarly | internal/proxy/stdio.go:129-132 | A run of two Stop calls in which the second is back while the process is there |
| StdioLifecycle.StdioProcess.constructor | internal/proxy/stdio.go:52-92 | A new proxy is in the initial state of the lifecycle |
| StdioLifecycle.StdioProcess.Start | internal/proxy/stdio.go:94-121 | Start is the start action and succeeds exactly for the first command that can be spawned |
| StdioLifecycle.StdioProcess.StopEnter | internal/proxy/stdio.go:123-134 | Exactly the first caller while running sets the flag and goes on to wait |
| StdioLifecycle.StdioProcess.StopReturn | internal/proxy/stdio.go:141-153 | The waiting call returns with the channel closed |
| StdioLifecycle.StdioProcess.CloseWaitDone | internal/proxy/stdio.go:198-199 | The monitor's close is the first one: the channel was open |
| StdioLifecycle.StdioProcess.NoteExit | internal/proxy/stdio.go:201-204 | The locked section clears running and hands on whether a stop was asked for |
| StdioLifecycle.StdioProcess.ReportExit | internal/proxy/stdio.go:206-220 | The report is sent exactly when no stop was asked for, and the buffer is never full then |
| StdioLifecycle.StdioProcess.MonitorProcess | internal/proxy/stdio.go:197-221 | The monitor closes waitDone once, clears running, and reports an exit exactly when stop was not asked for |
| StdioChannel.ReaderKeepsFaithful | internal/proxy/stdio.go:156-188 | Every step of the reader keeps what was sent, with what it holds, equal to the output |
| StdioChannel.PopKeepsFaithful | internal/proxy/stdio.go:349-349 | Receiving takes the oldest item and loses none |
| StdioChannel.ChannelCarriesOutput | internal/proxy/stdio.go:156-188 | What is sent is a prefix of the non-empty output lines in order, then at most one error, which is last; at most 16 items wait; one close at most |
| StdioChannel.ResponseChannel.constructor | internal/proxy/stdio.go:86-86 | The channel starts empty and open |
| StdioChannel.ResponseChannel.Put | internal/proxy/stdio.go:170-171 | An item goes to the end of the channel |
| StdioChannel.ResponseChannel.ReadResponses | internal/proxy/stdio.go:156-188 | The reader over any output, final error and moment of cancellation: exactly which items it sends and whether it closes |
| StdioMux.NotificationExactly | internal/proxy/stdio.go:255-257 | A request is not waited for if and only if it parses and has no id, or one that correlates as "" |
| StdioMux.AnswersById | internal/proxy/stdio.go:354-384 | A line answers a request if and only if it decodes to a message whose present id is the request's |
| StdioMux.RunIsDemuxed | internal/proxy/stdio.go:338-420 | In every reachable state each received item has one taker and every 200 reply is a line its handler took and that answers it |
| StdioMux.RepliesAnswerTheirRequest | internal/proxy/stdio.go:338-420 | Under every interleaving items are received in order by one handler each, and a 200 reply carries a subprocess line with the handler's own id |
| StdioMux.LastWord | internal/proxy/stdio.go:170-187 | In every continuation of every run, after the close nothing is sent and nothing is closed again, and a reader cancelled with a line in hand leaves the channel open for good |
| StdioMux.ClosedIsHeardOnlyWhenClosed | internal/proxy/stdio.go:352-359 | In every run a handler replies that the subprocess closed only over a channel that is closed and from which everything sent has been received |
| StdioMux.NothingIsLostUncancelled | internal/proxy/stdio.go:156-188 | In every run without a cancellation the reader gives up on nothing: past the output every line has been sent, and then the error its scan ended with, if any, but for the one still in hand |
| StdioMux.RunIsSettled | internal/proxy/stdio.go:338-420 | In every reachable state each decisive item is its taker's reply and the last item that handler took |
| StdioMux.TakersReply | internal/proxy/stdio.go:349-420 | Over every run, whoever receives an error or a line with its id has replied with it and receives nothing later |
| StdioMux.AnswerReachesItsTakerExactly | internal/proxy/stdio.go:338-420 | Over every run, a line that answers a handler's request is its reply if and only if that handler received it |
| StdioMux.AnswerCanBeLost | internal/proxy/stdio.go:379-384 | For any two requests with different ids there is a run in which the other handler takes the answer to the first and the first ends with 504 |
| StdioMux.GivesUpOnWaiter | internal/proxy/stdio.go:170-174 | For any request that waits, a run in which the reader gives up on a line and the handler waits on an open, empty channel |
| StdioMux.LoneWaiter | internal/proxy/stdio.go:338-420 | A handler alone with the channel while the reader goes on sending, in any order, never goes past the first decisive item of all that are sent, waits until it has taken it, and then has replied with it |
| StdioMux.LoneWaiterGetsFirstAnswer | internal/proxy/stdio.go:338-420 | Whatever the two have done so far, one more step for each item left up to the first decisive one, items sent meanwhile included, brings the reply |
| StdioBook.ReturnKeepsBook | internal/proxy/stdio.go:423-434 | Every way out of a handler leaves its key absent and its own span ended exactly once |
| StdioBook.StepKeepsBookExactly | internal/proxy/stdio.go:265-434 | A step keeps the books if and only if it does not store a span over one still there |
| StdioBook.BooksBalanceExactly | internal/proxy/stdio.go:265-434 | All through a run the map is exactly the spans of the handlers under way and each handler that left had its own span ended once, answered as the reply says or failed with the reason that belongs to the reply, if and only if no span is ever stored over another |
| StdioBook.BooksBalance | internal/proxy/stdio.go:265-434 | In particular while the ids of the traced handlers under way are distinct |
| StdioBook.ErrorTextIsTheReaders | internal/proxy/stdio.go:364-372 | Under every interleaving a span ended by a handler that replied with a subprocess error failed with the text of an error that same handler took from the channel |
| StdioBook.SharedIdLosesSpan | internal/proxy/stdio.go:292-292 | Two handlers under way with one id: the first one's span is never ended, and its exit ends the second one's |
| StdioProxy.Proxy.constructor | internal/proxy/stdio.go:52-92 | A new proxy is in the initial state of the handlers' system |
| StdioProxy.Proxy.CleanupSpan | internal/proxy/stdio.go:423-434 | The entry under the id leaves the map and its span is ended once; without one nothing changes |
| StdioProxy.Proxy.Leave | internal/proxy/stdio.go:338-363 | Each way out is one action that ends the handler's span if it has one |
| StdioProxy.Proxy.Accept | internal/proxy/stdio.go:251-263 | Arrival is one action, and an initialize replaces the client identity, an empty one included |
| StdioProxy.Proxy.Track | internal/proxy/stdio.go:265-295 | Opening the span is one action that puts the entry under its id |
| StdioProxy.Proxy.ReceivePost | internal/proxy/stdio.go:240-295 | A traced request is stored under its id, an initialize replaces the client, and these are the handler's first actions |
| StdioProxy.Proxy.TakeItem | internal/proxy/stdio.go:349-420 | The oldest item settles the reply exactly when it is an error, whose text is the verdict's, or answers this id, and then is the reply; otherwise it is dropped and nothing else changes |
| StdioProxy.Proxy.Select | internal/proxy/stdio.go:340-420 | One round of the select: which of client, timer, close and item settles the reply, and with what |
| StdioProxy.Proxy.AwaitResponse | internal/proxy/stdio.go:336-420 | The waiting loop under any schedule of the reader ends; of the items it took only the last can be decisive, and if it is, it settles reply and verdict |
| StdioProxy.Proxy.WriteRequest | internal/proxy/stdio.go:309-328 | The subprocess gets the body and a line feed, or as many bytes of that as the pipe takes before it fails, and success is reported exactly when it took all |
| StdioProxy.Proxy.CheckRunning | internal/proxy/stdio.go:297-307 | With nothing running the reply is 503 and the handler's span, if any, is ended |
| StdioProxy.Proxy.Write | internal/proxy/stdio.go:309-335 | A failed write ends the span with a 502, a notification leaves with a 202, any other request goes on to wait |
| StdioProxy.Proxy.Send | internal/proxy/stdio.go:297-335 | Which requests are answered without waiting, with what, and their spans ended |
| StdioProxy.Proxy.Forward | internal/proxy/stdio.go:297-421 | From the opened span to the reply: on every path its entry is out of the map and its span ended with a verdict that fits the reply |
| StdioProxy.Proxy.ServePost | internal/proxy/stdio.go:242-421 | From arrival to reply, on every path: the key is absent, exactly the handler's own span is ended once, and its verdict fits the reply |
| StdioProxy.Proxy.ServeHTTP | internal/proxy/stdio.go:229-421 | Any request: a refused one changes nothing, any other is as the handler's run says |

## Left out

- HTTP servers and clients, flushing, headers, trace context, pipes and signals: their outcomes are choices of the environment, given as parameters or actions.
- SSE connection set-up and POST bodies that cannot be read (internal/proxy/sse.go:149-179 and 310-314), the status and body copied back to a POST's client (436-442), and the reverse proxy for other methods (142-143): they touch no span, map or session.
- JSON decoding: a function from bytes to an optional message; what it depends on is kept as fields of `Request` and `Response`.
- URLs: percent-decoding, removal of dot segments, opaque and user-info parts, and printing a URL and parsing it again; a built URL is a value.
- White space outside ASCII: `TrimSpace` trims the ASCII white space of Go's, one `char` being one byte.
- Media types: whether a content type is an event stream is a boolean of the upstream reply.
- The wording of the abandoned and timeout reasons: the verdict says which reason it is, and whether the client had gone.
- OpenTelemetry, durations, argument capture and span attributes other than method, tool, id, session and client.
- Time is whole numbers.
- SseEviction.EvictionBound: reading the clock and storing the entry are one step, so the start time is that of the store; a handler delayed between the two would add its delay to the bound.
- SseProxy.Proxy.HandlePost: runs one handler with no other between its sections; the interleavings are those of the transition system, whose actions the sections are.
- SseProxy.Proxy.HandleSSE: is given the whole stream at once, for the same reason.
- SseProxy.Proxy.EvictLoop: the times of the ticks are given.
- StdioProxy.Proxy.ServePost: only the stdout reader runs between its sections; other handlers do in the transition system.
- StdioProxy.Proxy.WriteRequest: the two writes are one step of the transition system, which keeps whether both succeeded and not the bytes.
- StdioMux.RepliesAnswerTheirRequest: whether the subprocess is running is a choice of the environment there; the flag itself is in the lifecycle.
- SseClients.SpansCarryTheirClient: client identity is proved for the SSE transport only; the other two share one unguarded client name among all handlers.
- StdioLifecycle.LifecycleIsSafe: the five second wait and the kill are the environment's, as an exit at any time.
- Session records are values in the table, replaced under its lock, where the program updates a shared record under the same lock.
- The map iteration order of Go: the loops pick keys in any order.
