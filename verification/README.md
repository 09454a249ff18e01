# A verified model of the HTTP server and load balancer

This project models the concurrent core that the HTTP server and the load balancer share,
and the HTTP/1.1 code they run on it, and proves what that code is relied on for:

* **The hand-off** between one reactor thread and the workers (`Handoff`, `Workers`, `Turns`,
  `TurnEffects`, `Reactor`, `HandoffOwnership`, `HandoffSafety`, `HandoffProgress`, `HandoffHangups`). Every
  interleaving is covered. Each live connection has exactly one token (armed, queued, with a
  worker, in the pending or the swapped re-arm list, or in the reactor's hand); no descriptor
  is served twice, no pointer dangles although descriptors are reused, no re-arm reaches a
  later connection, and a run can stop moving only with every live connection armed.
* **The incremental parsers and their printers** (`Text`, `Messages`, `Spelling`,
  `MessageParser`, `Grammar`, `LineShapes`, `Printing`, `Forwarding`, `ResponsePrinter`, `Deployment`). Read
  boundaries do not matter; the parser decides a reference grammar; parsing undoes both
  printers.
* **The two together** (`WriteBuffers`, `Transcript`, `Conversations`, `ServerKeepAlive`). In
  every run of the hand-off, each request that is served is the one that the bytes read since
  the answer before decode to, and the client's byte stream is the responses in order.
* **The thread pool** (`ThreadPool`), **upstream selection** (`UpstreamPool`,
  `UpstreamCallers`) and **the kqueue backend** (`Kqueue`). `KqueueHandoff` puts the hand-off on
  top of the kqueue backend and discharges the assumption the hand-off rests on.

`dafny verify dfyconfig.toml` checks everything.

## How it is modelled

Objects that the program updates in place are classes (`MessageParser.HttpParser`,
`Workers.Connection`, `Reactor.ReactorThread`, `UpstreamPool.Upstreams`,
`Kqueue.KqueueReactor`). Their methods are proved against functions on values, and the
theorems are about those functions. `Spelling`, `LineShapes` and `TurnEffects` describe names,
lines, wishes and tables without the functions of the program, letter by letter and entry by
entry, and prove that the functions agree. Protocols of several threads are step systems: a label is
what one thread does between two lock operations, and it carries what the environment decided.

The request and the response parser run the same phases and differ only in the start line, so
one `Parser` carries both. A byte is a `char`; `isspace` and `tolower` are those of the C
locale; `strcasecmp` and `strtol` stop where the C functions stop; `long` is 64 bits wide with
saturation in `strtol`, `int` is 32 bits wide with wrap-around in the cast, `size_t` is 64 bits
wide with wrap-around in the ticket counter. In the hand-off each task and re-arm carries the
identity of the connection it was made for beside its descriptor; no step reads it.

The environment is an input. `send`, `recv` and `accept` may answer anything at any time; the
router and the upstream are arbitrary; condition variables may wake for no reason. Four
assumptions about the event loop and the kernel are explicit in the guards of the steps:

1. an event names the listening socket or a descriptor whose mask is not 0
   (`Handoff.Deliverable` with `hangups` off); `KqueueHandoff` proves this of kqueue, epoll
   does not give it;
2. one batch holds at most one event per descriptor (`Handoff.OneEventPerFd`);
3. `accept` yields a descriptor that the process has not open (`open` in `Handoff.State`);
   that it never hits a live entry is proved (`HandoffSafety.AcceptTakesAFreeDescriptor`);
4. the reactor's `add`, `modify` and `remove` succeed (`Kqueue.FailedModify` says what a failing one
   leaves behind), and a descriptor is removed from kqueue before it is closed.

## Where the code and its documentation part

The model follows the code.

* `README.md:18-19` and `src/server/http_server.cpp:59-66` say that the reactor disables
  further delivery for a dispatched descriptor. With epoll a mask of 0 does not stop hangups,
  which `src/net/epoll_reactor.cpp:66` reports as errors, and the reactor then destroys the
  connection a worker holds. `HandoffHangups.SafeExactlyWithoutHangups` gives the exact
  condition, and `HandoffHangups.HangupDestroys` a run.
* `HttpServer` reads `req.keepAlive` after `reset()` has restored the default
  (`src/server/http_server.cpp:194-195`), so a response that is written at once is always
  followed by another read, also after `Connection: close`. `HandoffSafety.KeepAliveOverRuns`
  gives the exact condition for both programs; `ServerKeepAlive.ServerReadsOn` gives an input,
  and `ServerKeepAlive.ServerRunReadsOn` a run.
* A Connection header of a relayed response overrides the flag that `serialize` is given
  (`src/net/http_parser.cpp:87`, `93-95`). `ResponsePrinter.RelayTellsTheTruth` gives the exact
  condition. Behind the load balancer this repository's server is always asked to close, so
  the client of a completed exchange reads "close" even when the load balancer keeps the
  connection; `Deployment.WhatTheClientReads` gives the exact condition over all outcomes.
* A parser that has failed reports Complete when it is fed again
  (`src/net/http_parser.cpp:192`). `MessageParser.ChunkedStatus` gives the exact condition under
  which statuses agree and `MessageParser.StatusesDiffer` an input for which they do not;
  `HandoffSafety.ConsumeNeverOnFailed` shows that the programs never feed a failed parser.
* The rotation of `pickNext` skips or repeats at the counter's wrap unless the number of
  upstreams divides 2^64 (`UpstreamPool.RoundRobinAcrossWrap`,
  `UpstreamCallers.BalancedForEver`).
* The thread pool promises to run what it is given. A task that is handed in from outside
  after the last worker has left is lost; `ThreadPool.DrainedUnlessTooLate` gives the exact
  condition and `ThreadPool.LateTaskIsLost` a run.
* `remove` ignores what the kernel answers (`src/net/kqueue_reactor.cpp:73-75`);
  `Kqueue.RefusedRemove` says when a refusal is harmless.

## Model

| member | source | states |
|---|---|---|
| Text.FindCrlf | src/net/http_parser.cpp:26-32 | the line end found is the first one, and none is found exactly when the buffer holds no complete line end |
| Text.FindCrlfStable | src/net/http_parser.cpp:26-32 | bytes that arrive later never move a line end that was found |
| Text.Trim | src/net/http_parser.cpp:17-22 | the two-cursor loop computes the trimmed string |
| Text.TrimmedIsSlice | src/net/http_parser.cpp:17-22 | the trimmed string is a slice between two runs of white space, with no white space at its ends |
| Text.TrimmedUnique | src/net/http_parser.cpp:17-22 | any such slice is the trimmed string |
| Text.StrtolOfDecimal | src/net/http_parser.cpp:46-53 | reading a printed number back gives the number, saturated at the ends of `long` |
| Text.DecimalCanonical | src/net/http_parser.cpp:82-91 | a printed number has no leading zero |
| Messages.LookupHeader | src/net/http_parser.cpp:68-78 | the scan returns the value of the first header of that name, ignoring case |
| Messages.FindHeaderNone | src/net/http_parser.cpp:68-78 | the lookup finds nothing exactly when no header has the name |
| Messages.FindHeaderSplit | src/net/http_parser.cpp:68-78 | a match in the front part of the list wins over any in the rest |
| Messages.ParsedHeaderGood | src/net/http_parser.cpp:36-44 | an accepted header line yields a non-empty trimmed name without colon and a trimmed value, both free of line ends |
| Messages.ParsePrintHeader | src/net/http_parser.cpp:36-44 | the header parser undoes `name: value` for every such header |
| Messages.ParsedStartGood | src/net/http_parser.cpp:121-134 | an accepted start line has non-empty parts without spaces and a known version, or an `int` status |
| Messages.ParsePrintStart | src/net/http_parser.cpp:206-223 | the start line parsers undo the printed request line and the printed status line |
| Spelling.SameLetterExactly | src/net/http_parser.cpp:11-15 | case folding identifies exactly the two cases of each of the 26 letters |
| Spelling.SpaceExactly | src/net/http_parser.cpp:17-22 | white space is the space and the control characters 9 to 13 |
| Spelling.FindHeaderExactly | src/net/http_parser.cpp:68-78 | the lookup returns the value of the first header whose name is spelled so, in any case, and nothing exactly when there is none |
| Spelling.KeepAliveExactly | src/net/http_parser.cpp:55-64 | the flag is off exactly when the first Connection value mentions "close" in any case, or the version is not HTTP/1.1 and that value is missing or mentions neither "close" nor "keep-alive" |
| Spelling.OldClients | src/net/http_parser.cpp:55-64 | an HTTP/1.0 client without a Connection header is closed, and one that says `Keep-Alive` is kept |
| MessageParser.StepStable | src/net/http_parser.cpp:150-193 | a transition possible now happens in the same way with more bytes behind it |
| MessageParser.RunSettles | src/net/http_parser.cpp:150-193 | `process` returns only when no transition is possible |
| MessageParser.FeedSplit | src/net/http_parser.cpp:145-193 | splitting a read in two changes no field of the parser |
| MessageParser.ChunkingInvariance | src/net/http_parser.cpp:145-193 | any list of reads leaves the parser as one read of their concatenation does, also past Complete and Error |
| MessageParser.ChunkedStatus | src/net/http_parser.cpp:150-193 | the status of the last read agrees with that of the single read exactly when the parser had not failed before it, or had failed from the outset |
| MessageParser.StatusesDiffer | src/net/http_parser.cpp:150-193 | a refused line followed by one more byte: the last read reports Complete, the single read of both reports Error |
| MessageParser.StepWholesome | src/net/http_parser.cpp:140-190 | every transition keeps what a partial message satisfies, including the announced body length |
| MessageParser.RunWholesome | src/net/http_parser.cpp:140-190 | what `process` leaves satisfies it too; a complete body has exactly the announced length |
| MessageParser.HttpParser.ForRequests | include/net/http_parser.h:39-42 | a new request parser holds the default fields |
| MessageParser.HttpParser.ForResponses | include/net/http_parser.h:66-69 | a new response parser holds the default fields |
| MessageParser.HttpParser.Reset | src/net/http_parser.cpp:114-119 | `reset` restores the fields of a new parser of the same kind |
| MessageParser.HttpParser.ExtractLine | src/net/http_parser.cpp:26-32 | the line up to the first line end and the position after it, if there is one |
| MessageParser.HttpParser.Consume | src/net/http_parser.cpp:145-148 | `consume` leaves the fields that a run on the extended buffer leaves, and reports the status |
| MessageParser.HttpParser.Process | src/net/http_parser.cpp:150-193 | the blocks of `process` compute the run to the next standstill, with the fall-through status for a failed parser |
| MessageParser.HttpParser.TakeStartLine | src/net/http_parser.cpp:153-163 | the start-line block makes one transition of the run or finds the buffer dry |
| MessageParser.HttpParser.TakeHeaderLines | src/net/http_parser.cpp:165-183 | the header loop terminates and stays on the run until its phase is over or the buffer is dry |
| Grammar.GrammarParses | src/net/http_parser.cpp:121-193 | a stream of the grammar parses to the message it stands for, with the remainder left in the buffer |
| Grammar.GrammarRefuses | src/net/http_parser.cpp:156-179 | a stream with an offending line is refused |
| Grammar.CompleteRevealsFrame | src/net/http_parser.cpp:150-193 | a completed parse exhibits the cut into start line, header lines, body and remainder |
| Grammar.ErrorRevealsFrame | src/net/http_parser.cpp:156-179 | a failed parse exhibits its first offending line |
| Grammar.ParserDecidesGrammar | src/net/http_parser.cpp:150-193 | Complete exactly on streams that start with a message, Error exactly on those with an offending line |
| Grammar.LinesUnique | src/net/http_parser.cpp:165-183 | a header block can be cut into lines in one way only |
| Grammar.FrameUnique | src/net/http_parser.cpp:150-193 | a stream starts with at most one message |
| LineShapes.HeaderLineExactly | src/net/http_parser.cpp:36-44 | a header line is accepted, and yields a header, exactly when it is white space, the name, white space, a colon, white space, the value, white space, for a non-empty trimmed name without colon and a trimmed value |
| LineShapes.StrtolExactly | src/net/http_parser.cpp:46-53 | a number is read exactly from white space, at most one sign, all the digits that follow and anything else, with its positional value saturated |
| LineShapes.ToInt32Exactly | src/net/http_parser.cpp:216-220 | the status is the 32-bit number with the low 32 bits of the value read |
| LineShapes.LengthExactly | src/net/http_parser.cpp:46-53 | the body length is the number that the first Content-Length value starts with, and 0 if it is negative, no number or missing |
| LineShapes.RequestLineExactly | src/net/http_parser.cpp:121-134 | a request line is accepted exactly when it is the printed form of a request line with non-empty method and target without spaces and a known version |
| LineShapes.StatusLineExactly | src/net/http_parser.cpp:206-223 | a status line is accepted exactly when it is a known version, a space, a number without space, and nothing or a space and the reason |
| LineShapes.CompletesExactly | src/net/http_parser.cpp:150-193 | the parser completes with given fields, the keep-alive flag included, exactly when the stream spells the message with these fields, line by line in those shapes |
| LineShapes.FailsExactly | src/net/http_parser.cpp:150-193 | the parser fails exactly when, after lines of the right shape, a line comes that has not the shape it needs |
| Printing.ParsePrint | src/net/http_parser.cpp:199-282 | the parser undoes the printed form of any printable message whose announced length fits, with nothing left over |
| Printing.PrintedBytes | src/net/http_parser.cpp:85-89 | each header line is name, colon, space, value, CR, LF, in order |
| Forwarding.IsConnectionExactly | src/loadbalancer/load_balancer.cpp:190-190 | the name compared is "connection" in any case, up to a NUL if there is one |
| Forwarding.ForwardedEntries | src/loadbalancer/load_balancer.cpp:188-197 | entry by entry, a header of another name is forwarded as it is, each of that name becomes `Connection: close`, and one is added at the end exactly if there was none |
| Forwarding.ForwardedLookup | src/loadbalancer/load_balancer.cpp:189-197 | the upstream finds the value of every header but Connection that the client sent |
| Forwarding.ForwardedHeaders | src/loadbalancer/load_balancer.cpp:188-197 | forwarding keeps all other headers in order and leaves at least one Connection header, all of them `close` |
| Forwarding.ForwardedTwice | src/loadbalancer/load_balancer.cpp:188-197 | forwarding the headers twice is forwarding them once |
| Forwarding.ForwardedLength | src/loadbalancer/load_balancer.cpp:188-197 | forwarding does not change the announced body length |
| Forwarding.ForwardedCloses | src/loadbalancer/load_balancer.cpp:183-197 | the upstream is always told to close |
| Forwarding.RebuiltBytes | src/loadbalancer/load_balancer.cpp:187-199 | the rebuilt request byte by byte |
| Forwarding.ForwardRoundTrip | src/loadbalancer/load_balancer.cpp:187-199 | for every completed request the rebuilt bytes parse to the same method, target, version and body with the forwarded headers, keep-alive off and nothing left over |
| Forwarding.ForwardIdempotent | src/loadbalancer/load_balancer.cpp:187-199 | forwarding the forwarded request sends the same bytes |
| Forwarding.Rebuild | src/loadbalancer/load_balancer.cpp:187-199 | the string-building loop computes the rebuilt bytes |
| Forwarding.LastRead | src/loadbalancer/load_balancer.cpp:204-214 | the read that completes or fails the answer decides it, whatever would have followed |
| Forwarding.ReadAnswer | src/loadbalancer/load_balancer.cpp:202-214 | the receive loop yields the answer of the concatenated stream, however it was cut |
| ResponsePrinter.FilledLookup | src/net/http_parser.cpp:83-95 | an own Content-Length or Connection header wins over the added one |
| ResponsePrinter.FilledEntries | src/net/http_parser.cpp:83-95 | the headers sent are the own ones, then Content-Length and Connection, each if missing |
| ResponsePrinter.SerializedBytes | src/net/http_parser.cpp:80-99 | the response byte by byte, from `HTTP/1.1` to the body |
| ResponsePrinter.FilledKeepAlive | src/net/http_parser.cpp:87-95 | the keep-alive wish a reader finds is that of an own Connection header, else the flag |
| ResponsePrinter.SerializeRoundTrip | src/net/http_parser.cpp:80-99 | parsing a serialized response gives back status, reason, body and headers plus the added ones, with nothing left over |
| ResponsePrinter.FilledTwice | src/net/http_parser.cpp:83-95 | filling the filled headers adds nothing, whatever flag is set |
| ResponsePrinter.SerializeStable | src/net/http_parser.cpp:80-99 | serialize after parse after serialize is byte-identical |
| ResponsePrinter.ParsedIsRelayable | src/net/http_parser.cpp:229-282 | every response the parser completes can be relayed |
| ResponsePrinter.RelayRoundTrip | src/loadbalancer/load_balancer.cpp:207-224 | the client reads the status, reason and body the upstream sent, and its headers first and unchanged |
| ResponsePrinter.RelayTellsTheTruth | src/loadbalancer/load_balancer.cpp:222-224 | the client is told what happens to its connection exactly when the upstream named no Connection header or one that says the same |
| ResponsePrinter.RelayedCloseMisleads | src/loadbalancer/load_balancer.cpp:222-224 | a relayed `Connection: close` misleads a client whose connection is kept |
| ResponsePrinter.Serialize | src/net/http_parser.cpp:80-99 | the printing loop computes the serialized bytes |
| Deployment.ServerAnswers | src/server/http_server.cpp:184-188 | the server behind the load balancer sees `Connection: close`, and what it writes reads back as the router's answer with that wish |
| Deployment.RefusalReads | src/loadbalancer/load_balancer.cpp:267-271 | the client of a refused request reads a 400 that says the connection closes |
| Deployment.WhatTheClientReads | src/loadbalancer/load_balancer.cpp:144-226 | end to end, over all outcomes of the exchange, the client reads the router's answer if the server's response arrived whole and a 502 otherwise, and reads keep-alive exactly when it asked for it and an exchange was begun that failed |
| WriteBuffers.FlushAccountsForAll | src/net/connection.cpp:8-28 | every pending byte is sent, dropped or still pending, in this order |
| WriteBuffers.FlushReportsDone | src/net/connection.cpp:8-28 | `flushWrite` returns true exactly when nothing is pending; bytes are dropped only when a send failed |
| WriteBuffers.FlushExactly | src/net/connection.cpp:8-28 | the socket gets exactly what it takes; a socket that would block leaves the rest pending, any other answer that takes nothing drops all of it and the call is done |
| WriteBuffers.ApplyConserves | include/net/connection.h:19-27 | one queueing or flushing keeps the account of the bytes |
| WriteBuffers.LedgerConserves | src/net/connection.cpp:8-28 | so does any sequence of them, from any state of the buffer |
| WriteBuffers.NothingDropped | src/net/connection.cpp:16-21 | while no send fails, what left the buffer is what the peer received |
| WriteBuffers.WriteStreamConservation | src/net/connection.cpp:8-28 | over a whole lifetime, what left the buffer followed by what is pending is what was queued; without failures the peer has a prefix of it |
| Workers.ResumeFits | src/loadbalancer/load_balancer.cpp:237-245 | finishing a left-over response leaves the connection in the mode of the posted action |
| Workers.RefuseFits | src/loadbalancer/load_balancer.cpp:267-278 | so does answering a malformed request |
| Workers.ServeFits | src/loadbalancer/load_balancer.cpp:280-288 | so does answering a complete request |
| Workers.ReplyExactly | src/loadbalancer/load_balancer.cpp:144-226 | the reply is the router's or the upstream's answer or a 502 that says why, and its flag is the client's wish exactly if there was anyone to ask |
| Workers.HandleFits | src/loadbalancer/load_balancer.cpp:237-289 | every call on a ready connection leaves it fitting the action it posts, and `consume` is called only on an unfinished parser |
| Workers.RefusalIsFinal | src/loadbalancer/load_balancer.cpp:267-278 | a malformed request is answered once, nothing is served after it, and the connection is never read again |
| Workers.KeepAliveHonoured | src/server/http_server.cpp:142-149 | in every history that the mode automaton accepts, the action after a fully written response follows the flag set with it exactly for the load balancer, for a flag that is on, or for a deferred flush |
| Workers.ResponsesDoNotInterleave | src/loadbalancer/load_balancer.cpp:237-245 | the call before one that queues a response has left the connection waiting to be readable |
| Workers.Connection.constructor | include/net/connection.h:36-41 | a new connection holds the default fields |
| Workers.Defaults | include/net/http_message.h:14-30 | the default fields of a connection, a request and a response |
| Workers.Connection.QueueWrite | include/net/connection.h:19-21 | the text is appended to the write buffer and nothing else changes |
| Workers.Connection.FlushWrite | src/net/connection.cpp:8-28 | the send loop leaves the buffer and returns the flag that the flush function gives |
| Workers.Connection.HandleEvent | src/server/http_server.cpp:142-197 | the worker body, of either program, leaves the connection and posts the action that the specification gives |
| Workers.Connection.AnswerAndFlush | src/server/http_server.cpp:187-193 | flag, text and first flush change buffer and flag as specified |
| Transcript.CallIsItsOps | src/loadbalancer/load_balancer.cpp:237-289 | a worker's call changes the write buffer by one flush, or by queueing its response and flushing, or not at all |
| Transcript.LifeIsItsOps | src/loadbalancer/load_balancer.cpp:237-289 | so does any series of calls, with one queued text per response |
| Transcript.ClientReadsResponsesInOrder | src/loadbalancer/load_balancer.cpp:237-289 | over any series of calls on a new connection the bytes sent, dropped and pending are together its serialized responses in order; without failed sends the client has a prefix of them |
| Transcript.QueuedOnlyAfterTheRest | src/loadbalancer/load_balancer.cpp:237-245 | a response is queued only when every byte of all earlier ones has left the buffer |
| Transcript.ReadingCall | src/loadbalancer/load_balancer.cpp:247-288 | a call that reads answers all bytes read since the answer before: with a reply to the request they decode to, with the 400 if they cannot be decoded, and not at all while they are neither |
| Transcript.CallExactly | src/loadbalancer/load_balancer.cpp:237-289 | what a call answers and posts, for everything the environment may do |
| Transcript.WelcomeLife | src/loadbalancer/load_balancer.cpp:237-289 | over a series of calls each of which may read or flush, every answer is to the bytes read since the answer before |
| Transcript.RoundsAreHistory | src/loadbalancer/load_balancer.cpp:237-289 | the answers of a life are those of its history, in order |
| Conversations.EveryConnectionLived | src/loadbalancer/load_balancer.cpp:228-289 | in every run, each connection that ever existed is what its own calls made of it, whatever the other threads did in between |
| Conversations.AnswersMatchTheBytes | src/loadbalancer/load_balancer.cpp:262-288 | in every run, the answers of a connection are, in order, those that the bytes read since the answer before call for: the request they decode to is served, an offending line is refused, and while the connection can be read on they call for none |
| Conversations.EveryCallIsRight | src/loadbalancer/load_balancer.cpp:237-289 | every call of every run answers and posts exactly that |
| Conversations.ReadingIsRight | src/loadbalancer/load_balancer.cpp:247-278 | in every run a call with nothing to write closes without an answer exactly at the end of the stream, refuses exactly bytes with an offending line, serves exactly bytes that are a request, and otherwise waits for more |
| Conversations.FlagIsTheClientsWish | src/loadbalancer/load_balancer.cpp:222-223 | in every run the flag set with a response is the wish read off the client's headers if there was anyone to ask, and off otherwise |
| Conversations.LoadBalancerClosesExactly | src/loadbalancer/load_balancer.cpp:280-288 | in every run the load balancer closes after a fully written response exactly when the client's headers ask to close or no exchange was begun |
| Conversations.EveryClientReadsItsResponses | src/loadbalancer/load_balancer.cpp:237-289 | in every run, what was sent, dropped and is pending on a connection are together the responses to those requests, in order |
| HandoffOwnership.TokenIsLive | src/server/http_server.cpp:128-133 | a token names its live connection and no other token shares its descriptor |
| HandoffOwnership.RearmTarget | src/loadbalancer/load_balancer.cpp:105-119 | the re-arm applied next concerns the connection it was posted for, which is not armed |
| HandoffOwnership.ReactorKeeps | src/loadbalancer/load_balancer.cpp:42-127 | every reactor step keeps ownership |
| HandoffOwnership.WorkerKeeps | src/loadbalancer/load_balancer.cpp:228-289 | every worker step keeps ownership |
| HandoffOwnership.StepKeeps | src/server/http_server.cpp:31-125 | every step of every thread keeps ownership if only armed descriptors are reported |
| HandoffOwnership.ReachableInv | src/server/http_server.cpp:31-198 | ownership holds in every state that any interleaving reaches |
| HandoffSafety.ActFits | src/loadbalancer/load_balancer.cpp:237-289 | a worker's call leaves its connection fitting the action and touches no other |
| HandoffSafety.StepSafe | src/loadbalancer/load_balancer.cpp:42-127 | every step keeps ownership, write-mode agreement and sound histories together |
| HandoffSafety.ReachableSafe | src/loadbalancer/load_balancer.cpp:42-289 | so they hold in every reachable state |
| HandoffSafety.OneTokenEach | src/server/http_server.cpp:52-70 | every live connection is in exactly one place, and every token stands for the live connection it was made for |
| HandoffSafety.AtMostAllWorkers | src/net/thread_pool.cpp:5-11 | at most all workers are busy, however many tasks are queued |
| HandoffSafety.NoDuplicateDispatch | src/server/http_server.cpp:59-66 | two busy workers never serve the same descriptor |
| HandoffSafety.WorkerIsAlone | src/server/http_server.cpp:59-70 | a descriptor being served is not armed, queued, awaiting a re-arm or in the reactor's hand |
| HandoffSafety.NoDanglingPointer | src/server/http_server.cpp:128-140 | from lookup to post a worker holds the live connection its task was made for |
| HandoffSafety.AcceptTakesAFreeDescriptor | src/loadbalancer/load_balancer.cpp:77-92 | what `accept` yields is in no use: no table entry is overwritten, and no task, worker, re-arm or armed entry has the descriptor |
| HandoffSafety.RearmHitsItsConnection | src/server/http_server.cpp:97-125 | a pending re-arm concerns the connection it was posted for, which is not armed |
| HandoffSafety.ArmedAgreement | src/loadbalancer/load_balancer.cpp:111-118 | armed readable means nothing pending and an unfinished parser, armed writable means pending bytes and a parser that is done or failed |
| HandoffSafety.ConsumeNeverOnFailed | src/loadbalancer/load_balancer.cpp:262-278 | whenever a worker is about to read, its parser can still make progress |
| HandoffSafety.HistoriesNeverStuck | src/loadbalancer/load_balancer.cpp:237-288 | every connection that ever existed behaved as the mode automaton allows |
| HandoffSafety.RefusedOnceThenClosed | src/loadbalancer/load_balancer.cpp:267-278 | in every run a malformed request gets one 400, nothing else is answered, and its connection's next action other than a wait to write is a close |
| HandoffSafety.KeepAliveOverRuns | src/server/http_server.cpp:184-195 | in every run the action after a fully written response follows the flag set with it exactly for the load balancer, for a flag that is on, or when the write took more than one call |
| HandoffSafety.LoadBalancerKeepsItsWord | src/loadbalancer/load_balancer.cpp:280-288 | in every run the load balancer closes after a fully written response exactly when the flag set with it is off |
| ServerKeepAlive.ServerReadsOn | src/server/http_server.cpp:184-195 | for the bytes of a GET with `Connection: close` and one full send the server posts a wait for another request |
| ServerKeepAlive.ServerRunReadsOn | src/server/http_server.cpp:184-195 | a run of the server ends with such a connection open, served and armed to be readable |
| HandoffProgress.StepDecreases | src/server/http_server.cpp:97-125 | a step that brings no new work never raises the work measure, and one that moves a token or consumes an event lowers it |
| HandoffProgress.MovesAreBounded | src/server/http_server.cpp:97-198 | a run without arrivals makes at most as many moves as there was work |
| HandoffProgress.CanStep | src/server/http_server.cpp:31-198 | while work is left, some thread can step towards finishing it |
| HandoffProgress.SettledIsArmed | src/server/http_server.cpp:97-117 | with no work left every live connection is armed |
| HandoffProgress.Settles | src/server/http_server.cpp:97-198 | from every safe state the threads can go on, without arrivals, until every live connection is armed |
| HandoffProgress.SettledExactly | src/server/http_server.cpp:31-198 | no work is left exactly when no run within one turn of the loop moves anything |
| HandoffProgress.EveryRunSettles | src/server/http_server.cpp:31-198 | every run, whichever steps it takes, that cannot be extended by a move within one turn has nothing left to do and every live connection armed |
| HandoffHangups.DispatchNeedsArming | src/loadbalancer/load_balancer.cpp:56-72 | processing an event keeps ownership exactly when the descriptor is armed |
| HandoffHangups.HangupArrives | src/net/epoll_reactor.cpp:45-67 | with hangups, a run leads to an error event for a connection that a worker holds |
| HandoffHangups.HangupDestroys | src/loadbalancer/load_balancer.cpp:63-68 | the reactor then destroys the connection under the worker's hands |
| HandoffHangups.SafeExactlyWithoutHangups | src/net/epoll_reactor.cpp:62-67 | no reachable state has a dangling pointer if and only if disarmed descriptors are never reported |
| Turns.AppliedRuns | src/loadbalancer/load_balancer.cpp:99-127 | applying the swapped re-arms in order is a run of the step system |
| Turns.AcceptedRuns | src/loadbalancer/load_balancer.cpp:77-92 | accepting any number of connections is a run of the step system |
| Turns.HandledRuns | src/loadbalancer/load_balancer.cpp:50-73 | handling one event is a run of the step system |
| Turns.DispatchedRuns | src/loadbalancer/load_balancer.cpp:50-73 | handling an event batch in order is a run of the step system |
| Turns.TurnRuns | src/loadbalancer/load_balancer.cpp:42-75 | a whole turn of the loop is a run of the step system, hence keeps ownership |
| TurnEffects.AcceptEnters | src/loadbalancer/load_balancer.cpp:77-92 | each new descriptor that `accept` yields becomes a new connection, numbered in order and armed to be readable, and every other entry is what it was |
| TurnEffects.ApplyRearms | src/loadbalancer/load_balancer.cpp:99-127 | each re-arm has its effect, armed as asked or gone, and every other entry is what it was |
| TurnEffects.DispatchProcesses | src/loadbalancer/load_balancer.cpp:50-73 | each event has its effect, disarmed and queued or gone on error, exactly the right tasks are queued in order, and what is not mentioned is what it was |
| TurnEffects.DispatchAccepts | src/loadbalancer/load_balancer.cpp:50-54 | if the listening socket is ready, what `accept` yields is entered whatever else the batch holds |
| TurnEffects.TurnDoes | src/loadbalancer/load_balancer.cpp:44-74 | a turn from any state of a running program applies all posted re-arms and then processes the delivered batch, entry by entry |
| TurnEffects.FirstTurnAccepts | src/loadbalancer/load_balancer.cpp:44-92 | in the first turn every accepted descriptor becomes a connection, numbered from 0 |
| Turns.WorkedRuns | src/loadbalancer/load_balancer.cpp:228-289 | a worker's task, from taking it to posting the re-arm, is a run of the step system |
| Turns.WorkedIsDone | src/loadbalancer/load_balancer.cpp:228-289 | after a task its connection is what the call made of it and its action is posted for it, and nothing else has changed |
| Turns.TasksAreReady | src/server/http_server.cpp:128-140 | in every reachable state every queued task finds its connection |
| Reactor.ReactorThread.constructor | include/loadbalancer/load_balancer.h:60-64 | the tables start empty |
| Reactor.ReactorThread.PostRearm | src/loadbalancer/load_balancer.cpp:94-97 | the re-arm is appended to the pending list |
| Reactor.ReactorThread.ApplyPendingRearms | src/loadbalancer/load_balancer.cpp:99-127 | the loop applies the pending list in order and empties it; each re-arm has had its effect and every other entry is what it was |
| Reactor.ReactorThread.ApplyOne | src/loadbalancer/load_balancer.cpp:105-126 | one re-arm changes the tables as two steps of the system do |
| Reactor.ReactorThread.Register | src/loadbalancer/load_balancer.cpp:83-90 | a new connection enters table and event loop |
| Reactor.ReactorThread.HandleAccept | src/loadbalancer/load_balancer.cpp:77-92 | the accept loop enters each new descriptor as a new connection armed to be readable and changes no other entry |
| Reactor.ReactorThread.HandleEvent | src/loadbalancer/load_balancer.cpp:50-73 | the loop body gives an event its effect and leaves what it does not mention |
| Reactor.ReactorThread.Turn | src/loadbalancer/load_balancer.cpp:44-74 | one turn applies the re-arms and processes the batch, entry by entry |
| Reactor.ReactorThread.RunTask | src/loadbalancer/load_balancer.cpp:228-289 | lookup, handling and post leave the tables as specified, with the action posted for that connection |
| ThreadPool.StepKeeps | src/net/thread_pool.cpp:24-44 | every step keeps order, exactly-once, coverage of queued tasks and the meaning of stop |
| ThreadPool.InitHasItsThreads | src/net/thread_pool.cpp:5-11 | a pool has as many workers as asked for and at least one, all about to look at an empty queue |
| ThreadPool.ReachableInv | src/net/thread_pool.cpp:5-44 | they hold in every run with any number of threads |
| ThreadPool.FifoExactlyOnce | src/net/thread_pool.cpp:24-44 | in every run the tasks started followed by the tasks queued are the tasks enqueued, in order; a started task is with a worker or finished, not both |
| ThreadPool.NoTaskTwice | src/net/thread_pool.cpp:37-42 | no two workers have the same task |
| ThreadPool.ExitsOnlyWhenStoppedAndEmpty | src/net/thread_pool.cpp:37-38 | a worker leaves exactly when it looks at the queue with stop set and the queue empty |
| ThreadPool.QueuedTaskIsCovered | src/net/thread_pool.cpp:24-44 | while a worker sleeps the queue is no longer than the notifications on their way plus the workers about to look |
| ThreadPool.NotStuck | src/net/thread_pool.cpp:32-44 | a state that is not quiet has an internal step |
| ThreadPool.QuietExactly | src/net/thread_pool.cpp:32-44 | quiet is exactly where no internal step is possible |
| ThreadPool.QuietIsDone | src/net/thread_pool.cpp:32-44 | a quiet pool has finished every task, or after stop has no worker left |
| ThreadPool.InternalDecreases | src/net/thread_pool.cpp:32-44 | every internal step lowers the rank |
| ThreadPool.InternalRunsEnd | src/net/thread_pool.cpp:32-44 | the number of internal steps is bounded from the outset |
| ThreadPool.PoolSettles | src/net/thread_pool.cpp:24-44 | internal steps alone lead to a quiet state with every task finished, unless stopped |
| ThreadPool.InternalRunsSettle | src/net/thread_pool.cpp:24-44 | every internal run that cannot be extended has finished every task, or after stop has no worker left |
| ThreadPool.DrainedUnlessTooLate | src/net/thread_pool.cpp:13-44 | once all workers have exited, every task has run exactly once if and only if none was handed in from outside after the last worker had left |
| ThreadPool.DrainedAtTheEnd | src/net/thread_pool.cpp:13-22 | in particular if after stop only running tasks enqueue |
| ThreadPool.LateTaskIsLost | src/net/thread_pool.cpp:24-44 | stop, exit, enqueue: the task stays in the queue for ever |
| ThreadPool.NothingRunsAfterExit | src/net/thread_pool.cpp:38-38 | after the last worker has left no task is started or finished and none leaves the queue |
| UpstreamPool.ResidueIsMod | src/loadbalancer/upstream_pool.cpp:16-18 | the cyclic position is the remainder the code computes |
| UpstreamPool.PickSound | src/loadbalancer/upstream_pool.cpp:12-24 | a healthy upstream is chosen if there is one, and nothing exactly when there is none |
| UpstreamPool.ExactDistribution | src/loadbalancer/upstream_pool.cpp:12-24 | in any full round each healthy upstream is chosen 1 plus the length of the unhealthy run cyclically before it times, an unhealthy one never |
| UpstreamPool.CountsSumUp | src/loadbalancer/upstream_pool.cpp:12-24 | with a healthy upstream the counts over all upstreams add up to the number of tickets |
| UpstreamPool.Balanced | src/loadbalancer/upstream_pool.cpp:12-24 | with all healthy the counts over any window differ by at most one |
| UpstreamPool.RoundRobinAcrossWrap | src/loadbalancer/upstream_pool.cpp:16-18 | consecutive tickets choose consecutive upstreams, also across the counter's wrap, exactly when the number of upstreams divides 2^64 |
| UpstreamPool.WrapRepeatsWithThree | src/loadbalancer/upstream_pool.cpp:16-18 | with three upstreams the wrap repeats one |
| UpstreamPool.StandingViews | src/loadbalancer/upstream_pool.cpp:16-23 | a scan over flags that stand still is the pick |
| UpstreamPool.ViewsJustify | src/loadbalancer/upstream_pool.cpp:17-23 | whatever the flags do, a scan returns an upstream that was up at its own load after finding each one before it down, and nothing only after finding every one down |
| UpstreamCallers.ResultsAreJustified | src/loadbalancer/upstream_pool.cpp:17-23 | with health changing during scans, a returned upstream was seen healthy in that call, and nothing is returned only after every one was seen unhealthy |
| UpstreamCallers.ScanIsJustified | src/loadbalancer/upstream_pool.cpp:17-23 | the scan of one call against changing flags ends like a call of the concurrent system |
| UpstreamCallers.DistinctUntilWrap | src/loadbalancer/upstream_pool.cpp:16-16 | every increment belongs to exactly one call, in progress or finished, and the tickets are distinct exactly until the counter has wrapped |
| UpstreamCallers.InterleavingSharesTickets | src/loadbalancer/upstream_pool.cpp:16-23 | at every moment of every run, finished calls and calls in progress share out the tickets taken so far as so many calls made one after the other |
| UpstreamCallers.InterleavingKeepsCounts | src/loadbalancer/upstream_pool.cpp:16-23 | before the wrap these shares are the counts of consecutive tickets |
| UpstreamCallers.InterleavingIsBalanced | src/loadbalancer/upstream_pool.cpp:16-23 | with all healthy, every state of every run before the wrap is balanced, calls in progress included |
| UpstreamCallers.BalancedForEver | src/loadbalancer/upstream_pool.cpp:16-23 | with all healthy, every state of every run with any number of calls is balanced exactly when the number of upstreams divides 2^64 |
| UpstreamPool.Upstreams.constructor | src/loadbalancer/upstream_pool.cpp:5-10 | one healthy upstream per target, counter at 0 |
| UpstreamPool.Upstreams.PickNext | src/loadbalancer/upstream_pool.cpp:12-24 | the scan, against flags that change at any load, returns what its views decide and takes the next ticket; an empty pool takes none |
| Kqueue.ChangesWork | src/net/kqueue_reactor.cpp:28-50 | every deletion names a registered filter, every addition an unregistered one, and other descriptors are untouched |
| Kqueue.WantsBits | include/net/event_loop.h:9-12 | bit 1 asks for the read filter and bit 2 for the write filter |
| Kqueue.ModifyAgrees | src/net/kqueue_reactor.cpp:20-58 | a successful `modify` keeps kernel filters and remembered masks in step |
| Kqueue.RemoveAgrees | src/net/kqueue_reactor.cpp:60-79 | so does `remove`, which is a `modify` to 0 |
| Kqueue.FailedModify | src/net/kqueue_reactor.cpp:46-50 | a failed `modify` leaves them in step exactly when the kernel refused the first change |
| Kqueue.HalfModified | src/net/kqueue_reactor.cpp:28-50 | a pair of changes that is broken off half-way has changed the read filter only |
| Kqueue.SafeToModify | src/net/kqueue_reactor.cpp:28-50 | `modify` leaves them in step whatever the kernel answers exactly when it asks for at most one change |
| Kqueue.RefusedRemove | src/net/kqueue_reactor.cpp:60-79 | a refused `remove` is harmless for a descriptor whose filters the kernel has dropped, and leaves a lie exactly for one that is still registered |
| Kqueue.KernelFollowsMasks | src/net/kqueue_reactor.cpp:16-79 | after any sequence of successful calls the kernel's filters are those of the mask last asked for on each descriptor |
| Kqueue.MergeStep | src/net/kqueue_reactor.cpp:99-106 | merging one more kernel event keeps the summary of all of them |
| Kqueue.MergeEvents | src/net/kqueue_reactor.cpp:98-106 | the merge loop yields one entry per reported descriptor with filters and failures OR-ed |
| Kqueue.ListEvents | src/net/kqueue_reactor.cpp:108-110 | the table is written out completely and without repetition |
| Kqueue.Wait | src/net/kqueue_reactor.cpp:93-111 | one event for each reported descriptor, with everything the kernel said about it |
| Kqueue.ReportsArmedOnly | src/net/kqueue_reactor.cpp:30-44 | with masks in step every batch is one the hand-off can cope with |
| Kqueue.KqueueReactor.constructor | src/net/kqueue_reactor.cpp:10-10 | nothing is registered at the start |
| Kqueue.KqueueReactor.Kevents | src/net/kqueue_reactor.cpp:46-50 | the kernel applies the change list up to the first refusal |
| Kqueue.KqueueReactor.Modify | src/net/kqueue_reactor.cpp:20-58 | masks and kernel change as specified, for any number of accepted changes |
| Kqueue.KqueueReactor.Remove | src/net/kqueue_reactor.cpp:60-79 | masks and kernel change as specified, for any number of accepted deletions |
| KqueueHandoff.CallFollowsArming | src/loadbalancer/load_balancer.cpp:63-122 | the reactor's calls on the event loop follow the armed table step by step |
| KqueueHandoff.PollIsWait | src/net/kqueue_reactor.cpp:93-111 | whatever the kernel reports is a batch that a trusted event loop could have delivered |
| KqueueHandoff.NextRefines | src/net/kqueue_reactor.cpp:16-111 | every step over kqueue is a step of the hand-off with a trusted event loop, and filters stay those of the armed table |
| KqueueHandoff.KqueueDischargesTheAssumption | src/net/kqueue_reactor.cpp:16-111 | every run over kqueue is a run of the hand-off with a trusted event loop, so ownership holds and no pointer dangles |
| KqueueHandoff.KernelWatchesWhatIsArmed | src/net/kqueue_reactor.cpp:16-79 | in every run the kernel watches for reading exactly the listening socket and what is armed to be readable, and for writing exactly what is armed to be writable |

## Left out

- Socket creation, binding, connecting, time-outs and the raw system calls: they appear only as answers of the environment (bytes, would-block, failure, nothing).
- epoll's system calls: thin wrappers; epoll appears as an event loop that may report hangups on disarmed descriptors.
- Starting and stopping the two programs, and the order in which their members are destroyed: the hand-off covers the running phase.
- Chunked and close-delimited bodies, trailers, header folding and pipelining: out of the repository's scope; without Content-Length the body is empty, and bytes after a request are dropped by `reset`.
- Strict rejection of bad Content-Length values: the code reads a numeric prefix or 0, and the model does what the code does.
- Router, health probes, command line, upstream list parsing and signal handling: a handler is an arbitrary response, a health change an arbitrary step.
- Memory ordering below mutexes and atomics, and locales other than C.
- The 8192-byte limit of one `recv` and the 256-event limit of one `wait`: the model allows every size, so it covers these.
- Workers.Connection.FlushWrite: a socket that has run out of answers counts as would-block, and a positive answer is capped at what was offered.
- Reactor.ReactorThread.HandleAccept: an answer of `accept` that names an open descriptor, which the kernel never gives, counts as would-block.
- Reactor.ReactorThread.Turn: other threads stand still during a turn; interleavings with them are the subject of the step system.
- HandoffProgress.EveryRunSettles: that the scheduler goes on to run every thread is not stated; a run that stops moving has settled, and one that moves does so at most as often as `HandoffProgress.MovesAreBounded` says.
- ThreadPool.InternalRunsSettle: likewise; a task is taken to return.
- Deployment.WhatTheClientReads: for answers of the router that name neither Connection nor a wrong length; what becomes of an own Connection header is in `ResponsePrinter.RelayTellsTheTruth`.
