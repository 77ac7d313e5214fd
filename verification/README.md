# AsterNet core: a verified model

A Dafny model of the policy code, the parsers and the shared-state protocols of AsterNet's C++ core,
with proofs of what they promise. Sockets, TLS, the HTTP/2 and HTTP/3 libraries, the clock and the
system resolver are an arbitrary environment: an engine call returns anything after any time, a read
returns any next piece of the stream, the clock never goes back, threads interleave in any way the
locks allow.

Check everything with `dafny verify dfyconfig.toml`.

## How the model is laid out

| file | what it models |
|---|---|
| `RequestStack.dfy`, `RetryRounds.dfy`, `Transport.dfy` | the client: its interceptors and its transport, as the loops they are; what a retry loop's rounds are; what one run of the transport is |
| `EngineChain.dfy`, `CircuitBreaker.dfy`, `Clocks.dfy` | the selector's chain of protocols; its ban table and history; what lies outside: the clock, the engines, name resolution and sleeping, each logging what it was asked, when, and what it answered |
| `Coalescer.dfy`, `DedupKey.dfy`, `Requests.dfy` | single-flight coalescing, its text key, and which requests may be shared or replayed |
| `Chunked.dfy`, `Http1Response.dfy`, `StatusLine.dfy`, `Http1Cases.dfy`, `Text.dfy` | the chunked decoder (section 7.1 of RFC 9112), response framing (section 6.3 of RFC 9112), the status code, whole responses as bytes, C string functions |
| `HandleRegistry.dfy`, `ClientLifecycle.dfy` | client handles; lifecycle lock, network epoch, published quality, metrics queue |
| `QualityProber.dfy`, `SmoothedRtt.dfy` | the quality state machine and its moving average |
| `LeasePool.dfy` | the connection pool's lease accounting |
| `Resolver.dfy`, `AddressRanking.dfy`, `LookupSlots.dfy` | the resolver's tiers, cache and health table; scoring and stable ranking; bounded live lookups |
| `JsonEscape.dfy` | the JNI layer's JSON escaper (section 7 of RFC 8259, section 4 of RFC 3629) |

Objects that the core updates in place are classes; each method is proved equal to a function of the
old state, and the lemmas are about those functions over whole runs. Where many threads meet
(coalescer, handles, lifecycle, lookup slots) a run is a sequence of states and events, one event for
each critical section, and a theorem speaks of every state of every run. Inside one request, other
requests' use of shared tables appears as a method `Others` that performs any number of operations.

What a request did is not its own word for it: the clock is an object only time moves, the environment
logs each engine call with its answer, each lookup and each sleep, with the times it read itself, and the circuit breaker, the lookup
slots and the resolver's quality keep ghost histories that every operation on them extends, other threads'
included. Budgets, bans and lookups are stated against those. Every lemma turns automatic induction off,
so its proof is what its body says.

## What turned out not to hold

- Without the CR/LF check of the C entry point the coalescing key is not injective
  (`DedupKey.KeyNeedsValidation` gives two requests); with it, it is, both ways (`DedupKey.KeyExactly`).
- The status code can be read from body bytes, so it can depend on how the stream was cut into reads.
  The bytes behind a head cannot change its status if and only if the head itself has two blanks and,
  after the first, something that is not space (`StatusLine.SettledExactly`); for every other head
  `StatusLine.Unsettled` gives bytes that do, and a reading that met no such head agrees
  with every other of its stream (`Http1Response.SplitIndependentStatus`).
- Whether a response is accepted depends on how it was cut into reads, too. Bytes behind a message with a
  Content-Length, or without a body, are refused when they arrive with its head and not read when they come
  later: for every body and every rest `Http1Cases.CutDecides` gives both. `Http1Response.ReadResponse` states
  exactly when a response is accepted.
- Behind a chunked body such bytes are dropped and the connection is kept without them. They are determined
  by what was read (`Chunked.MessageUnique`, `Http1Response.SurplusLost`) and always less than one read; the
  connection has lost nothing exactly when there are none (`Http1Response.ReadResponse`). It happens for every
  message and every rest that one read brings (`Http1Cases.RestLost`).
- A response reports as its attempts the number of rounds of the retry loop, not the number of engine calls that the
  selector had counted (`RequestStack.Client.Request`).
- A Content-Length of 18446744073709551615 counts as no length at all; every smaller one counts as it is
  printed, every greater one is refused (`Http1Cases.AnnouncedLength`, from the text of the head;
  `Http1Response.ScanLengths` has the rule for any number of such lines).
- A retry can start after its deadline, because the remaining time is cast to `int`: exactly when the
  clock modulo 2^32 is more than 2^31 milliseconds past it (`RetryRounds.TimeLeftExactly`).
- The retry loop does not always restore the caller's timeout: exactly when the deadline had passed before
  a round after the first and the last round that ran had another timeout
  (`RetryRounds.TimeoutLeftExactly`; `RetryRounds.TimeoutLeftBehind` is one such request).
- The DNS cache's time to live does not bound the age of an answer, as each hit renews the entry: a chain
  of resolutions is served from the fresh cache throughout if and only if each reads within the time to
  live of the one before (`Resolver.FreshExactly`), and then answers what the first did
  (`Resolver.FreshKeeps`); there are such chains of any length (`Resolver.AnswersAge`). The repository's `README.md` (line 44) calls the cache LRU; the code drops whichever
  entry the hash table lists first, and the model lets that be any entry.
- The header of the resolver lists the memory cache after HTTPDNS, local DNS and backup addresses; in the
  code a fresh entry comes first and only a stale one last (`Resolver.SmartResolver.ResolveName`).
- A comment on the address score says failures weigh more than round-trip time; each of up to eight
  failures weighs exactly 250 ms of it (`AddressRanking.FailureWeighs`), and five past successes cancel one
  failure unless the network is good (`AddressRanking.SuccessesForgive`).
- The smoothed round-trip time stops up to 3 below a constant input (`SmoothedRtt.FixedPoint`).
- The standard JSON reading gives the input back exactly when it was well-formed UTF-8
  (`JsonEscape.StandardExactly`); the byte-level reading always does.

## Model

| member | source | states |
|---|---|---|
| RequestStack.Client.Request | sdk/cxx/client.cpp:271-318 | over every engine behaviour: a request is sent more than once only if the caller vouched for it, or it has no body and is a GET, HEAD or OPTIONS, or it is idempotent with an `idempotency-key` header in which something can be seen; in those cases up to 12 engine calls, and one retry unless the link is down, in all others one call. It is one or two rounds under one deadline (the timeout after a reading taken at the start), the second exactly after a DNS, connect, timeout, protocol, unsupported or degraded error of the first when it may and the one sleep of 50 ms plus the request's own share ends before the deadline. Every round with time left looked the host up exactly once, then ran the address loop over what was found, on each address the chain of protocols its policy prescribes; a round without time left did nothing; the result is that of the last round. It is OK exactly when the last engine call was, and none follows an OK; then the response is what the last engine called answered (status, body, times), marked with its protocol, `degraded` and the number of rounds. A failure carries its error and a stage, and otherwise what the last engine called in the last round answered. The logged calls, lookups and sleeps are those of the rounds, every look at the circuit breaker is in its history, each call got at most what was left when its round began and at least what was left when it started, all leases are returned |
| RequestStack.Client.Prepare | sdk/cxx/client.cpp:289-301 | the context of a new request, and when the orchestrator will let it be repeated |
| RequestStack.Client.Perform | sdk/cxx/client.cpp:302-312 | the orchestrator and what is filled in at the end: the rounds, their times, and the response they make |
| RequestStack.Client.Finish | sdk/cxx/client.cpp:308-312 | total time, failure stage and number of rounds are filled in where they are missing, and nothing else changes |
| RetryRounds.SecondRound | sdk/cxx/orchestrator/interceptor.cpp:140-147 | with at most one retry there are at most two rounds, the second exactly after a failure that may be repeated and a backoff in time |
| RetryRounds.RequestSucceeds | sdk/cxx/client.cpp:302-312 | a successful request answers what the last engine called in the whole log did |
| RetryRounds.RequestFails | sdk/cxx/client.cpp:302-312 | a failed one carries its error, and what the last engine called in its last round answered |
| RetryRounds.LoopSucceeds | sdk/cxx/orchestrator/interceptor.cpp:135-148 | a loop that ends well leaves the answer of its last call, with the number of rounds |
| RetryRounds.LoopFails | sdk/cxx/orchestrator/interceptor.cpp:135-148 | one whose last round failed leaves that of the last call of that round |
| Requests.KeyIsShown | sdk/cxx/orchestrator/interceptor.cpp:36-40 | an idempotency key counts exactly when something in it is not space |
| RequestStack.Client.Execute | sdk/cxx/orchestrator/interceptor.cpp:248-260 | the same for the orchestrator with any retry budget, for the thread that runs the operation: the whole is one retry loop over its rounds, each of them a run of the transport, with the lookups and the looks at the circuit breaker they made |
| RequestStack.Client.Proceed | sdk/cxx/orchestrator/interceptor.cpp:100-104 | the same for any stack of interceptors from any position: without a retry loop one run of the transport, with one its rounds; calls bounded by 6 times (retries + 1) for each retry loop, by 1 when not replayable |
| RequestStack.Client.InterceptWeakNet | sdk/cxx/orchestrator/interceptor.cpp:153-168 | the guard never raises the call bound; offline, a single round is left |
| RequestStack.Client.Guard | sdk/cxx/orchestrator/interceptor.cpp:155-165 | at most one retry on a weak link, none offline, and nothing else in the context changes but the mark |
| RequestStack.Client.InterceptRetry | sdk/cxx/orchestrator/interceptor.cpp:122-151 | the whole retry loop: one deadline (the caller's if given), each round begins at a clock reading with exactly the positive time left and runs the transport once, its logged calls fall between that reading and the next and get no more than that, no backoff crosses the deadline, and result, timeout left and end follow from the rounds |
| RequestStack.Client.RunRounds | sdk/cxx/orchestrator/interceptor.cpp:128-148 | the loop itself: log and sleeps are those of its rounds, at most one more of them than the retry limit |
| RetryRounds.LoopMeans | sdk/cxx/orchestrator/interceptor.cpp:122-151 | how the loop ended, its result and the timeout the request is left with, from the last two rounds: the caller's after a result, the last round's after running out of time |
| RetryRounds.TimeoutLeftExactly | sdk/cxx/orchestrator/interceptor.cpp:130-135 | the caller's timeout is lost exactly when time ran out before a round after the first whose predecessor had another |
| RetryRounds.TimeoutLeftBehind | sdk/cxx/orchestrator/interceptor.cpp:130-135 | and this happens, for every client with a prober: a name not found, a sleep past the deadline, and a request with 100 ms is left with 90 |
| RetryRounds.RequestTimes | sdk/cxx/orchestrator/interceptor.cpp:128-148 | every round of a finished loop ran the transport just when it had time left; one with a call began before the deadline or more than 2^31 ms after it, its calls within what was left; no sleep reaches the deadline |
| RetryRounds.RequestResult | sdk/cxx/orchestrator/interceptor.cpp:128-151 | a finished loop went on for exactly as long as it may, and its result is that of its last round |
| RequestStack.Client.RetryOnce | sdk/cxx/orchestrator/interceptor.cpp:129-148 | one pass: a clock reading, no call when it leaves no time, else a round under exactly the time left, and how it ends |
| RequestStack.Client.RunRound | sdk/cxx/orchestrator/interceptor.cpp:135-139 | one round: the rest of the chain runs, with exactly the time left, and without a further retry loop that is one run of the transport; every call inside it gets at most the time left at its start |
| RequestStack.Client.RoundAndBackOff | sdk/cxx/orchestrator/interceptor.cpp:135-147 | a round, and one sleep of the prescribed length exactly when another may follow |
| RequestStack.Client.AfterRound | sdk/cxx/orchestrator/interceptor.cpp:140-147 | what ends the loop after a round: a result, no retry left, or a backoff that would reach the deadline |
| RequestStack.Client.BackOff | sdk/cxx/orchestrator/interceptor.cpp:142-147 | it sleeps the prescribed delay, once, exactly when that ends before the deadline; the clock is at least that much later |
| RetryRounds.TimeLeftExactly | sdk/cxx/orchestrator/interceptor.cpp:129-130 | the 32-bit cast sees time left exactly when the clock modulo 2^32 is more than 2^31 ms past the deadline |
| RequestStack.Client.ExecuteTransport | sdk/cxx/client.cpp:403-452 | one lookup of the request's host, none without a prober; a failed or empty one, or no prober, means no call; otherwise the address loop over what it found, each address with the chain of protocols that ran on it, its result and its response; the response is the last attempt's, with the time of the lookup and a stage where they were missing; at most 6 calls, 1 when not replayable; the pool's leases are as before, and the prober got one sample for each address, or one failure when there was none |
| RequestStack.Client.UseFound | sdk/cxx/client.cpp:414-452 | the part of it after the lookup |
| RequestStack.Client.NoAddress | sdk/cxx/client.cpp:416-421 | without an address no call, a DNS error, and one failure observed |
| RequestStack.Client.Complete | sdk/cxx/client.cpp:447-450 | what the last attempt left out of its response |
| Transport.RanSucceeds | sdk/cxx/client.cpp:423-451 | a run of the transport that succeeds answers what its last call did |
| Transport.RanFails | sdk/cxx/client.cpp:423-451 | one that fails answers what its last call did, or what it was given without one, with the error and a stage |
| Transport.AttemptsFail | sdk/cxx/client.cpp:423-446 | attempts that all failed leave the last call's answer, however many of them made none |
| Transport.PassOf | sdk/cxx/client.cpp:423-451 | an address loop that is over, with the lookup before it, is a run of the transport |
| RequestStack.Client.TryAddresses | sdk/cxx/client.cpp:423-446 | the addresses found, in their order, one or two, the second exactly after a failed connect to the first when there is one and the request may be repeated; on each the chain of protocols ran on the response the one before left, and gave the result and the response reported; the prober got one sample per address, with its outcome and its time |
| RequestStack.Client.TryAddress | sdk/cxx/client.cpp:426-445 | one lease on the request's own origin under a new id unless the pool refuses, given back at the end with the outcome; the chain of protocols its policy prescribes on that address, within the request's timeout, whose calls are the logged ones and whose end is the result and the response; one sample of that outcome and its time |
| RequestStack.Client.RunLeased | sdk/cxx/client.cpp:430-437 | the chain of protocols between taking and giving back the lease |
| EngineChain.ProtocolSelector.RequestWithPolicy | sdk/cxx/engine/protocol_selector.cpp:82-204 | the steps taken are a prefix of the policy's chain, each passed over exactly when not built or refused by the circuit breaker's history at a look that is in that history; every look, success and retryable failure is recorded there in order, and nothing else of this request; each call got at most what was left when its step began and at least what is left when it starts, time is up exactly when that is none. A success answers what the last engine called did, marked with its protocol, the number of calls, and `degraded` exactly when a built earlier one was skipped or failed; a failure answers what the last engine called did, or what was passed in if none was, with the error and the number of calls. A further engine is called only after an error of six kinds, and is an older one the policy allows; it stops early only for a success, a failure that may not be repeated, or when time is up |
| EngineChain.ProtocolSelector.RunChain | sdk/cxx/engine/protocol_selector.cpp:144-203 | the chain loop against the list of steps it took, the engine log, the clock and the circuit breaker's history |
| EngineChain.ProtocolSelector.NextStep | sdk/cxx/engine/protocol_selector.cpp:146-196 | one step with its place in the chain: the log, the history and the list of steps grow by it |
| EngineChain.ProtocolSelector.OneRound | sdk/cxx/engine/protocol_selector.cpp:146-197 | one round of the loop: that step, and what it does to the loop's variables |
| EngineChain.TakeIn | sdk/cxx/engine/protocol_selector.cpp:147-197 | the loop's variables stay what the steps taken determine, the response the last engine's answer, and it goes on exactly after a step that allows it |
| EngineChain.ProtocolSelector.TryEngine | sdk/cxx/engine/protocol_selector.cpp:146-176 | one step: not built, refused by the circuit breaker, out of time, or a call; its times, its look and what was learned are those of the clock, the log and the circuit breaker |
| EngineChain.ProtocolSelector.LookUp | sdk/cxx/engine/protocol_selector.cpp:150-156 | available exactly when the history up to the look refuses nothing at that time |
| EngineChain.ProtocolSelector.CallEngine | sdk/cxx/engine/protocol_selector.cpp:165-196 | an engine is called exactly when time is left, with that time, once, and the circuit breaker learns exactly what the call's result calls for |
| EngineChain.ProtocolSelector.Learn | sdk/cxx/engine/protocol_selector.cpp:178-196 | only a retryable failure counts against an engine, only a success clears it |
| EngineChain.StepsCalls | sdk/cxx/engine/protocol_selector.cpp:144-203 | the calls of a chain are allowed ones, all failed but perhaps the last; a request that may not be repeated makes at most one |
| EngineChain.StepsDescend | sdk/cxx/engine/protocol_selector.cpp:144-203 | each call goes to an engine the policy allows; another follows only after a failure that may be repeated of a request that may, and goes to an older protocol |
| EngineChain.ChainExactly | sdk/cxx/engine/protocol_selector.cpp:85-136 | a policy's chain holds exactly the engines it allows, newer ones first; a policy falls back exactly when there is more than one |
| EngineChain.CallsWithin | sdk/cxx/engine/protocol_selector.cpp:144-176 | all calls of a chain fall between its start and its end, and none was given more than the request's timeout less the time gone by |
| EngineChain.SegmentsJoin | sdk/cxx/client.cpp:423-446 | stretches of calls of which only the last may end in OK join into one with the same promise |
| EngineChain.ProtocolSelector.Advance | sdk/cxx/engine/protocol_selector.cpp:144-197 | one more step keeps a chain one the policy prescribes, on time and by the circuit breaker's history, or ends it |
| CircuitBreaker.Breaker.Available | sdk/cxx/engine/protocol_selector.cpp:41-54 | available exactly when the whole history so far does not refuse it; the reset when a ban has expired; recorded |
| CircuitBreaker.Breaker.Failure | sdk/cxx/engine/protocol_selector.cpp:56-66 | the new table; an arbitrary entry makes room when a new key finds it full |
| CircuitBreaker.Breaker.Success | sdk/cxx/engine/protocol_selector.cpp:68-76 | clears the key's circuit and nothing else |
| CircuitBreaker.RefinesHistory | sdk/cxx/engine/protocol_selector.cpp:41-76 | in every history each circuit's count is the run of failures since the last success, expiry or eviction, a ban stands exactly when that run reached the limit, and there are at most `max_states_` circuits; for any limits |
| CircuitBreaker.RefusedExactly | sdk/cxx/engine/protocol_selector.cpp:41-54 | a protocol is refused exactly while the ban its failures earned has not run out |
| CircuitBreaker.StateHostKeyInjective | sdk/cxx/engine/protocol_selector.cpp:36-39 | circuits of different hosts, ports or epochs never share an entry |
| Requests.NormalizedOnce | sdk/cxx/orchestrator/interceptor.cpp:74-81 | what the client presets (sdk/cxx/client.cpp, lines 299-300) does not change what the orchestrator decides, nor does deciding again |
| Requests.SameDecision | sdk/cxx/orchestrator/interceptor.cpp:62-81 | whether a request may be replayed, and its retry budget, depend on the caller's word, the body, the method and the set of idempotency keys only |
| DedupKey.BuildKey | sdk/cxx/orchestrator/interceptor.cpp:83-96 | the loop writes the key the model reasons about |
| DedupKey.KeyExactly | sdk/cxx/orchestrator/interceptor.cpp:46-96 | shareable requests that passed the C entry point have equal keys if and only if they are the same request, header names compared without case |
| DedupKey.LinesUnique | sdk/cxx/orchestrator/interceptor.cpp:83-96 | the newline-joined text has one reading |
| DedupKey.KeyNeedsValidation | sdk/cxx/abi/abi.cpp:355-362 | without the CR/LF check two different shareable requests share a key |
| Coalescer.RequestCoalescer.Enter | sdk/cxx/orchestrator/interceptor.cpp:192-209 | the first critical section: a key with a flight follows it, another leads a new one while there is room, and finds no room otherwise |
| Coalescer.RequestCoalescer.Publish | sdk/cxx/orchestrator/interceptor.cpp:236-243 | the leader's last critical section |
| Coalescer.Invariant | sdk/cxx/orchestrator/interceptor.cpp:188-246 | in every state of every run the flight map holds exactly the incomplete flights, at most `max_flights`, each led by one thread that runs or is about to publish; the overflow branch holds the mutex |
| Coalescer.EntersExactly | sdk/cxx/orchestrator/interceptor.cpp:192-215 | over every run: a shareable request that enters follows the flight under way for its key, until its deadline; without one it leads a new flight for that key if fewer than `max_flights` are under way, and overflows only when exactly that many are |
| Coalescer.TakesPartExactly | sdk/cxx/orchestrator/interceptor.cpp:46-60 | a request that may be repeated takes part exactly when it is a bodyless GET or HEAD with no trust anchor or address of its own, none but five harmless headers, and nothing too long; every other one neither leads nor follows, then or later |
| Coalescer.OneRunPerKey | sdk/cxx/orchestrator/interceptor.cpp:188-246 | no two shareable operations with one key run at once, not even through the overflow branch |
| Coalescer.NeverTheSameRequest | sdk/cxx/orchestrator/interceptor.cpp:188-246 | two running shareable requests that passed the C entry point are never the same request |
| Coalescer.FollowerReturnsItsLeaders | sdk/cxx/orchestrator/interceptor.cpp:211-226 | a follower that did not time out returns its own leader's result, response and cache mark, for the same key |
| Coalescer.LeaderExitLands | sdk/cxx/orchestrator/interceptor.cpp:228-245 | after a leader's operation ended, even by exception, at every later moment of every interleaving its flight is complete with that outcome exactly when the leader has published; until then it can whenever nobody holds the lock, and from then on every follower can leave |
| Coalescer.PublishOnlyItsOwn | sdk/cxx/orchestrator/interceptor.cpp:236-243 | publishing completes the leader's own flight, frees its key and touches no other flight |
| Coalescer.TimeoutIsLate | sdk/cxx/orchestrator/interceptor.cpp:211-222 | a follower that timed out had joined a flight, left at or past the deadline it set then, with the flight unfinished |
| Coalescer.FollowersHaveALeader | sdk/cxx/orchestrator/interceptor.cpp:211-226 | no follower waits on a flight nobody will complete |
| Coalescer.CallsInBlocks | sdk/cxx/orchestrator/interceptor.cpp:188-246 | over any interleaving, the engine calls made for one key come in blocks, one running thread's after another's, and followers add none |
| Chunked.DecodeChunked | sdk/cxx/engine/http1_engine.cpp:68-101 | the decoder's loops compute the recursive decoding of the buffer, for any reading of size lines |
| Chunked.OneChunk | sdk/cxx/engine/http1_engine.cpp:72-99 | one pass of the outer loop against the decoding of the rest of the buffer |
| Chunked.OneRound | sdk/cxx/engine/http1_engine.cpp:83-99 | the same from behind the size line: trailers, or a chunk's data and its CRLF |
| Chunked.SkipTrailers | sdk/cxx/engine/http1_engine.cpp:85-92 | the trailer loop finds the empty line or asks for more |
| Chunked.DecodeStable | sdk/cxx/engine/http1_engine.cpp:68-101 | a Complete or Invalid verdict and its output are unchanged by any bytes appended |
| Chunked.CompleteExactly | sdk/cxx/engine/http1_engine.cpp:68-101 | the verdict is Complete with a body if and only if a message of the code's grammar with that body stands at the front |
| Chunked.DecodeWire | sdk/cxx/engine/http1_engine.cpp:68-101 | every well-formed message, whatever follows, decodes to its body |
| Chunked.DecodeSound | sdk/cxx/engine/http1_engine.cpp:68-101 | Complete means such a message was there |
| Chunked.RoundTrip | sdk/cxx/engine/http1_engine.cpp:68-101 | for every body, every cut into non-empty chunks, all extensions and trailers, decoding the encoding gives the body |
| Chunked.MessageUnique | sdk/cxx/engine/http1_engine.cpp:68-101 | a buffer has at most one message at its front, so where a message ends is determined |
| Chunked.SizeLineReads | sdk/cxx/engine/http1_engine.cpp:74-81 | a size printed in hexadecimal, with or without an extension, is read back as that size |
| Chunked.StrtoullReads | sdk/cxx/engine/http1_engine.cpp:77-81 | plain hexadecimal digits are converted whole, and refused from 2^64 on |
| Http1Response.ReadHead | sdk/cxx/engine/http1_engine.cpp:308-317 | reads on, losing and inventing no byte; it ends as soon as the blank line is in the buffer, or when the buffer is too large or the stream ends |
| Http1Response.ReadFinalHead | sdk/cxx/engine/http1_engine.cpp:312-354 | skips interim heads; the bytes taken are exactly the skipped heads and the buffer it ends with |
| Http1Response.ScanHeaders | sdk/cxx/engine/http1_engine.cpp:362-412 | the field loop computes the scan of the head's lines |
| Http1Response.ScanFlags | sdk/cxx/engine/http1_engine.cpp:387-390 | chunked and close are set exactly when some line says so |
| Http1Response.ScanLengths | sdk/cxx/engine/http1_engine.cpp:391-407 | the Content-Length lines are accepted exactly when all are numbers and agree, 2^64 - 1 counting as none |
| Http1Response.ReadUntilDecided | sdk/cxx/engine/http1_engine.cpp:434-461 | the read-and-decode loop ends with its first verdict, which the bytes before the last read did not have, on no more bytes than allowed; else with too many bytes, or the end of the stream |
| Http1Response.ReadChunked | sdk/cxx/engine/http1_engine.cpp:434-461 | a verdict reached on part of the stream is the verdict on all of it, however it was cut; errors follow the budget |
| Http1Response.ReadSized | sdk/cxx/engine/http1_engine.cpp:462-491 | succeeds exactly with the announced length within the limit and never takes a byte more |
| Http1Response.ReadToEnd | sdk/cxx/engine/http1_engine.cpp:492-509 | the body is what arrives, refused when over the limit |
| Http1Response.ReadBody | sdk/cxx/engine/http1_engine.cpp:421-516 | a body is accepted exactly when it is what the framing says of the bytes behind the head and not spoilt (too large, a bad chunk, or bytes that came too early); while the stream goes on, exactly when it is not spoilt |
| Http1Response.ReadMessage | sdk/cxx/engine/http1_engine.cpp:356-528 | from the final head on: success, its framing, and exactly when the connection is kept |
| Http1Response.ReadResponse | sdk/cxx/engine/http1_engine.cpp:308-528 | to HEAD, or with status 204 or 304: accepted exactly when the head fits, its Content-Length lines agree and nothing came with it; then the body is empty, nothing behind the head is taken, and the connection is closed, whatever the fields say. Otherwise the fields decide: accepted exactly when the head is in order and the body is whole by its chunks, its length or the end of the stream, and within the limit; while the stream goes on exactly when nothing is wrong; kept exactly when the message ended by itself and nobody asked to close. The bytes taken of a kept connection are exactly the interim heads, the final head and the announced body, or with chunks the message and less than one read more, which is nothing exactly when the bytes taken are the message's |
| Http1Response.SurplusOf | sdk/cxx/engine/http1_engine.cpp:434-461 | what was read behind the head is one message and a rest shorter than one read |
| Http1Response.SurplusLost | sdk/cxx/engine/http1_engine.cpp:434-461 | the rest that a kept connection has lost is determined, in whatever way what was read is taken for a message and a rest |
| Http1Cases.RestLost | sdk/cxx/engine/http1_engine.cpp:356-528 | for every status that may have a body, every chunked message and every rest that one read brings with the head, the response is accepted with its body, the connection is kept, and the rest is lost |
| Http1Cases.CutDecides | sdk/cxx/engine/http1_engine.cpp:462-491 | for every status that may have a body, every body and every rest: accepted when the head comes with just the body, refused when it comes with any of the rest |
| Http1Cases.LengthDecides | sdk/cxx/engine/http1_engine.cpp:421-491 | a response with any status and a printed Content-Length, as bytes: to HEAD, or with 204 or 304, it is accepted exactly with nothing behind its head, whatever the length; otherwise exactly with that many bytes |
| Http1Cases.FieldsDecide | sdk/cxx/engine/http1_engine.cpp:362-412 | from the text of a head with any fields: it is chunked, or closes, exactly when one of them says so in whatever case; without a Content-Length there is no length |
| Http1Cases.HeadStatus | sdk/cxx/engine/http1_engine.cpp:327-335 | the number printed in the status line is the status, whatever follows |
| Http1Cases.AnnouncedLength | sdk/cxx/engine/http1_engine.cpp:391-407 | from the text of a head: a printed Content-Length is read back, refused from 2^64 on, and 2^64 - 1 counts as none |
| Http1Response.SplitIndependent | sdk/cxx/engine/http1_engine.cpp:308-528 | for any way of reading the status: when the heads of one successful reading settle their status, every other successful reading of the same stream, however cut into reads, agrees with it on heads, status, fields and (when framed) body |
| Http1Response.SplitIndependentStatus | sdk/cxx/engine/http1_engine.cpp:308-528 | for the code's way of reading it: the same when every head of the one reading holds its status |
| StatusLine.SettledExactly | sdk/cxx/engine/http1_engine.cpp:327-335 | the bytes behind a head cannot change its status if and only if the head has two blanks and something other than space after the first |
| StatusLine.InsideSettles | sdk/cxx/engine/http1_engine.cpp:327-335 | such a head has one status whatever follows |
| StatusLine.Unsettled | sdk/cxx/engine/http1_engine.cpp:327-335 | for every other head, bytes behind it and a status before it with which the status changes |
| HandleRegistry.ClientHandle.Acquire | sdk/cxx/abi/abi.cpp:41-44 | counts a lease unless the handle is marked or empty |
| HandleRegistry.ClientHandle.Release | sdk/cxx/abi/abi.cpp:47-52 | gives a lease back and drops the client after the last one of a marked handle |
| HandleRegistry.ClientHandle.Mark | sdk/cxx/abi/abi.cpp:255-257 | marks, and drops the client if no lease is left |
| HandleRegistry.Registry.Insert | sdk/cxx/abi/abi.cpp:230-238 | the next token, refused when tokens run out |
| HandleRegistry.Registry.Take | sdk/cxx/abi/abi.cpp:247-254 | a token leaves the registry with its handle |
| HandleRegistry.Invariant | sdk/cxx/abi/abi.cpp:21-57 | the accounting of handles, leases and tokens holds in every state of every run |
| HandleRegistry.Lifecycle | sdk/cxx/abi/abi.cpp:32-57 | `active_requests` is the number of live leases; the client is null exactly when marked without leases, was dropped at most once, never under a lease |
| HandleRegistry.MarkedForever | sdk/cxx/abi/abi.cpp:41-44 | no acquire that takes the mutex after destroy marked the handle succeeds |
| HandleRegistry.AcquiresExactly | sdk/cxx/abi/abi.cpp:41-44 | over every run: a call that has found a handle gets its lease, unless a destroy of that handle came to its end before; then it is refused |
| HandleRegistry.MarkedExactly | sdk/cxx/abi/abi.cpp:255-257 | a handle is marked exactly when a destroy of it has come to its end |
| HandleRegistry.FoundUntilRemoved | sdk/cxx/abi/abi.cpp:230-254 | a new token finds its handle for as long as nobody destroys it |
| HandleRegistry.FreshToken | sdk/cxx/abi/abi.cpp:230-238 | tokens are non-null and never issued twice |
| HandleRegistry.IssuedGrows | sdk/cxx/abi/abi.cpp:245-254 | a destroyed token never comes back |
| HandleRegistry.NothingLeaks | sdk/cxx/abi/abi.cpp:245-261 | when the last call on a destroyed handle is over its client has been dropped, once |
| ClientLifecycle.MetricsQueue.Push | sdk/cxx/client.cpp:482-493 | drops the oldest of 256 for the new one |
| ClientLifecycle.MetricsQueue.Next | sdk/cxx/client.cpp:495-509 | one round of the worker: it exits only when told to stop with an empty queue |
| ClientLifecycle.ClientQuality.OnNetworkChange | sdk/cxx/client.cpp:183-191 | epoch, prober and last published snapshot move together |
| ClientLifecycle.ClientQuality.PublishQualityChange | sdk/cxx/client.cpp:348-366 | publishes exactly the snapshots not older than the last one |
| ClientLifecycle.Invariant | sdk/cxx/client.cpp:147-208 | lock, flags, epoch, snapshots, worker and queue agree in every state of every run |
| ClientLifecycle.EpochCoherence | sdk/cxx/client.cpp:285-318 | while a request is in its transport, the epoch it captured is the client's and the prober's |
| ClientLifecycle.LastQualityNeverBack | sdk/cxx/client.cpp:348-366 | (epoch, sample time) of the last published quality never decreases over any interleaving |
| ClientLifecycle.PublishesLatest | sdk/cxx/client.cpp:348-366 | publishing leaves the later of the last published quality and the captured one |
| ClientLifecycle.EpochCounts | sdk/cxx/client.cpp:183-191 | the epoch is the number of network changes so far, each of which publishes a fresh state |
| ClientLifecycle.MetricsAccounted | sdk/cxx/client.cpp:482-521 | at most 256 queued; enqueued = taken + dropped + queued; the worker got the undropped ones in order |
| ClientLifecycle.DropsExactly | sdk/cxx/client.cpp:482-493 | an item is dropped exactly when a new one finds 256 queued, and it is the one that has waited longest |
| ClientLifecycle.NothingAfterStop | sdk/cxx/client.cpp:147-159 | nothing is enqueued after the worker was told to stop |
| ClientLifecycle.NoMetricLost | sdk/cxx/client.cpp:155-159 | once the destructor has joined the worker every metric was delivered or dropped |
| LeasePool.ConnectionPool.FindOldestIdle | sdk/cxx/connection/connection_pool.cpp:102-108 | finds a longest-unused idle entry, or there is none |
| LeasePool.ConnectionPool.AcquireLease | sdk/cxx/connection/connection_pool.cpp:96-126 | the whole new pool and the lease, with the victim the scan found |
| LeasePool.ConnectionPool.ReleaseLease | sdk/cxx/connection/connection_pool.cpp:128-141 | the whole new pool; its time of last use is what `LeasePool.LastUsed` says |
| LeasePool.ConnectionPool.OnNetworkChange | sdk/cxx/connection/connection_pool.cpp:143-150 | clears and counts evictions |
| LeasePool.Invariant | sdk/cxx/connection/connection_pool.cpp:89-150 | in every history each entry counts its live leases, every live lease has its entry, entries are bounded, entries made = present + evicted |
| LeasePool.AcquireGives | sdk/cxx/connection/connection_pool.cpp:96-126 | a new id on the entry of its own origin; refused exactly for an empty host or a pool full of other origins in use; no other entry but the victim changes |
| LeasePool.LastUsed | sdk/cxx/connection/connection_pool.cpp:96-141 | in every pool of every history an entry's time is that of the last operation that took or gave back a lease on it |
| LeasePool.EvictsLeastRecent | sdk/cxx/connection/connection_pool.cpp:99-113 | an entry leaves a pool, other than by a network change, only for another origin that finds it full, and alone; no lease on it is live, and no other such entry was last used earlier in the history |
| LeasePool.StaleRelease | sdk/cxx/connection/connection_pool.cpp:128-150 | a lease from before a network change can be returned at any later time without effect |
| LeasePool.DoubleRelease | sdk/cxx/connection/connection_pool.cpp:128-141 | returning a lease again at any later time has no effect |
| LeasePool.DeadForever | sdk/cxx/connection/connection_pool.cpp:115-125 | lease ids are never reused |
| LeasePool.KeyForInjective | sdk/cxx/connection/connection_pool.cpp:19-23 | different origins never share an entry |
| QualityProber.ComputeScore | sdk/cxx/sdt/quality_prober.cpp:40-57 | the stepwise score is 100 minus the penalties, held to 0..100, and -1 without measurements |
| QualityProber.ScoreMonotone | sdk/cxx/sdt/quality_prober.cpp:40-57 | a sample no better in anything another measured never scores higher; what was not measured costs nothing |
| QualityProber.Prober.ObserveSample | sdk/cxx/sdt/quality_prober.cpp:100-186 | the whole new state, and whether the change is announced |
| QualityProber.Prober.OnNetworkChange | sdk/cxx/sdt/quality_prober.cpp:205-231 | starts over, Offline with score 0 without a network |
| QualityProber.Counters | sdk/cxx/sdt/quality_prober.cpp:110-137 | over every history samples = successes + failures, consecutive failures = the trailing failure run, the network is the last one reported |
| QualityProber.LossIsShare | sdk/cxx/sdt/quality_prober.cpp:21-24 | loss is the floor of 1000 times failures over samples |
| QualityProber.SmoothedIsFold | sdk/cxx/sdt/quality_prober.cpp:139-143 | the smoothed time is the moving average over the successes |
| QualityProber.ScoreRange | sdk/cxx/sdt/quality_prober.cpp:120-174 | the score stays in -1..100; network NONE implies Offline with score 0 |
| QualityProber.GoodRunIsCounter | sdk/cxx/sdt/quality_prober.cpp:154-173 | the recovery counter is the length of the trailing run of good samples |
| QualityProber.RecoversExactly | sdk/cxx/sdt/quality_prober.cpp:166-171 | from Degraded, Bad or Offline, Good is entered exactly with the sample that completes the required run |
| QualityProber.GoodRunMeans | sdk/cxx/sdt/quality_prober.cpp:154-173 | each sample of that run was a success scoring in the good band on some network |
| QualityProber.FailuresAreBad | sdk/cxx/sdt/quality_prober.cpp:122-133 | enough failures in a row on a live network are Bad with score 0, whatever came before |
| QualityProber.QualityExactly | sdk/cxx/sdt/quality_prober.cpp:120-174 | the quality after every history from its last observation: Offline without a network; after a failure Bad once enough came in a row, else Degraded if it was Good; after a success Bad below the weak score, Degraded below the degraded one, and else Good unless it has yet to recover |
| QualityProber.ScoreIsOf | sdk/cxx/sdt/quality_prober.cpp:138-152 | the score after a success from the history: the moving average of the times, the share of failures before this sample, and the last bandwidth |
| SmoothedRtt.StaysInRange | sdk/cxx/sdt/quality_prober.cpp:139-143 | the average stays between the least and the greatest observation |
| SmoothedRtt.NoOverflow | sdk/cxx/sdt/quality_prober.cpp:139-143 | with times up to (2^31 - 1) / 10 no intermediate value leaves 32 bits |
| SmoothedRtt.FixedPoint | sdk/cxx/sdt/quality_prober.cpp:139-143 | it stands still under a constant time exactly when at most 3 below it |
| SmoothedRtt.Converges | sdk/cxx/dns/dns_resolver.cpp:439-444 | under a constant time it reaches it from above and comes within 3 from below, in no more steps than the distance |
| AddressRanking.ScoreBehaves | sdk/cxx/dns/dns_resolver.cpp:349-372 | scores lie in -4500..10500 and worse measurements never raise one, with an unmeasured time in its place among the measured |
| AddressRanking.UnmeasuredRanks | sdk/cxx/dns/dns_resolver.cpp:354-370 | an address without a round-trip time scores exactly like one with 250, 350, 475, 500 or 250 ms on a good, degraded, bad, offline or unknown network |
| AddressRanking.FailureWeighs | sdk/cxx/dns/dns_resolver.cpp:369-372 | what any run of failures weighs against any round-trip time, exactly, saturation and unmeasured times included |
| AddressRanking.LossWeighs | sdk/cxx/dns/dns_resolver.cpp:354-372 | what loss weighs against any round-trip time: each thousandth lost as much as a millisecond, up to 1000 of them |
| AddressRanking.SuccessesForgive | sdk/cxx/dns/dns_resolver.cpp:365-372 | past successes cancel one failure unless the network is good |
| AddressRanking.RankOrdered | sdk/cxx/dns/dns_resolver.cpp:374-379 | the ranking is a permutation, by score descending and then by address |
| AddressRanking.RankIsTheStableSort | sdk/cxx/dns/dns_resolver.cpp:374-379 | it is the one and only stable ordering by that comparison |
| AddressRanking.OrderDoesNotMatter | sdk/cxx/dns/dns_resolver.cpp:374-379 | answers with the same distinct addresses rank the same in whatever order they came |
| AddressRanking.BestFirst | sdk/cxx/dns/dns_resolver.cpp:374-379 | no address scores higher than the first |
| Resolver.SmartResolver.Resolve | sdk/cxx/dns/dns_resolver.cpp:206-394 | only safe addresses are ever answered, literals too; success means a non-empty answer, and for a name it is what the cache holds |
| Resolver.SmartResolver.ResolveName | sdk/cxx/dns/dns_resolver.cpp:231-394 | the answer is the ranking of what was found first: the cached entry while fresh, then HTTPDNS, the system, the backup addresses, and last the cached entry while stale; a permutation of that, all safe, in order, equal to the host's and epoch's new cache entry; what it looked at was so: the cache entry and backups at the start, the deadline from the caller's timeout, clock readings in order, a quality the resolver really held, and each lookup with its moves on the slots; which lookups were made, the cache mark and the error follow exactly |
| Resolver.SmartResolver.Conclude | sdk/cxx/dns/dns_resolver.cpp:327-394 | the last part of it: tier, ranking, store and error |
| Resolver.SmartResolver.LookUpLive | sdk/cxx/dns/dns_resolver.cpp:303-326 | live lookups are made exactly when nothing better was found, in time by the clock, and never when the quality read was offline |
| Resolver.SmartResolver.RunBoundedLookup | sdk/cxx/dns/dns_resolver.cpp:258-301 | refused exactly with all slots taken; otherwise a slot is taken, and the lookup collected, or given up at the deadline, or its thread not started and the slot given back: those moves and no others |
| Resolver.SmartResolver.AwaitJob | sdk/cxx/dns/dns_resolver.cpp:294-301 | the wait ends with the job's answer or at the deadline, never before |
| Resolver.SmartResolver.ResolveLocal | sdk/cxx/dns/dns_resolver.cpp:121-157 | each safe address the system returned, once, and no other |
| Resolver.SmartResolver.Store | sdk/cxx/dns/dns_resolver.cpp:379-388 | the new cache, within its limit; another entry goes exactly when a new one finds it full |
| Resolver.SmartResolver.Invalidate | sdk/cxx/dns/dns_resolver.cpp:404-418 | removes the entries with the host's prefix and no other, or all without a host |
| Resolver.SmartResolver.KeysOf | sdk/cxx/dns/dns_resolver.cpp:410-417 | the loop over the table picks exactly those |
| Resolver.SmartResolver.SetBackupIps | sdk/cxx/dns/dns_resolver.cpp:474-502 | keeps the safe numeric ones and forgets the host's answers |
| Resolver.SmartResolver.ReportConnectionResult | sdk/cxx/dns/dns_resolver.cpp:420-448 | the new health table: bounded, the longest untouched record makes room, the address's record learns the outcome, no other changes |
| Resolver.RankingMeans | sdk/cxx/dns/dns_resolver.cpp:333-379 | filtering, scoring and sorting lose and invent nothing when what was picked is safe |
| Resolver.RecordMeans | sdk/cxx/dns/dns_resolver.cpp:436-447 | over every history of outcomes a record holds the trailing failure run, the number of successes and their moving average |
| Resolver.PrefixPicksTheHost | sdk/cxx/dns/dns_resolver.cpp:410-413 | the prefix test picks exactly the host's own entries |
| Resolver.HealthKeyInjective | sdk/cxx/dns/dns_resolver.cpp:159-165 | experience with an address is never applied to another host, network or address |
| Resolver.FreshStep | sdk/cxx/dns/dns_resolver.cpp:238-250 | a resolution that finds what the last one stored is served from the fresh cache exactly when it reads within the time to live of that; then it looks nothing up and answers the same addresses |
| Resolver.FreshExactly | sdk/cxx/dns/dns_resolver.cpp:379-388 | a chain of resolutions is served from the fresh cache throughout if and only if each reads within the time to live of the one before |
| Resolver.FreshKeeps | sdk/cxx/dns/dns_resolver.cpp:379-388 | and then the last answers what the first did, however long ago that was |
| Resolver.AnswersAge | sdk/cxx/dns/dns_resolver.cpp:379-388 | for every number k there is such a chain whose last resolution reads k times the time to live after the first one stored |
| LookupSlots.Invariant | sdk/cxx/dns/dns_resolver.cpp:258-301 | in every run `active_lookups` is the number of slots taken or running, at most the maximum |
| LookupSlots.StepKeeps | sdk/cxx/dns/dns_resolver.cpp:283-291 | the guarded decrements never hit zero |
| LookupSlots.RefusedExactly | sdk/cxx/dns/dns_resolver.cpp:263-268 | a lookup is refused exactly when the maximum number of slots is held |
| LookupSlots.SlotComesBack | sdk/cxx/dns/dns_resolver.cpp:270-293 | in every interleaving a slot stays held until its own thread has taken its remaining steps, one of which it can always take, and is then free for good, whatever the caller and the others do |
| LookupSlots.NoSlotLeaks | sdk/cxx/dns/dns_resolver.cpp:270-293 | with no thread left the counter is back at 0 |
| LookupSlots.Lookups.Move | sdk/cxx/dns/dns_resolver.cpp:262-293 | the counter and the threads move by the steps of the model, each recorded |
| JsonEscape.JsonEscape | sdk/android/jni/asternet_jni.cpp:29-86 | the loop computes the escaped text |
| JsonEscape.Utf8LengthSound | sdk/android/jni/asternet_jni.cpp:33-54 | a sequence the byte tests accept is the UTF-8 of one code point |
| JsonEscape.Utf8LengthComplete | sdk/android/jni/asternet_jni.cpp:33-54 | and the UTF-8 of every code point is accepted whole |
| JsonEscape.LexEscape | sdk/android/jni/asternet_jni.cpp:55-86 | a JSON string lexer stops exactly at the closing quote, for every input and whatever follows |
| JsonEscape.BytesOfTokens | sdk/android/jni/asternet_jni.cpp:55-86 | a byte-level reading recovers the input exactly |
| JsonEscape.EscapeInjective | sdk/android/jni/asternet_jni.cpp:55-86 | different inputs are never escaped alike |
| JsonEscape.EscapeWellFormed | sdk/android/jni/asternet_jni.cpp:55-86 | the output is well-formed UTF-8 whatever the input |
| JsonEscape.StandardReads | sdk/android/jni/asternet_jni.cpp:55-86 | the standard reading always succeeds, with well-formed text |
| JsonEscape.StandardExactly | sdk/android/jni/asternet_jni.cpp:55-86 | the standard reading gives the input back if and only if it is well-formed UTF-8 |

## Left out

- Sockets, TLS, connection set-up, request writing, and the nghttp2 and xquic engines: an engine is an arbitrary call, a stream arrives in arbitrary pieces.
- Metrics counters and their JSON dump, logging, traceroute, the gateway codec, language bindings, demos and the Go server: none of them holds a protocol, a parser or a state machine worth a proof.
- `inet_pton`, `getaddrinfo` and the address ranges in `is_safe_ip`: which texts are addresses, safe, or IPv6 are parameters of the resolver.
- Threads, condition variables and exceptions as such: a critical section is one event or one method; spurious wake-ups change nothing in the model.
- The coalescer is not nested inside `RequestStack`: that module follows the thread that runs the operation; `Coalescer.CallsInBlocks` says how the calls of several threads for one key lie in time.
- Connection results reported to the resolver are not part of a `RequestStack` run; other requests do not touch the pool and the prober in the middle of one transport there, while they may use the circuit breaker at any time.
- Wrap-around of 64-bit counters (request ids, lease ids, epochs), of sample counts, and of `int` arithmetic in scores: numbers are unbounded except where a width is written out (`Int32`, 2^64 in `strtoull`, token exhaustion).
- `atoi` of numbers beyond `int`, and locales other than C for the character classes.
- Changing the circuit breaker's limits in the middle of a run: they are any positive numbers, fixed at the start.
- A resolver configured with `max_cache_entries` 0: the code then erases from an empty table, which has no meaning in C++, so the model's constructor asks for at least 1.
- Quality callbacks, probes and their counter, and the guard against re-entrant calls (`is_active_client`).
- `EngineChain.World.Resolve`: any answer; `Resolver` proves what the answers are.
- `Http1Response.SplitIndependentStatus`: asks that the heads of one of the readings hold their status, because without that it is false (`StatusLine.Unsettled`), and speaks of readings that succeed, because whether one does depends on the cut (`Http1Response.ReadBody`).
- `Resolver.FreshExactly`: is about resolutions that find each other's entry; an eviction or an invalidation in between ends the chain.
