# WaOPS protocols

A Dafny model of the stateful protocols that connect the WaOPS agent, gateway,
worker and dashboard, with proofs about whole runs of each.  Check it with
`dafny verify dfyconfig.toml`.

| file | what it models |
|---|---|
| TokenBucket | the API's Redis token bucket: lazy refill, spending, wait time, key expiry, response headers |
| FixedWindow | the gateway's per-agent fixed-window counter |
| SseParser, SseBlocks | the dashboard's event-stream parser (a subset of sections 9.2.5 and 9.2.6 of the WHATWG HTML Standard) |
| SseWire, SseExactness | the broker's frame writer, and exactly when the parser undoes it |
| Decimal, RetainedList, RealtimeClient, LiveFeed, Resume | event ids as text, the retained list of 200, the client's cursor and duplicate window, the subscriber that the streams of one process share, and resuming with Last-Event-ID (section 9.2.4 of the same standard) |
| AgentBuffer, AgentBufferRuns | the agent's bounded buffer, over a backing array with in-place compaction |
| AgentFlush, AgentProtocol, Backoff | the flush loop, the send-and-acknowledge protocol over a lossy network and across restarts, and the retry delay in 64-bit arithmetic |
| Outbox, OutboxRuns | the outbox dispatcher and its settling bounds |
| EventConsumer, EventLinks, EventDelivery, IncidentRaces | the domain-event consumer behind its insert-by-id gate, its incident links, delivery to channels, and the incident service |
| Enrollment | one-time-token enrollment with rollback and crashes |
| RuleTracker | the threshold-rule tracker |

Code that updates fields, arrays or maps is modelled as classes and loops, each
method proved against a function of the old state; the lemmas are then about
runs of those functions.  Database and network protocols are state machines: a
step type, an `Enabled` guard, an `Apply` function, and lemmas over every legal
sequence of steps.

Lua and JavaScript numbers are reals and unbounded integers; Go's shift in the
retry delay wraps at 64 bits as in Go.

## Where the code does less than it says

Each of these is a lemma with the exact condition; where a family of failures has
a telling member, a run of it is shown as well.

- A restart of the agent is safe exactly when the saved sequence is beyond every
  sequence ever sent. `docs/development/agent/agent-buffering.md` promises that
  no job id is reused after a restart; after a crash between a send and the next
  save one can be (`RestartIsSafeIff`, `UnsafeIsReachable`). A continuation can then lose an item, its
  acknowledgement coming from a job made for another one, exactly when a request
  the gateway accepts was sent at or above the saved sequence
  (`RestartLosesIff`); a single reply loses its item exactly when the gateway
  still remembers the sequence (`ReplyLosesIff`).
- If the oldest 100 batches hold more than the 5000 samples the gateway's schema
  admits, nothing is delivered until an overflow or the daily age limit drops
  them (`OversizedHeadBlocksTheBuffer`, `AdmissibleHeadIsDeliverable`). That can
  happen exactly when the byte bound is at least 5001 * 256, which the default of
  8 MiB is (`OversizedHeadIsReachableIff`).
- The comment "downstream is exactly-once per event_id" in
  `apps/worker/src/main.ts` holds as at-most-once: a worker that stops between
  the insert and the timeline entry loses the event for good, since redelivery
  stops at the insert (`EntryIffNotLost`, `LostIsForever`, `AnyNewEventCanBeLost`);
  one that stops during the fan-out never delivers the channels it had left
  (`AbortedChannelsAreNeverDelivered`).
- One fingerprint can have two open incidents, through exactly two races: a
  worker looks while another is about to create, or an operator reopens beside
  one that is open or about to be created (`RacesAreExact`, `LookRaceHappens`,
  `ReopenRaceHappens`).
- A crash after an enrollment claim, or a rollback that fails, leaves the token
  claimed for ever (`ClaimIsRecoverableIff`).
- Two rule ids can share a counter exactly when one, up to its separator, begins
  the other (`KeysCollideIff`). A call always fires by the last k calls on its
  key, each judged by its own rule (`FiresIffLastKOnKeyViolate`); so rules that
  share an event type can starve (`SharedEventTypeStarvesARule`) or count every
  sample twice (`SharedEventTypeCountsTwice`), and rules that cannot collide fire
  by their own samples (`RuleFiresIffLastKSamplesViolate`).
- The open streams of one API process share a subscriber, and its messages go to
  all of them. Whatever is published, a stream is fed exactly its own channels'
  messages if and only if nothing else was subscribed when it opened, no stream
  that opens meanwhile asks for another channel, and no other stream that closes
  meanwhile shares one of its channels (`FeedIsOwnIff`). Streams of different
  channels are fed each other's messages (`OtherStreamsAreMixedIn`), and a closing
  stream silences the others of its channel (`ClosingSilencesTheOthers`).
- The text of an event comes back from the parser exactly when its type is not
  empty, no field holds a line feed or ends in a carriage return, and its id
  holds no NUL (`RoundTripsIffSendable`).
- Id allocation and the push to the retained list are separate steps. When they
  overtake each other, a reconnecting client can miss the lower id for good
  (`LateLowerIdIsNeverReplayed`); `NothingIsMissedIff` is the exact condition.
- A retry delay whose product overflows 64 bits equals the capped exponential
  exactly when its low 64 bits do not lie strictly between 0 and 30 s
  (`CappedExponentialIff`). Every base up to 2^30 ns is safe for all attempts,
  and one nanosecond more is not (`LargerBaseWrapsBelowTheCap`); the base in use
  is 1 s.
- With rows that become available late, an outbox row can need more than
  `maxAttempts * (p div batchSize + 1)` ticks (`LateRowsDelayTheOthers`); the
  bound that always holds is `SettledWhateverIsAhead`.

## Model

| member | source | states |
|---|---|---|
| TokenBucket.RedisStore.Eval | apps/api/src/middleware/rate-limit.middleware.ts:70-101 | the script's reply and the whole new keyspace, deadline included, from the pair visible at Redis's time; other keys untouched |
| TokenBucket.StoredIsLeastAllowance | apps/api/src/middleware/rate-limit.middleware.ts:75-92 | the stored pair is the time of the last request and the minimum, over all earlier request times, of capacity + refill since then - cost admitted since then |
| TokenBucket.RefilledIsCappedMinimum | apps/api/src/middleware/rate-limit.middleware.ts:78-84 | the balance read at any later time is that minimum taken at that time, capped at the capacity |
| TokenBucket.AdmittedIffEveryWindowFits | apps/api/src/middleware/rate-limit.middleware.ts:75-92 | for non-decreasing times, a request is admitted if and only if its cost fits the capacity and, from every earlier request on, cost admitted since plus this cost is at most capacity + rate * elapsed |
| TokenBucket.BalanceInRange | apps/api/src/middleware/rate-limit.middleware.ts:82-92 | the stored balance stays between 0 and the capacity over every run |
| TokenBucket.SpanIsBounded | apps/api/src/middleware/rate-limit.middleware.ts:75-92 | what any span of a run admits is at most the capacity plus that span's refill |
| TokenBucket.ExpiryNeverChangesAPair | apps/api/src/middleware/rate-limit.middleware.ts:75-84 | a run on a key that may expire stores the same pair as one on a key that never does, for clocks that drift apart by up to 60 001 ms between calls |
| TokenBucket.ExpiryNeverChangesAReply | apps/api/src/middleware/rate-limit.middleware.ts:98-99 | under the same drift no reply of any run depends on the key's expiry |
| TokenBucket.ClockSlackIsTight | apps/api/src/middleware/rate-limit.middleware.ts:98-99 | with 60 002 ms of drift there is a run whose decision an expiry changes, the key being gone once its deadline has passed |
| TokenBucket.LifetimeIsLeastSeconds | apps/api/src/middleware/rate-limit.middleware.ts:98-99 | a key lives for the least whole number of seconds that covers a complete refill and a minute more |
| TokenBucket.DeniedPollsLeaveNoTrace | apps/api/src/middleware/rate-limit.middleware.ts:82-92 | any number of denied polls leaves every later balance as if they had not been made |
| TokenBucket.LeastRestoringWait | apps/api/src/middleware/rate-limit.middleware.ts:93-97 | a whole number of milliseconds restores the missing tokens exactly from the reported wait on |
| TokenBucket.WaitIsExact | apps/api/src/middleware/rate-limit.middleware.ts:82-97 | after a denial and any denied polls, a request of the same cost is admitted if and only if the wait has passed and the cost does not exceed the capacity |
| TokenBucket.RemainingCountsTheBurst | apps/api/src/middleware/rate-limit.middleware.ts:85-91 | `remaining` is never negative, admitted or not, and for every k, k further unit requests at the same instant are all admitted if and only if k <= `remaining` |
| TokenBucket.RemainderIsWhatIsLeft | apps/api/src/middleware/rate-limit.middleware.ts:85-91 | it is the whole part of the balance the script stores, admitted or refused |
| TokenBucket.EarlierClockChangesNothing | apps/api/src/middleware/rate-limit.middleware.ts:82-84 | a clock that goes back changes no balance |
| TokenBucket.RetryAfterIsLeastSufficient | apps/api/src/middleware/rate-limit.middleware.ts:177-179 | the Retry-After seconds (section 10.2.3 of RFC 9110) are the least whole number that suffices |
| TokenBucket.EveryDenialEnds | apps/api/src/middleware/rate-limit.middleware.ts:93-97 | with unit cost, a denied request is admitted at some later time if and only if the capacity is at least 1 |
| TokenBucket.RateLimitMiddleware.Use | apps/api/src/middleware/rate-limit.middleware.ts:137-187 | the outcome with its headers in every case: no store, store down and fail-open or fail-closed, admitted, refused; and what happens to the store |
| TokenBucket.BucketKeysAreApart | apps/api/src/middleware/rate-limit.middleware.ts:145 | two requests share a bucket if and only if they have the same route class and principal |
| TokenBucket.FullAgainIff | apps/api/src/middleware/rate-limit.middleware.ts:158 | a bucket is full again after dt ms if and only if dt / windowMs of the capacity covers what it lacked |
| TokenBucket.FullAfterOneWindow | apps/api/src/middleware/rate-limit.middleware.ts:158 | so every bucket is full again after windowMs, and an empty one no sooner |
| FixedWindow.RateBuckets.RateLimited | apps/collector-gateway/src/main.ts:26-35 | the verdict and the new map entry for one agent, all other agents' entries untouched |
| FixedWindow.LetThroughIff | apps/collector-gateway/src/main.ts:26-35 | after any calls of any agents, a call is let through if and only if it is the first of its agent, comes more than windowMs after the call that opened the current window, or fewer than `limit` of the agent's calls have come since that one |
| FixedWindow.SpanFrom | apps/collector-gateway/src/main.ts:26-35 | from any reached state, what one window length lets through for one agent |
| FixedWindow.AnyIntervalIsBounded | apps/collector-gateway/src/main.ts:25-35 | after any calls of any agents, a closed interval of length windowMs lets through at most 2 * limit - 1 requests of one agent |
| FixedWindow.BoundIsReached | apps/collector-gateway/src/main.ts:26-35 | for every limit that bound is attained by a run |
| Backoff.Backoff | agent/internal/transport/retry.go:10-20 | the returned delay is the jittered, clamped, wrapping shift |
| Backoff.ShiftIsWrappedProduct | agent/internal/transport/retry.go:14 | n wrapping doublings equal the product with 2^n reduced once into int64 |
| Backoff.ClampedIsCappedExponential | agent/internal/transport/retry.go:14-18 | for every base up to 2^30 ns (so for 1 s) and every attempt, shift then clamp is min(base * 2^attempt, 30 s) despite wrap-around |
| Backoff.CappedExponentialIff | agent/internal/transport/retry.go:14-18 | for every positive int64 base and every attempt, shift then clamp is min(base * 2^attempt, 30 s) if and only if the product fits 64 bits or its low 64 bits do not lie strictly between 0 and 30 s |
| Backoff.LargerBaseWrapsBelowTheCap | agent/internal/transport/retry.go:14-18 | one nanosecond above the bases that are safe for all attempts, an attempt yields a delay below the cap |
| Backoff.JitterKeepsUpperHalf | agent/internal/transport/retry.go:19 | jitter keeps the delay at least half of the clamped value and below it |
| Backoff.JitterIsExact | agent/internal/transport/retry.go:19 | the jittered delay in whole numbers, as a function of the last three digits of the clock |
| Backoff.NegativeAttemptIsFirst | agent/internal/transport/retry.go:11-13 | a negative attempt waits as the first one |
| Backoff.RetryDelay | agent/internal/transport/retry.go:10-20 | with base 1 s, the delay exactly: min(2^attempt, 30) s times (1000 + clock mod 1000) / 2000, rounded down; it lies in [min(2^attempt, 30) / 2, min(2^attempt, 30)) s |
| RuleTracker.RuleStateTracker.Track | apps/worker/src/rules.engine.ts:64-70 | what the evaluation holds field by field, in terms of the comparison and the counter before; and the one counter changed |
| RuleTracker.RuleStateTracker.Reset | apps/worker/src/rules.engine.ts:72-74 | the pair's counter is gone, all others kept |
| RuleTracker.RuleStateTracker.EvaluateBatch | apps/worker/src/main.ts:177-211 | the loop over samples and rules emits an event for exactly the calls that fire with a non-empty type and severity, in order, and leaves the counters of all those calls |
| RuleTracker.RuleStateTracker.EvaluateSample | apps/worker/src/main.ts:178-182 | the same for one sample against every rule |
| RuleTracker.KeyIsInjective | apps/worker/src/rules.engine.ts:65 | rule ids without a colon give every pair its own key |
| RuleTracker.KeysCollideIff | apps/worker/src/rules.engine.ts:65 | two rule ids share a key for some resources if and only if one, up to its separator, begins the other |
| RuleTracker.CountIsKeyStreak | apps/worker/src/rules.engine.ts:64-70 | with no assumption on ids or rules, a counter is the longest violating suffix of the calls on its key, each judged by its own rule |
| RuleTracker.FiresIffLastKOnKeyViolate | apps/worker/src/rules.engine.ts:27-70 | with no assumption, a call fires if and only if the last k calls on its key, this one included, violate |
| RuleTracker.DifferentTypesAreApart | apps/worker/src/main.ts:180 | rules with different event types free of colons never share a key |
| RuleTracker.RuleFiresIffLastKSamplesViolate | apps/worker/src/main.ts:177-181 | for any set of rules no two of which can share a key, and any samples before, each rule fires on a sample of its metric if and only if the last k samples of that metric and resource are all above the threshold, or all below it for a '<' rule |
| RuleTracker.BatchEmitsWhatIsDue | apps/worker/src/main.ts:177-211 | for such rules, what any samples emit from the start is, event by event and in order, what the samples and the plain comparisons make due |
| RuleTracker.CountIsOwnStreak | apps/worker/src/rules.engine.ts:27-70 | however keys interleave, the counter is the length of the longest violating suffix of the pair's own samples |
| RuleTracker.FiresIffLastKViolate | apps/worker/src/rules.engine.ts:35-43 | a sample fires if and only if the pair's last k samples, this one included, all violate |
| RuleTracker.RunFiresPastThreshold | apps/worker/src/rules.engine.ts:27-70 | a maximal violating run of length L, interleaved with anything, fires max(0, L - k + 1) times |
| RuleTracker.SharedEventTypeStarvesARule | apps/worker/src/main.ts:177-181 | for any two rules of one event type and metric, a run of any length whose samples violate only the second emits nothing |
| RuleTracker.SharedEventTypeCountsTwice | apps/worker/src/main.ts:177-181 | and after n samples that violate both their counter stands at 2n |
| SseParser.Parser.PushChunk | apps/web/src/lib/sse.ts:66-91 | the parsing loop returns the frames and leaves the state that consuming every complete line gives |
| SseParser.Parser.ApplyLine | apps/web/src/lib/sse.ts:73-88 | one line does what the line rule says to the collected fields, in every branch |
| SseParser.Parser.DispatchFrame | apps/web/src/lib/sse.ts:93-102 | a blank line yields the joined frame, or none without data, and keeps only the id |
| SseParser.PushIsChunkIndependent | apps/web/src/lib/sse.ts:66-91 | from any state, two pushes give the frames and state of one push of the concatenation |
| SseParser.EveryPartitionParsesAlike | apps/web/src/lib/sse.ts:66-91 | so does every partition of a stream, one that splits a CRLF included |
| SseParser.PushFoldsLines | apps/web/src/lib/sse.ts:69-89 | parsing equals folding the line rule over the LF-split stream, the unfinished line kept |
| SseParser.EveryTextSplits | apps/web/src/lib/sse.ts:70-72 | every text has such a split |
| SseBlocks.LineRuleReadsLine | apps/web/src/lib/sse.ts:73-87 | every spelling of a comment or field line, with LF or CRLF, has the effect the standard gives that line |
| SseBlocks.BlockDecodes | apps/web/src/lib/sse.ts:66-102 | any block of such lines dispatches the frame it means: all data lines joined, the last event name, the last NUL-free id |
| SseWire.StreamWriter.Send | apps/api/src/realtime/realtime.broker.ts:125-128 | an event is appended as its frame unless the stream is closed |
| SseWire.StreamWriter.SendComment | apps/api/src/realtime/realtime.broker.ts:130-133 | a comment is appended unless the stream is closed |
| SseWire.StreamWriter.Close | apps/api/src/realtime/realtime.broker.ts:119-123 | closing keeps what was written and stops all further writes |
| SseWire.StreamWriter.Replay | apps/api/src/realtime/realtime.broker.ts:146-151 | a replay appends all events in order, or nothing once closed |
| SseWire.WholeItemParses | apps/web/src/lib/sse.ts:66-102 | a written item yields exactly its frame and leaves the parser between items |
| SseWire.CutItemYieldsNothing | apps/web/src/lib/sse.ts:66-102 | a proper prefix of a written item yields no frame |
| SseWire.TruncatedStreamParses | apps/api/src/realtime/realtime.broker.ts:125-133 | a stream of events and comments cut anywhere parses to exactly the frames of the events whose closing blank line is inside the cut |
| SseExactness.RoundTripsIffSendable | apps/web/src/lib/sse.ts:66-103 | for all texts, an event written and parsed comes back unchanged if and only if its fields are free of line feeds and trailing carriage returns, its id of NUL, and its type is not empty |
| Decimal.ParseUndoesToDecimal | apps/api/src/realtime/realtime.publisher.ts:28 | reading an id back from its decimal text gives the id |
| Decimal.ToDecimalIsInjective | apps/api/src/realtime/realtime.publisher.ts:28 | different ids have different texts |
| Decimal.ReadsExactlyDigits | apps/api/src/realtime/realtime.broker.ts:138-145 | of decimal texts, exactly the non-empty strings of digits are read as a cursor |
| Decimal.LeadingZerosAreIgnored | apps/api/src/realtime/realtime.broker.ts:138-145 | leading zeros do not change what is read |
| RetainedList.Retained.Publish | apps/api/src/realtime/realtime.broker.ts:67-80 | the push puts the event first and keeps the newest 200 |
| RetainedList.Retained.RetainedAfter | apps/api/src/realtime/realtime.broker.ts:83-96 | the loop and sort return the newer entries of the list by id |
| RetainedList.ReplayAscends | apps/api/src/realtime/realtime.broker.ts:86-95 | on distinct ids a replay is strictly ascending and holds exactly the listed events newer than the cursor |
| RetainedList.AscendingIsUnique | apps/api/src/realtime/realtime.broker.ts:95 | strictly ascending sequences with the same members are equal, so a replay is determined by its members |
| RetainedList.InvHolds | apps/api/src/realtime/realtime.publisher.ts:25-29 | over every interleaving of id allocation, pushes, producers giving up and expiry, ids are distinct and the list is the reverse of the last 200 pushes since it expired |
| RetainedList.ReplayIsExact | apps/api/src/realtime/realtime.broker.ts:67-96 | over the same interleavings a replay is strictly ascending and contains exactly the events newer than the cursor among those pushes |
| RetainedList.NothingIsMissedIff | apps/api/src/realtime/realtime.broker.ts:82-96 | over the same interleavings, a replay holds every push since a given one if and only if they are all retained and all their ids are above the cursor |
| RealtimeClient.Client.IsDuplicate | apps/web/src/lib/sse.ts:254-264 | the verdict and the new window, the set and the queue always agreeing |
| RealtimeClient.Client.HandleFrame | apps/web/src/lib/sse.ts:235-239 | a frame moves the cursor, is dropped when remembered and dispatched otherwise |
| RealtimeClient.Client.ReadStream | apps/web/src/lib/sse.ts:227-240 | reading a connection chunk by chunk handles the frames of the whole text, whatever the chunks |
| RealtimeClient.WindowIsLastDispatched | apps/web/src/lib/sse.ts:254-264 | after any frames the window is the ids of the last 64 dispatched frames that have one |
| RealtimeClient.SuppressedIffRecentlyDispatched | apps/web/src/lib/sse.ts:236-238 | a frame is suppressed if and only if it has an id and that is among the ids of the last 64 dispatched frames that have one; any other frame is dispatched |
| RealtimeClient.CursorIsLastReceived | apps/web/src/lib/sse.ts:235-237 | after any frames the cursor is the last id received, suppressed frames included, or the start id when there was none |
| LiveFeed.OpensExactlyIff | apps/api/src/realtime/realtime.broker.ts:157 | when a stream opens, the process is subscribed to exactly its channels if and only if nothing else was subscribed before |
| LiveFeed.StaysExactIff | apps/api/src/realtime/realtime.broker.ts:157-174 | while a stream is open, the process stays subscribed to exactly its channels if and only if it was at the opening, every stream that opens asks for none but those channels, and every other stream that closes shares none of them |
| LiveFeed.FeedIsOwnIff | apps/api/src/realtime/realtime.broker.ts:156-177 | for any process, any stream that opens in it and any opens and closes after it: whatever is published in between, the stream is fed exactly its own channels' messages in order if and only if nothing else was subscribed when it opened, no later stream asks for another channel, and no other stream that closes shares one |
| LiveFeed.SubscriptionsAreWanted | apps/api/src/realtime/realtime.broker.ts:157-174 | in every reachable state only channels that some open stream asked for are subscribed |
| LiveFeed.LoneStreamIsFedItsOwn | apps/api/src/realtime/realtime.broker.ts:156-177 | after any run that leaves no stream open, the next stream to open is fed exactly its own for as long as other opens and closes leave it alone |
| LiveFeed.OtherStreamsAreMixedIn | apps/api/src/realtime/realtime.broker.ts:158-165 | a stream is fed the messages of another stream's channel that it did not ask for |
| LiveFeed.ClosingSilencesTheOthers | apps/api/src/realtime/realtime.broker.ts:171-175 | from any state, when one of two streams of a channel closes, the other misses what is published until a later stream opens, and is then fed on after the gap |
| Resume.ReplayIsTail | apps/api/src/realtime/realtime.broker.ts:83-96 | on any reachable channel pushed in id order, a replay after a cursor is what is still retained of the log after it |
| Resume.ReplayIsCompleteIff | apps/api/src/realtime/realtime.broker.ts:83-96 | the whole missed stretch is replayed if and only if all of it is still retained |
| Resume.ReplayIsCompleteIffFewMissed | apps/api/src/realtime/realtime.broker.ts:75-77 | without an expiry, that is if and only if it is at most 200 events long |
| Resume.ServedCarriesTheLog | apps/api/src/realtime/realtime.broker.ts:138-168 | replay and live feed of a stream left alone by the others together carry exactly the log from the client's cursor on |
| Resume.ServedFromTheOpening | apps/api/src/realtime/realtime.broker.ts:138-168 | without a Last-Event-ID such a stream carries exactly the log from where it stood when the stream opened |
| Resume.ConnectionContinuesTheLog | apps/web/src/lib/sse.ts:225-240 | one connection cut anywhere dispatches exactly the next events of the log, those completely inside the cut |
| Resume.DispatchedIsALogSegment | apps/web/src/lib/sse.ts:182-264 | for a client started at an id, over any run of the channel and any number of connections, each cut at any character and chunked in any way, the dispatched events are a gap-free, duplicate-free, in-order segment of the channel's log right after that id, if every missed stretch is still retained and every stream is left alone |
| Resume.NewClientDispatchesALogSegment | apps/web/src/lib/sse.ts:182-264 | for a client started without an id, under the same conditions: nothing until a connection brings a whole event, and then exactly such a segment, beginning where the log stood when that connection's stream opened |
| Resume.ForeignFrameMovesTheCursor | apps/web/src/lib/sse.ts:235-238 | a frame of another stream moves the client's cursor, and when its id is at least all ids of the client's own channel nothing of that channel is replayed afterwards |
| Resume.LateLowerIdIsNeverReplayed | apps/api/src/realtime/realtime.publisher.ts:25-29 | from any state, when a lower id is pushed after a higher one, no continuation replays it to a client that has received the higher one |
| AgentBuffer.Limited.constructor | agent/internal/buffer/buffer.go:35-40 | an empty buffer that starts at the persisted sequence, at least 1 |
| AgentBuffer.Limited.Enqueue | agent/internal/buffer/buffer.go:42-58 | the new contents: the item appended under the next sequence, then the least number of oldest items dropped, byte count and drop counter included |
| AgentBuffer.Limited.PeekBatch | agent/internal/buffer/buffer.go:60-72 | the samples of the first maxItems items in order, and the first sequence |
| AgentBuffer.Limited.Slide | agent/internal/buffer/buffer.go:78-87 | compaction inside the shared array keeps exactly the surviving items in order, and counts what it frees |
| AgentBuffer.Limited.Ack | agent/internal/buffer/buffer.go:75-90 | exactly the items with sequence at most the acknowledged one go, in place |
| AgentBuffer.Limited.DropExpired | agent/internal/buffer/buffer.go:93-110 | exactly the items older than the cutoff go, and are counted |
| AgentBuffer.HeldAfterSweepIff | agent/internal/buffer/buffer.go:93-110 | after a sweep an item is held if and only if it was before and createdAt >= now - ttl |
| AgentBuffer.HeldAfterAckIff | agent/internal/buffer/buffer.go:75-90 | after an acknowledgement an item is held if and only if it was before and its sequence is above the acknowledged one |
| AgentBuffer.SamplesKeepOrder | agent/internal/buffer/buffer.go:60-72 | the samples of a batch come in the order of its items |
| AgentBuffer.SamplesOfOne | agent/internal/buffer/buffer.go:60-72 | and one item's are its own, which together determine every batch |
| AgentBufferRuns.ExcessIsLeast | agent/internal/buffer/buffer.go:49-56 | what an enqueue keeps fits 256 items and the byte bound or is empty, and no longer suffix fits |
| AgentBufferRuns.KeptIsSuffix | agent/internal/buffer/buffer.go:78-87 | when the items that go form a prefix, what is kept is the rest |
| AgentBufferRuns.ReachableStates | agent/internal/buffer/buffer.go:42-110 | every reachable state under a monotone clock holds the newest items ever enqueued, sums their sizes, respects both bounds, and enqueued = held + acknowledged + dropped by overflow + dropped by age |
| AgentBufferRuns.HeldSequencesAreAnInterval | agent/internal/buffer/buffer.go:42-110 | in every such state the held sequences are exactly [nextSeq - len, nextSeq), in order |
| AgentBufferRuns.SequencesStartAtTheSavedOne | agent/internal/buffer/buffer.go:35-47 | in every such state the i-th item ever enqueued has sequence max(start, 1) + i |
| AgentBufferRuns.SweepTakesTheOld | agent/internal/buffer/buffer.go:93-110 | at the end of any run a sweep takes exactly the held items with createdAt < now - ttl |
| AgentBufferRuns.NoHeldItemIsOverAge | agent/internal/buffer/buffer.go:93-110 | over every run with a clock that never goes back, whatever is held is within the time to live of every sweep so far |
| AgentBufferRuns.AckOfFirstRemovesFirst | agent/internal/buffer/buffer.go:75-90 | acknowledging the first item's sequence removes that item alone |
| AgentBufferRuns.DrainTakesOneFlushPerItem | agent/internal/scheduler/scheduler.go:160-182 | n items are drained by exactly n accepted flushes |
| AgentBufferRuns.TransmissionsPerItem | agent/internal/buffer/buffer.go:60-90 | with peek limit m, the item at index j is sent in exactly min(j, m - 1) + 1 of those batches |
| AgentFlush.Scheduler.Flush | agent/internal/scheduler/scheduler.go:152-185 | the outcome of the retry loop, the buffer changed only by the delivered acknowledgement, the sequence to persist, the exact number of copies of one request sent, and the exact time slept |
| AgentFlush.Scheduler.TryOnce | agent/internal/scheduler/scheduler.go:156-182 | one attempt: its outcome, the request it sent, the delay it asks for, and the state it leaves, in every branch |
| AgentFlush.DeliversIff | agent/internal/scheduler/scheduler.go:155-182 | a flush delivers if and only if the batch is not empty, within the gateway's limit, and some attempt gets through before a throttle or a cancelled sleep |
| AgentFlush.RequestCarriesTheOldest | agent/internal/scheduler/scheduler.go:153-164 | a request carries the samples of the first 100 items, or of all, under the first one's sequence |
| AgentFlush.SendsCountAttempts | agent/internal/scheduler/scheduler.go:155-182 | a flush that delivers has sent one request per attempt up to the first that gets through; one that gives up has sent one per attempt |
| AgentFlush.FlushSleepsWithinBounds | agent/internal/scheduler/scheduler.go:165-176 | above 80% of the byte bound a flush does not sleep; below it, at most 31 s, and at least half of that when it gives up |
| AgentFlush.SweepTakesWhatIsADayOld | agent/internal/scheduler/scheduler.go:64-65 | the minute sweep takes exactly the items that are more than 24 hours old |
| AgentFlush.OversizedHeadBlocksTheBuffer | agent/internal/scheduler/scheduler.go:55-68 | when the oldest batches exceed the gateway's 5000 samples, over any turns of the scheduler's loop, sweeps included, nothing is delivered and nothing leaves the buffer as long as neither drop counter moves |
| AgentFlush.OversizedHeadIsReachableIff | agent/internal/buffer/buffer.go:42-58 | some run of the buffer reaches such a head if and only if its byte bound has room for one sample more than the gateway admits, 5001 * 256 bytes |
| AgentFlush.AdmissibleHeadIsDeliverable | agent/internal/scheduler/scheduler.go:160-182 | given an attempt that gets through, a flush delivers exactly when the batch is not empty and within the limit |
| AgentProtocol.InvHolds | agent/internal/scheduler/scheduler.go:155-182 | over every interleaving of enqueues, drops, overlapping calls, lost and repeated messages, saves and safe restarts: no call waits beyond the oldest held item, every reply has a job behind it, and every job and request of one sequence begins with one item |
| AgentProtocol.ConfirmedWasAccepted | agent/internal/scheduler/scheduler.go:164-178 | every item an acknowledgement ever removed was accepted before as the first item of the job with its own sequence |
| AgentProtocol.AcceptedSequenceNamesOneItem | apps/collector-gateway/src/main.ts:213-219 | no accepted sequence is ever sent with a different first item |
| AgentProtocol.BufferFollowsItsRun | agent/internal/scheduler/scheduler.go:55-68 | between two starts of the agent, the protocol's buffer is the one that its enqueues, day-old sweeps and acknowledgements alone lead to, so the results on buffer runs apply |
| AgentProtocol.BufferSinceStart | agent/internal/app/app.go:41 | from the first start such a run begins at sequence 1, after a restart at the saved one |
| AgentProtocol.CallCarriesTheFlushRequest | agent/internal/scheduler/scheduler.go:160-164 | each call carries exactly the request a flush of that buffer sends |
| AgentProtocol.CallEndsOnce | agent/internal/scheduler/scheduler.go:164-182 | a call that failed, was confirmed, or was cut off by a restart is never confirmed later |
| AgentProtocol.RepeatsMakeNoJobs | apps/collector-gateway/src/main.ts:213-216 | over every run, a sequence has at most one job more than the queue has forgotten it |
| AgentProtocol.SavingMakesRestartSafe | agent/internal/app/app.go:53-61 | saving the next sequence makes a restart safe until a newer sequence is sent |
| AgentProtocol.RestartIsSafeIff | agent/internal/app/app.go:41-78 | in any state reached with safe restarts, no continuation after one more restart sends two items under one sequence if and only if the saved one is beyond every sequence sent; counting every request, or only those the gateway accepts |
| AgentProtocol.UnsafeIsReachable | agent/internal/app/app.go:53-61 | such a run reaches a state that is not safe to restart from |
| AgentProtocol.UnsafeRestartReusesSequence | agent/internal/app/app.go:41 | otherwise there is a continuation that sends another item under a sequence already sent |
| AgentProtocol.ReplyLosesIff | apps/collector-gateway/src/main.ts:213-219 | when the gateway handles a call that carries the oldest item and the reply arrives, the item leaves the buffer, and it is lost if and only if the gateway still remembered the sequence and no job began with the item |
| AgentProtocol.ForgettingAvoidsTheLoss | apps/collector-gateway/src/main.ts:213-216 | once the queue has forgotten a sequence, an item that reuses it is accepted before it leaves the buffer |
| AgentProtocol.UnsafeRestartLosesAnItem | apps/collector-gateway/src/main.ts:213-219 | if an acceptable request was sent at or above the saved sequence, a continuation has the gateway handle a new item's request under that sequence and reply, and the item is removed though no job ever began with it |
| AgentProtocol.RestartLosesIff | agent/internal/app/app.go:41-78 | in any state reached with safe restarts, no continuation after one more restart loses an item if and only if the saved sequence is beyond every acceptable request ever sent |
| Outbox.OutboxDispatcher.Tick | apps/worker/src/outbox.dispatcher.ts:19-68 | a tick, however it ends, does to each row exactly what its place in the queue and its publish imply, and returns by how many the sent rows grew |
| Outbox.OutboxDispatcher.PublishAll | apps/worker/src/outbox.dispatcher.ts:42-53 | the publish loop sorts out the accepted ids and those refused for the last time, in order |
| Outbox.TickIsPointwise | apps/worker/src/outbox.dispatcher.ts:55-66 | the claiming update and the two bulk updates by id together settle every row on its own |
| Outbox.CountIsSettled | apps/worker/src/outbox.dispatcher.ts:48-67 | the number of published ids is the number of rows that became sent |
| OutboxRuns.SettledWithinBatches | apps/worker/src/outbox.dispatcher.ts:24-66 | a row with p pending rows ahead, all available, is settled within maxAttempts * (p div batchSize + 1) completed ticks, whatever the publisher does, whatever arrives behind it, and however many ticks break off in between |
| OutboxRuns.SettledWhateverIsAhead | apps/worker/src/outbox.dispatcher.ts:24-66 | if only the row itself is available throughout, it is settled within maxAttempts + maxAttempts * p div batchSize completed ticks |
| OutboxRuns.LateRowsDelayTheOthers | apps/worker/src/outbox.dispatcher.ts:30-32 | a run in which the first bound fails because a row ahead became available late, one tick short of the second bound |
| OutboxRuns.QueueShortensByABatch | apps/worker/src/outbox.dispatcher.ts:28-33 | once the first batch of pending rows has had its completed ticks, every queue position is a batch shorter |
| OutboxRuns.HistoryDecides | apps/worker/src/outbox.dispatcher.ts:44-66 | a row's attempts and status are determined by its own history of claims, and only the last claim can have settled it |
| OutboxRuns.FailedIffEveryAttemptFailed | apps/worker/src/outbox.dispatcher.ts:44-66 | a row that starts at 0 attempts ends failed if and only if its first maxAttempts publishes all failed, sent if and only if one succeeded, and is never published again afterwards |
| EventConsumer.InvHolds | apps/worker/src/main.ts:28-79 | over every interleaving of workers, redeliveries, errors and crashes, at most one worker is behind the gate per event and the tables agree with its phase |
| EventConsumer.EffectsHappenAtMostOnce | apps/worker/src/main.ts:34-78 | in every reachable state each event id has at most one incident link, one timeline entry, and one delivery per channel |
| EventConsumer.EntryIffNotLost | apps/worker/src/incident.service.ts:29-82 | a stored, fingerprinted event nobody is working on has exactly one timeline entry if and only if no worker gave up on it between the insert and that entry |
| EventLinks.LinkedIffLinkingSucceeded | apps/worker/src/incident.service.ts:22-82 | over every run, an event at rest that is not lost has exactly one link, to the incident of its timeline entry, if and only if its linking statement did not fail, a created incident's link being part of its transaction; otherwise none |
| EventLinks.NoFailedLinks | apps/worker/src/incident.service.ts:31-40 | in a run where no linking statement fails, there is no event of that second kind |
| EventLinks.EventsJoinTheRightIncident | apps/worker/src/incident.service.ts:22-82 | over every run, each link and timeline entry of an event leads to an incident of its tenant and fingerprint |
| EventConsumer.OnlyAbortsLose | apps/worker/src/main.ts:56-79 | a run without such an abort loses nothing |
| EventConsumer.LostIsForever | apps/worker/src/main.ts:49-56 | a lost event is never repaired: after any continuation nobody works on it and it has no entry and no delivery |
| EventConsumer.AnyNewEventCanBeLost | apps/worker/src/main.ts:34-60 | from any state, a free worker loses a new fingerprinted event by taking it past the insert and giving up |
| EventConsumer.AbortedChannelsAreNeverDelivered | apps/worker/src/main.ts:74-77 | when a worker gives up during the fan-out, then whatever follows the event keeps exactly the deliveries it had, and none of the channels left ever gets one |
| IncidentRaces.OneOpenIncidentPerFingerprint | apps/worker/src/incident.service.ts:22-64 | runs without the two races (looking while another worker is about to create; reopening beside an open or coming one) never have two open incidents of one fingerprint |
| IncidentRaces.RacesAreExact | apps/worker/src/incident.service.ts:22-64 | from a state with one open incident per fingerprint and lone creators, a step lets a race-free continuation open a second one if and only if it is one of those races |
| IncidentRaces.LookRaceHappens | apps/worker/src/incident.service.ts:22-64 | for any two events of one fingerprint, a run from the start has two workers find nothing and open an incident each |
| IncidentRaces.ReopenRaceHappens | apps/api/src/incidents/incidents.controller.ts:165-179 | and a run from the start has an operator reopen a resolved incident beside a newer open one |
| EventDelivery.FinishedMeansDelivered | apps/worker/src/main.ts:70-78 | over every run, once a worker has come to its end with an event, the channels listed for it are exactly those with a delivery or found disabled |
| Enrollment.AtMostOneAgent | apps/collector-gateway/src/main.ts:112-148 | over every run of racing requests, failures, rollbacks, crashes and late commits, at most one agent is committed, and the token is used exactly when one is and names it |
| Enrollment.AtMostOneClaimInHand | apps/collector-gateway/src/main.ts:112-160 | at most one request is between its claim and its commit or rollback, and none while the token is active |
| Enrollment.ClaimTakesTheTokenIff | apps/collector-gateway/src/main.ts:112-123 | a fresh claim takes the token if and only if it is active and unexpired at that moment; otherwise only the request is rejected |
| Enrollment.NobodyEnrolsAfterExpiry | apps/collector-gateway/src/main.ts:112-123 | over every run, each committed agent and each answered request has a claim in the run at a time before the expiry |
| Enrollment.EnrolledIffCommitted | apps/collector-gateway/src/main.ts:125-155 | over every run, a request's agent exists if and only if its transaction committed, never if it was rolled back; and the request has a credential if and only if it was answered |
| Enrollment.OnlyTheOwnerIsAnswered | apps/collector-gateway/src/main.ts:143-155 | a credential is returned to at most one request, the one whose agent the token names |
| Enrollment.UsedIsFinal | apps/collector-gateway/src/main.ts:143-158 | once used, the token keeps its status and its agent whatever requests, rollbacks and late commits follow |
| Enrollment.ClaimIsRecoverableIff | apps/collector-gateway/src/main.ts:156-160 | a claimed token can leave that status if and only if some request still holds the claim or a transaction is still open |
| Enrollment.CrashBlocksTheToken | apps/collector-gateway/src/main.ts:112-160 | from the start, one crash between claim and commit blocks the token for good |
| Enrollment.LostRollbackBlocksTheToken | apps/collector-gateway/src/main.ts:156-160 | a lost rollback does so too |

## Left out

- HTTP, Redis, BullMQ, Prisma, SMTP and React plumbing, logging, authentication and the credential hash: replaced by maps, sequences and steps, or omitted.
- Rounding in Lua and JavaScript numbers and their text forms, and UTF-8 decoding: reals, integers and character sequences are used.
- The 64-bit width of the agent's sequence and byte counters, which are unbounded here; the retry shift does wrap.
- The 429 statistics counter and the error bodies of the rate limiter.
- Heartbeats, the host and Docker collectors, and the battery policy: a sample batch and a throttled attempt are inputs.
- Exactly-once storage of samples: an acknowledgement removes only the first item, so later items of a batch are sent again; how often is `TransmissionsPerItem`.
- A metrics job whose id was forgotten after completion is created again by a repeated request; the model has this step, and the guarantees are about first items.
- AgentProtocol.RestartIsSafeIff: and with it the other guarantees of that module speak of runs whose restarts so far were safe; after an unsafe one the sequences have already been mixed up.
- Two channels in one stream: the replay goes channel by channel under one cursor, so the resume results are for one channel.
- An event published between replay and subscribe, and a replay that fails and is treated as empty: `Resume` assumes neither happens.
- Messages that arrive while a stream's subscription is being confirmed, and channels of one subscriber in several processes: each process has its own `LiveFeed.Process`.
- Resume.DispatchedIsALogSegment: assumes that ids are pushed in ascending order, without which `LateLowerIdIsNeverReplayed` applies, that live messages come in the order of the pushes, that each missed stretch is still retained, which `ReplayIsCompleteIff` shows to be needed, and that other streams of its process leave its stream alone, which `FeedIsOwnIff` shows to be needed.
- Spellings other than decimal that JavaScript's BigInt accepts in a Last-Event-ID header; the broker itself only sends decimal ids.
- The dashboard client's status, backoff, token refresh and handler registry, and frames whose payload is not JSON.
- RetainedList.Retained.RetainedAfter: entries that are not JSON, which the original skips, do not occur, since every producer (API, worker and gateway) pushes JSON.
- Outbox.OutboxDispatcher.Tick: ticks do not overlap, because overlapping ticks can overwrite each other's final status; the database returns claimed rows in any order, which cannot matter since outcomes go by id; rows created at the same instant are taken in one fixed order.
- Enrollment: request validation and several tokens at once, which do not interact.
- EventConsumer: realtime notification of dashboards, which is best-effort, and what a delivery does after its row is created.
- Incident and ticket workflows, tenants, roles, entitlements, quotas, identity bridging and time series.
