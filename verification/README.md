# Dispatch runtime of the gateway: model and proofs

This project models the part of the Free-Ollama-API gateway that decides which node serves a request,
how often and under which limits, and how a node's answer is turned into the client's stream. All
statements are for every input, every run or every reachable state of the model.

| module | models | main results |
|---|---|---|
| `WeightedRoundRobin`, `Selection` | smooth weighted round robin, round robin, least connections, least latency, hybrid score | exact shares per cycle, bounded drift on every prefix, no starvation, credits sum to zero in every run, for the nodes' own weights |
| `HashRing`, `Balancer` | hash ring, eligibility, the pick, pool synchronisation | the choice is the nearest free node; minimal disruption through every filter |
| `Ndjson`, `Tokens`, `TokenCuts`, `ChatStream`, `StreamEnds` | incremental NDJSON parser, token counts, chat and completion event streams | independence of chunking, and exactly when the token count has it; text, tool calls, errors and usage reach a standard client unchanged; a stream is complete exactly if every record can be handled and encoded |
| `Retry`, `RetryResults` | `request_json`, `_open_stream`, `stream_ndjson` | the world determines the run; bounded attempts on distinct nodes, at most one started request, one node per stream; who gets an answer and who which error, exactly; slots returned exactly if no exception escapes |
| `Gateway` | a streamed chat reply from node to client | the early stop of the translator changes nothing the client sees; exactly when the client is told of an aborted stream |
| `Slots`, `HourBudget`, `NodeRuntime` | slots and budgets of a node under concurrent requests | the slot counter is the number of holders, and at the end the number of escaped exceptions; exact bound of the hourly overshoot; windows equal full history |
| `ConsentLifecycle`, `LifecycleRuns`, `Registry` | enrolment, proofs, revocation, expiry, blocking, draining, health checks, breaker, pool flags, slot grants | a grant is always covered by an earlier proof that nothing took away; what takes a node out, who can end that, and when; breaker, samples and failure counters are the node's history |
| `CircuitBreaker`, `Windows` | the breaker over a trimmed deque | when it opens, refuses and recovers, exactly; no grant during cool-down, bounded probes, error rate equals full history |
| `TokenBuckets`, `RateLimits` | token bucket, minute limiter, quota window, concurrency limiter | interval bounds; exact condition under which the Retry-After answer suffices |
| `Ids` | identifiers | fixed-width round trip, order, monotonicity and repetition, both exactly |
| `Common`, `Sequences`, `Sums` | shared vocabulary | stable sort, filters, sums over maps |

Code that changes objects in place is modelled by classes and by methods with loops whose contracts
tie the new state to specification functions; the whole-run results are lemmas about those functions.

Conventions. Times and rates are real numbers; the clock is a parameter and does not go back (where a
result needs that, it says so). Node identifiers are numbers: identifiers of one prefix have a fixed
width and order like numbers (`Ids.OrderIsNumeric`). Upstream nodes, the database and other requests
are arbitrary values of a `World`, of `Findings` or of the operations of a run. BLAKE2b is an
arbitrary function; nothing assumes that digests spread evenly or differ. JSON decoding is an
arbitrary function from bytes to an optional record. Each operation on the registry is one atomic step.

## Where code and documentation, or code and expectation, differ

The model follows the code. The lemma named in each item shows the difference.

- The credit drift of weighted round robin is strict on both sides only from two nodes on; with one
  node the lower bound is reached (`WeightedRoundRobin.PrefixShare`). A set of eligible nodes that
  changes at every pick makes it forget all credits (`WeightedRoundRobin.ChangingSetsForget`).
- Counting the tokens of an answer can raise: `{"eval_count":"x"}` is enough. `request_json` counts before it
  returns the slot, outside any handler, so each such answer takes one slot of the node for good
  (`Retry.UncountableAnswerLeaks`), and max(1, max_concurrency) of them fill it (`Slots.LeaksFillNode`). The
  slots come back exactly if every exchange was classified and every answer counted
  (`Retry.SlotsReturnedExactly`); a cancellation or any other exception leaks in the same way, and a stream's
  slot is lost if a cancellation interrupts its closing (`Retry.StreamSlotReturned`).
- In a stream the same exception, on the first chunk, withholds the chunk and sends the error event first
  (`Retry.ErrorEventFirst`, `Retry.OneNodeStream`).
- Counting chunk by chunk depends on where the stream is cut (`TokenCuts.CutChangesCount`). It does not, for
  every decoder, exactly if each cut leaves a blank fragment on one side or no fragment that looks like an
  object on either (`TokenCuts.CutsAgreeExactly`); cuts behind newlines are such (`TokenCuts.LineCutsAreSafe`).
- An upstream error record stops the translator, not the relay: the relay is abandoned and observed as a success
  (`Gateway.StoppedIsSuccess`).
- A text with a lone surrogate cannot be encoded: the chat stream ends without error and without DONE
  (`StreamEnds.SurrogateCutsStream`). So it does on a usage that is no number and on a message that is no
  object (`StreamEnds.ChatCompletes` has the exact condition).
- A stream that breaks inside a line is not announced to the client: the gateway's own error line is glued to
  the unfinished line and dropped as malformed (`Gateway.AbortInsideLineIsSilent`; `Gateway.AbortIsTold` has
  the exact condition).
- `request_json` documents that a response timeout may be repeated when repeating after the start is
  allowed. The transport reports such timeouts as classified errors, which are never repeated
  (`Retry.DocumentedRetryGap` gives the exact condition). The repository's README allows a repetition
  only if the node did not receive the request; the code also repeats after a 5xx answer when the
  request has no side effects (`Retry.TwoStarts`).
- A client that disconnects during a stream is observed as a successful exchange (`Retry.Relay`).
- Ending a drain, even one never begun, readmits every node whose consent record is active and whose breaker
  lets the request through, unless it still waits for consent (`ConsentLifecycle.UndrainReadmits`). A periodic
  re-check with a bad proof quarantines but leaves the consent record proven, so that way is open at once
  (`ConsentLifecycle.QuarantineEscape`); out of a manual block it opens when the breaker has cooled down
  (`ConsentLifecycle.BlockEscape`). A lifted node, which is promised to need a new proof, comes back through a
  forced check exactly if that finds it degraded and nothing stronger; a clean one never readmits it
  (`ConsentLifecycle.LiftReadmits`).
- Only a refused request forces the breaker open; a health check that finds an authorisation error blacklists
  the node and leaves its breaker alone (`ConsentLifecycle.CheckLeavesBreaker`).
- State severity guards recovery only: a DEGRADED finding can put an UNHEALTHY or DRAINING node back
  into rotation (`ConsentLifecycle.BackInRotation`).
- A re-check interval below 16 minutes makes a proof last 90 days, one of 16 minutes a single day
  (`ConsentLifecycle.TtlRange`).
- Looking at a half-open node spends its probe even if no request follows
  (`Balancer.ProbeSpentByLooking`), and spent probes block it until a result is recorded
  (`CircuitBreaker.SpentProbesBlock`).
- `TokenBucket.retry_after` suffices, but `check_user` truncates a second time and can announce one
  second too few (`TokenBuckets.RetryHintSuffices`, `TokenBuckets.RetryHintFallsShort`; a case in numbers is
  `TokenBuckets.RetryHintFallsShortExample`).
- A key that reads `anonymous` shares its slots with all requests without a key (`RateLimits.SubjectsDiffer`).
- The overflow branch of `monotonic_id` is dead; after a full cycle of the counter within one
  millisecond identifiers repeat (`Ids.IdsRepeat`). The module comment speaks of 12 base-32 characters; the
  code writes 10 for the time and 12 for the counter.

## Model

| member | source | states |
|---|---|---|
| `WeightedRoundRobin.CreditsSumToZero` | foa/services/balancer.py:188-197 | in every run from credits that sum to zero they sum to zero after every pick, even when weights or the set of nodes change |
| `WeightedRoundRobin.CreditFormula` | foa/services/balancer.py:188-197 | after k picks with fixed weights a node's credit is k times its weight minus the total for each time it was chosen, and stays above minus the total |
| `WeightedRoundRobin.PrefixShare` | foa/services/balancer.py:185-198 | after every prefix of k picks a node's count is within the drift bounds k*w - (n-1)*W and k*w + W of its share, whatever the tie-breaks do; the lower bound is strict from two nodes on |
| `WeightedRoundRobin.ExactShares` | foa/services/balancer.py:185-198 | q full cycles choose each node exactly q times its weight and return all credits to zero |
| `WeightedRoundRobin.NoStarvation` | foa/services/balancer.py:185-198 | every node occurs in every sufficiently long stretch of picks, with an explicit length |
| `WeightedRoundRobin.ChangingSetsForget` | foa/services/balancer.py:191-192 | if the set changes before every pick, each pick takes a node of largest weight, whatever was picked before |
| `Selection.WeightedRoundRobin` | foa/services/balancer.py:185-198 | with weights that are exactly max(1, weight) of each eligible node and of nobody else, the pool's pick is one step of the credit system, on a node with the largest boosted credit, then the fewest active requests, then the largest identifier |
| `Selection.SharesOfTurns` | foa/services/balancer.py:185-198 | q full cycles of the pool's own picks, over nodes whose weights do not change, choose each node exactly q * max(1, weight) times, whatever the numbers of active requests do in between |
| `Selection.TurnsAreFixedRun` | foa/services/balancer.py:185-198 | such picks are a run of the credit system, so all its results hold of them |
| `Selection.RoundRobin` | foa/services/balancer.py:179-183 | the chosen node is the one under the cursor in identifier order, and the cursor moves so that the turns continue |
| `Selection.EachOnce` | foa/services/balancer.py:179-183 | n consecutive picks from an unchanged set of n nodes choose each exactly once, from any cursor |
| `Selection.FirstLeast` | foa/services/balancer.py:159-177 | the chosen node is the first with the least rank: connections per weight, latency with unknown ones last, or the highest score, ties as the random numbers say |
| `Selection.ScoreIsMonotone` | foa/services/state.py:237-249 | a node that is worse in no respect has no lower hybrid score |
| `Selection.ScoreIs` | foa/services/state.py:237-249 | the score is weighed free capacity and speed less the error rate, rounded down by less than a ten-thousandth, plus one ten-thousandth per unit of weight above 1 |
| `HashRing.ConsistentHash` | foa/services/balancer.py:200-215 | building, sorting, binary search and circular scan together compute the choice: the first free node clockwise from the key, else the least used (RingPoints, ChoiceIsNearestFree and ChoiceIsSettled say which) |
| `HashRing.RingPoints` | foa/services/balancer.py:202-207 | on the ring a node has exactly the points of its replicas 0 to 20 * max(1, weight) - 1, each once |
| `HashRing.BisectRing` | foa/services/balancer.py:239-247 | the binary search finds the lower bound, wrapped to 0 when all values are below the target |
| `HashRing.WalkIsClockwise` | foa/services/balancer.py:210-214 | walking around the sorted ring from the lower bound meets first the points at or after the target, then the others |
| `HashRing.ChoiceIsNearestFree` | foa/services/balancer.py:210-215 | the choice is an eligible node, has a free slot exactly when some node has one, then owns one of its 20 * max(1, weight) points that is met no later than any such point of a free node, and otherwise no node is less used |
| `HashRing.ChoiceIsSettled` | foa/services/balancer.py:200-215 | colliding digests and equal loads included: of the free nodes at the nearest point the first in the list; if none is free the first of the least used |
| `HashRing.MinimalDisruption` | foa/services/balancer.py:200-215 | removing a node that was not chosen leaves the choice unchanged, through ring, search, overload scan and fallback; adding a node can only move the key to it |
| `Balancer.NodePool.Eligible` | foa/services/balancer.py:89-124 | returns the admitted nodes of the better class with capacity, and updates every candidate's breaker and hour on the way |
| `Balancer.EligibleMeans` | foa/services/balancer.py:107-124 | an eligible node was admitted; degraded only if no healthy one is admitted; full only if all of its class are |
| `Balancer.EligibleExactly` | foa/services/balancer.py:107-124 | a node is eligible exactly if it is routable, not excluded, let through by its breaker, offers the model, has requests and tokens left in an hour of 3600 seconds (0 is no limit), is degraded only if no other able one is there, and full only if all able ones of its kind are |
| `Balancer.EligibleInOrder` | foa/services/balancer.py:107-124 | the eligible nodes keep the order of the pool, which decides ties |
| `Balancer.LookMeans` | foa/services/balancer.py:110-118 | what a pick does to every node of the pool, chosen or not |
| `Balancer.EligibleUnlessNone` | foa/services/balancer.py:107-124 | nobody is eligible exactly when no node passes all filters |
| `Balancer.NodePool.Pick` | foa/services/balancer.py:130-165 | the two refusals, exactly when they happen, and otherwise an eligible, not excluded node chosen by the configured one of all six algorithms; what becomes of nodes, cursor and credits in each case |
| `Balancer.SelectionMeans` | foa/services/balancer.py:153-183 | the chosen node in figures: fewest requests per weight, lowest latency with unknown ones last, ties in these by the random numbers, first of the highest scores, a free one for the hash, the cursor-th in identifier order, a turn of weighted round robin |
| `Balancer.PoolMinimalDisruption` | foa/services/balancer.py:111-124 | excluding a node that was not chosen leaves the hash choice unchanged through all filters, classes and the capacity rule |
| `Balancer.ProbeSpentByLooking` | foa/services/balancer.py:113-118 | after a half-open node was looked at with its last probe, no run of further looks admits it, until a result is recorded |
| `Balancer.NodePool.Sync` | foa/services/balancer.py:45-79 | exactly the given nodes remain; known ones keep slots, latency, breaker, samples, marks and counts; the routable flag is a routable state with active consent; the returned figures are right |
| `Balancer.SyncMeans` | foa/services/balancer.py:56-74 | field by field: what comes from the row and what survives of a known node; routable exactly if verified, healthy or degraded with active consent |
| `Balancer.SummaryMeans` | foa/services/balancer.py:71-79 | the returned figures are the numbers of routable candidates and of candidates in each state |
| `Ndjson.LinesSplit` | foa/domain/openai.py:476-480 | the reference splitting has no newline inside a line and joins back to the input |
| `Ndjson.NdjsonLines` | foa/domain/openai.py:472-499 | for every way of cutting a byte stream into chunks the events are those of the whole stream, tail included, and after each chunk exactly the events of all complete lines are out |
| `Ndjson.EventsRoundTrip` | foa/domain/openai.py:480-489 | records written one per line arrive unchanged |
| `Ndjson.PaddedLine` | foa/domain/openai.py:480-489 | white space around a record changes nothing and a blank line is no record, whatever the decoder |
| `Ndjson.StripMeans` | foa/domain/openai.py:480-483 | stripping takes off exactly the white space at both ends |
| `Tokens.AnswerFailsExactly` | foa/services/proxy.py:494-501 | counting an answer raises exactly if decoding it does, or it is a record with a count that is no number |
| `Tokens.ChunkFailsExactly` | foa/services/proxy.py:504-516 | counting a chunk raises exactly if one of its lines looks like an object and crashes the decoder, or is done with a count that is no number |
| `Tokens.CountIsWorth` | foa/services/proxy.py:494-501 | what int(value or 0) makes of every kind of JSON value |
| `Tokens.RecordIsWorth` | foa/services/proxy.py:494-516 | the sum of both counts: at least 0 for an answer; for a line only if it is an object that says it is done |
| `TokenCuts.CutAgreesExactly` | foa/services/proxy.py:504-516 | for one decoder and one cut: counting in two gives the same exactly if a line outside the cut raises anyway or the cut line counts as much as its fragments |
| `TokenCuts.CutAgreesForAllExactly` | foa/services/proxy.py:504-516 | for one cut, every decoder gives the same exactly if a fragment is blank or neither looks like an object |
| `TokenCuts.CutsAgreeExactly` | foa/services/proxy.py:504-516 | for a whole stream in chunks, every decoder gives the same exactly if every cut is of that kind |
| `TokenCuts.LineCutsAreSafe` | foa/services/proxy.py:504-516 | so it is if every chunk but the last ends in a newline or is empty |
| `TokenCuts.CutChangesCount` | foa/services/proxy.py:504-516 | a record cut in two is counted in neither chunk, uncut it is counted |
| `ChatStream.ToChatSse` | foa/domain/openai.py:502-540 | the bytes sent are the frames of the events of the concatenated input, up to the first that cannot be produced or encoded, and the generator has raised exactly if there is one; two cuttings of the same bytes give the same output |
| `ChatStream.ChatMeaning` | foa/domain/openai.py:517-540 | if all records before the first error can be handled, a reader of the frames gets the text, tool calls and finish reasons of all of them, that error, and the last done event's usage exactly if it was requested and no error came |
| `ChatStream.OneRecordReply` | foa/domain/openai.py:351-361 | a reply of one done record in its fields: text, tool calls, finish reason tool_calls exactly if there are tool calls on either level, prompt count, completion count and their sum |
| `ChatStream.ErrorRecordReply` | foa/domain/openai.py:558-568 | an error record: its message, and its code in lower case or upstream_error |
| `ChatStream.LastUsageIsLastDone` | foa/domain/openai.py:531-532 | the remembered usage is that of the last done event, in its two counts and their sum, and there is one exactly if some event is done |
| `ChatStream.ChatShape` | foa/domain/openai.py:517-540 | of the frames of such a stream one is DONE, at the end; only DONE follows an error; usage only in the last chunk, which alone has no choices; every chunk has the reply's identity and type; the first is the empty text of the role assistant |
| `ChatStream.ToCompletionSse` | foa/domain/openai.py:543-555 | the bytes sent are the completion frames of the events of the concatenated input, up to the first that cannot be produced or encoded |
| `ChatStream.CompletionMeaning` | foa/domain/openai.py:543-555 | a reader gets the concatenated responses before the first error, one stop per done event and the error; one frame per event |
| `ChatStream.OneCompletionReply` | foa/domain/openai.py:543-555 | a completion of one record: its response, and one stop if it is done |
| `ChatStream.CompletionShape` | foa/domain/openai.py:543-555 | one DONE at the end, only DONE after an error, text_completion chunks, never usage |
| `ChatStream.DoneIffAllSent` | foa/domain/openai.py:502-555 | what is sent ends with DONE exactly if no frame raises; otherwise it holds no DONE at all |
| `StreamEnds.ChatCompletes` | foa/domain/openai.py:517-540 | no frame raises exactly if the model's name can be encoded, every record before the first error is readable, has an object or nothing as message, counts that are numbers if it is done, and text without lone surrogates, and the error record can be encoded |
| `StreamEnds.CompletionCompletes` | foa/domain/openai.py:543-555 | the same for completions, which read neither message nor usage |
| `StreamEnds.ChatEndsWithDone` | foa/domain/openai.py:517-540 | the client of a chat stream is sent DONE exactly under the condition of ChatCompletes |
| `StreamEnds.CompletionEndsWithDone` | foa/domain/openai.py:543-555 | the client of a completion stream is sent DONE exactly under the condition of CompletionCompletes |
| `StreamEnds.SurrogateCutsStream` | foa/domain/openai.py:444-447 | a record whose content is one lone surrogate: only the opening chunk is sent, no error and no DONE |
| `ChatStream.ClientReceives` | foa/domain/openai.py:444-447 | a byte-wise client of section 9.2.6 of the WHATWG HTML Living Standard dispatches exactly the payloads, in order, if payloads hold no line breaks (RFC 8259, section 7) |
| `ChatStream.WireFormat` | foa/domain/openai.py:444-447 | the bytes of a frame: data, colon, space, payload, empty line; DONE in brackets at the end |
| `ChatStream.EndToEnd` | foa/domain/openai.py:444-540 | from upstream bytes, however cut, through parser, translation, framing and client: the client sees the end exactly if the generator did not raise, and then understands the generated text, tools, errors and usage |
| `Retry.Acquire` | foa/services/proxy.py:121-142 | the outcome is the one the pool's answers settle: every earlier round passed over, and this one granted, refused or was the last in the waiting time; nodes that fail the re-check are excluded, once |
| `Retry.AcquiresOnce` | foa/services/proxy.py:121-142 | the pool's answers settle exactly one outcome, so there is no refusal without a cause |
| `Retry.RequestJson` | foa/services/proxy.py:174-244 | the result is a run of its world: at most 1 + max_retries attempts, no node looked at twice, only retryable outcomes before the last, every refusal the pool's own, the result decided by the last attempt (module RetryResults says how), and the exact log of slots and observations |
| `Retry.RunIsDetermined` | foa/services/proxy.py:174-244 | one world has one run: attempts, drops and result are determined, so none stops early or goes on too long |
| `Retry.Classify` | foa/services/proxy.py:200-243 | the branches behind an exchange stop exactly when the attempt is final or none is left, with a success exactly for a counted and observed answer below 500 other than 401 and 403; the slot is returned and the exchange observed unless an exception or a cancellation comes first |
| `Retry.OneStart` | foa/services/proxy.py:178-240 | when repeating after the start is not allowed, at most one node can have begun to process the request |
| `Retry.TwoStarts` | foa/services/proxy.py:178-240 | otherwise, with at least one retry, there is a world all of whose runs start on two nodes: the condition is exact |
| `Retry.DocumentedRetryGap` | foa/services/proxy.py:164-173 | (per outcome) code and documented rule agree exactly except for classified non-connect timeouts when repeating after the start is allowed |
| `Retry.SlotsReturned` | foa/services/proxy.py:186-228 | a request holds at most one slot at a time; at its end it holds none exactly if no attempt leaked, and otherwise that of its last node |
| `Retry.SlotsReturnedExactly` | foa/services/proxy.py:190-228 | in terms of the world: the slots are back exactly if every exchange was classified and every answer could be counted |
| `Retry.UncountableAnswerLeaks` | foa/services/proxy.py:226-227 | a first answer with a token count that is no number: the slot is taken and never returned, the caller gets the exception |
| `Retry.OpenStream` | foa/services/proxy.py:250-299 | the result is a run of opening in its world: the pool's refusal, the error of the deciding attempt, or an opened stream |
| `Retry.OpenIsDetermined` | foa/services/proxy.py:265-299 | one world has one run of opening |
| `Retry.OpenedMeans` | foa/services/proxy.py:265-299 | a stream is opened on a node not seen before, granted by the pool, after connect errors only, within 1 + max_retries attempts if streams may be retried and one otherwise |
| `Retry.Relay` | foa/services/proxy.py:318-360 | which chunks, error event, exception, success flag and token sum follow from status, chunks, their counts and the ending of the stream |
| `Retry.StreamNdjson` | foa/services/proxy.py:301-360 | no node is selected after a stream has opened; its slot is taken, the stream closed, the slot returned and the exchange observed exactly once, whatever ends it |
| `Retry.OneNodeStream` | foa/services/proxy.py:330-352 | the bytes yielded are a prefix of one node's stream, followed by at most one error event, which is last, and is first exactly if the first chunk to arrive cannot be counted; an exception means nothing was yielded |
| `Retry.ErrorEventFirst` | foa/services/proxy.py:330-348 | an error event comes first, and is all the client gets, exactly if a line of the first chunk fails to be counted |
| `Retry.SafeCutsRelay` | foa/services/proxy.py:330-334 | if no cut splits a record, counting aborts the relay exactly if a line of the whole stream fails, and otherwise the observed count is that of the whole stream |
| `Retry.StreamSlotReturned` | foa/services/proxy.py:353-360 | the slot of a relayed stream is returned exactly once, whatever ends it; only an exception while opening or a cancellation while closing leaves one behind |
| `RetryResults.SuccessExactly` | foa/services/proxy.py:224-243 | the caller gets an answer exactly if the last of n attempts brought one that was counted and observed, with a status below 500 other than 401 and 403, and then that answer with n |
| `RetryResults.FailureExactly` | foa/services/proxy.py:200-244 | otherwise an error: the pool's own exactly if every attempt may be followed by another and one is left, else that of the last attempt, by its outcome |
| `RetryResults.AttemptsMean` | foa/services/proxy.py:174-240 | which attempts may be followed by another: connect errors, and timeouts and answers from 500 if repeating is allowed; and how many there are at most |
| `RetryResults.StepsMean` | foa/services/proxy.py:226-228 | what is on record of an exchange: slot, return, and an observation that is a success exactly below 400, with status and tokens |
| `RetryResults.DroppedExactly` | foa/services/proxy.py:133-139 | a node is excluded while waiting exactly if it failed the re-check, not if it was merely full |
| `RetryResults.NoStreamMeans` | foa/services/proxy.py:283-299 | which error a request gets whose stream does not open, and that every attempt before failed to connect |
| `RetryResults.StreamingMeans` | foa/services/proxy.py:265-299 | a stream is relayed from a node whose stream opened, within 1 + max_retries attempts if streams may be retried, else the first |
| `RetryResults.RelayMeans` | foa/services/proxy.py:318-360 | a relay is observed as a success exactly if the status is below 400, everything that arrived was counted and the node did not break off; when it raises, with which error; its items and tokens |
| `RetryResults.StreamStepsMean` | foa/services/proxy.py:353-360 | what is on record of a relayed stream, and when its closing or observation is cut short |
| `Gateway.Chat` | foa/api/openai.py:109-121 | what is sent is the translation of everything the relay would yield, although the relay is abandoned where the translator stops; if the relay raises only the opening chunk is out; if that cannot be sent the relay is never started and takes no slot; the log of slots and observations |
| `Gateway.StopsExactly` | foa/domain/openai.py:517-532 | the translator stops reading at the first complete line that is an error record or cannot be handled or encoded, or at once if the opening chunk cannot be sent |
| `Gateway.StoppedIsSuccess` | foa/domain/openai.py:518-522 | an abandoned relay returns its slot and is observed as a success with the tokens of the chunks read so far |
| `Gateway.AbortAfterLineIsTold` | foa/services/proxy.py:345-348 | a stream that breaks behind a newline is always announced |
| `Gateway.AbortIsTold` | foa/services/proxy.py:345-348 | a client of an aborted stream is told exactly if the unfinished line with the gateway's line glued to it decodes to an error record; otherwise it sees a regular end |
| `Gateway.AbortInsideLineIsSilent` | foa/domain/openai.py:478-489 | a stream that breaks inside its first line: the client gets the opening chunk and DONE, and no error |
| `Slots.SlotsConserved` | foa/services/state.py:140-147 | under any interleaving of requests that take and return one slot at a time, a node's active counter equals the number of requests holding it and is at most max(1, capacity) |
| `Slots.ClampIsIdle` | foa/services/state.py:146-147 | the clamp at zero never takes effect |
| `Slots.AllSlotsReturned` | foa/services/proxy.py:186-228 | when all requests are over, a node's counter is the number of those that ended in an escaped exception there, and 0 exactly if none did |
| `Slots.RequestsConserveSlots` | foa/services/proxy.py:182-360 | the same for any interleaving of plain and streamed requests, each as far as it has come: that discipline is a consequence of how they run |
| `Slots.LeaksFillNode` | foa/services/proxy.py:226-227 | once max(1, capacity) finished requests keep a node's slots, the node is full at every later moment |
| `HourBudget.OvershootIsBounded` | foa/services/state.py:205-233 | with at most K requests between pick and count, counted plus pending requests never exceed limit + K - 1, across hour roll-overs |
| `HourBudget.OvershootIsReached` | foa/services/proxy.py:124-134 | that bound is reached for every limit and K |
| `HourBudget.BudgetReturns` | foa/services/state.py:205-233 | a pick succeeds exactly if a place is free and requests and tokens are left, and from 3600 seconds after the hour began the budget is whole again |
| `HourBudget.CountersAreHistory` | foa/services/state.py:164-233 | over every run the counters are the requests noted and the tokens booked since the running hour began |
| `NodeRuntime.NodeRuntime.Acquire` | foa/services/state.py:140-144 | a slot is taken exactly if one is free |
| `NodeRuntime.NodeRuntime.Release` | foa/services/state.py:146-147 | one slot less, never below zero |
| `NodeRuntime.NodeRuntime.Observe` | foa/services/state.py:151-171 | the new samples are the full history restricted to the window; latency, breaker and tokens of the hour as specified |
| `NodeRuntime.NodeRuntime.ErrorRate` | foa/services/state.py:178-184 | the failure share of everything ever observed within the window, whatever trimmed before |
| `NodeRuntime.NodeRuntime.AuthError` | foa/services/state.py:186-191 | true exactly if some observed answer within the window was 401 or 403 |
| `NodeRuntime.NodeRuntime.TimeoutStreak` | foa/services/state.py:193-201 | the length of the longest run of timeouts at the end of the held samples |
| `NodeRuntime.NodeRuntime.NoteRequest` | foa/services/state.py:211-219 | rolls the hour over, counts the request, and keeps the last minute equal to the full history restricted to it |
| `NodeRuntime.NodeRuntime.LimitsAllow` | foa/services/state.py:228-233 | rolls the hour over and compares both budgets; a limit of 0 is none |
| `NodeRuntime.SmoothedStaysBetween` | foa/services/state.py:161-163 | over every run of observations the smoothed latency stays in their range |
| `NodeRuntime.SmoothedIsWeighted` | foa/services/state.py:161-163 | closed form: of n positive latencies the one at place i counts alpha * (1 - alpha)^(n - 1 - i), the first (1 - alpha)^(n - 1) |
| `ConsentLifecycle.ActiveMeansCovered` | foa/services/consent.py:434-442 | in every reachable state a consent is active exactly while the history holds a proof that outlives the moment and that no revocation, failed proof, marked expiry or authorisation error has taken away |
| `ConsentLifecycle.GrantSafety` | foa/services/proxy.py:124-136 | every slot grant of every run is covered by such a proof in the history before it |
| `ConsentLifecycle.StepSound` | foa/services/consent.py:102-267 | every operation keeps the consent record and the history in step |
| `ConsentLifecycle.ExclusionLasts` | foa/services/health.py:186-190 | a quarantined, blacklisted, revoked or pending node gets no request until a successful proof, a change of draining or a forced check |
| `ConsentLifecycle.BackInRotation` | foa/services/health.py:278-295 | (one check) exactly which findings put a node that is out of rotation back |
| `ConsentLifecycle.DrainingLasts` | foa/services/health.py:192-295 | over every run in which liveness and readiness pass, a draining node gets no request until a successful proof, a change of draining or a forced check |
| `ConsentLifecycle.CoolDownHolds` | foa/services/nodes.py:249-252 | over every run within the open duration after a breaker was opened the node gets no request, whatever operators and owner do |
| `ConsentLifecycle.BlockKeepsOut` | foa/services/nodes.py:249-252 | so after a block of a node in the pool |
| `ConsentLifecycle.RefusalKeepsOut` | foa/services/nodes.py:392-396 | and after a request that a routable node refused with 401 or 403 |
| `ConsentLifecycle.SyncIsExact` | foa/services/nodes.py:321-347 | (one step) after a synchronisation the pool's routable flag is exactly what row and consent allow, and the breaker is kept |
| `ConsentLifecycle.TtlRange` | foa/services/consent.py:243-243 | (arithmetic) a proof lasts one day per 16 minutes of the interval, at most 365; 90 for an interval under 16 minutes |
| `ConsentLifecycle.ProofServes` | foa/services/consent.py:243-262 | enrolment, proof, synchronisation and acquisition lead to a grant |
| `ConsentLifecycle.UndrainReadmits` | foa/services/nodes.py:271-280 | after ending a drain and a synchronisation any node is granted exactly if it does not wait for consent, its consent is active and its breaker lets the request through |
| `ConsentLifecycle.QuarantineEscape` | foa/services/nodes.py:271-280 | after a failed periodic re-check of a serving node that way is open at once |
| `ConsentLifecycle.BlockEscape` | foa/services/nodes.py:223-280 | after a manual block of any node it is open exactly if the consent is active then and the open duration has passed and probes are allowed, or the node was not in the pool; the block stays on record |
| `ConsentLifecycle.LiftReadmits` | foa/services/nodes.py:261-269 | for all findings: lift, forced check, synchronisation and acquisition grant exactly if the check finds the node degraded, nothing stronger, and its breaker lets the request through |
| `ConsentLifecycle.LiftEscape` | foa/services/nodes.py:261-269 | there is such a check: a failing readiness part, after the open duration, with an empty passive window |
| `LifecycleRuns.DrainKeepsOut` | foa/services/nodes.py:271-275 | after a drain is started the node gets no request, over every run in which liveness and readiness pass, until a proof, a change of draining or a forced check |
| `LifecycleRuns.OutUntilReopened` | foa/services/consent.py:209-427 | the same, whatever checks find, after a failed proof, a revocation, a block, its lifting, or an exchange refused with 401 or 403 |
| `LifecycleRuns.OutMeans` | foa/services/nodes.py:197-269 | what each of these leaves: status, consent, block on record, the pool's flag off and the breaker open at once |
| `LifecycleRuns.EnrolledWaits` | foa/services/consent.py:125-168 | a new node is registered with a challenge sent and gets no request before a proof, a change of draining or a forced check |
| `LifecycleRuns.ServedExactly` | foa/services/proxy.py:124-136 | after a synchronisation a slot is granted exactly if the row is verified, healthy or degraded, the consent proven and not run out, and the breaker closed, cooled down or with probes left |
| `LifecycleRuns.ProofReadmits` | foa/services/consent.py:243-262 | a new proof brings back any registered node, for the days it is good, exactly if the breaker lets the request through |
| `LifecycleRuns.RepliesMean` | foa/services/nodes.py:170-280 | which operation is refused when and how, and that a refusal changes nothing, a failed proof excepted |
| `LifecycleRuns.OthersUntouched` | foa/services/nodes.py:170-280 | an operation on one node leaves every other as it was |
| `LifecycleRuns.CountersAreHistory` | foa/services/health.py:192-226 | over every run a row's counters are the failed liveness and readiness checks in a row, counting only checks that ran |
| `LifecycleRuns.LivenessDecides` | foa/services/health.py:204-211 | as many failed liveness checks in a row as the threshold, with nothing stronger found, make the node UNHEALTHY; fewer, in a periodic check, do not |
| `LifecycleRuns.ReadinessDecides` | foa/services/health.py:230-236 | the same for readiness and DEGRADED |
| `LifecycleRuns.CheckTakesOut` | foa/services/health.py:238-295 | a check that meets 401 or 403 blacklists, puts on record and takes the proof away; a broken consent quarantines; a lapsed one is marked; with neither, consent and record stay |
| `LifecycleRuns.CheckOfPool` | foa/services/health.py:299-301 | a forced check takes a node out of the pool at once exactly if its new state is not routable, and puts none in; a periodic one leaves the pool alone |
| `LifecycleRuns.CleanCheck` | foa/services/health.py:278-295 | a clean check resets the counters and verifies degraded and unhealthy nodes again, and by force quarantined, revoked and blacklisted ones, and nobody else |
| `LifecycleRuns.BreakerIsRun` | foa/services/nodes.py:375-396 | over every run of operations a node's breaker is a breaker that got exactly its observed results, the looks at it while routable, and a trip per block and refusal, so everything proved of breakers holds of it |
| `LifecycleRuns.SamplesAreHistory` | foa/services/state.py:164-184 | over every run the samples hold what any later window needs of all exchanges observed, whatever trimmed them |
| `LifecycleRuns.PassiveIsHistory` | foa/services/health.py:305-321 | what a forced check looks at is the history of the window: some 401 or 403, the share of failures, the timeouts at its end |
| `LifecycleRuns.PassiveDecides` | foa/services/health.py:305-321 | what these statistics make of a node in an otherwise clean forced check |
| `Registry.Registry.Enroll` | foa/services/consent.py:125-168 | handler, one step: new, unproven, or refused |
| `Registry.Registry.Verify` | foa/services/consent.py:189-267 | handler, one step: proven with its expiry, failed and quarantined, or unchanged |
| `Registry.Registry.Revoke` | foa/services/consent.py:407-427 | handler, one step: withdrawn and out of the pool |
| `Registry.Registry.RevokeConsent` | foa/services/nodes.py:197-217 | revocation reaches the pool in the same call; the node may not serve afterwards |
| `Registry.Registry.VerifyOwnership` | foa/services/nodes.py:170-187 | proof, synchronisation, forced check, synchronisation, in this order and only if the proof succeeds |
| `Registry.Registry.Block` | foa/services/nodes.py:234-253 | handler, one step: on record, unroutable, breaker forced open |
| `Registry.Registry.Lift` | foa/services/nodes.py:261-266 | handler, one step: only with a block; waits for consent |
| `Registry.Registry.SetDraining` | foa/services/nodes.py:271-275 | handler, one step: refused only while waiting for consent (LifecycleRuns.DrainKeepsOut and ConsentLifecycle.UndrainReadmits say what it does) |
| `Registry.Registry.Observe` | foa/services/nodes.py:386-424 | handler, one step: sample, breaker; a 401 or 403 in the window of a routable node blacklists it and fails a proven consent |
| `Registry.ConsentStanding` | foa/services/health.py:363-389 | broken, active or inconclusive, exactly when; a lapsed consent is marked |
| `Registry.RunChecks` | foa/services/health.py:192-276 | the collected signals are exactly the findings the specification names, and all checks passed exactly if the counts agree |
| `Registry.StrongestFirst` | foa/services/health.py:287-289 | sorting the signals puts the finding of highest priority first |
| `Registry.Registry.CheckNode` | foa/services/health.py:156-303 | one step: the strongest finding decides the status, recovery needs a clean run, counters, consent, block and runtime follow |
| `Registry.Registry.CheckAll` | foa/services/health.py:134-144 | one background round is a run of unforced checks of the listed rows |
| `Registry.Registry.SyncPool` | foa/services/nodes.py:321-347 | one step: every runtime is rebuilt from its row and consent |
| `Registry.Registry.ExpireConsents` | foa/core/appstate.py:111-130 | exactly the listed proven consents that have run out are revoked, then the pool is synchronised |
| `Registry.Registry.Acquire` | foa/services/proxy.py:124-136 | handler, one step: asks the breaker; a grant exactly if flag, breaker, row and consent allow it |
| `Windows.SinceIsSuffix` | foa/services/state.py:82-85 | in chronological history a window is a suffix |
| `Windows.TrimTracks` | foa/services/state.py:82-85 | a deque trimmed at any earlier moments still equals the full history restricted to the window |
| `CircuitBreaker.CircuitBreaker.RecordResult` | foa/services/state.py:36-51 | the new state of the three-state machine after a result |
| `CircuitBreaker.CircuitBreaker.AllowRequest` | foa/services/state.py:53-67 | the answer and the new state, including the spent probe |
| `CircuitBreaker.CircuitBreaker.Reset` | foa/services/state.py:94-98 | closed, with nothing remembered |
| `CircuitBreaker.RateIsHistoryRate` | foa/services/state.py:74-85 | the error rate at any call is that of all results since the last reset restricted to the window |
| `CircuitBreaker.ClosedMeansBelowThreshold` | foa/services/state.py:49-50 | after a record a closed breaker has too few recent results or an error share below the threshold |
| `CircuitBreaker.ProbesAreBounded` | foa/services/state.py:58-72 | the probe counter is the number of grants since entering half-open, 0 elsewhere, and never exceeds the configured number |
| `CircuitBreaker.NoGrantWhileOpen` | foa/services/state.py:53-72 | no request passes during the open duration after a trip, whatever is recorded meanwhile, unless reset |
| `CircuitBreaker.SpentProbesBlock` | foa/services/state.py:64-66 | with its probes spent a half-open breaker refuses every further request, however late |
| `CircuitBreaker.RecordDecides` | foa/services/state.py:36-51 | over every run: a result opens the breaker exactly if it fails a probe, or if too many of the results of the last window, counted over the full history, have failed while it is not open; otherwise a successful probe closes it with nothing in flight |
| `CircuitBreaker.GrantedExactly` | foa/services/state.py:53-67 | when a request is let through: closed; open for the open duration with probes at all; half open with fewer grants since than probes |
| `CircuitBreaker.OpenedAtIsLast` | foa/services/state.py:69-72 | an open breaker counts from the call that opened it last |
| `CircuitBreaker.Recovers` | foa/services/state.py:40-67 | after the open duration a request is let through, and its success closes the breaker unless too many recent results have failed |
| `CircuitBreaker.FailuresInARow` | foa/services/state.py:40-46 | consecutive_failures counts the failures since the last success or reset |
| `TokenBuckets.TokenBucket.TryConsume` | foa/services/ratelimit.py:52-64 | refill, answer and remaining tokens |
| `TokenBuckets.TokensInRange` | foa/services/ratelimit.py:52-64 | tokens stay between 0 and the capacity in every run |
| `TokenBuckets.RateBound` | foa/services/ratelimit.py:52-64 | what any stretch of calls takes is at most the capacity plus what its time span earns |
| `TokenBuckets.SuccessBound` | foa/services/ratelimit.py:52-64 | successes of consume(1) in any interval of any run are at most capacity + length * capacity / 60 |
| `TokenBuckets.NewBucketSuccesses` | foa/services/ratelimit.py:42-64 | the bound holds for every bucket the gateway creates, from its creation on |
| `TokenBuckets.Earned` | foa/services/ratelimit.py:52-56 | (arithmetic) a bucket earns one capacity in 60 seconds, and in proportion |
| `TokenBuckets.TokenBucket.SecondsUntilRetry` | foa/services/ratelimit.py:66-72 | refill and truncated waiting time |
| `TokenBuckets.RetryAfterSuffices` | foa/services/ratelimit.py:66-72 | after waiting retry_after seconds without consumption the next call succeeds, for capacity at least 1 and only then; the wait is at most a second too long |
| `TokenBuckets.EmptyBucketWaits` | foa/services/ratelimit.py:66-72 | a capacity of 0 is told to wait as for one token a minute |
| `TokenBuckets.RetryHintSuffices` | foa/services/ratelimit.py:243-257 | for every delay between the two clock readings, a client that waits for the hint of check_user succeeds exactly if delay and hint reach the waiting time and the capacity is at least 1 |
| `TokenBuckets.RetryHintFallsShort` | foa/services/ratelimit.py:243-257 | for waits of two seconds or more and delays of up to a second the hint is one second less than retry_after, and suffices exactly if the delay makes up for the fraction |
| `RateLimits.MinuteRateLimiter.TryAllow` | foa/services/discovery/rate_limit.py:15-25 | answer and new events of the limiter |
| `RateLimits.MinuteRateLimiter.CountRemaining` | foa/services/discovery/rate_limit.py:27-32 | answer and trimmed events |
| `RateLimits.AllowByHistory` | foa/services/discovery/rate_limit.py:15-32 | admitted exactly when fewer than limit admissions of the whole run lie in the last 60 seconds, and exactly when remaining is positive |
| `RateLimits.AdmissionsAreSpaced` | foa/services/discovery/rate_limit.py:15-25 | the i-th and (i + limit)-th admissions are more than 60 seconds apart |
| `RateLimits.IntervalLimit` | foa/services/discovery/rate_limit.py:15-25 | no closed 60-second interval holds more than limit admissions |
| `RateLimits.DeniedLeavesNoTrace` | foa/services/discovery/rate_limit.py:15-32 | dropping a denied call or a query changes no later decision |
| `RateLimits.SlidingWindowCounter.Add` | foa/services/ratelimit.py:82-85 | the amount joins the history that the deque tracks |
| `RateLimits.SlidingWindowCounter.Total` | foa/services/ratelimit.py:92-95 | the total is everything ever added restricted to the window |
| `RateLimits.AmountAdds` | foa/services/ratelimit.py:92-95 | the total of a history is the sum of its amounts |
| `RateLimits.SlidingWindowCounter.ResetAt` | foa/services/ratelimit.py:97-102 | when the oldest counted amount leaves the window |
| `RateLimits.ConcurrencyLimiter.Acquire` | foa/services/ratelimit.py:120-144 | granted exactly if the subject's holders, and for streams its stream holders, are below the effective limits; counts equal holders |
| `RateLimits.ConcurrencyLimiter.Release` | foa/services/ratelimit.py:146-154 | frees exactly the held slot; the floor at zero is not reached |
| `RateLimits.ConcurrencyLimiter.EnterUserSlot` | foa/services/ratelimit.py:312-331 | a user's request is granted exactly below the limits that apply to the slots of the same key, or of all requests without one, and takes no slot of another |
| `RateLimits.ConcurrencyLimiter.LeaveUserSlot` | foa/services/ratelimit.py:330-331 | gives back exactly that slot |
| `RateLimits.SubjectsDiffer` | foa/services/ratelimit.py:320-331 | different keys never share slots; only the key anonymous shares those of requests without a key |
| `Ids.EncodeValue` | foa/ids.py:24-29 | the loop writes the fixed-width numeral |
| `Ids.DecodeText` | foa/ids.py:32-41 | the loop computes the numeral's value |
| `Ids.DecodeEncode` | foa/ids.py:24-41 | decoding an encoding gives the value modulo 32 to the width |
| `Ids.EncodeDecode` | foa/ids.py:24-41 | encoding a decoded numeral gives it back |
| `Ids.EncodingKeepsOrder` | foa/ids.py:24-29 | fixed-width encodings order lexicographically as the numbers do |
| `Ids.IdGenerator.MonotonicId` | foa/ids.py:44-59 | the new clock and counter and the identifier; the overflow branch is never taken |
| `Ids.ConsecutiveIds` | foa/ids.py:44-59 | an identifier is larger than the one before exactly if the counter has not wrapped, for a timely clock below 32^10 ms |
| `Ids.IdsIncrease` | foa/ids.py:44-59 | hence in a whole run identifiers increase strictly as long as no counter wraps |
| `Ids.IdsRepeat` | foa/ids.py:49-55 | two identifiers of one millisecond are equal exactly if their distance is a multiple of 32^12 |
| `Ids.FewIdsDiffer` | foa/ids.py:44-59 | fewer than 32^12 identifiers per millisecond are all different |
| `Ids.IdReads` | foa/ids.py:44-59 | from an identifier one reads back prefix, millisecond and counter |
| `Ids.CrockfordWidths` | foa/ids.py:14-17 | the alphabet, 10 time digits and 12 counter digits |
| `Ids.CounterIsDrawn` | foa/ids.py:47-55 | a new millisecond takes the drawn counter, the same one counts up modulo 32^12 |

## Left out

- HTTP, TLS, DNS and the connection pools of `foa/net/client.py`, with their `_active` counter: an exchange is an arbitrary outcome. That connect errors mean the node did not receive the request is the transport's own promise.
- FastAPI routes, middleware, CLI, migrations, SQLAlchemy, logging and metrics. Transactions are not modelled: each registry operation is atomic, and a synchronisation sees all earlier steps.
- Cryptography, signed tokens and the fetching of consent documents: a proof is good, bad or unreachable.
- Whether a health check is due, and whether the functional check is enabled, are inputs of a check. Latency, version, observed models and effective weights written by checks are not modelled.
- A temporary block's end: no code lifts it for a registered node; only enrolment of an endpoint reads it. Enrolment of a blocked endpoint of a deleted node is not modelled.
- Deletion of nodes while requests hold them. A cancellation in `request_json` is an escaped exception.
- Random tie-breaking of least_connections and least_latency: the random numbers are an arbitrary function of the node. The error rate in the hybrid score is a given figure of the node.
- Matching of model names (`node_supports_model`) is an arbitrary relation.
- The JSON decoders behind `_stream_tokens` and `_count_tokens` are arbitrary; what is counted of a record is modelled, and where counting raises.
- Rounding of floating-point numbers; the Redis back end, which is not wired in.
- `minimum_requests` of 0 or less: the error rate of an empty window would divide by zero, so the breaker's configuration starts at 1.
- Empty entries that reading a `defaultdict` inserts into the concurrency limiter; they count as 0.
- Lower-casing of error codes is ASCII only. Exceptions of the JSON decoder other than the two caught are modelled in the generators as records that are not readable; fields that should be text but hold other values are not modelled.
- Request conversion and non-streamed replies of `foa/domain/openai.py` and schema validation: field by field.
- Database errors while waiting for a node, before a slot is taken.
- TokenBuckets.RetryHintSuffices: the wall clock and the bucket's clock are first read at the same moment.
- Registry.Registry.Enroll: refusal of a blocked endpoint whose node was deleted, because deletion is left out.
- Registry.Registry.Observe: reduction of the effective weight on a high error rate.
- Registry.Registry.Acquire: budgets, selection and the free slot, which modules Balancer, HourBudget and Slots model; here any routable node may be tried.
