# LLM gateway: the resilience engine and request signing

A Dafny 4.11 model of the parts of llm-gateway-platform on which its promises
rest, with proofs of those promises. `dafny verify dfyconfig.toml` checks the
whole project.

| file | models |
|---|---|
| `TokenBucket.dfy` | the token bucket as values: its two numbers against the whole history of lock-held sections |
| `Limiter.dfy`, `LoneWait.dfy`, `LimiterSystem.dfy` | the `Limiter` object with other goroutines running whenever it waits for its lock; `Wait` by a lone caller; every interleaving of callers |
| `Provider.dfy`, `World.dfy` | requests, outcomes and error chains; and what a goroutine meets outside its own code: context, timers, providers |
| `Backoff.dfy`, `Retry.dfy` | `Policy.backoff` on an int64 and the loop of `retry.Do` |
| `Router.dfy`, `RouterTheorems.dfy` | `router.Chat` and what every run of it guarantees |
| `Interleaving.dfy`, `ChatSystem.dfy` | what any number of concurrent Chats do to the providers behind one limiter: at their end, at every state on the way, and over every window |
| `Server.dfy`, `Gateway.dfy` | `writeChatError`, and `Build` with what it means for later requests |
| `Strings.dfy`, `SigV4.dfy` | AWS Signature Version 4 signing, "create a canonical request" included |
| `SigVerifier.dfy`, `CanonicalParser.dfy` | the service's side of a signature, and a parser that undoes the printer of canonical requests |
| `Adapters.dfy` | where the three adapters put the system prompt |

How the model reads the code:

- **Nondeterminism.** Clock readings, provider answers, the moment a context
  ends, which of timer and `ctx.Done()` wins a `select`, random draws and Go's
  map iteration order are all arbitrary choices in method bodies. A statement
  about a method holds for every choice. A context, once done, stays done with
  the same error.
- **Goroutines.** A lock-held section is one atomic step. `Limiter.Lock` lets any
  number of other goroutines run sections first; `Limiter.Valid` ties the fields
  to a ghost history that includes them, and `owners` to the call each belongs to.
- **Logs.** `Environment.log` records what one goroutine observed and did. A run
  of `retry.Do` (`Run`) or `router.Chat` (`ChatRun`) has exactly one log; the
  methods prove that theirs is the log of a valid run, and the theorems are about
  all valid runs.
- **Numbers.** Durations are int64 with wrap-around written out where the code
  doubles them. Tokens are exact reals over integer nanoseconds.

Two results differ from what comments promise, and follow the code. The first n
delays of a policy are the intended doubling exactly when the doublings fit an
int64 (`DelaysAreIntendedIffFits`). With a positive MaxDelay and a BaseDelay that
is not negative, they all fit unless some doubling that the cap leaves alone is at
least 2^62: the next one wraps, and its delay is negative, so no wait happens at
all (`WrappedDelay`). A policy without a cap, and one with a negative BaseDelay,
stops fitting sooner or later unless BaseDelay is 0 (`BackoffIsCappedDoubling`,
`UncappedWraps`).
`canonicalizeHeaders` depends on map iteration order exactly when two signed
header names are equal ignoring case and differ in value
(`OrderIndependentIffConsistent`, and `CollisionShows` at an input).

## Model

| member | source | states |
|---|---|---|
| TokenBucket.AllowIsSlidingWindow | internal/ratelimit/ratelimit.go:41-50 | `tokens` and `last` admit a call exactly when no window of the whole history, ending now with one more grant, exceeds burst + rate * its length, clocks running backwards included |
| TokenBucket.TokensAreTightestWindow | internal/ratelimit/ratelimit.go:81-92 | after a refill, `tokens` is exactly the least room left by any window over the past |
| TokenBucket.GreedyIsSlidingWindow | internal/ratelimit/ratelimit.go:24-50 | from a fresh limiter, a sequence of decisions is the limiter's own if and only if each follows the whole-history rule |
| TokenBucket.LawfulIsAllWindows | internal/ratelimit/ratelimit.go:81-92 | a sequence of grants is possible under refill, cap and one token each, for some policy, if and only if no window is overdrawn |
| TokenBucket.GreedyIsAhead | internal/ratelimit/ratelimit.go:41-50 | against any policy free to refuse, the limiter has granted at least as much, and tokens plus grants are at least the other's |
| TokenBucket.GreedyIsOptimal | internal/ratelimit/ratelimit.go:41-50 | at every prefix the limiter grants at least as many as any decision sequence that overdraws no window |
| TokenBucket.FreshLimiterGrants | internal/ratelimit/ratelimit.go:24-50 | what New's arguments mean: the first max(1, burst) calls are granted at once and no more, until the rate asked for has brought a whole token |
| Limiters.Limiter.constructor | internal/ratelimit/ratelimit.go:24-38 | a new bucket is full and its origin; its rate is the one asked for, or 1 where that is not positive, and it holds max(1, burst) tokens |
| Limiters.Limiter.Refill | internal/ratelimit/ratelimit.go:81-92 | for the clock reading taken, the last reading never goes back and the tokens are topped up with what accrued since, under the burst: the refill that the history theorems are about |
| Limiters.Limiter.Allow | internal/ratelimit/ratelimit.go:41-50 | with any other sections in between, the caller runs exactly one section, the newest, granted exactly when the sliding-window rule over the history before it admits it; the caller's tokens grow by one on success and by none otherwise |
| Limiters.Limiter.Wait | internal/ratelimit/ratelimit.go:54-78 | the caller's own sections are the refusals and, exactly on success, one last granted section: one token taken on success, none on cancellation; each refusal is followed by the sleep its own state asks for; cancellation returns the context's error |
| Limiters.SleepsAreTheDelays | internal/ratelimit/ratelimit.go:54-78 | the timers a Wait logs are its refusals' delays, one for each, and only the last can be cut short |
| LoneWait.LoneWaitSleepsTwice | internal/ratelimit/ratelimit.go:54-78 | alone, under a clock that never lags and timers that never fire early, a call of Wait is refused at most twice and asks for at most deficit/rate plus 1 ms of sleep, truncation to nanoseconds included |
| LoneWait.LoneWaitAcquires | internal/ratelimit/ratelimit.go:54-78 | such a call, not ended by its context and followed for three timer firings, returns with its one token |
| LoneWait.SleepNearlyCovers | internal/ratelimit/ratelimit.go:63-69 | one truncated sleep leaves a token, or less than a nanosecond's worth to go |
| LoneWait.SleepIsDeficit | internal/ratelimit/ratelimit.go:63-69 | the sleep asked for is the whole number of nanoseconds in which the missing part of a token accrues, and one millisecond where that number is zero |
| LimiterSystem.EveryInterleaving | internal/ratelimit/ratelimit.go:41-78 | for any goroutines calling Allow and Wait again and again in any interleaving: 0 <= tokens <= burst, every goroutine took exactly one token for each call that succeeded, successes add up to grants, and every window holds |
| LimiterSystem.HistoryIsMoves | internal/ratelimit/ratelimit.go:41-78 | every further history of the limiter is reached by moves of its goroutines |
| LimiterSystem.AllowAsMoves | internal/ratelimit/ratelimit.go:41-50 | a call of the object's Allow, with whatever others ran before its section, is a run of the system's moves that leaves the caller where its result says |
| LimiterSystem.WaitAsMoves | internal/ratelimit/ratelimit.go:54-78 | the same for a call of Wait, which ends holding a token, giving up or about to check again |
| Provider.FoundIsConstructed | pkg/provider/errors.go:46-67 | what errors.As finds in a tree of constructed errors is retryable exactly for a transport failure or a transient status |
| Provider.FoundInChain | pkg/provider/errors.go:31-42 | over the whole tree of an error, a RouteError's last failure being its cause: a sentinel is found where any error is it, and the provider error found is the first, causes after their error and in order |
| Provider.TransientErrors | pkg/provider/errors.go:35-81 | HTTP errors ask for another try exactly for the statuses 429, 500, 502, 503, 504 and 529, transport errors always, and each keeps its status |
| Backoff.Backoff | internal/retry/retry.go:68-85 | for every policy and attempt, int64 wrap-around included, the delay is the closed form `Delay`, or with jitter lies between its half and twice that half |
| Backoff.BackoffIsCappedDoubling | internal/retry/retry.go:68-85 | for every policy: the delay is the intended BaseDelay * 2^(attempt-1), under MaxDelay when that is positive, at every attempt if and only if BaseDelay is 0, or MaxDelay is positive, BaseDelay not negative and no doubling that the cap leaves alone reaches 2^62; bounds below 2^62 suffice |
| Backoff.DelaysAreIntendedIffFits | internal/retry/retry.go:68-85 | for every policy and n: the first n delays are the intended ones if and only if the doublings they need fit an int64 |
| Backoff.WrappedDelay | internal/retry/retry.go:68-85 | BaseDelay 2^62 with MaxDelay 2^63 - 1 overdoubles: its second delay is negative where MaxDelay is meant |
| Backoff.UncappedWraps | internal/retry/retry.go:68-85 | BaseDelay 2^61 without a cap: two delays fit, the third is negative |
| Backoff.DefaultDelays | internal/retry/retry.go:27-34 | the default policy: three attempts, and with every doubling in range, delays of 200 ms, 400 ms, 800 ms, 1.6 s, 3.2 s and then 5 s before jitter |
| Backoff.ScaledIsPower | internal/retry/retry.go:69-71 | repeated doubling is multiplication by a power of two |
| Backoff.DelaysGrow | internal/retry/retry.go:68-85 | while the doublings fit, from a BaseDelay that is not negative, delays never shrink from one attempt to the next; with jitter, below the cap, no pair of draws makes them |
| Backoff.JitterBounds | internal/retry/retry.go:81-84 | while the doublings fit, from a BaseDelay that is not negative: with jitter the delays that can come out are all from half the intended delay up to it, an odd nanosecond aside; without, that delay alone |
| Backoff.TotalSleepBound | internal/retry/retry.go:68-85 | while the doublings fit, from a BaseDelay that is not negative, n delays in a row add up to at most BaseDelay * (2^n - 1), and to at most n * MaxDelay when there is a cap |
| Retry.Do | internal/retry/retry.go:40-65 | whatever the provider and the context do, the execution is a valid run: its log, error, response and attempt count are that run's; at most max(1, MaxAttempts) calls, and exactly as many when the error returned is retryable and not a context's; with the context done on entry the run is empty and returns the context's error |
| Retry.RunIsExact | internal/retry/retry.go:40-65 | at most max(1, MaxAttempts) calls, every one but the last a retryable failure; a run not cut short ends at the first success, the first other failure or the last attempt, with that outcome's error; one cut short returns the context's |
| Retry.RunInItsLog | internal/retry/retry.go:46-62 | a run can be read off its log: the outcomes are what its calls came back with, its timers are its positive delays, and straight before each call the context was looked at and alive |
| Retry.DoFollowsScript | internal/retry/retry.go:40-65 | against any script of outcomes, an uncancelled run calls exactly up to the first success, the first non-retryable error or attempt max(1, MaxAttempts) and returns that outcome; a cancelled one made no such call |
| Retry.NoCallIffDoneOnEntry | internal/retry/retry.go:47-50 | a run makes no call exactly when its first look at the context saw it done |
| Retry.RunSleepBound | internal/retry/retry.go:40-65 | fewer delays than attempts, and their total under both bounds of the policy |
| Routing.Router.Chat | internal/router/router.go:141-208 | for all answers of providers, limiters, clock and context, Chat is a valid run over the resolved chain, with that run's log and result; on every limiter, the sections of its own are exactly the admissions of that log, in order; without a chain it contacts nothing, and with the context done on entry it only returns the context's error |
| Routing.Router.VisitTarget | internal/router/router.go:154-204 | one target: unregistered, refused by its limiter, or tried behind one token when it is limited; whether its failure ends the chain; and the call's own sections on every limiter grow by exactly the admissions logged |
| Routing.Router.Admit | internal/router/router.go:161-169 | one section of the call's own on the target's limiter, none on any other, and its decision by the sliding-window rule is the one logged |
| Routing.Router.Register | internal/router/router.go:79-83 | replaces the entry under the client's own name and keeps the rest |
| Routing.Router.SetLimiter | internal/router/router.go:87-91 | attaches or detaches one provider's limiter and keeps the rest |
| Routing.OwnRouteFirst | internal/router/router.go:210-220 | the chain is the model's own route, even an empty one, and the default route's only without it; there is no route exactly when that chain is empty |
| RoutingTheorems.RouteErrorIsExact | internal/router/router.go:116-137 | the failure log has one entry per visited target, in chain order, with its own error; every target of the chain when none decided; a served result names the last visited target, its last reply and the number of calls made there, at most max(1, MaxAttempts) |
| RoutingTheorems.VisitIsExact | internal/router/router.go:154-192 | a visit, case by case: who is unregistered or limited, the error recorded, and everything done: one admission first when limited, the retry run with only the model changed, and a look at the context after a failure |
| RoutingTheorems.ChatGoesOnExactly | internal/router/router.go:149-207 | Chat goes on to the next target after exactly those failures, and every run that stops short of its chain ends on some other outcome or on the context |
| RoutingTheorems.FirstHealthyServes | internal/router/router.go:149-207 | a target that would serve is reached and serves, when every one before it is unregistered, rate limited here or fails with an error that failover accepts and that is no context error, under a live context |
| RoutingTheorems.ChatStopsAtFirstDecisive | internal/router/router.go:149-207 | of any plan of what each target would come to, an uninterrupted run is exactly the part up to the first decisive target |
| RoutingTheorems.NothingAfterDone | internal/router/router.go:150-192 | once Chat, a retry check or a backoff saw the context done, no provider is called and no token taken |
| RoutingTheorems.ChatLooksFirst | internal/router/router.go:149-170 | over a whole Chat, straight before every token taken and every call made the context was looked at and alive |
| RoutingTheorems.ChatIsMetered | internal/router/router.go:154-177 | at every point of a Chat, calls to any limited providers are at most max(1, MaxAttempts) per token taken under their names |
| RoutingTheorems.CallsGoToTheirTarget | internal/router/router.go:154-176 | every call goes to the client registered for its target, with the target's model and the rest of the request unchanged; a skipped target is never called |
| RoutingTheorems.ChatInChainOrder | internal/router/router.go:149-207 | over a whole Chat, every call and every admission belongs to an entry of the chain that was visited, with that entry's client and model, never going back; no entry is admitted twice, each call at a limited entry is behind that entry's granted admission, and the entry that decided is the last visited |
| RoutingTheorems.ServedIsLastReply | internal/router/router.go:172-186 | a served response is the provider's reply to the last call made, and nothing happens after it |
| RoutingTheorems.VisitCounts | internal/router/router.go:154-177 | a target costs at most one token and one full retry run, at its own provider only |
| Interleaving.CallsAreCovered | internal/router/router.go:149-177 | in every interleaving of concurrent Chat calls, the tokens in the history of a limiter, whoever else uses it, cover every call made to the providers it is attached to |
| Interleaving.ChatIsCharged | internal/router/router.go:154-170 | what Chat's contract leaves on a limiter: exactly its log's admissions as the call's own, so that every beginning of its log is charged there |
| Interleaving.ChatsAreCharged | internal/router/router.go:154-170 | any set of returned Chats are valid runs whose logged admissions are all in any later history of the limiter, each as its own |
| Interleaving.ProviderLoadBound | internal/router/router.go:149-177 | hence at most max(1, MaxAttempts) * (burst + rate * elapsed) calls reach the providers behind a limiter attached from the start, over the time its history spans |
| Interleaving.FinishedChatsBound | internal/router/router.go:149-177 | the same from Chat's contract alone: for any set of Chats that returned, each under an identity of its own, in any later history of the limiter |
| ChatSystem.EveryStateIsCovered | internal/router/router.go:149-177 | at every state that Chats and other users of a limiter reach together, Chats under way included, its history is its own decisions, each Chat's sections are those it noted, and the tokens granted so far cover the calls made so far |
| ChatSystem.EveryWindowIsBounded | internal/router/router.go:149-177 | between any two reachable states, at most max(1, MaxAttempts) * (Chats under way at the first + burst + rate * elapsed) calls reach the providers behind a limiter, whoever else uses it |
| ChatSystem.ReturnedChatsAreARun | internal/router/router.go:149-177 | every limiter history in which each Chat's own sections are those of its run is reached by a run of the transition system that ends with all of them returned |
| Server.ExhaustionAnswersUpstream | internal/server/server.go:177-189 | after exhaustion under the default predicate, when the providers' own errors come from the two constructors, the answer is "upstream_error" with a status in 429, 500, 502, 503, 504, 529; 429 when the last target was limited here, 502 when it was not registered |
| Server.AnswerIsExact | internal/server/server.go:171-192 | for every error tree: 504 for a deadline, else 408 for a cancellation, else 400 without a RouteError, else the status of the first provider error, or 502 where it has none |
| Server.OwnStatusIsAnswered | internal/server/server.go:177-189 | a chain that ends on a provider's HTTP error is answered with that error's own status, transient or not |
| Server.ContextCodesMeanContext | internal/server/server.go:171-192 | "upstream_timeout" and "request_canceled" answer exactly the runs that ended on a context error, "upstream_error" every other failed run |
| Server.RouteErrorUnwraps | internal/router/router.go:132-137 | a RouteError is, for errors.Is and errors.As, its last failure |
| Gateway.Build | internal/gateway/build.go:24-86 | succeeds exactly when some backend has its credentials, every route target's backend has them and the prices are valid; then the router holds exactly those clients and those routes, the default policy, no limiter and no fallback |
| Gateway.BuiltRouterTriesEveryTarget | internal/gateway/build.go:68-78 | on a built router, a configured model resolves to its non-empty chain and every recorded failure is what a real retry run returned: none is an unregistered provider or a local rate limit |
| Gateway.BuiltGatewayAnswers | internal/server/server.go:171-192 | end to end on a built gateway: a failed Chat is answered "unknown_model" if and only if the model is not configured, and an exhausted chain answers with its last provider's own transient status, or 502 where that had none |
| SigV4.CanonicalizeHeaders | pkg/provider/bedrock/sigv4.go:100-130 | for whatever order the header map iterates in, the result is the canonical one of that order: sorted names, host always, content-type and the x-amz-* names present and no other, each with its line |
| SigV4.OrderIndependentIffConsistent | pkg/provider/bedrock/sigv4.go:100-130 | the two strings are the same for every iteration order if and only if signed names equal ignoring case agree in value |
| SigV4.CollisionShows | pkg/provider/bedrock/sigv4.go:100-130 | X-Amz-Meta and x-amz-meta with different values: two iteration orders give different canonical headers |
| SigV4.CanonicalDependsOnSigned | pkg/provider/bedrock/sigv4.go:110-119 | canonical headers depend on the signed headers alone |
| SigV4.SignedNamesAreExact | pkg/provider/bedrock/sigv4.go:100-129 | the signed names are exactly host, once, and the content-type and x-amz-* names present, in order; strictly increasing if and only if they are distinct ignoring case |
| Strings.LeqIsLexicographic | pkg/provider/bedrock/sigv4.go:122-147 | the order names and query parts are sorted in: a prefix first, else by the first character that differs |
| Strings.LowerIsByLetter | pkg/provider/bedrock/sigv4.go:104-119 | lower-casing maps each capital to its small letter and changes nothing else |
| Strings.TrimSpaceTrims | pkg/provider/bedrock/sigv4.go:104-108 | trimming takes white space off both ends, all of it, and nothing else |
| Strings.AsciiSpace | pkg/provider/bedrock/sigv4.go:104-108 | white space in ASCII is tab, line feed, vertical tab, form feed, carriage return and space |
| SigV4.Sign | pkg/provider/bedrock/sigv4.go:46-88 | the header map becomes the prepared one plus the Authorization value over its canonical form |
| SigVerifier.SignedIsAccepted | pkg/provider/bedrock/sigv4.go:46-95 | a service that reads the scope out of the Authorization value, folds the key over it as read and writes the canonical request line by line accepts what Sign leaves; the scope reads date, region, service, aws4_request |
| SigVerifier.HeadersAfterSigning | pkg/provider/bedrock/sigv4.go:46-88 | Host, X-Amz-Date, X-Amz-Content-Sha256 and, with a session token, X-Amz-Security-Token are set to what they must be; every other header but Authorization stays |
| SigV4.SigningIsAFixedPoint | pkg/provider/bedrock/sigv4.go:46-88 | signing a signed request again changes nothing |
| SigV4.UnsignedHeadersDoNotMatter | pkg/provider/bedrock/sigv4.go:97-119 | headers outside the signed set leave the Authorization value alone |
| SigV4.CanonicalQueryIsIdempotent | pkg/provider/bedrock/sigv4.go:142-149 | a canonical query is its own canonical form |
| SigV4.QueriesAlikeIffSameParts | pkg/provider/bedrock/sigv4.go:142-149 | two raw queries canonicalise alike if and only if their parts are equal as multisets |
| CanonicalParser.ParseUndoesPrint | pkg/provider/bedrock/sigv4.go:62-69 | the parser recovers method, path, query, signed headers and payload hash from the text |
| CanonicalParser.SameTextSameRequest | pkg/provider/bedrock/sigv4.go:60-69 | requests hashed as the same text agree in method, path, query parts, signed headers and payload hash |
| Adapters.AnthropicBody | pkg/provider/anthropic/anthropic.go:121-129 | the folding loop keeps the conversation: system texts in order as one text, other messages in order; non-positive MaxTokens is an error |
| Adapters.BedrockBody | pkg/provider/bedrock/bedrock.go:123-129 | the same conversation as Anthropic's |
| Adapters.MeaningIsExact | pkg/provider/anthropic/anthropic.go:121-204 | that conversation: the request's system text and every system message in order, with blank lines between them and empty ones at the front aside; every other message unchanged and in order |
| Adapters.OpenAIMessages | pkg/provider/openai/openai.go:92-98 | the list sent folds, from an empty system text, to that same conversation |
| Adapters.PrependingKeepsMeaning | pkg/provider/openai/openai.go:92-98 | prepending the system text as a message keeps the conversation, for all requests |
| Adapters.RefoldingIsIdentity | pkg/provider/anthropic/anthropic.go:199-204 | folding a folded conversation changes nothing |

## Left out

- HTTP transport, JSON, listening, shutdown, logging and latency measurement.
- SHA-256, HMAC, hex and time formatting: arbitrary functions here.
- IEEE rounding in the limiter (exact reals instead), saturation of time differences beyond 292 years, and the conversion of a wait that does not fit an int64 at extremely small rates.
- Limiters.Limiter.Wait: followed for a given number of timer firings, because nothing in the code bounds how often other callers take the token first.
- LoneWait.LoneWaitSleepsTwice: the clock must not read earlier than the bucket's last refill when the caller arrives; Go's monotonic clock reads that way.
- Backoff.DelaysGrow: with jitter only below the cap; at the cap a later draw may be shorter. Like the bounds beside it, it is about a BaseDelay that is not negative.
- Interleaving.ProviderLoadBound: each Chat has a caller identity of its own on the limiter, as in the results beside it; identities are ghost and nothing in the code carries them.
- ChatSystem.EveryStateIsCovered: the run each Chat is on is fixed beforehand and its events are some beginning of it; every Chat, also one that never returns, is on some such run.
- Register, SetLimiter and AddRoute running while a Chat is under way: a Chat here reads one unchanging configuration.
- Retry.Do: the call it retries is the provider call of Chat's closure, not an arbitrary function; the closure's two variables are return values.
- SigV4.QueriesAlikeIffSameParts: about the code's own canonical form, which sorts whole `k=v` parts and does not re-encode.
- CanonicalParser.SameTextSameRequest: for fields without newlines and header names without colons, as HTTP messages have them.
- SigVerifier.SignedIsAccepted: for an access key, scope parts and hex output without commas, key and scope without slashes, header names without commas and semicolons, and dates that begin with the eight digits of the day, as all of these have.
- Header names outside ASCII, for which lower-casing would need Unicode tables.
- The text of rendered error messages beyond what the model's constructors carry.
- Finish-reason maps, response decoding, metadata fields, pricing and environment parsing: field-by-field tables and parsing, independent of routing, limiting, retry and signing.
