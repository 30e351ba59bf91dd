# Verified model of Pulse Monitor

Pulse Monitor checks a list of URLs on a timer with a bounded pool of workers, limits
the request rate per domain with token buckets, stores every result, counts checks for
`GET /metrics`, and streams each result to open browser tabs as server-sent events.
This project models that concurrency engine and the event stream in Dafny and proves
what they keep in every interleaving, every run and on every input.

`dafny verify dfyconfig.toml` checks everything.

## How the model is built

Concurrent parts are step systems: a state, a datatype of actions, a predicate saying
which action is enabled, a function giving the next state, and runs as arbitrary
sequences of enabled actions. A Go `select` is a free choice among its ready cases, and
no scheduling is assumed. Objects that the program updates in place are classes whose
methods are proved against those step systems or against functions.

| file | content |
|---|---|
| `TokenBucket.dfy`, `RatePromise.dfy` | the timed token bucket: late ticks, the pending tick, the tick in the refill loop's hand, closing; the rate arithmetic and the exact maximum of every window |
| `Limiter.dfy`, `LimiterObjects.dfy` | the lazily created family of buckets and its projection to one key; the two classes |
| `Check.dfy`, `Pool.dfy` | `checkOne` as a function of the environment's answers; `Check` as one program counter per goroutine |
| `PoolSafety.dfy`, `PoolLimits.dfy` | invariants; deadlines and dates, calls counted, calls paid for by the limiter |
| `PoolOutcome.dfy`, `PoolReplies.dfy`, `PoolProgress.dfy` | confluence; what each reply becomes; termination, absence of deadlock, completion, parallelism |
| `Makespan.dfy`, `PoolTime.dfy` | list scheduling, and why the semaphore is a list scheduler |
| `Sse.dfy`, `EventSource.dfy`, `SseStream.dfy` | the frame printer; the parser of sections 9.2.5 and 9.2.6 of the WHATWG HTML Standard; the two together |
| `Hub.dfy`, `HubObjects.dfy` | the lossy broadcast queues; the hub's classes and the writer loop of `GET /events` |
| `Metrics.dfy`, `MetricsText.dfy` | the counters, their text form and its two readers |
| `Store.dfy` | the two tables, the delete cascade, the failure filter, the 24-hour window, the percentiles |
| `Engine.dfy`, `EngineTable.dfy`, `EngineCalls.dfy`, `EngineObjects.dfy` | `tick` and `Run` over a database that the web handlers change at any moment |
| `Dashboard.dfy` | from the engine's log, through rendering, hub and stream, to what a tab reads |
| `Monitor.dfy`, `MonitorRun.dfy` | the proof that the concurrent `Check` is the one they assume, for one tick and for whole runs |

## Where the code and its documentation differ

The code is modelled as it is; these statements of its comments do not hold of it.

- `internal/ratelimit/bucket.go:40-41` says a bucket admits at most `ratePerSecond` tokens
  every second. For no rate does every sliding second keep that promise:
  `RatePromise.BankedBurst` gives, for every rate, a run that grants `rate + 1` tokens within
  one nanosecond (`RatePromise.NoRateKeepsEverySecond`). A given window keeps it exactly when
  the tokens in the bucket, the ticks on their way and the ticks still due in it are no more
  than promised (`RatePromise.WindowKeptIff`). Over the first k seconds from creation it is
  kept exactly when `k * (10^9 mod rate) < 10^9 div rate` (`RatePromise.PromiseKeptIff`), and
  for ever exactly when the rate divides 10^9 (`RatePromise.PromiseKeptForEver`). What does
  hold of every window is `TokenBucket.WindowBound`, and it cannot be improved
  (`RatePromise.WindowBoundReached`).
- `internal/ratelimit/manager.go:50-51` says Wait returns once the manager, and therefore the
  key's bucket, has been closed. That is so for the keys known to Close; a key first looked up
  afterwards gets an open bucket that stays open (`Limiter.ClosedIffKnown`; `Limiter.OpenAfterClose` gives a
  run that reaches it). Lines 58-59 tell
  callers not to do this.
- `internal/sse/hub.go:34-35` says a browser reassembles the exact payload. It does
  exactly for events whose name is non-empty and has no line break and whose data has no
  carriage return (`SseStream.RoundTripIff`); all events the program sends are of that kind
  unless a rendered template contains a carriage return.
- `NewBucket` panics for more than 10^9 tokens a second, because the period becomes zero;
  the model returns `None` there, and lemmas that need a bucket to start say so.

## Model

| member | source | states |
|---|---|---|
| TokenBucket.New | internal/ratelimit/bucket.go:44-59 | a bucket starts, empty, exactly for rates up to 10^9; rates below 1 are clamped to 1, with a period of one second, and others are kept |
| TokenBucket.WindowBound | internal/ratelimit/bucket.go:44-93 | in every run and every window the tokens granted are at most those buffered, pending or in hand when it opens, one overdue tick, and one per period of the window; hence at most rate + 2 + the window's periods, and one more if a tick is overdue |
| TokenBucket.RunCreatesNoBudget | internal/ratelimit/bucket.go:65-93 | grants so far, backlog and ticks still possible before any horizon never increase together along a run |
| TokenBucket.GrantsNeedTicks | internal/ratelimit/bucket.go:65-93 | over any run, grants and final backlog are covered by the initial backlog and the ticks fired |
| TokenBucket.GrantsSinceCreation | internal/ratelimit/bucket.go:44-79 | within d nanoseconds of its creation a bucket grants at most d div period tokens |
| TokenBucket.ClosedForGood | internal/ratelimit/bucket.go:84-100 | after Close, in every later state, every Wait has an enabled return and closing again changes nothing |
| TokenBucket.NoRefillAfterExit | internal/ratelimit/bucket.go:65-79 | once the refill loop has returned, granted plus buffered is constant, so at most rate tokens are still granted in the rest of the run |
| TokenBucket.ExitLeavesNothingInHand | internal/ratelimit/bucket.go:65-79 | the refill loop never returns while it holds a tick |
| TokenBucket.StopsOnlyClosed | internal/ratelimit/bucket.go:65-79 | the refill loop returns only after Close |
| TokenBucket.TokensBanked | internal/ratelimit/bucket.go:44-79 | without takers every tick offered becomes a token until there are rate of them, and a full bucket stays full |
| TokenBucket.DueOnSchedule | internal/ratelimit/bucket.go:54 | however late a tick fires, the next is due a whole number of periods after it was |
| RatePromise.TicksPerSecond | internal/ratelimit/bucket.go:54 | the rounded period gives at least rate and fewer than 2 * rate ticks a second, exactly rate if rate squared is at most 10^9 |
| RatePromise.DrainRunGrants | internal/ratelimit/bucket.go:44-93 | the bound since creation is reached: some run grants n tokens in n periods |
| RatePromise.PromiseKeptIff | internal/ratelimit/bucket.go:40-58 | no run exceeds rate * k grants in the first k seconds if and only if k * (10^9 mod rate) < 10^9 div rate |
| RatePromise.PromiseKeptFirstSecond | internal/ratelimit/bucket.go:40-58 | in particular the first second is within the rate for every rate whose square is at most 10^9 |
| RatePromise.PromiseKeptForEver | internal/ratelimit/bucket.go:40-58 | the promise holds over the first k seconds for every k if and only if the rate divides 10^9 |
| RatePromise.WindowMaximum | internal/ratelimit/bucket.go:44-93 | from any state, no run grants more in a window than the tokens buffered, the ticks pending or in hand and the ticks that can still fire in it, and some run grants exactly that |
| RatePromise.WindowKeptIff | internal/ratelimit/bucket.go:40-44 | the k seconds from any state keep the promise if and only if that maximum is at most rate * k |
| RatePromise.NoRateKeepsEverySecond | internal/ratelimit/bucket.go:40-44 | for every rate a new bucket reaches a state whose next second breaks the promise |
| RatePromise.WindowBoundReached | internal/ratelimit/bucket.go:44-93 | for every rate and window length, with or without an overdue tick, a new bucket reaches a state from which some run grants exactly the window bound |
| RatePromise.BankedBurst | internal/ratelimit/bucket.go:40-58 | for every rate some run grants nothing and then rate + 1 tokens within one nanosecond |
| Limiter.ValidNext | internal/ratelimit/manager.go:38-48 | no step ever creates a second bucket for a key or leaves a bucket outside its capacity |
| Limiter.ProjectExisting | internal/ratelimit/manager.go:38-66 | a manager run seen through a key that has a bucket is a run of that single bucket |
| Limiter.ProjectCreated | internal/ratelimit/manager.go:38-66 | a key that gets its bucket during a run ends with what NewBucket made at its first lookup, after the projected events |
| Limiter.KeysAreIsolated | internal/ratelimit/manager.go:8-12 | two manager runs that agree on the events of a key leave that key with the same bucket, whatever happens to other keys |
| Limiter.WindowBound | internal/ratelimit/manager.go:38-54 | the sliding-window bound for every key of the manager, also for keys created inside the window |
| Limiter.SameRateAfter | internal/ratelimit/manager.go:26-48 | every bucket of a run has the period of the configured rate |
| Limiter.CloseAllIsFinal | internal/ratelimit/manager.go:56-66 | after Close every Wait on a key known to it has an enabled return in every later state |
| Limiter.ClosedIffKnown | internal/ratelimit/manager.go:50-66 | after Close, and until somebody closes the manager again, a key's bucket is closed, and its Wait released, exactly if the key had one at that time |
| Limiter.OpenAfterClose | internal/ratelimit/manager.go:50-66 | after Close of a new manager, for every rate up to 10^9, any key can be looked up and gets an open bucket |
| LimiterObjects.Bucket.constructor | internal/ratelimit/bucket.go:44-59 | the new object is the new bucket of the step system |
| LimiterObjects.Bucket.Fire | internal/ratelimit/bucket.go:54 | a tick fires and the next one stays on the ticker's grid |
| LimiterObjects.Bucket.RefillSelect | internal/ratelimit/bucket.go:67-71 | the outer select is Exit or Pick or waits, as the ready cases and the choice among them say |
| LimiterObjects.Bucket.RefillOffer | internal/ratelimit/bucket.go:72-76 | the inner select is Deposit: a token if there is room, else nothing |
| LimiterObjects.Bucket.RefillTurn | internal/ratelimit/bucket.go:65-79 | one turn of the loop is Exit, or Pick then Deposit, or waits, as the ready cases and the choice among them say |
| LimiterObjects.Bucket.Wait | internal/ratelimit/bucket.go:84-93 | blocks exactly if there is no token, the context is alive and the bucket is open; returns a token, the context's error or the closed error only if there is one, and whichever is ready if so chosen; takes one token exactly if it returns one |
| LimiterObjects.Bucket.Close | internal/ratelimit/bucket.go:98-100 | closing is the Close step |
| LimiterObjects.Manager.constructor | internal/ratelimit/manager.go:26-31 | a new manager has no bucket |
| LimiterObjects.Manager.BucketFor | internal/ratelimit/manager.go:38-48 | returns the key's bucket, the same object as before if there was one, a fresh one otherwise; fails exactly where NewBucket panics |
| LimiterObjects.Manager.Wait | internal/ratelimit/manager.go:52-54 | a lookup followed by a wait on that key's bucket alone, with the same cases and effect on it |
| LimiterObjects.Manager.Close | internal/ratelimit/manager.go:60-66 | closes every bucket, in any iteration order |
| Pool.ShapeNext | internal/monitor/monitor.go:241-278 | every step keeps one program counter, result and slot record per target |
| PoolSafety.InvNext | internal/monitor/monitor.go:241-322 | every step of every goroutine, the clock, the limiter or the context keeps the invariant |
| PoolSafety.ConcurrencyBounded | internal/monitor/monitor.go:125-140 | in every reachable state the semaphore fill is the number of slot holders, at most 1 or at most maxWorkers, and bounds the calls inside client.Do and the in-flight gauge; the WaitGroup counts the unfinished |
| PoolSafety.WaitingCanAcquire | internal/monitor/monitor.go:125-140 | a waiting goroutine can take a slot exactly if none is taken or fewer than maxWorkers are |
| PoolSafety.MetricsConserved | internal/metrics/metrics.go:32-45 | in every reachable state started = in flight + between the first two updates + total, and failed is at most total |
| PoolSafety.AfterReturn | internal/monitor/monitor.go:241-278 | when Check returns the semaphore is empty, each result was written once and carries its own target, an error means status 0, in-flight is back, total and failed have grown by the checks that got a slot and by the failing ones among them; without a recorder nothing is counted |
| PoolSafety.ReturnsWhenDone | internal/monitor/monitor.go:244-275 | Check returns exactly when every goroutine is done |
| PoolLimits.WaitIsBucketWait | internal/monitor/monitor.go:296-300 | a goroutine in limiter.Wait can go on by a token, its context's end or a closed bucket exactly when the select of the bucket's Wait has that case ready |
| PoolLimits.ExpiresLate | internal/monitor/monitor.go:293-300 | no wait for a token ends early: unless the context is cancelled, a whole timeout has passed since the slot was taken |
| PoolLimits.TimesAreReal | internal/monitor/monitor.go:254-322 | every check that ran is dated, and its duration measured, while its goroutine held its slot; one that gave up is dated when it did |
| PoolLimits.RefusedOnlyWhenClosed | internal/ratelimit/bucket.go:84-93 | in no run in which nobody closes the limiter is a check refused for a closed bucket |
| PoolLimits.CallsCounted | internal/monitor/monitor.go:302-308 | the calls of client.Do for a domain are exactly the goroutines with a URL of that domain that have entered it |
| PoolLimits.LimiterRunAllowed | internal/monitor/monitor.go:280-308 | a run of the pool is, for the limiter, a run of the manager |
| PoolLimits.CallsArePaidFor | internal/monitor/monitor.go:296-308 | in every reachable state the calls of client.Do for a domain, made or about to be made, are at most the tokens its bucket has granted since Check began |
| PoolLimits.RequestsPerDomain | internal/monitor/monitor.go:283-308 | over any part of a run the calls of client.Do for a domain are at most those already admitted (at most one per worker), what its bucket carried in, and one per period elapsed |
| PoolOutcome.Confluence | internal/monitor/monitor.go:241-322 | every interleaving that meets the same answers of the environment returns the same array, checkOne of each target in order, with or without limiter, recorder and cancellation |
| PoolOutcome.EveryRunIsSequential | internal/monitor/monitor.go:241-322 | every run that returns does so with checkOne of the targets for some answers |
| PoolReplies.ReplyBecomesResult | internal/monitor/monitor.go:250-322 | in every run that returns, a response becomes its status and duration without error, any failure its error text with status 0, and the date is that of the clock reading at the start of checkOne or of giving up |
| PoolReplies.UpIffGoodResponse | internal/monitor/monitor.go:94-101 | a result is not failed if and only if its goroutine received a response with a status from 200 to 399 |
| PoolProgress.Terminates | internal/monitor/monitor.go:241-278 | no run takes more than 13 goroutine steps per target |
| PoolProgress.MeasureNext | internal/monitor/monitor.go:241-322 | every goroutine step lowers the measure over program counters, nothing else raises it |
| PoolProgress.NoDeadlock | internal/monitor/monitor.go:250-300 | until Check returns some goroutine has an enabled step at most one timeout from now, even if no token ever arrives and nobody else moves |
| PoolProgress.Completes | internal/monitor/monitor.go:241-278 | every partial run can be completed to one that returns, without cancellation and without any token |
| PoolProgress.WorkersAllBusy | internal/monitor/monitor.go:125-140 | some run has min(n, max(1, maxWorkers)) goroutines inside client.Do at the same time |
| Makespan.BatchesEnd | internal/monitor/monitor.go:244-275 | in a work-conserving schedule whose jobs hold a slot for at most T, min(n, k * slots) jobs have ended, or withdrawn while waiting, after k * T |
| Makespan.AllEndedInTime | internal/monitor/monitor.go:244-275 | all n jobs are over after ceil(n / slots) * T |
| Makespan.RoundsLeast | internal/monitor/monitor.go:244-275 | the number of rounds is the least k with n at most k * slots |
| Makespan.FinishBoundedByWork | internal/monitor/monitor.go:244-275 | slots * end is at most the total slot time plus (slots - 1) times the job's own |
| Makespan.WorkTakesTime | internal/monitor/monitor.go:244-275 | conversely, the total slot time is at most slots times the time elapsed |
| PoolTime.ClockedFromInit | internal/monitor/monitor.go:244-300 | prompt runs of Check, cancelled or not, are such schedules: derived from the steps of the semaphore and the one timeout covering token wait, request and body |
| PoolTime.NeverOverbooked | internal/monitor/monitor.go:244-300 | and at no time of such a run are more slots in use than there are |
| PoolTime.ChecksDoneBy | internal/monitor/monitor.go:241-294 | after k timeouts at least min(n, k * slots) goroutines are done, and without cancellation that many checks were made |
| PoolTime.CheckReturnsInTime | internal/monitor/monitor.go:241-294 | Check has returned after ceil(n / slots) timeouts, even if its context is cancelled on the way |
| PoolTime.CheckBoundedByWork | internal/monitor/monitor.go:241-322 | no check holds a slot or measures a duration longer than the timeout, one that gave up used no slot, slots * end is bounded by the work done, and the work done by slots * elapsed time |
| PoolTime.NoTimelock | internal/monitor/monitor.go:241-300 | the promptness assumption never blocks: some goroutine can move or the clock can |
| Sse.Frame | internal/sse/hub.go:36-48 | the builder loop produces the frame function |
| Sse.SplitKeepsText | internal/sse/hub.go:41 | splitting at line feeds loses nothing |
| Sse.FrameOneLine | internal/sse/hub.go:36-48 | the frame of one-line data, written out |
| Sse.FrameMoreLines | internal/sse/hub.go:36-48 | every further line of the data is one further line of the frame, and nothing else is |
| Sse.BlankLineOnlyAtEnd | internal/sse/hub.go:36-48 | a frame contains a blank line only at its end |
| EventSource.ChunkingIrrelevant | internal/handlers/handlers.go:231-253 | the parser's state does not depend on how the stream is cut into chunks |
| EventSource.FeedMeansLines | internal/sse/hub.go:27-35 | the character-wise parser delivers exactly what the stream's lines, ended by CR LF, LF or CR, mean |
| EventSource.FeedClean | internal/sse/hub.go:34-35 | whatever the input, delivered names are non-empty without line breaks, payloads have no carriage return, and nothing delivered is taken back |
| SseStream.StreamRoundTrip | internal/sse/hub.go:36-48 | any sequence of frames of clean events and pings, in any chunking, is read as exactly those names and payloads in order |
| SseStream.RoundTripIff | internal/sse/hub.go:27-48 | an event survives print and parse if and only if its name is non-empty without line breaks and its data has no carriage return |
| SseStream.TruncationSafe | internal/sse/hub.go:36-48 | every prefix of a stream is read as the events whose closing blank line it includes, a prefix of all events |
| SseStream.FramesPrefixFree | internal/sse/hub.go:36-48 | no frame of a clean event is a proper prefix of another, and different events have different frames |
| Hub.HubConservation | internal/sse/hub.go:72-101 | over any run a client has received and buffered, in order, a subsequence of what was published while it was subscribed; received + buffered + dropped is that number; the buffer respects its capacity; a client that always has room loses nothing |
| Hub.PublishOrderIrrelevant | internal/sse/hub.go:93-100 | Publish has the same effect whatever order the map iteration takes |
| HubObjects.Client.Offer | internal/sse/hub.go:94-99 | the select with default appends the frame if there is room and drops it otherwise |
| HubObjects.Client.Receive | internal/handlers/handlers.go:245-248 | takes the oldest frame, the frame of the oldest buffered event |
| HubObjects.Hub.Subscribe | internal/sse/hub.go:72-76 | adds exactly the channel |
| HubObjects.Hub.Unsubscribe | internal/sse/hub.go:80-84 | removes exactly the channel |
| HubObjects.Hub.Publish | internal/sse/hub.go:88-101 | offers the event's frame once to every subscribed channel and to no other |
| HubObjects.HandleEvents | internal/handlers/handlers.go:224-254 | the writer loop writes, unsubscribes and leaves other clients as its specification says, for every choice of its select and every failed write |
| HubObjects.TabSeesSubsequence | internal/handlers/handlers.go:224-254 | whatever the loop does and however much of its stream arrives, a tab reads a first part of what was kept for it, an in-order subsequence of what was published while it was connected; if everything written arrives on an open connection, it reads all the loop has taken from its channel |
| HubObjects.FramesTaken | internal/handlers/handlers.go:245-252 | the loop has taken exactly one frame for every turn at which it found its channel ready |
| HubObjects.PingsWritten | internal/handlers/handlers.go:238-244 | it has written exactly one ping for every heartbeat |
| HubObjects.OpenUntilEnd | internal/handlers/handlers.go:231-253 | it goes on exactly until the client has gone or a write has failed |
| HubObjects.TabReadsEverything | internal/handlers/handlers.go:224-254 | on a connection that stays open, once the loop has had a turn for every buffered frame and its bytes have arrived, the tab has read every event kept for it, and every event published if its channel always had room |
| Metrics.Recorder.CheckStarted | internal/metrics/metrics.go:32-34 | raises only the in-flight gauge |
| Metrics.Recorder.CheckFinished | internal/metrics/metrics.go:39-45 | lowers the gauge, raises the total, and the failures exactly for a failed check |
| Metrics.UpdatesCounted | internal/metrics/metrics.go:32-45 | of any interleaved updates each kind moves its own counter and no other |
| MetricsText.Serve | internal/metrics/metrics.go:49-57 | four writes with three counters loaded one after the other, whatever checks start and finish in between; both readers find under each of the four names the value that was loaded for it |
| MetricsText.ReadMetric | cmd/loadtest/main.go:236-256 | the first line of exactly two fields of which the first is the name decides, as a 64-bit integer; a failed request, a status other than 200 and a missing name are errors |
| MetricsText.ParseIntIff | cmd/loadtest/main.go:252 | parsing undoes decimal printing if and only if the number is a 64-bit integer |
| MetricsText.DigitsPlain | internal/metrics/metrics.go:49-57 | no leading zero is printed |
| MetricsText.PageRoundTrip | cmd/loadtest/main.go:249-255 | from any page the load tester reads back the printed value under each name, if and only if it is a 64-bit integer, and the script's map holds exactly the four printed strings |
| MetricsText.PageScript | web/static/js/app.js:115-121 | for any list of distinct one-word names the script's reader recovers every value string and nothing else |
| Store.DownAgreesIff | internal/store/store.go:115 | the failure filter agrees with Result.Failed on a result if and only if it is not an empty-text error with a good status |
| Store.OneMeaningOfDown | internal/monitor/monitor.go:94-101 | for every answer of the environment the stored row, the dashboard's status and the failure counter agree |
| Store.RowIs | internal/store/store.go:85-99 | the row holds the target, the status, the whole milliseconds, the date, and a message exactly for an error with a text |
| Store.StatsSeeRow | internal/store/store.go:111-120 | a row counts in the totals, and in the failures, exactly if it is recent, of the target, and failed |
| Store.StatsDescribe | internal/store/store.go:111-135 | the statistics are the target's number of rows of the last 24 hours, of failed ones among them, and the interpolated 50th and 99th percentiles of their durations, 0 without any |
| Store.PercentilesOrdered | internal/store/store.go:116-117 | for a non-empty window the interpolated percentiles lie between minimum and maximum and grow with the fraction |
| Store.MedianOdd | internal/store/store.go:116 | of an odd number of checks the reported p50 is the middle duration |
| Store.MedianEven | internal/store/store.go:116 | of an even number it is the mean of the two middle durations, rounded down |
| Store.SortedSorts | internal/store/store.go:116-117 | the ordering used for percentiles is an ascending permutation |
| Store.DeleteKeepsOtherStats | internal/store/store.go:70-82 | deleting a target removes its checks and changes no other target's statistics |
| Store.Database.CreateTarget | internal/store/store.go:33-45 | adds exactly one row, found under its URL and key, in creation order, unless the URL or key exists or the statement has no effect; succeeds exactly if it did and was answered |
| Store.Database.ListTargets | internal/store/store.go:48-68 | all targets in creation order, or an error |
| Store.Database.DeleteTarget | internal/store/store.go:73-82 | removes exactly the target and its checks unless the statement has no effect, and reports not found when answered without such a target |
| Store.Database.RecordCheck | internal/store/store.go:85-99 | appends the row exactly if the statement takes effect and the target exists, and succeeds exactly if it was answered as well |
| Store.Database.RecentStats | internal/store/store.go:111-135 | the statistics of the target's rows of the last 24 hours, or an error |
| Engine.TickConserves | internal/monitor/monitor.go:183-226 | for any pattern of database calls that succeed, fail, or take effect but report an error, and of targets created and deleted between any two of them, a tick counts exactly the checks it stores, sees deleted or never inserts, and the failing ones among them |
| Engine.RunConserves | internal/monitor/monitor.go:160-174 | the same over any run of ticks, with no check in flight between them; without a recorder no counter moves |
| Engine.MetricsMatchTable | internal/monitor/monitor.go:56-64 | from a fresh start checks_total is the rows in the table plus those deleted with their target plus the inserts that did not happen; equally, checks_total plus the errors whose insert took effect is the rows, the deleted rows and the errors; the same for checks_failures; table and counters agree exactly when nothing was deleted and no insert failed to happen |
| EngineCalls.TickChecksTable | internal/monitor/monitor.go:189-226 | a tick whose listing succeeds checks, records and, if it publishes, publishes and queries every row of the table as the listing met it, in order, the i-th result being the i-th answer |
| EngineCalls.EveryTargetOnce | internal/monitor/monitor.go:189-212 | every target that the listing finds is recorded exactly once |
| EngineCalls.FailedListing | internal/monitor/monitor.go:189-194 | a tick whose listing fails makes no other call and counts nothing |
| EngineTable.CreatedIsListed | internal/store/store.go:33-45 | a target created before the listing, and not deleted since, is among the listed ones |
| EngineTable.DeletedIsNotListed | internal/store/store.go:73-82 | a target deleted before the listing, and not created again, is not |
| EngineCalls.TickCalls | internal/monitor/monitor.go:183-226 | each result is published then recorded once, in target order; then each target is queried once, in order, and each answered query is followed by the publication of what the table after the last insert says of the target at a moment of the loop, or an empty table exactly if the target was deleted since |
| EngineCalls.TickRows | internal/monitor/monitor.go:197-212 | a target nobody deletes during the tick ends with its old rows followed by those whose insert succeeded, in order |
| EngineCalls.TickTable | internal/monitor/monitor.go:197-212 | if nobody deletes a target, the table after a tick is the old one followed by the rows whose insert succeeded, in order |
| EngineCalls.TickLosses | internal/monitor/monitor.go:204-211 | the i-th result is not stored only if its own insert has no effect or its target is deleted between the listing and that insert, and the engine is told of success exactly if it is stored and answered |
| EngineTable.TickReferenced | internal/store/store.go:85-99 | whatever is created and deleted meanwhile, a tick leaves no row of a target that does not exist |
| EngineCalls.CalmRunMatches | internal/monitor/monitor.go:160-174 | with a database that always answers and no deletion, checks_total and checks_failures are the rows and the failing rows after any number of ticks |
| Engine.TickTime | internal/monitor/monitor.go:103-108 | a tick takes at most (1 + 2n) database timeouts plus ceil(n / slots) check timeouts, given that Check takes at most the latter |
| Engine.TickClock | internal/monitor/monitor.go:183-226 | a tick makes 1 + n or 1 + 2n database calls and lasts exactly as long as they and its Check |
| Engine.RunTicks | internal/monitor/monitor.go:160-174 | a run lists the targets once per round |
| Engine.RunClock | internal/monitor/monitor.go:160-174 | ticks do not overlap: the run lasts at least its waits and all its database calls |
| EngineObjects.Engine.CheckTargets | internal/monitor/monitor.go:241-278 | one interleaving of Check in which every target gets a slot, with its effect on the recorder, if there is one |
| EngineObjects.Engine.Record | internal/monitor/monitor.go:197-212 | publish, insert and log one result; the insert fails if the target was deleted since the listing |
| EngineObjects.Engine.Report | internal/monitor/monitor.go:215-224 | query, publish and log one target's statistics, skipping a failed query |
| EngineObjects.Engine.Tick | internal/monitor/monitor.go:183-226 | the loops over database and recorder, with the handlers' changes before every database call, are the tick function |
| EngineObjects.Engine.Run | internal/monitor/monitor.go:160-174 | one tick at once and one per ticker choice until the context's end is chosen, one after the other, with no check in flight at the end |
| EngineObjects.NothingAfterStop | internal/monitor/monitor.go:166-172 | no choice after the first end of the context has any effect |
| EngineObjects.EveryTickerTicks | internal/monitor/monitor.go:166-172 | until then every choice of the ticker is one tick |
| Dashboard.TabReadsTheLog | internal/handlers/handlers.go:257-321 | for any rendering into clean events and any interleaving with the handlers' own events, a tab reads the renderings of some of the broadcasts in order, of the engine's publications a subsequence of its log and of the check results one in the order of their publication |
| Dashboard.TabReadsTick | internal/monitor/monitor.go:197-212 | of the results of one tick a tab reads some, in target order |
| Dashboard.TabReadsAll | internal/handlers/handlers.go:224-254 | a tab that keeps up on an open connection reads the rendering of every broadcast, in order |
| Monitor.CheckRefines | internal/monitor/monitor.go:196 | every concurrent uncancelled run of Check, with or without recorder, has the results, counters and clock of the sequential one that tick is modelled with |
| Monitor.SpanBounded | internal/monitor/monitor.go:241-278 | in a prompt run Check returns within ceil(n / slots) timeouts, at once if there is no target |
| Monitor.TickOverPool | internal/monitor/monitor.go:183-226 | a tick around any prompt concurrent run of Check does everything, calls, table and counters, that some tick of the engine does, and ends within the combined timeouts |
| MonitorRun.RunRefines | internal/monitor/monitor.go:160-226 | ticks around concurrent Checks, one after the other with one limiter that keeps running in between, are a run of the engine |
| MonitorRun.MetricsMatchAfterRun | internal/monitor/monitor.go:160-226 | after any number of concurrent Checks the counters are accounted for by the table, the deleted rows and the inserts that did not happen, or by the errors less those that took effect |
| MonitorRun.RequestsPerDomainOverRun | internal/monitor/monitor.go:296-308 | over any number of ticks the calls of client.Do for a domain are at most what its bucket carried in, nothing if it is new, and one per period elapsed |
| MonitorRun.CallsAreEntries | internal/monitor/monitor.go:302-308 | those calls are exactly the entries into client.Do with a URL of the domain |
| MonitorRun.SomePassHappens | internal/monitor/monitor.go:183-226 | from every state of the engine and the limiter some tick around a concurrent Check can happen |

## Assumptions

- Times are whole nanoseconds. The bounds of `PoolTime` and `Monitor` hold for prompt runs:
  the clock moves only while no goroutine can proceed, and waits for a token and HTTP
  exchanges, with their bodies, end at their deadline. Everything else about the pool and all
  of the limiter assume nothing about scheduling; timers may fire late.
- The environment answers each check: HTTP status, duration, error texts, the outcome of
  building the request. `domainOf` is an arbitrary partial function of the URL.
- A database call that reports an error has either had no effect or taken effect before the
  engine's next call.
- Bytes are characters. The event stream's UTF-8 decoding, which also drops a byte order mark,
  happens before the modelled parser.
- Each Check starts with an empty semaphore; the program calls it only from `tick`, one call
  after the other.

## Left out

- The HTTP client and transport, redirects, response bodies and TLS: library behaviour. Calls of client.Do are counted, not requests on the wire.
- The Postgres driver, SQL parsing, indexes and connection pools: only the meaning of the statements is modelled; 32-bit column ranges and floating-point rounding of percentiles are not.
- The heartbeat's period and the ticker's interval: the loops take a heartbeat or a tick whenever their environment offers one.
- 64-bit wrap-around of the counters and of durations: the counters are unbounded integers.
- HTML templates, the DOM and htmx swaps, and whether a browser's rows match the database.
- The latency and error text of the dashboard's status cell: only its up or down label is modelled.
- Configuration, logging, panic middleware, process signals and server wiring: easy claims only.
- The load generator's seeding, sampling and report; only its metrics reader is modelled.
- A pool without a store, where tick returns at once.
- HubObjects.HandleEvents: what other goroutines publish arrives between the loop's turns, not during a write; other tabs neither subscribe, unsubscribe nor receive while the loop runs, which the step system of Hub allows; a list of choices that ends with the tab still connected describes the loop up to that point.
- LimiterObjects.Bucket.RefillTurn: nothing comes between the two selects of a turn; RefillSelect and RefillOffer are its two halves, and the step system keeps them apart.
- LimiterObjects.Manager.Wait: nothing comes between the lookup and the wait; BucketFor and WaitOn are its two halves, and the step system keeps them apart.
- EngineObjects.Engine.CheckTargets: takes the targets one by one; PoolOutcome.Confluence and Monitor.CheckRefines cover the other interleavings.
