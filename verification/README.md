# A model of the stock scraper's scheduler and executor

The repository runs a cron-driven scheduler and an executor that talk through Redis streams. This
project states, in Dafny, what its delivery and retry protocols, its limiters and its text and news
algorithms compute, and proves what they keep over every run.

`dafny verify dfyconfig.toml` checks everything. Protocols are state machines whose runs are arbitrary
sequences of actions: an action that is not enabled changes nothing, so a statement about "every run"
covers every interleaving, every failing call and every crash. The code itself is modelled as methods
that change fields, call after call, with the rest of the world acting in between; their contracts tie
each new state to the state machine or to a specification function.

| files | what they model |
|---|---|
| `Broker`, `StreamRetry`, `RetryTheorems`, `AttemptBudget`, `RetryStarvation`, `RetryService` | the `stock.analyzer` and `stock.position.monitor` streams: first deliveries, claims after an idle time, giving up, ack before delete |
| `ConsumerLoops` | the executor's handler loops, their timeouts and how they stop |
| `Lifecycle`, `TaskAccounting`, `TaskOutcomes`, `Semaphore`, `Firing`, `TaskServices` | from a due schedule through the capped stream to a finished run |
| `TokenLimiter` | the token limiter in front of the AI provider |
| `PriceAlert`, `PriceAlertStrategy` | price alerts, the cache that suppresses repeats, and the job that checks every position |
| `Packing`, `MessageSplitter`, `Markdown`, `Utf8` | the Telegram splitter, the MarkdownV2 escape and the UTF-8 cleaner |
| `NewsSelection`, `NewsScraper`, `NewsStore`, `NewsRepository` | the news pipeline: filter, stable sort, quota loop, insert or ignore |
| `Wrappers` | shared types and helpers |

## What is assumed

- One global clock; a call of a stream handler returns by the deadline of its context, so time never
  passes a live handler's deadline (`StreamRetry.StepAdvance`). Telegram sends take no context, which is
  why this is an assumption.
- `XAUTOCLAIM` with COUNT 1 looks at no more than ten pending entries, lowest ID first, adds one to the
  delivery count of the entry it hands over and resets its idle time.
- One scheduler; `cron.Next(t)` is later than `t` with no instant in between; an XADD that reports an
  error enqueued nothing (`TaskAccounting.Honest`; the lemma `DishonestEnqueueReopens` shows what happens
  otherwise).
- Postgres keeps the unique index on `hash_identifier`, lets an insert wait for an unfinished one of the
  same hash, never reuses a row number, and makes a transaction take effect at its commit or not at all.
- SHA-256 is injective, so the hashed string stands for its hash. The RFC 3339 layout ends in an offset
  such as `+07:00` and the layout of `PubDate.String` in a zone name (`NewsSelection.Jakarta`).
- Prices and percentages are reals.

## What does not hold

- Executions of one message can overlap exactly when the first-delivery timeout exceeds a positive
  minimum idle time (`LeaseExact`). Both shipped configurations are on the safe side, the position
  monitor with equality (`ShippedConfigurations`).
- The retry limit bounds executions by max(2, MaxRetry - 1) plus the number of lost acks, not by MaxRetry
  (`AttemptBound`), and that bound is reached (`BudgetIsSpent`).
- A malformed message is never acked and is claimed again and again. With u of them pending below it, all
  idle, a good message that needs a retry starves for good exactly when u is at least ten or u retry
  intervals are at least as long as the idle time (`StarvesExactly`, for one process that claims once per
  interval). As shipped, two suffice for the position monitor and five for the analyzer, and such states
  are reached (`ShippedRetriesStarve`).
- Enough claims within one idle time are certain to include an idle message exactly when a first delivery
  cannot outlive the idle time; otherwise it may be acked first (`RetryIsCertainExactly`).
- The filter for existing news never finds any, because it hashes another date layout than the insert
  stores (`FilterNeverFindsStored`); de-duplication rests on the unique index (`FirstWriterWins`).
- The token limiter grants up to twice its capacity at one instant (`WindowBoundIsReached`), and it
  stays within its capacity in every run exactly if no request may be negative
  (`NegativeRequestOverfills`).
- A second owner of a stock is not told about a price the first one was alerted to (`SharedAlert`), and a
  failed take-profit check is certain to be reported exactly if the stop loss has not been reached as well
  (`FailedCheckIsReported`, with a swing of prices that hides one in `SwingHidesFailure`).
- Escaping leaves backslashes alone, so Telegram shows the original text exactly when every backslash in
  it is last or stands in front of a special character (`TelegramShowsText`).
- A failed lookup of stored hashes is reported twice, the second time as a success (`HowManyResults`).
- Closing the stop channel keeps stream handlers from reading, but a retry handler may go on for as long
  as its ticker is ready (`NoReadAfterClose`, `RetriesAfterClose`).

## Model

| member | source | states |
|---|---|---|
| Broker.CommandsConserve | internal/executor/service/stock_analyzer_multi_timeframe.go:163-173 | each Redis command keeps every ID in one of undelivered, pending and acked, and only acked entries leave the stream |
| Broker.ScanExact | internal/executor/service/stock_analyzer_multi_timeframe.go:176-183 | XAUTOCLAIM takes exactly the lowest idle entry, provided fewer pending entries lie below it than it may look at |
| Broker.ClaimExact | internal/executor/service/stock_analyzer_multi_timeframe.go:176-183 | a retry claims the lowest message idle for the whole minimum time, provided fewer than ten pending messages lie below it |
| Broker.IdleIsFound | internal/executor/service/stock_analyzer_multi_timeframe.go:176-183 | with an idle entry within reach of the scan, something at or below it is claimed |
| StreamRetry.ClaimFindsNoRetry | internal/executor/delivery/consumer/consumer.go:57-58 | a claim never finds a live retry handler on its message, because timeout and idle time are the same duration |
| StreamRetry.FinishKeepsJustified | internal/executor/service/stock_analyzer_multi_timeframe.go:228-261 | a finished execution goes on to an ack only if it succeeded or was a retry whose count plus one reached the limit |
| StreamRetry.FinishDecides | internal/executor/service/stock_analyzer_multi_timeframe.go:228-261 | a finished execution is entered in the ledger, and its handler goes on to acknowledge exactly if it succeeded or is a retry whose count plus one has reached the limit |
| StreamRetry.StepKeepsInv | internal/executor/service/stock_analyzer_multi_timeframe.go:57-263 | every step, failing or not, keeps conservation, the leases, one holder per kind of handler and the justification of acks |
| StreamRetry.RunKeepsInv | internal/executor/service/stock_position_monitoring_multi_timeframe.go:61-337 | so does every run, with any number of executor processes |
| RetryTheorems.LeaseExact | internal/executor/delivery/consumer/consumer.go:53-58 | no message is executed by two handlers at once in any run if and only if the first timeout is at most the idle time, or the idle time is zero |
| RetryTheorems.RunKeepsOneHolder | internal/executor/delivery/consumer/consumer.go:75-77 | under that condition no message is even held by two live handlers |
| RetryTheorems.EveryMessageHasOnePlace | internal/executor/service/stock_analyzer_multi_timeframe.go:57-109 | every message ever added is in exactly one of undelivered, pending and acked, and in the stream unless acked |
| RetryTheorems.AckedForever | internal/executor/service/stock_position_monitoring_multi_timeframe.go:317-337 | an acked message is never pending again |
| RetryTheorems.AckIsJustified | internal/executor/service/stock_position_monitoring_multi_timeframe.go:264-312 | an acked message was decodable, and had a successful execution or one that failed at a delivery count n of a retry with n + 1 at least MaxRetry |
| RetryTheorems.ClaimsAreDistinct | internal/executor/service/stock_analyzer_multi_timeframe.go:176-183 | within one idle time no message is claimed twice, whatever else happens |
| RetryTheorems.ClaimsAreBelow | internal/executor/service/stock_analyzer_multi_timeframe.go:176-183 | claims that pass over an idle message go to messages pending below it, and the idle message stays pending: nobody holds it any more, or it is not acked |
| RetryTheorems.RetryDoesNotStarve | internal/executor/service/stock_analyzer_multi_timeframe.go:58-64 | of p + 1 claims within one idle time, and of p + 1 calls if p is below ten, one takes an idle message with p pending below it, if the first timeout is at most the idle time; in any case one takes it or it is acked |
| RetryStarvation.RetryIsCertainExactly | internal/executor/delivery/consumer/consumer.go:53-58 | that one of them takes it in every run holds if and only if the first timeout is at most the idle time |
| RetryStarvation.GetsItsTurn | internal/executor/service/stock_position_monitoring_multi_timeframe.go:222-276 | with u malformed messages below it, u below ten and u intervals shorter than the idle time, an idle message is claimed by the next u + 1 ticks |
| RetryStarvation.StarvesExactly | internal/executor/service/stock_position_monitoring_multi_timeframe.go:266-276 | with u idle malformed messages pending below it, ticks at a fixed interval never claim an idle message if and only if u is at least ten or u intervals are at least the idle time |
| RetryStarvation.StarvationIsReachable | internal/executor/service/stock_analyzer_multi_timeframe.go:216-226 | whenever that condition holds, some run leaves a good message starving for good |
| RetryStarvation.ShippedRetriesStarve | configs/config-executor.yaml:25-33 | with the shipped settings two malformed messages do it to the position monitor and five to the analyzer |
| AttemptBudget.StepAccounts | internal/executor/service/stock_analyzer_multi_timeframe.go:197-261 | every step keeps the account of executions done and still possible against deliveries and lost acks |
| AttemptBudget.AttemptBound | internal/executor/service/stock_analyzer_multi_timeframe.go:98-105 | in every run a message has at most max(2, MaxRetry - 1) completed executions plus one for every ack that was lost |
| AttemptBudget.BudgetIsSpent | internal/executor/service/stock_analyzer_multi_timeframe.go:228-256 | that bound is reached in a run without a lost ack |
| AttemptBudget.ShippedConfigurations | configs/config-executor.yaml:25-33 | with the shipped settings executions never overlap and there are at most two, plus one per lost ack |
| RetryService.Deployment.AckNDel | internal/executor/service/stock_analyzer_multi_timeframe.go:163-173 | true exactly if both commands are carried out and answered; an applied XACK has acknowledged the message whatever follows, and only after an answered one is the entry deleted |
| RetryService.VerdictSpelledOut | internal/executor/service/stock_analyzer_multi_timeframe.go:228-261 | a message that does not decode is left alone; one that does is acknowledged if it succeeded, or if it failed as a retry at the limit; in no other case |
| RetryService.Deployment.Handle | internal/executor/service/stock_analyzer_multi_timeframe.go:84-107 | decode, execute, acknowledge: the execution is in the ledger under its kind, count and outcome, the result is the verdict on it, and where that calls for an ack an applied XACK has made it |
| RetryService.Deployment.ProcessTask | internal/executor/service/stock_position_monitoring_multi_timeframe.go:61-121 | a first delivery handles the next new message or nothing, and leaves no handler behind |
| RetryService.Deployment.ClaimOne | internal/executor/service/stock_analyzer_multi_timeframe.go:176-213 | under any interference, a handler that goes on has the message its claim took and the delivery count that claim produced; with nothing failing it does go on |
| RetryService.Deployment.ProcessRetries | internal/executor/service/stock_position_monitoring_multi_timeframe.go:222-315 | under any interference, the result is the one called for by the delivery count that the claim produced: it gives up exactly at the limit; no handler is left behind |
| RetryService.TraceGrows | internal/executor/service/stock_analyzer_multi_timeframe.go:57-263 | executions, acks and payloads are never taken back between two moments of a run |
| ConsumerLoops.RedisConsumer.Start | internal/executor/delivery/consumer/consumer.go:50-59 | three stream handlers and two ticker handlers, each retry handler with its claim's idle time as timeout |
| ConsumerLoops.TurnDecides | internal/executor/delivery/consumer/consumer.go:66-109 | between calls a stream handler begins another one unless it has been told to stop, and then ends; a ticker handler begins one at a tick and otherwise ends if told to |
| ConsumerLoops.CallEnds | internal/executor/delivery/consumer/consumer.go:62-77 | a call that returns leaves its loop selecting, a panic ends it and counts it off |
| ConsumerLoops.RedisConsumer.Stop | internal/executor/delivery/consumer/consumer.go:114-118 | panics exactly if the channel is closed already, and otherwise returns exactly when every loop has ended |
| ConsumerLoops.StopWaitsForCalls | internal/executor/delivery/consumer/consumer.go:61-118 | Stop returns exactly when every loop has ended, and nothing starts afterwards |
| ConsumerLoops.NoReadAfterClose | internal/executor/delivery/consumer/consumer.go:66-78 | no stream handler begins another call once the channel is closed |
| ConsumerLoops.RetriesAfterClose | internal/executor/delivery/consumer/consumer.go:96-109 | a ticker handler may begin any number of further calls |
| TaskAccounting.StepKeepsAccount | internal/executor/service/executor_service.go:62-153 | every step keeps the stream in order and every history's place, runs and writes in agreement with its status |
| TaskAccounting.RunningMeansOnePlace | internal/scheduler/service/scheduler_service.go:82-115 | a running history is in exactly one of being published, queued, in flight and dropped; a finished one in none |
| TaskAccounting.AtMostOnce | internal/executor/service/executor_service.go:63-124 | a history is run at most once, and its status written exactly once if it is final and never otherwise |
| TaskAccounting.FinalIsFinal | internal/executor/service/executor_service.go:126-153 | completed and failed never change, whatever any executor does |
| TaskOutcomes.StepKeepsTold | internal/executor/service/executor_service.go:126-153 | every step keeps goroutines and statuses in agreement with how the strategy returned |
| TaskOutcomes.StatusIsOutcome | internal/executor/service/executor_service.go:127-149 | in every run a final history is completed exactly if its one strategy call returned no error, and failed otherwise |
| TaskAccounting.TrimmedIsOld | internal/scheduler/service/scheduler_service.go:100-104 | MAXLEN costs an entry its place only if the stream then holds maxLen entries, all newer |
| TaskAccounting.StreamIsCapped | internal/scheduler/service/scheduler_service.go:100-104 | an XADD leaves the newest maxLen entries, its own included, or all of them without a cap |
| TaskAccounting.DishonestEnqueueReopens | internal/scheduler/service/scheduler_service.go:104-115 | with an XADD that enqueues and still reports an error, a failed history is run and completed |
| Semaphore.PermitsAreAccountedFor | internal/executor/service/executor_service.go:114-122 | the slots taken are exactly the goroutines between acquire and release, at most MaxConcurrentTasks, however tasks end |
| Semaphore.FreeSlotIsTaken | internal/executor/service/executor_service.go:114-116 | in every run a waiting goroutine gets a permit exactly if fewer than MaxConcurrentTasks goroutines of its process hold one |
| Semaphore.StepKeepsSound | pkg/utils/utils.go:46-55 | every step, a panic included, keeps that count |
| Firing.FiringSpacing | internal/scheduler/service/scheduler_service.go:67-134 | after a publish whose row was saved, the next one is not before the schedule's next instant |
| Firing.NoTickIsLost | internal/scheduler/repository/task_schedule_repository.go:65-75 | in every run a poll returns exactly the active schedules without a next execution or with one that is due, and so after a saved publish exactly from its next instant on |
| Firing.PublishesPerInterval | internal/scheduler/repository/task_schedule_repository.go:65-75 | saved publishes in an interval are at most one more than its cron instants |
| Firing.PublishesAreFresh | internal/scheduler/service/scheduler_service.go:82-104 | in every run the publishes of all schedules carry different histories, each of them created |
| Firing.AdvanceIsPaidFor | internal/scheduler/service/scheduler_service.go:117-133 | in every run next_execution moves only in the step that saves the publish just accepted, whose history no other publish carries, and to its next instant |
| TaskServices.System.PublishTask | internal/scheduler/service/scheduler_service.go:79-134 | the outcome for each failing call, the scheduler's tables after it, one new history if it was created, and that history failed or abandoned after a refused XADD |
| TaskServices.PublishSpelledOut | internal/scheduler/service/scheduler_service.go:89-133 | where each failing call ends a publish; an accepted one is entered under its history and time; the row moves to the next instant exactly if it parses and is saved; no other schedule is touched |
| TaskServices.System.RefuseTask | internal/scheduler/service/scheduler_service.go:104-115 | a refused XADD leaves schedule rows alone and marks the history failed, or abandons it if that write is lost |
| TaskServices.System.ProcessJobs | internal/scheduler/service/scheduler_service.go:67-77 | one round publishes every due schedule once, touches no other, and moves a row only with a saved publish |
| TaskServices.System.ProcessTask | internal/executor/service/executor_service.go:62-124 | a goroutine is spawned exactly if an entry was read, decoded and its job found, for that entry's history; otherwise the history is dropped; the entry is deleted either way |
| TaskServices.System.Lookup | internal/executor/service/executor_service.go:92-112 | a payload that does not decode or a job that is not found ends the task |
| TaskServices.System.Goroutine | internal/executor/service/executor_service.go:114-122 | it waits for a permit; once it has one it runs the history once and returns the permit |
| TaskServices.System.ExecuteAndUpdate | internal/executor/service/executor_service.go:126-153 | a written status is completed if there was a strategy and it returned no error, and failed otherwise; runs and writes go up by one where made; a panic or a lost write leaves the status and drops the history |
| TaskServices.System.UpdateHistory | internal/executor/service/executor_service.go:146-152 | the final write sets completed or failed, as the strategy returned, and counts once; if lost, the status stays and the history is dropped |
| TokenLimiter.WindowBound | pkg/ratelimit/token.go:26-56 | in any window of length L at most capacity * (L / period + 2) tokens are granted, under every interleaving |
| TokenLimiter.AgeBound | pkg/ratelimit/token.go:26-56 | until age t at most capacity * (t / period + 1) tokens are granted |
| TokenLimiter.WindowBoundIsReached | pkg/ratelimit/token.go:31-53 | the window bound is attained for every window length, capacity and start |
| TokenLimiter.RunKeeps | pkg/ratelimit/token.go:10-14 | remaining stays within 0 and capacity, and refills are at least one period apart |
| TokenLimiter.RemainingIsUnspent | pkg/ratelimit/token.go:26-56 | in every run, with any requests, remaining is the capacity less the tokens granted since the last refill that fired |
| TokenLimiter.RefusedOnlyIfSpent | pkg/ratelimit/token.go:26-45 | in every run a waiter is refused exactly if at each of its looks the tokens granted since the last refill and its request exceed the capacity |
| TokenLimiter.OversizedIsNeverGranted | pkg/ratelimit/token.go:31-35 | no grant exceeds the capacity |
| TokenLimiter.NegativeRequestOverfills | pkg/ratelimit/token.go:31-32 | in every run the bucket stays within its capacity if and only if no allowed request is negative |
| TokenLimiter.WaitingIsARun | pkg/ratelimit/token.go:26-45 | waiting is an interleaving like any other, and ends granted only by taking its tokens |
| TokenLimiter.TokenLimiter.constructor | pkg/ratelimit/token.go:17-24 | a new limiter is full and was last refilled now |
| TokenLimiter.TokenLimiter.DoRefill | pkg/ratelimit/token.go:47-56 | exactly if a period has passed since the last refill the bucket is full and refilled now; else nothing changes |
| TokenLimiter.TokenLimiter.TryTake | pkg/ratelimit/token.go:30-36 | it succeeds exactly if the grants since the last refill and the request fit into the capacity, and then takes exactly the request; else nothing changes |
| TokenLimiter.TokenLimiter.Wait | pkg/ratelimit/token.go:26-45 | granted exactly if the request fits at some look; the grant is the last one logged |
| TokenLimiter.TokenLimiter.GetRemaining | pkg/ratelimit/token.go:58-62 | the capacity less the grants since the last refill: exactly the requests up to it would be granted at once; without negative requests so far it lies between 0 and the capacity |
| PriceAlert.StepKeepsInv | internal/executor/strategy/stock_price_alert.go:231-257 | every check keeps the cache equal to the last recorded alert of each key |
| PriceAlert.EveryCheckIsExplained | internal/executor/strategy/stock_price_alert.go:259-300 | in every run an alert goes out exactly if the cache could be read and no unexpired recorded alert within the threshold suppresses it |
| PriceAlert.ResentExactly | internal/executor/strategy/stock_price_alert.go:283-299 | in every run a check whose cache read succeeds sends exactly if its key has no unexpired recorded alert, or the price is the threshold or more above or below that alert's |
| PriceAlert.AlertBound | internal/executor/strategy/stock_price_alert.go:272-300 | alerts of a key, each recorded and before the previous one expires, number at most 1 + 100 V / (threshold * lowest), V being the total variation of the prices checked |
| PriceAlert.AlertBoundIsReached | internal/executor/strategy/stock_price_alert.go:289-295 | that bound is attained |
| PriceAlert.SharedAlert | internal/executor/strategy/stock_price_alert.go:256-260 | positions share the key: a second one at the same price is told exactly if the threshold is not positive or the alert has expired |
| PriceAlertStrategy.Scan | internal/executor/strategy/stock_price_alert.go:141-170 | a market price that reaches a target is reported now; failing that the last candle of the window that reaches it, with its time; else nothing |
| PriceAlertStrategy.LastHitIsLast | internal/executor/strategy/stock_price_alert.go:147-160 | a hit is kept if and only if the last candle that reaches the target does so at a positive price |
| PriceAlertStrategy.AlertIsConsidered | internal/executor/strategy/stock_price_alert.go:162-184 | with positive candle prices, an alert is considered if and only if the market or a candle of the window reached the target |
| PriceAlertStrategy.ZeroLowHidesStopLoss | internal/executor/strategy/stock_price_alert.go:156-159 | a later candle without a low price hides an earlier hit |
| PriceAlertStrategy.StockPriceAlertStrategy.GetLastAlertPrice | internal/executor/strategy/stock_price_alert.go:259-270 | the unexpired cached price, or zero |
| PriceAlertStrategy.StockPriceAlertStrategy.SendAlert | internal/executor/strategy/stock_price_alert.go:231-257 | the cache, the clock and the error after a check, in terms of the cached price, its expiry, the distance in percent and the calls that fail; an undelivered alert is recorded all the same |
| PriceAlertStrategy.StockPriceAlertStrategy.Process | internal/executor/strategy/stock_price_alert.go:107-221 | the checks one position causes and the results it appends |
| PriceAlertStrategy.ChecksOfPosition | internal/executor/strategy/stock_price_alert.go:172-195 | the take profit before the stop loss, each under its own key, at the price reached, with the job's threshold and cache duration, and only at a positive price |
| PriceAlertStrategy.OutcomesOfPosition | internal/executor/strategy/stock_price_alert.go:114-125 | no market data is a failure, no target reached a skip, and otherwise the last check made decides, after an extra failure if the position could not be saved |
| PriceAlertStrategy.StockPriceAlertStrategy.Execute | internal/executor/strategy/stock_price_alert.go:73-229 | a whole job is a run of checks, so the bounds above cover it |
| PriceAlertStrategy.PositionsInOrder | internal/executor/strategy/stock_price_alert.go:107-221 | positions are processed in order, each in the state the ones before it have left |
| PriceAlertStrategy.EveryPositionIsReported | internal/executor/strategy/stock_price_alert.go:197-220 | every position is reported, and twice exactly if a reached target could not be saved |
| PriceAlertStrategy.FailedCheckIsReported | internal/executor/strategy/stock_price_alert.go:172-216 | with the take profit reached, a failed check of it is reported whatever else happens if and only if the stop loss has not been reached as well |
| PriceAlertStrategy.SwingHidesFailure | internal/executor/strategy/stock_price_alert.go:184-195 | a rise and a fall in one window after which the failed check is reported as a success |
| MessageSplitter.FormatNewsSummaries | pkg/telegram/telegram_formatter.go:15-98 | the loop computes the greedy split |
| MessageSplitter.HeaderLength | pkg/telegram/telegram_formatter.go:26-35 | 41 bytes for the first header, 52 plus the digits of the part for the others |
| MessageSplitter.DigitsSpell | pkg/telegram/telegram_formatter.go:33 | the part number is spelled in decimal, without a leading zero |
| MessageSplitter.MessagesKeepEntries | pkg/telegram/telegram_formatter.go:40-97 | the messages are the numbered headers followed by the entries, all of them and in order |
| Packing.GreedyStaysAhead | pkg/telegram/telegram_formatter.go:80-92 | for any headers that do not get shorter, at every part the loop has sent at least as much as any other split |
| MessageSplitter.GreedyIsOptimal | pkg/telegram/telegram_formatter.go:15-98 | no in-order split within 4090 bytes has fewer messages, and if there is one the splitter's messages are within 4090 bytes too |
| MessageSplitter.WithinLimitIfPossible | pkg/telegram/telegram_formatter.go:80-88 | the limit is respected if and only if some in-order split respects it |
| MessageSplitter.LongEntryBreaksLimit | pkg/telegram/telegram_formatter.go:80-81 | within the limit no entry is longer than 4049 bytes |
| MessageSplitter.ShortEntriesKeepLimit | pkg/telegram/telegram_formatter.go:80-92 | if every entry fits behind the header of its own number the limit is respected |
| Markdown.StripUndoesEscape | pkg/utils/utils.go:85-107 | dropping the character before each special one is a left inverse of the escape |
| Markdown.EscapeIsInjective | pkg/utils/utils.go:85-107 | different texts have different escapes |
| Markdown.EscapeUndoesStrip | pkg/utils/utils.go:85-107 | exactly the texts whose specials are all preceded by a backslash are escapes |
| Markdown.EscapedLength | pkg/utils/utils.go:85-107 | one character more for each special |
| Markdown.SpecialsSpelledOut | pkg/utils/utils.go:87-104 | which eighteen characters are escaped |
| Markdown.EscapeGuards | pkg/utils/utils.go:87-104 | every special of the output is immediately preceded by a backslash |
| Markdown.TelegramShowsText | pkg/utils/utils.go:85-107 | a left-to-right backslash decoder gives the text back if and only if every backslash in it is last or before a special; so for every text without backslashes |
| Utf8.CleanToValidUTF8 | pkg/utils/utils.go:26-39 | the index loop keeps what decodes and drops the other bytes |
| Utf8.DecoderMeetsGrammar | pkg/utils/utils.go:29-30 | the decoder accepts exactly the characters of the grammar in section 4 of RFC 3629, with their length |
| Utf8.EncodeUndoesDecode | pkg/utils/utils.go:35 | writing a decoded rune gives its bytes back |
| Utf8.DecodeUndoesEncode | pkg/utils/utils.go:29-35 | every scalar value's encoding decodes to it, whatever follows |
| Utf8.CleanIsWellFormed | pkg/utils/utils.go:26-39 | the output is well-formed for every input |
| Utf8.CleanKeepsExactlyWellFormed | pkg/utils/utils.go:26-39 | the output equals the input if and only if that is well-formed |
| Utf8.CleanPassesWellFormed | pkg/utils/utils.go:30-35 | a well-formed prefix passes unchanged, a genuine U+FFFD included |
| Utf8.CleanIsIdempotent | pkg/utils/utils.go:26-39 | cleaning twice is cleaning once |
| Utf8.CleanIsTheOnly | pkg/utils/utils.go:28-37 | characters pass and, where none starts, one byte is dropped; no other function does that |
| Utf8.CleanIsSubsequence | pkg/utils/utils.go:26-39 | the output is a subsequence of the input |
| NewsSelection.FilterExistingNewsItems | internal/executor/strategy/stock_news_scraper_strategy.go:264-323 | panics exactly on an undated item, fails exactly with the lookup, and otherwise keeps the survivors in the order the map is walked |
| NewsSelection.LastPerHashIsLast | internal/executor/strategy/stock_news_scraper_strategy.go:270-279 | the map holds, for each hash of the feed, the last item with it |
| NewsSelection.SameHashKeepsLast | internal/executor/strategy/stock_news_scraper_strategy.go:275-279 | items are taken for the same exactly if link, bar and formatted date spell the same string, and then the last is kept |
| NewsSelection.SurvivorsAreRecent | internal/executor/strategy/stock_news_scraper_strategy.go:301-320 | the survivors are the entries that are not stored and no older than the limit, each once, whatever the order of the walk |
| NewsSelection.FilterNeverFindsStored | internal/executor/strategy/stock_news_scraper_strategy.go:275-305 | no item is ever found among the stored hashes, so the lookup removes nothing |
| NewsSelection.HashesDiffer | internal/executor/strategy/stock_news_scraper_strategy.go:339-342 | the hash looked up and the hash stored differ for any two items |
| NewsSelection.BeforeIsStrictWeakOrder | internal/executor/strategy/stock_news_scraper_strategy.go:501-531 | the comparator is a strict weak order whose ties are equal ranks: smaller priority first, then the later date |
| NewsSelection.SortItemsIsStable | internal/executor/strategy/stock_news_scraper_strategy.go:500-532 | the sort is ordered, a permutation, and stable |
| NewsSelection.ImportantThenNewest | internal/executor/strategy/stock_news_scraper_strategy.go:503-530 | of any two sorted items the first has a source priority no larger (by URL, "Unknown" without a source, 999 by default), and if equal is no older |
| NewsSelection.StableSortIsUnique | internal/executor/strategy/stock_news_scraper_strategy.go:501 | any stable sort gives that result |
| NewsSelection.SelectionIgnoresMapOrder | internal/executor/strategy/stock_news_scraper_strategy.go:264-323 | the sequence of priorities and dates to process is the same for every order of the map, sorted, and made of the survivors |
| NewsScraper.ProcessNewsItem | internal/executor/strategy/stock_news_scraper_strategy.go:325-407 | a failure names its link only if the insert is what failed |
| NewsScraper.WhatBecomesOfItem | internal/executor/strategy/stock_news_scraper_strategy.go:325-407 | exactly when an item is stored, skipped for its domain, or panics, and which link a failure reports |
| NewsScraper.WorkTakesPrefix | internal/executor/strategy/stock_news_scraper_strategy.go:205-237 | a prefix is handled, up to exhaustion, cancellation, quota or panic, whichever comes first, with at most MaxNews successes |
| NewsScraper.SuccessesCount | internal/executor/strategy/stock_news_scraper_strategy.go:223-235 | what counts towards the quota are the stored and the blacklisted items |
| NewsScraper.FailedLinksInOrder | internal/executor/strategy/stock_news_scraper_strategy.go:224-234 | every failure leaves its link, in order, and nothing else does |
| NewsScraper.ReportTells | internal/executor/strategy/stock_news_scraper_strategy.go:239-248 | a finished loop reports its query, the links of the failures it met and an error for each |
| NewsScraper.StatusTellsOutcome | internal/executor/strategy/stock_news_scraper_strategy.go:239-245 | SUCCESS, SKIPPED and FAILED mean all, none though some were tried, and a mixture |
| NewsScraper.StockNewsScraper.Process | internal/executor/strategy/stock_news_scraper_strategy.go:197-248 | the loop over the sorted items appends the specified result |
| NewsScraper.StockNewsScraper.ScrapeFeed | internal/executor/strategy/stock_news_scraper_strategy.go:162-249 | what one goroutine appends to the shared results |
| NewsScraper.InterruptedIsNotFinished | internal/executor/strategy/stock_news_scraper_strategy.go:208-221 | the loop does not finish if and only if some item, reached within the quota, is cancelled, or panics before the quota is met |
| NewsScraper.HowManyResults | internal/executor/strategy/stock_news_scraper_strategy.go:174-194 | from the feed, the lookup and the items: two results exactly after a failed lookup, the second a success; none exactly with an undated item or an interrupted loop; otherwise one |
| NewsStore.StepKeepsInv | internal/executor/repository/stock_news_repository.go:113-145 | every statement of every transaction keeps the hash locks, the unique hashes, the mention rows in progress under their own row number, and the attribution of mentions |
| NewsStore.FirstWriterWins | internal/executor/repository/stock_news_repository.go:118-129 | under any interleaving a hash has at most one row, exactly one once an insert of it succeeded, every mention points to a row, and a row's mentions are those of the insert that created it |
| NewsStore.RowsAreFinal | internal/executor/repository/stock_news_repository.go:127-129 | no later insert changes a committed row or its mentions |
| NewsRepository.CreateStores | internal/executor/repository/stock_news_repository.go:113-145 | a call without error is remembered as stored and leaves a row with its hash: its own with its mentions, where there was none before, or an earlier one |
| NewsRepository.CreateReports | internal/executor/repository/stock_news_repository.go:113-145 | exactly when a call returns an error, and exactly when it inserts a row |
| NewsRepository.DuplicateIsNoError | internal/executor/repository/stock_news_repository.go:127-129 | with the hash taken a call fails only if a statement or the commit does, inserts nothing and by itself leaves the tables alone |
| NewsRepository.FreeHashIsStored | internal/executor/repository/stock_news_repository.go:131-142 | a free hash nobody holds is stored, with its mentions, by a call in which nothing fails |
| NewsRepository.StockNewsRepository.CreateIgnoreConflict | internal/executor/repository/stock_news_repository.go:113-145 | the mentions are cleared; without error the hash has a row, the call's own with its mentions if the number changed; a taken hash is no error and keeps the number |

## Left out

- HTTP handlers, command lines, configuration loading, logging, prompts and HTML messages: plumbing and text.
- The strategies' other work and the calls to Gemini, Yahoo, Telegram and Google News: each is a success, a failure or a value chosen freely.
- XGROUP CREATE, consumer names and blocking reads: one group per stream that reads from its beginning.
- Updates of `LastMonitorPositionAt`, `LastPriceAlertAt` and the cached last price: nothing reads them in what is modelled.
- API edits that race with `publishTask`, and deletes that cascade: no interference with the rows in question.
- A schedule query that fails: the round ends with nothing done.
- RetryService.Deployment.ProcessTask: the Telegram notice sent when a message is given up is not modelled.
- RetryStarvation.StarvesExactly: one process claims, once per interval; with several the ticks interleave and come more often.
- TokenLimiter.TokenLimiter.Wait: the 100 ms pause is whatever others do while the waiter sleeps.
- PriceAlert.AlertBound: a check of a key is one step from reading the cache to recording; two runs of the job at the same time could both read before either records.
- PriceAlert.SharedAlert: an expiry of exactly -1 ns, which go-redis treats as "keep the time to live", counts as no expiry.
- PriceAlertStrategy.StockPriceAlertStrategy.Execute: decoding the payload and reading the positions, which fail the whole job, are not modelled.
- MessageSplitter.FormatNewsSummaries: entries are byte strings; how a summary is rendered into one is not modelled.
- Utf8.CleanToValidUTF8: `html.UnescapeString`, which `SafeText` applies first, is not part of this model.
- NewsSelection.SortItemsIsStable: `sort.SliceStable` is a library call, so the sort is a function and not an algorithm on an array.
- NewsScraper.StockNewsScraper.ScrapeFeed: building the queries, fetching the feeds and the semaphore over queries are not modelled; each goroutine appends on its own.
- NewsStore.FirstWriterWins: columns other than the hash are not modelled.
