# Rate-governed queue consumer and HTTP producer, modelled in Dafny

The system is a pair of services around one message queue. The producer
takes an HTTP request. When the request passes its checks, the producer
enqueues one freshly generated identifier per unit of the requested
quantity. The consumer takes messages one at a time (prefetch 1). It pads
the work on each message up to a minimum duration derived from a target rate.
It acks the message on success and nacks it with requeue on failure.

The model has three modules:

- `Transport` (`transport.dfy`) is the queue channel as the services see it.
  It is a class with three fields: the waiting messages (`ready`), one unacked
  slot (prefetch 1) and the log of acked messages. It has `SendToQueue`,
  `Deliver`, `Ack` and `Nack` (requeue).
- `Consumer` (`consumer.dfy`) holds the rate configuration and the timing
  gate (`TimeToIdle`, `Occupancy`). It has the simulated work time, a pure
  specification of the queue state machine (`Settle`, `Consume`) and the
  consume callback and subscription loop as methods (`HandleDelivery`, `Run`)
  proved against that specification. It also has the throughput facts:
  spacing between completions, the per-second ceiling, and the absence of
  carry-over between messages.
- `Producer` (`producer.dfy`) models the path regular expression as a search
  over start positions. It has the check chain as a pure function
  (`Classify`) and the request listener with its counted send loop as a
  method (`HandleRequest`).

Time is a natural number of milliseconds. The outcome of each message's work
is a parameter: it resolved after `resolvedAfter` ms, or it threw after some
time. The clock is the sum of the time each delivery kept the consumer busy.
Random draws (`Math.random`, `crypto.randomUUID`) are parameters.

Three behaviours of the code worth stating up front:

- The pattern `/\/?produce\/?/` is unanchored, so any URL containing
  `produce` passes the path check (`PathMatchesIffContainsProduce`,
  `UnanchoredPathMatches`).
- For quantities up to 2^53, the send loop `i < quantity` runs
  `ceil(quantity)` times, so a fractional quantity enqueues one message more
  than its whole part (`SendCount`, `AcceptedCount`).
- The content type must equal `application/json` exactly. A parameter such
  as `; charset=utf-8` gives 415 (`RequestExamples`).

## Model

| member | source | states |
|---|---|---|
| `Consumer.PerInstanceRate` | src/consumer.js:21 | the per-instance rate is the floor of global target / instance count: `r * count <= target < (r + 1) * count` |
| `Consumer.MinExecutionTime` | src/consumer.js:22 | `m = ceil(1000 / r)` is the least duration with `m * r >= 1000`, i.e. `(m - 1) * r < 1000`, and `1 <= m <= 1000` |
| `Consumer.MakeRateConfig` | src/consumer.js:12-22 | a configuration is produced exactly when count >= 1 and target >= count (per-instance rate >= 1); it is then valid and the instances' ceilings together stay within the global target |
| `Consumer.DefaultConfig` | src/consumer.js:12-22 | with nothing set, the consumer runs 10 messages per second with a 100 ms minimum |
| `Consumer.MinExecutionTimeAsWritten` | src/consumer.js:22 | as written, `Math.ceil(1000 / rate)` is exactly `Finite(MinExecutionTime(rate))` for rate >= 1 (so, by `MinExecutionTime`'s contract, `m * rate >= 1000`), and `Infinity` for rate 0 |
| `Consumer.ZeroRateHasNoFiniteMinimum` | src/consumer.js:21-22 | target 5 over 10 instances gives rate 0: the minimum is `Infinity`, no duration makes rate 0 fill a second, and the corrected configuration rejects it |
| `Consumer.TimeToIdle` | src/consumer.js:38-40 | idle time is 0 when the work took at least the minimum, exactly `minimum - resolvedAfter` otherwise; work plus idle equals `max(minimum, resolvedAfter)` |
| `Consumer.WorkDuration` | src/consumer.js:34-36 | the simulated work time `floor(random * 80 + 20)` lies in [20, 99] for random in [0, 1) |
| `Consumer.Occupancy` | src/consumer.js:38-44 | a handled delivery occupies at least the minimum and at least its work time: exactly the work time when that is longer, exactly the minimum otherwise; a failed one occupies its own elapsed time |
| `Consumer.ElapsedAdditive` | src/consumer.js:38-44 | no carry-over: the time of two runs back to back is the sum of their times |
| `Consumer.ElapsedCoversSuccesses` | src/consumer.js:38-44 | a serialized run takes at least (handled messages) x minimum |
| `Consumer.SuccessSpacing` | src/consumer.js:40-44 | between the i-th and j-th completion at least one minimum duration passes per message handled in between |
| `Consumer.RateCeiling` | src/consumer.js:21-44 | a run that fits in `seconds` seconds handles at most `perInstance * seconds` messages |
| `Consumer.Settle` | src/consumer.js:66-74 | one delivery settled: acked exactly when handled, otherwise requeued at the tail; never lost or duplicated |
| `Consumer.ConsumeConserves` | src/consumer.js:66-74 | over any run every message is still queued or acked, and the acked log only grows |
| `Consumer.ConsumeAcksSuccesses` | src/consumer.js:66-74 | the run's number of new acks equals the number of handled outcomes among the deliveries it settled |
| `Consumer.ConsumeStopsWhenDrained` | src/consumer.js:63-66 | the run settles fewer deliveries than outcomes only if the queue is empty |
| `Consumer.HandleDelivery` | src/consumer.js:66-74 | the callback acks the delivered message on success and nacks it with requeue on failure; it returns the time the delivery occupied |
| `Consumer.Run` | src/consumer.js:63-74 | the subscription loop leaves the channel in the state `Consume` specifies. It settles `Processed` deliveries in `Elapsed` time and stops early only on an empty queue. It loses no message, and its new acks times the minimum fit in the time spent |
| `Transport.Channel.SendToQueue` | src/producer.js:60 | publishing appends the message at the back of the queue and changes nothing else |
| `Transport.Channel.Deliver` | src/consumer.js:63-66 | with prefetch 1, nothing is delivered while a message is unacked or the queue is empty; otherwise the head moves to the unacked slot |
| `Transport.Channel.Ack` | src/consumer.js:69 | ack removes the unacked message for good, into the acked log |
| `Transport.Channel.Nack` | src/consumer.js:72 | nack with requeue puts the unacked message back behind the waiting ones |
| `Producer.Search` | src/producer.js:25 | the unanchored match succeeds exactly when the pattern matches at some start position |
| `Producer.PathMatchesIffContainsProduce` | src/producer.js:25 | the path check accepts exactly the URLs containing `produce` |
| `Producer.ProducePathMatches` | src/producer.js:25 | `/produce` and `/produce/` pass the path check |
| `Producer.UnanchoredPathMatches` | src/producer.js:25 | `/reproduce` and `/other?next=produce` also pass |
| `Producer.ContainedWordMatches` | src/producer.js:25 | any prefix followed by `produce` passes |
| `Producer.OtherPathRejected` | src/producer.js:25-29 | `/other` fails the path check |
| `Producer.DefaultQuantity` | src/producer.js:50 | the default quantity lies in [10, 50) |
| `Producer.SendCount` | src/producer.js:58 | for quantities up to 2^53, the loop runs `ceil(quantity)` times, exactly `quantity` times for a whole number, and at least once |
| `Producer.Classify` | src/producer.js:25-56 | the verdict is one of 404/405/415/400 or an acceptance of at least one message |
| `Producer.AcceptedIff` | src/producer.js:25-56 | a request is accepted iff path, method, content type and quantity checks all pass |
| `Producer.CheckOrder` | src/producer.js:25-56 | path is checked before method, method before content type, content type before quantity; a 400 is given if and only if the three header checks pass and the quantity is not finite or below 1 |
| `Producer.AcceptedCount` | src/producer.js:50-58 | an accepted explicit quantity q sends `ceil(q)` messages (q when whole); a missing quantity sends between 10 and 50 |
| `Producer.RequestExamples` | src/producer.js:25-64 | quantity 5 sends 5 and quantity 0 gives 400. Quantity 2.5 sends 3. GET gives 405 and `/other` gives 404. `text/plain`, `application/json; charset=utf-8` and a missing header each give 415 |
| `Producer.Uuids` | src/producer.js:58-60 | the n identifiers are the ones generated in iterations 0..n-1, in order |
| `Producer.HandleRequest` | src/producer.js:23-67 | the listener answers `Classify`'s status. On every error status it enqueues nothing. On acceptance it appends exactly `count` fresh identifiers and answers 204 |

## Findings

| source | as written | input that shows it | evidently intended | confidence | as-written member | corrected member |
|---|---|---|---|---|---|---|
| src/consumer.js:21-22 | the per-instance rate is not checked; when it floors to 0, `MIN_EXECUTION_TIME_IN_MS` is `Math.ceil(1000 / 0) = Infinity` | `MAX_IN_PROGRESS_PER_SECOND=5`, `CONSUMERS_COUNT=10` | a rate below 1 per instance is a configuration error, so only a rate >= 1 with a finite minimum duration is accepted | not executed | `Consumer.ZeroRateHasNoFiniteMinimum` | `Consumer.MakeRateConfig` |

With rate 0, `timeToIdle` is `Infinity`. Node's `setTimeout` replaces such a
delay with 1 ms, so in practice the consumer is not throttled at all. The
timer runtime is not part of this model. The rest of the model works on a
`RateConfig` with `Valid()`, the property `MakeRateConfig` guarantees.

## Left out

- Connection set-up and `bootstrap` (amqplib `connect`, `createChannel`,
  `assertQueue`, `prefetch`) are foreign network calls. The channel is the
  `Transport.Channel` class, and prefetch 1 is the `Deliver` rule.
- Graceful shutdown (`nackAll`, `close`, `process.exit`, signal wiring) is
  asynchronous process lifecycle and is not modelled.
- Real time (`Date.now`, `setTimeout`) is not modelled. `resolvedAfter` is a
  parameter, not derived from `WorkDuration`. Node's rounding of timer delays
  (a 0 ms timeout still waits about 1 ms) is not modelled either.
- `Math.random`, `crypto.randomUUID` and `crypto.randomBytes` are parameters.
  Uniqueness of the identifiers cannot be stated.
- `JSON.parse` is not modelled. The body is taken already parsed, as its
  `quantity` field. A malformed body makes the `end` handler throw an uncaught
  exception, and a body of `null` fails destructuring; neither is modelled.
- Body accumulation through `data`/`end` events and the HTTP server are not
  modelled. The model covers only the decision and the send loop.
- `src/logger.js` and the log payload of `handleMessage` are output
  formatting with a clock, and are not modelled.
- Environment values are naturals. `Number()` of a non-numeric, negative or
  fractional string is not modelled. The as-written JavaScript result for
  `CONSUMERS_COUNT=0` (division by zero) is not modelled; the corrected
  configuration rejects it.
- SendCount, HandleRequest: numbers are exact. `quantity`, `Math.random()`
  and the environment values are modelled as exact reals or naturals, not
  IEEE doubles. Above 2^53 the JavaScript loop counter `i += 1` stops
  growing (2^53 + 1 rounds back to 2^53), so for a finite quantity such as
  `1e17` the send loop never ends and keeps calling `sendToQueue`. The model
  does not capture this: on exact numbers `SendCount` counts
  `ceil(quantity)` iterations and `HandleRequest` always terminates.
- Which exceptions `handleMessage` can throw is not modelled. A failure is
  an outcome given per delivery.
- Cross-instance coordination does not exist in the code. The global bound
  appears only as the division in `MakeRateConfig`.
- Requeue position: a broker such as RabbitMQ puts a requeued message back
  at its original position where it can, near the head of the queue. Putting
  it at the back, as `Transport.Channel.Nack` and `Consumer.Settle` do, is an
  assumption of the model. No proved property about a run
  (`ConsumeConserves`, `ConsumeAcksSuccesses`, `ConsumeStopsWhenDrained`)
  depends on it; only the order of later deliveries does.
