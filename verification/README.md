# RabbitMQ worker autoscaler, publisher and consumer — a Dafny model

This project models the parts of the `docker-samples` pub/sub demos that make decisions:

- **Autoscaler.** `docker-mq-pub-sub-autoscale-demo/autoscaler/autoscale.py` polls the RabbitMQ backlog and keeps a low-backlog streak. It picks a desired number of worker containers and starts or stops containers through the docker CLI, with a cooldown between changes. It also has a best-effort purge of the containers it started, and it works out its own container id for its log lines.
- **Publisher.** `docker-mq-pub-sub-autoscale-demo/publisher/publisher.py` holds one broker connection. It numbers the messages it publishes, publishes batches with pauses between messages, and its `/publish/batch` handler can synthesise test messages.
- **Consumer.** `k8s-mq-keda-pub-sub-autoscale-demo/flattened/consumer--consumer.py` connects with a bounded retry. It acks or nacks each delivery and keeps counters, and it has two ways of stopping.

Every call to the outside is a parameter of the model: the docker CLI, the management API, pika, the clock and `process_message`. A call that happens several times in a batch or a run is an oracle `nat -> Answer`, indexed by the item's position. So each contract holds for every way those calls can succeed or fail.

Modules, one file each:

- `Wrappers` (wrappers.dfy): `Option`.
- `PyText` (py_text.dfy): the Python `str` operations the code relies on. These are `str(n)`, `int(s)` with the whitespace it skips, `strip()`, `splitlines()`, `split(sep)[-1]`, `isalnum()`, `replace` and slicing.
- `BrokerClient` (broker_client.dfy): the `RABBITMQ_PORT` rule shared by the publisher and the consumer, and the three states of their `connection` attribute.
- `ScalingPolicy` (scaling_policy.dfy): the pure desired-count computation of `main`.
- `ContainerIdentity` (container_id.dfy): `get_container_id`.
- `Fleet` (fleet.dfy): `get_running_workers`, `scale_workers` and `cleanup_dynamic_workers` over docker CLI answers.
- `ControlLoop` (control_loop.dfy): the class `Autoscaler`, which holds `DOWN_STREAK` and `last_scale_time`. It has one method per poll cycle and one per run of cycles.
- `Publisher` (publisher.dfy): the class `RabbitMQPublisher` and the batch handler's plan.
- `Consumer` (consumer.dfy): the class `RabbitMQConsumer`.

Main results:

- **The sustained-low rule is dead.** The third rule of the desired-count chain (line 276) never sets the desired count. The streak is updated from the same backlog earlier in the cycle, so when `DOWN_STREAK >= 3` holds, the line-274 guard holds too, and that branch comes first. Therefore the streak never influences a decision (`ScalingPolicy.SustainedLowNeverFires`, `ScalingPolicy.DesiredIgnoresStreak`).
- **The third rule would fire only for a stale streak.** With the defaults, three workers, a backlog of 50 and a streak of 3 take the third branch (`ScalingPolicy.SustainedLowNeedsStaleStreak`). The streak update of lines 263-266 never produces a streak of 3 at a backlog of 50, because it resets the streak whenever the backlog is above the scale-down threshold. An empty queue still makes a pool above `MIN` ask for exactly `MIN` workers, whatever the streak (`ScalingPolicy.EmptyQueueGoesToMin`). Whether the pool gets there in that cycle depends on the cooldown and on the docker calls.
- **Scale-down is not clamped to `MAX_CONTAINERS`**, whereas scale-up is (line 273 clamps, line 275 does not). The desired count stays within `[MIN, MAX]` when the scale-down threshold needs no more than `MAX` workers (`ScalingPolicy.DesiredWithinBounds`). Otherwise it can exceed `MAX` (`ScalingPolicy.ScaleDownCanExceedMax`).
- **The scale-up branch can shrink the pool.** With the defaults, a backlog of 150 takes the scale-up branch and asks for one worker while five are running (`ScalingPolicy.ScaleUpCanShrink`).
- **The port rule accepts a signed value.** A setting such as `-5` becomes a negative port (`BrokerClient.ParsePortAcceptsNegative`).

## Model

| member | source | states |
|---|---|---|
| ScalingPolicy.SafeMpw | docker-mq-pub-sub-autoscale-demo/autoscaler/autoscale.py:30-31 | the divisor is at least 1 and at least `MESSAGES_PER_WORKER`, and is one of the two |
| ScalingPolicy.CeilDiv | docker-mq-pub-sub-autoscale-demo/autoscaler/autoscale.py:273-277 | the exact ceiling of `a / b`, the least `q` with `a <= q * b`: `(q - 1) * b < a <= q * b`; Python's float division gives the same for backlogs below 2^53 (see "Left out") |
| ScalingPolicy.CeilDivMonotone | docker-mq-pub-sub-autoscale-demo/autoscaler/autoscale.py:274-275 | `math.ceil(a / b)` is monotone in `a`, so a backlog at or below the scale-down threshold needs no more workers than the threshold itself |
| ScalingPolicy.DesiredCount | docker-mq-pub-sub-autoscale-demo/autoscaler/autoscale.py:270-277 | the desired count is at least `MIN` (or `MAX` when `MIN > MAX`), and never below the current count when no rule fires; `FiringRule` picks the branch by the guards of lines 272, 274 and 276 in that order; the rows below bound each branch, state what the backlog branches serve, and give examples |
| ScalingPolicy.StreakPositiveIffLow | docker-mq-pub-sub-autoscale-demo/autoscaler/autoscale.py:263-266 | about `NextStreak`, the streak update itself: the new streak is positive exactly when this cycle's backlog is at or below the scale-down threshold |
| ScalingPolicy.SustainedLowNeverFires | docker-mq-pub-sub-autoscale-demo/autoscaler/autoscale.py:263-277 | with the streak updated from the same backlog, the `DOWN_STREAK >= 3` branch is never the one that sets the desired count |
| ScalingPolicy.DesiredIgnoresStreak | docker-mq-pub-sub-autoscale-demo/autoscaler/autoscale.py:263-277 | the desired count after the streak update equals the one a zero streak gives, for every streak |
| ScalingPolicy.SustainedLowNeedsStaleStreak | docker-mq-pub-sub-autoscale-demo/autoscaler/autoscale.py:276-277 | with the defaults, 3 workers, a backlog of 50 and a streak of 3 not derived from that backlog, the third branch would fire |
| ScalingPolicy.BacklogBranchesServeQueue | docker-mq-pub-sub-autoscale-demo/autoscaler/autoscale.py:272-275 | when the scale-up or scale-down branch decides, the desired count covers the backlog at `SAFE_MPW` messages per worker (`queue_length <= desired * SAFE_MPW`) unless scale-up was capped at `MAX`, and it is the least count that does, unless `MIN` or `MAX` forces it |
| ScalingPolicy.DesiredBounds | docker-mq-pub-sub-autoscale-demo/autoscaler/autoscale.py:270-277 | with `MIN <= MAX` and `current <= MAX`, the desired count is at least `MIN`, and at most `MAX` when the baseline or scale-up branch decides |
| ScalingPolicy.DesiredWithinBounds | docker-mq-pub-sub-autoscale-demo/autoscaler/autoscale.py:263-277 | when the scale-down threshold needs at most `MAX` workers, every cycle's desired count lies in `[MIN, MAX]` |
| ScalingPolicy.ScaleDownCanExceedMax | docker-mq-pub-sub-autoscale-demo/autoscaler/autoscale.py:274-275 | with `MAX = 2` and one message per worker, 2 workers and a backlog of 10 ask for 10 workers |
| ScalingPolicy.ScaleUpCanShrink | docker-mq-pub-sub-autoscale-demo/autoscaler/autoscale.py:272-273 | with the defaults, 5 workers and a backlog of 150 take the scale-up branch and ask for 1 worker |
| ScalingPolicy.EmptyQueueGoesToMin | docker-mq-pub-sub-autoscale-demo/autoscaler/autoscale.py:270-277 | with an empty queue, a pool above `MIN` asks for exactly `MIN` workers, whatever the streak |
| ContainerIdentity.GetContainerId | docker-mq-pub-sub-autoscale-demo/autoscaler/autoscale.py:37-61 | the first cgroup line mentioning docker whose last `/` segment has 64 characters gives that segment's first 12; without one the result is `hostname[:12]` or `"unknown"`; always 1 to 12 characters |
| Fleet.RunningWorkers | docker-mq-pub-sub-autoscale-demo/autoscaler/autoscale.py:123-133 | a failed listing (non-zero exit) and blank output read as no workers; an `OSError` from running the CLI, and only that, propagates |
| Fleet.RunningWorkersOfOutput | docker-mq-pub-sub-autoscale-demo/autoscaler/autoscale.py:125-130 | the listing reads back exactly the container ids docker printed, one per line, in order |
| Fleet.WorkerNameSuffix | docker-mq-pub-sub-autoscale-demo/autoscaler/autoscale.py:144 | about `WorkerName`, the line-144 name: the text after its last `-` is the batch index |
| Fleet.WorkerNamesDistinct | docker-mq-pub-sub-autoscale-demo/autoscaler/autoscale.py:143-144 | two different indices give different names, even when the clock moved between them |
| Fleet.StartWorkers | docker-mq-pub-sub-autoscale-demo/autoscaler/autoscale.py:140-186 | starts are attempted in index order until the first missing CLI, or all `n`; each record holds the name and answer; the result is a change exactly when no answer was a missing CLI and one succeeded |
| Fleet.StopWorkers | docker-mq-pub-sub-autoscale-demo/autoscaler/autoscale.py:188-203 | each id gets a stop and, only after a successful stop, a remove, in order until the CLI goes missing; the result is a change exactly when a pair fully succeeded and the CLI never went missing |
| Fleet.OldestFirst | docker-mq-pub-sub-autoscale-demo/autoscaler/autoscale.py:189-190 | `workers[:count]` is the prefix of length `count`, clamped to `[0, len(workers)]` |
| Fleet.ScaleWorkers | docker-mq-pub-sub-autoscale-demo/autoscaler/autoscale.py:135-205 | against its own listing, it starts `desired - current` workers, stops the first `current - desired` listed ones, or does nothing and reports no change; an `OSError` while listing ends the process |
| Fleet.ScaleAgainst | docker-mq-pub-sub-autoscale-demo/autoscaler/autoscale.py:137-205 | for a listing of `workers`: more desired than listed starts exactly the difference and stops nothing; fewer stops the first `current - desired` listed workers and starts nothing; equal issues nothing and reports no change |
| Fleet.StartsAllAttempted | docker-mq-pub-sub-autoscale-demo/autoscaler/autoscale.py:143-186 | with the CLI present throughout, exactly `n` starts are attempted |
| Fleet.StartedNamesDistinct | docker-mq-pub-sub-autoscale-demo/autoscaler/autoscale.py:143-144 | the names of one batch of starts are pairwise distinct |
| Fleet.StartChangedIffRecordedSuccess | docker-mq-pub-sub-autoscale-demo/autoscaler/autoscale.py:138-186 | read off the recorded calls: a change is reported exactly when no recorded start found the CLI missing and one succeeded |
| Fleet.StopsTargetListingOrder | docker-mq-pub-sub-autoscale-demo/autoscaler/autoscale.py:188-196 | with the CLI present, every given id is stopped once, in order, and a remove is issued exactly after a successful stop |
| Fleet.StopChangedIffRecordedPair | docker-mq-pub-sub-autoscale-demo/autoscaler/autoscale.py:188-205 | read off the recorded calls: a change is reported exactly when no call found the CLI missing and some stop and remove both succeeded |
| Fleet.NonEmptyLines | docker-mq-pub-sub-autoscale-demo/autoscaler/autoscale.py:216 | the ids are exactly the non-empty lines, and no more of them than lines |
| Fleet.CleanupDynamicWorkers | docker-mq-pub-sub-autoscale-demo/autoscaler/autoscale.py:207-231 | every non-empty listed id gets a stop, in order, and a remove unless the stop raised; nothing stops the loop; a listing that fails is logged and purges nothing |
| Fleet.PurgeTargetsOutput | docker-mq-pub-sub-autoscale-demo/autoscaler/autoscale.py:210-216 | the purge targets exactly the containers docker listed, in its order |
| ControlLoop.QueueLength | docker-mq-pub-sub-autoscale-demo/autoscaler/autoscale.py:114-121 | a present `messages` field is the backlog; a non-zero backlog comes only from such a field, so a failed fetch and a missing field read as 0 |
| ControlLoop.OutageShrinksToMin | docker-mq-pub-sub-autoscale-demo/autoscaler/autoscale.py:119-121 | a failed backlog fetch makes a pool above `MIN` ask for exactly `MIN` workers |
| ControlLoop.StreakIsTrailingLowRun | docker-mq-pub-sub-autoscale-demo/autoscaler/autoscale.py:252-266 | from a fresh start, `DOWN_STREAK` is the length of the run of low backlogs that ends the history, and the cycle before that run was above the threshold |
| ControlLoop.Autoscaler.constructor | docker-mq-pub-sub-autoscale-demo/autoscaler/autoscale.py:252-257 | streak and last scale time start at 0 |
| ControlLoop.Autoscaler.Cycle | docker-mq-pub-sub-autoscale-demo/autoscaler/autoscale.py:259-289 | the streak update; no action when the desired count equals the current count; no action inside the cooldown; otherwise `scale_workers(desired)`, with the last scale time moved to `now` exactly when it reports a change |
| ControlLoop.Autoscaler.Run | docker-mq-pub-sub-autoscale-demo/autoscaler/autoscale.py:251-291 | the loop runs every cycle unless one crashes, and then that one is the last; cycle `j` follows `CycleSpec` on `inputs[j]` from the state the previous cycle left, starting from the state before the run and ending in the final state; the streak is the fold of the backlogs seen; the last scale time is the clock of the latest cycle that changed the pool, or the initial one when none did |
| ControlLoop.TraceAt | docker-mq-pub-sub-autoscale-demo/autoscaler/autoscale.py:258-289 | in a run's trace, cycle `j` took the state left by cycle `j - 1` to the next one as one pass of the loop body prescribes, on its own input |
| ControlLoop.CycleEffect | docker-mq-pub-sub-autoscale-demo/autoscaler/autoscale.py:263-287 | a cycle sets the streak from its own backlog, and moves the last scale time to its clock reading exactly when `scale_workers` reported a change |
| ControlLoop.UnchangedActionKeepsCooldownOpen | docker-mq-pub-sub-autoscale-demo/autoscaler/autoscale.py:285-289 | an action that changed nothing leaves the last scale time unchanged, so the next cycle may retry |
| ControlLoop.ChangesAreCooldownApart | docker-mq-pub-sub-autoscale-demo/autoscaler/autoscale.py:279-287 | the last scale time moves only on an action taken at least `COOLDOWN_PERIOD` after the previous change, and it moves to that cycle's clock |
| BrokerClient.TrailingPortDigits | docker-mq-pub-sub-autoscale-demo/publisher/publisher.py:54 | a match of `:(\d+)$` is a non-empty run of digits |
| BrokerClient.ParsePort | docker-mq-pub-sub-autoscale-demo/publisher/publisher.py:51-61 | a `tcp://` setting gives a non-negative port, 5672 without trailing `:digits`; any other setting that `int()` rejects gives 5672 |
| BrokerClient.ParsePortTcpRoundTrip | docker-mq-pub-sub-autoscale-demo/publisher/publisher.py:52-55 | `tcp://<host>:<n>` gives `n`, whatever the host, colons included |
| BrokerClient.ParsePortPlainRoundTrip | docker-mq-pub-sub-autoscale-demo/publisher/publisher.py:56-58 | a plain decimal setting `str(n)` gives `n` |
| BrokerClient.ParsePortAcceptsNegative | docker-mq-pub-sub-autoscale-demo/publisher/publisher.py:56-58 | `-<digits>` gives the negative number; no range check applies |
| PyText.IntKeepsSeparators | docker-mq-pub-sub-autoscale-demo/publisher/publisher.py:56-61 | `int()` skips only `\t \n \v \f \r`, the space and non-ASCII whitespace: digits after a character that `strip()` removes but `int()` does not skip (U+001C to U+001F) make `int()` raise, so the port falls back to 5672 |
| Publisher.RabbitMQPublisher.constructor | docker-mq-pub-sub-autoscale-demo/publisher/publisher.py:46-72 | the port follows the port rule; no connection, no channel, count 0 |
| Publisher.RabbitMQPublisher.Connect | docker-mq-pub-sub-autoscale-demo/publisher/publisher.py:74-107 | an open connection is kept and reported; otherwise the answer is the attempt's, and a failure leaves neither connection nor channel; the count is untouched |
| Publisher.RabbitMQPublisher.EnsureConnection | docker-mq-pub-sub-autoscale-demo/publisher/publisher.py:109-121 | the connection is usable exactly when an open one passes the probe (or the probe raised without closing it) or a fresh attempt succeeds; afterwards it is open or absent accordingly |
| Publisher.RabbitMQPublisher.PublishMessage | docker-mq-pub-sub-autoscale-demo/publisher/publisher.py:123-165 | success needs a usable connection and a returning publish; the message carries the count before it, which then rises by exactly 1; any failure leaves the count alone and drops connection and channel |
| Publisher.NumberedIsConsecutive | docker-mq-pub-sub-autoscale-demo/publisher/publisher.py:132-151 | a batch's envelopes are one per delivered message, with consecutive ids from the starting count, each carrying a message of the batch |
| Publisher.RabbitMQPublisher.PublishBatch | docker-mq-pub-sub-autoscale-demo/publisher/publisher.py:184-199 | every message is tried once, in order; message `k` is delivered exactly when `publish_message` succeeds from the connection message `k - 1` left (the one held before the batch for the first); the connection afterwards is open exactly when the last message went out, and untouched for an empty batch; `successful + failed == len(messages)`; the counter rises by `successful`, and the envelopes sent are the delivered messages numbered on from it; `len - 1` pauses when the delay is positive, none otherwise |
| Publisher.DeliveryIsSettled | docker-mq-pub-sub-autoscale-demo/publisher/publisher.py:123-165 | from those exact outcomes: a delivery needs a returning publish, and a returning publish after a connection attempt that would succeed always delivers |
| Publisher.TestMessages | docker-mq-pub-sub-autoscale-demo/publisher/publisher.py:296 | `count` messages (none for `count <= 0`), the `i`-th being `Test message i+1` |
| Publisher.TestMessagesDistinct | docker-mq-pub-sub-autoscale-demo/publisher/publisher.py:296 | the synthesised messages are pairwise distinct |
| Publisher.PlanBatch | docker-mq-pub-sub-autoscale-demo/publisher/publisher.py:286-301 | a falsy body is refused as carrying no data; a non-object body is a handler error; a non-empty list of messages is published with the given delay or 0.5; a published batch is never empty |
| Publisher.PlanSynthesizes | docker-mq-pub-sub-autoscale-demo/publisher/publisher.py:291-299 | without messages, whether the field is absent or an empty list, a positive `count` publishes `count` test messages, and otherwise the request is refused with no messages |
| Publisher.PlanKeepsGivenMessages | docker-mq-pub-sub-autoscale-demo/publisher/publisher.py:291-295 | given messages are published as they are, whatever `count` says |
| Publisher.PlanRefusesEmptyObject | docker-mq-pub-sub-autoscale-demo/publisher/publisher.py:287-289 | an empty JSON object is refused as carrying no data |
| Consumer.RabbitMQConsumer.constructor | k8s-mq-keda-pub-sub-autoscale-demo/flattened/consumer--consumer.py:18-58 | the port follows the same rule as the publisher's; not connected, not consuming, counters 0, no last message time, no shutdown requested |
| Consumer.RabbitMQConsumer.Connect | k8s-mq-keda-pub-sub-autoscale-demo/flattened/consumer--consumer.py:61-102 | 1 to 10 attempts, stopping at the first success; it succeeds exactly when one of the first 10 attempts would; a pause between attempts and none after the last; the attributes are what the attempts leave |
| Consumer.RefusedAttemptsChangeNothing | k8s-mq-keda-pub-sub-autoscale-demo/flattened/consumer--consumer.py:82-83 | about `AfterAttempt`, what one attempt of lines 82-90 leaves in the attributes (a connection object, closed when the failure came from losing it, and a channel once opened): attempts refused before a connection object exists leave the connection and channel as they were |
| Consumer.PartialAttemptKeepsConnection | k8s-mq-keda-pub-sub-autoscale-demo/flattened/consumer--consumer.py:82-90 | once any attempt got a connection object, the consumer holds a connection afterwards (open or closed) |
| Consumer.LastAttemptDecidesConnection | k8s-mq-keda-pub-sub-autoscale-demo/flattened/consumer--consumer.py:82-90 | the last attempt that got a connection object decides its state: open, unless that attempt failed because the connection was lost |
| Consumer.FailedConnectCanLeaveLinkOpen | k8s-mq-keda-pub-sub-autoscale-demo/flattened/consumer--consumer.py:82-102 | ten failed attempts, the last one failing in the queue setup without losing the connection, leave an open connection and a channel |
| Consumer.DropsOnlyMalformed | k8s-mq-keda-pub-sub-autoscale-demo/flattened/consumer--consumer.py:155-177 | about `FirstCall`, the callback's first channel call: a nack without requeue exactly for text that is not JSON, and an ack exactly for an object that was processed |
| Consumer.RabbitMQConsumer.MessageCallback | k8s-mq-keda-pub-sub-autoscale-demo/flattened/consumer--consumer.py:139-177 | one ack or nack per delivery, plus a requeueing nack when the first call on an object raised; exactly one counter rises unless a call escapes; the last message time moves only with an ack |
| Consumer.RabbitMQConsumer.StopConsuming | k8s-mq-keda-pub-sub-autoscale-demo/flattened/consumer--consumer.py:212-225 | `consuming` is always cleared; the channel is asked to stop when there is one; an open connection is closed, and stays open if closing raises |
| Consumer.RabbitMQConsumer.RequestShutdown | k8s-mq-keda-pub-sub-autoscale-demo/flattened/consumer--consumer.py:253-258 | the shutdown flag is always set, even when the channel's stop raises; the stop is issued exactly when there is a channel |

## Left out

- Subprocess, HTTP and broker I/O are parameters, not modelled calls: the docker CLI, the management API and pika. That includes the docker command lines (image, labels, environment, network, stop timeout), the management API's URL and credentials, and its HTTP retry settings.
- `ensure_queue_exists`, the publisher's `get_queue_status` and `test_connection`, the consumer's `start_consuming`, `get_stats` and `test_connection`, and every Flask route except the batch handler's choice of messages are outside this model. They are I/O or presentation, and `start_consuming` is the broker's blocking loop.
- The clock is an integer parameter, and `time.sleep` calls are counted rather than performed. The publisher's batch delay is a `real`.
- Signal handlers, `sys.exit`, the consumer's background thread and concurrent calls are not modelled.
- `process_message` is a boolean parameter. Its random duration and failures are not modelled.
- The timestamp, source and container id fields of a published message are not modelled; an `Envelope` keeps the id and the data.
- Log output is not modelled.
- Python's `int()` and the regular expression's `\d` also accept non-ASCII decimal digits, and `isalnum()` accepts non-ASCII letters. The model recognises ASCII digits and letters only.
- ScalingPolicy.CeilDiv: is the exact integer ceiling. Python computes `math.ceil(queue_length / SAFE_MPW)` on a float quotient. The two agree while the backlog is below 2^53, because a quotient that is not whole is then further from the integer below it than the rounding error. For larger backlogs they can differ: a backlog of 3·2^52+1 with `SAFE_MPW` 3 gives 2^52 in Python and 2^52+1 here.
- The handler's body is modelled with `messages` as a list of strings, `count` as an integer and `delay` as a number. Other JSON types are not modelled, and the handler treats them as follows:
  - A non-empty string as `messages` is iterated, so each character is published as a message. A non-empty object publishes its keys.
  - A `messages` of `null`, a number or a boolean makes the default `len(messages)` of line 292 raise, so the answer is 500 even when `count` is given.
  - `count` is compared only when `messages` is empty. Then `true` synthesises one message, and `false` or a float that is not positive is refused with a 400. A string or `null` raises at the comparison, and a positive float raises in `range`; both give a 500.
  - A `delay` of `null` or a string raises at the comparison of line 195. That happens after the first message was published, and the answer is 500.
- Fleet.StartWorkers: a start answers success, `CalledProcessError` or `FileNotFoundError`. Any other `OSError` from `subprocess.run` (a `PermissionError`, a failed fork) is not caught at lines 182-186; it ends the process, and the model has no such answer.
- Fleet.StopWorkers: the same holds for a stop or remove at lines 199-203, so neither batch, nor `Fleet.ScaleWorkers` built on them, models a crash after the listing.
- Consumer.PartialAttemptKeepsConnection: promises only that a connection object is held, not that it is open. A `channel()`, `queue_declare` or `basic_qos` that fails because the connection was lost leaves the stored connection reporting `is_closed`; `Consumer.LastAttemptDecidesConnection` says when it is open.
- The autoscaler process between cycles is not modelled: a crash ends a run, and a restart is a fresh `Autoscaler`.
- worker.py and the C# and Node.js samples are not part of this model. The worker repeats the consumer's pattern and the autoscaler's container-id rule, and the samples are thin wrappers over broker and cache client libraries.
