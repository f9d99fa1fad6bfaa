# project-genesis services, modelled in Dafny

This project models the message-handling core of three services of the
project-genesis audit pipeline, together with two small pieces of shared state.
The model states what that code does and proves it.

- **Event generator (`EventPublisher`)**
  - Holds a RabbitMQ connection and channel, reconnects on publish and counts
    successes and failures.
  - Fills in the defaults for events posted to `/generate_event`.
  - The same file ships at `src/audit-event-generator/app.py` and
    `eventsApp/audit_event_generator/app.py`, line for line. One module serves
    both; the table cites the `src/` copy.
- **Analysis consumer (`AnalysisConsumer`, `SlidingWindow`)**
  - Connects to RabbitMQ and declares the `audit_events` queue, then runs one
    iteration of the reconnect loop.
  - Settles each delivery with ack, nack-drop or nack-requeue.
  - Runs two rules: the failed-login sliding window, a Redis sorted set per
    user and host, and the case-sensitive sensitive-file match.
- **Notification consumer (`NotificationConsumer`)**
  - The `RabbitMQConsumer` object, with its `connection`, `channel`,
    `connected`, `_closing` and `_consumer_tag` fields.
  - Settles each delivery according to how the alert insert ended.
- **Alert writer (`PostgresService`)**
  - Turns a payload into a 22-column row, repairing `+00:00Z` timestamps and
    nulling `client_ip` placeholders.
  - Classifies every outcome as True or False.
  - Manages the module-global connection pool: creation with five attempts,
    the table and index set-up loop, clearing on an operational error, and
    closing.
- **Health manager (`HealthManager`)**
  - Two connection flags, each mirrored into a 0/1 gauge.
  - The two shipped copies are identical; the table cites the `src/` copy, and
    `eventsApp/audit-log-analysis/audit_analysis/health_manager.py` has the
    same lines.

Shared modules:
- `Json` holds decoded JSON values and the Python operations the services apply
  to them: `dict.get`, truthiness, `in` and `str()`.
- `Utf8` holds UTF-8 validity: strict, as `bytes.decode()` checks it, and
  with 'surrogatepass', as `json.loads` decodes bytes.
- `Broker` holds the broker calls, which each service records in call order.

External effects are modelled as follows:
- Library calls (pika, redis-py, psycopg and its pool, tenacity) become
  parameters that say how each call ends: it succeeds, fails with a specific
  error, or fails with a generic one.
- Every side effect lands in a field: a call log, a counter, a gauge, or the
  sorted-set store.
- Clocks, `uuid4`, `random.choice`, `json.loads` and `datetime.fromisoformat`
  are inputs.

### Where the code contradicts its own intent

The model follows the code in each of these cases.

- **Failed-login burst alert.**
  - `rabbitmq_consumer_service.py:101-103` stores the compared value in
    `current_attempts_in_window` and logs it as "failed attempts in window".
    So it is meant to be ZCARD's reply, the number of entries in the window.
  - The code reads `results[-1]`, which is the reply to EXPIRE and is 1
    after every successful pipeline. So the burst alert never fires.
  - `ThreeQuickFailuresReachThreshold` shows the window really does hold 3
    entries at that point. `BurstAlertNeverFires` shows the comparison still
    fails.
- **Redis errors in the analysis consumer.**
  - The clause `except redis.exceptions.ConnectionError` at
    `rabbitmq_consumer_service.py:115-119` is meant to lower the Redis health
    flag and requeue.
  - The module never imports `redis`, only `redis_service`. So when the
    pipeline raises, evaluating that clause raises a `NameError`.
  - That `NameError` reaches the generic handler at lines 146-148, which
    requeues. The Redis health flag is never lowered on that path (`Decide`).
- **Duplicate alerts and missing fields.**
  - The notification consumer has a `UniqueViolation` handler at
    `rabbitmq_consumer.py:147-149`. It logs that the alert "is a duplicate"
    and acks "to remove it from queue".
  - Its `KeyError` handler at lines 153-155 nacks without requeue.
  - The shipped writer catches both exceptions itself and returns False
    (`postgres_service.py:218-220` and `:228-230`). So the consumer requeues
    both, and neither handler is ever reached.
  - `WriterComposition` proves that, composed with the writer, the consumer
    acks exactly the committed alerts and requeues every other dict it parsed
    from a valid body.
- **Stale consumer tag.** Neither close callback clears `_consumer_tag`, so
  after a reconnect `start_consuming` returns early and no consumer is
  registered (`ReconnectAfterUnexpectedClose`).

## Model

| member | source | states |
|---|---|---|
| `Json.ContainsIffOccurs` | eventsApp/audit-log-analysis/audit_analysis/rabbitmq_consumer_service.py:129 | Python's `p in s` on strings holds exactly when `p` occurs in `s` at some index, case-sensitively. |
| `Json.In` | eventsApp/audit-log-analysis/audit_analysis/rabbitmq_consumer_service.py:129 | `in` raises TypeError exactly on None, bool, int and float containers; on a string it is substring containment. |
| `Utf8.ValidBodyWithInvalidPreview` | eventsApp/notification-service/notification_service/rabbitmq_consumer.py:126 | Some body that decodes as UTF-8 has a first 100 bytes that do not decode. |
| `Utf8.StrictDecodesSurrogatePass` | eventsApp/notification-service/notification_service/rabbitmq_consumer.py:131 | Every strictly valid body also decodes with 'surrogatepass', so `json.loads` never refuses a body that `decode()` accepts. |
| `Utf8.SurrogateAfterAsciiPreview` | eventsApp/notification-service/notification_service/rabbitmq_consumer.py:126-131 | Some body longer than 100 bytes has a valid preview and decodes with 'surrogatepass' but not strictly. |
| `HealthManager.GaugeValue` | src/audit-log-analysis/audit_analysis/health_manager.py:17 | The gauge reads 1 exactly when the flag is set, and 0 exactly when it is not. |
| `HealthManager.Health.constructor` | src/audit-log-analysis/audit_analysis/health_manager.py:8-9 | Both flags start False, and both gauges agree with them. |
| `HealthManager.Health.SetRedisStatus` | src/audit-log-analysis/audit_analysis/health_manager.py:12-18 | Sets the Redis flag and its gauge to 1/0. The RabbitMQ flag and gauge are unchanged, and gauge agreement is preserved. |
| `HealthManager.Health.SetRabbitmqStatus` | src/audit-log-analysis/audit_analysis/health_manager.py:20-26 | Sets the RabbitMQ flag and its gauge to 1/0. The Redis flag and gauge are unchanged, and gauge agreement is preserved. |
| `HealthManager.Health.GetHealthStatus` | src/audit-log-analysis/audit_analysis/health_manager.py:28-31 | Returns (redis, rabbitmq) in that order and changes nothing. |
| `HealthManager.SetThenGet` | src/audit-log-analysis/audit_analysis/health_manager.py:12-31 | After either setter, the getter reports the value just set and the other flag as it was. |
| `SlidingWindow.RemoveRangeByScore` | eventsApp/audit-log-analysis/audit_analysis/rabbitmq_consumer_service.py:97 | ZREMRANGEBYSCORE keeps exactly the members whose score lies outside the inclusive range, with their scores. |
| `SlidingWindow.AfterPipeline` | eventsApp/audit-log-analysis/audit_analysis/rabbitmq_consumer_service.py:96-97 | After ZADD then prune, no score in [0, now - window] is left. For a positive window the new member is scored `now`. Every other member survives iff it was present and outside the range. |
| `SlidingWindow.PipelineReplies` | eventsApp/audit-log-analysis/audit_analysis/rabbitmq_consumer_service.py:95-100 | `execute()` yields four replies, in command order. ZADD's is 1 iff the member is new, ZCARD's is the size of the pruned set, and EXPIRE's is 1 iff the key still exists. |
| `SlidingWindow.Put` | eventsApp/audit-log-analysis/audit_analysis/rabbitmq_consumer_service.py:96-99 | A non-empty set is stored under its key; an emptied one removes the key and leaves the other keys alone. |
| `SlidingWindow.Store.ExecuteFailedLoginPipeline` | eventsApp/audit-log-analysis/audit_analysis/rabbitmq_consumer_service.py:95-100 | Replaces only the key's set with the pipeline result and sets that key's TTL to window + 60. It returns the four replies and keeps the store free of empty sets. |
| `SlidingWindow.PipelinePostState` | eventsApp/audit-log-analysis/audit_analysis/rabbitmq_consumer_service.py:95-101 | With the shipped 60 s window the new member is scored `now` and nothing in [0, now - 60] is left. ZCARD is the set's size, and the value the consumer compares (`results[-1]`) is 1. |
| `SlidingWindow.BurstAlertNeverFires` | eventsApp/audit-log-analysis/audit_analysis/rabbitmq_consumer_service.py:101-105 | Whatever the store held, the compared value is below the threshold 3, so the burst branch is dead. |
| `SlidingWindow.PruneTwiceIsPruneLater` | eventsApp/audit-log-analysis/audit_analysis/rabbitmq_consumer_service.py:96-97 | Pruning at an earlier cutoff before a later pipeline changes nothing. |
| `SlidingWindow.ReplayIsLatestWithinWindow` | eventsApp/audit-log-analysis/audit_analysis/rabbitmq_consumer_service.py:94-100 | After any run of failures in time order, the set is every member's latest score minus the last call's pruned range. Lazy pruning loses nothing. |
| `SlidingWindow.WindowCountsOnlyRecent` | eventsApp/audit-log-analysis/audit_analysis/rabbitmq_consumer_service.py:96-98 | A member is counted iff its latest failure is newer than now - window. |
| `SlidingWindow.ThreeQuickFailuresReachThreshold` | eventsApp/audit-log-analysis/audit_analysis/rabbitmq_consumer_service.py:96-105 | Three failures within 10 s make ZCARD reply 3, which meets the threshold, while the compared EXPIRE reply is 1. |
| `SlidingWindow.SpacedFailuresStayAtOne` | eventsApp/audit-log-analysis/audit_analysis/rabbitmq_consumer_service.py:96-98 | A failure 70 s after the previous one leaves exactly one member in the window. |
| `Broker.SettleCalls` | eventsApp/audit-log-analysis/audit_analysis/rabbitmq_consumer_service.py:140-148 | A delivery is settled by exactly one ack, one nack(requeue=False) or one nack(requeue=True), and by no call when the handler raised first. |
| `Broker.SettleCallsRaising` | eventsApp/audit-log-analysis/audit_analysis/rabbitmq_consumer_service.py:140-148 | When the settling call raises, it was still issued. When it sat inside the `try`, exactly one more nack(requeue=True) follows; there are never more than two calls. |
| `Broker.ConnectCalls` | eventsApp/audit-log-analysis/audit_analysis/rabbitmq_consumer_service.py:24-30 | A connect attempt opens the connection unless that failed, declares the durable queue iff it got a channel, and never closes anything itself. |
| `AnalysisConsumer.DecodedEvent` | eventsApp/audit-log-analysis/audit_analysis/rabbitmq_consumer_service.py:74-75 | An event is available exactly when the body is valid UTF-8, parses, and is an object; it is the parsed dict unchanged. |
| `AnalysisConsumer.SubjectKeysCollide` | eventsApp/audit-log-analysis/audit_analysis/rabbitmq_consumer_service.py:92 | Distinct (user, host) pairs ('a:b','c') and ('a','b:c') share one sorted-set key. |
| `AnalysisConsumer.AnyIn` | eventsApp/audit-log-analysis/audit_analysis/rabbitmq_consumer_service.py:128-129 | On a string resource, the result is whether some configured path is a substring. It raises TypeError iff the path list is non-empty and the resource is None, a bool, an int or a float. |
| `AnalysisConsumer.SensitiveRuleOnText` | eventsApp/audit-log-analysis/audit_analysis/rabbitmq_consumer_service.py:127-129 | The sensitive-file alert fires iff the event is file_modified/MODIFIED and some configured path occurs in the resource text, with '' when absent. |
| `AnalysisConsumer.BackupCopyMatches` | eventsApp/audit-log-analysis/audit_analysis/rabbitmq_consumer_service.py:129 | `/etc/passwd.bak` matches a sensitive path. |
| `AnalysisConsumer.UpperCasePathDoesNotMatch` | eventsApp/audit-log-analysis/audit_analysis/rabbitmq_consumer_service.py:129 | `/ETC/PASSWD` matches none: the comparison is case-sensitive. |
| `AnalysisConsumer.Decide` | eventsApp/audit-log-analysis/audit_analysis/rabbitmq_consumer_service.py:71-148 | Every delivery is settled. It is dropped iff the body decodes but is malformed JSON. It is acked iff it is an object event whose failed-login pipeline (if any) ran and whose sensitive-file test (if any) did not raise. |
| `AnalysisConsumer.ConsumeEndCalls` | eventsApp/audit-log-analysis/audit_analysis/rabbitmq_consumer_service.py:181-199 | The connection is closed after consuming only on KeyboardInterrupt or an unexpected error, and only when it is open. |
| `AnalysisConsumer.Consumer.constructor` | eventsApp/audit-log-analysis/audit_analysis/rabbitmq_consumer_service.py:13-14 | No connection, channel or Redis client at start; counters zero; nothing logged. |
| `AnalysisConsumer.Consumer.InitializeRedis` | eventsApp/audit-log-analysis/audit_analysis/redis_service.py:10-32 | The client is set iff it returns True, and the Redis health flag and gauge equal the result. |
| `AnalysisConsumer.Consumer.ConnectConsumer` | eventsApp/audit-log-analysis/audit_analysis/rabbitmq_consumer_service.py:16-69 | Returns True iff the queue was declared. Both globals and the RabbitMQ health flag follow the result. The connection is closed only on a declare failure with the connection open. |
| `AnalysisConsumer.Consumer.FailedLoginRule` | eventsApp/audit-log-analysis/audit_analysis/rabbitmq_consumer_service.py:86-114 | Updates only the event's key (window set and TTL 120) and adds no burst alert. |
| `AnalysisConsumer.Consumer.OnMessage` | eventsApp/audit-log-analysis/audit_analysis/rabbitmq_consumer_service.py:71-148 | Settles as `Decide` says, with exactly one broker call when the broker accepts it. When the broker refuses the ack (line 140) or the missing-client nack (line 83), the generic handler adds a nack(requeue=True). The two counters rise by one exactly for a decoded event. The only alert added is the sensitive-file one. The store changes only when the pipeline runs, and then only on the event's key. |
| `AnalysisConsumer.Consumer.ConsumerIteration` | eventsApp/audit-log-analysis/audit_analysis/rabbitmq_consumer_service.py:158-199 | One loop iteration. It sleeps and retries when Redis or RabbitMQ is down, and registers one consumer once both are up. For each case it states the loop's next step, both globals, both health flags and gauges, and the broker calls, including the close after a failed declare. Gauge agreement is preserved. |
| `AnalysisConsumer.MalformedIsDropped` | eventsApp/audit-log-analysis/audit_analysis/rabbitmq_consumer_service.py:143-145 | Malformed JSON is nacked without requeue, runs no rule, raises no alert and touches no window. |
| `AnalysisConsumer.FailedLoginWithoutRedisIsRequeued` | eventsApp/audit-log-analysis/audit_analysis/rabbitmq_consumer_service.py:81-84 | On the failed-login path, a missing client or a pipeline exception always requeues. |
| `PostgresService.NormalizeTimestamp` | eventsApp/notification-service/notification_service/postgres_service.py:151-154 | Removes exactly one trailing 'Z' iff the text ends with +00:00Z or -00:00Z; otherwise the text is unchanged. |
| `PostgresService.NormalizeIsIdempotent` | eventsApp/notification-service/notification_service/postgres_service.py:151-154 | A repaired timestamp needs no further repair, so repairing twice is repairing once. |
| `PostgresService.ClientIpValue` | eventsApp/notification-service/notification_service/postgres_service.py:171-176 | NULL iff the value is 'N/A', '' or None/absent; anything else passes through unchanged. |
| `PostgresService.Section` | eventsApp/notification-service/notification_service/postgres_service.py:163-167 | An absent section reads as {}, a dict section as itself, and anything else fails. |
| `PostgresService.BuildRow` | eventsApp/notification-service/notification_service/postgres_service.py:148-214 | A row exists exactly when the payload is buildable. It then has one value per column (22), and its timestamp cell is the repaired text. |
| `PostgresService.RowColumnsAgree` | eventsApp/notification-service/notification_service/postgres_service.py:163-214 | The three JSON columns serialise the payload's three sections ({} when absent). The flattened columns are read from exactly those dicts, and the top-level columns come from the payload itself. |
| `PostgresService.MissingSectionsAreEmpty` | eventsApp/notification-service/notification_service/postgres_service.py:163-190 | Absent sections give NULL flattened columns and {} JSON columns. |
| `PostgresService.PathOf` | eventsApp/notification-service/notification_service/postgres_service.py:141-217 | No pool comes first. The insert commits iff the pool, connection, payload and execute all succeed, and the committed row is the built one. Otherwise it reports which step failed. |
| `PostgresService.InsertResult` | eventsApp/notification-service/notification_service/postgres_service.py:215-233 | True iff committed. A duplicate key gives False. It raises only when an operational error's pool close raises. |
| `PostgresService.MissingTimestampReturnsFalse` | eventsApp/notification-service/notification_service/postgres_service.py:151 | A payload without `timestamp` returns False before any SQL runs. |
| `PostgresService.CreatedIndexes` | eventsApp/notification-service/notification_service/postgres_service.py:101-123 | The indexes created among the statements run are exactly those whose statement committed. |
| `PostgresService.FirstEscape` | eventsApp/notification-service/notification_service/postgres_service.py:111-123 | The first failed index statement whose rollback also raised, with none before it; None iff no rollback raised. |
| `PostgresService.FirstEscapeIs` | eventsApp/notification-service/notification_service/postgres_service.py:111-123 | A raising rollback with none before it is what `FirstEscape` returns. |
| `PostgresService.BeforeEscape` | eventsApp/notification-service/notification_service/postgres_service.py:111-123 | The statements the loop gets through: a prefix of them all, none escaping, and it stops short only at a raising rollback. |
| `PostgresService.TableIndexesAre` | eventsApp/notification-service/notification_service/postgres_service.py:97-123 | An index exists after one call iff CREATE TABLE committed, its own statement committed and no rollback before it raised. |
| `PostgresService.FirstSuccess` | eventsApp/notification-service/notification_service/postgres_service.py:32-57 | The first attempt whose pool opens and whose table step raises nothing, with every earlier one raising; None iff all raise. |
| `PostgresService.FirstSuccessIs` | eventsApp/notification-service/notification_service/postgres_service.py:32-49 | The first attempt that raises nothing is what `FirstSuccess` returns. |
| `PostgresService.LostConnectionIsRetried` | eventsApp/notification-service/notification_service/postgres_service.py:32-57 | A lost connection makes CREATE TABLE and its rollback at :128/:132 fail. The attempt raises, five such attempts all fail, and no table exists. |
| `PostgresService.EscapeAfterCommit` | eventsApp/notification-service/notification_service/postgres_service.py:97-133 | When the first index statement fails and its rollback raises, the loop stops there and no index is created though the table is. The call then raises iff the outer rollback raises, and otherwise (by `CreateAlertsTable`) returns False. |
| `PostgresService.AlertWriter.constructor` | eventsApp/notification-service/notification_service/postgres_service.py:18 | No pool, table, index or row at module load. |
| `PostgresService.AlertWriter.InsertAlert` | eventsApp/notification-service/notification_service/postgres_service.py:135-233 | Returns `InsertResult` of the path taken and appends exactly the committed row. An operational error closes the pool once and clears it unless the close raises; nothing else touches the pool. |
| `PostgresService.AlertWriter.Fail` | eventsApp/notification-service/notification_service/postgres_service.py:218-233 | The except clauses: only an operational error calls close and clears the pool. |
| `PostgresService.AlertWriter.ClosePool` | eventsApp/notification-service/notification_service/postgres_service.py:235-245 | The pool always ends None, even when close raises. Close is called only when a pool existed. |
| `PostgresService.AlertWriter.CreateAlertsTable` | eventsApp/notification-service/notification_service/postgres_service.py:59-133 | Without a pool it returns False. It raises iff the connection cannot be taken, or the outer rollback at :128/:132 raises after a failed CREATE TABLE or after a raising index rollback. It returns True iff CREATE TABLE commits and no index rollback raises. The table exists afterwards iff it did or CREATE TABLE committed, even when a later index rollback makes the call raise or return False. The indexes grow by exactly `TableIndexes`. |
| `PostgresService.AlertWriter.CreateIndexes` | eventsApp/notification-service/notification_service/postgres_service.py:111-123 | The loop reports an escape iff some rollback raised, and adds exactly the committed indexes before it. |
| `PostgresService.AlertWriter.InitializePool` | eventsApp/notification-service/notification_service/postgres_service.py:20-57 | With an existing pool it returns True and changes nothing. Otherwise the first of five attempts that raises nothing returns True, even when the table step returned False. If all five raise, the pool is cleared and the error re-raised. Either way, the pools opened, the table and the indexes are those of the attempts run, including what an attempt that later raised had committed. |
| `NotificationConsumer.Preview` | eventsApp/notification-service/notification_service/rabbitmq_consumer.py:126 | The preview is the first min(100, n) bytes of the body. |
| `NotificationConsumer.Handled` | eventsApp/notification-service/notification_service/rabbitmq_consumer.py:130-158 | Once the preview decodes, the `try` always reaches a settlement. Its handler decodes the whole body first exactly on the paths other than a returned insert or a duplicate. |
| `NotificationConsumer.Settle` | eventsApp/notification-service/notification_service/rabbitmq_consumer.py:124-158 | Unsettled iff the preview fails strict UTF-8, or the path ends in a handler that logs a body that fails it. Acked iff the insert is awaited and returns True or raises UniqueViolation. Dropped iff the body is valid and is malformed JSON or hits KeyError. Requeued iff the insert returns False, or a valid body is not a dict or hits another error. |
| `NotificationConsumer.ValidBodyCanStayUnsettled` | eventsApp/notification-service/notification_service/rabbitmq_consumer.py:125-130 | Some valid UTF-8 body is never acked or nacked, because its preview splits a character. |
| `NotificationConsumer.SurrogateBodyIsInserted` | eventsApp/notification-service/notification_service/rabbitmq_consumer.py:126-158 | Some body that is not strictly UTF-8 reaches the insert. It is acked or requeued by the insert's result and acked as a duplicate, but left unsettled by a generic error. |
| `NotificationConsumer.FromWriter` | eventsApp/notification-service/notification_service/postgres_service.py:135 | The writer either returns its boolean or lets an exception escape, which the consumer sees as a generic error. |
| `NotificationConsumer.WriterComposition` | eventsApp/notification-service/notification_service/rabbitmq_consumer.py:139-158 | Composed with the shipped writer, the consumer acks iff the alert was committed. For a valid body it requeues every other parsed dict, duplicates included. It leaves a delivery unsettled iff the body is not strictly valid and the writer's pool close raises. |
| `NotificationConsumer.RabbitMQConsumer.constructor` | eventsApp/notification-service/notification_service/rabbitmq_consumer.py:15-24 | All lifecycle fields start as None/False. |
| `NotificationConsumer.RabbitMQConsumer.Connect` | eventsApp/notification-service/notification_service/rabbitmq_consumer.py:26-83 | While `connected`, it returns True and changes nothing. Otherwise it returns True iff nothing raises and the broker refuses nothing. Every exception clears connection, channel and `connected` and returns False. A refused channel open or declare never returns, leaving `connected` set, the connection held and no channel. |
| `NotificationConsumer.RabbitMQConsumer.OnConnectionClosed` | eventsApp/notification-service/notification_service/rabbitmq_consumer.py:96-104 | Clears the connection, the channel and `connected`; the consumer tag stays. |
| `NotificationConsumer.RabbitMQConsumer.OnChannelClosed` | eventsApp/notification-service/notification_service/rabbitmq_consumer.py:113-117 | Clears only the channel. |
| `NotificationConsumer.RabbitMQConsumer.StartConsuming` | eventsApp/notification-service/notification_service/rabbitmq_consumer.py:161-176 | Without a channel, or with a stored tag, it does nothing. Otherwise it makes one `basic_consume` on the queue and stores the tag. |
| `NotificationConsumer.RabbitMQConsumer.Disconnect` | eventsApp/notification-service/notification_service/rabbitmq_consumer.py:178-211 | Always ends closing, not connected, with no channel and no connection. It cancels, then closes the channel and the connection only when open. The tag is cleared only by a cancel that did not raise. |
| `NotificationConsumer.RabbitMQConsumer.OnMessage` | eventsApp/notification-service/notification_service/rabbitmq_consumer.py:124-158 | Settles as `Settle` says, with at most one broker call when the broker accepts it. When the broker refuses the ack or nack after a returned insert (lines 141, 145) and the body is valid, the generic handler adds a nack(requeue=True). The insert receives the parsed payload unchanged, and is called only for a dict that `json.loads` produced. |
| `NotificationConsumer.ReconnectAfterUnexpectedClose` | eventsApp/notification-service/notification_service/rabbitmq_consumer.py:167-169 | After consuming, an unexpected close and a reconnect, `start_consuming` registers nothing: the stale tag stays. |
| `NotificationConsumer.ChannelLossIsNotRepaired` | eventsApp/notification-service/notification_service/rabbitmq_consumer.py:28-30 | After a lost channel, `connect` returns True without opening anything and no consumer is registered. |
| `NotificationConsumer.RefusedDeclareIsNeverRetried` | eventsApp/notification-service/notification_service/rabbitmq_consumer.py:52-67 | A refused declare leaves the first `connect` waiting with `connected` set. A second `connect` returns True at once, and nothing is consumed. |
| `EventPublisher.PublishCalls` | src/audit-event-generator/app.py:106-125 | A connect attempt comes first iff no open channel was found. `json.dumps(event)` is published persistently on the default exchange to the queue iff a usable channel is reached. |
| `EventPublisher.Defaults` | src/audit-event-generator/app.py:183-192 | The defaults cover exactly the five defaulted keys. |
| `EventPublisher.FilledEvent` | src/audit-event-generator/app.py:178-192 | event_id, timestamp (+'Z') and source_service are overwritten. The five defaulted keys keep a caller's value and are defaulted only when absent. Every other caller field is kept. |
| `EventPublisher.DefaultsForAbsentKeys` | src/audit-event-generator/app.py:183-192 | A request naming none of the defaulted keys gets host, user, SUCCESS, INFO and {}. |
| `EventPublisher.RequestStatus` | src/audit-event-generator/app.py:172-199 | 202 iff a dict with event_type. 400 iff the body is JSON that is falsy or lacks event_type. 500 otherwise: `request.json` raised, `in` raised on a number, or a list or string cannot take item assignment. |
| `EventPublisher.SetDefault` | src/audit-event-generator/app.py:183-184 | `if k not in d: d[k] = v` is a merge in which the existing value wins. |
| `EventPublisher.FillRequest` | src/audit-event-generator/app.py:178-192 | The in-place updates of the request dict, in order, produce exactly `FilledEvent`. |
| `EventPublisher.Publisher.constructor` | src/audit-event-generator/app.py:81-82 | No connection or channel, a gauge reading 0, and zero counters. |
| `EventPublisher.Publisher.ConnectRabbitmq` | src/audit-event-generator/app.py:84-103 | On success both globals are set, the queue is declared durable and the gauge is 1. On any failure the gauge is 0 and both globals are None. |
| `EventPublisher.Publisher.PublishEvent` | src/audit-event-generator/app.py:106-137 | One reconnect attempt when no open channel is found; if still closed, failure +1 and no publish. A success counts +1, and also failure +1 if event_type or server_hostname is missing. A lost connection clears only the channel and zeroes the gauge; another error only counts a failure. |
| `EventPublisher.Publisher.GenerateSpecificEvent` | src/audit-event-generator/app.py:171-199 | The status is `RequestStatus`, and a non-202 changes nothing. A 202 publishes `FilledEvent` and counts its labels once. It adds one success iff a usable channel was reached and the publish went through, and one failure otherwise. The connection, channel and gauge end as `publish_event` leaves them. |

## Left out

- Floating point: timestamps are whole seconds, and `time.time()` and `utcnow().isoformat()` are inputs. JSON numbers with a fraction are exact reals (`JFloat`); `NaN` and `Infinity`, which `json.loads` accepts, have no value in the model.
- The JSON parser: `json.loads` is an input giving a value or a decode error. On bytes it also detects a UTF-8 BOM and UTF-16 and UTF-32 encodings; that is not modelled, and only UTF-8 decoding with 'surrogatepass' is.
- `json.dumps` output text: a published or stored JSON value is recorded as the value itself.
- Json.Display: the Python repr of floats, lists and dicts in f-strings is not modelled; they render as one fixed placeholder per kind. Besides metric label text, this affects `AnalysisConsumer.EventKey`, which builds the Redis key from `Display`. So `AnalysisConsumer.Consumer.OnMessage` and `AnalysisConsumer.Consumer.FailedLoginRule` put two failed logins whose `user_id` (or `server_hostname`) are different lists, such as `[1]` and `[2]`, in one window, where the code keeps two. For strings, None, booleans and integers the key is exact.
- Concurrency: threads, `_health_lock`, asyncio futures, callback scheduling and `create_task`, and `asyncio.sleep`/`time.sleep`. Only the sequential effect is modelled.
- The `while True` loops of `start_consumer` and `continuous_event_generation`. `ConsumerIteration` models one iteration.
- `generate_and_publish_random_event` and `EVENT_TEMPLATES`: random data generation.
- The Redis server beyond the pipeline: a pipeline that raises is assumed to leave the store unchanged, and key expiry over time is not modelled (TTLs are recorded, never applied).
- The internals of `redis_service.initialize_redis`. `InitializeRedis` models only its effect: client set iff True, and the health flag follows.
- `connection.close()` or `basic_consume` raising in the analysis consumer.
- NotificationConsumer.RabbitMQConsumer.Connect: a connection that closes while `connect` waits for the channel or the declare also leaves it waiting. That interleaving is not a `Stall` case; `OnConnectionClosed` models the callback's effect on its own.
- EventPublisher.RequestStatus: `request.json` is taken to raise on a body that is not JSON or not sent as JSON, as current Flask does, giving 500. Older Flask versions return None for a body not sent as JSON, which gives 400.
- The other HTTP handlers (`/healthz`, `/metrics`, the analysis and notification APIs, the dashboard), configuration loading and logging.
- The `PostgreSQLService` class that the notification consumer imports is not part of this model, and the shown `postgres_service.py` does not define it. The consumer takes the insert outcome as an input, and `FromWriter`/`WriterComposition` compose it with the module-level `insert_alert`.
- Leaving the `async with` blocks of `_create_alerts_table` and `insert_alert` (the cursor and the pooled connection) is taken never to raise.
- The database itself: what `fromisoformat` accepts is the input `isoAccepts`, and the SQL text, the column types and the UUID/INET casts are not modelled.
