/** The analysis stage's RabbitMQ consumer: it connects and declares the
    `audit_events` queue, reconnects in a loop, and for each delivery decodes
    the event, runs the failed-login and sensitive-file rules, and settles the
    delivery. The source keeps `connection`, `channel` and the Redis client in
    module globals; here they are fields of one `Consumer` object, which also
    holds the Prometheus counters it increments and the broker calls it issues. */
module AnalysisConsumer {
  import opened Common
  import opened Json
  import Utf8
  import opened Broker
  import opened SlidingWindow
  import HealthManager

  /** `RABBITMQ_QUEUE`. */
  const Queue: string := "audit_events"
  /** `SENSITIVE_FILES`. */
  const SensitiveFiles: seq<string> := ["/etc/sudoers", "/root/.ssh/authorized_keys", "/etc/shadow", "/etc/passwd"]

  /** One label set of `audit_analysis_alerts_total`. */
  datatype AlertLabel = AlertLabel(alertType: string, severity: string, userId: string, serverHostname: string)

  /** The event a delivery carries, when decoding it reaches line 76: the body is
      valid UTF-8, parses, and is a JSON object (anything else has no `.get`). */
  function DecodedEvent(body: seq<Utf8.byte>, parse: Parse): (r: Option<map<string, Json>>)
    ensures r.Some? <==> Utf8.Valid(body) && parse.Parsed? && parse.value.JObj?
    ensures r.Some? ==> r.value == parse.value.fields
  {
    if Utf8.Valid(body) && parse.Parsed? && parse.value.JObj? then Some(parse.value.fields) else None
  }

  predicate IsFailedLogin(ev: map<string, Json>)
  {
    Get(ev, "event_type") == JStr("user_login") && Get(ev, "action_result") == JStr("FAILURE")
  }

  predicate IsFileModified(ev: map<string, Json>)
  {
    Get(ev, "event_type") == JStr("file_modified") && Get(ev, "action_result") == JStr("MODIFIED")
  }

  /** The Redis key of the failed-login window of one user on one host. */
  function SubjectKey(userId: string, serverHostname: string): string
  {
    "failed_logins_zset:" + userId + ":" + serverHostname
  }

  /** `event.get(name, 'unknown')` as an f-string renders it. */
  function FieldText(ev: map<string, Json>, name: string): string
  {
    Display(GetOr(ev, name, JStr("unknown")))
  }

  function EventKey(ev: map<string, Json>): string
  {
    SubjectKey(FieldText(ev, "user_id"), FieldText(ev, "server_hostname"))
  }

  /** The key joins the two names with ':' and nothing distinguishes a ':' inside
      a name, so different (user, host) pairs can share one window. */
  lemma SubjectKeysCollide()
    ensures ("a:b", "c") != ("a", "b:c") && SubjectKey("a:b", "c") == SubjectKey("a", "b:c")
  {
  }

  /** `any(p in resource for p in paths)`, evaluated left to right: `in` on a
      string is substring containment, on a list element membership, on a dict
      key membership, and raises `TypeError` on anything else. */
  function AnyIn(paths: seq<string>, resource: Json): (r: Checked<bool>)
    ensures resource.JStr? ==> r == Value(exists i :: 0 <= i < |paths| && Contains(resource.s, paths[i]))
    ensures r.TypeError? <==> |paths| > 0 && (resource.JNull? || resource.JBool? || resource.JInt? || resource.JFloat?)
    decreases |paths|
  {
    if paths == [] then Value(false)
    else
      match In(paths[0], resource)
      case TypeError => TypeError
      case Value(true) => Value(true)
      case Value(false) =>
        var rest := AnyIn(paths[1..], resource);
        assert resource.JStr? ==> forall i :: 1 <= i < |paths| ==> paths[i] == paths[1..][i - 1];
        rest
  }

  /** What the sensitive-file rule makes of an event. */
  function SensitiveCheck(ev: map<string, Json>): Checked<bool>
  {
    AnyIn(SensitiveFiles, GetOr(ev, "resource", JStr("")))
  }

  /** The rule fires iff the event is a `file_modified`/`MODIFIED` one and a
      configured path occurs, case-sensitively, in its `resource` text (an
      absent resource reads as ''). */
  lemma {:induction false} SensitiveRuleOnText(ev: map<string, Json>, resource: string)
    requires GetOr(ev, "resource", JStr("")) == JStr(resource)
    ensures IsFileModified(ev) && SensitiveCheck(ev) == Value(true)
        <==> IsFileModified(ev) && exists i, k :: 0 <= i < |SensitiveFiles| && OccursAt(SensitiveFiles[i], resource, k)
  {
    if exists i :: 0 <= i < |SensitiveFiles| && Contains(resource, SensitiveFiles[i]) {
      var i :| 0 <= i < |SensitiveFiles| && Contains(resource, SensitiveFiles[i]);
      ContainsIffOccurs(resource, SensitiveFiles[i]);
    }
    forall i, k | 0 <= i < |SensitiveFiles| && OccursAt(SensitiveFiles[i], resource, k)
      ensures Contains(resource, SensitiveFiles[i])
    {
      ContainsIffOccurs(resource, SensitiveFiles[i]);
    }
  }

  /** Substring semantics: a backup copy of a sensitive file matches. */
  lemma BackupCopyMatches()
    ensures AnyIn(SensitiveFiles, JStr("/etc/passwd.bak")) == Value(true)
  {
    assert OccursAt("/etc/passwd", "/etc/passwd.bak", 0);
    ContainsIffOccurs("/etc/passwd.bak", "/etc/passwd");
  }

  /** The comparison is case-sensitive: an upper-cased path matches nothing. */
  lemma UpperCasePathDoesNotMatch()
    ensures AnyIn(SensitiveFiles, JStr("/ETC/PASSWD")) == Value(false)
  {
    forall i | 0 <= i < |SensitiveFiles| ensures !Contains("/ETC/PASSWD", SensitiveFiles[i]) {
      ContainsIffOccurs("/ETC/PASSWD", SensitiveFiles[i]);
      var p := SensitiveFiles[i];
      if |p| <= 11 {
        forall k | 0 <= k <= 11 - |p| ensures !OccursAt(p, "/ETC/PASSWD", k) {
          assert "/ETC/PASSWD"[k..k + |p|][1] != p[1];
        }
      }
    }
  }

  /** How a delivery is settled (lines 71-148). A body that is not UTF-8 fails in
      `decode` and a non-object has no `.get`; both reach the generic handler. On
      the failed-login path, an exception from the pipeline makes Python evaluate
      `redis.exceptions.ConnectionError` in the first `except` clause; `redis` is
      never imported there, so a `NameError` replaces it and the generic handler
      at line 146 requeues. */
  function Decide(body: seq<Utf8.byte>, parse: Parse, redisReady: bool, pipelineRaises: bool): (d: Settlement)
    ensures d != Unsettled
    ensures d == NackDrop <==> Utf8.Valid(body) && parse.Malformed?
    ensures d == Ack <==> match DecodedEvent(body, parse)
      case None => false
      case Some(ev) =>
        && (IsFailedLogin(ev) ==> redisReady && !pipelineRaises)
        && (IsFileModified(ev) ==> SensitiveCheck(ev).Value?)
  {
    if !Utf8.Valid(body) then NackRequeue
    else match parse
      case Malformed => NackDrop
      case Parsed(v) =>
        if !v.JObj? then NackRequeue
        else if IsFailedLogin(v.fields) && (!redisReady || pipelineRaises) then NackRequeue
        else if IsFileModified(v.fields) && SensitiveCheck(v.fields).TypeError? then NackRequeue
        else Ack
  }

  /** The sensitive-file alert a delivery adds to the alert counter. */
  function FileAlerts(body: seq<Utf8.byte>, parse: Parse): multiset<AlertLabel>
  {
    match DecodedEvent(body, parse)
    case None => multiset{}
    case Some(ev) =>
      if IsFileModified(ev) && SensitiveCheck(ev) == Value(true)
      then multiset{AlertLabel("sensitive_file_modified", "CRITICAL", FieldText(ev, "user_id"), FieldText(ev, "server_hostname"))}
      else multiset{}
  }

  /** The delivery reaches `pipe.execute()` and it succeeds. */
  predicate RunsPipeline(body: seq<Utf8.byte>, parse: Parse, redisReady: bool, pipelineRaises: bool)
  {
    match DecodedEvent(body, parse)
    case None => false
    case Some(ev) => IsFailedLogin(ev) && redisReady && !pipelineRaises
  }

  /** The settling call sits inside the outer `try`: the nack for a missing
      Redis client (line 83) and the ack (line 140). When one of those raises,
      the generic handler nacks the delivery once more; the nacks in the two
      `except` clauses (lines 145 and 148) have nothing around them. */
  predicate SettledInsideTry(body: seq<Utf8.byte>, parse: Parse, redisReady: bool, pipelineRaises: bool)
  {
    match DecodedEvent(body, parse)
    case None => false
    case Some(ev) => (IsFailedLogin(ev) && !redisReady) || Decide(body, parse, redisReady, pipelineRaises) == Ack
  }

  /** How one `basic_consume` + `start_consuming` ends. */
  datatype ConsumeEnd =
    | Returned                                 // start_consuming returned
    | ConnectionLost                           // AMQPConnectionError
    | Interrupted(connectionOpen: bool)        // KeyboardInterrupt
    | Failed(connectionOpen: bool)             // any other exception

  /** The broker calls made after `start_consuming` ends: the connection is
      closed only on the two paths that close it, and only if it is open. */
  function ConsumeEndCalls(consume: ConsumeEnd): (calls: seq<Call>)
    ensures calls == [CloseConnection] <==> (consume.Interrupted? || consume.Failed?) && consume.connectionOpen
    ensures calls != [CloseConnection] ==> calls == []
  {
    match consume
    case Interrupted(true) => [CloseConnection]
    case Failed(true) => [CloseConnection]
    case _ => []
  }

  /** What the `while True` loop does after one iteration. */
  datatype Next = Again(slept: bool) | Exit

  class Consumer {
    /** The module globals `connection` and `channel` are not None. */
    var connection: bool
    var channel: bool
    /** `redis_service.redis_client` is not None. */
    var redisClient: bool
    /** `audit_analysis_processed_total` and `rabbitmq_messages_consumed_total`. */
    var processedTotal: nat
    var consumedTotal: nat
    /** `audit_analysis_alerts_total`, one element per increment of a label set. */
    var alerts: multiset<AlertLabel>
    /** Broker calls issued, in order. */
    var log: seq<Call>
    const health: HealthManager.Health
    const store: Store

    ghost predicate Valid()
      reads this, store
    {
      store.Valid()
    }

    constructor (health: HealthManager.Health, store: Store)
      requires store.Valid()
      ensures this.health == health && this.store == store && Valid()
      ensures !connection && !channel && !redisClient
      ensures processedTotal == 0 && consumedTotal == 0 && alerts == multiset{} && log == []
    {
      this.health, this.store := health, store;
      connection, channel, redisClient := false, false, false;
      processedTotal, consumedTotal, alerts, log := 0, 0, multiset{}, [];
    }

    /** `redis_service.initialize_redis`, outside this model: the client is set
        iff it returns True, and the Redis health flag equals the result. */
    method InitializeRedis(succeeds: bool) returns (ok: bool)
      modifies this`redisClient, health
      ensures ok == succeeds && redisClient == ok
      ensures health.redisConnected == ok && health.redisGauge == HealthManager.GaugeValue(ok)
      ensures health.rabbitmqConnected == old(health.rabbitmqConnected)
      ensures health.rabbitmqGauge == old(health.rabbitmqGauge)
    {
      redisClient := succeeds;
      health.SetRedisStatus(succeeds);
      ok := succeeds;
    }

    /** `connect_rabbitmq_consumer`: True iff the queue was declared, and the
        RabbitMQ health flag follows the result. Every failure leaves both
        globals None; only a failed declare on an open connection closes it. */
    method ConnectConsumer(step: ConnectStep) returns (ok: bool)
      modifies this`connection, this`channel, this`log, health
      ensures ok <==> step.Declared?
      ensures connection == ok && channel == ok
      ensures health.rabbitmqConnected == ok && health.rabbitmqGauge == HealthManager.GaugeValue(ok)
      ensures health.redisConnected == old(health.redisConnected) && health.redisGauge == old(health.redisGauge)
      ensures log == old(log) + ConnectCalls(step, Queue)
        + (if step.DeclareFails? && step.connectionOpen then [CloseConnection] else [])
    {
      match step
      case ConnectionFails =>
        health.SetRabbitmqStatus(false);
        connection, channel := false, false;
        ok := false;
      case ChannelFails =>
        log := log + [OpenConnection];
        health.SetRabbitmqStatus(false);
        connection, channel := false, false;
        ok := false;
      case DeclareFails(open) =>
        log := log + [OpenConnection, QueueDeclare(Queue, true)];
        health.SetRabbitmqStatus(false);
        if open {
          log := log + [CloseConnection];
        }
        connection, channel := false, false;
        ok := false;
      case Declared =>
        log := log + [OpenConnection, QueueDeclare(Queue, true)];
        connection, channel := true, true;
        health.SetRabbitmqStatus(true);
        ok := true;
    }

    /** Rule 1 once the pipeline has run: record the attempt in the event's
        window and compare the last reply with the threshold. That reply is
        EXPIRE's, which is 1 here, so no burst alert is ever added. */
    method FailedLoginRule(ev: map<string, Json>, now: int, member: string)
      requires Valid()
      modifies this`alerts, store
      ensures Valid() && alerts == old(alerts)
      ensures var key := EventKey(ev);
        && store.zsets == Put(old(store.zsets), key, AfterPipeline(Existing(old(store.zsets), key), member, now, WindowSeconds))
        && store.ttl == old(store.ttl)[key := WindowSeconds + 60]
    {
      var key := EventKey(ev);
      var z := Existing(store.zsets, key);
      var results := store.ExecuteFailedLoginPipeline(key, member, now, WindowSeconds);
      PipelinePostState(z, member, now);
      alerts := alerts + (if AttemptsAsWritten(results) >= Threshold
        then multiset{AlertLabel("failed_login_burst", "CRITICAL", FieldText(ev, "user_id"), FieldText(ev, "server_hostname"))}
        else multiset{});
    }

    /** `on_message_callback` for one delivery. `now` is `time.time()`,
        `member` the ISO timestamp text it stores, `pipelineRaises` whether
        `pipe.execute()` raises (the store is then left as it was), and
        `settleRaises` whether the broker refuses the settling call. The
        delivery is settled once, or twice when a refused call is retried by
        the generic handler; the counters move only for a decoded event; the
        window changes only when the pipeline runs, and then only on the event's
        key; and the only alert ever added is the sensitive-file one, because the
        value compared with the threshold is EXPIRE's reply. */
    method OnMessage(tag: nat, body: seq<Utf8.byte>, parse: Parse, now: int, member: string, pipelineRaises: bool,
                     settleRaises: bool)
      returns (d: Settlement)
      requires Valid()
      modifies this`processedTotal, this`consumedTotal, this`alerts, this`log, store
      ensures Valid()
      ensures d == Decide(body, parse, redisClient, pipelineRaises)
      ensures !settleRaises ==> log == old(log) + SettleCalls(d, tag)
      ensures settleRaises ==>
        log == old(log) + SettleCallsRaising(d, tag, SettledInsideTry(body, parse, redisClient, pipelineRaises))
      ensures DecodedEvent(body, parse).Some? ==>
        processedTotal == old(processedTotal) + 1 && consumedTotal == old(consumedTotal) + 1
      ensures DecodedEvent(body, parse).None? ==>
        processedTotal == old(processedTotal) && consumedTotal == old(consumedTotal)
      ensures alerts == old(alerts) + FileAlerts(body, parse)
      ensures RunsPipeline(body, parse, redisClient, pipelineRaises) ==>
        var key := EventKey(DecodedEvent(body, parse).value);
        && store.zsets == Put(old(store.zsets), key, AfterPipeline(Existing(old(store.zsets), key), member, now, WindowSeconds))
        && store.ttl == old(store.ttl)[key := WindowSeconds + 60]
      ensures !RunsPipeline(body, parse, redisClient, pipelineRaises) ==>
        store.zsets == old(store.zsets) && store.ttl == old(store.ttl)
    {
      d := Decide(body, parse, redisClient, pipelineRaises);
      var decoded := DecodedEvent(body, parse);
      if decoded.Some? {
        var ev := decoded.value;
        processedTotal := processedTotal + 1;
        consumedTotal := consumedTotal + 1;
        if IsFailedLogin(ev) && redisClient && !pipelineRaises {
          FailedLoginRule(ev, now, member);
        }
        if IsFileModified(ev) && SensitiveCheck(ev) == Value(true) {
          alerts := alerts + FileAlerts(body, parse);
        }
      }
      if settleRaises {
        log := log + SettleCallsRaising(d, tag, SettledInsideTry(body, parse, redisClient, pipelineRaises));
      } else {
        log := log + SettleCalls(d, tag);
      }
    }

    /** One iteration of `start_consumer`'s loop: make sure Redis is up, then
        connect, then consume until that ends. */
    method ConsumerIteration(redisUp: bool, step: ConnectStep, consume: ConsumeEnd) returns (next: Next)
      modifies this`redisClient, this`connection, this`channel, this`log, health
      ensures redisClient == redisUp && health.redisConnected == redisUp
      ensures health.redisGauge == HealthManager.GaugeValue(redisUp)
      ensures !redisUp ==> (next == Again(true) && log == old(log)
        && connection == old(connection) && channel == old(channel)
        && health.rabbitmqConnected == old(health.rabbitmqConnected)
        && health.rabbitmqGauge == old(health.rabbitmqGauge))
      ensures redisUp ==> health.rabbitmqGauge == HealthManager.GaugeValue(health.rabbitmqConnected)
      ensures old(health.Valid()) ==> health.Valid()
      ensures redisUp && !step.Declared? ==> (next == Again(true) && !connection && !channel
        && !health.rabbitmqConnected
        && log == old(log) + ConnectCalls(step, Queue)
          + (if step.DeclareFails? && step.connectionOpen then [CloseConnection] else []))
      ensures redisUp && step.Declared? ==>
        log == old(log) + [OpenConnection, QueueDeclare(Queue, true), BasicConsume(Queue)] + ConsumeEndCalls(consume)
      ensures redisUp && step.Declared? ==> match consume
        case Returned =>
          next == Again(false) && connection && channel && health.rabbitmqConnected
        case ConnectionLost =>
          next == Again(true) && !connection && !channel && !health.rabbitmqConnected
        case Interrupted(_) =>
          next == Exit && connection && channel && health.rabbitmqConnected
        case Failed(_) =>
          next == Again(true) && !connection && !channel && !health.rabbitmqConnected
    {
      var redisOk := InitializeRedis(redisUp);
      if !redisOk {
        return Again(true);
      }
      var ok := ConnectConsumer(step);
      if !ok {
        return Again(true);
      }
      log := log + [BasicConsume(Queue)];
      match consume
      case Returned =>
        next := Again(false);
      case ConnectionLost =>
        health.SetRabbitmqStatus(false);
        connection, channel := false, false;
        next := Again(true);
      case Interrupted(open) =>
        if open {
          log := log + [CloseConnection];
        }
        next := Exit;
      case Failed(open) =>
        health.SetRabbitmqStatus(false);
        if open {
          log := log + [CloseConnection];
        }
        connection, channel := false, false;
        next := Again(true);
    }
  }

  /** A body that does not parse is dropped, never requeued, whatever else holds. */
  lemma MalformedIsDropped(body: seq<Utf8.byte>, redisReady: bool, pipelineRaises: bool)
    requires Utf8.Valid(body)
    ensures Decide(body, Malformed, redisReady, pipelineRaises) == NackDrop
    ensures DecodedEvent(body, Malformed).None? && FileAlerts(body, Malformed) == multiset{}
    ensures !RunsPipeline(body, Malformed, redisReady, pipelineRaises)
  {
  }

  /** On the failed-login path a missing Redis client or any pipeline exception
      requeues and never acknowledges. */
  lemma FailedLoginWithoutRedisIsRequeued(body: seq<Utf8.byte>, parse: Parse, redisReady: bool, pipelineRaises: bool)
    requires DecodedEvent(body, parse).Some? && IsFailedLogin(DecodedEvent(body, parse).value)
    requires !redisReady || pipelineRaises
    ensures Decide(body, parse, redisReady, pipelineRaises) == NackRequeue
  {
  }
}
