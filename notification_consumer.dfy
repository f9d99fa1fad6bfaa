/** The notification service's `RabbitMQConsumer`: its lifecycle fields
    (`connection`, `channel`, `connected`, `_closing`, `_consumer_tag`), the
    methods and broker callbacks that update them, and the per-delivery
    decision driven by the outcome of inserting the alert. The asyncio futures
    that sequence `connect` are not modelled; only their combined effect is. */
module NotificationConsumer {
  import opened Common
  import opened Json
  import Utf8
  import opened Broker
  import PostgresService

  /** How the awaited `insert_alert(alert_payload)` ends. */
  datatype InsertOutcome = Returned(success: bool) | RaisedUniqueViolation | RaisedKeyError | RaisedOther

  /** `body[:100]`. */
  function Preview(body: seq<Utf8.byte>): (p: seq<Utf8.byte>)
    ensures |p| == if |body| < 100 then |body| else 100
    ensures p <= body
  {
    if |body| < 100 then body else body[..100]
  }

  /** The debug line before the `try` decodes `body[:100]` strictly; invalid
      UTF-8 there raises out of the coroutine before anything else happens. */
  predicate Previewable(body: seq<Utf8.byte>)
  {
    Utf8.Valid(Preview(body))
  }

  /** `json.loads` takes the bytes and decodes them as UTF-8 with
      'surrogatepass', so an encoded surrogate gets through it; anything else
      invalid raises `UnicodeDecodeError`, which is not a `JSONDecodeError`. */
  predicate Loads(body: seq<Utf8.byte>)
  {
    Utf8.DecodesSurrogatePass(body)
  }

  /** `insert_alert` is awaited: the preview decodes, `json.loads` decodes and
      parses the body, and the value is a dict (the two `.get` calls for the
      logged ids need one). */
  predicate CallsInsert(body: seq<Utf8.byte>, parse: Parse)
  {
    Previewable(body) && Loads(body) && parse.Parsed? && parse.value.JObj?
  }

  /** The delivery ends in an `except` clause whose log line decodes the whole
      body strictly (lines 151, 154 and 157): every path but the two that
      settle after the insert returned and the duplicate handler. */
  predicate DecodesAgain(body: seq<Utf8.byte>, parse: Parse, insert: InsertOutcome)
  {
    !CallsInsert(body, parse) || insert.RaisedKeyError? || insert.RaisedOther?
  }

  /** Where the `try` block leaves the delivery, once the preview decoded: the
      settlement it reaches, and whether that handler decodes the whole body
      first. */
  function Handled(body: seq<Utf8.byte>, parse: Parse, insert: InsertOutcome): (r: (Settlement, bool))
    requires Previewable(body)
    ensures r.1 <==> DecodesAgain(body, parse, insert)
    ensures r.0 != Unsettled
  {
    if !Loads(body) then (NackRequeue, true)
    else match parse
      case Malformed => (NackDrop, true)
      case Parsed(v) =>
        if !v.JObj? then (NackRequeue, true)
        else match insert
          case Returned(ok) => (if ok then Ack else NackRequeue, false)
          case RaisedUniqueViolation => (Ack, false)
          case RaisedKeyError => (NackDrop, true)
          case RaisedOther => (NackRequeue, true)
  }

  /** How one delivery is settled (lines 124-158). A strictly valid body also
      decodes with 'surrogatepass', so a body `json.loads` refuses is never
      strictly valid and its handler raises in its log line. */
  function Settle(body: seq<Utf8.byte>, parse: Parse, insert: InsertOutcome): (d: Settlement)
    ensures d == Unsettled <==> !Previewable(body) || (DecodesAgain(body, parse, insert) && !Utf8.Valid(body))
    ensures d == Ack <==> CallsInsert(body, parse) && (insert == Returned(true) || insert == RaisedUniqueViolation)
    ensures d == NackDrop <==> (Previewable(body) && Utf8.Valid(body)
      && (parse.Malformed? || (parse.value.JObj? && insert == RaisedKeyError)))
    ensures d == NackRequeue <==> (Previewable(body)
      && ((CallsInsert(body, parse) && insert == Returned(false))
          || (Utf8.Valid(body) && parse.Parsed? && (!parse.value.JObj? || insert == RaisedOther))))
  {
    assert Utf8.Valid(body) ==> Loads(body) by {
      if Utf8.Valid(body) {
        Utf8.StrictDecodesSurrogatePass(body);
      }
    }
    if !Previewable(body) then Unsettled
    else
      var (handled, decodesBody) := Handled(body, parse, insert);
      if decodesBody && !Utf8.Valid(body) then Unsettled else handled
  }

  /** The preview can fail on a body that is valid as a whole: one whose
      100th and 101st bytes are one two-byte character is never settled. */
  lemma ValidBodyCanStayUnsettled(parse: Parse, insert: InsertOutcome)
    ensures exists body :: Utf8.Valid(body) && Settle(body, parse, insert) == Unsettled
  {
    Utf8.ValidBodyWithInvalidPreview();
    var body :| Utf8.Valid(body) && |body| > 100 && !Utf8.Valid(body[..100]);
    assert Settle(body, parse, insert) == Unsettled;
  }

  /** A body that is not strictly UTF-8 can still be inserted and settled: an
      encoded surrogate after the preview passes `json.loads`, the insert is
      awaited, and the returned value decides ack or requeue; only a handler
      that logs the body leaves it unsettled. */
  lemma SurrogateBodyIsInserted(fields: map<string, Json>, ok: bool)
    ensures exists body :: (!Utf8.Valid(body) && CallsInsert(body, Parsed(JObj(fields)))
      && Settle(body, Parsed(JObj(fields)), Returned(ok)) == (if ok then Ack else NackRequeue)
      && Settle(body, Parsed(JObj(fields)), RaisedUniqueViolation) == Ack
      && Settle(body, Parsed(JObj(fields)), RaisedOther) == Unsettled)
  {
    Utf8.SurrogateAfterAsciiPreview();
    var body :| |body| > 100 && Utf8.Valid(body[..100]) && Utf8.DecodesSurrogatePass(body) && !Utf8.Valid(body);
    assert Previewable(body);
    assert CallsInsert(body, Parsed(JObj(fields)));
  }

  /** What the consumer sees when the awaited call is the module function
      `insert_alert` of the alert writer: it returns a boolean, or lets the
      exception of a failing pool `close()` escape. */
  function FromWriter(o: PostgresService.Outcome): (r: InsertOutcome)
    ensures r.Returned? <==> o.Returns?
    ensures o.Returns? ==> r.success == o.b
  {
    match o
    case Returns(b) => Returned(b)
    case Raises => RaisedOther
  }

  /** Composed with that writer, which turns a duplicate key and a missing
      `timestamp` into a plain False, the consumer acks exactly the committed
      alerts and requeues everything else it parsed: the duplicate and
      missing-key handlers are never reached, and a duplicate is redelivered
      rather than removed. Only the escaping `close()` exception reaches a
      handler that logs the body, which leaves a body that is not strictly
      UTF-8 unsettled. */
  lemma {:induction false} WriterComposition(body: seq<Utf8.byte>, parse: Parse, path: PostgresService.InsertPath, closeRaises: bool)
    requires CallsInsert(body, parse)
    ensures var d := Settle(body, parse, FromWriter(PostgresService.InsertResult(path, closeRaises)));
      && (d == Ack <==> path.Committed?)
      && (Utf8.Valid(body) ==> (d == NackRequeue <==> !path.Committed?))
      && (d == Unsettled <==> !Utf8.Valid(body) && path == PostgresService.DbFailed(PostgresService.OperationalError) && closeRaises)
  {
    var o := PostgresService.InsertResult(path, closeRaises);
    assert FromWriter(o) != RaisedUniqueViolation && FromWriter(o) != RaisedKeyError;
    assert FromWriter(o) == Returned(true) <==> path.Committed?;
    assert FromWriter(o) == RaisedOther <==> path == PostgresService.DbFailed(PostgresService.OperationalError) && closeRaises;
  }

  /** A channel or connection object and its `is_open`. */
  datatype Handle = Handle(isOpen: bool)

  /** A broker-side refusal that no callback reports to `connect`: the channel
      open is refused, so `on_channel_open` never runs, or the queue declare is
      refused (a 406 for a queue with other properties), which closes the
      channel without calling `on_queue_declared`. The awaited future is then
      never resolved. */
  datatype Stall = NoStall | ChannelNeverOpens | DeclareRefused

  /** How a call of `connect` ends: it returns, or it waits forever. */
  datatype ConnectEnd = Finished(ok: bool) | Waiting

  class RabbitMQConsumer {
    const queueName: string
    var connection: Option<Handle>
    var channel: Option<Handle>
    var connected: bool
    var closing: bool
    var consumerTag: Option<string>
    /** Broker calls issued, in order. */
    var log: seq<Call>
    /** The payloads handed to `insert_alert`, in order. */
    var inserted: seq<map<string, Json>>

    /** `if self._consumer_tag:` — a stored, non-empty tag. */
    predicate TagTruthy()
      reads this
    {
      consumerTag.Some? && consumerTag.value != ""
    }

    constructor (queueName: string)
      ensures this.queueName == queueName
      ensures connection.None? && channel.None? && !connected && !closing && consumerTag.None?
      ensures log == [] && inserted == []
    {
      this.queueName := queueName;
      connection, channel, connected, closing, consumerTag := None, None, false, false, None;
      log, inserted := [], [];
    }

    /** `connect`. While `connected` is set it returns True and does nothing,
        whatever became of the channel. Otherwise an exception at any stage
        clears the connection, the channel and `connected`, and a connection
        that did open is dropped without being closed. When nothing raises but
        the broker refuses the channel or the declare (`stall`), the call
        waits forever with `connected` already set and no channel. The
        futures that sequence the steps are not modelled, only where the
        sequence stops. */
    method Connect(step: ConnectStep, stall: Stall) returns (end: ConnectEnd)
      modifies this`connection, this`channel, this`connected, this`log
      ensures old(connected) ==> (end == Finished(true) && connection == old(connection) && channel == old(channel)
        && connected && log == old(log))
      ensures !old(connected) ==> (end == Finished(true) <==> step.Declared? && stall.NoStall?)
      ensures !old(connected) ==> (end == Waiting <==> step.Declared? && !stall.NoStall?)
      ensures !old(connected) && end == Finished(true) ==> (connection == Some(Handle(true))
        && channel == Some(Handle(true)) && connected
        && log == old(log) + [OpenConnection, QueueDeclare(queueName, true)])
      ensures end == Finished(false) ==> (connection.None? && channel.None? && !connected
        && log == old(log) + ConnectCalls(step, queueName))
      ensures end == Waiting ==> (connected && connection == Some(Handle(true))
        && channel == (if stall == ChannelNeverOpens then old(channel) else None)
        && log == old(log) + [OpenConnection] + (if stall == DeclareRefused then [QueueDeclare(queueName, true)] else []))
    {
      if connected {
        return Finished(true);
      }
      match step
      case ConnectionFails =>
        connection, channel, connected := None, None, false;
        end := Finished(false);
      case ChannelFails =>
        log := log + [OpenConnection];
        connection, channel, connected := None, None, false;
        end := Finished(false);
      case DeclareFails(_) =>
        log := log + [OpenConnection, QueueDeclare(queueName, true)];
        connection, channel, connected := None, None, false;
        end := Finished(false);
      case Declared =>
        log := log + [OpenConnection];
        connection, connected := Some(Handle(true)), true;
        if stall == ChannelNeverOpens {
          return Waiting;
        }
        channel := Some(Handle(true));
        log := log + [QueueDeclare(queueName, true)];
        if stall == DeclareRefused {
          // the broker closes the channel and `on_channel_closed` forgets it
          channel := None;
          return Waiting;
        }
        end := Finished(true);
    }

    /** `on_connection_closed`: forgets the connection and the channel and
        clears `connected`; the consumer tag stays. */
    method OnConnectionClosed()
      modifies this`connection, this`channel, this`connected
      ensures connection.None? && channel.None? && !connected
    {
      connection, channel, connected := None, None, false;
    }

    /** `on_channel_closed`: forgets the channel only. */
    method OnChannelClosed()
      modifies this`channel
      ensures channel.None?
    {
      channel := None;
    }

    /** `start_consuming`. `newTag` is what `basic_consume` returns. */
    method StartConsuming(newTag: string)
      modifies this`consumerTag, this`log
      ensures channel.None? || old(TagTruthy()) ==> consumerTag == old(consumerTag) && log == old(log)
      ensures channel.Some? && !old(TagTruthy()) ==>
        consumerTag == Some(newTag) && log == old(log) + [BasicConsume(queueName)]
    {
      if channel.None? {
        return;
      }
      if TagTruthy() {
        return;
      }
      log := log + [BasicConsume(queueName)];
      consumerTag := Some(newTag);
    }

    /** `disconnect`. `cancelRaises` says whether `basic_cancel` raises; errors
        from closing the channel or the connection are logged and swallowed,
        so they change nothing here. */
    method Disconnect(cancelRaises: bool)
      modifies this`connection, this`channel, this`connected, this`closing, this`consumerTag, this`log
      ensures closing && !connected && channel.None? && connection.None?
      ensures var channelOpen := old(channel).Some? && old(channel).value.isOpen;
        var cancels := channelOpen && old(TagTruthy());
        && consumerTag == (if cancels && !cancelRaises then None else old(consumerTag))
        && log == old(log)
          + (if cancels then [BasicCancel(old(consumerTag).value)] else [])
          + (if channelOpen then [CloseChannel] else [])
          + (if old(connection).Some? && old(connection).value.isOpen then [CloseConnection] else [])
    {
      closing := true;
      if channel.Some? && channel.value.isOpen {
        if TagTruthy() {
          log := log + [BasicCancel(consumerTag.value)];
          if !cancelRaises {
            consumerTag := None;
          }
        }
        log := log + [CloseChannel];
      }
      if connection.Some? && connection.value.isOpen {
        log := log + [CloseConnection];
      }
      connected := false;
      channel := None;
      connection := None;
    }

    /** `on_message_callback` for one delivery: settled as `Settle` says,
        and the parsed payload is handed to the insert unchanged (the ids
        generated for logging are not added to it). `settleRaises` says
        whether the broker refuses the settling call; the ack and nack after a
        returned insert (lines 141 and 145) sit inside the `try`, so their
        failure reaches the generic handler, which nacks again if it can log
        the body. */
    method OnMessage(tag: nat, body: seq<Utf8.byte>, parse: Parse, insert: InsertOutcome, settleRaises: bool)
      returns (d: Settlement)
      modifies this`log, this`inserted
      ensures d == Settle(body, parse, insert)
      ensures !settleRaises ==> log == old(log) + SettleCalls(d, tag)
      ensures settleRaises ==> (log == old(log)
        + SettleCallsRaising(d, tag, CallsInsert(body, parse) && insert.Returned? && Utf8.Valid(body)))
      ensures inserted == old(inserted) + (if CallsInsert(body, parse) then [parse.value.fields] else [])
    {
      d := Settle(body, parse, insert);
      if CallsInsert(body, parse) {
        inserted := inserted + [parse.value.fields];
      }
      if settleRaises {
        log := log + SettleCallsRaising(d, tag, CallsInsert(body, parse) && insert.Returned? && Utf8.Valid(body));
      } else {
        log := log + SettleCalls(d, tag);
      }
    }
  }

  /** The stale tag: once consuming, an unexpected connection close keeps the
      tag, so after a successful reconnect `start_consuming` returns early and
      no consumer is registered on the new channel. */
  method ReconnectAfterUnexpectedClose(c: RabbitMQConsumer, firstTag: string, secondTag: string)
    requires c.channel.Some? && !c.TagTruthy() && firstTag != ""
    modifies c
    ensures c.connected && c.channel.Some? && c.consumerTag == Some(firstTag)
    ensures c.log == old(c.log) + [BasicConsume(c.queueName), OpenConnection, QueueDeclare(c.queueName, true)]
  {
    c.StartConsuming(firstTag);
    c.OnConnectionClosed();
    var end := c.Connect(Declared, NoStall);
    c.StartConsuming(secondTag);
  }

  /** A lost channel under a live connection: `connected` stays set, so
      `connect` reports success without opening anything, and
      `start_consuming` finds no channel. */
  method ChannelLossIsNotRepaired(c: RabbitMQConsumer, step: ConnectStep, stall: Stall, newTag: string)
    returns (end: ConnectEnd)
    requires c.connected
    modifies c
    ensures end == Finished(true) && c.channel.None? && c.log == old(c.log) && c.consumerTag == old(c.consumerTag)
  {
    c.OnChannelClosed();
    end := c.Connect(step, stall);
    c.StartConsuming(newTag);
  }

  /** A refused declare leaves `connected` set with no channel: a later
      `connect` reports success at once, and `start_consuming` finds no
      channel, so nothing is ever consumed. */
  method RefusedDeclareIsNeverRetried(c: RabbitMQConsumer, step: ConnectStep, stall: Stall, newTag: string)
    returns (first: ConnectEnd, second: ConnectEnd)
    requires !c.connected
    modifies c
    ensures first == Waiting && second == Finished(true)
    ensures c.connected && c.channel.None? && c.consumerTag == old(c.consumerTag)
    ensures c.log == old(c.log) + [OpenConnection, QueueDeclare(c.queueName, true)]
  {
    first := c.Connect(Declared, DeclareRefused);
    second := c.Connect(step, stall);
    c.StartConsuming(newTag);
  }
}
