/** The audit event generator's publishing side: the module globals
    `connection` and `channel`, the connection gauge and the published
    success/failure counters, `connect_rabbitmq`, `publish_event` with its
    reconnect-on-publish, and the default-filling of `POST /generate_event`.
    The same code ships at two paths; this module serves both. */
module EventPublisher {
  import opened Common
  import opened Json
  import opened Broker
  import HealthManager

  /** `RABBITMQ_QUEUE`. */
  const Queue: string := "audit_events"
  /** The `source_service` of events created through the API. */
  const ApiSource: string := "audit-event-generator-api"

  /** How one `basic_publish` ends. */
  datatype PublishStep = Published | ConnectionLost | PublishFails

  /** One label set of `audit_event_generator_events_total`. */
  datatype EventLabel = EventLabel(eventType: string, serverHostname: string, actionResult: string)

  /** The reply of `generate_specific_event`: an HTTP status and, on 202, the
      id of the published event. */
  datatype Response = Response(status: int, eventId: Option<string>)

  /** `publish_event` reaches `basic_publish`: the channel it found was usable,
      or the one reconnect attempt it made succeeded. */
  predicate ReachesPublish(hasChannel: bool, channelOpen: bool, reconnect: ConnectStep)
  {
    (hasChannel && channelOpen) || reconnect.Declared?
  }

  /** The broker calls of one `publish_event`: a connect attempt when no open
      channel was found, then the publish of `json.dumps(event)` to the default
      exchange with the queue as routing key and persistent delivery. */
  function PublishCalls(hasChannel: bool, channelOpen: bool, reconnect: ConnectStep, event: map<string, Json>)
    : (calls: seq<Call>)
    ensures ReachesPublish(hasChannel, channelOpen, reconnect) <==>
      |calls| > 0 && calls[|calls| - 1] == BasicPublish("", Queue, JObj(event), true)
    ensures hasChannel && channelOpen ==> calls == [BasicPublish("", Queue, JObj(event), true)]
  {
    (if hasChannel && channelOpen then [] else ConnectCalls(reconnect, Queue))
    + (if ReachesPublish(hasChannel, channelOpen, reconnect) then [BasicPublish("", Queue, JObj(event), true)] else [])
  }

  /** The keys `generate_specific_event` gives a value when the caller did not. */
  const DefaultedKeys: set<string> := {"server_hostname", "user_id", "action_result", "severity", "details"}
  /** The keys it always overwrites. */
  const StampedKeys: set<string> := {"event_id", "timestamp", "source_service"}

  /** The values of the defaulted keys: a picked host and user, `SUCCESS`,
      `INFO` and an empty details dict. */
  function Defaults(hostPick: string, userPick: string): (d: map<string, Json>)
    ensures d.Keys == DefaultedKeys
  {
    map["server_hostname" := JStr(hostPick), "user_id" := JStr(userPick),
        "action_result" := JStr("SUCCESS"), "severity" := JStr("INFO"), "details" := JObj(map[])]
  }

  /** The event the API publishes, stated key by key: the three stamped keys
      are overwritten, the five defaulted keys keep a caller's value and get a
      default only when absent, and every other key is the caller's. */
  function FilledEvent(fields: map<string, Json>, eventId: string, nowIso: string, hostPick: string, userPick: string)
    : (e: map<string, Json>)
    ensures e.Keys == fields.Keys + StampedKeys + DefaultedKeys
    ensures e["event_id"] == JStr(eventId) && e["timestamp"] == JStr(nowIso + "Z")
    ensures e["source_service"] == JStr(ApiSource)
    ensures forall k :: k in DefaultedKeys && k in fields ==> e[k] == fields[k]
    ensures forall k :: k in fields && k !in StampedKeys ==> e[k] == fields[k]
    ensures forall k :: k in DefaultedKeys && k !in fields ==> e[k] == Defaults(hostPick, userPick)[k]
  {
    Defaults(hostPick, userPick) + (fields + map["event_id" := JStr(eventId), "timestamp" := JStr(nowIso + "Z"),
                                                 "source_service" := JStr(ApiSource)])
  }

  /** A request naming none of the defaulted keys gets all five defaults. */
  lemma DefaultsForAbsentKeys(fields: map<string, Json>, eventId: string, nowIso: string, hostPick: string, userPick: string)
    requires DefaultedKeys !! fields.Keys
    ensures var e := FilledEvent(fields, eventId, nowIso, hostPick, userPick);
      && e["server_hostname"] == JStr(hostPick) && e["user_id"] == JStr(userPick)
      && e["action_result"] == JStr("SUCCESS") && e["severity"] == JStr("INFO")
      && e["details"] == JObj(map[])
  {
  }

  /** The HTTP status `generate_specific_event` answers with, given what
      `request.json` makes of the body: 500 when reading it raises (a body that
      is not JSON, or is not sent as JSON), since that happens inside the
      handler's `try`; 400 for a falsy value or one without `event_type`; 500
      when `in` raises on a number or the item assignment raises on a list or
      string; 202 for a dict. */
  function RequestStatus(request: Parse): (status: int)
    ensures status == 202 <==> request.Parsed? && request.value.JObj? && "event_type" in request.value.fields
    ensures status == 400 <==>
      request.Parsed? && (!Truthy(request.value) || In("event_type", request.value) == Value(false))
    ensures request.Malformed? ==> status == 500
    ensures status in {202, 400, 500}
  {
    match request
    case Malformed => 500
    case Parsed(data) =>
      if !Truthy(data) then 400
      else match In("event_type", data)
        case TypeError => 500
        case Value(found) => if !found then 400 else if !data.JObj? then 500 else 202
  }

  /** `if k not in d: d[k] = v`: a value already present wins. */
  function SetDefault(d: map<string, Json>, k: string, v: Json): (r: map<string, Json>)
    ensures r == map[k := v] + d
  {
    if k in d then d else d[k := v]
  }

  lemma MergeAssociates(a: map<string, Json>, b: map<string, Json>, c: map<string, Json>)
    ensures a + (b + c) == (a + b) + c
  {
  }

  /** The in-place updates of the request dict (lines 178-192), in order. */
  method FillRequest(fields: map<string, Json>, eventId: string, nowIso: string, hostPick: string, userPick: string)
    returns (e: map<string, Json>)
    ensures e == FilledEvent(fields, eventId, nowIso, hostPick, userPick)
  {
    e := fields;
    e := e["event_id" := JStr(eventId)];
    e := e["timestamp" := JStr(nowIso + "Z")];
    e := e["source_service" := JStr(ApiSource)];
    var stamped := fields + map["event_id" := JStr(eventId), "timestamp" := JStr(nowIso + "Z"),
                                "source_service" := JStr(ApiSource)];
    assert e == stamped;
    e := SetDefault(e, "server_hostname", JStr(hostPick));
    e := SetDefault(e, "user_id", JStr(userPick));
    e := SetDefault(e, "action_result", JStr("SUCCESS"));
    e := SetDefault(e, "severity", JStr("INFO"));
    e := SetDefault(e, "details", JObj(map[]));
    var m1, m2, m3 := map["server_hostname" := JStr(hostPick)], map["user_id" := JStr(userPick)],
                      map["action_result" := JStr("SUCCESS")];
    var m4, m5 := map["severity" := JStr("INFO")], map["details" := JObj(map[])];
    MergeAssociates(m2, m1, stamped);
    MergeAssociates(m3, m2 + m1, stamped);
    MergeAssociates(m4, m3 + (m2 + m1), stamped);
    MergeAssociates(m5, m4 + (m3 + (m2 + m1)), stamped);
    DefaultsAsMerges(hostPick, userPick);
  }

  /** The five `SetDefault` steps merge exactly `Defaults`. */
  lemma DefaultsAsMerges(hostPick: string, userPick: string)
    ensures map["details" := JObj(map[])] + (map["severity" := JStr("INFO")] + (map["action_result" := JStr("SUCCESS")]
      + (map["user_id" := JStr(userPick)] + map["server_hostname" := JStr(hostPick)])))
      == Defaults(hostPick, userPick)
  {
  }

  class Publisher {
    /** The globals `connection` and `channel` are not None. */
    var connection: bool
    var channel: bool
    /** `audit_event_generator_rabbitmq_connection_status`. */
    var gauge: int
    /** `audit_event_generator_published_success_total` and `..._failure_total`. */
    var successTotal: nat
    var failureTotal: nat
    /** `audit_event_generator_events_total`, one element per increment. */
    var eventsTotal: multiset<EventLabel>
    /** Broker calls issued, in order. */
    var log: seq<Call>

    /** The gauge reads 1 exactly while a channel is held, and a channel is
        only held with its connection. */
    ghost predicate Valid()
      reads this
    {
      gauge == HealthManager.GaugeValue(channel) && (channel ==> connection)
    }

    /** Module load: no connection, and a fresh gauge reads 0. */
    constructor ()
      ensures !connection && !channel && gauge == 0 && Valid()
      ensures successTotal == 0 && failureTotal == 0 && eventsTotal == multiset{} && log == []
    {
      connection, channel, gauge := false, false, 0;
      successTotal, failureTotal, eventsTotal, log := 0, 0, multiset{}, [];
    }

    /** `connect_rabbitmq`: on success both globals are set and the gauge is
        1; on any failure the gauge is 0 and both globals are None (an opened
        connection is dropped without being closed). */
    method ConnectRabbitmq(step: ConnectStep)
      modifies this`connection, this`channel, this`gauge, this`log
      ensures connection == step.Declared? && channel == step.Declared?
      ensures gauge == HealthManager.GaugeValue(step.Declared?)
      ensures log == old(log) + ConnectCalls(step, Queue)
      ensures Valid()
    {
      log := log + ConnectCalls(step, Queue);
      if step.Declared? {
        connection, channel := true, true;
        gauge := 1;
      } else {
        gauge := 0;
        connection, channel := false, false;
      }
    }

    /** `publish_event`. `channelOpen` is `channel.is_open` of the channel
        held on entry, `reconnect` how the one reconnect attempt goes if it is
        made, `publish` how `basic_publish` goes. */
    method PublishEvent(event: map<string, Json>, channelOpen: bool, reconnect: ConnectStep, publish: PublishStep)
      requires Valid()
      modifies this`connection, this`channel, this`gauge, this`successTotal, this`failureTotal, this`log
      ensures Valid()
      ensures log == old(log) + PublishCalls(old(channel), channelOpen, reconnect, event)
      ensures successTotal == old(successTotal)
        + (if ReachesPublish(old(channel), channelOpen, reconnect) && publish.Published? then 1 else 0)
      ensures failureTotal == old(failureTotal)
        + (if !ReachesPublish(old(channel), channelOpen, reconnect) || !publish.Published? then 1 else 0)
        + (if ReachesPublish(old(channel), channelOpen, reconnect) && publish.Published?
             && !("event_type" in event && "server_hostname" in event) then 1 else 0)
      ensures var reconnected := !(old(channel) && channelOpen);
        && connection == (if reconnected then reconnect.Declared? else old(connection))
        && channel == (if ReachesPublish(old(channel), channelOpen, reconnect) && publish.ConnectionLost? then false
                       else if reconnected then reconnect.Declared? else old(channel))
    {
      if !channel || !channelOpen {
        ConnectRabbitmq(reconnect);
        if !channel {
          failureTotal := failureTotal + 1;
          return;
        }
      }
      log := log + [BasicPublish("", Queue, JObj(event), true)];
      match publish
      case Published =>
        successTotal := successTotal + 1;
        if !("event_type" in event && "server_hostname" in event) {
          // the log line after the success count reads both keys and raises
          failureTotal := failureTotal + 1;
        }
      case ConnectionLost =>
        gauge := 0;
        channel := false;
        failureTotal := failureTotal + 1;
      case PublishFails =>
        failureTotal := failureTotal + 1;
    }

    /** `generate_specific_event`. `request` is what `request.json` yields;
        `eventId`, `nowIso`, `hostPick` and `userPick` stand for `uuid4()`,
        `utcnow().isoformat()` and the two `random.choice` calls. Only a dict
        with `event_type` is counted and published, with the filled-in
        fields, and then exactly one of the two publish counters moves. */
    method GenerateSpecificEvent(request: Parse, eventId: string, nowIso: string, hostPick: string, userPick: string,
                                 channelOpen: bool, reconnect: ConnectStep, publish: PublishStep)
      returns (resp: Response)
      requires Valid()
      modifies this
      ensures Valid()
      ensures resp.status == RequestStatus(request)
      ensures resp.status != 202 ==> (resp.eventId.None? && log == old(log)
        && successTotal == old(successTotal) && failureTotal == old(failureTotal)
        && eventsTotal == old(eventsTotal) && connection == old(connection) && channel == old(channel)
        && gauge == old(gauge))
      ensures resp.status == 202 ==>
        var e := FilledEvent(request.value.fields, eventId, nowIso, hostPick, userPick);
        var reached := ReachesPublish(old(channel), channelOpen, reconnect);
        var reconnected := !(old(channel) && channelOpen);
        && resp.eventId == Some(eventId)
        && eventsTotal == old(eventsTotal)
             + multiset{EventLabel(Display(e["event_type"]), Display(e["server_hostname"]), Display(e["action_result"]))}
        && log == old(log) + PublishCalls(old(channel), channelOpen, reconnect, e)
        && successTotal == old(successTotal) + (if reached && publish.Published? then 1 else 0)
        && failureTotal == old(failureTotal) + (if reached && publish.Published? then 0 else 1)
        && connection == (if reconnected then reconnect.Declared? else old(connection))
        && channel == (if reached && publish.ConnectionLost? then false
                       else if reconnected then reconnect.Declared? else old(channel))
        && gauge == HealthManager.GaugeValue(channel)
    {
      var status := RequestStatus(request);
      if status != 202 {
        return Response(status, None);
      }
      var e := FillRequest(request.value.fields, eventId, nowIso, hostPick, userPick);
      eventsTotal := eventsTotal
        + multiset{EventLabel(Display(e["event_type"]), Display(e["server_hostname"]), Display(e["action_result"]))};
      PublishEvent(e, channelOpen, reconnect, publish);
      resp := Response(202, Some(eventId));
    }
  }
}
