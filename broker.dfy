/** The RabbitMQ operations the services issue, recorded in call order, and the
    call that settles one delivery. */
module Broker {
  import opened Common
  import opened Json

  datatype Call =
    | OpenConnection
    | QueueDeclare(queue: string, durable: bool)
    | BasicConsume(queue: string)
    | BasicCancel(consumerTag: string)
    | BasicAck(deliveryTag: nat)
    | BasicNack(deliveryTag: nat, requeue: bool)
    /** `basic_publish` of `json.dumps(body)`; `persistent` is delivery mode 2. */
    | BasicPublish(exchange: string, routingKey: string, body: Json, persistent: bool)
    | CloseChannel
    | CloseConnection

  /** The calls that settle a delivery: one `basic_ack` or one `basic_nack`,
      or none when the handler raised first. */
  function SettleCalls(d: Settlement, tag: nat): (calls: seq<Call>)
    ensures d == Unsettled <==> calls == []
    ensures d != Unsettled ==> |calls| == 1
    ensures d == Ack <==> calls == [BasicAck(tag)]
    ensures d == NackDrop <==> calls == [BasicNack(tag, false)]
    ensures d == NackRequeue <==> calls == [BasicNack(tag, true)]
  {
    match d
    case Ack => [BasicAck(tag)]
    case NackDrop => [BasicNack(tag, false)]
    case NackRequeue => [BasicNack(tag, true)]
    case Unsettled => []
  }

  /** The calls when the settling call raises: it was still issued, and when it
      sits inside the handler's `try` (`retried`), the generic `except` clause
      issues a second `basic_nack` with requeue for the same delivery. */
  function SettleCallsRaising(d: Settlement, tag: nat, retried: bool): (calls: seq<Call>)
    ensures d == Unsettled <==> calls == []
    ensures |calls| == 2 <==> d != Unsettled && retried
    ensures |calls| <= 2
    ensures d != Unsettled ==> calls[0] == SettleCalls(d, tag)[0]
    ensures |calls| == 2 ==> calls[1] == BasicNack(tag, true)
  {
    SettleCalls(d, tag) + (if d != Unsettled && retried then [BasicNack(tag, true)] else [])
  }

  /** How a blocking or asynchronous connect-and-declare sequence can go. The
      services handle every exception class alike at a given stage, so only the
      stage matters, plus whether the connection still reports `is_open` when
      the declare fails. */
  datatype ConnectStep =
    | ConnectionFails                    // opening the connection raises
    | ChannelFails                       // opening a channel on it raises
    | DeclareFails(connectionOpen: bool) // the durable queue declare raises
    | Declared

  /** The calls a connect attempt issues before it succeeds or fails: the
      connection is opened unless that is what failed, and the queue is
      declared durable unless an earlier stage failed. */
  function ConnectCalls(step: ConnectStep, queue: string): (calls: seq<Call>)
    ensures step.ConnectionFails? <==> calls == []
    ensures QueueDeclare(queue, true) in calls <==> step.DeclareFails? || step.Declared?
    ensures calls != [] ==> calls[0] == OpenConnection
    ensures CloseConnection !in calls
  {
    match step
    case ConnectionFails => []
    case ChannelFails => [OpenConnection]
    case _ => [OpenConnection, QueueDeclare(queue, true)]
  }
}
