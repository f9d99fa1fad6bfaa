/** The analysis service's health manager: two connection flags, each mirrored
    into a Prometheus gauge as 1 or 0. The flags are module globals in the
    source; here they are the fields of one object that its users share. */
module HealthManager {

  /** The gauge reading that mirrors a connection flag. */
  function GaugeValue(status: bool): (g: int)
    ensures g == 1 <==> status
    ensures g == 0 <==> !status
  {
    if status then 1 else 0
  }

  class Health {
    var redisConnected: bool
    var rabbitmqConnected: bool
    /** `redis_connection_status` gauge. */
    var redisGauge: int
    /** `rabbitmq_consumer_connection_status` gauge. */
    var rabbitmqGauge: int

    /** Each gauge mirrors its flag. */
    ghost predicate Valid()
      reads this
    {
      redisGauge == GaugeValue(redisConnected) && rabbitmqGauge == GaugeValue(rabbitmqConnected)
    }

    /** Module load: both flags start False and no gauge has been set (a fresh
        gauge reads 0). */
    constructor ()
      ensures !redisConnected && !rabbitmqConnected
      ensures redisGauge == 0 && rabbitmqGauge == 0
      ensures Valid()
    {
      redisConnected, rabbitmqConnected := false, false;
      redisGauge, rabbitmqGauge := 0, 0;
    }

    /** `set_redis_status`: only the Redis flag and its gauge change. */
    method SetRedisStatus(status: bool)
      modifies this
      ensures redisConnected == status && redisGauge == GaugeValue(status)
      ensures rabbitmqConnected == old(rabbitmqConnected) && rabbitmqGauge == old(rabbitmqGauge)
      ensures old(Valid()) ==> Valid()
    {
      redisConnected := status;
      redisGauge := GaugeValue(status);
    }

    /** `set_rabbitmq_status`: only the RabbitMQ flag and its gauge change. */
    method SetRabbitmqStatus(status: bool)
      modifies this
      ensures rabbitmqConnected == status && rabbitmqGauge == GaugeValue(status)
      ensures redisConnected == old(redisConnected) && redisGauge == old(redisGauge)
      ensures old(Valid()) ==> Valid()
    {
      rabbitmqConnected := status;
      rabbitmqGauge := GaugeValue(status);
    }

    /** `get_health_status`: reads `(redis, rabbitmq)` in that order and changes nothing. */
    method GetHealthStatus() returns (redis: bool, rabbitmq: bool)
      ensures redis == redisConnected && rabbitmq == rabbitmqConnected
    {
      redis, rabbitmq := redisConnected, rabbitmqConnected;
    }
  }

  /** What callers observe through the getter after each setter (the source's
      tests do exactly this): the value just set, and the other flag as before. */
  method SetThenGet(h: Health, redisFirst: bool, s: bool) returns (redis: bool, rabbitmq: bool)
    modifies h
    ensures redisFirst ==> redis == s && rabbitmq == old(h.rabbitmqConnected)
    ensures !redisFirst ==> rabbitmq == s && redis == old(h.redisConnected)
  {
    if redisFirst {
      h.SetRedisStatus(s);
    } else {
      h.SetRabbitmqStatus(s);
    }
    redis, rabbitmq := h.GetHealthStatus();
  }
}
