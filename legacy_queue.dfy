/**
 * Destinations of the older `src` variant: immutable objects whose only
 * properties are the queue name and, for `DefaultRabbitEQueue`, the exchange
 * and its type.  Any other implementation of the interfaces is read through
 * the same getters, so these two shapes stand for every destination.
 */
module LegacyQueue {
  import opened Broker

  datatype RabbitQueue =
    | DefaultRabbitQueue(queue: string)
    | DefaultRabbitEQueue(queue: string, exchange: string, exchangeType: ExchangeType)
  {
    /** `rabbitQueue is RabbitEQueue` */
    predicate IsRabbitEQueue() { DefaultRabbitEQueue? }

    function GetQueue(): string { queue }

    function GetExchange(): string requires IsRabbitEQueue() { exchange }

    function GetType(): ExchangeType requires IsRabbitEQueue() { exchangeType }
  }

  /** `RabbitQueue.of(queue)` */
  function Of(queue: string): (r: RabbitQueue)
    ensures !r.IsRabbitEQueue() && r.GetQueue() == queue
  {
    DefaultRabbitQueue(queue)
  }

  /**
   * `RabbitQueue.of(exchange, queue, type)`: the arguments reach the
   * constructor in the order (queue, exchange, type); the static type is
   * `RabbitQueue`, the value a `RabbitEQueue`.
   */
  function OfExchange(exchange: string, queue: string, exchangeType: ExchangeType): (r: RabbitQueue)
    ensures r.IsRabbitEQueue()
    ensures r.GetQueue() == queue && r.GetExchange() == exchange && r.GetType() == exchangeType
  {
    DefaultRabbitEQueue(queue, exchange, exchangeType)
  }
}
