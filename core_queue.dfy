/**
 * Destinations of the core variant: the `RabbitQueue` and `RabbitEQueue`
 * interfaces, their data-class implementations `DefaultRabbitQueue` and
 * `DefaultRabbitEQueue`, and the two `queueBuilder` functions.  The name
 * (and for the exchange variant the exchange and its type) is fixed at
 * construction; the two flags are mutable and the setters return the object.
 */
module CoreQueue {
  import opened Base
  import opened Broker

  /** A call a `queueBuilder` block makes on the new destination. */
  datatype Setting = Durable(durable: bool) | AutoDelete(autoDelete: bool)

  /** The `durable` flag after a block: the last Durable setting in it, else `initial`. */
  function DurableAfter(block: seq<Setting>, initial: bool): (r: bool)
    ensures r == initial || Durable(r) in block
    ensures (forall i :: 0 <= i < |block| ==> block[i].AutoDelete?) ==> r == initial
    decreases |block|
  {
    if block == [] then initial
    else match block[|block| - 1]
      case Durable(d) => d
      case AutoDelete(_) => DurableAfter(block[..|block| - 1], initial)
  }

  /** The `autoDelete` flag after a block: the last AutoDelete setting in it, else `initial`. */
  function AutoDeleteAfter(block: seq<Setting>, initial: bool): (r: bool)
    ensures r == initial || AutoDelete(r) in block
    ensures (forall i :: 0 <= i < |block| ==> block[i].Durable?) ==> r == initial
    decreases |block|
  {
    if block == [] then initial
    else match block[|block| - 1]
      case AutoDelete(a) => a
      case Durable(_) => AutoDeleteAfter(block[..|block| - 1], initial)
  }

  /** `data class DefaultRabbitQueue(queue, durable = false, autoDelete = true)` */
  class DefaultRabbitQueue {
    const queue: string
    var durable: bool
    var autoDelete: bool

    constructor (queue: string, durable: bool := false, autoDelete: bool := true)
      ensures this.queue == queue && this.durable == durable && this.autoDelete == autoDelete
    {
      this.queue := queue;
      this.durable := durable;
      this.autoDelete := autoDelete;
    }

    function GetQueue(): string { queue }

    function IsDurable(): bool reads this { durable }

    function IsAutoDelete(): bool reads this { autoDelete }

    method SetDurable(durable: bool) returns (self: DefaultRabbitQueue)
      modifies this
      ensures self == this
      ensures this.durable == durable && autoDelete == old(autoDelete)
    {
      this.durable := durable;
      self := this;
    }

    method SetAutoDelete(autoDelete: bool) returns (self: DefaultRabbitQueue)
      modifies this
      ensures self == this
      ensures this.autoDelete == autoDelete && durable == old(durable)
    {
      this.autoDelete := autoDelete;
      self := this;
    }

    /** `apply(block)`: run the block's setter calls in order. */
    method Apply(block: seq<Setting>)
      modifies this
      ensures durable == DurableAfter(block, old(durable))
      ensures autoDelete == AutoDeleteAfter(block, old(autoDelete))
    {
      for i := 0 to |block|
        invariant durable == DurableAfter(block[..i], old(durable))
        invariant autoDelete == AutoDeleteAfter(block[..i], old(autoDelete))
      {
        assert block[..i + 1][..i] == block[..i];
        match block[i]
        case Durable(d) => var _ := SetDurable(d);
        case AutoDelete(a) => var _ := SetAutoDelete(a);
      }
      assert block[..|block|] == block;
    }

    /** Data-class `equals`: the same three properties. */
    predicate Equals(other: DefaultRabbitQueue)
      reads this, other
      ensures Equals(other) <==>
        GetQueue() == other.GetQueue() && IsDurable() == other.IsDurable() && IsAutoDelete() == other.IsAutoDelete()
    {
      queue == other.queue && durable == other.durable && autoDelete == other.autoDelete
    }
  }

  /** `data class DefaultRabbitEQueue(queue, exchange, type, durable = false, autoDelete = true)` */
  class DefaultRabbitEQueue {
    const queue: string
    const exchange: string
    const exchangeType: ExchangeType
    var durable: bool
    var autoDelete: bool

    constructor (queue: string, exchange: string, exchangeType: ExchangeType,
                 durable: bool := false, autoDelete: bool := true)
      ensures this.queue == queue && this.exchange == exchange && this.exchangeType == exchangeType
      ensures this.durable == durable && this.autoDelete == autoDelete
    {
      this.queue := queue;
      this.exchange := exchange;
      this.exchangeType := exchangeType;
      this.durable := durable;
      this.autoDelete := autoDelete;
    }

    function GetQueue(): string { queue }

    function GetExchange(): string { exchange }

    function GetType(): ExchangeType { exchangeType }

    function IsDurable(): bool reads this { durable }

    function IsAutoDelete(): bool reads this { autoDelete }

    method SetDurable(durable: bool) returns (self: DefaultRabbitEQueue)
      modifies this
      ensures self == this
      ensures this.durable == durable && autoDelete == old(autoDelete)
    {
      this.durable := durable;
      self := this;
    }

    method SetAutoDelete(autoDelete: bool) returns (self: DefaultRabbitEQueue)
      modifies this
      ensures self == this
      ensures this.autoDelete == autoDelete && durable == old(durable)
    {
      this.autoDelete := autoDelete;
      self := this;
    }

    /** `apply(block)`: run the block's setter calls in order. */
    method Apply(block: seq<Setting>)
      modifies this
      ensures durable == DurableAfter(block, old(durable))
      ensures autoDelete == AutoDeleteAfter(block, old(autoDelete))
    {
      for i := 0 to |block|
        invariant durable == DurableAfter(block[..i], old(durable))
        invariant autoDelete == AutoDeleteAfter(block[..i], old(autoDelete))
      {
        assert block[..i + 1][..i] == block[..i];
        match block[i]
        case Durable(d) => var _ := SetDurable(d);
        case AutoDelete(a) => var _ := SetAutoDelete(a);
      }
      assert block[..|block|] == block;
    }

    /** Data-class `equals`: the same five properties. */
    predicate Equals(other: DefaultRabbitEQueue)
      reads this, other
      ensures Equals(other) <==>
        && GetQueue() == other.GetQueue() && GetExchange() == other.GetExchange()
        && GetType() == other.GetType()
        && IsDurable() == other.IsDurable() && IsAutoDelete() == other.IsAutoDelete()
    {
      && queue == other.queue && exchange == other.exchange && exchangeType == other.exchangeType
      && durable == other.durable && autoDelete == other.autoDelete
    }
  }

  /**
   * A value of static type `RabbitQueue`: one of the two data classes, or a
   * caller's own implementation of `RabbitQueue` / `RabbitEQueue`, which may
   * or may not override the interface's `isDurable` and `isAutoDelete`.
   */
  datatype RabbitQueue =
    | Plain(q: DefaultRabbitQueue)
    | Bound(e: DefaultRabbitEQueue)
    | OtherQueue(name: string, durable: Option<bool>, autoDelete: Option<bool>)
    | OtherEQueue(name: string, exchange: string, exchangeType: ExchangeType,
                  durable: Option<bool>, autoDelete: Option<bool>)
  {
    /** The objects whose fields the flags are read from. */
    function Objects(): set<object> {
      match this
      case Plain(q) => {q}
      case Bound(e) => {e}
      case _ => {}
    }

    /** `rabbitQueue is RabbitEQueue` */
    predicate IsRabbitEQueue() { Bound? || OtherEQueue? }

    function GetQueue(): string {
      match this
      case Plain(q) => q.GetQueue()
      case Bound(e) => e.GetQueue()
      case OtherQueue(n, _, _) => n
      case OtherEQueue(n, _, _, _, _) => n
    }

    function GetExchange(): string
      requires IsRabbitEQueue()
    {
      if Bound? then e.GetExchange() else exchange
    }

    function GetType(): ExchangeType
      requires IsRabbitEQueue()
    {
      if Bound? then e.GetType() else exchangeType
    }

    /** `isDurable()`, with the interface default `false`. */
    function IsDurable(): (r: bool)
      reads Objects()
      ensures OtherQueue? || OtherEQueue? ==> r == durable.GetOr(false)
    {
      match this
      case Plain(q) => q.IsDurable()
      case Bound(e) => e.IsDurable()
      case OtherQueue(_, d, _) => d.GetOr(false)
      case OtherEQueue(_, _, _, d, _) => d.GetOr(false)
    }

    /** `isAutoDelete()`, with the interface default `true`. */
    function IsAutoDelete(): (r: bool)
      reads Objects()
      ensures OtherQueue? || OtherEQueue? ==> r == autoDelete.GetOr(true)
    {
      match this
      case Plain(q) => q.IsAutoDelete()
      case Bound(e) => e.IsAutoDelete()
      case OtherQueue(_, _, a) => a.GetOr(true)
      case OtherEQueue(_, _, _, _, a) => a.GetOr(true)
    }
  }

  /** An implementation that overrides nothing reads as non-durable and auto-deleted. */
  lemma InterfaceDefaults(name: string, exchange: string, kind: ExchangeType)
    ensures !OtherQueue(name, None, None).IsDurable() && OtherQueue(name, None, None).IsAutoDelete()
    ensures !OtherEQueue(name, exchange, kind, None, None).IsDurable()
    ensures OtherEQueue(name, exchange, kind, None, None).IsAutoDelete()
  {
  }

  /** `queueBuilder(queue, property)`: a new `DefaultRabbitQueue` with the block applied. */
  method QueueBuilder(queue: string, property: seq<Setting> := []) returns (rq: RabbitQueue)
    ensures rq.Plain? && fresh(rq.q) && !rq.IsRabbitEQueue()
    ensures rq.GetQueue() == queue
    ensures rq.IsDurable() == DurableAfter(property, false)
    ensures rq.IsAutoDelete() == AutoDeleteAfter(property, true)
  {
    var q := new DefaultRabbitQueue(queue);
    q.Apply(property);
    rq := Plain(q);
  }

  /**
   * `queueBuilder(routingKey, exchange, type, property)`: a new
   * `DefaultRabbitEQueue` named after the routing key, with the block applied.
   */
  method ExchangeQueueBuilder(routingKey: string, exchange: string, exchangeType: ExchangeType,
                              property: seq<Setting> := []) returns (rq: RabbitQueue)
    ensures rq.Bound? && fresh(rq.e) && rq.IsRabbitEQueue()
    ensures rq.GetQueue() == routingKey && rq.GetExchange() == exchange && rq.GetType() == exchangeType
    ensures rq.IsDurable() == DurableAfter(property, false)
    ensures rq.IsAutoDelete() == AutoDeleteAfter(property, true)
  {
    var e := new DefaultRabbitEQueue(routingKey, exchange, exchangeType);
    e.Apply(property);
    rq := Bound(e);
  }
  /**
   * Data-class equality is not identity: two destinations built with the same
   * name and the same block are distinct objects that are `equals`.
   */
  method BuiltTwiceEqual(queue: string, property: seq<Setting>) returns (a: DefaultRabbitQueue, b: DefaultRabbitQueue)
    ensures a != b && a.Equals(b) && b.Equals(a)
    ensures a.GetQueue() == queue && a.IsDurable() == DurableAfter(property, false)
    ensures a.IsAutoDelete() == AutoDeleteAfter(property, true)
  {
    var first := QueueBuilder(queue, property);
    var second := QueueBuilder(queue, property);
    a, b := first.q, second.q;
  }

  /** Changing a flag of one of two equal destinations makes them unequal, and leaves the other as it was. */
  method SetterBreaksEquals(a: DefaultRabbitQueue, b: DefaultRabbitQueue, durable: bool)
    requires a != b && a.Equals(b) && durable != a.durable
    modifies a
    ensures !a.Equals(b) && !b.Equals(a)
    ensures b.durable == old(b.durable) && b.autoDelete == old(b.autoDelete)
  {
    var _ := a.SetDurable(durable);
  }

  /** The same for exchange destinations: equal arguments and block give distinct, `equals` objects. */
  method BuiltTwiceEqualExchange(routingKey: string, exchange: string, exchangeType: ExchangeType,
                                 property: seq<Setting>) returns (a: DefaultRabbitEQueue, b: DefaultRabbitEQueue)
    ensures a != b && a.Equals(b) && b.Equals(a)
    ensures a.GetQueue() == routingKey && a.GetExchange() == exchange && a.GetType() == exchangeType
    ensures a.IsDurable() == DurableAfter(property, false) && a.IsAutoDelete() == AutoDeleteAfter(property, true)
  {
    var first := ExchangeQueueBuilder(routingKey, exchange, exchangeType, property);
    var second := ExchangeQueueBuilder(routingKey, exchange, exchangeType, property);
    a, b := first.e, second.e;
  }

  /** Changing a flag of one of two equal exchange destinations makes them unequal. */
  method SetterBreaksEqualsExchange(a: DefaultRabbitEQueue, b: DefaultRabbitEQueue, autoDelete: bool)
    requires a != b && a.Equals(b) && autoDelete != a.autoDelete
    modifies a
    ensures !a.Equals(b) && !b.Equals(a)
    ensures b.durable == old(b.durable) && b.autoDelete == old(b.autoDelete)
  {
    var _ := a.SetAutoDelete(autoDelete);
  }
}
