/**
 * `HopperMq` of the older `src` variant.  It differs from the core client in
 * three ways: the broker flags are fixed (exchanges non-durable and
 * auto-deleted, queues non-durable, non-exclusive and auto-deleted), the
 * headers are always exactly {"author" -> author} (packet metadata is never
 * sent), and there is neither `sendToSelf` nor `deleteQueue`.
 */
module LegacyClient {
  import opened Base
  import opened DataStream
  import opened Packet
  import opened PacketRegistry
  import opened Frame
  import opened Broker
  import opened Events
  import opened LegacyQueue

  /** (exchange, routing key): the destination's exchange and name, or "" and the name. */
  function Route(rq: RabbitQueue): (r: (string, string))
    ensures r.1 == rq.GetQueue()
    ensures r.0 == if rq.IsRabbitEQueue() then rq.GetExchange() else ""
  {
    if rq.IsRabbitEQueue() then (rq.GetExchange(), rq.GetQueue()) else ("", rq.GetQueue())
  }

  /** The request `publish` hands to the broker, or None when it sends nothing. */
  function PublishRequest(t: Tables, hooks: Hooks, basicProperties: map<string, Value>, rq: RabbitQueue,
                          cls: PacketClass, fields: Payload): Option<Request>
  {
    match Encode(t, hooks, cls, fields)
    case Frame(body) => Some(BasicPublish(Route(rq).0, Route(rq).1, basicProperties, body))
    case _ => None
  }

  /** `bindQueue`'s calls, each one only after the previous succeeded, with the fixed flags. */
  predicate BindLog(rq: RabbitQueue, log: seq<Attempt>) {
    if rq.IsRabbitEQueue() then
      && |log| >= 1
      && log[0].request == QueueDeclareServerNamed
      && match log[0].outcome
         case Failed => |log| == 1
         case DeclareOk(anonymous) =>
           Follows(log[1..], [ExchangeDeclare(rq.GetExchange(), rq.GetType(), false, true),
                              QueueBind(anonymous, rq.GetExchange(), rq.GetQueue()),
                              BasicConsume(anonymous, true)])
         case Done => false
    else
      Follows(log, [QueueDeclare(rq.GetQueue(), false, false, true), BasicConsume(rq.GetQueue(), true)])
  }

  class HopperMq {
    const author: string
    /** The headers of every message, fixed at construction. */
    const basicProperties: map<string, Value>
    const channel: Channel
    const rabbitBus: EventBus
    const packetRegistry: RabbitPacketRegistry
    /** The `write`/`read` of the packet classes loaded in this process. */
    const hooks: Hooks
    var queues: map<string, RabbitQueue>

    ghost predicate Valid()
      reads this, packetRegistry
    {
      && packetRegistry.Valid()
      && basicProperties == map[AuthorKey := Str(author)]
    }

    /** `HopperMq(url, author)`, once the connection and channel are open. */
    constructor (author: string, hooks: Hooks)
      ensures Valid()
      ensures this.author == author && this.hooks == hooks
      ensures fresh(channel) && fresh(rabbitBus) && fresh(packetRegistry)
      ensures queues == map[] && channel.log == [] && rabbitBus.published == []
      ensures packetRegistry.Contents() == Empty
    {
      this.author := author;
      this.hooks := hooks;
      basicProperties := map[AuthorKey := Str(author)];
      channel := new Channel();
      rabbitBus := new EventBus();
      packetRegistry := new RabbitPacketRegistry();
      queues := map[];
    }

    /** `bindQueue(rabbitQueue)`: the table entry first, then the broker calls. */
    method BindQueue(rabbitQueue: RabbitQueue)
      requires Valid()
      modifies this, channel
      ensures Valid()
      ensures queues == old(queues)[rabbitQueue.GetQueue() := rabbitQueue]
      ensures |channel.log| >= |old(channel.log)| && channel.log[..|old(channel.log)|] == old(channel.log)
      ensures BindLog(rabbitQueue, channel.log[|old(channel.log)|..])
    {
      queues := queues[rabbitQueue.GetQueue() := rabbitQueue];
      if rabbitQueue.IsRabbitEQueue() {
        BindExchangeQueue(rabbitQueue);
      } else {
        BindNamedQueue(rabbitQueue);
      }
    }

    method BindExchangeQueue(rabbitQueue: RabbitQueue)
      requires rabbitQueue.IsRabbitEQueue()
      modifies channel
      ensures |channel.log| >= |old(channel.log)| && channel.log[..|old(channel.log)|] == old(channel.log)
      ensures BindLog(rabbitQueue, channel.log[|old(channel.log)|..])
    {
      ghost var log0 := channel.log;
      var ok, queue := channel.DeclareServerNamed();
      ghost var a0 := Attempt(QueueDeclareServerNamed, if ok then DeclareOk(queue) else Failed);
      assert channel.log[|log0|..] == [a0];
      if !ok { return; }
      var plan := [ExchangeDeclare(rabbitQueue.GetExchange(), rabbitQueue.GetType(), false, true),
                   QueueBind(queue, rabbitQueue.GetExchange(), rabbitQueue.GetQueue()),
                   BasicConsume(queue, true)];
      ok := channel.Call(plan[0]);
      ghost var a1 := Attempt(plan[0], if ok then Done else Failed);
      assert channel.log[|log0|..] == [a0, a1];
      if !ok {
        FollowsIntro([a1], plan);
        assert [a0, a1][1..] == [a1];
        return;
      }
      ok := channel.Call(plan[1]);
      ghost var a2 := Attempt(plan[1], if ok then Done else Failed);
      assert channel.log[|log0|..] == [a0, a1, a2];
      if !ok {
        FollowsIntro([a1, a2], plan);
        assert [a0, a1, a2][1..] == [a1, a2];
        return;
      }
      ok := channel.Call(plan[2]);
      ghost var a3 := Attempt(plan[2], if ok then Done else Failed);
      assert channel.log[|log0|..] == [a0, a1, a2, a3];
      FollowsIntro([a1, a2, a3], plan);
      assert [a0, a1, a2, a3][1..] == [a1, a2, a3];
    }

    method BindNamedQueue(rabbitQueue: RabbitQueue)
      requires !rabbitQueue.IsRabbitEQueue()
      modifies channel
      ensures |channel.log| >= |old(channel.log)| && channel.log[..|old(channel.log)|] == old(channel.log)
      ensures BindLog(rabbitQueue, channel.log[|old(channel.log)|..])
    {
      ghost var log0 := channel.log;
      var plan := [QueueDeclare(rabbitQueue.GetQueue(), false, false, true), BasicConsume(rabbitQueue.GetQueue(), true)];
      var ok := channel.Call(plan[0]);
      ghost var a0 := Attempt(plan[0], if ok then Done else Failed);
      assert channel.log[|log0|..] == [a0];
      if !ok {
        FollowsIntro([a0], plan);
        return;
      }
      ok := channel.Call(plan[1]);
      ghost var a1 := Attempt(plan[1], if ok then Done else Failed);
      assert channel.log[|log0|..] == [a0, a1];
      FollowsIntro([a0, a1], plan);
    }

    /** `publish(queue, packet)`: getOrPut with `RabbitQueue.of(queue)`. */
    method PublishByName(queue: string, packet: RabbitPacket)
      requires Valid()
      modifies this, channel
      ensures Valid()
      ensures queues == if queue in old(queues) then old(queues) else old(queues)[queue := Of(queue)]
      ensures PublishEffect(old(channel.log), channel.log,
                            PublishRequest(packetRegistry.Contents(), hooks, basicProperties, queues[queue],
                                           packet.cls, packet.fields))
    {
      if queue !in queues {
        queues := queues[queue := Of(queue)];
      }
      Publish(queues[queue], packet);
    }

    /**
     * `publish(rabbitQueue, packet)`: an unregistered class, an id too long for
     * writeUTF and a throwing `write` send nothing; every exception is caught;
     * the event bus is never touched.
     */
    method Publish(rabbitQueue: RabbitQueue, packet: RabbitPacket)
      requires Valid()
      modifies channel
      ensures PublishEffect(old(channel.log), channel.log,
                            PublishRequest(packetRegistry.Contents(), hooks, basicProperties, rabbitQueue,
                                           packet.cls, packet.fields))
    {
      var id := packetRegistry.GetId(packet.cls);
      if id.None? {
        return;
      }
      var prefix := WriteUtf(id.value);
      if prefix.None? {
        return;  // UTFDataFormatException, caught
      }
      var payload := packet.Write(hooks);
      if payload.None? {
        return;  // the packet's write threw, caught
      }
      var body := prefix.value + payload.value;
      var ok;
      if rabbitQueue.IsRabbitEQueue() {
        ok := channel.Call(BasicPublish(rabbitQueue.GetExchange(), rabbitQueue.GetQueue(), basicProperties, body));
      } else {
        ok := channel.Call(BasicPublish("", rabbitQueue.GetQueue(), basicProperties, body));
      }
    }

    /** `removeQueue(name)`: local bookkeeping only. */
    method RemoveQueue(name: string)
      modifies this
      ensures queues == old(queues) - {name}
    {
      queues := queues - {name};
    }
  }

  /** One publish on the log: nothing without a request, else exactly one attempt of it. */
  ghost predicate PublishEffect(log0: seq<Attempt>, log1: seq<Attempt>, request: Option<Request>) {
    if request.None? then log1 == log0
    else |log1| == |log0| + 1 && log1[..|log0|] == log0 && log1[|log0|].request == request.value
  }

  /**
   * Whatever this client sends carries exactly the headers {"author" -> author},
   * whatever the packet's metadata, goes to the destination's exchange (""
   * for a plain destination) under its name, and decodes on a peer with the same
   * registry to the packet's class and fields when the class can be instantiated.
   */
  lemma PublishedMessage(t: Tables, hooks: Hooks, author: string, rq: RabbitQueue,
                          cls: PacketClass, fields: Payload)
    requires Consistent(t) && ExactInverse(hooks)
    requires PublishRequest(t, hooks, map[AuthorKey := Str(author)], rq, cls, fields).Some?
    ensures var r := PublishRequest(t, hooks, map[AuthorKey := Str(author)], rq, cls, fields).value;
      && r.BasicPublish?
      && r.headers == map[AuthorKey := Str(author)]
      && r.exchange == (if rq.IsRabbitEQueue() then rq.GetExchange() else "")
      && r.routingKey == rq.GetQueue()
      && (cls.hasZeroArgCtor && !cls.ctorThrows ==> Decode(t, hooks, r.body) == Decoded(cls, fields))
  {
    EncodeDecode(t, hooks, cls, fields);
  }
}
