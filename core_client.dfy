/**
 * `HopperMq` of the core variant: the client that owns the channel, the
 * event bus, the packet registry and the local table of destinations, and
 * binds, publishes to, deletes and forgets destinations.  Opening the
 * connection and the channel is left out; the channel starts with an empty
 * log.
 */
module CoreClient {
  import opened Base
  import opened DataStream
  import opened Packet
  import opened PacketRegistry
  import opened Frame
  import opened Broker
  import opened Events
  import opened CoreQueue

  /**
   * The message headers: "author" mapped to the local author, then every
   * metadata entry put over it, so a metadata "author" wins.
   */
  function Headers(author: string, metadata: map<string, Value>): map<string, Value> {
    map[AuthorKey := Str(author)] + metadata
  }

  /**
   * (exchange, routing key) of a publish: the destination's exchange and its
   * name for an exchange destination, the default exchange "" and the name
   * otherwise.
   */
  function Route(rq: RabbitQueue): (r: (string, string))
    ensures r.1 == rq.GetQueue()
    ensures r.0 == if rq.IsRabbitEQueue() then rq.GetExchange() else ""
  {
    if rq.IsRabbitEQueue() then (rq.GetExchange(), rq.GetQueue()) else ("", rq.GetQueue())
  }

  /** The request `publish` hands to the broker, or None when it sends nothing. */
  function PublishRequest(t: Tables, hooks: Hooks, author: string, rq: RabbitQueue,
                          cls: PacketClass, fields: Payload, metadata: map<string, Value>): Option<Request>
  {
    match Encode(t, hooks, cls, fields)
    case Frame(body) => Some(BasicPublish(Route(rq).0, Route(rq).1, Headers(author, metadata), body))
    case _ => None
  }

  /**
   * The effect of one `publish` on the channel log and the bus: nothing when
   * there is no request; else exactly that request is attempted, and when it
   * succeeds and `sendToSelf` is set, the packet itself is published locally
   * once.
   */
  ghost predicate PublishEffect(log0: seq<Attempt>, log1: seq<Attempt>,
                                bus0: seq<RabbitEvent>, bus1: seq<RabbitEvent>,
                                request: Option<Request>, packet: RabbitPacket, sendToSelf: bool)
  {
    if request.None? then log1 == log0 && bus1 == bus0
    else
      && |log1| == |log0| + 1 && log1[..|log0|] == log0
      && log1[|log0|].request == request.value
      && bus1 == bus0 + (if sendToSelf && !log1[|log0|].outcome.Failed? then [PacketEvent(packet)] else [])
  }

  /**
   * The calls `bindQueue` makes, each one only after the previous succeeded:
   * for an exchange destination, declare a server-named queue, declare the
   * exchange with the destination's type and flags, bind the new queue to it
   * with the destination's name as routing key, consume the new queue; for
   * any other destination, declare the named queue (durable and autoDelete
   * from the destination, not exclusive) and consume it.
   */
  predicate BindLog(rq: RabbitQueue, log: seq<Attempt>)
    reads rq.Objects()
  {
    if rq.IsRabbitEQueue() then
      && |log| >= 1
      && log[0].request == QueueDeclareServerNamed
      && match log[0].outcome
         case Failed => |log| == 1
         case DeclareOk(anonymous) =>
           Follows(log[1..], [ExchangeDeclare(rq.GetExchange(), rq.GetType(), rq.IsDurable(), rq.IsAutoDelete()),
                              QueueBind(anonymous, rq.GetExchange(), rq.GetQueue()),
                              BasicConsume(anonymous, true)])
         case Done => false
    else
      Follows(log, [QueueDeclare(rq.GetQueue(), rq.IsDurable(), false, rq.IsAutoDelete()),
                    BasicConsume(rq.GetQueue(), true)])
  }

  /**
   * The `forEach` that copies the metadata into the headers: every metadata
   * entry is there with its value, "author" is there, nothing else is, and
   * "author" keeps the local author only when the metadata has none.
   */
  method BuildHeaders(author: string, metadata: map<string, Value>) returns (properties: map<string, Value>)
    ensures properties.Keys == metadata.Keys + {AuthorKey}
    ensures forall k :: k in metadata ==> properties[k] == metadata[k]
    ensures AuthorKey !in metadata ==> properties[AuthorKey] == Str(author)
    ensures properties == Headers(author, metadata)
  {
    properties := map[AuthorKey := Str(author)];
    var remaining := metadata.Keys;
    while remaining != {}
      invariant remaining <= metadata.Keys
      invariant properties.Keys == (metadata.Keys - remaining) + {AuthorKey}
      invariant forall k :: k in metadata && k !in remaining ==> properties[k] == metadata[k]
      invariant AuthorKey in remaining || AuthorKey !in metadata ==> properties[AuthorKey] == Str(author)
      decreases remaining
    {
      var key :| key in remaining;
      properties := properties[key := metadata[key]];
      remaining := remaining - {key};
    }
  }

  class HopperMq {
    const author: string
    const channel: Channel
    const rabbitBus: EventBus
    const rabbitPacketRegistry: RabbitPacketRegistry
    /** The `write`/`read` of the packet classes loaded in this process. */
    const hooks: Hooks
    var queues: map<string, RabbitQueue>

    ghost predicate Valid()
      reads this, rabbitPacketRegistry
    {
      rabbitPacketRegistry.Valid()
    }

    /** `HopperMq(url, author)`, once the connection and channel are open. */
    constructor (author: string, hooks: Hooks)
      ensures Valid()
      ensures this.author == author && this.hooks == hooks
      ensures fresh(channel) && fresh(rabbitBus) && fresh(rabbitPacketRegistry)
      ensures queues == map[] && channel.log == [] && rabbitBus.published == []
      ensures rabbitPacketRegistry.Contents() == Empty
    {
      this.author := author;
      this.hooks := hooks;
      channel := new Channel();
      rabbitBus := new EventBus();
      rabbitPacketRegistry := new RabbitPacketRegistry();
      queues := map[];
    }

    /** `HopperMq(url, selfQueue)`: the destination's name is the author, and it is bound at once. */
    constructor WithSelfQueue(selfQueue: RabbitQueue, hooks: Hooks)
      ensures Valid()
      ensures author == selfQueue.GetQueue() && this.hooks == hooks
      ensures fresh(channel) && fresh(rabbitBus) && fresh(rabbitPacketRegistry)
      ensures queues == map[selfQueue.GetQueue() := selfQueue]
      ensures BindLog(selfQueue, channel.log) && rabbitBus.published == []
      ensures rabbitPacketRegistry.Contents() == Empty
    {
      author := selfQueue.GetQueue();
      this.hooks := hooks;
      channel := new Channel();
      rabbitBus := new EventBus();
      rabbitPacketRegistry := new RabbitPacketRegistry();
      queues := map[];
      new;
      BindQueue(selfQueue);
    }

    /**
     * `bindQueue(rabbitQueue)`: the table entry is written first, so it stays
     * however the broker calls end; the calls stop at the first IOException.
     */
    method BindQueue(rabbitQueue: RabbitQueue)
      requires Valid()
      modifies this, channel
      ensures Valid()
      ensures queues == old(queues)[rabbitQueue.GetQueue() := rabbitQueue]
      ensures |channel.log| >= |old(channel.log)| && channel.log[..|old(channel.log)|] == old(channel.log)
      ensures BindLog(rabbitQueue, channel.log[|old(channel.log)|..])
    {
      queues := queues[rabbitQueue.GetQueue() := rabbitQueue];
      if rabbitQueue.IsRabbitEQueue() {
        BindExchangeQueue(rabbitQueue);
      } else {
        BindNamedQueue(rabbitQueue);
      }
    }

    /** The broker calls of `bindQueue` for an exchange destination. */
    method BindExchangeQueue(rabbitQueue: RabbitQueue)
      requires rabbitQueue.IsRabbitEQueue()
      modifies channel
      ensures |channel.log| >= |old(channel.log)| && channel.log[..|old(channel.log)|] == old(channel.log)
      ensures BindLog(rabbitQueue, channel.log[|old(channel.log)|..])
    {
      ghost var log0 := channel.log;
      var ok, queue := channel.DeclareServerNamed();
      ghost var a0 := Attempt(QueueDeclareServerNamed, if ok then DeclareOk(queue) else Failed);
      assert channel.log[|log0|..] == [a0];
      if !ok { return; }
      var plan := [ExchangeDeclare(rabbitQueue.GetExchange(), rabbitQueue.GetType(),
                                   rabbitQueue.IsDurable(), rabbitQueue.IsAutoDelete()),
                   QueueBind(queue, rabbitQueue.GetExchange(), rabbitQueue.GetQueue()),
                   BasicConsume(queue, true)];
      ok := channel.Call(plan[0]);
      ghost var a1 := Attempt(plan[0], if ok then Done else Failed);
      assert channel.log[|log0|..] == [a0, a1];
      if !ok {
        FollowsIntro([a1], plan);
        assert [a0, a1][1..] == [a1];
        return;
      }
      ok := channel.Call(plan[1]);
      ghost var a2 := Attempt(plan[1], if ok then Done else Failed);
      assert channel.log[|log0|..] == [a0, a1, a2];
      if !ok {
        FollowsIntro([a1, a2], plan);
        assert [a0, a1, a2][1..] == [a1, a2];
        return;
      }
      ok := channel.Call(plan[2]);
      ghost var a3 := Attempt(plan[2], if ok then Done else Failed);
      assert channel.log[|log0|..] == [a0, a1, a2, a3];
      FollowsIntro([a1, a2, a3], plan);
      assert [a0, a1, a2, a3][1..] == [a1, a2, a3];
    }

    /** The broker calls of `bindQueue` for any other destination. */
    method BindNamedQueue(rabbitQueue: RabbitQueue)
      requires !rabbitQueue.IsRabbitEQueue()
      modifies channel
      ensures |channel.log| >= |old(channel.log)| && channel.log[..|old(channel.log)|] == old(channel.log)
      ensures BindLog(rabbitQueue, channel.log[|old(channel.log)|..])
    {
      ghost var log0 := channel.log;
      var plan := [QueueDeclare(rabbitQueue.GetQueue(), rabbitQueue.IsDurable(), false, rabbitQueue.IsAutoDelete()),
                   BasicConsume(rabbitQueue.GetQueue(), true)];
      var ok := channel.Call(plan[0]);
      ghost var a0 := Attempt(plan[0], if ok then Done else Failed);
      assert channel.log[|log0|..] == [a0];
      if !ok {
        FollowsIntro([a0], plan);
        return;
      }
      ok := channel.Call(plan[1]);
      ghost var a1 := Attempt(plan[1], if ok then Done else Failed);
      assert channel.log[|log0|..] == [a0, a1];
      FollowsIntro([a0, a1], plan);
    }

    /** `publish(queue, packet)`: the table's destination for the name, made and kept on first use. */
    method PublishByName(queue: string, packet: RabbitPacket)
      requires Valid()
      modifies this, channel, rabbitBus
      ensures Valid()
      ensures queue in old(queues) ==> queues == old(queues)
      ensures queue in queues && queues == old(queues)[queue := queues[queue]]
      ensures queue !in old(queues) ==>
        && queues[queue].Plain? && fresh(queues[queue].q)
        && queues[queue].GetQueue() == queue
        && !queues[queue].IsDurable() && queues[queue].IsAutoDelete()
      ensures PublishEffect(old(channel.log), channel.log, old(rabbitBus.published), rabbitBus.published,
                            PublishRequest(rabbitPacketRegistry.Contents(), hooks, author, queues[queue],
                                           packet.cls, packet.fields, packet.metadata),
                            packet, false)
    {
      var rabbitQueue;
      if queue in queues {
        rabbitQueue := queues[queue];
      } else {
        rabbitQueue := QueueBuilder(queue);
        queues := queues[queue := rabbitQueue];
      }
      Publish(rabbitQueue, packet);
    }

    /**
     * `publish(rabbitQueue, packet, sendToSelf)`: an unregistered class, an
     * id too long for writeUTF and a throwing `write` send nothing; every
     * exception is caught, and the local copy goes out only after the broker
     * accepted the message.
     */
    method Publish(rabbitQueue: RabbitQueue, packet: RabbitPacket, sendToSelf: bool := false)
      requires Valid()
      modifies channel, rabbitBus
      ensures PublishEffect(old(channel.log), channel.log, old(rabbitBus.published), rabbitBus.published,
                            PublishRequest(rabbitPacketRegistry.Contents(), hooks, author, rabbitQueue,
                                           packet.cls, packet.fields, packet.metadata),
                            packet, sendToSelf)
    {
      var id := rabbitPacketRegistry.GetId(packet.cls);
      if id.None? {
        return;
      }
      var prefix := WriteUtf(id.value);
      if prefix.None? {
        return;  // UTFDataFormatException, caught
      }
      var payload := packet.Write(hooks);
      if payload.None? {
        return;  // the packet's write threw, caught
      }
      var body := prefix.value + payload.value;
      var properties := BuildHeaders(author, packet.metadata);
      var ok;
      if rabbitQueue.IsRabbitEQueue() {
        ok := channel.Call(BasicPublish(rabbitQueue.GetExchange(), rabbitQueue.GetQueue(), properties, body));
      } else {
        ok := channel.Call(BasicPublish("", rabbitQueue.GetQueue(), properties, body));
      }
      if !ok {
        return;  // caught
      }
      if sendToSelf {
        rabbitBus.Publish(PacketEvent(packet));
      }
    }

    /** `deleteQueue(queue)`: the local entry goes only when the broker deleted the queue. */
    method DeleteQueue(queue: string)
      modifies this, channel
      ensures |channel.log| == |old(channel.log)| + 1 && channel.log[..|old(channel.log)|] == old(channel.log)
      ensures channel.log[|old(channel.log)|].request == QueueDelete(queue)
      ensures queues == if channel.log[|old(channel.log)|].outcome.Failed? then old(queues) else old(queues) - {queue}
    {
      var ok := channel.Call(QueueDelete(queue));
      if ok {
        queues := queues - {queue};
      }
    }

    /** `removeQueue(queue)`: local bookkeeping only. */
    method RemoveQueue(queue: string)
      modifies this
      ensures queues == old(queues) - {queue}
    {
      queues := queues - {queue};
    }

    /** `removeQueue(rabbitQueue)` */
    method RemoveRabbitQueue(rabbitQueue: RabbitQueue)
      modifies this
      ensures queues == old(queues) - {rabbitQueue.GetQueue()}
    {
      RemoveQueue(rabbitQueue.GetQueue());
    }
  }

  /** A packet whose class has no id is never sent, whatever the destination. */
  lemma UnregisteredSendsNothing(t: Tables, hooks: Hooks, author: string, rq: RabbitQueue,
                                 cls: PacketClass, fields: Payload, metadata: map<string, Value>)
    requires cls !in t.packetToId
    ensures PublishRequest(t, hooks, author, rq, cls, fields, metadata) == None
  {
  }

  /**
   * What a publish sends goes to the destination's exchange (the default
   * exchange "" for a plain destination) under the destination's name, carries
   * the effective author in its headers, and decodes, on a peer with the same
   * registry, to the packet's class and fields when the class can be instantiated.
   */
  lemma PublishedMessageDecodes(t: Tables, hooks: Hooks, author: string, rq: RabbitQueue,
                                 cls: PacketClass, fields: Payload, metadata: map<string, Value>)
    requires Consistent(t) && ExactInverse(hooks)
    requires PublishRequest(t, hooks, author, rq, cls, fields, metadata).Some?
    ensures var r := PublishRequest(t, hooks, author, rq, cls, fields, metadata).value;
      && r.BasicPublish?
      && r.exchange == (if rq.IsRabbitEQueue() then rq.GetExchange() else "")
      && r.routingKey == rq.GetQueue()
      && r.headers == Headers(author, metadata)
      && r.headers[AuthorKey] == (if AuthorKey in metadata then metadata[AuthorKey] else Str(author))
      && (cls.hasZeroArgCtor && !cls.ctorThrows ==> Decode(t, hooks, r.body) == Decoded(cls, fields))
  {
    EncodeDecode(t, hooks, cls, fields);
  }
}
