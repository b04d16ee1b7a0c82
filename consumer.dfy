/**
 * `DefaultRabbitConsumer`: the callback the broker calls for every delivery
 * and lifecycle signal.  It works against the client it was made for: its
 * author, its registry, its event bus and its destination table.
 */
module Consumer {
  import opened Base
  import opened DataStream
  import opened Packet
  import opened PacketRegistry
  import opened Frame
  import opened Events
  import LegacyClient
  import CoreClient
  import LegacyQueue
  import CoreQueue

  /** What a delivery comes to. */
  datatype Verdict =
    | NoAuthorHeader                 // no properties, no headers or no "author": return
    | OwnMessage                     // the local author sent it: return before decoding
    | Escapes(error: StreamError)    // readUTF threw; it sits outside the try, so the exception leaves the callback
    | Dropped(why: DecodeResult)     // unknown id, no instance, or read threw: logged, return
    | Deliver(cls: PacketClass, fields: Payload, author: string)

  /**
   * The decision chain of `handleDelivery`: read the "author" header as a
   * string, drop what the local author sent, decode the body, and deliver the
   * packet stamped with the header's author.
   */
  function Classify(localAuthor: string, t: Tables, hooks: Hooks,
                    headers: Option<map<string, Value>>, body: seq<byte>): Verdict
  {
    if headers.None? || AuthorKey !in headers.value then NoAuthorHeader
    else
      var author := ToString(headers.value[AuthorKey]);
      if author == localAuthor then OwnMessage
      else
        match Decode(t, hooks, body)
        case IdUnreadable(e) => Escapes(e)
        case Decoded(c, f) => Deliver(c, f, author)
        case other => Dropped(other)
  }

  class DefaultRabbitConsumer {
    const hopperMq: LegacyClient.HopperMq

    constructor (hopperMq: LegacyClient.HopperMq)
      ensures this.hopperMq == hopperMq
    {
      this.hopperMq := hopperMq;
    }

    /** `handleConsumeOk(consumerTag)`: one ready event, nothing else. */
    method HandleConsumeOk(consumerTag: string)
      modifies hopperMq.rabbitBus
      ensures hopperMq.rabbitBus.published == old(hopperMq.rabbitBus.published) + [RabbitConsumerReadyEvent(consumerTag)]
    {
      hopperMq.rabbitBus.Publish(RabbitConsumerReadyEvent(consumerTag));
    }

    /**
     * `handleShutdownSignal(consumerTag, sig)`: one shutdown event, then the
     * table entry whose key equals the consumer tag (if any) is removed.
     */
    method HandleShutdownSignal(consumerTag: string, sig: ShutdownSignal)
      modifies hopperMq.rabbitBus, hopperMq
      ensures hopperMq.rabbitBus.published ==
              old(hopperMq.rabbitBus.published) + [RabbitShutdownSignalEvent(consumerTag, sig)]
      ensures hopperMq.queues == old(hopperMq.queues) - {consumerTag}
    {
      hopperMq.rabbitBus.Publish(RabbitShutdownSignalEvent(consumerTag, sig));
      hopperMq.RemoveQueue(consumerTag);
    }

    /**
     * `handleDelivery(consumerTag, envelope, properties, body)`; `headers` is
     * None when the properties or their headers are null.  `thrown` is the
     * exception that leaves the callback.  Exactly one event is published, a
     * fresh packet of the decoded class with the decoded fields and metadata
     * {"author" -> the header's author}, when the verdict is Deliver; none otherwise.
     */
    method HandleDelivery(consumerTag: string, headers: Option<map<string, Value>>, body: seq<byte>)
      returns (thrown: Option<StreamError>)
      requires hopperMq.Valid()
      modifies hopperMq.rabbitBus
      ensures var v := Classify(hopperMq.author, hopperMq.packetRegistry.Contents(), hopperMq.hooks, headers, body);
        var bus0, bus1 := old(hopperMq.rabbitBus.published), hopperMq.rabbitBus.published;
        && thrown == (if v.Escapes? then Some(v.error) else None)
        && (v.Deliver? ==>
              && |bus1| == |bus0| + 1 && bus1[..|bus0|] == bus0
              && bus1[|bus0|].PacketEvent?
              && fresh(bus1[|bus0|].packet)
              && bus1[|bus0|].packet.cls == v.cls
              && bus1[|bus0|].packet.fields == v.fields
              && bus1[|bus0|].packet.metadata == map[AuthorKey := Str(v.author)])
        && (!v.Deliver? ==> bus1 == bus0)
    {
      thrown := None;
      if headers.None? || AuthorKey !in headers.value {
        return;
      }
      var author := ToString(headers.value[AuthorKey]);
      if author == hopperMq.author {
        return;
      }
      var id := ReadUtf(body);
      if id.Threw? {
        return Some(id.error);
      }
      var packet: RabbitPacket? := null;
      var name := FromUtf16(id.units);
      if name.Some? {
        packet := hopperMq.packetRegistry.GetPacket(name.value);
      }
      if packet == null {
        return;  // "Packet with id ... was not found"
      }
      var ok := packet.Read(hopperMq.hooks, id.rest);
      if !ok {
        return;  // "Error while reading packet", caught
      }
      packet.Put(AuthorKey, Str(author));
      hopperMq.rabbitBus.Publish(PacketEvent(packet));
    }
  }

  /** A delivery without an "author" header is dropped, whatever its body. */
  lemma NoAuthorHeaderDropped(localAuthor: string, t: Tables, hooks: Hooks,
                              headers: Option<map<string, Value>>, body: seq<byte>)
    requires headers.None? || AuthorKey !in headers.value
    ensures Classify(localAuthor, t, hooks, headers, body) == NoAuthorHeader
  {
  }

  /** A body too short for its id's length prefix throws out of the callback. */
  lemma TruncatedBodyEscapes(localAuthor: string, t: Tables, hooks: Hooks,
                             headers: map<string, Value>, body: seq<byte>)
    requires AuthorKey in headers && ToString(headers[AuthorKey]) != localAuthor
    requires |body| < 2
    ensures Classify(localAuthor, t, hooks, Some(headers), body) == Escapes(EOFException)
  {
  }

  /**
   * Loop prevention in the `src` variant: whatever a client publishes, the
   * same client's consumer drops when the broker echoes it back.
   */
  lemma LegacyEchoDropped(author: string, t: Tables, hooks: Hooks, rq: LegacyQueue.RabbitQueue,
                          cls: PacketClass, fields: Payload)
    requires LegacyClient.PublishRequest(t, hooks, map[AuthorKey := Str(author)], rq, cls, fields).Some?
    ensures var r := LegacyClient.PublishRequest(t, hooks, map[AuthorKey := Str(author)], rq, cls, fields).value;
      Classify(author, t, hooks, Some(r.headers), r.body) == OwnMessage
  {
  }

  /**
   * End to end in the `src` variant: what client `sender` publishes, a
   * consumer of any other author with the same registry delivers as a packet
   * of the same class and fields, stamped with `sender`.
   */
  lemma LegacyDeliveredToPeer(sender: string, receiver: string, t: Tables, hooks: Hooks,
                                                 rq: LegacyQueue.RabbitQueue, cls: PacketClass, fields: Payload)
    requires sender != receiver
    requires Consistent(t) && ExactInverse(hooks)
    requires cls.hasZeroArgCtor && !cls.ctorThrows
    requires LegacyClient.PublishRequest(t, hooks, map[AuthorKey := Str(sender)], rq, cls, fields).Some?
    ensures var r := LegacyClient.PublishRequest(t, hooks, map[AuthorKey := Str(sender)], rq, cls, fields).value;
      Classify(receiver, t, hooks, Some(r.headers), r.body) == Deliver(cls, fields, sender)
  {
    LegacyClient.PublishedMessage(t, hooks, sender, rq, cls, fields);
  }

  /**
   * In the core variant the headers take a metadata "author" over the local
   * author.  A packet that carries another author in its metadata (every
   * packet the consumer delivered does) is therefore not dropped as an echo
   * when its publisher receives it back, and is dropped instead by the peer
   * whose name it carries.
   */
  lemma CoreMetadataAuthorDefeatsLoopPrevention(
    author: string, other: string, t: Tables, hooks: Hooks, rq: CoreQueue.RabbitQueue,
    cls: PacketClass, fields: Payload, metadata: map<string, Value>)
    requires other != author
    requires AuthorKey in metadata && metadata[AuthorKey] == Str(other)
    requires Consistent(t) && ExactInverse(hooks)
    requires cls.hasZeroArgCtor && !cls.ctorThrows
    requires CoreClient.PublishRequest(t, hooks, author, rq, cls, fields, metadata).Some?
    ensures var r := CoreClient.PublishRequest(t, hooks, author, rq, cls, fields, metadata).value;
      && Classify(author, t, hooks, Some(r.headers), r.body) == Deliver(cls, fields, other)
      && Classify(other, t, hooks, Some(r.headers), r.body) == OwnMessage
  {
    CoreClient.PublishedMessageDecodes(t, hooks, author, rq, cls, fields, metadata);
  }
}
