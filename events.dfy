/**
 * The local event bus, an external library, as the sequence of the events
 * published on it, and the events the core publishes (a packet is itself an
 * event).
 */
module Events {
  import opened Packet

  /** `ShutdownSignalException`, reduced to its reason. */
  datatype ShutdownSignal = ShutdownSignal(reason: string)

  datatype RabbitEvent =
    | PacketEvent(packet: RabbitPacket)
    | RabbitConsumerReadyEvent(consumerTag: string)
    | RabbitShutdownSignalEvent(consumerTag: string, exception: ShutdownSignal)

  class EventBus {
    var published: seq<RabbitEvent>

    constructor ()
      ensures published == []
    {
      published := [];
    }

    /** `publish(event)`: every subscriber for the event's type sees it. */
    method Publish(event: RabbitEvent)
      modifies this
      ensures published == old(published) + [event]
    {
      published := published + [event];
    }
  }
}
