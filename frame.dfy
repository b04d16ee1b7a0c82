/**
 * The wire frame: `writeUTF(id)` followed by the packet's own `write`, and
 * its inverse, `readUTF` followed by a registry lookup and the packet's own
 * `read`.  Both clients encode this way and the delivery dispatcher decodes
 * this way.
 */
module Frame {
  import opened Base
  import opened DataStream
  import opened Packet
  import opened PacketRegistry

  datatype EncodeResult =
    | Unregistered          // getId returned null: nothing is sent
    | IdTooLong             // writeUTF threw UTFDataFormatException
    | WriteThrew            // the packet's write threw
    | Frame(body: seq<byte>)

  /** The frame body for a packet of class `cls` with fields `fields`. */
  function Encode(t: Tables, hooks: Hooks, cls: PacketClass, fields: Payload): (r: EncodeResult)
    ensures r == Unregistered <==> cls !in t.packetToId
    ensures r == IdTooLong <==> cls in t.packetToId && WriteUtf(t.packetToId[cls]).None?
    ensures r == WriteThrew <==>
      cls in t.packetToId && WriteUtf(t.packetToId[cls]).Some? && hooks.write(cls, fields).None?
    ensures r.Frame? <==>
      cls in t.packetToId && WriteUtf(t.packetToId[cls]).Some? && hooks.write(cls, fields).Some?
    ensures r.Frame? ==> r.body == WriteUtf(t.packetToId[cls]).value + hooks.write(cls, fields).value
  {
    if cls !in t.packetToId then Unregistered
    else
      match WriteUtf(t.packetToId[cls])
      case None => IdTooLong
      case Some(prefix) =>
        match hooks.write(cls, fields)
        case None => WriteThrew
        case Some(payload) => Frame(prefix + payload)
  }

  datatype DecodeResult =
    | IdUnreadable(error: StreamError)   // readUTF threw
    | NoPacket(why: Instantiation)        // getPacket(id) returned null
    | ReadThrew(cls: PacketClass)         // the packet's read threw
    | Decoded(cls: PacketClass, fields: Payload)

  /**
   * Decoding a frame body: read the id, instantiate its class, let the
   * instance read the bytes that follow the id.  An id that no string of the
   * model spells (an unpaired surrogate) can be registered by no class, so it
   * is an unknown id.
   */
  function Decode(t: Tables, hooks: Hooks, body: seq<byte>): (r: DecodeResult)
    ensures r.IdUnreadable? <==> ReadUtf(body).Threw?
    ensures r.IdUnreadable? ==> r.error == ReadUtf(body).error
    ensures ReadUtf(body).Read? && FromUtf16(ReadUtf(body).units).None? ==> r == NoPacket(UnknownId)
    ensures ReadUtf(body).Read? && FromUtf16(ReadUtf(body).units).Some?
            && !Instantiate(t, FromUtf16(ReadUtf(body).units).value).Instance? ==>
              r == NoPacket(Instantiate(t, FromUtf16(ReadUtf(body).units).value))
    ensures r.ReadThrew? <==>
      && ReadUtf(body).Read?
      && FromUtf16(ReadUtf(body).units).Some?
      && Instantiate(t, FromUtf16(ReadUtf(body).units).value).Instance?
      && hooks.read(Instantiate(t, FromUtf16(ReadUtf(body).units).value).cls, ReadUtf(body).rest).None?
    ensures r.ReadThrew? ==> Instantiate(t, FromUtf16(ReadUtf(body).units).value) == Instance(r.cls)
    ensures r.Decoded? <==>
      && ReadUtf(body).Read?
      && FromUtf16(ReadUtf(body).units).Some?
      && Instantiate(t, FromUtf16(ReadUtf(body).units).value).Instance?
      && hooks.read(Instantiate(t, FromUtf16(ReadUtf(body).units).value).cls, ReadUtf(body).rest).Some?
    ensures r.Decoded? ==>
      && Instantiate(t, FromUtf16(ReadUtf(body).units).value) == Instance(r.cls)
      && hooks.read(r.cls, ReadUtf(body).rest) == Some(r.fields)
  {
    match ReadUtf(body)
    case Threw(e) => IdUnreadable(e)
    case Read(units, rest) =>
      match FromUtf16(units)
      case None => NoPacket(UnknownId)
      case Some(id) =>
        match Instantiate(t, id)
        case Instance(c) =>
          (match hooks.read(c, rest)
           case None => ReadThrew(c)
           case Some(f) => Decoded(c, f))
        case why => NoPacket(why)
  }

  /**
   * Round trip: on consistent tables and with packet types whose `read` undoes
   * their `write`, decoding an encoded frame gives back the class and the
   * fields, unless the class cannot be instantiated; then the receiver drops
   * the frame although the sender could send it.
   */
  lemma EncodeDecode(t: Tables, hooks: Hooks, cls: PacketClass, fields: Payload)
    requires Consistent(t) && ExactInverse(hooks)
    requires Encode(t, hooks, cls, fields).Frame?
    ensures cls.hasZeroArgCtor && !cls.ctorThrows ==>
      Decode(t, hooks, Encode(t, hooks, cls, fields).body) == Decoded(cls, fields)
    ensures !cls.hasZeroArgCtor ==>
      Decode(t, hooks, Encode(t, hooks, cls, fields).body) == NoPacket(NoConstructor)
    ensures cls.hasZeroArgCtor && cls.ctorThrows ==>
      Decode(t, hooks, Encode(t, hooks, cls, fields).body) == NoPacket(ConstructorFailed)
  {
    var id := t.packetToId[cls];
    var payload := hooks.write(cls, fields).value;
    WriteReadUtf(id, payload);
    assert ReadUtf(Encode(t, hooks, cls, fields).body) == Read(Utf16(id), payload);
    assert t.idToPacket[id] == cls;
  }

  /** A body too short for the 2-byte length, or for the length it announces, cannot be decoded. */
  lemma TruncatedIdUnreadable(t: Tables, hooks: Hooks, body: seq<byte>)
    requires |body| < 2 || |body| - 2 < body[0] as int * 256 + body[1] as int
    ensures Decode(t, hooks, body) == IdUnreadable(EOFException)
  {
  }
}
