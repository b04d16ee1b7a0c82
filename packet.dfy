/**
 * `RabbitPacket`: the abstract base of every packet type.  A packet carries a
 * mutable metadata map and its own fields; each concrete packet type writes
 * and reads those fields itself.  Both the `core` and the older `src` variant
 * of the class have exactly this shape.
 */
module Packet {
  import opened Base

  /**
   * The scalar values metadata and message headers hold (Kotlin `Any`
   * restricted to what the broker headers carry).
   */
  datatype Value = Str(s: string) | Int(i: int) | Bool(b: bool)

  /** Decimal digits of a natural number. */
  function Digits(n: nat): (r: string)
    ensures |r| >= 1
    decreases n
  {
    var d := [(('0' as int) + n % 10) as char];
    if n < 10 then d else Digits(n / 10) + d
  }

  /** `toString()` of a header value. */
  function ToString(v: Value): string {
    match v
    case Str(s) => s
    case Int(i) => if i < 0 then "-" + Digits(-i) else Digits(i)
    case Bool(b) => if b then "true" else "false"
  }

  /** The field values of a packet, which only its own type interprets. */
  type Payload = seq<Value>

  /**
   * A packet class (`Class<out RabbitPacket>`), given by the attributes the
   * core asks reflection about.  `annotation` is the value of the
   * `RabbitPacketLabel` annotation, None when the class is not annotated;
   * `initial` is what the zero-argument constructor leaves in the fields, and
   * `ctorThrows` says that calling it throws.
   */
  datatype PacketClass = PacketClass(
    name: string,
    simpleName: string,
    annotation: Option<string>,
    hasZeroArgCtor: bool,
    ctorThrows: bool,
    initial: Payload)

  /**
   * The per-type `write(output)` and `read(input)` of every packet class, as
   * functions: `write` gives the bytes a packet's fields are written as, or
   * None when it throws; `read` gives the fields read from the bytes that
   * follow the frame's id, or None when it throws.
   */
  datatype Hooks = Hooks(
    write: (PacketClass, Payload) -> Option<seq<byte>>,
    read: (PacketClass, seq<byte>) -> Option<Payload>)

  /** The contract every packet type is held to: `read` undoes `write`. */
  ghost predicate ExactInverse(h: Hooks) {
    forall c, p :: h.write(c, p).Some? ==> h.read(c, h.write(c, p).value) == Some(p)
  }

  /** The value of the `author` accessor. */
  datatype AuthorResult =
    | NoAuthor              // null: no "author" key
    | Author(name: string)  // the string stored under "author"
    | CastFailure           // ClassCastException: a non-string under "author"

  const AuthorKey := "author"

  /** `metadata["author"] as String?` */
  function AuthorOf(metadata: map<string, Value>): (r: AuthorResult)
    ensures r == NoAuthor <==> AuthorKey !in metadata
    ensures r.Author? <==> AuthorKey in metadata && metadata[AuthorKey].Str?
    ensures r.Author? ==> metadata[AuthorKey] == Str(r.name)
  {
    if AuthorKey !in metadata then NoAuthor
    else match metadata[AuthorKey]
      case Str(s) => Author(s)
      case _ => CastFailure
  }

  /** Storing a string under "author" makes it what `author` returns. */
  lemma AuthorAfterPut(metadata: map<string, Value>, name: string)
    ensures AuthorOf(metadata[AuthorKey := Str(name)]) == Author(name)
  {
  }

  class RabbitPacket {
    /** The runtime class, `packet::class.java`. */
    const cls: PacketClass
    /** The packet type's own fields. */
    var fields: Payload
    var metadata: map<string, Value>

    /** The zero-argument constructor of `cls`. */
    constructor (cls: PacketClass)
      ensures this.cls == cls && fields == cls.initial && metadata == map[]
    {
      this.cls := cls;
      fields := cls.initial;
      metadata := map[];
    }

    function GetAuthor(): (r: AuthorResult)
      reads this
      ensures r == AuthorOf(metadata)
    {
      AuthorOf(metadata)
    }

    /** `metadata[key] = value` */
    method Put(key: string, value: Value)
      modifies this
      ensures metadata == old(metadata)[key := value]
      ensures fields == old(fields)
    {
      metadata := metadata[key := value];
    }

    /** `write(output)`: None when it throws. */
    function Write(hooks: Hooks): Option<seq<byte>>
      reads this
    {
      hooks.write(cls, fields)
    }

    /**
     * `read(input)` over `input`: on success the fields are what was read; when
     * it throws the packet is left as it was (callers discard it).
     */
    method Read(hooks: Hooks, input: seq<byte>) returns (ok: bool)
      modifies this
      ensures ok == hooks.read(cls, input).Some?
      ensures fields == if ok then hooks.read(cls, input).value else old(fields)
      ensures metadata == old(metadata)
    {
      var r := hooks.read(cls, input);
      ok := r.Some?;
      if ok {
        fields := r.value;
      }
    }
  }
}
