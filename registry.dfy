/**
 * `RabbitPacketRegistry` (core) and `PacketRegistry` (src): three mutable
 * tables, id -> class, class -> id and class -> cached zero-argument
 * constructor.  The two variants have the same `register`, `getPacket` and
 * `getId`; the core one adds `getAllPackets`.  A constructor is determined by
 * its class, so the constructor table is kept as the set of its keys.
 */
module PacketRegistry {
  import opened Base
  import opened Packet

  /** The three tables as one value. */
  datatype Tables = Tables(
    idToPacket: map<string, PacketClass>,
    packetToId: map<PacketClass, string>,
    constructors: set<PacketClass>)

  const Empty := Tables(map[], map[], {})

  /** The id a labelled class registers under: the label's value unless empty, else the simple name. */
  function ResolveId(c: PacketClass): string
    requires c.annotation.Some?
  {
    if c.annotation.value != "" then c.annotation.value else c.simpleName
  }

  /**
   * What `register` keeps true: the two id tables are inverse to each other,
   * every registered class sits under its own resolved id, and a class has a
   * cached constructor exactly when it is registered and has a zero-argument
   * constructor.
   */
  ghost predicate Consistent(t: Tables) {
    && (forall id :: id in t.idToPacket ==>
          t.idToPacket[id] in t.packetToId && t.packetToId[t.idToPacket[id]] == id)
    && (forall c :: c in t.packetToId ==>
          t.packetToId[c] in t.idToPacket && t.idToPacket[t.packetToId[c]] == c)
    && (forall c :: c in t.packetToId ==> c.annotation.Some? && t.packetToId[c] == ResolveId(c))
    && (forall c :: c in t.constructors ==> c in t.packetToId && c.hasZeroArgCtor)
    && (forall c :: c in t.packetToId && c.hasZeroArgCtor ==> c in t.constructors)
  }

  /**
   * The tables after `register(c)`, as the code is written: an unlabelled
   * class and a taken id change nothing; otherwise both id tables are written
   * BEFORE the constructor is looked up, and only the constructor table
   * depends on that lookup.
   */
  function Registered(t: Tables, c: PacketClass): Tables {
    if c.annotation.None? then t
    else
      var id := ResolveId(c);
      if id in t.idToPacket then t
      else Tables(t.idToPacket[id := c], t.packetToId[c := id],
                  if c.hasZeroArgCtor then t.constructors + {c} else t.constructors)
  }

  /** The outcome of `getPacket(id)`; all but Instance are `null`. */
  datatype Instantiation =
    | UnknownId          // no class under the id
    | NoConstructor      // the class has an id but no cached constructor
    | ConstructorFailed  // newInstance() threw
    | Instance(cls: PacketClass)

  function Instantiate(t: Tables, id: string): Instantiation {
    if id !in t.idToPacket then UnknownId
    else
      var c := t.idToPacket[id];
      if c !in t.constructors then NoConstructor
      else if c.ctorThrows then ConstructorFailed
      else Instance(c)
  }

  /** `register` keeps the tables consistent. */
  lemma RegisteredConsistent(t: Tables, c: PacketClass)
    requires Consistent(t)
    ensures Consistent(Registered(t, c))
  {
    if c.annotation.Some? && ResolveId(c) !in t.idToPacket {
      var id := ResolveId(c);
      // c cannot already hold an id: it would be its own resolved id, which is free
      assert c !in t.packetToId;
    }
  }

  /** An unlabelled class leaves all three tables as they were. */
  lemma UnlabelledIgnored(t: Tables, c: PacketClass)
    requires c.annotation.None?
    ensures Registered(t, c) == t
  {
  }

  /** A labelled class whose resolved id is taken leaves all three tables as they were. */
  lemma TakenIdIgnored(t: Tables, c: PacketClass)
    requires c.annotation.Some? && ResolveId(c) in t.idToPacket
    ensures Registered(t, c) == t
  {
  }

  /**
   * Registration never takes an id away from its holder, never moves a class
   * to another id and never drops a cached constructor: the first registrant
   * of an id keeps it.
   */
  lemma RegisteredKeepsEarlier(t: Tables, c: PacketClass)
    requires Consistent(t)
    ensures var r := Registered(t, c);
      && (forall id :: id in t.idToPacket ==> id in r.idToPacket && r.idToPacket[id] == t.idToPacket[id])
      && (forall k :: k in t.packetToId ==> k in r.packetToId && r.packetToId[k] == t.packetToId[k])
      && t.constructors <= r.constructors
  {
    if c.annotation.Some? && ResolveId(c) !in t.idToPacket {
      assert c !in t.packetToId;
    }
  }

  /**
   * Two classes that resolve to the same id, registered one after the other
   * on tables where the id is free: the second gets no id, and the id still
   * leads to the first.
   */
  lemma DuplicateIdRejected(t: Tables, a: PacketClass, b: PacketClass)
    requires Consistent(t)
    requires a.annotation.Some? && b.annotation.Some? && a != b
    requires ResolveId(a) == ResolveId(b) && ResolveId(a) !in t.idToPacket
    ensures var r := Registered(Registered(t, a), b);
      && b !in r.packetToId
      && r.idToPacket[ResolveId(a)] == a
      && r.packetToId[a] == ResolveId(a)
  {
    RegisteredConsistent(t, a);
  }

  /**
   * A labelled class with a free id but no zero-argument constructor gets both
   * id entries anyway: `getId` finds its id, `getPacket(id)` returns null.
   * The registration is not all-or-nothing.
   */
  lemma DanglingIdWithoutConstructor(t: Tables, c: PacketClass)
    requires Consistent(t)
    requires c.annotation.Some? && ResolveId(c) !in t.idToPacket && !c.hasZeroArgCtor
    ensures var r := Registered(t, c);
      && c in r.packetToId && r.packetToId[c] == ResolveId(c)
      && r.idToPacket[ResolveId(c)] == c
      && Instantiate(r, ResolveId(c)) == NoConstructor
  {
  }

  /**
   * A labelled class with a free id and a zero-argument constructor that does
   * not throw is fully registered: its id is found, and the id instantiates it.
   */
  lemma FullRegistration(t: Tables, c: PacketClass)
    requires Consistent(t)
    requires c.annotation.Some? && ResolveId(c) !in t.idToPacket
    requires c.hasZeroArgCtor && !c.ctorThrows
    ensures var r := Registered(t, c);
      && r.packetToId[c] == ResolveId(c)
      && Instantiate(r, ResolveId(c)) == Instance(c)
  {
  }

  /** On consistent tables, whatever an id instantiates is registered under that id. */
  lemma InstanceHasItsId(t: Tables, id: string)
    requires Consistent(t)
    requires Instantiate(t, id).Instance?
    ensures var c := Instantiate(t, id).cls;
      c in t.packetToId && t.packetToId[c] == id && c.hasZeroArgCtor && !c.ctorThrows
  {
  }

  class RabbitPacketRegistry {
    var idToPacket: map<string, PacketClass>
    var packetToId: map<PacketClass, string>
    var constructorPacket: set<PacketClass>

    function Contents(): Tables
      reads this
    {
      Tables(idToPacket, packetToId, constructorPacket)
    }

    ghost predicate Valid()
      reads this
    {
      Consistent(Contents())
    }

    constructor ()
      ensures Valid() && Contents() == Empty
    {
      idToPacket, packetToId, constructorPacket := map[], map[], {};
    }

    /** `register(packet)` */
    method Register(packet: PacketClass)
      requires Valid()
      modifies this
      ensures Valid()
      ensures Contents() == Registered(old(Contents()), packet)
    {
      RegisteredConsistent(Contents(), packet);
      if packet.annotation.None? {
        return;  // "does not have RabbitPacketLabel annotation"
      }
      var value := packet.annotation.value;
      var id := if value != "" then value else packet.simpleName;
      if id in idToPacket {
        return;  // "has already been used by another packet"
      }
      idToPacket := idToPacket[id := packet];
      packetToId := packetToId[packet := id];
      if packet.hasZeroArgCtor {
        constructorPacket := constructorPacket + {packet};
      }
      // otherwise: "Cannot find empty constructor", and the id entries stay
    }

    /** `getPacket(id)`: a fresh instance, or null. */
    method GetPacket(id: string) returns (p: RabbitPacket?)
      requires Valid()
      ensures p != null <==> Instantiate(Contents(), id).Instance?
      ensures p != null ==>
        && fresh(p)
        && p.cls == Instantiate(Contents(), id).cls
        && p.fields == p.cls.initial && p.metadata == map[]
    {
      if id !in idToPacket {
        return null;
      }
      var packetClass := idToPacket[id];
      if packetClass !in constructorPacket {
        return null;
      }
      if packetClass.ctorThrows {
        return null;  // "Cannot create instance"
      }
      p := new RabbitPacket(packetClass);
    }

    /** `getId(clazz)`: the id the class was registered under, if any. */
    function GetId(clazz: PacketClass): (r: Option<string>)
      requires Valid()
      reads this
      ensures r.Some? <==> clazz in packetToId
      ensures r.Some? ==> r.value in idToPacket && idToPacket[r.value] == clazz
      ensures r.Some? ==> clazz.annotation.Some? && r.value == ResolveId(clazz)
    {
      if clazz in packetToId then Some(packetToId[clazz]) else None
    }

    /**
     * `getAllPackets()`: a copy of the id table.  It is a value, so later
     * registrations cannot change it.
     */
    method GetAllPackets() returns (all: map<string, PacketClass>)
      requires Valid()
      ensures all == idToPacket
      ensures forall id :: id in all ==> GetId(all[id]) == Some(id)
    {
      all := idToPacket;
    }
  }
}
