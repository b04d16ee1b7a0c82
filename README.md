# HopperMq in Dafny

HopperMq is a typed-packet messaging layer over RabbitMQ. An application
registers packet classes under string ids. A client publishes a packet to a
named destination: the frame body is the packet's id as written by
`DataOutputStream.writeUTF`, followed by the bytes the packet's own `write`
produces, and the message headers carry the sender's `author`. The shared
consumer reads such a frame back. It drops messages its own author sent, looks
the id up in the registry, lets a fresh instance read the rest of the frame,
stamps the sender's author into the packet's metadata, and publishes the
packet on a local event bus. A compile-time processor writes a
`GeneratedPacketRegistry` object that registers every labelled class.

The repository has two generations of the client, and both are modelled. The
`core` variant adds configurable queue flags, metadata headers, `sendToSelf`
and `deleteQueue`. The older `src` variant uses fixed flags and sends headers
that are exactly {"author"}.

| file | module | models |
|---|---|---|
| base.dfy | `Base` | `Option`, bytes |
| datastream.dfy | `DataStream` | `writeUTF`/`readUTF`: modified UTF-8 over UTF-16 code units with a 16-bit big-endian length |
| packet.dfy | `Packet` | `RabbitPacket` (both variants): metadata, the `author` accessor, the per-type `write`/`read` hooks |
| registry.dfy | `PacketRegistry` | `RabbitPacketRegistry` (core) and `PacketRegistry` (src), which are the same three tables |
| frame.dfy | `Frame` | the wire frame both clients write and the consumer reads |
| broker.dfy | `Broker` | the RabbitMQ channel as a log of requests, each of which may fail |
| events.dfy | `Events` | the local event bus and the events the core publishes |
| core_queue.dfy | `CoreQueue` | core `RabbitQueue`/`RabbitEQueue`, their data classes, `queueBuilder` |
| legacy_queue.dfy | `LegacyQueue` | src `RabbitQueue`/`RabbitEQueue`, `RabbitQueue.of` |
| core_client.dfy | `CoreClient` | core `HopperMq` |
| legacy_client.dfy | `LegacyClient` | src `HopperMq` |
| consumer.dfy | `Consumer` | `DefaultRabbitConsumer` |
| processor.dfy | `Processor` | `RabbitPacketProcessor`, i.e. the generated source text |

Modelling choices:

- **Classes are values.** A packet class (`Class<out RabbitPacket>`) is the
  datatype `PacketClass`. It holds the attributes the core asks reflection
  for: the `RabbitPacketLabel` value (if any), the simple name, whether a
  zero-argument constructor exists, and whether calling it throws.
- **Packet payloads are abstract.** Each packet class's own encoding is a pair
  of functions in `Hooks`. Where a property needs `read` to undo `write`, the
  lemma takes that as the precondition `ExactInverse`.
- **The broker's replies are nondeterministic.** Every channel call appends an
  `Attempt(request, outcome)` to the channel's log, and the outcome (success,
  or an `IOException`) is chosen by the broker, not the caller. `queueDeclare()`
  also returns a broker-chosen name.
- **The event bus is a sequence.** It is the list of events published on it.
- **Both registry variants are one model.** The core `RabbitPacketRegistry` and
  the src `PacketRegistry` have the same `register`, `getPacket` and `getId`, so
  one class models both. The constructor cache `constructorPacket` is kept as
  the set of its keys, because a constructor is determined by its class.
- **Specification helpers.** Some functions define what the operations are
  proved against and have no row of their own: `PacketRegistry.ResolveId`
  (the label value unless empty, else the simple name;
  core `RabbitPacketRegistry.kt` line 23), whose meaning is stated by
  `Consistent`, `FullRegistration` and `GetId`; `Consumer.Classify`, the
  decision chain of `handleDelivery`, stated by `HandleDelivery` and the
  Consumer lemmas; `Packet.ToString` (the header value's `toString()`),
  `Packet.RabbitPacket.GetAuthor` (the `author` accessor, which is `AuthorOf`
  of the current metadata), `Packet.RabbitPacket.Write` (the class's write
  hook on the current fields), `CoreClient.Route` and `LegacyClient.Route`
  (the routing, stated by `PublishedMessageDecodes` and `PublishedMessage`),
  the two `RabbitQueue.IsDurable`/`IsAutoDelete` readers (stated by
  `InterfaceDefaults`), and `CoreQueue.DefaultRabbitQueue.Equals` and
  `CoreQueue.DefaultRabbitEQueue.Equals` (the data-class `equals`, stated by
  `BuiltTwiceEqual`, `SetterBreaksEquals`, `BuiltTwiceEqualExchange` and
  `SetterBreaksEqualsExchange`).
- **The consumer follows the src file.** It is modelled from the src
  `DefaultRabbitConsumer`, running against the src `HopperMq`. A core consumer
  file is not part of this model. The loop-prevention lemmas still relate the
  consumer to what both clients send.

Behaviours of the code that a reader might not expect, all modelled as
written:

- **Registration is not all-or-nothing.** In both registries, `register`
  writes the id↔class entries before it looks up the constructor. A class
  without a zero-argument constructor therefore keeps an id that `getPacket` cannot instantiate
  (`DanglingIdWithoutConstructor`).
- **A shutdown forgets the wrong key.** `handleShutdownSignal` removes the
  table entry whose key is the consumer tag, not the queue behind the
  consumer.
- **The core client can defeat loop prevention.** It copies the packet's
  metadata into the headers after "author", so a metadata "author" replaces
  the sender's own. Every packet the consumer delivers carries such an entry.
  Assuming the core consumer filters on the "author" header as the src one
  does (the core consumer is not part of this model), a core client that
  republishes such a packet has its own echo delivered back to it, while the
  peer named in the entry drops the message
  (`CoreMetadataAuthorDefeatsLoopPrevention`).
- **The generated file imports `core.packet.PacketRegistry`.** It imports
  `gg.levely.system.hoppermq.core.packet.PacketRegistry`, while the core
  registry modelled here is `RabbitPacketRegistry`; none of the core files
  this model covers declares `PacketRegistry`. The text is modelled as written.

## Model

| member | source | states |
|---|---|---|
| DataStream.WriteUtf | core/src/main/kotlin/gg/levely/system/hoppermq/core/HopperMq.kt:96 | `writeUTF(id)` fails exactly when the modified UTF-8 form exceeds 65535 bytes; otherwise its first two bytes carry that length, big-endian, and the rest is exactly the modified UTF-8 form |
| DataStream.ReadUtf | src/main/kotlin/gg/levely/system/hoppermq/DefaultRabbitConsumer.kt:50 | `readUTF` throws EOFException when fewer than 2 bytes are present or fewer than the announced length n follow; otherwise it throws UTFDataFormatException exactly when the n announced bytes are not well-formed modified UTF-8, and on success the units are the decoding of exactly those n bytes and what is left is exactly the bytes after them |
| DataStream.Utf16RoundTrip | src/main/kotlin/gg/levely/system/hoppermq/HopperMq.kt:81 | every string survives its conversion to JVM UTF-16 code units (surrogate pairs for supplementary characters) |
| DataStream.EncodeUnitsRoundTrip | src/main/kotlin/gg/levely/system/hoppermq/HopperMq.kt:81 | the 1/2/3-byte modified UTF-8 decoding undoes the encoding of any code-unit sequence, including the unit 0 |
| DataStream.AsciiEncodesAsItself | core/src/main/kotlin/gg/levely/system/hoppermq/core/HopperMq.kt:96 | an id made of non-zero ASCII characters is written byte for byte as itself |
| DataStream.WriteReadUtf | src/main/kotlin/gg/levely/system/hoppermq/DefaultRabbitConsumer.kt:50 | what `writeUTF` wrote, followed by anything, is read back by `readUTF` as the same string, with the stream left exactly at the following bytes |
| Packet.AuthorOf | core/src/main/kotlin/gg/levely/system/hoppermq/core/packet/RabbitPacket.kt:17-18 | `author` is null exactly when "author" is absent, is the stored string exactly when a string is stored, and is a cast failure otherwise |
| Packet.AuthorAfterPut | src/main/kotlin/gg/levely/system/hoppermq/packet/RabbitPacket.kt:10-19 | putting a string under "author" replaces any previous value and makes it what `author` returns |
| Packet.RabbitPacket.constructor | core/src/main/kotlin/gg/levely/system/hoppermq/core/packet/RabbitPacket.kt:9 | a new packet has empty metadata and the fields its class's constructor leaves |
| Packet.RabbitPacket.Put | src/main/kotlin/gg/levely/system/hoppermq/DefaultRabbitConsumer.kt:60 | a metadata write changes that one key and leaves the fields alone |
| Packet.RabbitPacket.Read | core/src/main/kotlin/gg/levely/system/hoppermq/core/packet/RabbitPacket.kt:14-15 | `read` succeeds exactly when the class's hook does; the fields become what was read, or are untouched when it throws; metadata never changes |
| PacketRegistry.RegisteredConsistent | core/src/main/kotlin/gg/levely/system/hoppermq/core/packet/RabbitPacketRegistry.kt:15-41 | `register` preserves the invariant: the id tables are inverse, every class sits under its resolved id, and a class has a cached constructor exactly when it is registered and has a zero-arg constructor |
| PacketRegistry.UnlabelledIgnored | core/src/main/kotlin/gg/levely/system/hoppermq/core/packet/RabbitPacketRegistry.kt:17-20 | a class without the label leaves all three tables unchanged |
| PacketRegistry.RegisteredKeepsEarlier | core/src/main/kotlin/gg/levely/system/hoppermq/core/packet/RabbitPacketRegistry.kt:26-33 | registration never removes or rebinds an existing id, class entry or constructor: the first registrant keeps its id |
| PacketRegistry.DuplicateIdRejected | src/main/kotlin/gg/levely/system/hoppermq/packet/PacketRegistry.kt:27-30 | of two classes resolving to the same free id, the second gets no id and the id still maps to the first, both ways |
| PacketRegistry.TakenIdIgnored | core/src/main/kotlin/gg/levely/system/hoppermq/core/packet/RabbitPacketRegistry.kt:26-29 | a labelled class whose resolved id is already taken leaves all three tables unchanged |
| PacketRegistry.DanglingIdWithoutConstructor | core/src/main/kotlin/gg/levely/system/hoppermq/core/packet/RabbitPacketRegistry.kt:31-45 | a labelled class with a free id and no zero-arg constructor still gets both id entries, and `getPacket` of its id answers null (no constructor) |
| PacketRegistry.FullRegistration | core/src/main/kotlin/gg/levely/system/hoppermq/core/packet/RabbitPacketRegistry.kt:22-48 | a labelled class with a free id and a working constructor gets the label (or simple name) as its id, and that id instantiates the class |
| PacketRegistry.InstanceHasItsId | core/src/main/kotlin/gg/levely/system/hoppermq/core/packet/RabbitPacketRegistry.kt:43-55 | whatever `getPacket(id)` instantiates is registered under exactly that id, with a working zero-arg constructor |
| PacketRegistry.RabbitPacketRegistry.constructor | core/src/main/kotlin/gg/levely/system/hoppermq/core/packet/RabbitPacketRegistry.kt:11-13 | the registry starts with three empty tables, satisfying the invariant |
| PacketRegistry.RabbitPacketRegistry.Register | core/src/main/kotlin/gg/levely/system/hoppermq/core/packet/RabbitPacketRegistry.kt:15-41 | the tables become `Registered(old tables, packet)`, with its early returns and its id-before-constructor order, and the invariant is kept |
| PacketRegistry.RabbitPacketRegistry.GetPacket | core/src/main/kotlin/gg/levely/system/hoppermq/core/packet/RabbitPacketRegistry.kt:43-53 | a non-null result exactly when the id is known, its constructor is cached and does not throw; it is then a fresh packet of that class with empty metadata |
| PacketRegistry.RabbitPacketRegistry.GetId | core/src/main/kotlin/gg/levely/system/hoppermq/core/packet/RabbitPacketRegistry.kt:55 | an id exactly for registered classes; that id maps back to the class and is the class's resolved id |
| PacketRegistry.RabbitPacketRegistry.GetAllPackets | core/src/main/kotlin/gg/levely/system/hoppermq/core/packet/RabbitPacketRegistry.kt:57 | a value copy of the id table, every entry of which `getId` confirms |
| Frame.Encode | core/src/main/kotlin/gg/levely/system/hoppermq/core/HopperMq.kt:93-98 | no frame exactly for an unregistered class, an id error exactly when the id is too long, a write error exactly when the id fits and the packet's write throws, and otherwise the frame: the written id followed by the packet's written bytes |
| Frame.Decode | src/main/kotlin/gg/levely/system/hoppermq/DefaultRabbitConsumer.kt:50-59 | the id is unreadable exactly when `readUTF` throws (with its exception); an unspellable id is unknown; an id that does not instantiate gives that reason; otherwise the instance's `read` of the remaining bytes decides, throwing exactly when the hook fails, with the instantiated class, and decoding to the class and the fields it read exactly when it succeeds |
| Frame.EncodeDecode | src/main/kotlin/gg/levely/system/hoppermq/HopperMq.kt:78-83 | on a consistent registry with inverse hooks, decoding an encoded frame gives back class and fields, or no packet (no constructor / constructor failed) exactly in those cases |
| Frame.TruncatedIdUnreadable | src/main/kotlin/gg/levely/system/hoppermq/DefaultRabbitConsumer.kt:50 | a body too short for its length prefix or its announced id fails with EOFException |
| CoreQueue.DurableAfter | core/src/main/kotlin/gg/levely/system/hoppermq/core/RabbitQueue.kt:26-27 | after a builder block `durable` is the initial value or one the block set, and a block without `setDurable` keeps it |
| CoreQueue.AutoDeleteAfter | core/src/main/kotlin/gg/levely/system/hoppermq/core/RabbitQueue.kt:26-27 | the same for `autoDelete` |
| CoreQueue.DefaultRabbitQueue.constructor | core/src/main/kotlin/gg/levely/system/hoppermq/core/RabbitQueue.kt:30-34 | the three properties are the arguments, with defaults false / true |
| CoreQueue.DefaultRabbitQueue.SetDurable | core/src/main/kotlin/gg/levely/system/hoppermq/core/RabbitQueue.kt:42-45 | sets `durable` only, and returns the same object |
| CoreQueue.DefaultRabbitQueue.SetAutoDelete | core/src/main/kotlin/gg/levely/system/hoppermq/core/RabbitQueue.kt:47-50 | sets `autoDelete` only, and returns the same object |
| CoreQueue.DefaultRabbitQueue.Apply | core/src/main/kotlin/gg/levely/system/hoppermq/core/RabbitQueue.kt:27 | running a block of setter calls leaves each flag at its last setting in the block |
| CoreQueue.DefaultRabbitEQueue.constructor | core/src/main/kotlin/gg/levely/system/hoppermq/core/RabbitEQueue.kt:23-29 | the five properties are the arguments, with defaults false / true |
| CoreQueue.DefaultRabbitEQueue.SetDurable | core/src/main/kotlin/gg/levely/system/hoppermq/core/RabbitEQueue.kt:41-44 | sets `durable` only, and returns `this` |
| CoreQueue.DefaultRabbitEQueue.SetAutoDelete | core/src/main/kotlin/gg/levely/system/hoppermq/core/RabbitEQueue.kt:46-49 | sets `autoDelete` only, and returns `this` |
| CoreQueue.DefaultRabbitEQueue.Apply | core/src/main/kotlin/gg/levely/system/hoppermq/core/RabbitEQueue.kt:20 | running a block of setter calls leaves each flag at its last setting in the block |
| CoreQueue.InterfaceDefaults | core/src/main/kotlin/gg/levely/system/hoppermq/core/RabbitQueue.kt:20-22 | plain and exchange destinations that override nothing are non-durable and auto-deleted |
| CoreQueue.BuiltTwiceEqual | core/src/main/kotlin/gg/levely/system/hoppermq/core/RabbitQueue.kt:26-34 | two destinations built with the same name and block are distinct objects that are data-class equal, with the block's flags |
| CoreQueue.SetterBreaksEquals | core/src/main/kotlin/gg/levely/system/hoppermq/core/RabbitQueue.kt:30-45 | changing `durable` on one of two equal destinations makes them unequal both ways, and leaves the other untouched |
| CoreQueue.BuiltTwiceEqualExchange | core/src/main/kotlin/gg/levely/system/hoppermq/core/RabbitEQueue.kt:14-29 | two exchange destinations built from the same arguments and block are distinct objects that are data-class equal |
| CoreQueue.SetterBreaksEqualsExchange | core/src/main/kotlin/gg/levely/system/hoppermq/core/RabbitEQueue.kt:23-49 | changing `autoDelete` on one of two equal exchange destinations makes them unequal both ways, and leaves the other untouched |
| CoreQueue.QueueBuilder | core/src/main/kotlin/gg/levely/system/hoppermq/core/RabbitQueue.kt:26-28 | a fresh non-exchange destination with the given name; without a block it is non-durable and auto-deleted |
| CoreQueue.ExchangeQueueBuilder | core/src/main/kotlin/gg/levely/system/hoppermq/core/RabbitEQueue.kt:13-21 | a fresh exchange destination whose name is the routing key, with the given exchange and type; flags as for `queueBuilder` |
| LegacyQueue.Of | src/main/kotlin/gg/levely/system/hoppermq/RabbitQueue.kt:10 | `of(q)` is a direct destination named q |
| LegacyQueue.OfExchange | src/main/kotlin/gg/levely/system/hoppermq/RabbitQueue.kt:13 | `of(exchange, queue, type)` is an exchange destination whose name is `queue` and whose exchange is `exchange`, despite the reordered arguments |
| CoreClient.BuildHeaders | core/src/main/kotlin/gg/levely/system/hoppermq/core/HopperMq.kt:100-103 | the headers hold every metadata key with its value and "author"; "author" is the local author only when the metadata has none |
| CoreClient.HopperMq.constructor | core/src/main/kotlin/gg/levely/system/hoppermq/core/HopperMq.kt:18-31 | a new client has an empty table, an empty registry, an empty bus and no broker calls |
| CoreClient.HopperMq.WithSelfQueue | core/src/main/kotlin/gg/levely/system/hoppermq/core/HopperMq.kt:33-35 | the author is the destination's name, and the destination is bound at once |
| CoreClient.HopperMq.BindQueue | core/src/main/kotlin/gg/levely/system/hoppermq/core/HopperMq.kt:56-84 | the table entry is set before any broker call, and stays whatever the calls do; the calls follow the variant's plan up to the first failure |
| CoreClient.HopperMq.BindExchangeQueue | core/src/main/kotlin/gg/levely/system/hoppermq/core/HopperMq.kt:60-70 | declare a server-named queue, declare the exchange with the destination's type and flags, bind with the name as routing key, consume the new queue; stop at a failure |
| CoreClient.HopperMq.BindNamedQueue | core/src/main/kotlin/gg/levely/system/hoppermq/core/HopperMq.kt:71-80 | declare the named queue (durable, non-exclusive, autoDelete from the destination), then consume it; stop at a failure |
| CoreClient.HopperMq.PublishByName | core/src/main/kotlin/gg/levely/system/hoppermq/core/HopperMq.kt:86-89 | an existing entry is reused; else a fresh default destination (non-durable, auto-deleted) is inserted under the name; no other key changes; then it publishes there |
| CoreClient.HopperMq.Publish | core/src/main/kotlin/gg/levely/system/hoppermq/core/HopperMq.kt:91-127 | nothing is sent when the frame cannot be built; otherwise exactly one publish with the right route and headers, and with `sendToSelf` exactly one local event, only after the broker accepted it |
| CoreClient.HopperMq.DeleteQueue | core/src/main/kotlin/gg/levely/system/hoppermq/core/HopperMq.kt:129-136 | one broker delete; the local entry is removed only when it succeeded |
| CoreClient.HopperMq.RemoveQueue | core/src/main/kotlin/gg/levely/system/hoppermq/core/HopperMq.kt:138-140 | removes exactly that key, with no broker call |
| CoreClient.HopperMq.RemoveRabbitQueue | core/src/main/kotlin/gg/levely/system/hoppermq/core/HopperMq.kt:142-144 | removes exactly the destination's name |
| CoreClient.UnregisteredSendsNothing | core/src/main/kotlin/gg/levely/system/hoppermq/core/HopperMq.kt:93 | a packet whose class has no id produces no request |
| CoreClient.PublishedMessageDecodes | core/src/main/kotlin/gg/levely/system/hoppermq/core/HopperMq.kt:93-118 | for a consistent registry and write/read hooks that are exact inverses: what is sent goes to the destination's exchange ("" for a plain destination) under the destination's name, has as headers "author" plus the metadata over it, carries the effective author, and, when the class has a zero-arg constructor that does not throw, decodes on a peer to the packet's class and fields |
| LegacyClient.HopperMq.constructor | src/main/kotlin/gg/levely/system/hoppermq/HopperMq.kt:18-51 | the fixed headers are exactly {"author" -> author}; the table, registry, bus and broker log start empty |
| LegacyClient.HopperMq.BindQueue | src/main/kotlin/gg/levely/system/hoppermq/HopperMq.kt:53-69 | the table entry is set before any broker call and stays; the calls follow the variant's plan up to the first failure |
| LegacyClient.HopperMq.BindExchangeQueue | src/main/kotlin/gg/levely/system/hoppermq/HopperMq.kt:57-61 | server-named queue, exchange declared non-durable and auto-deleted, bind with the name as routing key, consume |
| LegacyClient.HopperMq.BindNamedQueue | src/main/kotlin/gg/levely/system/hoppermq/HopperMq.kt:62-65 | the named queue declared non-durable, non-exclusive and auto-deleted, then consumed |
| LegacyClient.HopperMq.PublishByName | src/main/kotlin/gg/levely/system/hoppermq/HopperMq.kt:71-74 | getOrPut with `RabbitQueue.of(name)`, then publish there |
| LegacyClient.HopperMq.Publish | src/main/kotlin/gg/levely/system/hoppermq/HopperMq.kt:76-99 | nothing is sent when the frame cannot be built; otherwise exactly one publish with the fixed headers |
| LegacyClient.HopperMq.RemoveQueue | src/main/kotlin/gg/levely/system/hoppermq/HopperMq.kt:101-103 | removes exactly that key |
| LegacyClient.PublishedMessage | src/main/kotlin/gg/levely/system/hoppermq/HopperMq.kt:76-94 | for a consistent registry and write/read hooks that are exact inverses: what is sent has headers exactly {"author" -> author} whatever the metadata, goes to the destination's exchange ("" for a plain destination) under its name, and, when the class has a zero-arg constructor that does not throw, has a body that decodes to the packet's class and fields |
| Consumer.DefaultRabbitConsumer.constructor | src/main/kotlin/gg/levely/system/hoppermq/DefaultRabbitConsumer.kt:13-20 | the consumer works against the client it was created for, and through it that client's bus and registry |
| Consumer.DefaultRabbitConsumer.HandleConsumeOk | src/main/kotlin/gg/levely/system/hoppermq/DefaultRabbitConsumer.kt:22-24 | exactly one ready event carrying the tag |
| Consumer.DefaultRabbitConsumer.HandleShutdownSignal | src/main/kotlin/gg/levely/system/hoppermq/DefaultRabbitConsumer.kt:30-33 | exactly one shutdown event, then only the table key equal to the consumer tag is removed |
| Consumer.DefaultRabbitConsumer.HandleDelivery | src/main/kotlin/gg/levely/system/hoppermq/DefaultRabbitConsumer.kt:38-69 | an id-read exception escapes; a delivered packet is exactly one new event: a fresh packet of the decoded class and fields whose metadata is {"author" -> header author}; every other outcome publishes nothing |
| Consumer.NoAuthorHeaderDropped | src/main/kotlin/gg/levely/system/hoppermq/DefaultRabbitConsumer.kt:44 | no headers or no "author" header: dropped |
| Consumer.TruncatedBodyEscapes | src/main/kotlin/gg/levely/system/hoppermq/DefaultRabbitConsumer.kt:48-50 | a foreign message whose body has no complete length prefix makes `readUTF` throw out of the callback |
| Consumer.LegacyEchoDropped | src/main/kotlin/gg/levely/system/hoppermq/DefaultRabbitConsumer.kt:46 | a src client's consumer drops every message that client itself publishes, before decoding |
| Consumer.LegacyDeliveredToPeer | src/main/kotlin/gg/levely/system/hoppermq/DefaultRabbitConsumer.kt:44-66 | for a consistent registry, write/read hooks that are exact inverses and a class with a zero-arg constructor that does not throw: a message one src client sends is delivered by any other author's consumer as the same class and fields, stamped with the sender |
| Consumer.CoreMetadataAuthorDefeatsLoopPrevention | core/src/main/kotlin/gg/levely/system/hoppermq/core/HopperMq.kt:100-103 | for a consistent registry, write/read hooks that are exact inverses and a class with a zero-arg constructor that does not throw: with another author in its metadata, a core client's message is delivered back to its own consumer, and dropped by the named author |
| Processor.Selected | processor/src/main/kotlin/gg/levely/system/hoppermq/processor/RabbitPacketProcessor.kt:13-14 | exactly the class declarations carrying `RabbitPacketLabel` are kept, never more than the input, a leading one first |
| Processor.SelectedAppend | processor/src/main/kotlin/gg/levely/system/hoppermq/processor/RabbitPacketProcessor.kt:13-14 | selection distributes over concatenation: the resolver's order and repetitions are kept |
| Processor.SelectedSingle | processor/src/main/kotlin/gg/levely/system/hoppermq/processor/RabbitPacketProcessor.kt:13-14 | a single declaration is kept exactly when it is a class carrying the label; with SelectedAppend this fixes `Selected` as the order-preserving filter |
| Processor.WriteImports | processor/src/main/kotlin/gg/levely/system/hoppermq/processor/RabbitPacketProcessor.kt:28-31 | the first loop writes the imports of all symbols |
| Processor.WriteRegisters | processor/src/main/kotlin/gg/levely/system/hoppermq/processor/RabbitPacketProcessor.kt:39-43 | the second loop writes the register calls of all symbols |
| Processor.Process | processor/src/main/kotlin/gg/levely/system/hoppermq/processor/RabbitPacketProcessor.kt:12-53 | no file exactly when no symbol is selected, else the generated text; the returned list is always empty |
| Processor.ImportsInOrder | processor/src/main/kotlin/gg/levely/system/hoppermq/processor/RabbitPacketProcessor.kt:28-31 | one import line per symbol with a qualified name, in symbol order, and none for the others |
| Processor.RegistersInOrder | processor/src/main/kotlin/gg/levely/system/hoppermq/processor/RabbitPacketProcessor.kt:39-43 | one `registry.register(<simpleName>::class.java)` line per symbol, in order, qualified name or not |
| Processor.GeneratedFraming | processor/src/main/kotlin/gg/levely/system/hoppermq/processor/RabbitPacketProcessor.kt:25-49 | the text starts with the package line and the registry import, and ends with the close of `registerAll`, a blank line and the close of the object |

## Left out

- Connection setup, `close`, `isConnected`, and the heartbeat and recovery settings: these are RabbitMQ client I/O. The model starts from an open channel, and the `url` parameter is not modelled.
- What the broker does with a message (queues, delivery, acknowledgement) is out of scope. The channel only records requests and their nondeterministic outcomes.
- `handleCancelOk`, `handleCancel` and `handleRecoverOk` do nothing, so they are not modelled.
- Logging, and the `logger.warn` per symbol in the processor.
- Thread safety of the shared channel, and concurrent delivery callbacks.
- Reflection (annotation lookup, `getDeclaredConstructor`, `newInstance`) is replaced by the attributes of `PacketClass`.
- The reflective `register(packageName)` classpath scan of the src registry is not modelled.
- `IntelligentPacketRegistry` is not modelled. It is a reflective scan that calls a `register(id, clazz)` overload that does not exist.
- `RabbitPacketProcessorProvider` (KSP service wiring) is not modelled. The resolver, code generator and file writing are reduced to the list of declarations and the produced text.
- Each packet type's own payload encoding: `write` and `read` are abstract hooks that may fail.
- The EventBus library: subscribers and dispatch are reduced to the list of published events.
- `ShutdownSignalException` is reduced to its reason string.
- Runtime exceptions other than the modelled ones (`IOException` from the broker as a failed call, `EOFException` and `UTFDataFormatException` from the stream, a failing `write` or `read` hook, a throwing constructor) are left out.
- Strings holding an unpaired surrogate cannot be represented here, because Dafny strings are Unicode scalar values. A frame id that decodes to one is treated as an unknown id.
- Header values are limited to strings, integers and booleans. `toString` is modelled for these only.
- The unused import and the commented-out companion object in core `RabbitQueue.kt`.
- Consumer.DefaultRabbitConsumer.HandleDelivery: when the packet's `read` throws, the model leaves the discarded instance's fields unchanged. The source may have changed them partly, which no one observes.
- Processor.Process: the text is built from the two loops' outputs concatenated in order, rather than by appending to one writer. The result is the same text.
- Packet.RabbitPacket.Read, CoreClient.HopperMq.Publish, Consumer.DefaultRabbitConsumer.HandleDelivery: a packet type's `write` and `read` are modelled as pure hooks that change only the packet's fields, never its metadata. In Kotlin they are arbitrary subclass code, so the headers built from the metadata and the metadata {"author"} a delivery ends with rely on this restriction.
