# Fordragon server core in Dafny

A model of the sequential bookkeeping at the heart of the Fordragon game
server, with proofs about it. The server takes in UDP packets from game
clients and turns them into commands on an ECS world. It runs the world's
systems once per tick and sends stamped packets back out. The model covers:

- **Authorization** (`authorization_handler.dfy`): the table from a client
  address to its player character and the entities it owns.
- **Inbound ordering gate** (`packet_receiver.dfy`): the receiver remembers
  the last accepted packet id per address and drops packets whose id is
  lower.
- **Opcode router** (`packet_handler.dfy`): routes each packet to the
  buffering handler of its opcode. Once per tick every handler transforms
  the world, and then all buffers are cleared.
- **Enter handler** (`enter_packet_handler.dfy`): gives each sender a fresh
  character id, registers it with the authorization table and queues a
  spawn command.
- **Move handler** (`move_packet_handler.dfy`): turns move requests into
  move commands queued under the sender's player character.
- **ECS systems** that use those queues: enter-world (`enter_world.dfy`),
  move-handling (`move_handling.dfy`) and trivial-move (`trivial_move.dfy`).
- **Commands and mapping** (`commands.dfy`): how spawn and moved commands
  become outbound packets.
- **Outbound sender and id generator** (`packet_sender.dfy`,
  `packet_id_generator.dfy`): every tick the sender stamps one packet per
  (batch entry, connection) pair with that connection's next sequence
  number.
- **Ticker** (`ticker.dfy`): fires the registered callbacks once per tick.

Objects whose fields the source updates in place are classes: the handlers,
the receiver, the sender, the generator, the ticker and the world. Each of
their methods is proved against pure functions: `AfterAdd`, `Recorded`,
`Enqueued`, `Registered`, `Spawns`, `Advanced`, `Handled`, `Spawned` and
`TrivialAppend`. The lemmas prove what the source promises about those
functions.

A panic in the source (an `expect` on a failed lookup or decode) becomes a
`completed` result of `false`. The state then shows the packets processed
before the failing one. Randomness, the clock and iteration orders the
source does not fix are parameters:

- the fresh character UUIDs: `ids`;
- the wall clock: `now`;
- the order in which the router visits its handlers: `enterFirst`;
- the order of the connection set: a nondeterministic choice.

Behaviour of the code worth knowing:

- The ordering gate drops a packet only when its id is strictly below the
  recorded one (packet_receiver.rs:76). An equal id goes through and is
  recorded again.
- A Move packet from an address without a player character is not dropped.
  The character lookup `expect`s a value and panics (move_packet_handler.rs:58-64),
  which stops the pass (`completed` is false).
- The ticker compares the millisecond within the current second with the
  next firing time (ticker.rs:62-65; see Findings).
- Outbound entries carry no target list: every entry goes to every
  registered connection (packet_sender.rs:22-25).
- `transform_state` runs every handler first and clears all buffers
  together afterwards (packet_handler.rs:56-62).

## Model

| member | source | states |
|---|---|---|
| Authorization.AfterAdd | server/src/server/state/authorization_handler.rs:31-40 | the table `add_entity` leaves: the entry is found or created with `id` as character and an empty list, and `id` is pushed unless the list contains it; its effect is stated in full by `AddEntityEffect` |
| Authorization.AddEntityEffect | server/src/server/state/authorization_handler.rs:31-40 | the address gets a record. A new address gets player character `id` and list `[id]`; a known one keeps its character. `id` is appended only if absent, and no other address's record changes |
| Authorization.AuthorizationHandler.AddEntity | server/src/server/state/authorization_handler.rs:31-40 | the table becomes `AfterAdd` of the old table |
| Authorization.AddEntityAuthorizes | server/src/server/state/authorization_handler.rs:31-44 | after `add_entity` the address is authorized for `id`, and its character is the old one, or `id` if it had none |
| Authorization.AddEntityIdempotent | server/src/server/state/authorization_handler.rs:37-39 | adding the same (address, id) twice equals adding it once |
| Authorization.GetCharacterId | server/src/server/state/authorization_handler.rs:42-44 | None exactly for an unknown address; otherwise the recorded player character |
| Authorization.IsAuthorized | server/src/server/state/authorization_handler.rs:52-58 | true exactly when the address has a record whose list contains the id; false for an unknown address (`UnknownAddressUnauthorized`) |
| Authorization.UnknownAddressUnauthorized | server/src/server/state/authorization_handler.rs:52-58 | an unknown address has no character and is authorized for nothing |
| Authorization.Without | server/src/server/state/authorization_handler.rs:48 | `retain` drops every occurrence of the id and keeps every other element with its multiplicity |
| Authorization.WithoutAppend | server/src/server/state/authorization_handler.rs:48 | the kept elements keep their relative order (dropping commutes with concatenation) |
| Authorization.WithoutKeepsNoDuplicates | server/src/server/state/authorization_handler.rs:48 | `retain` on a duplicate-free list leaves it duplicate-free |
| Authorization.AfterRemove | server/src/server/state/authorization_handler.rs:46-50 | an unknown address leaves the table unchanged. A known one loses the id from its list and keeps its character; no other record changes |
| Authorization.AuthorizationHandler.RemoveEntity | server/src/server/state/authorization_handler.rs:46-50 | the table becomes `AfterRemove` of the old table |
| Authorization.AuthorizationHandler.constructor | server/src/server/state/authorization_handler.rs:23-27 | the table starts empty |
| Authorization.AddEntityKeepsConsistent | server/src/server/state/authorization_handler.rs:14-15 | `add_entity` keeps every list duplicate-free and headed by the player character |
| Authorization.RemoveEntityKeepsConsistent | server/src/server/state/authorization_handler.rs:46-50 | removing anything except the player character keeps that invariant |
| Authorization.ReplayKeepsConsistent | server/src/server/state/authorization_handler.rs:12-16 | over any history that never removes a player character, the invariant holds throughout and no character changes |
| PacketIds.NextId | server/src/server/state/packet_id_generator.rs:24-41 | a new connection gets 0; a known one gets its last id plus one |
| PacketIds.IssuedConsecutive | server/src/server/state/packet_id_generator.rs:24-41 | successive calls for one connection return consecutive ids |
| PacketIds.FreshConnectionCountsFromZero | server/src/server/state/packet_id_generator.rs:36-40 | for a new connection, the k-th call returns k |
| PacketIds.PacketIdGenerator.GenerateId | server/src/server/state/packet_id_generator.rs:24-41 | returns `NextId` and records it; no other connection's counter changes |
| PacketIds.PacketIdGenerator.constructor | server/src/server/state/packet_id_generator.rs:18-22 | no connection has a counter yet |
| Receiving.Accepts | server/src/server/packet_receiver/packet_receiver.rs:70-79 | a packet is refused only when its address has a recorded id strictly greater than the packet's; `GateOutcomes` states the three cases |
| Receiving.Recorded | server/src/server/packet_receiver/packet_receiver.rs:67-85 | an accepted id becomes the address's record and a dropped one changes nothing. A record never decreases, and other addresses are untouched |
| Receiving.GateOutcomes | server/src/server/packet_receiver/packet_receiver.rs:70-85 | an unknown address is accepted, a lower id is dropped, and an equal or higher id is accepted and recorded |
| Receiving.RecordAll | server/src/server/packet_receiver/packet_receiver.rs:67-85 | the gate's table after a run of arrivals went through `consume` in order; `RecordIsLargestSeen` and `RecordAllKeepsAbsent` state what it holds |
| Receiving.ForwardAll | server/src/server/packet_receiver/packet_receiver.rs:67-91 | the forwarded packets are among the arrivals and no more numerous |
| Receiving.RecordIsLargestSeen | server/src/server/packet_receiver/packet_receiver.rs:67-85 | after any run of arrivals, an address's record is at least every id it sent and its old record, and equals one of them |
| Receiving.RecordAllKeepsAbsent | server/src/server/packet_receiver/packet_receiver.rs:70-75 | an address that never sends keeps having no record |
| Receiving.ForwardedInOrder | server/src/server/packet_receiver/packet_receiver.rs:67-91 | from each address the forwarded ids never decrease. None is below the address's earlier record or above its final one |
| Receiving.ServerPacketReceiver.constructor | server/src/server/packet_receiver/packet_receiver.rs:29-47 | empty table, and a router with Enter and Move handlers sharing one authorization table |
| Receiving.ServerPacketReceiver.Consume | server/src/server/packet_receiver/packet_receiver.rs:67-91 | the table becomes `Recorded`. The packet is appended to its opcode's buffer exactly when the gate accepts it; no other buffer changes |
| Receiving.ServerPacketReceiver.InjectPackets | server/src/server/packet_receiver/packet_receiver.rs:49-63 | one router `transform_state` on the world (`Transformed`); the gate's table is untouched |
| PacketHandling.PacketHandler.Opcodes | server/src/server/packet_handler/packet_handler.rs:19-21 | an opcode has a handler exactly when its handler is registered; only Enter and Move ever have one |
| PacketHandling.PacketHandler.constructor | server/src/server/packet_handler/packet_handler.rs:29-33 | no opcode has a handler |
| PacketHandling.PacketHandler.WithEnterHandler | server/src/server/packet_receiver/packet_receiver.rs:37-40 | Enter gains a fresh, empty handler; the Move registration is untouched |
| PacketHandling.PacketHandler.WithMoveHandler | server/src/server/packet_receiver/packet_receiver.rs:37-40 | Move gains a fresh, empty handler; the Enter registration is untouched |
| PacketHandling.PacketHandler.HandlePacket | server/src/server/packet_handler/packet_handler.rs:35-48 | the packet goes to the end of its opcode's buffer, or nowhere if the opcode has no handler; other buffers are unchanged |
| PacketHandling.PacketHandler.ClearPackets | server/src/server/packet_handler/packet_handler.rs:64-68 | every buffer is empty |
| PacketHandling.PacketHandler.TransformState | server/src/server/packet_handler/packet_handler.rs:56-62 | `Transformed`: completes iff every handler's buffer goes through; the queues and table are then what the handlers make of their whole buffers, buffers are cleared, and entities are untouched |
| PacketHandling.PacketHandler.RunEnter | server/src/server/packet_handler/packet_handler.rs:57-59 | the Enter handler's turn: completes iff its buffer decodes; spawns and registrations for the whole buffer |
| PacketHandling.PacketHandler.RunMove | server/src/server/packet_handler/packet_handler.rs:57-59 | the Move handler's turn: completes iff every packet is processable; queues for the whole buffer |
| PacketHandling.Transformed | server/src/server/packet_handler/packet_handler.rs:56-62 | the pass completes iff both buffers go through against the table each handler sees; then the buffers are empty and the queues and table are the handlers' whole-buffer results, otherwise no buffer is cleared; entities never change |
| PacketHandling.EnterThenMoveInOneTick | server/src/server/packet_handler/packet_handler.rs:56-62 | an Enter then a Move from a new client in one tick is queued if Enter's handler runs first and fails the pass otherwise |
| EnterIngestion.SpawnCommandFor | server/src/server/packet_handler/enter_packet_handler.rs:68-75 | owned by the sender; its packet announces the new id at the origin |
| Wire.DecodesAsEnter | server/src/server/packet_handler/enter_packet_handler.rs:59-60 | the Enter body, an empty struct, decodes from every body serde accepts and fails only on a rejected one (`Malformed`) |
| EnterIngestion.DecodedCount | server/src/server/packet_handler/enter_packet_handler.rs:59-60 | every packet before the count decodes as Enter, and the one at the count does not |
| EnterIngestion.Registered | server/src/server/packet_handler/enter_packet_handler.rs:54-66 | the table after `add_entity(sender, id)` for the first `n` packets in buffer order; the `Registered*` lemmas and `FirstEnterSetsCharacter` state what it holds |
| EnterIngestion.Spawns | server/src/server/packet_handler/enter_packet_handler.rs:68-79 | the spawn commands pushed for the first `n` packets, one per packet in buffer order; `SpawnsMatchRegistration` ties each to its registration |
| EnterIngestion.RegisteredKeys | server/src/server/packet_handler/enter_packet_handler.rs:54-80 | the table gains a record exactly for the senders in the buffer |
| EnterIngestion.RegisteredAuthorizes | server/src/server/packet_handler/enter_packet_handler.rs:54-80 | every sender is afterwards authorized for its new id and has a character |
| EnterIngestion.RegisteredKeepsCharacters | server/src/server/packet_handler/enter_packet_handler.rs:54-80 | an address known before keeps its player character |
| EnterIngestion.RegisteredAbsent | server/src/server/packet_handler/enter_packet_handler.rs:54-80 | an address that sent no Enter stays unknown |
| EnterIngestion.FirstEnterSetsCharacter | server/src/server/packet_handler/enter_packet_handler.rs:54-80 | a new address's character is the id of its first Enter packet |
| EnterIngestion.SpawnsMatchRegistration | server/src/server/packet_handler/enter_packet_handler.rs:54-80 | each spawn command is owned by its sender, announces the id registered for it, and the sender is authorized for that id |
| EnterIngestion.EnterPacketHandler.constructor | server/src/server/packet_handler/enter_packet_handler.rs:28-33 | empty buffer, the given authorization handler |
| EnterIngestion.EnterPacketHandler.HandlePacket | server/src/server/packet_handler/enter_packet_handler.rs:37-41 | the packet and its sender go to the end of the buffer |
| EnterIngestion.EnterPacketHandler.TransformState | server/src/server/packet_handler/enter_packet_handler.rs:43-81 | completes iff all packets decode. Otherwise registrations and spawns follow, in order, for exactly the packets before the first failure; entities and move queues are untouched |
| EnterIngestion.EnterPacketHandler.EnterOne | server/src/server/packet_handler/enter_packet_handler.rs:62-79 | one packet: `add_entity` and one spawn command at the back of the queue |
| EnterIngestion.EnterPacketHandler.ClearPackets | server/src/server/packet_handler/enter_packet_handler.rs:83-85 | the buffer is empty |
| MoveIngestion.ProcessedCount | server/src/server/packet_handler/move_packet_handler.rs:53-69 | every packet before the count has a character and a move body, and the one at the count lacks one |
| MoveIngestion.CommandFor | server/src/server/packet_handler/move_packet_handler.rs:58-93 | the command carries the sender's character id and the packet's vector and state |
| MoveIngestion.PushBack | server/src/server/packet_handler/move_packet_handler.rs:71-93 | the command goes to the back of its id's queue, which is created if missing; other queues are unchanged |
| MoveIngestion.Enqueued | server/src/server/packet_handler/move_packet_handler.rs:53-94 | the move queues after the commands of the processable packets were pushed in buffer order; `EnqueuedPerKey` states each key's queue |
| MoveIngestion.EnqueuedPerKey | server/src/server/packet_handler/move_packet_handler.rs:53-94 | per key, the new queue is the old one followed by exactly that key's commands in buffer order; a key gains a queue only if it gets a command |
| MoveIngestion.CommandsForCount | server/src/server/packet_handler/move_packet_handler.rs:53-94 | every command queued under a key carries that key, one per processable packet from that key's owner |
| MoveIngestion.MovePacketHandler.constructor | server/src/server/packet_handler/move_packet_handler.rs:27-32 | empty buffer, the given authorization handler |
| MoveIngestion.MovePacketHandler.HandlePacket | server/src/server/packet_handler/move_packet_handler.rs:36-40 | the packet and its sender go to the end of the buffer |
| MoveIngestion.MovePacketHandler.TransformState | server/src/server/packet_handler/move_packet_handler.rs:42-95 | completes iff every packet is processable; the queues are `Enqueued` over exactly the packets before the first failure |
| MoveIngestion.MovePacketHandler.ClearPackets | server/src/server/packet_handler/move_packet_handler.rs:97-99 | the buffer is empty |
| Wire.DecodeMove | server/src/server/packet_handler/move_packet_handler.rs:68-69 | a body decodes exactly when it is a serialized move request, and then yields its vector and state |
| Sending.Advanced | server/src/server/packet_sender/packet_sender.rs:129-139 | every connection gains a counter; connections outside the set keep theirs |
| Sending.StampedIsIssued | server/src/server/packet_sender/packet_sender.rs:129-139 | a connection's packets for a batch carry exactly the ids the generator issues it, with each entry's opcode and body unchanged |
| Sending.NextTickContinues | server/src/server/packet_sender/packet_sender.rs:91-106 | the next tick continues one past the last id of the previous tick |
| Sending.AdvancedOnce | server/src/server/packet_sender/packet_sender.rs:129-139 | advancing by n and then by one is advancing by n + 1 |
| Sending.BumpedByKeys | server/src/server/packet_sender/packet_sender.rs:130-136 | one `generate_id` per connection, in any order, advances each connection by exactly one |
| Sending.RoundView | server/src/server/packet_sender/packet_sender.rs:130-139 | in one round each visited connection sees exactly one packet with its next id, and every other connection sees none |
| Sending.EmitPackets | server/src/server/packet_sender/packet_sender.rs:109-139 | one packet per (entry, connection), all to registered connections. Each connection sees the batch in order with consecutive ids continuing its own sequence, and the generator advances by the batch length |
| Sending.EmitEntry | server/src/server/packet_sender/packet_sender.rs:130-139 | one packet per connection, stamped with its next id; the generator advances each connection by one |
| Sending.ServerPacketSender.constructor | server/src/server/packet_sender/packet_sender.rs:42-59 | nothing registered, nothing pending |
| Sending.ServerPacketSender.TryRegister | server/src/server/packet_sender/packet_sender.rs:63-70 | the address is registered once, however often it registers |
| Sending.ServerPacketSender.Enqueue | server/src/server/packet_sender/packet_sender.rs:72-78 | the body goes to the end of the batch |
| Sending.ServerPacketSender.Tick | server/src/server/packet_sender/packet_sender.rs:91-106 | the batch is taken, leaving it empty, and emitted as `EmitPackets` states |
| Commands.SpawnCommand.MapToPacket | server/src/server/commands/spawn_command.rs:27-44 | the spawn packet announces the first Networked id at the origin |
| Commands.FirstNetworkedId | server/src/server/commands/spawn_command.rs:28-38 | the id of the first Networked component, or the empty string if there is none |
| Commands.MovedCommand.MapToPacket | server/src/server/commands/moved_command.rs:27-39 | the moved packet carries the command's id and the Position of the first entity with that id |
| Commands.FindPosition | server/src/server/commands/moved_command.rs:28-32 | None iff no entity has a Position and the id; otherwise the first such entity's Position |
| EnterWorld.Insert | server/src/server/systems/enter_world.rs:20-36 | one `insert`: a component of a kind the entity already has replaces it, and a movement state gets a zero direction |
| EnterWorld.Built | server/src/server/systems/enter_world.rs:17-37 | `spawn_empty` followed by the inserts of the list in order; `BuiltPosition`, `BuiltNetworked` and `BuiltMovement` state the result |
| EnterWorld.Spawned | server/src/server/systems/enter_world.rs:16-38 | one entity per spawn command, in queue order, each built from that command's components |
| EnterWorld.BuiltPosition | server/src/server/systems/enter_world.rs:21-25 | the last Position component decides the position; there is none iff the list has none |
| EnterWorld.BuiltNetworked | server/src/server/systems/enter_world.rs:26-28 | the last Networked component decides the id; there is none iff the list has none |
| EnterWorld.BuiltMovement | server/src/server/systems/enter_world.rs:29-35 | the last movement component decides the state and velocity, with a zero direction; there is none iff the list has none |
| EnterWorld.EnteredCharacter | server/src/server/systems/enter_world.rs:16-37 | an entered character stands at the origin, where its spawn packet says, with its registered id, stopped at the default velocity; its sender is authorized for it |
| EnterWorld.EnterWorldSystem | server/src/server/systems/enter_world.rs:12-39 | one new entity per spawn command, in order, after the existing ones; the queues are untouched |
| MoveHandling.Matched | server/src/server/systems/move_handling.rs:19-22 | the query's filter: an entity with a Position, a Networked id and a movement state |
| MoveHandling.Applied | server/src/server/systems/move_handling.rs:27-36 | the velocity is kept and the last command decides state and direction; an empty queue changes nothing |
| MoveHandling.Handled | server/src/server/systems/move_handling.rs:25-38 | position, id and velocity are kept. An unmatched entity, or one without a non-empty queue, is unchanged; otherwise the last command wins |
| MoveHandling.LastCommandDecides | server/src/server/systems/move_handling.rs:27-36 | two queues with the same last command give the same state |
| MoveHandling.HandledIdempotent | server/src/server/systems/move_handling.rs:18-39 | running the system twice over the same queues equals running it once |
| MoveHandling.MoveHandlingSystem | server/src/server/systems/move_handling.rs:18-39 | every entity becomes `Handled`; the queues are only read |
| TrivialMove.TrivialCommand | server/src/server/systems/trivial_move.rs:26 | the command pushed for an id: that id with vector (1, 0, 0) |
| TrivialMove.TrivialAppend | server/src/server/systems/trivial_move.rs:24-28 | the queues after the query visited the entities in order, appending one command for each visited entity whose id has a queue; `TrivialAppendPerKey` states each queue |
| TrivialMove.TrivialAppendPerKey | server/src/server/systems/trivial_move.rs:24-28 | no queue is created, and each existing queue gains one command per visited entity with its id, at the back |
| TrivialMove.OneCommandPerEntity | server/src/server/systems/trivial_move.rs:24-28 | an id carried by one entity gets exactly one command (1, 0, 0) appended |
| TrivialMove.TrivialMoveSystem | server/src/server/systems/trivial_move.rs:15-34 | the queues become `TrivialAppend` of the entities; entities are untouched |
| Ticking.TickLength | src/server/state/ticker.rs:43 | the largest length of which `tick_count` ticks fit in a second |
| Ticking.Millis | src/server/state/ticker.rs:62 | the millisecond within the current second |
| Ticking.NextRunTime | src/server/state/ticker.rs:65 | a multiple of the tick length, strictly after the firing and at most one tick later |
| Ticking.MultiplesApart | src/server/state/ticker.rs:65 | distinct firing times are at least a tick apart |
| Ticking.NextRunTimeIsSmallest | src/server/state/ticker.rs:65 | no tick boundary lies strictly between a firing and the next firing time |
| Ticking.FiresAsWritten | src/server/state/ticker.rs:62-64 | the loop's guard as written: the millisecond within the second has reached the next firing time |
| Ticking.NextAsWritten | src/server/state/ticker.rs:62-65 | after a firing the next time is the tick boundary after the millisecond within the second; otherwise it is unchanged |
| Ticking.PollsAsWritten | src/server/state/ticker.rs:59-71 | the loop as written over a sequence of clock readings, counting firings; `AsWrittenFiresAtMost` bounds it |
| Ticking.PollsCorrected | src/server/state/ticker.rs:59-71 | the same loop comparing the absolute reading with the next firing time; `CorrectedKeepsFiring` shows it fires every tick |
| Ticking.AsWrittenFiresAtMost | src/server/state/ticker.rs:59-71 | the loop as written keeps its next firing time a tick boundary, at least one tick further per firing, with every firing inside the first second's slots |
| Ticking.AsWrittenStalls | src/server/state/ticker.rs:59-71 | from `run`'s start state, the loop as written fires fewer than 1000 / tick length times in total, whatever the clock does |
| Ticking.StallAtTwentyTicks | src/server/state/ticker.rs:62-65 | at 20 ticks, a firing at millisecond 950 sets the next time to 1000, which is never reached again |
| Ticking.CorrectedKeepsFiring | src/server/state/ticker.rs:64-70 | polled at its firing times, the corrected loop fires every tick, k times in k ticks |
| Ticking.CorrectedOncePerSlot | src/server/state/ticker.rs:64-65 | after a firing, the next is due within a tick and in a later tick slot |
| Ticking.Ticker.constructor | src/server/state/ticker.rs:25-34 | no callbacks, not running |
| Ticking.Ticker.Register | src/server/state/ticker.rs:38-40 | the callback goes last; nothing else changes |
| Ticking.Ticker.Run | src/server/state/ticker.rs:42-74 | the first call starts the single loop, due one tick in; later calls change nothing |
| Ticking.Ticker.FireAll | src/server/state/ticker.rs:67-69 | every callback is called once, in registration order |
| Ticking.Ticker.PollAsWritten | src/server/state/ticker.rs:60-70 | one turn as written: fires iff millis ≥ next; the next time is then the tick boundary after millis |
| Ticking.Ticker.Poll | src/server/state/ticker.rs:60-70 | one corrected turn: fires iff now ≥ next; the next time is the tick boundary after now |

## Left out

- Sockets, datagram I/O, the async runtime, locks and the semaphore are left out. Everything runs sequentially, one call at a time. The ticker's semaphore guard is released at once, so it never blocks a call.
- JSON (de)serialization is not modelled. An inbound body is its decoded shape (`Payload`); an outbound body is opaque text. A serialization failure of an outbound packet, which `emit_packets` skips, is not modelled.
- `Uuid::new_v4`, the wall clock and the callbacks' effects are inputs: `ids`, `now` and callback handles. Callbacks are only recorded as called.
- Logging is left out.
- PacketIds.PacketIdGenerator.GenerateId: ids are unbounded; the source's `u128` overflow is not modelled.
- Receiving.ServerPacketReceiver.constructor: builds the router in the shape the call site asks for, an Enter and a Move handler sharing one authorization table. The repository's `builder.rs` has no Enter handler and passes no authorization handler.
- The `initialise` methods of the receiver and the sender are left out. They only register tick callbacks and store the socket; `InjectPackets` and `Tick` are those callbacks.
- EnterIngestion.EnterPacketHandler.TransformState: requires one fresh id per buffered packet, standing in for `Uuid::new_v4`.
- Commands.MovedCommand.MapToPacket: requires that some entity has the id. The source panics when none does.
- Ticking.Ticker.Run: requires a non-zero tick count. The source divides by zero for 0.
- Ticking.Ticker.constructor: requires the tick count to fit a byte (`u8`).
- Ticking.Ticker.PollAsWritten: one turn of the loop. The endless loop itself is the sequence of turns `PollsAsWritten` and `PollsCorrected` describe.
- The movement system, which integrates positions with floating point and delta time, is left out. `Vec3d` holds exact reals and is only copied.
- The repository's `spawn_command.rs` has no movement component and no owner. The model follows the call site in `enter_packet_handler.rs`, which uses both.
- TrivialMove.TrivialCommand: the call site builds a `MoveCommand` without a movement state. The model gives it `Moving`.
- ECS queries visit entities in creation order, and spawning happens at once, not through deferred commands.
- Removing a player character (`remove_entity` with the character's own id) is allowed by the source. The invariant lemmas exclude it, since afterwards the list no longer starts with the character.

## Findings

| source | as written | input that shows it | evidently intended | confidence | as-written member | corrected member |
|---|---|---|---|---|---|---|
| src/server/state/ticker.rs:62-65 | the loop compares `now % 1000` with `next_run_time`, which grows by a tick per firing and is never reduced | `tick_count` 20 and a firing at millisecond 950: `next_run_time` becomes 1000, which `now % 1000` never reaches, so the loop never fires again | fire once per tick for as long as the server runs, comparing absolute time with the next firing time | high (proved; not executed) | Ticking.AsWrittenStalls | Ticking.CorrectedKeepsFiring |
