/** The opcode router: one buffering handler per registered opcode. Packets
    are routed into the handler of their opcode as they arrive; once per
    tick every handler turns its buffer into commands, and then all buffers
    are cleared. */
module PacketHandling {
  import opened Wire
  import opened Authorization
  import opened EnterIngestion
  import opened MoveIngestion
  import Ecs

  /** The router. The source keeps a map from opcode to boxed handler; the
      two handler kinds of this server are the two optional fields here, and
      both share the router's authorization handler. */
  class PacketHandler {
    var enterHandler: EnterPacketHandler?
    var moveHandler: MovePacketHandler?
    const authorizationHandler: AuthorizationHandler

    /** Every registered handler works on the shared authorization table. */
    ghost predicate Valid()
      reads this, enterHandler, moveHandler
    {
      (enterHandler != null ==> enterHandler.authorizationHandler == authorizationHandler) &&
      (moveHandler != null ==> moveHandler.authorizationHandler == authorizationHandler)
    }

    /** The opcodes that have a handler. */
    function Opcodes(): (ops: set<OpCode>)
      reads this
      ensures Enter in ops <==> enterHandler != null
      ensures Move in ops <==> moveHandler != null
      ensures ops <= {Enter, Move}
    {
      (if enterHandler != null then {Enter} else {}) + (if moveHandler != null then {Move} else {})
    }

    /** The buffer of the handler for `op`; empty for an opcode without one. */
    function Buffer(op: OpCode): seq<ReceivedPacket>
      reads this, enterHandler, moveHandler
    {
      if op == Enter && enterHandler != null then enterHandler.packets
      else if op == Move && moveHandler != null then moveHandler.packets
      else []
    }

    /** `new`: no opcode has a handler yet. */
    constructor (authorizationHandler: AuthorizationHandler)
      ensures Opcodes() == {} && Valid()
      ensures this.authorizationHandler == authorizationHandler
    {
      enterHandler := null;
      moveHandler := null;
      this.authorizationHandler := authorizationHandler;
    }

    /** Registers a fresh Enter handler, replacing any earlier one. */
    method WithEnterHandler()
      requires Valid()
      modifies this
      ensures Valid() && Opcodes() == old(Opcodes()) + {Enter}
      ensures fresh(enterHandler) && enterHandler.packets == []
      ensures moveHandler == old(moveHandler)
    {
      enterHandler := new EnterPacketHandler(authorizationHandler);
    }

    /** Registers a fresh Move handler, replacing any earlier one. */
    method WithMoveHandler()
      requires Valid()
      modifies this
      ensures Valid() && Opcodes() == old(Opcodes()) + {Move}
      ensures fresh(moveHandler) && moveHandler.packets == []
      ensures enterHandler == old(enterHandler)
    {
      moveHandler := new MovePacketHandler(authorizationHandler);
    }

    /** `handle_packet`: the packet, with its sender, goes to the end of the
        buffer of its opcode's handler; a packet whose opcode has no handler
        is ignored. No other buffer and no registration changes. */
    method HandlePacket(addr: SocketAddr, packet: InPacket)
      requires Valid()
      modifies enterHandler, moveHandler
      ensures Valid() && enterHandler == old(enterHandler) && moveHandler == old(moveHandler)
      ensures forall op :: Buffer(op) ==
                if op == packet.opcode && op in Opcodes() then old(Buffer(op)) + [ReceivedPacket(packet, addr)]
                else old(Buffer(op))
    {
      if packet.opcode == Enter && enterHandler != null {
        enterHandler.HandlePacket(addr, packet);
      } else if packet.opcode == Move && moveHandler != null {
        moveHandler.HandlePacket(addr, packet);
      }
    }

    /** `clear_packets`: every handler's buffer becomes empty. */
    method ClearPackets()
      requires Valid()
      modifies enterHandler, moveHandler
      ensures Valid() && enterHandler == old(enterHandler) && moveHandler == old(moveHandler)
      ensures forall op :: Buffer(op) == []
    {
      if enterHandler != null {
        enterHandler.ClearPackets();
      }
      if moveHandler != null {
        moveHandler.ClearPackets();
      }
    }

    /** `transform_state`: every registered handler transforms the world once,
        in the map's iteration order (`enterFirst`), and then all buffers are
        cleared. The Enter handler draws its character ids from `ids`. A
        handler that fails ends the pass at once: `completed` is false, the
        later handler does not run and no buffer is cleared.

        The pass completes exactly when the Enter buffer decodes throughout
        and every Move packet is processable against the table the Move
        handler sees: the table after registration when Enter runs first,
        the table before it otherwise. When it completes, the spawn queue,
        the authorization table and the move queues are exactly what the two
        handlers make of their whole buffers, and the entities are
        untouched. */
    method TransformState(world: Ecs.World, ids: seq<Uuid>, enterFirst: bool) returns (completed: bool)
      requires Valid()
      requires enterHandler != null ==> |ids| == |enterHandler.packets|
      modifies world, enterHandler, moveHandler, authorizationHandler
      ensures Valid() && Transformed(this, world, ids, enterFirst, completed)
    {
      if enterFirst {
        completed := RunEnter(world, ids);
        if !completed {
          return;
        }
        completed := RunMove(world);
      } else {
        completed := RunMove(world);
        if !completed {
          return;
        }
        completed := RunEnter(world, ids);
      }
      if completed {
        ClearPackets();
      }
    }

    /** The Enter handler's turn of `transform_state`, or nothing when no
        Enter handler is registered. */
    method RunEnter(world: Ecs.World, ids: seq<Uuid>) returns (completed: bool)
      requires Valid()
      requires enterHandler != null ==> |ids| == |enterHandler.packets|
      modifies world, authorizationHandler
      ensures completed == (enterHandler == null || DecodedCount(enterHandler.packets) == |enterHandler.packets|)
      ensures completed ==>
                world.spawnCommands ==
                  old(world.spawnCommands) + (if enterHandler != null then Spawns(enterHandler.packets, ids, |enterHandler.packets|) else [])
      ensures completed ==>
                authorizationHandler.owned ==
                  if enterHandler != null then Registered(old(authorizationHandler.owned), enterHandler.packets, ids, |enterHandler.packets|)
                  else old(authorizationHandler.owned)
      ensures world.entities == old(world.entities) && world.moveCommands == old(world.moveCommands)
    {
      completed := true;
      if enterHandler != null {
        completed := enterHandler.TransformState(world, ids);
      }
    }

    /** The Move handler's turn of `transform_state`, or nothing when no
        Move handler is registered. */
    method RunMove(world: Ecs.World) returns (completed: bool)
      requires Valid()
      modifies world
      ensures completed == (moveHandler == null || ProcessedCount(authorizationHandler.owned, moveHandler.packets) == |moveHandler.packets|)
      ensures completed && moveHandler != null ==>
                world.moveCommands == Enqueued(old(world.moveCommands), authorizationHandler.owned, moveHandler.packets)
      ensures moveHandler == null ==> world.moveCommands == old(world.moveCommands)
      ensures world.entities == old(world.entities) && world.spawnCommands == old(world.spawnCommands)
    {
      completed := true;
      if moveHandler != null {
        completed := moveHandler.TransformState(world);
        if completed {
          assert moveHandler.packets[..|moveHandler.packets|] == moveHandler.packets;
        }
      }
    }
  }

  /** What one `transform_state` of `h` did, relating the state before to
      the state after. The pass completes exactly when the Enter buffer
      decodes throughout and every Move packet is processable against the
      table the Move handler sees: the table after registration when Enter
      runs first, the table before it otherwise. When it completes, every
      buffer is empty and the spawn queue, the authorization table and the
      move queues are exactly what the two handlers make of their whole
      buffers; when it fails, no buffer is cleared. The entities are never
      touched, and neither is the set of registered handlers. */
  twostate predicate Transformed(h: PacketHandler, world: Ecs.World, ids: seq<Uuid>, enterFirst: bool, completed: bool)
    reads h, h.enterHandler, h.moveHandler, h.authorizationHandler, world
  {
    var enter := h.enterHandler;
    var move := h.moveHandler;
    var auth := h.authorizationHandler;
    enter == old(h.enterHandler) && move == old(h.moveHandler) &&
    (enter != null ==> |ids| == |old(enter.packets)|) &&
    var enterOk := enter == null || DecodedCount(old(enter.packets)) == |old(enter.packets)|;
    var registered := if enter != null && enterOk then Registered(old(auth.owned), old(enter.packets), ids, |old(enter.packets)|)
                      else old(auth.owned);
    var seen := if enterFirst then registered else old(auth.owned);
    var moveOk := move == null || ProcessedCount(seen, old(move.packets)) == |old(move.packets)|;
    completed == (enterOk && moveOk) &&
    world.entities == old(world.entities) &&
    (!completed ==> forall op :: h.Buffer(op) == old(h.Buffer(op))) &&
    (completed ==>
      (forall op :: h.Buffer(op) == []) &&
      world.spawnCommands == old(world.spawnCommands) + (if enter != null then Spawns(old(enter.packets), ids, |old(enter.packets)|) else []) &&
      auth.owned == registered &&
      world.moveCommands == (if move != null then Enqueued(old(world.moveCommands), seen, old(move.packets))
                             else old(world.moveCommands)))
  }

  /** The handlers' iteration order is visible: a client whose Enter and
      first Move arrive in the same tick gets its move queued when the Enter
      handler runs first, and makes the pass fail when the Move handler runs
      first, as its address has no character yet. */
  lemma EnterThenMoveInOneTick(owned: Owned, addr: SocketAddr, id: Uuid, enter: InPacket, move: InPacket)
    requires addr !in owned
    requires enter.opcode == Enter && DecodesAsEnter(enter.data)
    requires move.opcode == Move && DecodeMove(move.data).Some?
    ensures var seen := Registered(owned, [ReceivedPacket(enter, addr)], [id], 1);
            ProcessedCount(seen, [ReceivedPacket(move, addr)]) == 1 &&
            Enqueued(map[], seen, [ReceivedPacket(move, addr)]) == map[id := [CommandFor(seen, ReceivedPacket(move, addr))]]
    ensures ProcessedCount(owned, [ReceivedPacket(move, addr)]) == 0
  {
    var ep := [ReceivedPacket(enter, addr)];
    var seen := Registered(owned, ep, [id], 1);
    assert seen == AfterAdd(owned, addr, id);
    var ps := [ReceivedPacket(move, addr)];
    assert Processable(seen, ps[0]);
    assert ps[..0] == [];
    assert Enqueued(map[], seen, []) == map[];
    var c := CommandFor(seen, ps[0]);
    assert c.id == id;
    assert Enqueued(map[], seen, ps) == PushBack(map[], c);
    assert QueueOf(map[], id) + [c] == [c];
    assert !Processable(owned, ps[0]);
  }
}
