/** The Move handler: buffers move packets as they arrive, and once per tick
    turns each into a MoveCommand queued under the sender's player
    character. */
module MoveIngestion {
  import opened Wire
  import opened Commands
  import opened Authorization
  import Ecs

  type MoveQueues = map<string, seq<MoveCommand>>

  /** A buffered packet the handler gets through: its sender has a player
      character and its body decodes as a move request. Any other packet
      makes the source fail. */
  predicate Processable(owned: Owned, p: ReceivedPacket)
  {
    GetCharacterId(owned, p.addr).Some? && DecodeMove(p.packet.data).Some?
  }

  /** How many packets, from the front of the buffer, are processed before
      the first one that fails. */
  function ProcessedCount(owned: Owned, ps: seq<ReceivedPacket>): (k: nat)
    ensures k <= |ps|
    ensures forall i :: 0 <= i < k ==> Processable(owned, ps[i])
    ensures k < |ps| ==> !Processable(owned, ps[k])
  {
    if ps == [] then 0
    else if Processable(owned, ps[0]) then
      var k := 1 + ProcessedCount(owned, ps[1..]);
      assert forall i :: 1 <= i < |ps| ==> ps[i] == ps[1..][i - 1];
      k
    else 0
  }

  /** The command a processable packet becomes: the sender's character id
      with the packet's vector and movement state. */
  function CommandFor(owned: Owned, p: ReceivedPacket): (c: MoveCommand)
    requires Processable(owned, p)
    ensures c.id == owned[p.addr].playerCharacter
    ensures c.x == p.packet.data.vector.x && c.y == p.packet.data.vector.y && c.z == p.packet.data.vector.z
    ensures c.state == p.packet.data.state
  {
    var id := GetCharacterId(owned, p.addr).value;
    var m := DecodeMove(p.packet.data).value;
    MoveCommand(id, m.vector.x, m.vector.y, m.vector.z, m.state)
  }

  function QueueOf(queues: MoveQueues, key: string): seq<MoveCommand>
  {
    if key in queues then queues[key] else []
  }

  /** `push_back` onto the queue under the command's id, creating a
      one-element queue when the id has none. */
  function PushBack(queues: MoveQueues, c: MoveCommand): (r: MoveQueues)
    ensures r.Keys == queues.Keys + {c.id}
    ensures r[c.id] == QueueOf(queues, c.id) + [c]
    ensures forall k :: k in queues && k != c.id ==> r[k] == queues[k]
  {
    queues[c.id := QueueOf(queues, c.id) + [c]]
  }

  /** The queues after the commands of the processable packets of `ps` have
      been pushed in buffer order. */
  function Enqueued(queues: MoveQueues, owned: Owned, ps: seq<ReceivedPacket>): MoveQueues
    decreases |ps|
  {
    if ps == [] then queues
    else
      var before := Enqueued(queues, owned, ps[..|ps| - 1]);
      var last := ps[|ps| - 1];
      if Processable(owned, last) then PushBack(before, CommandFor(owned, last)) else before
  }

  /** The commands the processable packets of `ps` yield for one key, in
      buffer order. */
  function CommandsFor(owned: Owned, ps: seq<ReceivedPacket>, key: string): seq<MoveCommand>
    decreases |ps|
  {
    if ps == [] then []
    else
      var before := CommandsFor(owned, ps[..|ps| - 1], key);
      var last := ps[|ps| - 1];
      if Processable(owned, last) && CommandFor(owned, last).id == key then before + [CommandFor(owned, last)]
      else before
  }

  /** Per key, the new queue is the old one (or none) followed by exactly the
      commands of the buffered packets whose sender's character has that
      key, in buffer order; a key gains a queue only if some packet is for
      it, and no queue loses a command. */
  lemma {:induction false} EnqueuedPerKey(queues: MoveQueues, owned: Owned, ps: seq<ReceivedPacket>, key: string)
    ensures key in Enqueued(queues, owned, ps) <==> key in queues || CommandsFor(owned, ps, key) != []
    ensures QueueOf(Enqueued(queues, owned, ps), key) == QueueOf(queues, key) + CommandsFor(owned, ps, key)
    decreases |ps|
  {
    if ps != [] {
      EnqueuedPerKey(queues, owned, ps[..|ps| - 1], key);
    }
  }

  /** The packets whose command goes to the queue of `key`. */
  ghost predicate ForKey(owned: Owned, p: ReceivedPacket, key: string)
  {
    Processable(owned, p) && owned[p.addr].playerCharacter == key
  }

  /** Every command queued for a key carries that key, and the count for a
      key is the number of processable packets whose sender has that
      character. */
  lemma {:induction false} CommandsForCount(owned: Owned, ps: seq<ReceivedPacket>, key: string)
    ensures forall c :: c in CommandsFor(owned, ps, key) ==> c.id == key
    ensures |CommandsFor(owned, ps, key)| == |set i | 0 <= i < |ps| && ForKey(owned, ps[i], key)|
    decreases |ps|
  {
    if ps != [] {
      var n := |ps| - 1;
      CommandsForCount(owned, ps[..n], key);
      var before := set i | 0 <= i < n && ForKey(owned, ps[..n][i], key);
      var all := set i | 0 <= i < |ps| && ForKey(owned, ps[i], key);
      assert before == set i | 0 <= i < n && ForKey(owned, ps[i], key);
      if ForKey(owned, ps[n], key) {
        assert all == before + {n};
      } else {
        assert all == before;
      }
    }
  }

  lemma EnqueuedStep(queues: MoveQueues, owned: Owned, ps: seq<ReceivedPacket>, i: nat)
    requires i < |ps| && Processable(owned, ps[i])
    ensures Enqueued(queues, owned, ps[..i + 1]) == PushBack(Enqueued(queues, owned, ps[..i]), CommandFor(owned, ps[i]))
  {
    assert ps[..i + 1][..i] == ps[..i];
  }

  class MovePacketHandler {
    var packets: seq<ReceivedPacket>
    const authorizationHandler: AuthorizationHandler

    constructor (authorizationHandler: AuthorizationHandler)
      ensures packets == [] && this.authorizationHandler == authorizationHandler
    {
      packets := [];
      this.authorizationHandler := authorizationHandler;
    }

    /** Buffers the packet with its sender's address, at the end. */
    method HandlePacket(addr: SocketAddr, packet: InPacket)
      modifies this
      ensures packets == old(packets) + [ReceivedPacket(packet, addr)]
    {
      packets := packets + [ReceivedPacket(packet, addr)];
    }

    /** Queues one MoveCommand per buffered packet. A packet whose sender has
        no character, or whose body is no move request, stops the pass
        (`completed` is false) after the packets before it were queued. The
        buffer itself is left as it is. */
    method TransformState(world: Ecs.World) returns (completed: bool)
      modifies world
      ensures var k := ProcessedCount(authorizationHandler.owned, packets);
              completed == (k == |packets|) &&
              world.moveCommands == Enqueued(old(world.moveCommands), authorizationHandler.owned, packets[..k])
      ensures world.entities == old(world.entities) && world.spawnCommands == old(world.spawnCommands)
    {
      var ps := packets;
      var owned := authorizationHandler.owned;
      var queues0 := world.moveCommands;
      var i := 0;
      while i < |ps|
        invariant 0 <= i <= |ps|
        invariant i <= ProcessedCount(owned, ps)
        invariant world.moveCommands == Enqueued(queues0, owned, ps[..i])
        invariant world.entities == old(world.entities) && world.spawnCommands == old(world.spawnCommands)
      {
        var packet := ps[i];
        var characterId := GetCharacterId(owned, packet.addr);
        if characterId.None? {
          assert ProcessedCount(owned, ps) == i;
          return false;
        }
        var packetData := DecodeMove(packet.packet.data);
        if packetData.None? {
          assert ProcessedCount(owned, ps) == i;
          return false;
        }
        var command := MoveCommand(characterId.value, packetData.value.vector.x, packetData.value.vector.y,
                                   packetData.value.vector.z, packetData.value.state);
        assert command == CommandFor(owned, packet);
        var queues := world.moveCommands;
        var queue: seq<MoveCommand>;
        if command.id in queues {
          queue := queues[command.id];
        } else {
          queue := [];
        }
        world.moveCommands := queues[command.id := queue + [command]];
        EnqueuedStep(queues0, owned, ps, i);
        i := i + 1;
      }
      assert ps[..i] == ps;
      return true;
    }

    method ClearPackets()
      modifies this
      ensures packets == []
    {
      packets := [];
    }
  }
}
