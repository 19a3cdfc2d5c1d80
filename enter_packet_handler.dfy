/** The Enter handler: buffers enter packets as they arrive, and once per
    tick gives each sender a new character id, registers it with the
    authorization handler and queues a spawn command for it. */
module EnterIngestion {
  import opened Wire
  import opened Commands
  import opened Authorization
  import Ecs

  /** The velocity a freshly entered character starts with. */
  const DefaultVelocity: real := 0.25

  /** The spawn command for a character entering on behalf of `addr`. */
  function SpawnCommandFor(addr: SocketAddr, id: Uuid): (c: SpawnCommand)
    ensures c.owner == Some(addr)
    ensures c.MapToPacket() == SpawnPacket(id, Origin)
  {
    var c := SpawnCommand([Position(0.0, 0.0, 0.0), Networked(id), Movement(Stopped, DefaultVelocity)], Some(addr));
    assert c.components[1].Networked? && !c.components[0].Networked?;
    c
  }

  /** A buffered packet whose body decodes as an Enter request. */
  predicate Decodable(p: ReceivedPacket)
  {
    DecodesAsEnter(p.packet.data)
  }

  /** How many packets, from the front of the buffer, are processed before
      the first one whose body does not decode. */
  function DecodedCount(ps: seq<ReceivedPacket>): (k: nat)
    ensures k <= |ps|
    ensures forall i :: 0 <= i < k ==> Decodable(ps[i])
    ensures k < |ps| ==> !Decodable(ps[k])
  {
    if ps == [] then 0
    else if Decodable(ps[0]) then
      var k := 1 + DecodedCount(ps[1..]);
      assert forall i :: 1 <= i < |ps| ==> ps[i] == ps[1..][i - 1];
      k
    else 0
  }

  /** A decodable packet at the stopping point would not be one. */
  lemma DecodedPast(ps: seq<ReceivedPacket>, i: nat)
    requires i < |ps| && i <= DecodedCount(ps) && Decodable(ps[i])
    ensures i < DecodedCount(ps)
  {
  }

  /** The authorization table after `add_entity(ps[i].addr, ids[i])` for
      the first `n` packets, in buffer order. */
  function Registered(owned: Owned, ps: seq<ReceivedPacket>, ids: seq<Uuid>, n: nat): Owned
    requires |ids| == |ps| && n <= |ps|
    decreases n
  {
    if n == 0 then owned
    else AfterAdd(Registered(owned, ps, ids, n - 1), ps[n - 1].addr, ids[n - 1])
  }

  /** The spawn commands queued for the first `n` packets, in buffer order. */
  function Spawns(ps: seq<ReceivedPacket>, ids: seq<Uuid>, n: nat): (r: seq<SpawnCommand>)
    requires |ids| == |ps| && n <= |ps|
  {
    seq(n, i requires 0 <= i < n => SpawnCommandFor(ps[i].addr, ids[i]))
  }

  /** The table gains a record exactly for each sender not known before. */
  lemma {:induction false} RegisteredKeys(owned: Owned, ps: seq<ReceivedPacket>, ids: seq<Uuid>, n: nat)
    requires |ids| == |ps| && n <= |ps|
    ensures Registered(owned, ps, ids, n).Keys == owned.Keys + set i | 0 <= i < n :: ps[i].addr
    decreases n
  {
    if n > 0 {
      RegisteredKeys(owned, ps, ids, n - 1);
      assert (set i | 0 <= i < n :: ps[i].addr) == (set i | 0 <= i < n - 1 :: ps[i].addr) + {ps[n - 1].addr};
    }
  }

  /** Part way through a pass: the first `i` packets have been registered
      and have had their spawn commands queued. */
  predicate EnteredSoFar(ps: seq<ReceivedPacket>, ids: seq<Uuid>, i: nat, owned0: Owned, spawns0: seq<SpawnCommand>,
                         owned: Owned, spawns: seq<SpawnCommand>)
  {
    |ids| == |ps| && i <= |ps| &&
    owned == Registered(owned0, ps, ids, i) && spawns == spawns0 + Spawns(ps, ids, i)
  }

  /** Processing packet `i` keeps `EnteredSoFar`. */
  lemma EnterStep(ps: seq<ReceivedPacket>, ids: seq<Uuid>, i: nat, owned0: Owned, spawns0: seq<SpawnCommand>,
                  owned: Owned, spawns: seq<SpawnCommand>)
    requires EnteredSoFar(ps, ids, i, owned0, spawns0, owned, spawns) && i < |ps|
    ensures EnteredSoFar(ps, ids, i + 1, owned0, spawns0, AfterAdd(owned, ps[i].addr, ids[i]),
                         spawns + [SpawnCommandFor(ps[i].addr, ids[i])])
  {
    assert Spawns(ps, ids, i + 1) == Spawns(ps, ids, i) + [SpawnCommandFor(ps[i].addr, ids[i])];
  }

  /** Every sender ends up authorized for the id it was given, so it has a
      player character afterwards. */
  lemma {:induction false} RegisteredAuthorizes(owned: Owned, ps: seq<ReceivedPacket>, ids: seq<Uuid>, n: nat)
    requires |ids| == |ps| && n <= |ps|
    ensures forall j :: 0 <= j < n ==> IsAuthorized(Registered(owned, ps, ids, n), ps[j].addr, ids[j])
    ensures forall j :: 0 <= j < n ==> GetCharacterId(Registered(owned, ps, ids, n), ps[j].addr).Some?
    decreases n
  {
    if n > 0 {
      RegisteredAuthorizes(owned, ps, ids, n - 1);
    }
  }

  /** Addresses known before keep their player character, however many
      Enter packets they send. */
  lemma {:induction false} RegisteredKeepsCharacters(owned: Owned, ps: seq<ReceivedPacket>, ids: seq<Uuid>, n: nat)
    requires |ids| == |ps| && n <= |ps|
    ensures forall a :: a in owned ==>
              a in Registered(owned, ps, ids, n) &&
              Registered(owned, ps, ids, n)[a].playerCharacter == owned[a].playerCharacter
    decreases n
  {
    if n > 0 {
      RegisteredKeepsCharacters(owned, ps, ids, n - 1);
    }
  }

  /** An address none of the first `n` packets comes from stays unknown. */
  lemma {:induction false} RegisteredAbsent(owned: Owned, ps: seq<ReceivedPacket>, ids: seq<Uuid>, n: nat, a: SocketAddr)
    requires |ids| == |ps| && n <= |ps| && a !in owned
    requires forall i :: 0 <= i < n ==> ps[i].addr != a
    ensures a !in Registered(owned, ps, ids, n)
    decreases n
  {
    if n > 0 {
      RegisteredAbsent(owned, ps, ids, n - 1, a);
    }
  }

  /** An address seen for the first time gets the id of its first Enter
      packet as its player character. */
  lemma {:induction false} FirstEnterSetsCharacter(owned: Owned, ps: seq<ReceivedPacket>, ids: seq<Uuid>, n: nat, j: nat)
    requires |ids| == |ps| && j < n <= |ps|
    requires ps[j].addr !in owned
    requires forall i :: 0 <= i < j ==> ps[i].addr != ps[j].addr
    ensures ps[j].addr in Registered(owned, ps, ids, n)
    ensures Registered(owned, ps, ids, n)[ps[j].addr].playerCharacter == ids[j]
    decreases n
  {
    if j == n - 1 {
      RegisteredAbsent(owned, ps, ids, n - 1, ps[j].addr);
    } else {
      FirstEnterSetsCharacter(owned, ps, ids, n - 1, j);
    }
  }

  /** Every queued spawn is owned by its sender and announces the id that
      was registered for that sender. */
  lemma SpawnsMatchRegistration(owned: Owned, ps: seq<ReceivedPacket>, ids: seq<Uuid>, j: nat)
    requires |ids| == |ps| && j < |ps|
    ensures Spawns(ps, ids, |ps|)[j].owner == Some(ps[j].addr)
    ensures Spawns(ps, ids, |ps|)[j].MapToPacket().id == ids[j]
    ensures IsAuthorized(Registered(owned, ps, ids, |ps|), ps[j].addr, ids[j])
  {
    RegisteredAuthorizes(owned, ps, ids, |ps|);
    assert Spawns(ps, ids, |ps|)[j] == SpawnCommandFor(ps[j].addr, ids[j]);
  }

  class EnterPacketHandler {
    var packets: seq<ReceivedPacket>
    const authorizationHandler: AuthorizationHandler

    constructor (authorizationHandler: AuthorizationHandler)
      ensures packets == [] && this.authorizationHandler == authorizationHandler
    {
      packets := [];
      this.authorizationHandler := authorizationHandler;
    }

    /** Buffers the packet with its sender's address, at the end. */
    method HandlePacket(addr: SocketAddr, packet: InPacket)
      modifies this
      ensures packets == old(packets) + [ReceivedPacket(packet, addr)]
    {
      packets := packets + [ReceivedPacket(packet, addr)];
    }

    /** For each buffered packet, in order: registers the next of the fresh
        `ids` for the sender and queues its spawn command. A body that does
        not decode stops the pass (`completed` is false) after the packets
        before it were processed. The buffer itself is left as it is. */
    method TransformState(world: Ecs.World, ids: seq<Uuid>) returns (completed: bool)
      requires |ids| == |packets|
      modifies world, authorizationHandler
      ensures completed == (DecodedCount(packets) == |packets|)
      ensures world.spawnCommands == old(world.spawnCommands) + Spawns(packets, ids, DecodedCount(packets))
      ensures authorizationHandler.owned == Registered(old(authorizationHandler.owned), packets, ids, DecodedCount(packets))
      ensures world.entities == old(world.entities) && world.moveCommands == old(world.moveCommands)
    {
      var ps := packets;
      var auth := authorizationHandler;
      var owned0 := auth.owned;
      var spawns0 := world.spawnCommands;
      var i := 0;
      while i < |ps|
        invariant i <= DecodedCount(ps)
        invariant EnteredSoFar(ps, ids, i, owned0, spawns0, auth.owned, world.spawnCommands)
        invariant world.entities == old(world.entities) && world.moveCommands == old(world.moveCommands)
      {
        var packet := ps[i];
        if !DecodesAsEnter(packet.packet.data) {
          assert DecodedCount(ps) == i;
          return false;
        }
        DecodedPast(ps, i);
        EnterStep(ps, ids, i, owned0, spawns0, auth.owned, world.spawnCommands);
        EnterOne(world, packet.addr, ids[i]);
        i := i + 1;
      }
      return true;
    }

    /** The body of the pass for one packet: registers `characterId` for
        the sender and queues its spawn command. */
    method EnterOne(world: Ecs.World, addr: SocketAddr, characterId: Uuid)
      modifies world, authorizationHandler
      ensures authorizationHandler.owned == AfterAdd(old(authorizationHandler.owned), addr, characterId)
      ensures world.spawnCommands == old(world.spawnCommands) + [SpawnCommandFor(addr, characterId)]
      ensures world.entities == old(world.entities) && world.moveCommands == old(world.moveCommands)
    {
      authorizationHandler.AddEntity(addr, characterId);
      var command := SpawnCommandFor(addr, characterId);
      world.spawnCommands := world.spawnCommands + [command];
    }

    method ClearPackets()
      modifies this
      ensures packets == []
    {
      packets := [];
    }
  }
}
