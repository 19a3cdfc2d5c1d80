/** The enter-world system: once per tick, every queued spawn command
    becomes a new entity of the world, built by inserting the command's
    components one at a time. */
module EnterWorld {
  import opened Wire
  import opened Components
  import opened Commands
  import opened Authorization
  import opened EnterIngestion
  import Ecs

  /** The entity after one more component was inserted; inserting a kind it
      already carries replaces that component. A movement state starts with
      a zero direction. */
  function Insert(e: Entity, c: EntityComponent): Entity
  {
    match c
    case Position(x, y, z) => e.(position := Some(Vec3d(x, y, z)))
    case Networked(id) => e.(networked := Some(id))
    case Movement(state, velocity) => e.(movement := Some(MovementState(state, velocity, Origin)))
  }

  /** The entity `spawn_empty` followed by the inserts of `cs`, in list order,
      produce. */
  function Built(cs: seq<EntityComponent>): Entity
    decreases |cs|
  {
    if cs == [] then EmptyEntity
    else Insert(Built(cs[..|cs| - 1]), cs[|cs| - 1])
  }

  /** The entities the spawn commands create, one each, in queue order. */
  function Spawned(spawns: seq<SpawnCommand>): (es: seq<Entity>)
    ensures |es| == |spawns|
    ensures forall i :: 0 <= i < |spawns| ==> es[i] == Built(spawns[i].components)
  {
    seq(|spawns|, i requires 0 <= i < |spawns| => Built(spawns[i].components))
  }

  /** The position of a built entity comes from the last Position component
      of the list; there is none exactly when the list has none. */
  lemma {:induction false} BuiltPosition(cs: seq<EntityComponent>)
    ensures Built(cs).position.None? <==> forall i :: 0 <= i < |cs| ==> !cs[i].Position?
    ensures forall i :: 0 <= i < |cs| && cs[i].Position? && (forall j :: i < j < |cs| ==> !cs[j].Position?) ==>
              Built(cs).position == Some(Vec3d(cs[i].x, cs[i].y, cs[i].z))
    decreases |cs|
  {
    if cs != [] {
      var n := |cs| - 1;
      BuiltPosition(cs[..n]);
      assert forall i :: 0 <= i < n ==> cs[..n][i] == cs[i];
    }
  }

  /** The Networked id of a built entity comes from the last Networked
      component of the list; there is none exactly when the list has none. */
  lemma {:induction false} BuiltNetworked(cs: seq<EntityComponent>)
    ensures Built(cs).networked.None? <==> forall i :: 0 <= i < |cs| ==> !cs[i].Networked?
    ensures forall i :: 0 <= i < |cs| && cs[i].Networked? && (forall j :: i < j < |cs| ==> !cs[j].Networked?) ==>
              Built(cs).networked == Some(cs[i].id)
    decreases |cs|
  {
    if cs != [] {
      var n := |cs| - 1;
      BuiltNetworked(cs[..n]);
      assert forall i :: 0 <= i < n ==> cs[..n][i] == cs[i];
    }
  }

  /** The movement state of a built entity comes from the last movement
      component of the list, with that state and velocity and a zero
      direction; there is none exactly when the list has none. */
  lemma {:induction false} BuiltMovement(cs: seq<EntityComponent>)
    ensures Built(cs).movement.None? <==> forall i :: 0 <= i < |cs| ==> !cs[i].Movement?
    ensures forall i :: 0 <= i < |cs| && cs[i].Movement? && (forall j :: i < j < |cs| ==> !cs[j].Movement?) ==>
              Built(cs).movement == Some(MovementState(cs[i].state, cs[i].velocity, Origin))
    decreases |cs|
  {
    if cs != [] {
      var n := |cs| - 1;
      BuiltMovement(cs[..n]);
      assert forall i :: 0 <= i < n ==> cs[..n][i] == cs[i];
    }
  }

  /** A character created for an Enter request stands at the origin, which
      is where its spawn packet announces it, carries the id it was
      registered under, and stands still at the default velocity. */
  lemma EnteredCharacter(owned: Owned, ps: seq<ReceivedPacket>, ids: seq<Uuid>, j: nat)
    requires |ids| == |ps| && j < |ps|
    ensures Spawned(Spawns(ps, ids, |ps|))[j] ==
              Entity(Some(Origin), Some(ids[j]), Some(MovementState(Stopped, DefaultVelocity, Origin)))
    ensures Spawned(Spawns(ps, ids, |ps|))[j].position == Some(Spawns(ps, ids, |ps|)[j].MapToPacket().location)
    ensures IsAuthorized(Registered(owned, ps, ids, |ps|), ps[j].addr, Spawned(Spawns(ps, ids, |ps|))[j].networked.value)
  {
    var c := SpawnCommandFor(ps[j].addr, ids[j]);
    assert Spawns(ps, ids, |ps|)[j] == c;
    var cs := c.components;
    assert cs[..2][..1] == cs[..1] && cs[..1][..0] == [] && cs[..3] == cs;
    var at := Insert(EmptyEntity, cs[0]);
    assert Built(cs[..1]) == at;
    assert Built(cs[..2]) == Insert(at, cs[1]);
    assert Built(cs) == Insert(Insert(at, cs[1]), cs[2]);
    SpawnsMatchRegistration(owned, ps, ids, j);
  }

  /** `enter_world_system`: one new entity per spawn command, in queue order,
      after the existing ones, which stay as they are. The spawn queue is
      iterated, not drained, and the move queues are untouched. */
  method EnterWorldSystem(world: Ecs.World)
    modifies world
    ensures world.entities == old(world.entities) + Spawned(old(world.spawnCommands))
    ensures world.spawnCommands == old(world.spawnCommands)
    ensures world.moveCommands == old(world.moveCommands)
  {
    var spawns := world.spawnCommands;
    var i := 0;
    while i < |spawns|
      invariant 0 <= i <= |spawns|
      invariant world.entities == old(world.entities) + Spawned(spawns[..i])
      invariant world.spawnCommands == spawns && world.moveCommands == old(world.moveCommands)
    {
      var components := spawns[i].components;
      var before := world.entities;
      world.entities := world.entities + [EmptyEntity];
      var n := |before|;
      var j := 0;
      while j < |components|
        invariant 0 <= j <= |components|
        invariant world.entities == before + [Built(components[..j])]
        invariant world.spawnCommands == spawns && world.moveCommands == old(world.moveCommands)
      {
        world.entities := world.entities[n := Insert(world.entities[n], components[j])];
        assert components[..j + 1][..j] == components[..j];
        j := j + 1;
      }
      assert components[..j] == components;
      assert Spawned(spawns[..i + 1]) == Spawned(spawns[..i]) + [Built(components)];
      i := i + 1;
    }
    assert spawns[..i] == spawns;
  }
}
