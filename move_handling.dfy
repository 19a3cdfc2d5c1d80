/** The move-handling system: once per tick, every entity with a Position,
    a Networked id and a movement state takes on the state and direction of
    the commands queued under its id, the last command winning. */
module MoveHandling {
  import opened Wire
  import opened Components
  import opened Commands
  import opened MoveIngestion
  import Ecs

  /** The entities the system's query visits. */
  predicate Matched(e: Entity)
  {
    e.position.Some? && e.networked.Some? && e.movement.Some?
  }

  /** The movement state after the commands overwrote it one by one. Each
      command sets the current state and the direction; the velocity is kept,
      so the last command decides everything that changes. */
  function Applied(m: MovementState, cmds: seq<MoveCommand>): (r: MovementState)
    ensures r.velocity == m.velocity
    ensures cmds == [] ==> r == m
    ensures cmds != [] ==>
              r.currentState == cmds[|cmds| - 1].state &&
              r.direction == Vec3d(cmds[|cmds| - 1].x, cmds[|cmds| - 1].y, cmds[|cmds| - 1].z)
    decreases |cmds|
  {
    if cmds == [] then m
    else
      var c := cmds[|cmds| - 1];
      Applied(m, cmds[..|cmds| - 1]).(currentState := c.state, direction := Vec3d(c.x, c.y, c.z))
  }

  /** An entity after the system: a matched entity whose id has a queue gets
      that queue applied to its movement state; any other entity is left as
      it is. */
  function Handled(e: Entity, queues: MoveQueues): (r: Entity)
    ensures r.position == e.position && r.networked == e.networked
    ensures r.movement.Some? <==> e.movement.Some?
    ensures r.movement.Some? ==> r.movement.value.velocity == e.movement.value.velocity
    ensures !Matched(e) || e.networked.value !in queues || queues[e.networked.value] == [] ==> r == e
    ensures Matched(e) && e.networked.value in queues && queues[e.networked.value] != [] ==>
              var last := queues[e.networked.value][|queues[e.networked.value]| - 1];
              r.movement.value.currentState == last.state && r.movement.value.direction == Vec3d(last.x, last.y, last.z)
  {
    if Matched(e) && e.networked.value in queues then
      e.(movement := Some(Applied(e.movement.value, queues[e.networked.value])))
    else e
  }

  /** Only the last command of a queue matters: two queues with the same
      last command leave any movement state the same. */
  lemma LastCommandDecides(m: MovementState, cmds: seq<MoveCommand>, other: seq<MoveCommand>)
    requires cmds != [] && other != [] && cmds[|cmds| - 1] == other[|other| - 1]
    ensures Applied(m, cmds) == Applied(m, other)
  {
  }

  /** Running the system twice over the same queues is the same as running
      it once. */
  lemma HandledIdempotent(e: Entity, queues: MoveQueues)
    ensures Handled(Handled(e, queues), queues) == Handled(e, queues)
  {
  }

  /** `move_handling_system`: every entity becomes `Handled` under the move
      queues, which are only read. */
  method MoveHandlingSystem(world: Ecs.World)
    modifies world
    ensures |world.entities| == |old(world.entities)|
    ensures forall i :: 0 <= i < |world.entities| ==> world.entities[i] == Handled(old(world.entities)[i], world.moveCommands)
    ensures world.moveCommands == old(world.moveCommands) && world.spawnCommands == old(world.spawnCommands)
  {
    var queues := world.moveCommands;
    var i := 0;
    while i < |world.entities|
      invariant 0 <= i <= |world.entities| == |old(world.entities)|
      invariant forall k :: 0 <= k < i ==> world.entities[k] == Handled(old(world.entities)[k], queues)
      invariant forall k :: i <= k < |world.entities| ==> world.entities[k] == old(world.entities)[k]
      invariant world.moveCommands == queues && world.spawnCommands == old(world.spawnCommands)
    {
      var e := world.entities[i];
      if Matched(e) && e.networked.value in queues {
        var commands := queues[e.networked.value];
        var m := e.movement.value;
        var before := world.entities;
        var j := 0;
        while j < |commands|
          invariant 0 <= j <= |commands|
          invariant world.entities == before[i := e.(movement := Some(Applied(m, commands[..j])))]
          invariant world.moveCommands == queues && world.spawnCommands == old(world.spawnCommands)
        {
          var command := commands[j];
          var state := world.entities[i].movement.value;
          world.entities := world.entities[i := world.entities[i].(movement := Some(
            state.(currentState := command.state, direction := Vec3d(command.x, command.y, command.z))))];
          assert commands[..j + 1][..j] == commands[..j];
          j := j + 1;
        }
        assert commands[..j] == commands;
      }
      i := i + 1;
    }
  }
}
