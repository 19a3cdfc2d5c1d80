/** The trivial-move system: once per tick, every entity with a Position and
    a Networked id whose id already has a move queue gets a fixed command,
    one unit along x, appended to that queue. */
module TrivialMove {
  import opened Wire
  import opened Components
  import opened Commands
  import opened MoveIngestion
  import Ecs

  /** The command the system queues for `id`. The call site passes no
      movement state; the model gives it `Moving`. */
  function TrivialCommand(id: string): MoveCommand
  {
    MoveCommand(id, 1.0, 0.0, 0.0, Moving)
  }

  /** The entities the system's query visits. */
  predicate Carries(e: Entity)
  {
    e.position.Some? && e.networked.Some?
  }

  /** The queues after the system visited `es` in order. */
  function TrivialAppend(queues: MoveQueues, es: seq<Entity>): MoveQueues
    decreases |es|
  {
    if es == [] then queues
    else
      var before := TrivialAppend(queues, es[..|es| - 1]);
      var e := es[|es| - 1];
      if Carries(e) && e.networked.value in before then
        before[e.networked.value := before[e.networked.value] + [TrivialCommand(e.networked.value)]]
      else before
  }

  /** How many entities of `es` the query visits with Networked id `id`. */
  function CarriersOf(es: seq<Entity>, id: string): (n: nat)
    ensures n <= |es|
    decreases |es|
  {
    if es == [] then 0
    else CarriersOf(es[..|es| - 1], id) + if Carries(es[|es| - 1]) && es[|es| - 1].networked == Some(id) then 1 else 0
  }

  /** No queue is created, and each existing queue keeps its commands and
      gains one trivial command per visited entity with its id, at the back. */
  lemma {:induction false} TrivialAppendPerKey(queues: MoveQueues, es: seq<Entity>)
    ensures TrivialAppend(queues, es).Keys == queues.Keys
    ensures forall k :: k in queues ==>
              TrivialAppend(queues, es)[k] == queues[k] + seq(CarriersOf(es, k), _ => TrivialCommand(k))
    decreases |es|
  {
    if es != [] {
      var n := |es| - 1;
      TrivialAppendPerKey(queues, es[..n]);
      var before := TrivialAppend(queues, es[..n]);
      forall k | k in queues
        ensures TrivialAppend(queues, es)[k] == queues[k] + seq(CarriersOf(es, k), _ => TrivialCommand(k))
      {
        if Carries(es[n]) && es[n].networked == Some(k) {
          assert seq(CarriersOf(es, k), _ => TrivialCommand(k)) ==
                 seq(CarriersOf(es[..n], k), _ => TrivialCommand(k)) + [TrivialCommand(k)];
        } else {
          assert CarriersOf(es, k) == CarriersOf(es[..n], k);
        }
      }
    }
  }

  /** When ids are unique, a visited entity whose id has a queue gets
      exactly one command, with its id and the vector (1, 0, 0). */
  lemma OneCommandPerEntity(queues: MoveQueues, es: seq<Entity>, k: string)
    requires k in queues && CarriersOf(es, k) == 1
    ensures k in TrivialAppend(queues, es)
    ensures |TrivialAppend(queues, es)[k]| == |queues[k]| + 1
    ensures TrivialAppend(queues, es)[k][..|queues[k]|] == queues[k]
    ensures TrivialAppend(queues, es)[k][|queues[k]|] == MoveCommand(k, 1.0, 0.0, 0.0, Moving)
  {
    TrivialAppendPerKey(queues, es);
  }

  /** `trivival_move_system`: the move queues become `TrivialAppend` of the
      entities; the entities themselves are untouched. */
  method TrivialMoveSystem(world: Ecs.World)
    modifies world
    ensures world.moveCommands == TrivialAppend(old(world.moveCommands), world.entities)
    ensures world.entities == old(world.entities) && world.spawnCommands == old(world.spawnCommands)
  {
    var es := world.entities;
    var i := 0;
    while i < |es|
      invariant 0 <= i <= |es|
      invariant world.moveCommands == TrivialAppend(old(world.moveCommands), es[..i])
      invariant world.entities == es && world.spawnCommands == old(world.spawnCommands)
    {
      var e := es[i];
      assert es[..i + 1][..i] == es[..i];
      if Carries(e) && e.networked.value in world.moveCommands {
        var id := e.networked.value;
        world.moveCommands := world.moveCommands[id := world.moveCommands[id] + [TrivialCommand(id)]];
      }
      i := i + 1;
    }
    assert es[..i] == es;
  }
}
