/** The shared world: the entities and the command queues registered as its
    resources. */
module Ecs {
  import opened Components
  import opened Commands

  class World {
    /** Entities in creation order; an entity's handle is its index. */
    var entities: seq<Entity>
    /** Move intents, one queue per Networked id. */
    var moveCommands: map<string, seq<MoveCommand>>
    /** Spawn requests, in arrival order; not keyed, as the entity does not
        exist yet. */
    var spawnCommands: seq<SpawnCommand>

    /** A world with no entities and empty command queues, as after resource
        registration. */
    constructor ()
      ensures entities == [] && moveCommands == map[] && spawnCommands == []
    {
      entities := [];
      moveCommands := map[];
      spawnCommands := [];
    }
  }
}
