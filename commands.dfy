/** Commands queued between the ingestion phase, the systems and the mapping
    phase, and how spawn and moved commands become outbound packets. */
module Commands {
  import opened Wire
  import opened Components

  /** A component listed in a spawn command. */
  datatype EntityComponent =
    | Position(x: real, y: real, z: real)
    | Networked(id: string)
    | Movement(state: MovementStateType, velocity: real)

  /** A client's move intent, queued under the id of the entity it moves. */
  datatype MoveCommand = MoveCommand(id: string, x: real, y: real, z: real, state: MovementStateType)

  /** A request to create an entity with the listed components, on behalf of
      the owning connection if any. */
  datatype SpawnCommand = SpawnCommand(components: seq<EntityComponent>, owner: Option<SocketAddr>)
  {
    /** The spawn packet announces the first Networked id of the list, always
        at the origin, whatever Position the list holds. */
    function MapToPacket(): (p: SpawnPacket)
      ensures p.location == Origin
      ensures p.id == FirstNetworkedId(components)
    {
      SpawnPacket(FirstNetworkedId(components), Vec3d(0.0, 0.0, 0.0))
    }
  }

  /** The id of the first Networked component in list order, or the empty
      string when there is none (`find_map` then `unwrap_or_default`). */
  function FirstNetworkedId(cs: seq<EntityComponent>): (r: string)
    ensures (forall i :: 0 <= i < |cs| ==> !cs[i].Networked?) ==> r == ""
    ensures forall i :: 0 <= i < |cs| && cs[i].Networked? && (forall j :: 0 <= j < i ==> !cs[j].Networked?) ==>
              r == cs[i].id
  {
    if cs == [] then ""
    else if cs[0].Networked? then cs[0].id
    else
      var r := FirstNetworkedId(cs[1..]);
      assert forall i :: 1 <= i < |cs| ==> cs[i] == cs[1..][i - 1];
      r
  }

  /** The outcome of movement: the entity with this id now stands elsewhere. */
  datatype MovedCommand = MovedCommand(id: string, x: real, y: real, z: real)
  {
    /** The moved packet carries the command's id and the Position the world
        holds for the first entity with that id; the command's own
        coordinates are not used. Mapping an id no entity has is a failure
        in the source, so it is excluded here. */
    function MapToPacket(entities: seq<Entity>): (p: MovedPacket)
      requires exists i :: 0 <= i < |entities| && HasPositionAndId(entities[i], id)
      ensures p.networkedId == id
      ensures exists i :: 0 <= i < |entities| && HasPositionAndId(entities[i], id) &&
                p.vector == entities[i].position.value &&
                forall j :: 0 <= j < i ==> !HasPositionAndId(entities[j], id)
    {
      var pos := FindPosition(entities, id);
      MovedPacket(id, pos.value)
    }
  }

  /** The Position of the first entity that has a Position and the given
      Networked id, if any. */
  function FindPosition(entities: seq<Entity>, id: string): (r: Option<Vec3d>)
    ensures r.None? <==> forall i :: 0 <= i < |entities| ==> !HasPositionAndId(entities[i], id)
    ensures r.Some? ==>
              exists i :: 0 <= i < |entities| && HasPositionAndId(entities[i], id) &&
                r.value == entities[i].position.value &&
                forall j :: 0 <= j < i ==> !HasPositionAndId(entities[j], id)
  {
    if entities == [] then None
    else if HasPositionAndId(entities[0], id) then entities[0].position
    else
      var r := FindPosition(entities[1..], id);
      assert forall i :: 1 <= i < |entities| ==> entities[i] == entities[1..][i - 1];
      if r.Some? then
        var k :| 0 <= k < |entities[1..]| && HasPositionAndId(entities[1..][k], id) &&
                 r.value == entities[1..][k].position.value &&
                 forall j :: 0 <= j < k ==> !HasPositionAndId(entities[1..][j], id);
        assert HasPositionAndId(entities[k + 1], id);
        r
      else r
  }
}
