/** The components an entity of the world can carry. An entity is a record
    of optional components; its handle is its index in the world. */
module Components {
  import opened Wire

  datatype MovementState = MovementState(currentState: MovementStateType, velocity: real, direction: Vec3d)

  datatype Entity = Entity(position: Option<Vec3d>, networked: Option<string>, movement: Option<MovementState>)

  /** What `spawn_empty` creates. */
  const EmptyEntity: Entity := Entity(None, None, None)

  /** Whether `e` has both a Position and a Networked component with this id. */
  predicate HasPositionAndId(e: Entity, id: string)
  {
    e.position.Some? && e.networked == Some(id)
  }
}
