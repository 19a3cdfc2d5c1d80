/** Values that travel on the wire or are shared by every component of the
    server: addresses, entity identities, vectors, opcodes and the packet
    envelope. */
module Wire {

  datatype Option<T> = None | Some(value: T)

  /** A peer's UDP socket address. Only equality matters to the server. */
  datatype SocketAddr = SocketAddr(host: nat, port: nat)

  /** A UUID, represented by its canonical text (what `to_string` yields). */
  type Uuid = string

  datatype Vec3d = Vec3d(x: real, y: real, z: real)

  const Origin: Vec3d := Vec3d(0.0, 0.0, 0.0)

  datatype OpCode = Unset | Moved | Move | Spawn | Enter | Enown

  datatype MovementStateType = Moving | Stopped

  /** The JSON text carried in an inbound packet's `data`, classified by what
      the JSON decoder makes of it. */
  datatype Payload =
    | EmptyObject                                           // `{}`, sent with Enter
    | MoveObject(vector: Vec3d, state: MovementStateType)   // a serialized move request
    | OtherObject                                           // any other body serde accepts (another object, an empty array)
    | Malformed                                             // any body serde rejects

  /** The envelope of every datagram. Inbound packets carry a decoded
      `Payload`, outbound ones the already serialized text. */
  datatype Packet<D> = Packet(id: nat, opcode: OpCode, data: D)

  type InPacket = Packet<Payload>
  type OutPacket = Packet<string>

  /** A packet together with the address it came from. */
  datatype ReceivedPacket = ReceivedPacket(packet: InPacket, addr: SocketAddr)

  /** Body of a Move request. */
  datatype MovePacket = MovePacket(vector: Vec3d, state: MovementStateType)

  /** Decoding a Move body succeeds only for a serialized move request. */
  function DecodeMove(p: Payload): (r: Option<MovePacket>)
    ensures r.Some? <==> p.MoveObject?
    ensures r.Some? ==> r.value.vector == p.vector && r.value.state == p.state
  {
    if p.MoveObject? then Some(MovePacket(p.vector, p.state)) else None
  }

  /** The Enter body is an empty struct, which serde accepts from every
      body in the first three shapes (unknown fields are ignored);
      `Malformed` stands for every body serde rejects. */
  predicate DecodesAsEnter(p: Payload)
  {
    !p.Malformed?
  }

  /** Outbound bodies. */
  datatype SpawnPacket = SpawnPacket(id: string, location: Vec3d)
  datatype MovedPacket = MovedPacket(networkedId: string, vector: Vec3d)
}
