/** The inbound ordering gate: the receiver remembers, per address, the id of
    the last packet it accepted, drops a packet whose id is below it, and
    forwards every other packet to the opcode router. Once per tick it has
    the router transform the world. */
module Receiving {
  import opened Wire
  import opened Authorization
  import opened PacketHandling
  import Ecs

  /** The last accepted id per address. */
  type Connections = map<SocketAddr, nat>

  /** A packet is dropped only when its address has a recorded id strictly
      greater than the packet's; an equal id goes through. */
  predicate Accepts(conns: Connections, addr: SocketAddr, id: nat)
  {
    !(addr in conns && conns[addr] > id)
  }

  /** The table after `consume` has seen a packet with this id from `addr`. */
  function Recorded(conns: Connections, addr: SocketAddr, id: nat): (r: Connections)
    ensures Accepts(conns, addr, id) ==> r.Keys == conns.Keys + {addr} && r[addr] == id
    ensures !Accepts(conns, addr, id) ==> r == conns
    ensures addr in conns ==> r[addr] >= conns[addr]
    ensures forall a :: a in conns && a != addr ==> a in r && r[a] == conns[a]
  {
    if Accepts(conns, addr, id) then conns[addr := id] else conns
  }

  /** The three outcomes of the gate, each as the source's tests pin it
      down: an unknown address is accepted whatever the id, a lower id is
      dropped, an equal or higher id is accepted and recorded. */
  lemma GateOutcomes(conns: Connections, addr: SocketAddr, id: nat)
    ensures addr !in conns ==> Accepts(conns, addr, id) && Recorded(conns, addr, id)[addr] == id
    ensures addr in conns && id < conns[addr] ==> !Accepts(conns, addr, id) && Recorded(conns, addr, id) == conns
    ensures addr in conns && id >= conns[addr] ==> Accepts(conns, addr, id) && Recorded(conns, addr, id)[addr] == id
  {
  }

  /** A packet as it arrives on the socket, with its sender. */
  datatype Arrival = Arrival(packet: InPacket, addr: SocketAddr)

  /** The table after a run of arrivals went through the gate, in order. */
  function RecordAll(conns: Connections, arrivals: seq<Arrival>): Connections
    decreases |arrivals|
  {
    if arrivals == [] then conns
    else
      var n := |arrivals| - 1;
      var last := arrivals[n];
      Recorded(RecordAll(conns, arrivals[..n]), last.addr, last.packet.id)
  }

  /** The arrivals the gate forwards, in arrival order. */
  function ForwardAll(conns: Connections, arrivals: seq<Arrival>): (fwd: seq<Arrival>)
    ensures |fwd| <= |arrivals|
    ensures forall f :: f in fwd ==> f in arrivals
    decreases |arrivals|
  {
    if arrivals == [] then []
    else
      var n := |arrivals| - 1;
      var last := arrivals[n];
      var before := ForwardAll(conns, arrivals[..n]);
      if Accepts(RecordAll(conns, arrivals[..n]), last.addr, last.packet.id) then before + [last] else before
  }

  /** After any run of arrivals the recorded id of an address is the largest
      id it has shown: at least its earlier record and every id that arrived
      from it, and equal to one of those. */
  lemma {:induction false} RecordIsLargestSeen(conns: Connections, arrivals: seq<Arrival>, a: SocketAddr)
    requires a in conns || exists i :: 0 <= i < |arrivals| && arrivals[i].addr == a
    ensures a in RecordAll(conns, arrivals)
    ensures a in conns ==> RecordAll(conns, arrivals)[a] >= conns[a]
    ensures forall i :: 0 <= i < |arrivals| && arrivals[i].addr == a ==>
              RecordAll(conns, arrivals)[a] >= arrivals[i].packet.id
    ensures (a in conns && RecordAll(conns, arrivals)[a] == conns[a]) ||
            exists i :: 0 <= i < |arrivals| && arrivals[i].addr == a &&
              RecordAll(conns, arrivals)[a] == arrivals[i].packet.id
    decreases |arrivals|
  {
    if arrivals == [] {
      return;
    }
    var n := |arrivals| - 1;
    var prefix := arrivals[..n];
    var last := arrivals[n];
    if a != last.addr {
      if a !in conns {
        var i :| 0 <= i < |arrivals| && arrivals[i].addr == a;
        assert i < n && prefix[i].addr == a;
      }
      RecordIsLargestSeen(conns, prefix, a);
      var r := RecordAll(conns, prefix);
      assert RecordAll(conns, arrivals)[a] == r[a];
      forall i | 0 <= i < |arrivals| && arrivals[i].addr == a
        ensures RecordAll(conns, arrivals)[a] >= arrivals[i].packet.id
      {
        assert prefix[i] == arrivals[i];
      }
      if !(a in conns && r[a] == conns[a]) {
        var i :| 0 <= i < |prefix| && prefix[i].addr == a && r[a] == prefix[i].packet.id;
        assert arrivals[i] == prefix[i];
      }
    } else if a in conns || exists i :: 0 <= i < n && prefix[i].addr == a {
      RecordIsLargestSeen(conns, prefix, a);
      var r := RecordAll(conns, prefix);
      forall i | 0 <= i < n && arrivals[i].addr == a
        ensures RecordAll(conns, arrivals)[a] >= arrivals[i].packet.id
      {
        assert prefix[i] == arrivals[i];
      }
      if !(a in conns && r[a] == conns[a]) {
        var i :| 0 <= i < |prefix| && prefix[i].addr == a && r[a] == prefix[i].packet.id;
        assert arrivals[i] == prefix[i];
      }
    } else {
      assert forall i :: 0 <= i < n ==> arrivals[i].addr != a by {
        forall i | 0 <= i < n ensures arrivals[i].addr != a {
          assert prefix[i] == arrivals[i];
        }
      }
      RecordAllKeepsAbsent(conns, prefix, a);
    }
  }

  /** An address that never appears keeps having no record. */
  lemma {:induction false} RecordAllKeepsAbsent(conns: Connections, arrivals: seq<Arrival>, a: SocketAddr)
    requires a !in conns
    requires forall i :: 0 <= i < |arrivals| ==> arrivals[i].addr != a
    ensures a !in RecordAll(conns, arrivals)
    decreases |arrivals|
  {
    if arrivals != [] {
      var n := |arrivals| - 1;
      assert forall i :: 0 <= i < n ==> arrivals[..n][i] == arrivals[i];
      RecordAllKeepsAbsent(conns, arrivals[..n], a);
    }
  }

  /** From each address, the ids of `fwd` never go back. */
  predicate InOrderPerAddress(fwd: seq<Arrival>)
  {
    forall i, j :: 0 <= i < j < |fwd| && fwd[i].addr == fwd[j].addr ==> fwd[i].packet.id <= fwd[j].packet.id
  }

  /** Every id of `fwd` is at least the record its address had in `conns`. */
  predicate NotBelow(fwd: seq<Arrival>, conns: Connections)
  {
    forall i :: 0 <= i < |fwd| && fwd[i].addr in conns ==> conns[fwd[i].addr] <= fwd[i].packet.id
  }

  /** Every id of `fwd` is at most the record its address has in `conns`. */
  predicate NotAbove(fwd: seq<Arrival>, conns: Connections)
  {
    forall i :: 0 <= i < |fwd| ==> fwd[i].addr in conns && fwd[i].packet.id <= conns[fwd[i].addr]
  }

  /** What the gate forwards from one address never goes back in id, never
      goes below the record the address had before, and never goes above the
      record it has after. */
  lemma {:induction false} ForwardedInOrder(conns: Connections, arrivals: seq<Arrival>)
    ensures InOrderPerAddress(ForwardAll(conns, arrivals))
    ensures NotBelow(ForwardAll(conns, arrivals), conns)
    ensures NotAbove(ForwardAll(conns, arrivals), RecordAll(conns, arrivals))
    decreases |arrivals|
  {
    if arrivals != [] {
      var n := |arrivals| - 1;
      var prefix := arrivals[..n];
      var last := arrivals[n];
      ForwardedInOrder(conns, prefix);
      var before := ForwardAll(conns, prefix);
      var r := RecordAll(conns, prefix);
      var after := RecordAll(conns, arrivals);
      if Accepts(r, last.addr, last.packet.id) {
        var fwd := before + [last];
        assert ForwardAll(conns, arrivals) == fwd;
        assert after == r[last.addr := last.packet.id];
        if last.addr in conns {
          RecordIsLargestSeen(conns, prefix, last.addr);
        }
        forall i | 0 <= i < |fwd|
          ensures fwd[i].addr in after && fwd[i].packet.id <= after[fwd[i].addr]
          ensures fwd[i].addr in conns ==> conns[fwd[i].addr] <= fwd[i].packet.id
        {
          if i < |before| {
            assert fwd[i] == before[i];
          }
        }
        forall i, j | 0 <= i < j < |fwd| && fwd[i].addr == fwd[j].addr
          ensures fwd[i].packet.id <= fwd[j].packet.id
        {
          assert fwd[i] == before[i];
          if j < |before| {
            assert fwd[j] == before[j];
          }
        }
      } else {
        assert ForwardAll(conns, arrivals) == before;
        assert after == r;
      }
    }
  }

  /** The receiver: the gate's table and the router it forwards to. */
  class ServerPacketReceiver {
    var connections: Connections
    const packetHandler: PacketHandler

    ghost predicate Valid()
      reads this, packetHandler, packetHandler.enterHandler, packetHandler.moveHandler
    {
      packetHandler.Valid()
    }

    /** `new`: an empty table, and a router with an Enter and a Move handler
        sharing one authorization table. */
    constructor (authorizationHandler: AuthorizationHandler)
      ensures Valid() && connections == map[]
      ensures fresh(packetHandler) && packetHandler.authorizationHandler == authorizationHandler
      ensures packetHandler.Opcodes() == {Enter, Move}
      ensures forall op :: packetHandler.Buffer(op) == []
    {
      connections := map[];
      var handler := new PacketHandler(authorizationHandler);
      handler.WithEnterHandler();
      handler.WithMoveHandler();
      packetHandler := handler;
    }

    /** `consume`: the gate's table becomes `Recorded`, and the packet is
        forwarded to the router, once and unchanged, exactly when the gate
        accepts it. `forwarded` reports which. */
    method Consume(packet: InPacket, addr: SocketAddr) returns (forwarded: bool)
      requires Valid()
      modifies this, packetHandler.enterHandler, packetHandler.moveHandler
      ensures Valid()
      ensures forwarded == Accepts(old(connections), addr, packet.id)
      ensures connections == Recorded(old(connections), addr, packet.id)
      ensures packetHandler.enterHandler == old(packetHandler.enterHandler)
      ensures packetHandler.moveHandler == old(packetHandler.moveHandler)
      ensures forall op :: packetHandler.Buffer(op) ==
                if forwarded && op == packet.opcode && op in packetHandler.Opcodes()
                then old(packetHandler.Buffer(op)) + [ReceivedPacket(packet, addr)]
                else old(packetHandler.Buffer(op))
    {
      var packetId := packet.id;
      if addr !in connections {
        connections := connections[addr := packetId];
      } else if connections[addr] > packetId {
        return false;
      } else {
        connections := connections[addr := packetId];
      }
      packetHandler.HandlePacket(addr, packet);
      return true;
    }

    /** `inject_packets`: one `transform_state` of the router on the world. */
    method InjectPackets(world: Ecs.World, ids: seq<Uuid>, enterFirst: bool) returns (completed: bool)
      requires Valid()
      requires packetHandler.enterHandler != null ==> |ids| == |packetHandler.enterHandler.packets|
      modifies world, packetHandler.enterHandler, packetHandler.moveHandler, packetHandler.authorizationHandler
      ensures Valid()
      ensures Transformed(packetHandler, world, ids, enterFirst, completed)
      ensures connections == old(connections)
    {
      completed := packetHandler.TransformState(world, ids, enterFirst);
    }
  }
}
