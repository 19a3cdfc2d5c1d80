/** Per-connection outbound sequence numbers: the first id issued to a
    connection is 0 and every later one is the previous plus one. */
module PacketIds {
  import opened Wire

  type Counters = map<SocketAddr, nat>

  /** The id the next `generate_id` call for `conn` returns. */
  function NextId(counters: Counters, conn: SocketAddr): (id: nat)
    ensures conn !in counters ==> id == 0
    ensures conn in counters ==> id == counters[conn] + 1
  {
    if conn in counters then counters[conn] + 1 else 0
  }

  /** The ids returned by `n` successive calls for `conn`. */
  function Issued(counters: Counters, conn: SocketAddr, n: nat): (r: seq<nat>)
    ensures |r| == n
    decreases n
  {
    if n == 0 then []
    else [NextId(counters, conn)] + Issued(counters[conn := NextId(counters, conn)], conn, n - 1)
  }

  /** Successive calls for one connection return consecutive ids. */
  lemma {:induction false} IssuedConsecutive(counters: Counters, conn: SocketAddr, n: nat)
    ensures |Issued(counters, conn, n)| == n
    ensures forall i :: 0 <= i < n ==> Issued(counters, conn, n)[i] == NextId(counters, conn) + i
    decreases n
  {
    if n > 0 {
      var c' := counters[conn := NextId(counters, conn)];
      IssuedConsecutive(c', conn, n - 1);
      assert NextId(c', conn) == NextId(counters, conn) + 1;
    }
  }

  /** For a connection never seen before, the k-th call (counting from 0)
      returns k. */
  lemma FreshConnectionCountsFromZero(counters: Counters, conn: SocketAddr, n: nat)
    requires conn !in counters
    ensures Issued(counters, conn, n) == seq(n, i => i)
  {
    IssuedConsecutive(counters, conn, n);
  }

  class PacketIdGenerator {
    var idContainers: Counters

    constructor ()
      ensures idContainers == map[]
    {
      idContainers := map[];
    }

    /** Returns the connection's next id and records it; no other
        connection's counter changes. */
    method GenerateId(conn: SocketAddr) returns (id: nat)
      modifies this
      ensures id == NextId(old(idContainers), conn)
      ensures idContainers == old(idContainers)[conn := id]
    {
      if conn in idContainers {
        id := idContainers[conn] + 1;
        idContainers := idContainers[conn := id];
      } else {
        id := 0;
        idContainers := idContainers[conn := id];
      }
    }
  }
}
