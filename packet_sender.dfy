/** Outbound batching: the sender keeps the set of known client addresses and
    an append-only batch of outgoing bodies; every tick it takes the whole
    batch and stamps one packet per (batch entry, connection) pair with that
    connection's next sequence number. */
module Sending {
  import opened Wire
  import opened PacketIds

  /** One queued outgoing body with its opcode. */
  datatype PacketData = PacketData(data: string, opcode: OpCode)

  /** One stamped packet bound for one address. */
  datatype Outgoing = Outgoing(addr: SocketAddr, packet: OutPacket)

  /** The packets one connection receives for a batch when its first id is
      `first`: one per entry, in batch order, with consecutive ids. */
  function StampedFor(first: nat, batch: seq<PacketData>): (r: seq<OutPacket>)
  {
    seq(|batch|, i requires 0 <= i < |batch| => Packet(first + i, batch[i].opcode, batch[i].data))
  }

  /** The packets of `sent` bound for `c`, in sending order. */
  function SentTo(sent: seq<Outgoing>, c: SocketAddr): (r: seq<OutPacket>)
    ensures |r| <= |sent|
    decreases |sent|
  {
    if sent == [] then []
    else
      var n := |sent| - 1;
      SentTo(sent[..n], c) + (if sent[n].addr == c then [sent[n].packet] else [])
  }

  /** The generator's table after every connection of `conns` was issued `n`
      ids. */
  function Advanced(counters: Counters, conns: set<SocketAddr>, n: nat): (r: Counters)
    ensures n == 0 ==> r == counters
    ensures n > 0 ==> r.Keys == counters.Keys + conns
    ensures forall c :: c in counters && c !in conns ==> r[c] == counters[c]
  {
    if n == 0 then counters
    else map c | c in counters.Keys + conns :: if c in conns then NextId(counters, c) + n - 1 else counters[c]
  }

  /** The ids a connection receives for a batch are exactly the ids the
      generator issues to it for that many calls, and each packet carries its
      entry's opcode and body unchanged. */
  lemma StampedIsIssued(counters: Counters, c: SocketAddr, batch: seq<PacketData>)
    ensures var r := StampedFor(NextId(counters, c), batch);
            |r| == |batch| &&
            (forall i :: 0 <= i < |batch| ==>
               r[i].id == Issued(counters, c, |batch|)[i] &&
               r[i].opcode == batch[i].opcode && r[i].data == batch[i].data)
  {
    IssuedConsecutive(counters, c, |batch|);
  }

  /** A later tick continues where the previous one stopped: a connection
      that received `n > 0` packets gets, next, the id after the last one. */
  lemma NextTickContinues(counters: Counters, conns: set<SocketAddr>, n: nat, c: SocketAddr)
    requires c in conns && n > 0
    ensures NextId(Advanced(counters, conns, n), c) == NextId(counters, c) + n
    ensures var last := StampedFor(NextId(counters, c), seq(n, i => PacketData("", Unset)))[n - 1];
            NextId(Advanced(counters, conns, n), c) == last.id + 1
  {
  }

  /** Appending one packet for `addr` extends only `addr`'s view. */
  lemma SentToStep(sent: seq<Outgoing>, o: Outgoing, c: SocketAddr)
    ensures SentTo(sent + [o], c) == SentTo(sent, c) + (if o.addr == c then [o.packet] else [])
  {
    assert (sent + [o])[..|sent|] == sent;
  }

  lemma StampedForStep(first: nat, batch: seq<PacketData>, i: nat)
    requires i < |batch|
    ensures StampedFor(first, batch[..i + 1]) ==
            StampedFor(first, batch[..i]) + [Packet(first + i, batch[i].opcode, batch[i].data)]
  {
  }

  /** A table that agrees with `Advanced` key by key is `Advanced`. */
  lemma AdvancedByKeys(m: Counters, counters: Counters, conns: set<SocketAddr>, n: nat)
    requires n > 0
    requires m.Keys == counters.Keys + conns
    requires forall c :: c in conns ==> m[c] == NextId(counters, c) + n - 1
    requires forall c :: c in counters && c !in conns ==> m[c] == counters[c]
    ensures m == Advanced(counters, conns, n)
  {
  }

  /** Advancing by `n` and then by one more is advancing by `n + 1`. */
  lemma AdvancedOnce(counters: Counters, conns: set<SocketAddr>, n: nat)
    ensures Advanced(Advanced(counters, conns, n), conns, 1) == Advanced(counters, conns, n + 1)
  {
    var m := Advanced(Advanced(counters, conns, n), conns, 1);
    forall c | c in conns
      ensures m[c] == NextId(counters, c) + n
    {
      if n > 0 {
        NextTickContinues(counters, conns, n, c);
      }
    }
    AdvancedByKeys(m, counters, conns, n + 1);
  }

  /** The view of `c` of two runs of packets sent one after the other. */
  lemma {:induction false} SentToAppend(s: seq<Outgoing>, t: seq<Outgoing>, c: SocketAddr)
    ensures SentTo(s + t, c) == SentTo(s, c) + SentTo(t, c)
    decreases |t|
  {
    if t == [] {
      assert s + t == s;
    } else {
      var n := |t| - 1;
      assert (s + t)[..|s| + n] == s + t[..n];
      SentToAppend(s, t[..n], c);
    }
  }

  /** Every packet of `sent` goes to a connection of `conns`. */
  predicate AllTo(sent: seq<Outgoing>, conns: set<SocketAddr>)
  {
    forall o :: o in sent ==> o.addr in conns
  }

  /** Each connection of `conns` sees, in `sent`, the packets of `batch` in
      order, numbered on from its next id in `counters`. */
  predicate Views(sent: seq<Outgoing>, counters: Counters, conns: set<SocketAddr>, batch: seq<PacketData>)
  {
    forall c :: c in conns ==> SentTo(sent, c) == StampedFor(NextId(counters, c), batch)
  }

  /** After the entries `done` of a batch went out to `conns`, starting
      from the generator table `c0`: one packet per (entry, connection),
      all to registered connections, each connection seeing the entries in
      order with consecutive ids continuing its own sequence, and the
      generator table `counters` advanced by `|done|` for every connection. */
  predicate EmittedSoFar(sent: seq<Outgoing>, c0: Counters, conns: set<SocketAddr>, done: seq<PacketData>, counters: Counters)
  {
    |sent| == |done| * |conns| &&
    AllTo(sent, conns) &&
    Views(sent, c0, conns, done) &&
    counters == Advanced(c0, conns, |done|)
  }

  /** What one `emit_packets` did, for the whole batch. */
  twostate predicate Emitted(gen: PacketIdGenerator, batch: seq<PacketData>, conns: set<SocketAddr>, sent: seq<Outgoing>)
    reads gen
  {
    EmittedSoFar(sent, old(gen.idContainers), conns, batch, gen.idContainers)
  }

  /** `round` holds one packet for the entry `d` per connection of `conns`,
      stamped with the connection's next id in `counters`. */
  predicate OneEach(round: seq<Outgoing>, counters: Counters, conns: set<SocketAddr>, d: PacketData)
  {
    |round| == |conns| && AllTo(round, conns) &&
    forall c :: c in conns ==> SentTo(round, c) == [Packet(NextId(counters, c), d.opcode, d.data)]
  }

  predicate Distinct(order: seq<SocketAddr>)
  {
    forall i, j :: 0 <= i < j < |order| ==> order[i] != order[j]
  }

  /** The packets for one batch entry when the connections are visited in
      `order`, each with its next id in `counters`. */
  function RoundFor(order: seq<SocketAddr>, counters: Counters, d: PacketData): (round: seq<Outgoing>)
    ensures |round| == |order|
  {
    seq(|order|, i requires 0 <= i < |order| => Outgoing(order[i], Packet(NextId(counters, order[i]), d.opcode, d.data)))
  }

  /** The generator's table after one `generate_id` per connection of
      `order`, in that order. */
  function Bumped(counters: Counters, order: seq<SocketAddr>): Counters
    decreases |order|
  {
    if order == [] then counters
    else
      var n := |order| - 1;
      var m := Bumped(counters, order[..n]);
      m[order[n] := NextId(m, order[n])]
  }

  /** A connection not yet visited still has its original counter. */
  lemma {:induction false} BumpedOutside(counters: Counters, order: seq<SocketAddr>, a: SocketAddr)
    requires a !in order
    ensures a in Bumped(counters, order) <==> a in counters
    ensures a in counters ==> Bumped(counters, order)[a] == counters[a]
    decreases |order|
  {
    if order != [] {
      var n := |order| - 1;
      assert order == order[..n] + [order[n]];
      BumpedOutside(counters, order[..n], a);
    }
  }

  /** Visiting every connection once, in any order, advances each by one. */
  lemma {:induction false} BumpedByKeys(counters: Counters, order: seq<SocketAddr>)
    requires Distinct(order)
    ensures Bumped(counters, order).Keys == counters.Keys + set a | a in order
    ensures forall a :: a in order ==> Bumped(counters, order)[a] == NextId(counters, a)
    ensures forall a :: a in counters && a !in order ==> Bumped(counters, order)[a] == counters[a]
    decreases |order|
  {
    if order != [] {
      var n := |order| - 1;
      var prefix := order[..n];
      assert order == prefix + [order[n]];
      BumpedByKeys(counters, prefix);
      BumpedOutside(counters, prefix, order[n]);
      assert (set a | a in order) == (set a | a in prefix) + {order[n]};
    }
  }

  /** Each connection of a round sees exactly one packet, stamped with its
      next id; any other connection sees none. */
  lemma {:induction false} RoundView(order: seq<SocketAddr>, counters: Counters, d: PacketData, c: SocketAddr)
    requires Distinct(order)
    ensures SentTo(RoundFor(order, counters, d), c) ==
            if c in order then [Packet(NextId(counters, c), d.opcode, d.data)] else []
    decreases |order|
  {
    if order != [] {
      var n := |order| - 1;
      var prefix := order[..n];
      assert order == prefix + [order[n]];
      assert RoundFor(order, counters, d)[..n] == RoundFor(prefix, counters, d);
      RoundView(prefix, counters, d, c);
    }
  }

  /** One batch entry more, for one connection. */
  lemma ViewStepAt(sent: seq<Outgoing>, round: seq<Outgoing>, first: nat, batch: seq<PacketData>, i: nat, c: SocketAddr)
    requires i < |batch|
    requires SentTo(sent, c) == StampedFor(first, batch[..i])
    requires SentTo(round, c) == [Packet(first + i, batch[i].opcode, batch[i].data)]
    ensures SentTo(sent + round, c) == StampedFor(first, batch[..i + 1])
  {
    SentToAppend(sent, round, c);
    StampedForStep(first, batch, i);
  }

  /** One batch entry more: the views grow by one packet per connection. */
  lemma ViewsStep(sent: seq<Outgoing>, round: seq<Outgoing>, c0: Counters, conns: set<SocketAddr>,
                  batch: seq<PacketData>, i: nat)
    requires i < |batch|
    requires Views(sent, c0, conns, batch[..i])
    requires OneEach(round, Advanced(c0, conns, i), conns, batch[i])
    ensures Views(sent + round, c0, conns, batch[..i + 1])
  {
    forall c | c in conns
      ensures SentTo(sent + round, c) == StampedFor(NextId(c0, c), batch[..i + 1])
    {
      var adv := Advanced(c0, conns, i);
      var first := NextId(c0, c);
      assert NextId(adv, c) == first + i by {
        if i > 0 {
          NextTickContinues(c0, conns, i, c);
        }
      }
      assert SentTo(round, c) == [Packet(NextId(adv, c), batch[i].opcode, batch[i].data)];
      assert SentTo(sent, c) == StampedFor(first, batch[..i]);
      ViewStepAt(sent, round, first, batch, i, c);
    }
  }

  /** The loop of `emit_packets` keeps its invariant over one batch entry. */
  lemma EmitStep(sent: seq<Outgoing>, round: seq<Outgoing>, c0: Counters, conns: set<SocketAddr>,
                 batch: seq<PacketData>, i: nat, before: Counters, after: Counters)
    requires i < |batch|
    requires EmittedSoFar(sent, c0, conns, batch[..i], before)
    requires OneEach(round, before, conns, batch[i])
    requires after == Advanced(before, conns, 1)
    ensures EmittedSoFar(sent + round, c0, conns, batch[..i + 1], after)
  {
    ViewsStep(sent, round, c0, conns, batch, i);
    AdvancedOnce(c0, conns, i);
    assert (i + 1) * |conns| == i * |conns| + |conns|;
  }

  /** `emit_packets`, without the socket: for every batch entry in order, one
      packet to every connection, stamped with the generator's next id for
      that connection. The datagrams themselves are not modelled; `sent`
      lists them in the order they were queued. */
  method EmitPackets(batch: seq<PacketData>, conns: set<SocketAddr>, gen: PacketIdGenerator)
    returns (sent: seq<Outgoing>)
    modifies gen
    ensures Emitted(gen, batch, conns, sent)
  {
    ghost var c0 := gen.idContainers;
    sent := [];
    var i := 0;
    while i < |batch|
      invariant 0 <= i <= |batch|
      invariant EmittedSoFar(sent, c0, conns, batch[..i], gen.idContainers)
    {
      ghost var before := gen.idContainers;
      var round := EmitEntry(batch[i], conns, gen);
      EmitStep(sent, round, c0, conns, batch, i, before, gen.idContainers);
      sent := sent + round;
      i := i + 1;
    }
    assert batch[..i] == batch;
  }

  /** Part way through the inner loop: the connections visited so far, in
      `order`, are those of `conns` no longer `remaining`; each got one packet
      with its next id in `start`, and one `generate_id`. */
  ghost predicate EntrySoFar(order: seq<SocketAddr>, remaining: set<SocketAddr>, conns: set<SocketAddr>,
                       round: seq<Outgoing>, start: Counters, d: PacketData, counters: Counters)
  {
    remaining <= conns && Distinct(order) &&
    (forall a :: a in order <==> a in conns && a !in remaining) &&
    |order| + |remaining| == |conns| &&
    round == RoundFor(order, start, d) &&
    counters == Bumped(start, order)
  }

  /** Visiting one more connection keeps `EntrySoFar`. */
  lemma EntryStep(order: seq<SocketAddr>, remaining: set<SocketAddr>, conns: set<SocketAddr>,
                  round: seq<Outgoing>, start: Counters, d: PacketData, counters: Counters, addr: SocketAddr)
    requires EntrySoFar(order, remaining, conns, round, start, d, counters)
    requires addr in remaining
    ensures NextId(counters, addr) == NextId(start, addr)
    ensures EntrySoFar(order + [addr], remaining - {addr}, conns,
                       round + [Outgoing(addr, Packet(NextId(start, addr), d.opcode, d.data))],
                       start, d, counters[addr := NextId(start, addr)])
  {
    BumpedOutside(start, order, addr);
    assert (order + [addr])[..|order|] == order;
  }

  /** Once every connection was visited, the round is one packet each and the
      generator has advanced every connection by one. */
  lemma EntryDone(order: seq<SocketAddr>, conns: set<SocketAddr>, round: seq<Outgoing>, start: Counters,
                  d: PacketData, counters: Counters)
    requires EntrySoFar(order, {}, conns, round, start, d, counters)
    ensures OneEach(round, start, conns, d)
    ensures counters == Advanced(start, conns, 1)
  {
    BumpedByKeys(start, order);
    assert (set a | a in order) == conns;
    AdvancedByKeys(counters, start, conns, 1);
    forall c | c in conns
      ensures SentTo(round, c) == [Packet(NextId(start, c), d.opcode, d.data)]
    {
      RoundView(order, start, d, c);
    }
  }

  /** The inner loop of `emit_packets`: one packet for the entry to every
      connection, in the set's iteration order, each stamped with that
      connection's next id. */
  method EmitEntry(packetData: PacketData, conns: set<SocketAddr>, gen: PacketIdGenerator)
    returns (round: seq<Outgoing>)
    modifies gen
    ensures OneEach(round, old(gen.idContainers), conns, packetData)
    ensures gen.idContainers == Advanced(old(gen.idContainers), conns, 1)
  {
    ghost var start := gen.idContainers;
    ghost var order: seq<SocketAddr> := [];
    round := [];
    var remaining := conns;
    while remaining != {}
      invariant EntrySoFar(order, remaining, conns, round, start, packetData, gen.idContainers)
      decreases |remaining|
    {
      var addr :| addr in remaining;
      EntryStep(order, remaining, conns, round, start, packetData, gen.idContainers, addr);
      var id := gen.GenerateId(addr);
      round := round + [Outgoing(addr, Packet(id, packetData.opcode, packetData.data))];
      order := order + [addr];
      remaining := remaining - {addr};
    }
    EntryDone(order, conns, round, start, packetData, gen.idContainers);
  }

  /** The sender: registered addresses, the pending batch and the shared id
      generator. */
  class ServerPacketSender {
    var packetDatas: seq<PacketData>
    var connections: set<SocketAddr>
    const packetIdGenerator: PacketIdGenerator

    /** `new`: nothing registered, nothing pending. */
    constructor (packetIdGenerator: PacketIdGenerator)
      ensures packetDatas == [] && connections == {}
      ensures this.packetIdGenerator == packetIdGenerator
    {
      packetDatas := [];
      connections := {};
      this.packetIdGenerator := packetIdGenerator;
    }

    /** `try_register`: the address is registered afterwards, once however
        often it registers; the batch is untouched. */
    method TryRegister(addr: SocketAddr)
      modifies this
      ensures connections == old(connections) + {addr}
      ensures packetDatas == old(packetDatas)
    {
      if addr !in connections {
        connections := connections + {addr};
      }
    }

    /** `enqueue`: the body goes to the end of the batch; the registrations
        are untouched. */
    method Enqueue(data: string, opcode: OpCode)
      modifies this
      ensures packetDatas == old(packetDatas) + [PacketData(data, opcode)]
      ensures connections == old(connections)
    {
      packetDatas := packetDatas + [PacketData(data, opcode)];
    }

    /** The tick callback: takes the whole batch, leaving it empty, and emits
        it to the registered connections, which are untouched. */
    method Tick() returns (sent: seq<Outgoing>)
      modifies this, packetIdGenerator
      ensures packetDatas == [] && connections == old(connections)
      ensures Emitted(packetIdGenerator, old(packetDatas), connections, sent)
    {
      var packets := packetDatas;
      packetDatas := [];
      sent := EmitPackets(packets, connections, packetIdGenerator);
    }
  }
}
