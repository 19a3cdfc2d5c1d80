/** Which entities each connection may act for. A connection is registered on
    its first `AddEntity`; the first id it is given becomes its player
    character, which later calls never change. */
module Authorization {
  import opened Wire

  /** The record kept for one connection. */
  datatype SocketOwned = SocketOwned(playerCharacter: Uuid, entities: seq<Uuid>)

  type Owned = map<SocketAddr, SocketOwned>

  /** `s` with every occurrence of `id` dropped and the rest kept in order
      (what `Vec::retain` leaves). */
  function Without(s: seq<Uuid>, id: Uuid): (r: seq<Uuid>)
    ensures id !in r
    ensures forall x :: x in r <==> x in s && x != id
    ensures multiset(r) == multiset(s)[id := 0]
    ensures |r| <= |s|
  {
    if s == [] then []
    else
      assert s == [s[0]] + s[1..];
      if s[0] == id then Without(s[1..], id) else [s[0]] + Without(s[1..], id)
  }

  /** Dropping an id commutes with concatenation: the ids that stay keep
      their relative order. */
  lemma {:induction false} WithoutAppend(s: seq<Uuid>, t: seq<Uuid>, id: Uuid)
    ensures Without(s + t, id) == Without(s, id) + Without(t, id)
  {
    if s == [] {
      assert s + t == t;
    } else {
      assert (s + t)[1..] == s[1..] + t;
      WithoutAppend(s[1..], t, id);
    }
  }

  predicate NoDuplicates(s: seq<Uuid>)
  {
    forall i, j :: 0 <= i < j < |s| ==> s[i] != s[j]
  }

  lemma {:induction false} WithoutKeepsNoDuplicates(s: seq<Uuid>, id: Uuid)
    requires NoDuplicates(s)
    ensures NoDuplicates(Without(s, id))
  {
    if s != [] {
      assert NoDuplicates(s[1..]);
      WithoutKeepsNoDuplicates(s[1..], id);
      assert s[0] !in s[1..];
    }
  }

  /** `add_entity`: an unknown address gets a record whose player character is
      `id`; `id` is then appended to the owned list unless already present. */
  function AfterAdd(owned: Owned, addr: SocketAddr, id: Uuid): Owned
  {
    var entry := if addr in owned then owned[addr] else SocketOwned(id, []);
    if id in entry.entities then owned[addr := entry]
    else owned[addr := entry.(entities := entry.entities + [id])]
  }

  /** What `add_entity` does to the table: the address gets a record (with
      `id` as its player character when it had none), `id` ends up in its
      list exactly once more at most, and no other record changes. */
  lemma AddEntityEffect(owned: Owned, addr: SocketAddr, id: Uuid)
    ensures AfterAdd(owned, addr, id).Keys == owned.Keys + {addr}
    ensures id in AfterAdd(owned, addr, id)[addr].entities
    ensures addr !in owned ==> AfterAdd(owned, addr, id)[addr] == SocketOwned(id, [id])
    ensures addr in owned ==> AfterAdd(owned, addr, id)[addr].playerCharacter == owned[addr].playerCharacter
    ensures addr in owned ==>
              AfterAdd(owned, addr, id)[addr].entities ==
                if id in owned[addr].entities then owned[addr].entities else owned[addr].entities + [id]
    ensures forall a :: a in owned && a != addr ==> AfterAdd(owned, addr, id)[a] == owned[a]
  {
  }

  /** `remove_entity`: drops `id` from a known address's list; an unknown
      address is left alone, and the player character is never touched. */
  function AfterRemove(owned: Owned, addr: SocketAddr, id: Uuid): (r: Owned)
    ensures r.Keys == owned.Keys
    ensures addr in owned ==> r[addr].playerCharacter == owned[addr].playerCharacter
    ensures addr in owned ==> r[addr].entities == Without(owned[addr].entities, id)
    ensures addr !in owned ==> r == owned
    ensures forall a :: a in owned && a != addr ==> r[a] == owned[a]
  {
    if addr in owned then
      owned[addr := owned[addr].(entities := Without(owned[addr].entities, id))]
    else owned
  }

  /** `get_character_id`: the player character of a registered address. */
  function GetCharacterId(owned: Owned, addr: SocketAddr): (r: Option<Uuid>)
    ensures r.None? <==> addr !in owned
    ensures r.Some? ==> r.value == owned[addr].playerCharacter
  {
    if addr in owned then Some(owned[addr].playerCharacter) else None
  }

  /** `is_authorized`: whether `id` is among the address's owned entities. */
  predicate IsAuthorized(owned: Owned, addr: SocketAddr, id: Uuid)
  {
    addr in owned && id in owned[addr].entities
  }

  /** The table's invariant while no player character has been removed:
      every list is duplicate-free and starts with the player character. */
  ghost predicate Consistent(owned: Owned)
  {
    forall a :: a in owned ==>
      NoDuplicates(owned[a].entities) &&
      |owned[a].entities| > 0 && owned[a].entities[0] == owned[a].playerCharacter
  }

  /** After `add_entity(addr, id)` the address is authorized for `id` and its
      player character is the first id it was ever given. */
  lemma AddEntityAuthorizes(owned: Owned, addr: SocketAddr, id: Uuid)
    ensures IsAuthorized(AfterAdd(owned, addr, id), addr, id)
    ensures GetCharacterId(AfterAdd(owned, addr, id), addr) ==
            if addr in owned then GetCharacterId(owned, addr) else Some(id)
  {
  }

  /** Adding the same (address, id) twice changes nothing the second time. */
  lemma AddEntityIdempotent(owned: Owned, addr: SocketAddr, id: Uuid)
    ensures AfterAdd(AfterAdd(owned, addr, id), addr, id) == AfterAdd(owned, addr, id)
  {
  }

  /** An address without a record has no character and owns nothing. */
  lemma UnknownAddressUnauthorized(owned: Owned, addr: SocketAddr, id: Uuid)
    requires addr !in owned
    ensures GetCharacterId(owned, addr) == None
    ensures !IsAuthorized(owned, addr, id)
  {
  }

  lemma AddEntityKeepsConsistent(owned: Owned, addr: SocketAddr, id: Uuid)
    requires Consistent(owned)
    ensures Consistent(AfterAdd(owned, addr, id))
  {
    var r := AfterAdd(owned, addr, id);
    if addr in owned && id !in owned[addr].entities {
      var s := owned[addr].entities;
      assert r[addr].entities == s + [id];
      assert NoDuplicates(s + [id]) by {
        forall i, j | 0 <= i < j < |s + [id]|
          ensures (s + [id])[i] != (s + [id])[j]
        {
          if j == |s| {
            assert (s + [id])[i] == s[i];
          }
        }
      }
    }
  }

  /** Removing anything but the player character keeps the invariant: the
      player character stays first and no duplicates appear. */
  lemma RemoveEntityKeepsConsistent(owned: Owned, addr: SocketAddr, id: Uuid)
    requires Consistent(owned)
    requires addr in owned ==> id != owned[addr].playerCharacter
    ensures Consistent(AfterRemove(owned, addr, id))
  {
    if addr in owned {
      var s := owned[addr].entities;
      WithoutKeepsNoDuplicates(s, id);
      assert s == [s[0]] + s[1..];
      WithoutAppend([s[0]], s[1..], id);
      assert Without([s[0]], id) == [s[0]] by {
        assert [s[0]][1..] == [];
      }
    }
  }

  /** One step of a history of calls on the table. */
  datatype AuthCall = Add(addr: SocketAddr, id: Uuid) | Remove(addr: SocketAddr, id: Uuid)

  function Apply(owned: Owned, c: AuthCall): Owned
  {
    if c.Add? then AfterAdd(owned, c.addr, c.id) else AfterRemove(owned, c.addr, c.id)
  }

  function Replay(owned: Owned, calls: seq<AuthCall>): Owned
    decreases |calls|
  {
    if calls == [] then owned else Replay(Apply(owned, calls[0]), calls[1..])
  }

  /** A call that removes the current player character of its address. */
  predicate RemovesCharacter(owned: Owned, c: AuthCall)
  {
    c.Remove? && c.addr in owned && c.id == owned[c.addr].playerCharacter
  }

  /** No call of the history removes the player character it meets. */
  predicate KeepsCharacters(owned: Owned, calls: seq<AuthCall>)
    decreases |calls|
  {
    calls != [] ==>
      !RemovesCharacter(owned, calls[0]) && KeepsCharacters(Apply(owned, calls[0]), calls[1..])
  }

  /** From a consistent table, as long as no player character is removed,
      every owned list stays duplicate-free and starts with the player
      character, and a character once set never changes. */
  lemma {:induction false} ReplayKeepsConsistent(owned: Owned, calls: seq<AuthCall>)
    requires Consistent(owned)
    requires KeepsCharacters(owned, calls)
    ensures Consistent(Replay(owned, calls))
    ensures forall a :: a in owned ==>
              a in Replay(owned, calls) && Replay(owned, calls)[a].playerCharacter == owned[a].playerCharacter
    decreases |calls|
  {
    if calls != [] {
      var c := calls[0];
      var next := Apply(owned, c);
      if c.Add? {
        AddEntityKeepsConsistent(owned, c.addr, c.id);
      } else {
        RemoveEntityKeepsConsistent(owned, c.addr, c.id);
      }
      ReplayKeepsConsistent(next, calls[1..]);
    }
  }

  /** The handler itself: one table, updated in place. */
  class AuthorizationHandler {
    var owned: Owned

    constructor ()
      ensures owned == map[]
    {
      owned := map[];
    }

    method AddEntity(addr: SocketAddr, id: Uuid)
      modifies this
      ensures owned == AfterAdd(old(owned), addr, id)
    {
      var entry := if addr in owned then owned[addr] else SocketOwned(id, []);
      if id !in entry.entities {
        entry := entry.(entities := entry.entities + [id]);
      }
      owned := owned[addr := entry];
    }

    method RemoveEntity(addr: SocketAddr, id: Uuid)
      modifies this
      ensures owned == AfterRemove(old(owned), addr, id)
    {
      if addr in owned {
        var entry := owned[addr];
        owned := owned[addr := entry.(entities := Without(entry.entities, id))];
      }
    }
  }
}
