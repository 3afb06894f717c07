/**
 * Items are transferred, never copied or lost: across the player's inventory
 * and every room's inventory, the collection of items is the same before and
 * after any command.
 */
module Ownership {
  import opened Items
  import opened Inventories
  import opened Rooms
  import opened Game

  /** Everything held by the rooms in `keys`, counted with multiplicity. */
  ghost function Pool(rooms: map<RoomId, Inventory>, keys: set<RoomId>): multiset<Item>
    requires keys <= rooms.Keys
    decreases keys
  {
    if keys == {} then multiset{}
    else
      var k :| k in keys;
      multiset(rooms[k]) + Pool(rooms, keys - {k})
  }

  /** Every item in the game: the player's and all rooms'. */
  ghost function AllItems(s: State): multiset<Item>
  {
    multiset(s.player) + Pool(s.rooms, s.rooms.Keys)
  }

  /** The pool may be split at any room, not only at the one its definition happens to pick. */
  lemma {:induction false} PoolSplit(rooms: map<RoomId, Inventory>, keys: set<RoomId>, k: RoomId)
    requires keys <= rooms.Keys && k in keys
    ensures Pool(rooms, keys) == multiset(rooms[k]) + Pool(rooms, keys - {k})
    decreases keys
  {
    var j :| j in keys && Pool(rooms, keys) == multiset(rooms[j]) + Pool(rooms, keys - {j});
    if j != k {
      PoolSplit(rooms, keys - {j}, k);
      PoolSplit(rooms, keys - {k}, j);
      assert keys - {j} - {k} == keys - {k} - {j};
    }
  }

  /** Pools over maps that agree on `keys` are equal. */
  lemma {:induction false} PoolAgrees(a: map<RoomId, Inventory>, b: map<RoomId, Inventory>, keys: set<RoomId>)
    requires keys <= a.Keys && keys <= b.Keys
    requires forall k :: k in keys ==> a[k] == b[k]
    ensures Pool(a, keys) == Pool(b, keys)
    decreases keys
  {
    if keys != {} {
      var k :| k in keys && Pool(a, keys) == multiset(a[k]) + Pool(a, keys - {k});
      PoolSplit(b, keys, k);
      PoolAgrees(a, b, keys - {k});
    }
  }

  /** A step that keeps `Conserved` keeps every item in the game. */
  lemma ConservedKeepsAllItems(s: State, s': State)
    requires s.current in s.rooms && Conserved(s, s')
    ensures AllItems(s') == AllItems(s)
  {
    var rest := s.rooms.Keys - {s.current};
    PoolSplit(s.rooms, s.rooms.Keys, s.current);
    PoolSplit(s'.rooms, s'.rooms.Keys, s.current);
    PoolAgrees(s.rooms, s'.rooms, rest);
    assert AllItems(s) == multiset(s.player) + multiset(Here(s)) + Pool(s.rooms, rest);
    assert AllItems(s') == multiset(s'.player) + multiset(s'.rooms[s.current]) + Pool(s'.rooms, rest);
  }

  /** No command creates, duplicates or destroys an item. */
  lemma CommandConservesItems(w: World, s: State, cmd: Command)
    requires Valid(w, s) && EatHasObject(cmd)
    ensures AllItems(ProcessCommand(w, s, cmd).state) == AllItems(s)
  {
    ConservedKeepsAllItems(s, ProcessCommand(w, s, cmd).state);
  }
}
