/**
 * The world the game runs in, as the loader leaves it: a fixed set of room
 * keys, each room's exits by direction word, and each room's display name.
 * Rooms and commands are seen here only through the operations the game
 * calls on them (`nextRoom`, `getRoomName`, `getCommandWord`,
 * `getSecondWord`, `hasSecondWord`, `isUnknown`).
 */
module Rooms {
  import opened Wrappers

  /** A room's key in the master room table (upper case, spaces as underscores). */
  type RoomId = string

  /** The room the game starts in and the one the Hallway ball sends the player back to. */
  const StartRoom: RoomId := "ATTIC"

  datatype World = World(
    rooms: set<RoomId>,
    exits: map<RoomId, map<string, RoomId>>,
    roomName: RoomId -> string)

  /** A loaded world: the start room exists and every exit leads between existing rooms. */
  predicate WellFormed(w: World)
  {
    && StartRoom in w.rooms
    && forall r :: r in w.exits ==> r in w.rooms && forall d :: d in w.exits[r] ==> w.exits[r][d] in w.rooms
  }

  /** `nextRoom`: the neighbour in `direction`, or null when the room has no such exit. */
  function NextRoom(w: World, from: RoomId, direction: string): (r: Option<RoomId>)
    ensures r.None? <==> from !in w.exits || direction !in w.exits[from]
    ensures r.Some? ==> r.value == w.exits[from][direction]
    ensures r.Some? && WellFormed(w) ==> r.value in w.rooms
  {
    if from in w.exits && direction in w.exits[from] then Some(w.exits[from][direction]) else None
  }

  /** A parsed player instruction: a command word, an optional second word, and the parser's unknown flag. */
  datatype Command = Command(word: string, secondWord: Option<string>, unknown: bool)
  {
    predicate HasSecondWord()
    {
      secondWord.Some?
    }
  }
}
