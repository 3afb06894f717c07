# Bora's Game — a Dafny model of the inventory and the command interpreter

The game is a Zork-style text adventure. The player types short commands
to walk between rooms, pick up and put down items, and trigger a few
scripted events. The game ends on `quit`, on `jump`, or when the player
carries exactly 14 items.

This project models two parts of it as pure functions over immutable values:

* **Items and inventories** (`items.dfy`, `inventory.dfy`). An `Item` is a name plus a
  description. An inventory is a `seq<Item>` kept in insertion order. The model covers
  `addItem`, `removeItem` (first exact-name match), `contains` (first match
  ignoring case, read-only), `size` and `toString`.
* **The interpreter** (`game.dfy`, `play.dfy`, `ownership.dfy`). The state is the current
  room, the player's inventory and every room's inventory. The exit graph is
  fixed. `processCommand` is a function from a state and a command to a new
  state, a "game over" flag and a message tag. `play` is a loop over a finite
  stream of commands. It stops when a command ends the game, or when the
  player holds exactly 14 items after any other command.

Supporting modules: `wrappers.dfy` defines `Option`, which stands for a nullable
reference. `text.dfy` defines ASCII case folding and Java's `indexOf`. `rooms.dfy`
models the world and the `Command` value. `Room.java`, `Command.java` and
`Parser.java` are not part of this model. Rooms appear only through their exits
(`map<RoomId, map<string, RoomId>>`, read by `NextRoom`) and a total display-name
function. A command is a word, an optional second word and an "unknown" flag.

Behaviours of the code worth knowing:

* `shoot basketball` in the Court does not end the game. `shoot` answers
  `true`, but `processCommand` discards that answer and returns `false`
  (`src/Game.java:214-220`). `Game.ShootingDoesNotEndTheGame` states this.
* Any command word that is a substring of `"udeswn"` counts as movement. This
  includes two-letter words such as `"es"`, which are used verbatim as the
  direction, and the empty word (`indexOf("")` is 0).
* `addItem` always succeeds. The "unable to take/drop" branches are still
  modelled, but no input reaches them. In the source, the item would be lost
  on those paths.

## Model

| member | source | states |
|---|---|---|
| `Items.Make` | src/Item.java:5-17 | the constructed item's name and description are exactly the strings given: no trimming, no case change |
| `Items.MakeInjective` | src/Item.java:2-17 | two items are the same value exactly when they were built from the same name and description |
| `Inventories.FirstMatch` | src/Inventory.java:15-19 | the scan returns the first position, in insertion order, whose name matches; none exactly when no name matches |
| `Inventories.AddItem` | src/Inventory.java:10-12 | the call reports success; the item becomes the last element; earlier items are unchanged; the size grows by one |
| `Inventories.RemoveItem` | src/Inventory.java:14-21 | finds nothing, and leaves the inventory unchanged, exactly when no name equals the query (case-sensitive); otherwise removes only the first exact match, returns it, and keeps every other item in its relative order |
| `Inventories.Contains` | src/Inventory.java:31-38 | returns nothing exactly when no name equals the query ignoring case; otherwise returns the first such item |
| `Inventories.Render` | src/Inventory.java:23-29 | renders the empty string exactly for the empty inventory; otherwise ends with a newline |
| `Inventories.RenderAppend` | src/Inventory.java:23-29 | rendering a concatenation is the concatenation of the renderings, so the text is each name plus newline in insertion order |
| `Inventories.ToString` | src/Inventory.java:23-29 | the loop that appends one name plus newline per item produces exactly the rendering |
| `Inventories.SizeTracksContents` | src/Inventory.java:6-42 | `size()` (modelled by `Inventories.Size`): a new inventory has size 0; an add increases the size by one; a remove decreases it by one exactly when it finds something |
| `Inventories.ExactMatchImpliesContains` | src/Inventory.java:14-38 | if `removeItem(n)` would find an item then `contains(n)` finds one |
| `Inventories.ContainsDoesNotImplyRemove` | src/Inventory.java:14-38 | the converse fails: `contains("ball")` finds an item named "Ball" that `removeItem("ball")` does not |
| `Inventories.MatchIgnoresDescriptions` | src/Inventory.java:14-38 | lookups depend only on names: inventories with the same names in the same order give the same match |
| `Inventories.RemoveAfterAdd` | src/Inventory.java:10-21 | appending an item and removing its name returns that item and the original inventory, if no earlier item had that name |
| `Text.IndexOf` | src/Game.java:195-196 | Java `indexOf`: -1 exactly when the word occurs nowhere; otherwise the first position where it occurs |
| `Game.KeywordsAreNotAliases` | src/Game.java:179-219 | no named command word is a substring of "udeswn", so the movement test never captures another command |
| `Game.AliasDirections` | src/Game.java:320-342 | u, d, e, s, w, n are movement words meaning up, down, east, south, west, north; every other word, including longer substrings such as "es", "sw" or the empty word, is used verbatim |
| `Game.Direction` | src/Game.java:320-342 | no direction exactly when there is neither a second word nor an alias; an alias overrides the second word |
| `Rooms.NextRoom` | src/Game.java:345-346 | no neighbour exactly when the room has no exit in that direction; otherwise the exit's target, which exists in a loaded world |
| `Game.GoRoom` | src/Game.java:320-352 | with an exit, the current room becomes its target; without a direction it reports "Go where?"; with no exit it reports "There is no door!" and stays; inventories never change |
| `Game.TakeItem` | src/Game.java:246-266 | with an exact match in the room, that first match moves to the end of the player's inventory; the Hallway ball then sends the player to the room keyed ATTIC; no match changes nothing; other rooms are untouched and the room-plus-player items are conserved |
| `Game.DropItem` | src/Game.java:268-280 | the first exact match moves from the player to the end of the current room's inventory; no match changes nothing; the room stays; items are conserved |
| `Game.OpenItem` | src/Game.java:235-244 | succeeds exactly when the player (not the room) carries an item whose name matches ignoring case, and shows the first such item in the player's insertion order, the one `contains` returns |
| `Game.Eat` | src/Game.java:282-290 | "steak" and only "steak" gives the yummy reply; "bread" and only "bread" the no-carbs reply; any other food is echoed back |
| `Game.Shoot` | src/Game.java:223-233 | answers true exactly for "basketball" in the room named Court, and rejects the attempt exactly when the room is not the Court |
| `Game.ProcessCommand` | src/Game.java:174-221 | finished exactly for `quit` with no second word and for `jump`; unknown, help, sit, eat, i, open, shoot, quit, and take/drop/go without a second word change nothing; only movement and take change the room; the player's size moves by at most one; items are conserved |
| `Game.ProcessAction` | src/Game.java:195-221 | the alias, take, drop, i, open and shoot branches never end the game; without a second word, and for any unmatched word, they change nothing; only movement and take change the room; items are conserved |
| `Game.DispatchMovement` | src/Game.java:182-196 | `go` and every alias word are handled by `goRoom` |
| `Game.DispatchTake` | src/Game.java:197-201 | `take x` is handled by `takeItem(x)` |
| `Game.DispatchDrop` | src/Game.java:202-206 | `drop x` is handled by `dropItem(x)` |
| `Game.DispatchQuitWhat` | src/Game.java:184-189 | `quit` with a second word prints "Quit what?", changes nothing and does not end the game |
| `Game.DispatchOpen` | src/Game.java:209-213 | `open x` is handled by `openItem(x)` and changes nothing; its message is the same whatever the rooms hold |
| `Game.DispatchShoot` | src/Game.java:214-219 | `shoot x` is handled by `shoot(x)` and changes nothing; outside the Court the attempt is rejected |
| `Game.ShootingDoesNotEndTheGame` | src/Game.java:214-220 | in the Court `shoot basketball` is a hit, yet the command does not end the game |
| `Game.TakeThenDrop` | src/Game.java:246-280 | taking an item the player lacks and dropping it again restores the player's inventory exactly and the room's as a multiset |
| `Ownership.CommandConservesItems` | src/Game.java:246-280 | across the player and all rooms, no command creates, copies or destroys an item |
| `Play.Turn` | src/Game.java:148-154 | the loop stops after `quit`/`jump` without changing the state; after any other command it stops exactly when the player holds 14 items, the test of `hasWon` (src/Game.java:377-379), so 13 or 15 do not stop it |
| `Play.Run` | src/Game.java:143-156 | the loop reads commands until the first one that stops it, and no earlier one does; if none stops it, every command is read; a stop not caused by quit/jump leaves exactly 14 items; a player who starts with fewer than 14 items ends with at most 14 |
| `Play.NeverOvershoots` | src/Game.java:377-379 | a player who starts with fewer than 14 items still has fewer than 14 after any prefix of commands that did not stop the loop |
| `Play.RunStaysWithinWinningSize` | src/Game.java:148-154 | a run that starts short of 14 items ends with at most 14 |

## Left out

- `initRooms` / `initItems` and the `Game` constructor read data files, parse them and swallow missing-file errors. The model starts from a loaded world (`Rooms.WellFormed`, `Game.Valid`) with the start room keyed "ATTIC".
- The item fields used by the loader and by `open`: the openable flag, nested contents and `displayContents`. `open` is modelled as a read-only lookup, and its message carries the item found.
- `restrictions`, `restrictions2` and `information` are never called, so they are not modelled.
- Console text is replaced by a `Message` tag. This covers the welcome banner, the help text, the long room descriptions, the flavour text of `eat` and `sit`, and the farewell line.
- `eat` with no second word dereferences null in the source. `Game.EatHasObject` makes this a precondition of `ProcessCommand`.
- `Text.EqualsIgnoreCase` folds only ASCII letters. Java's `equalsIgnoreCase` also folds other Unicode letters.
- The parser's internals, including which words it marks unknown, are not modelled. The command stream is a finite sequence, so `Play.Run` does not model an endless game.
