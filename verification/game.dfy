/**
 * The command interpreter: one call of `processCommand` as a pure step from
 * a game state to the next state, a "game over" flag and a message tag that
 * stands for the text printed on the console.
 */
module Game {
  import opened Wrappers
  import opened Items
  import opened Inventories
  import opened Rooms
  import Text

  /** Where the player is, what they carry, and what every room holds. */
  datatype State = State(current: RoomId, player: Inventory, rooms: map<RoomId, Inventory>)

  /** The state belongs to a loaded world: the player stands in a known room and every room has an inventory. */
  predicate Valid(w: World, s: State)
  {
    && WellFormed(w)
    && s.current in w.rooms
    && s.rooms.Keys == w.rooms
  }

  /** The inventory of the room the player is in. */
  function Here(s: State): Inventory
    requires s.current in s.rooms
  {
    s.rooms[s.current]
  }

  /** What a command prints, as a tag. */
  datatype Message =
    | DontUnderstand
    | HelpText
    | GoWhere
    | NoDoor
    | Entered(room: RoomId)
    | QuitWhat
    | Yummy
    | NoCarbs
    | YouAreThe(food: string)
    | Died
    | Sitting
    | Listing(text: string)
    | TakeWhat
    | Taken(itemName: string)
    | TakenAndTeleported(itemName: string)
    | UnableToTake(itemName: string)
    | NoSuchItemHere(itemName: string)
    | DropWhat
    | Dropped(itemName: string)
    | UnableToDrop(itemName: string)
    | NotCarrying(itemName: string)
    | OpenWhat
    | Opened(item: Item)
    | DontHaveIt
    | ShootWhat
    | CannotShootHere
    | Silent

  /** The result of one command: the new state, whether the game is over, and what was printed. */
  datatype Outcome = Outcome(state: State, finished: bool, msg: Message)

  /** The one-letter-per-direction string whose substrings count as movement commands. */
  const Aliases: string := "udeswn"

  /** A command word is routed to movement when it occurs anywhere in `Aliases`. */
  predicate IsAlias(word: string)
  {
    Text.IndexOf(Aliases, word) > -1
  }

  /** The full direction name for a one-letter alias; any other word is used as it is. */
  function ExpandAlias(word: string): string
  {
    if word == "u" then "up"
    else if word == "d" then "down"
    else if word == "e" then "east"
    else if word == "w" then "west"
    else if word == "n" then "north"
    else if word == "s" then "south"
    else word
  }

  /** A word holding a letter that does not occur in `Aliases` is not an alias. */
  lemma NotAliasByLetter(word: string, i: nat)
    requires i < |word| && word[i] !in {'u', 'd', 'e', 's', 'w', 'n'}
    ensures !IsAlias(word)
  {
    assert word[i] in word;
    assert forall k :: 0 <= k < |Aliases| ==> Aliases[k] in {'u', 'd', 'e', 's', 'w', 'n'};
    Text.ForeignCharNotFound(Aliases, word, word[i]);
  }

  /** The command words `processCommand` tests before it tries the movement aliases. */
  const LeadingWords: set<string> := {"help", "go", "quit", "eat", "jump", "sit"}

  /** The command words `processCommand` tests after the movement aliases. */
  const ItemWords: set<string> := {"take", "drop", "i", "open", "shoot"}

  /** The command words `processCommand` compares against. */
  const Keywords: set<string> := LeadingWords + ItemWords

  /** No word tested before the aliases is itself an alias. */
  lemma LeadingWordsAreNotAliases(word: string)
    ensures word in LeadingWords ==> !IsAlias(word)
  {
    if word == "help" { NotAliasByLetter(word, 0); }
    else if word == "go" { NotAliasByLetter(word, 0); }
    else if word == "quit" { NotAliasByLetter(word, 0); }
    else if word == "eat" { NotAliasByLetter(word, 1); }
    else if word == "jump" { NotAliasByLetter(word, 0); }
    else if word == "sit" { NotAliasByLetter(word, 1); }
  }

  /** No word tested after the aliases is itself an alias. */
  lemma ItemWordsAreNotAliases(word: string)
    ensures word in ItemWords ==> !IsAlias(word)
  {
    if word == "take" { NotAliasByLetter(word, 0); }
    else if word == "drop" { NotAliasByLetter(word, 1); }
    else if word == "i" { NotAliasByLetter(word, 0); }
    else if word == "open" { NotAliasByLetter(word, 0); }
    else if word == "shoot" { NotAliasByLetter(word, 1); }
  }

  /** No command word is a substring of `Aliases`, so the movement test never captures another command. */
  lemma KeywordsAreNotAliases(word: string)
    ensures word in Keywords ==> !IsAlias(word)
  {
    LeadingWordsAreNotAliases(word);
    ItemWordsAreNotAliases(word);
  }

  /** The six one-letter aliases move in their named directions; every other word, such as "es", is taken literally. */
  lemma AliasDirections()
    ensures IsAlias("u") && ExpandAlias("u") == "up"
    ensures IsAlias("d") && ExpandAlias("d") == "down"
    ensures IsAlias("e") && ExpandAlias("e") == "east"
    ensures IsAlias("s") && ExpandAlias("s") == "south"
    ensures IsAlias("w") && ExpandAlias("w") == "west"
    ensures IsAlias("n") && ExpandAlias("n") == "north"
    ensures IsAlias("es") && ExpandAlias("es") == "es"
    ensures forall word :: word !in {"u", "d", "e", "s", "w", "n"} ==> ExpandAlias(word) == word
  {
    assert Text.OccursAt(Aliases, "u", 0);
    assert Text.OccursAt(Aliases, "d", 1);
    assert Text.OccursAt(Aliases, "e", 2);
    assert Text.OccursAt(Aliases, "s", 3);
    assert Text.OccursAt(Aliases, "w", 4);
    assert Text.OccursAt(Aliases, "n", 5);
    assert Text.OccursAt(Aliases, "es", 2);
  }

  /**
   * The direction `goRoom` tries: none when there is neither a second word nor
   * an alias; the expanded alias when the command word is one; otherwise the
   * second word.
   */
  function Direction(cmd: Command): (r: Option<string>)
    ensures r.None? <==> !cmd.HasSecondWord() && !IsAlias(cmd.word)
    ensures IsAlias(cmd.word) ==> r == Some(ExpandAlias(cmd.word))
    ensures !IsAlias(cmd.word) && cmd.HasSecondWord() ==> r == cmd.secondWord
  {
    if !cmd.HasSecondWord() && !IsAlias(cmd.word) then None
    else if IsAlias(cmd.word) then Some(ExpandAlias(cmd.word))
    else cmd.secondWord
  }

  /** `goRoom`: move through the exit in the requested direction, or stay put. */
  function GoRoom(w: World, s: State, cmd: Command): (r: Outcome)
    requires Valid(w, s)
    ensures Valid(w, r.state) && !r.finished
    ensures r.state.player == s.player && r.state.rooms == s.rooms
    ensures Direction(cmd).None? ==> r.state == s && r.msg == GoWhere
    ensures Direction(cmd).Some? && (s.current !in w.exits || Direction(cmd).value !in w.exits[s.current]) ==>
              r.state == s && r.msg == NoDoor
    ensures Direction(cmd).Some? && s.current in w.exits && Direction(cmd).value in w.exits[s.current] ==>
              r.state.current == w.exits[s.current][Direction(cmd).value] && r.msg == Entered(r.state.current)
  {
    match Direction(cmd)
    case None => Outcome(s, false, GoWhere)
    case Some(direction) =>
      match NextRoom(w, s.current, direction)
      case None => Outcome(s, false, NoDoor)
      case Some(next) => Outcome(s.(current := next), false, Entered(next))
  }

  /** The player moved nothing except, possibly, one item between the bag and the room they stood in. */
  ghost predicate Conserved(s: State, s': State)
    requires s.current in s.rooms
  {
    && s'.rooms.Keys == s.rooms.Keys
    && (forall id :: id in s.rooms && id != s.current ==> s'.rooms[id] == s.rooms[id])
    && multiset(s'.player) + multiset(s'.rooms[s.current]) == multiset(s.player) + multiset(Here(s))
  }

  /** A command that changes nothing conserves everything. */
  lemma ConservedReflexive(s: State)
    requires s.current in s.rooms
    ensures Conserved(s, s)
  {
  }

  /** The scripted event: picking up the ball in the Hallway. */
  predicate IsBallInHallway(w: World, s: State, name: string)
  {
    w.roomName(s.current) == "Hallway" && name == "ball"
  }

  /**
   * `takeItem`: move the first item named `name` from the room to the end of
   * the player's inventory; taking the ball in the Hallway then puts the
   * player back in the start room.
   */
  function TakeItem(w: World, s: State, name: string): (r: Outcome)
    requires Valid(w, s)
    ensures Valid(w, r.state) && !r.finished
    ensures Conserved(s, r.state)
    ensures !HasNamed(Here(s), name) ==> r.state == s && r.msg == NoSuchItemHere(name)
    ensures HasNamed(Here(s), name) ==>
              && |r.state.player| == |s.player| + 1
              && r.state.player[..|s.player|] == s.player
              && RemovedFirst(Here(s), name, r.state.rooms[s.current], r.state.player[|s.player|])
              && r.state.current == (if IsBallInHallway(w, s, name) then StartRoom else s.current)
              && r.msg == (if IsBallInHallway(w, s, name) then TakenAndTeleported(name) else Taken(name))
  {
    var removal := RemoveItem(Here(s), name);
    if removal.taken.None? then Outcome(s, false, NoSuchItemHere(name))
    else
      var item := removal.taken.value;
      var rooms' := s.rooms[s.current := removal.rest];
      var added := AddItem(s.player, item);
      if !added.1 then Outcome(State(s.current, s.player, rooms'), false, UnableToTake(name))
      else if IsBallInHallway(w, s, name) then Outcome(State(StartRoom, added.0, rooms'), false, TakenAndTeleported(name))
      else Outcome(State(s.current, added.0, rooms'), false, Taken(name))
  }

  /** `dropItem`: move the first item named `name` from the player to the end of the room's inventory. */
  function DropItem(w: World, s: State, name: string): (r: Outcome)
    requires Valid(w, s)
    ensures Valid(w, r.state) && !r.finished
    ensures Conserved(s, r.state)
    ensures r.state.current == s.current
    ensures !HasNamed(s.player, name) ==> r.state == s && r.msg == NotCarrying(name)
    ensures HasNamed(s.player, name) ==>
              && |r.state.rooms[s.current]| == |Here(s)| + 1
              && r.state.rooms[s.current][..|Here(s)|] == Here(s)
              && RemovedFirst(s.player, name, r.state.player, r.state.rooms[s.current][|Here(s)|])
              && r.msg == Dropped(name)
  {
    var removal := RemoveItem(s.player, name);
    if removal.taken.None? then Outcome(s, false, NotCarrying(name))
    else
      var item := removal.taken.value;
      var added := AddItem(Here(s), item);
      if !added.1 then Outcome(s.(player := removal.rest), false, UnableToDrop(name))
      else Outcome(State(s.current, removal.rest, s.rooms[s.current := added.0]), false, Dropped(name))
  }

  /** `openItem`: a read-only, case-insensitive lookup in the player's inventory only. */
  function OpenItem(s: State, name: string): (r: Message)
    ensures r.Opened? <==> exists k :: 0 <= k < |s.player| && Text.EqualsIgnoreCase(s.player[k].name, name)
    ensures r.Opened? ==> exists i :: IsFirstMatch(s.player, name, IgnoreCase, i) && s.player[i] == r.item
    ensures !r.Opened? ==> r == DontHaveIt
  {
    match Contains(s.player, name)
    case Some(item) => Opened(item)
    case None => DontHaveIt
  }

  /** `shoot`: answers true only for "basketball" in the room named Court, and complains in every other room. */
  function Shoot(w: World, s: State, arg: string): (r: (bool, Message))
    ensures r.0 <==> w.roomName(s.current) == "Court" && arg == "basketball"
    ensures r.1 == CannotShootHere <==> w.roomName(s.current) != "Court"
  {
    if w.roomName(s.current) == "Court" then
      if arg == "basketball" then (true, Silent) else (false, Silent)
    else (false, CannotShootHere)
  }

  /** `eat`: flavour text only. */
  function Eat(food: string): (r: Message)
    ensures r == Yummy <==> food == "steak"
    ensures r == NoCarbs <==> food == "bread"
    ensures food != "steak" && food != "bread" ==> r == YouAreThe(food)
  {
    if food == "steak" then Yummy
    else if food == "bread" then NoCarbs
    else YouAreThe(food)
  }

  /** `eat` dereferences its second word, so the source never survives `eat` alone. */
  predicate EatHasObject(cmd: Command)
  {
    cmd.unknown || cmd.word != "eat" || cmd.HasSecondWord()
  }

  /** The commands that end the game: `quit` with no second word, and `jump`. */
  predicate Terminates(cmd: Command)
  {
    !cmd.unknown && ((cmd.word == "quit" && !cmd.HasSecondWord()) || cmd.word == "jump")
  }

  /** Commands that leave the room, the player's inventory and every room's inventory as they were. */
  predicate ReadOnly(cmd: Command)
  {
    || cmd.unknown
    || !(cmd.word in {"go", "take", "drop"} || IsAlias(cmd.word))
    || (cmd.word in {"go", "take", "drop"} && !cmd.HasSecondWord())
  }

  /** `processCommand`: dispatch on the command word, in the order the source tests it. */
  function ProcessCommand(w: World, s: State, cmd: Command): (r: Outcome)
    requires Valid(w, s)
    requires EatHasObject(cmd)
    ensures Valid(w, r.state)
    ensures r.finished <==> Terminates(cmd)
    ensures ReadOnly(cmd) ==> r.state == s
    ensures Conserved(s, r.state)
    ensures r.state.current != s.current ==> cmd.word == "go" || IsAlias(cmd.word) || cmd.word == "take"
    ensures |s.player| - 1 <= |r.state.player| <= |s.player| + 1
    ensures cmd.unknown ==> r.msg == DontUnderstand
  {
    KeywordsAreNotAliases(cmd.word);
    ConservedReflexive(s);
    hide GoRoom, ProcessAction;
    if cmd.unknown then Outcome(s, false, DontUnderstand)
    else if cmd.word == "help" then Outcome(s, false, HelpText)
    else if cmd.word == "go" then GoRoom(w, s, cmd)
    else if cmd.word == "quit" then
      if cmd.HasSecondWord() then Outcome(s, false, QuitWhat) else Outcome(s, true, Silent)
    else if cmd.word == "eat" then Outcome(s, false, Eat(cmd.secondWord.value))
    else if cmd.word == "jump" then Outcome(s, true, Died)
    else if cmd.word == "sit" then Outcome(s, false, Sitting)
    else ProcessAction(w, s, cmd)
  }

  /** The rest of the dispatch chain of `processCommand`: movement aliases, then the item commands. */
  function ProcessAction(w: World, s: State, cmd: Command): (r: Outcome)
    requires Valid(w, s)
    requires !cmd.unknown && cmd.word !in LeadingWords
    ensures Valid(w, r.state) && !r.finished
    ensures ReadOnly(cmd) ==> r.state == s
    ensures Conserved(s, r.state)
    ensures r.state.current != s.current ==> IsAlias(cmd.word) || cmd.word == "take"
    ensures |s.player| - 1 <= |r.state.player| <= |s.player| + 1
  {
    KeywordsAreNotAliases(cmd.word);
    ConservedReflexive(s);
    hide GoRoom, TakeItem, DropItem, OpenItem, Shoot, Render;
    if IsAlias(cmd.word) then GoRoom(w, s, cmd)
    else if cmd.word == "take" then
      if !cmd.HasSecondWord() then Outcome(s, false, TakeWhat) else TakeItem(w, s, cmd.secondWord.value)
    else if cmd.word == "drop" then
      if !cmd.HasSecondWord() then Outcome(s, false, DropWhat) else DropItem(w, s, cmd.secondWord.value)
    else if cmd.word == "i" then Outcome(s, false, Listing(Render(s.player)))
    else if cmd.word == "open" then
      if !cmd.HasSecondWord() then Outcome(s, false, OpenWhat) else Outcome(s, false, OpenItem(s, cmd.secondWord.value))
    else if cmd.word == "shoot" then
      if !cmd.HasSecondWord() then Outcome(s, false, ShootWhat)
      else
        // the verdict of `shoot` is discarded: the game goes on
        var shot := Shoot(w, s, cmd.secondWord.value);
        Outcome(s, false, shot.1)
    else Outcome(s, false, Silent)
  }

  /** Every movement word reaches `goRoom`, whatever its second word. */
  lemma DispatchMovement(w: World, s: State, cmd: Command)
    requires Valid(w, s) && EatHasObject(cmd) && !cmd.unknown && (cmd.word == "go" || IsAlias(cmd.word))
    ensures ProcessCommand(w, s, cmd) == GoRoom(w, s, cmd)
  {
    KeywordsAreNotAliases(cmd.word);
  }

  /** `take` with an object reaches `takeItem`. */
  lemma DispatchTake(w: World, s: State, name: string)
    requires Valid(w, s)
    ensures ProcessCommand(w, s, Command("take", Some(name), false)) == TakeItem(w, s, name)
  {
    var cmd := Command("take", Some(name), false);
    KeywordsAreNotAliases(cmd.word);
    assert cmd.word != "help" && cmd.word != "go" && cmd.word != "quit" && cmd.word != "eat";
    assert cmd.word != "jump" && cmd.word != "sit";
  }

  /** `drop` with an object reaches `dropItem`. */
  lemma DispatchDrop(w: World, s: State, name: string)
    requires Valid(w, s)
    ensures ProcessCommand(w, s, Command("drop", Some(name), false)) == DropItem(w, s, name)
  {
    var cmd := Command("drop", Some(name), false);
    KeywordsAreNotAliases(cmd.word);
    assert cmd.word != "help" && cmd.word != "go" && cmd.word != "quit" && cmd.word != "eat";
    assert cmd.word != "jump" && cmd.word != "sit" && cmd.word != "take";
  }

  /** `quit` with a second word only asks "Quit what?" and the game goes on. */
  lemma DispatchQuitWhat(w: World, s: State, arg: string)
    requires Valid(w, s)
    ensures ProcessCommand(w, s, Command("quit", Some(arg), false)) == Outcome(s, false, QuitWhat)
  {
  }

  /** `open x` reaches `openItem(x)`, which reads only the player's inventory, so the room's contents never matter. */
  lemma DispatchOpen(w: World, s: State, name: string)
    requires Valid(w, s)
    ensures ProcessCommand(w, s, Command("open", Some(name), false)) == Outcome(s, false, OpenItem(s, name))
    ensures forall rooms: map<RoomId, Inventory> :: s.rooms.Keys == rooms.Keys ==>
              ProcessCommand(w, s.(rooms := rooms), Command("open", Some(name), false)).msg == OpenItem(s, name)
  {
    var cmd := Command("open", Some(name), false);
    KeywordsAreNotAliases(cmd.word);
    assert cmd.word != "help" && cmd.word != "go" && cmd.word != "quit" && cmd.word != "eat";
    assert cmd.word != "jump" && cmd.word != "sit" && cmd.word != "take" && cmd.word != "drop" && cmd.word != "i";
  }

  /** `shoot x` reaches `shoot(x)` and prints its message; outside the Court that message is the rejection. */
  lemma DispatchShoot(w: World, s: State, arg: string)
    requires Valid(w, s)
    ensures ProcessCommand(w, s, Command("shoot", Some(arg), false)) == Outcome(s, false, Shoot(w, s, arg).1)
    ensures w.roomName(s.current) != "Court" ==>
              ProcessCommand(w, s, Command("shoot", Some(arg), false)).msg == CannotShootHere
  {
    var cmd := Command("shoot", Some(arg), false);
    KeywordsAreNotAliases(cmd.word);
    assert cmd.word != "help" && cmd.word != "go" && cmd.word != "quit" && cmd.word != "eat";
    assert cmd.word != "jump" && cmd.word != "sit" && cmd.word != "take" && cmd.word != "drop" && cmd.word != "i";
    assert cmd.word != "open";
  }

  /** Shooting the basketball in the Court is a hit for `shoot`, yet the game goes on because its answer is discarded. */
  lemma ShootingDoesNotEndTheGame(w: World, s: State)
    requires Valid(w, s) && w.roomName(s.current) == "Court"
    ensures Shoot(w, s, "basketball").0
    ensures !ProcessCommand(w, s, Command("shoot", Some("basketball"), false)).finished
  {
  }

  /** Taking an item and dropping it again returns the player's inventory exactly and the room's up to order. */
  lemma TakeThenDrop(w: World, s: State, name: string)
    requires Valid(w, s) && HasNamed(Here(s), name) && !HasNamed(s.player, name)
    requires !IsBallInHallway(w, s, name)
    ensures var s1 := TakeItem(w, s, name).state;
            var s2 := DropItem(w, s1, name).state;
            && s2.current == s.current
            && s2.player == s.player
            && multiset(Here(s2)) == multiset(Here(s))
            && forall id :: id in s.rooms && id != s.current ==> s2.rooms[id] == s.rooms[id]
  {
    var s1 := TakeItem(w, s, name).state;
    var item := s1.player[|s.player|];
    assert s1.player == s.player + [item];
    assert item.name == name;
    RemoveAfterAdd(s.player, item);
    assert RemoveItem(s1.player, name) == Removal(s.player, Some(item));
    assert HasNamed(s1.player, name) by {
      assert s1.player[|s.player|].name == name;
    }
    var s2 := DropItem(w, s1, name).state;
    assert s2.player == s.player;
    assert Here(s2) == Here(s1) + [item];
  }
}
