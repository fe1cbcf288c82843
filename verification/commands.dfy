/** The command interpreter. Every handler is a pure transition from a game and
    the command's argument fields to the next game and an `Outcome` that names
    the message or branch the handler reached. */
module Commands {
  import opened Text
  import opened State

  datatype Outcome =
    | NoInput
    | HelpShown
      /** A room listing; the connections are absent when the listing stopped
          early because the room holds no items. */
    | Listed(room: string, items: set<string>, connections: Option<set<string>>)
    | NotVisitedYet(room: string)
    | RoomNotFound(name: string)
    | CdUsage
    | Moved(room: string, description: string)
    | CannotMove(name: string, available: set<string>)
    | CatUsage
    | Examined(name: string, description: string, content: Option<string>)
    | ItemNotFound(name: string)
    | CpUsage
    | Copied(name: string)
    | FlagCaptured(name: string)
    | NotCopyable(name: string)
    | NotInRoom(name: string)
    | UnrarUsage
    | ChestNotFound(chest: string)
    | NotAChest(chest: string)
    | KeyNotFound(key: string)
    | NotAKey(key: string)
    | KeyDoesNotFit(key: string, chest: string)
    | ChestOpened(key: string, chest: string, found: string)
    | InventoryShown(names: set<string>)
    | Goodbye
    | Unrecognized(command: string)

  datatype Step = Step(game: Game, outcome: Outcome)

  /** The result of processing one line: the next game, what was reported and
      whether the session ends. */
  datatype Reply = Reply(game: Game, outcome: Outcome, terminate: bool)

  /** Two-stage name lookup: the argument fields joined by spaces, or failing
      that the first field alone. */
  function Resolve(args: seq<string>, names: set<string>): (r: Option<string>)
    requires |args| > 0
    ensures r.Some? <==> Join(args) in names || args[0] in names
    ensures r.Some? ==> r.value in names
    ensures Join(args) in names ==> r == Some(Join(args))
    ensures Join(args) !in names && args[0] in names ==> r == Some(args[0])
  {
    var full := Join(args);
    if full in names then Some(full)
    else if args[0] in names then Some(args[0])
    else None
  }

  // ---------------------------------------------------------------- help

  /** The help text; the game is left as it is. */
  function ShowHelp(g: Game): (r: Step)
    ensures r.game == g && r.outcome.HelpShown?
  {
    Step(g, HelpShown)
  }

  // ---------------------------------------------------------------- ls

  /** What is reported about a room: its item names and then its connections,
      except that a room without items stops the listing before the
      connections. */
  function RoomListing(room: Room): (o: Outcome)
    ensures o.Listed? && o.room == room.name && o.items == room.items.Keys
    ensures o.connections.Some? <==> |room.items| > 0
    ensures o.connections.Some? ==> o.connections.value == room.connections
  {
    if |room.items| == 0 then Listed(room.name, {}, None)
    else Listed(room.name, room.items.Keys, Some(room.connections))
  }

  /** Lists a named room unless it is unvisited and not the current room. */
  function ListRoom(g: Game, name: string): (o: Outcome)
    requires Valid(g) && name in g.rooms
    ensures o.NotVisitedYet? <==> !g.rooms[name].visited && name != g.current
    ensures !o.NotVisitedYet? ==> o == RoomListing(g.rooms[name])
  {
    var room := g.rooms[name];
    if !room.visited && name != g.current then NotVisitedYet(name)
    else RoomListing(room)
  }

  function ListItems(g: Game, args: seq<string>): (r: Step)
    requires Valid(g)
    ensures r.game == g
    ensures |args| == 0 ==> r.outcome == RoomListing(CurrentRoom(g))
    ensures |args| > 0 ==> match Resolve(args, g.rooms.Keys)
      case None => r.outcome == RoomNotFound(Join(args))
      case Some(t) =>
        && (r.outcome.NotVisitedYet? <==> !g.rooms[t].visited && t != g.current)
        && (!r.outcome.NotVisitedYet? ==> r.outcome == RoomListing(g.rooms[t]))
    ensures r.outcome.Listed? ==>
      && r.outcome.room in g.rooms
      && (g.rooms[r.outcome.room].visited || r.outcome.room == g.current)
  {
    if |args| > 0 then
      var roomName := Join(args);
      if roomName in g.rooms then Step(g, ListRoom(g, roomName))
      else if args[0] in g.rooms then Step(g, ListRoom(g, args[0]))
      else Step(g, RoomNotFound(roomName))
    else
      Step(g, RoomListing(CurrentRoom(g)))
  }

  // ---------------------------------------------------------------- cd

  /** Makes the connected room `name` current and marks it visited. */
  function MoveTo(g: Game, name: string): (r: Step)
    requires Valid(g) && name in CurrentRoom(g).connections
    ensures Valid(r.game) && SameGraph(g, r.game)
    ensures r.game.current == name && r.game.rooms[name].visited
    ensures r.game.inventory == g.inventory
    ensures forall n :: n in g.rooms && n != name ==> r.game.rooms[n] == g.rooms[n]
    ensures r.game.rooms[name] == g.rooms[name].(visited := true)
    ensures r.outcome == Moved(name, g.rooms[name].description)
  {
    var room := g.rooms[name].(visited := true);
    Step(Game(name, g.inventory, g.rooms[name := room]), Moved(name, room.description))
  }

  function ChangeRoom(g: Game, args: seq<string>): (r: Step)
    requires Valid(g)
    ensures Valid(r.game) && SameGraph(g, r.game)
    ensures r.game.inventory == g.inventory
    ensures |args| == 0 ==> r == Step(g, CdUsage)
    ensures r.outcome.Moved? <==> |args| > 0 && Resolve(args, CurrentRoom(g).connections).Some?
    ensures r.outcome.Moved? ==>
      && r.game.current == Resolve(args, CurrentRoom(g).connections).value
      && r.game.current in CurrentRoom(g).connections
      && r.game.rooms[r.game.current] == g.rooms[r.game.current].(visited := true)
      && (forall n :: n in g.rooms && n != r.game.current ==> r.game.rooms[n] == g.rooms[n])
    ensures !r.outcome.Moved? ==> r.game == g
    ensures r.outcome.CannotMove? <==> |args| > 0 && Resolve(args, CurrentRoom(g).connections).None?
    ensures r.outcome.CannotMove? ==> r.outcome.available == CurrentRoom(g).connections
  {
    if |args| == 0 then Step(g, CdUsage)
    else
      var roomName := Join(args);
      var here := CurrentRoom(g);
      if roomName in here.connections then MoveTo(g, roomName)
      else if args[0] in here.connections then MoveTo(g, args[0])
      else Step(g, CannotMove(roomName, here.connections))
  }

  // ---------------------------------------------------------------- cat

  /** The report on an item: its name and description, and its content when
      it has any. */
  function Describe(item: Item): (o: Outcome)
    ensures o.Examined? && o.name == item.name && o.description == item.description
    ensures o.content.Some? <==> item.content != ""
    ensures o.content.Some? ==> o.content.value == item.content
  {
    Examined(item.name, item.description, if item.content == "" then None else Some(item.content))
  }

  function ExamineItem(g: Game, args: seq<string>): (r: Step)
    requires Valid(g)
    ensures r.game == g
    ensures |args| == 0 ==> r.outcome == CatUsage
    ensures r.outcome.Examined? <==>
      |args| > 0 && (Join(args) in CurrentRoom(g).items || Join(args) in g.inventory)
    ensures |args| > 0 && Join(args) in CurrentRoom(g).items ==>
      r.outcome == Describe(CurrentRoom(g).items[Join(args)])
    ensures |args| > 0 && Join(args) !in CurrentRoom(g).items && Join(args) in g.inventory ==>
      r.outcome == Describe(g.inventory[Join(args)])
    ensures r.outcome == ItemNotFound(Join(args)) <==>
      |args| > 0 && Join(args) !in CurrentRoom(g).items && Join(args) !in g.inventory
  {
    if |args| == 0 then Step(g, CatUsage)
    else
      var itemName := Join(args);
      var here := CurrentRoom(g);
      if itemName in here.items then Step(g, Describe(here.items[itemName]))
      else if itemName in g.inventory then Step(g, Describe(g.inventory[itemName]))
      else Step(g, ItemNotFound(itemName))
  }

  // ---------------------------------------------------------------- cp

  /** An item in the current room that `cp` copies: anything but a chest. */
  predicate Copyable(g: Game, name: string)
    requires Valid(g)
  {
    name in CurrentRoom(g).items && CurrentRoom(g).items[name].kind != Chest
  }

  function CopyItem(g: Game, args: seq<string>): (r: Step)
    requires Valid(g)
    ensures Valid(r.game)
    ensures r.game.rooms == g.rooms && r.game.current == g.current
    ensures |args| == 0 ==> r.outcome == CpUsage
    ensures r.game != g ==> |args| > 0 && Copyable(g, Join(args))
    ensures |args| > 0 && Copyable(g, Join(args)) ==>
      r.game.inventory == g.inventory[Join(args) := CurrentRoom(g).items[Join(args)]]
    ensures r.outcome.Copied? <==>
      |args| > 0 && Copyable(g, Join(args)) && CurrentRoom(g).items[Join(args)].kind != Flag
    ensures r.outcome.FlagCaptured? <==>
      |args| > 0 && Copyable(g, Join(args)) && CurrentRoom(g).items[Join(args)].kind == Flag
    ensures r.outcome.NotCopyable? <==>
      |args| > 0 && Join(args) in CurrentRoom(g).items && !Copyable(g, Join(args))
    ensures r.outcome.NotInRoom? <==> |args| > 0 && Join(args) !in CurrentRoom(g).items
  {
    if |args| == 0 then Step(g, CpUsage)
    else
      var itemName := Join(args);
      var here := CurrentRoom(g);
      if itemName in here.items then
        var item := here.items[itemName];
        if item.kind == Key || item.kind == Normal then
          Step(g.(inventory := g.inventory[itemName := item]), Copied(itemName))
        else if item.kind == Flag then
          Step(g.(inventory := g.inventory[itemName := item]), FlagCaptured(itemName))
        else
          Step(g, NotCopyable(itemName))
      else Step(g, NotInRoom(itemName))
  }

  // ---------------------------------------------------------------- unrar

  function ContentsName(chest: string): string {
    chest + " contents"
  }

  /** The normal item a chest leaves behind once it is opened. */
  function ContentsItem(chestName: string, content: string): Item {
    Item(ContentsName(chestName), "Contents retrieved from the " + chestName, Normal, 0, content)
  }

  /** `chest` names a chest in the current room and `key` names a key in the
      inventory with the same key identifier. */
  predicate Unlocks(g: Game, chest: string, key: string)
    requires Valid(g)
  {
    && chest in CurrentRoom(g).items && CurrentRoom(g).items[chest].kind == Chest
    && key in g.inventory && g.inventory[key].kind == Key
    && CurrentRoom(g).items[chest].keyId == g.inventory[key].keyId
  }

  /** Replaces the chest by its contents item in the current room. */
  function Open(g: Game, chestName: string, keyName: string): (r: Step)
    requires Valid(g) && Unlocks(g, chestName, keyName)
    ensures Valid(r.game) && SameGraph(g, r.game)
    ensures r.game.current == g.current && r.game.inventory == g.inventory
    ensures forall n :: n in g.rooms && n != g.current ==> r.game.rooms[n] == g.rooms[n]
    ensures var before := CurrentRoom(g); var after := CurrentRoom(r.game);
      && after == before.(items := after.items)
      && chestName !in after.items
      && ContentsName(chestName) in after.items
      && after.items[ContentsName(chestName)].kind == Normal
      && after.items[ContentsName(chestName)].content == before.items[chestName].content
      && after.items.Keys == before.items.Keys - {chestName} + {ContentsName(chestName)}
      && (forall n :: n in after.items && n != ContentsName(chestName) ==> after.items[n] == before.items[n])
    ensures r.outcome == ChestOpened(keyName, chestName, CurrentRoom(g).items[chestName].content)
  {
    var here := CurrentRoom(g);
    var chest := here.items[chestName];
    var contents := ContentsItem(chestName, chest.content);
    assert ContentsName(chestName) != chestName by {
      assert |ContentsName(chestName)| > |chestName|;
    }
    var items := here.items[contents.name := contents] - {chestName};
    Step(g.(rooms := g.rooms[g.current := here.(items := items)]),
         ChestOpened(keyName, chestName, chest.content))
  }

  /** `unrar` as written: the chest is named by the first argument field
      alone and the key by the remaining fields. */
  function OpenChestAsWritten(g: Game, args: seq<string>): (r: Step)
    requires Valid(g)
    ensures Valid(r.game) && SameGraph(g, r.game)
    ensures r.game.current == g.current && r.game.inventory == g.inventory
    ensures r.outcome.UnrarUsage? <==> |args| < 2
    ensures r.outcome.ChestNotFound? <==> |args| >= 2 && args[0] !in CurrentRoom(g).items
    ensures r.outcome.NotAChest? <==>
      |args| >= 2 && args[0] in CurrentRoom(g).items && CurrentRoom(g).items[args[0]].kind != Chest
    ensures r.outcome.KeyNotFound? <==>
      && |args| >= 2 && args[0] in CurrentRoom(g).items && CurrentRoom(g).items[args[0]].kind == Chest
      && Join(args[1..]) !in g.inventory
    ensures r.outcome.NotAKey? <==>
      && |args| >= 2 && args[0] in CurrentRoom(g).items && CurrentRoom(g).items[args[0]].kind == Chest
      && Join(args[1..]) in g.inventory && g.inventory[Join(args[1..])].kind != Key
    ensures r.outcome.KeyDoesNotFit? <==>
      && |args| >= 2 && args[0] in CurrentRoom(g).items && CurrentRoom(g).items[args[0]].kind == Chest
      && Join(args[1..]) in g.inventory && g.inventory[Join(args[1..])].kind == Key
      && CurrentRoom(g).items[args[0]].keyId != g.inventory[Join(args[1..])].keyId
    ensures r.outcome.ChestOpened? <==> |args| >= 2 && Unlocks(g, args[0], Join(args[1..]))
    ensures r.outcome.ChestOpened? ==> r == Open(g, args[0], Join(args[1..]))
    ensures !r.outcome.ChestOpened? ==> r.game == g
  {
    if |args| < 2 then Step(g, UnrarUsage)
    else
      var chestName := args[0];
      var keyName := Join(args[1..]);
      var here := CurrentRoom(g);
      if chestName !in here.items then Step(g, ChestNotFound(chestName))
      else if here.items[chestName].kind != Chest then Step(g, NotAChest(chestName))
      else if keyName !in g.inventory then Step(g, KeyNotFound(keyName))
      else if g.inventory[keyName].kind != Key then Step(g, NotAKey(keyName))
      else if here.items[chestName].keyId != g.inventory[keyName].keyId then
        Step(g, KeyDoesNotFit(keyName, chestName))
      else Open(g, chestName, keyName)
  }

  /** The fewest leading fields, at least `k` and leaving at least one field
      over, whose join names something in `names`; `|args|` when there is no
      such prefix. */
  function ChestSplit(names: set<string>, args: seq<string>, k: nat): (n: nat)
    requires 1 <= k <= |args|
    ensures k <= n <= |args|
    ensures n < |args| ==> Join(args[..n]) in names
    ensures forall j :: k <= j < n && j < |args| ==> Join(args[..j]) !in names
    decreases |args| - k
  {
    if k == |args| then k
    else if Join(args[..k]) in names then k
    else ChestSplit(names, args, k + 1)
  }

  /** `unrar` with the chest named by the fewest leading fields that name an
      item of the current room, and the key by the fields after them; the
      usage message, the error ladder and the opening are those of
      `OpenChestAsWritten`. */
  function OpenChest(g: Game, args: seq<string>): (r: Step)
    requires Valid(g)
    ensures Valid(r.game) && SameGraph(g, r.game)
    ensures r.game.current == g.current && r.game.inventory == g.inventory
    ensures r.outcome.UnrarUsage? <==> |args| < 2
    ensures |args| >= 2 ==>
      var n := ChestSplit(CurrentRoom(g).items.Keys, args, 1);
      && (r.outcome.ChestNotFound? <==> n == |args|)
      && (n < |args| ==>
            var chest := CurrentRoom(g).items[Join(args[..n])];
            var keyName := Join(args[n..]);
            && (r.outcome.NotAChest? <==> chest.kind != Chest)
            && (r.outcome.KeyNotFound? <==> chest.kind == Chest && keyName !in g.inventory)
            && (r.outcome.NotAKey? <==>
                  chest.kind == Chest && keyName in g.inventory && g.inventory[keyName].kind != Key)
            && (r.outcome.KeyDoesNotFit? <==>
                  && chest.kind == Chest && keyName in g.inventory && g.inventory[keyName].kind == Key
                  && chest.keyId != g.inventory[keyName].keyId)
            && (r.outcome.ChestOpened? <==> Unlocks(g, Join(args[..n]), keyName))
            && (r.outcome.ChestOpened? ==> r == Open(g, Join(args[..n]), keyName)))
    ensures !r.outcome.ChestOpened? ==> r.game == g
  {
    if |args| < 2 then Step(g, UnrarUsage)
    else
      var here := CurrentRoom(g);
      var n := ChestSplit(here.items.Keys, args, 1);
      if n == |args| then Step(g, ChestNotFound(args[0]))
      else
        var chestName := Join(args[..n]);
        var keyName := Join(args[n..]);
        if here.items[chestName].kind != Chest then Step(g, NotAChest(chestName))
        else if keyName !in g.inventory then Step(g, KeyNotFound(keyName))
        else if g.inventory[keyName].kind != Key then Step(g, NotAKey(keyName))
        else if here.items[chestName].keyId != g.inventory[keyName].keyId then
          Step(g, KeyDoesNotFit(keyName, chestName))
        else Open(g, chestName, keyName)
  }

  // ---------------------------------------------------------------- inventory

  /** Reports the names of the carried items; the game is left as it is. */
  function ShowInventory(g: Game): (r: Step)
    ensures r.game == g
    ensures r.outcome.InventoryShown? && r.outcome.names == g.inventory.Keys
  {
    Step(g, InventoryShown(g.inventory.Keys))
  }

  // ---------------------------------------------------------------- dispatch

  /** Commands that only report and never change the game: everything but
      `cd`, `cp` and `unrar`, unknown words included. */
  predicate ReadOnly(command: string) {
    command !in {"cd", "cp", "unrar"}
  }

  /** Runs the handler a (lower-cased) command word selects on the argument
      fields; only `exit` and `quit` end the session. */
  function Dispatch(g: Game, command: string, args: seq<string>): (r: Reply)
    requires Valid(g)
    ensures Valid(r.game) && SameGraph(g, r.game)
    ensures r.terminate <==> command in {"exit", "quit"}
    ensures ReadOnly(command) ==> r.game == g
    ensures r.game.current != g.current ==> command == "cd"
    ensures r.game.inventory != g.inventory ==> command == "cp"
    ensures command == "help" ==> r.outcome == HelpShown
    ensures command in {"inventory", "inv"} ==> r.outcome == InventoryShown(g.inventory.Keys)
    ensures command in {"exit", "quit"} ==> r.outcome == Goodbye
    ensures command !in {"help", "ls", "cd", "cat", "cp", "unrar", "inventory", "inv", "exit", "quit"} ==>
      r.outcome == Unrecognized(command)
    ensures command == "help" ==> Step(r.game, r.outcome) == ShowHelp(g)
    ensures command == "ls" ==> Step(r.game, r.outcome) == ListItems(g, args)
    ensures command == "cd" ==> Step(r.game, r.outcome) == ChangeRoom(g, args)
    ensures command == "cat" ==> Step(r.game, r.outcome) == ExamineItem(g, args)
    ensures command == "cp" ==> Step(r.game, r.outcome) == CopyItem(g, args)
    ensures command == "unrar" ==> Step(r.game, r.outcome) == OpenChestAsWritten(g, args)
    ensures command in {"inventory", "inv"} ==> Step(r.game, r.outcome) == ShowInventory(g)
  {
    match command
    case "help" => var s := ShowHelp(g); Reply(s.game, s.outcome, false)
    case "ls" => var s := ListItems(g, args); Reply(s.game, s.outcome, false)
    case "cd" => var s := ChangeRoom(g, args); Reply(s.game, s.outcome, false)
    case "cat" => var s := ExamineItem(g, args); Reply(s.game, s.outcome, false)
    case "cp" => var s := CopyItem(g, args); Reply(s.game, s.outcome, false)
    case "unrar" => var s := OpenChestAsWritten(g, args); Reply(s.game, s.outcome, false)
    case "inventory" => var s := ShowInventory(g); Reply(s.game, s.outcome, false)
    case "inv" => var s := ShowInventory(g); Reply(s.game, s.outcome, false)
    case "exit" => Reply(g, Goodbye, true)
    case "quit" => Reply(g, Goodbye, true)
    case _ => Reply(g, Unrecognized(command), false)
  }

  /** The dispatcher with the corrected `unrar`, which takes the chest name
      from the fewest leading fields that name an item of the current room;
      every other command word behaves as in `Dispatch`. */
  function DispatchCorrected(g: Game, command: string, args: seq<string>): (r: Reply)
    requires Valid(g)
    ensures Valid(r.game) && SameGraph(g, r.game)
    ensures command == "unrar" ==> r == Reply(OpenChest(g, args).game, OpenChest(g, args).outcome, false)
    ensures command != "unrar" ==> r == Dispatch(g, command, args)
  {
    if command == "unrar" then
      var s := OpenChest(g, args);
      Reply(s.game, s.outcome, false)
    else Dispatch(g, command, args)
  }

  /** Splits `line` into fields, lower-cases the first one and dispatches on
      it with the remaining fields as arguments. */
  function ProcessCommand(g: Game, line: string): (r: Reply)
    requires Valid(g)
    ensures Valid(r.game) && SameGraph(g, r.game)
    ensures Fields(line) == [] ==> r == Reply(g, NoInput, false)
    ensures Fields(line) != [] ==> r == Dispatch(g, Lower(Fields(line)[0]), Fields(line)[1..])
    ensures r.terminate <==> Fields(line) != [] && Lower(Fields(line)[0]) in {"exit", "quit"}
    ensures Fields(line) != [] && ReadOnly(Lower(Fields(line)[0])) ==> r.game == g
    ensures r.game.current != g.current ==> Fields(line) != [] && Lower(Fields(line)[0]) == "cd"
    ensures r.game.inventory != g.inventory ==> Fields(line) != [] && Lower(Fields(line)[0]) == "cp"
  {
    var parts := Fields(line);
    if |parts| == 0 then Reply(g, NoInput, false)
    else Dispatch(g, Lower(parts[0]), parts[1..])
  }
}
