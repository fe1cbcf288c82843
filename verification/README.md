# Derelict ship text adventure — a Dafny model

The game is a small terminal adventure. The player wakes on the Bridge of a
derelict spaceship of ten rooms joined by fifteen two-way corridors. Five keys,
five locked chests, three notes and one flag lie about the ship. The player
types Linux-flavoured commands:

- `ls` lists a room;
- `cd` moves;
- `cat` examines an item;
- `cp` copies an item into the inventory;
- `unrar` opens a chest with a key;
- `inventory`/`inv`, `help` and `exit`/`quit` do what their names say.

Copying the flag wins the game.

The model covers the world builder (`game.go`) and the command interpreter
(`commands.go`):

- `Text` holds the string helpers the interpreter relies on:
  - splitting a line into white-space separated fields;
  - joining fields with single spaces;
  - ASCII lower-casing of the command word.
- `State` holds items, rooms and the game. It also holds `Valid`, the
  invariant the object graph gives the original for free: the current room
  exists, every corridor leads to an existing room, and rooms and items are
  stored under their own names.
- `World` holds the ship's tables (rooms, descriptions, corridors, item
  placements) and the builder that turns them into rooms. It also holds the
  builder's lemmas: every room gets exactly the neighbours the corridor list
  names for it and exactly the items placed in it.
- `InitialWorld` holds what is true right after initialisation:
  - the player is on the Bridge with nothing;
  - corridors are symmetric;
  - key identifiers 1 to 5 pair every chest with exactly one key;
  - there is exactly one flag.
- `Commands` models every handler as a pure transition
  `Game × argument fields → (Game, Outcome)`. `Outcome` names the message or
  branch the handler reached. `Dispatch` selects the handler exactly as the
  original does, and `ProcessCommand` splits, lower-cases and dispatches a
  typed line. `DispatchCorrected` differs only in running the corrected
  `unrar` described under Findings.
- `Properties` holds lemmas that relate several commands, and `Session`, which
  follows a sequence of typed lines the way the main loop does.
- `Scenarios` holds walks through the real ship from the starting position:
  - the closed door to the Engine Room;
  - capturing the flag;
  - fetching the Epsilon Key to open the Engineering Chest.

Two behaviours of the original are kept as they are and proved:

- Initialisation does not mark the Bridge visited (game.go:45, 62), so after
  leaving it `ls Bridge` is refused until the player returns
  (`Scenarios.FlagWalk`).
- Capturing the flag does not end the session; only `exit` and `quit` do
  (`Commands.Dispatch`).

## Model

| member | source | states |
|---|---|---|
| Text.Fields | commands.go:9-12 | the fields contain no white space, and there are none exactly when the line is all white space; with Text.FieldsSkipsSpace, Text.FieldsOfTokenThen and Text.FieldsOfToken this fixes the fields of every line |
| Text.FieldsSkipsSpace | commands.go:9-12 | white space in front of a line contributes no field |
| Text.FieldsOfTokenThen | commands.go:9-12 | a run of non-white-space characters followed by white space is the first field, and splitting goes on after the white space |
| Text.Join | commands.go:58 | the join starts with the first field, a single field joins to itself, and a second field follows one space; with Text.JoinAppend this puts exactly one space between consecutive fields, and Text.FieldsOfJoin undoes it |
| Text.JoinAppend | commands.go:58 | joining one more field appends exactly one space and that field |
| Text.FieldsOfJoin | commands.go:9-15 | splitting fields joined by single spaces gives back exactly those fields |
| Text.Lower | commands.go:14 | lower-casing keeps the length and maps each character through the ASCII lower-case mapping |
| Text.LowerIdempotent | commands.go:14 | a lower-cased word has no capital left, so lower-casing it again changes nothing |
| World.NewGame | game.go:32-39 | a new game has no rooms and an empty inventory, and is not yet playable because it has no current room |
| World.RoomDescription | game.go:94-109 | the description table's entry for the name, the empty string for any other name; InitialWorld.DescriptionsCoverListedRooms states which names have one |
| World.AddRooms | game.go:56-64 | every listed name gets a fresh room with its description, no corridors, no items and not visited; other rooms are kept |
| World.AddEdge | game.go:88-91 | one corridor adds each end to the other's connections and changes nothing else |
| World.Connect | game.go:87-91 | adding corridors keeps every room and only adds connections; World.ConnectAddsNeighbours states exactly which |
| World.ConnectAddsNeighbours | game.go:67-91 | after all corridors are added, each room's connections are its old ones plus exactly the rooms the corridor list joins to it, in either direction |
| World.NeighboursSymmetric | game.go:87-91 | B is a neighbour of A exactly when A is a neighbour of B |
| World.LookupFinds | game.go:94-109 | a description is found exactly for the names the description table lists; other names get the empty string |
| World.PlaceItem | game.go:150-155 | putting an item into a room adds it under its name to that room only |
| World.PlaceItems | game.go:146-186 | placing items keeps every room and only adds items; World.PlaceItemsAdds states exactly which |
| World.PlaceItemsAdds | game.go:146-186 | placing items adds to every room exactly the items placed into it |
| World.ItemsAtFrom | game.go:146-186 | every item in a room came from a placement into that room under that name |
| World.ItemsAtHas | game.go:146-186 | a placement that no later placement of the same name overrides is found in its room |
| World.CreateRooms | game.go:48-92 | creating rooms adds exactly the listed names, each under its own name with its description, no items and not visited; World.CreatedRooms gives each room's connections |
| World.Initialize | game.go:41-46 | builds the ship and puts the player on the Bridge; its meaning is stated by InitialWorld.InitialBuilt |
| World.CreatedRooms | game.go:48-92 | building from nothing gives exactly the ten rooms, each with its description and its neighbours, no items, not visited |
| World.BuiltRooms | game.go:41-46 | after building and placing, every room holds exactly the items placed in it, besides its description and neighbours |
| InitialWorld.InitialBuilt | game.go:41-46 | initialisation puts the player on the Bridge with an empty inventory in the built ship |
| InitialWorld.BuiltLayout | game.go:111-187 | in the built ship every placed item is in its room under its name, and there is no other item |
| InitialWorld.InitialStarted | game.go:41-46 | the initial game is in the started state |
| InitialWorld.StartedUnvisited | game.go:62 | at the start no room is visited, the Bridge included |
| InitialWorld.StartedValid | game.go:48-92 | the started game satisfies the invariant every command relies on |
| InitialWorld.StartedSymmetric | game.go:87-91 | every corridor of the started game works both ways |
| InitialWorld.InitialValid | game.go:32-46 | the initial game is valid and its corridors are symmetric |
| InitialWorld.BridgeCorridors | game.go:70-72 | the Bridge's corridors lead to Communications, the Observatory and the Crew Quarters only |
| InitialWorld.BridgeNeighbours | game.go:45 | from the starting room the Engine Room is not reachable in one step |
| InitialWorld.PlacementKinds | game.go:112-168 | keys carry identifiers 1 to 5, chests 1 to 5, and the other items are neither keys nor chests |
| InitialWorld.KeyIdsUsed | game.go:148-168 | every key and chest identifier is between 1 and 5, and each of those is carried by some key and some chest |
| InitialWorld.KeyIdsUnique | game.go:148-168 | no two keys and no two chests share an identifier |
| InitialWorld.SingleFlag | game.go:181-186 | the only flag is the item "Flag" in Communications |
| InitialWorld.DescriptionsCoverListedRooms | game.go:94-109 | a room name has a non-empty description exactly when it is one of the ten rooms |
| InitialWorld.ChestNamesSpaced | game.go:130-134 | every chest name has two words |
| Commands.Resolve | commands.go:113-131 | a name resolves exactly when the joined fields or the first field name a candidate, and the joined form wins |
| Commands.ShowHelp | commands.go:43-53 | help reports the help text and leaves the game alone |
| Commands.RoomListing | commands.go:84-105 | a listing reports the room's items, and its connections only when it has items |
| Commands.ListRoom | commands.go:59-64 | a named room is refused exactly when it is unvisited and not the current room; otherwise it is listed |
| Commands.ListItems | commands.go:55-82 | ls changes nothing; with no argument it lists the current room; otherwise it resolves the name among all rooms, and lists only visited rooms or the current one |
| Commands.MoveTo | commands.go:116-121 | moving makes the neighbour current and visited, reports its description and changes no other room |
| Commands.ChangeRoom | commands.go:107-140 | cd moves exactly when the name resolves among the current room's connections; otherwise nothing changes and the connections are offered |
| Commands.Describe | commands.go:151-156 | an item is reported by name and description, and its content appears exactly when it is not empty |
| Commands.ExamineItem | commands.go:142-169 | cat changes nothing and describes the room's item first, else the carried one, else reports it missing |
| Commands.CopyItem | commands.go:171-199 | cp copies any non-chest item of the current room into the inventory, reports the flag as a capture and a chest as not copyable, and changes no room |
| Commands.Open | commands.go:240-255 | opening replaces the chest in the current room by a normal contents item that holds the chest's content; nothing else changes |
| Commands.OpenChestAsWritten | commands.go:201-255 | the original check ladder with the chest named by the first field: each error exactly when its condition holds, and the opening only when the key fits |
| Commands.ChestSplit | commands.go:207-208 | the split point is the fewest leading fields that name an item of the room, leaving at least one field for the key |
| Commands.OpenChest | commands.go:201-255 | the same ladder with the chest named by the fewest leading fields that name an item of the room; the key is the remaining fields |
| Commands.ShowInventory | commands.go:257-267 | inventory reports the names of the carried items and changes nothing |
| Commands.Dispatch | commands.go:17-40 | each command word runs its handler (unrar the one as written, with the chest named by the first field); only exit and quit end the session; only cd, cp and unrar change the game; cd alone moves and cp alone changes the inventory; unknown words are reported |
| Commands.DispatchCorrected | commands.go:28-29 | the corrected dispatcher runs the corrected unrar and agrees with the original dispatcher on every other word |
| Commands.ProcessCommand | commands.go:8-41 | a line without fields changes nothing; otherwise the lower-cased first field is dispatched with the remaining fields as arguments, so every Commands.Dispatch promise holds of typed lines; the session ends exactly on exit or quit |
| Properties.ProcessJoined | commands.go:8-16 | a line of fields joined by spaces dispatches its lower-cased first field with the remaining fields as arguments |
| Properties.OnlySuccessChanges | commands.go:17-40 | only a move, a copy, a flag capture or an opening changes the game; every error leaves it as it was |
| Properties.CommandKeepsSymmetry | commands.go:8-41 | no command breaks the symmetry of the corridors |
| Properties.VisitedMonotone | commands.go:116-128 | a visited room stays visited, and a room only becomes visited by being entered |
| Properties.ListAfterVisit | commands.go:59-64 | an unvisited neighbour is refused by ls until the player has moved there, and is listed afterwards |
| Properties.CopyKeepsOriginal | commands.go:180-185 | copying leaves the item in the room, and cat then describes it |
| Properties.CarriedItemExaminable | commands.go:159-166 | a copied item can still be examined after any cd |
| Properties.OpenConsumesChest | commands.go:244-254 | opening keeps the key, removes the chest so it cannot be opened again, and leaves its content in the room |
| Properties.OpenChestSplitsAtChest | commands.go:201-255 | with the chest's fields followed by the key's fields, the corrected unrar opens that chest with that key |
| Properties.Session | main.go:22-36 | a session of typed lines keeps the invariant and the room graph |
| Properties.SessionStep | main.go:22-36 | a line that ends the session stops it and the remaining lines are ignored; a blank line changes nothing; any other line is processed and the session goes on |
| Properties.SessionKeepsSymmetry | main.go:22-36 | the corridors stay symmetric for a whole session |
| Properties.StartedChestsSpaced | game.go:159-168 | at the start every chest in the ship has a name with a space in it |
| Properties.OpenKeepsChestsSpaced | commands.go:244-254 | opening a chest creates no new chest: every chest afterwards was already in the same room, unchanged; so every chest name stays spaced |
| Properties.CommandKeepsChestsSpaced | commands.go:8-41 | no command creates a chest: every chest afterwards was already in the same room, unchanged; so every chest name stays spaced |
| Properties.SessionKeepsChestsSpaced | main.go:22-36 | no session creates a chest: every chest at its end was already in the same room at its start, unchanged; so every chest name stays spaced |
| Properties.SpacedChestNeverOpens | commands.go:207-211 | as written, unrar never opens a chest whose name contains a space |
| Properties.UnrarAsWrittenNeverOpens | commands.go:207-211 | however a session of the interpreter as written goes, unrar never opens any chest of the ship |
| Scenarios.BlockedCorridor | commands.go:133-139 | at the start, cd Engine Room is refused with the three reachable rooms offered, and nothing changes |
| Scenarios.TypedBlockedCorridor | commands.go:8-41 | the same refusal for the typed line "CD Engine Room" |
| Scenarios.ExitEnds | commands.go:32-34 | exit ends the session at once and changes nothing |
| Scenarios.FlagWalk | commands.go:186-191 | from the start, cd Communications then cp Flag captures the flag without ending the session, and ls Bridge is then refused |
| Scenarios.CdStep | commands.go:113-121 | cd to a neighbour named by the joined fields moves there and changes no room's items or corridors |
| Scenarios.CpStep | commands.go:180-185 | cp of a copyable item adds it to the inventory and changes nothing else |
| Scenarios.OpenInEngineRoom | commands.go:201-255 | in the Engine Room with the Epsilon Key, the corrected unrar Engineering Chest Epsilon Key opens the chest and finds the quantum fusion core |
| Scenarios.OpenInEngineRoomAsWritten | commands.go:207-215 | as written, the same line reports that there is no chest "Engineering" and changes nothing |
| Scenarios.ChestWalk | commands.go:107-255 | from the start, cd Observatory, cd Storage, cp Epsilon Key and cd Engine Room bring the key to the chest; unrar Engineering Chest Epsilon Key then finds no chest "Engineering" as written, and opens the chest when corrected |

## Left out

- Terminal I/O and message wording: output is modelled by the `Outcome` a handler reaches, not by the printed text. The help and inventory texts are reduced to `HelpShown` and the set of carried names.
- `rand.Seed` in `NewGame` (game.go:33): the seed is never used, so it is left out.
- Map iteration order: listings report sets of names, because Go's map order is unspecified.
- `placeItems` (game.go:189-192) does nothing, so the model has no counterpart for it.
- The main loop's reading, trimming and empty-line skipping (main.go:20-31) are not modelled separately. An all-white-space line has no fields and `ProcessCommand` leaves the game unchanged, which has the same effect.
- White space and case: `Fields` splits on the white-space characters below U+0100, and `Lower` maps only ASCII capitals. Full Unicode white space and case mapping are left out.
- Item types: the type string becomes a four-valued `Kind`. The original's other strings cannot occur, because only those four are ever created.
- References: rooms are named, so comparing a room with the current room is a comparison of names. `NewGame`'s missing current room is the empty name, which no room has.

## Findings

| source | as written | input that shows it | evidently intended | confidence | as-written member | corrected member |
|---|---|---|---|---|---|---|
| commands.go:207-208 | `unrar` takes the first argument field as the chest name and the remaining fields as the key name, but every chest in the ship has a two-word name and a field never contains a space, so no chest can ever be opened | in the Engine Room, holding the Epsilon Key, `unrar Engineering Chest Epsilon Key` reports that there is no chest "Engineering" | the chest name is the leading fields that name an item of the room, and the key name is the rest, so the same line opens the Engineering Chest and yields the quantum fusion core | high, not executed | Properties.UnrarAsWrittenNeverOpens | Properties.OpenChestSplitsAtChest |

`Commands.Dispatch`, `Commands.ProcessCommand` and `Properties.Session` keep the `unrar` as written, so they describe the game as it behaves. The corrected `unrar` is `Commands.OpenChest`, and `Commands.DispatchCorrected` runs it. `Scenarios.ChestWalk` shows both on the same line of input.
