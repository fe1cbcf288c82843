/** Properties that relate several commands or follow a session through more
    than one line. */
module Properties {
  import opened Text
  import opened State
  import opened World
  import opened InitialWorld
  import opened Commands

  // ---------------------------------------------------------------- tokenizing

  /** A line made of fields joined by spaces is dispatched on exactly those
      fields: the lower-cased first field selects the command and the rest are
      its arguments. */
  lemma ProcessJoined(g: Game, ts: seq<string>)
    requires Valid(g) && AllTokens(ts) && |ts| > 0
    ensures ProcessCommand(g, Join(ts)) == Dispatch(g, Lower(ts[0]), ts[1..])
  {
    FieldsOfJoin(ts);
  }

  // ---------------------------------------------------------------- every command

  /** Only a successful move, copy or opening changes the game; every other
      outcome, errors included, leaves it exactly as it was. */
  lemma OnlySuccessChanges(g: Game, command: string, args: seq<string>)
    requires Valid(g)
    ensures var r := Dispatch(g, command, args);
      !(r.outcome.Moved? || r.outcome.Copied? || r.outcome.FlagCaptured? || r.outcome.ChestOpened?) ==>
        r.game == g
  {
  }

  /** No command changes the corridors, so they stay symmetric. */
  lemma CommandKeepsSymmetry(g: Game, line: string)
    requires Valid(g) && Symmetric(g.rooms)
    ensures Symmetric(ProcessCommand(g, line).game.rooms)
  {
  }

  /** A visited room stays visited, and the only room that can become visited
      is the one the player ends up in. */
  lemma VisitedMonotone(g: Game, command: string, args: seq<string>)
    requires Valid(g)
    ensures var h := Dispatch(g, command, args).game;
      forall n :: n in g.rooms ==>
        && (g.rooms[n].visited ==> h.rooms[n].visited)
        && (h.rooms[n].visited && !g.rooms[n].visited ==> n == h.current)
  {
  }

  // ---------------------------------------------------------------- ls and cd

  /** An unvisited neighbour cannot be listed until the player has moved
      there; from then on it is listed like the current room. */
  lemma ListAfterVisit(g: Game, name: string)
    requires Valid(g) && name in CurrentRoom(g).connections
    requires !g.rooms[name].visited && name != g.current
    ensures ListRoom(g, name) == NotVisitedYet(name)
    ensures var h := MoveTo(g, name).game; ListRoom(h, name) == RoomListing(h.rooms[name])
  {
  }

  // ---------------------------------------------------------------- cp and cat

  /** Copying puts the room's item into the inventory and leaves it in the
      room; examining it afterwards describes that item. */
  lemma CopyKeepsOriginal(g: Game, args: seq<string>)
    requires Valid(g) && |args| > 0 && Copyable(g, Join(args))
    ensures var h := CopyItem(g, args).game; var name := Join(args);
      && name in h.inventory && name in CurrentRoom(h).items
      && h.inventory[name] == CurrentRoom(h).items[name] == CurrentRoom(g).items[name]
      && ExamineItem(h, args).outcome == Describe(CurrentRoom(g).items[name])
  {
  }

  /** An item copied into the inventory can still be examined after moving
      on to another room. */
  lemma CarriedItemExaminable(g: Game, args: seq<string>, to: seq<string>)
    requires Valid(g) && |args| > 0 && Copyable(g, Join(args))
    ensures var h := ChangeRoom(CopyItem(g, args).game, to).game;
      ExamineItem(h, args).outcome.Examined?
  {
  }

  // ---------------------------------------------------------------- unrar

  /** Opening a chest uses the key without consuming it, and the chest is
      gone afterwards, so the same chest cannot be opened twice; its content
      is left in the room as a new item. */
  lemma OpenConsumesChest(g: Game, chest: string, key: string)
    requires Valid(g) && Unlocks(g, chest, key)
    ensures var h := Open(g, chest, key).game;
      && key in h.inventory && h.inventory[key] == g.inventory[key]
      && !Unlocks(h, chest, key)
      && ContentsName(chest) in CurrentRoom(h).items
      && CurrentRoom(h).items[ContentsName(chest)].content == CurrentRoom(g).items[chest].content
  {
  }

  /** When the chest's fields are the fewest that name an item of the room,
      `unrar` with the chest's fields followed by the key's fields opens that
      chest with that key. */
  lemma OpenChestSplitsAtChest(g: Game, cs: seq<string>, ks: seq<string>)
    requires Valid(g) && |cs| > 0 && |ks| > 0
    requires Unlocks(g, Join(cs), Join(ks))
    requires forall j :: 1 <= j < |cs| ==> Join(cs[..j]) !in CurrentRoom(g).items
    ensures OpenChest(g, cs + ks) == Open(g, Join(cs), Join(ks))
  {
    var args := cs + ks;
    var names := CurrentRoom(g).items.Keys;
    assert args[..|cs|] == cs;
    assert args[|cs|..] == ks;
    forall j | 1 <= j < |cs| ensures Join(args[..j]) !in names {
      assert args[..j] == cs[..j];
    }
    SplitAtFirstName(names, args, |cs|);
    var r := OpenChest(g, args);
    assert r.outcome.ChestOpened?;
  }

  /** The split of the corrected `unrar` falls at `c` when the first `c`
      fields name an item and no shorter prefix does. */
  lemma SplitAtFirstName(names: set<string>, args: seq<string>, c: nat)
    requires 1 <= c < |args| && Join(args[..c]) in names
    requires forall j :: 1 <= j < c ==> Join(args[..j]) !in names
    ensures ChestSplit(names, args, 1) == c
  {
  }

  // ---------------------------------------------------------------- sessions

  /** The game after the player types `lines` one by one, stopping after a
      line that ends the session. */
  function Session(g: Game, lines: seq<string>): (h: Game)
    requires Valid(g)
    ensures Valid(h) && SameGraph(g, h)
    decreases |lines|
  {
    if lines == [] then g
    else
      var r := ProcessCommand(g, lines[0]);
      if r.terminate then r.game else Session(r.game, lines[1..])
  }

  /** One line of a session: a line that ends the session leaves the game
      as that line left it and ignores the lines after it; a blank line
      changes nothing; any other line is processed and the session goes on. */
  lemma SessionStep(g: Game, line: string, rest: seq<string>)
    requires Valid(g)
    ensures var r := ProcessCommand(g, line);
      && (r.terminate ==> Session(g, [line] + rest) == r.game)
      && (!r.terminate ==> Session(g, [line] + rest) == Session(r.game, rest))
    ensures AllSpace(line) ==> Session(g, [line] + rest) == Session(g, rest)
  {
  }

  /** Corridors stay symmetric for the whole session: a session keeps the
      room graph, and symmetry depends on nothing else. */
  lemma SessionKeepsSymmetry(g: Game, lines: seq<string>)
    requires Valid(g) && Symmetric(g.rooms)
    ensures Symmetric(Session(g, lines).rooms)
  {
  }

  // ---------------------------------------------------------------- the chest names

  /** Every chest of every room has a name with a space in it. */
  ghost predicate ChestsSpaced(g: Game) {
    forall r, n :: r in g.rooms && n in g.rooms[r].items && g.rooms[r].items[n].kind == Chest ==> ' ' in n
  }

  /** All five chests of the ship have two-word names. */
  lemma StartedChestsSpaced(g: Game)
    requires Started(g)
    ensures ChestsSpaced(g)
  {
    PlacementKinds();
    ChestNamesSpaced();
    forall r, n | r in g.rooms && n in g.rooms[r].items && g.rooms[r].items[n].kind == Chest
      ensures ' ' in n
    {
      var i :| 0 <= i < |Placements| && Placements[i].room == r && Placements[i].item.name == n
        && Placements[i].item == g.rooms[r].items[n];
    }
  }

  /** Every chest of `h` was already in the same room of `g`, unchanged:
      nothing between `g` and `h` created a chest. */
  ghost predicate NoNewChest(g: Game, h: Game) {
    forall r, n :: r in h.rooms && n in h.rooms[r].items && h.rooms[r].items[n].kind == Chest ==>
      r in g.rooms && n in g.rooms[r].items && g.rooms[r].items[n] == h.rooms[r].items[n]
  }

  /** A game that creates no chest keeps every chest name spaced. */
  lemma NoNewChestKeepsSpaced(g: Game, h: Game)
    requires ChestsSpaced(g) && NoNewChest(g, h)
    ensures ChestsSpaced(h)
  {
    forall r, n | r in h.rooms && n in h.rooms[r].items && h.rooms[r].items[n].kind == Chest
      ensures ' ' in n
    {
      assert g.rooms[r].items[n].kind == Chest;
    }
  }

  lemma NoNewChestTransitive(g: Game, h: Game, k: Game)
    requires NoNewChest(g, h) && NoNewChest(h, k)
    ensures NoNewChest(g, k)
  {
    forall r, n | r in k.rooms && n in k.rooms[r].items && k.rooms[r].items[n].kind == Chest
      ensures r in g.rooms && n in g.rooms[r].items && g.rooms[r].items[n] == k.rooms[r].items[n]
    {
      assert h.rooms[r].items[n] == k.rooms[r].items[n];
    }
  }

  /** Moving only marks a room visited. */
  lemma MoveKeepsChestsSpaced(g: Game, args: seq<string>)
    requires Valid(g)
    ensures NoNewChest(g, ChangeRoom(g, args).game)
    ensures ChestsSpaced(g) ==> ChestsSpaced(ChangeRoom(g, args).game)
  {
    var h := ChangeRoom(g, args).game;
    forall r, n | r in h.rooms && n in h.rooms[r].items && h.rooms[r].items[n].kind == Chest
      ensures r in g.rooms && n in g.rooms[r].items && g.rooms[r].items[n] == h.rooms[r].items[n]
    {
      assert h.rooms[r].items == g.rooms[r].items;
    }
    if ChestsSpaced(g) {
      NoNewChestKeepsSpaced(g, h);
    }
  }

  /** Opening a chest removes it and adds a normal item, so it creates no
      chest. */
  lemma OpenKeepsChestsSpaced(g: Game, chestName: string, keyName: string)
    requires Valid(g) && Unlocks(g, chestName, keyName)
    ensures NoNewChest(g, Open(g, chestName, keyName).game)
    ensures ChestsSpaced(g) ==> ChestsSpaced(Open(g, chestName, keyName).game)
  {
    var h := Open(g, chestName, keyName).game;
    forall r, n | r in h.rooms && n in h.rooms[r].items && h.rooms[r].items[n].kind == Chest
      ensures r in g.rooms && n in g.rooms[r].items && g.rooms[r].items[n] == h.rooms[r].items[n]
    {
      if r == g.current {
        assert n != ContentsName(chestName);
        assert h.rooms[r].items[n] == g.rooms[r].items[n];
      } else {
        assert h.rooms[r] == g.rooms[r];
      }
    }
    if ChestsSpaced(g) {
      NoNewChestKeepsSpaced(g, h);
    }
  }

  lemma UnrarKeepsChestsSpaced(g: Game, args: seq<string>)
    requires Valid(g)
    ensures NoNewChest(g, OpenChestAsWritten(g, args).game)
    ensures ChestsSpaced(g) ==> ChestsSpaced(OpenChestAsWritten(g, args).game)
  {
    var s := OpenChestAsWritten(g, args);
    if s.outcome.ChestOpened? {
      OpenKeepsChestsSpaced(g, args[0], Join(args[1..]));
    }
  }

  lemma DispatchKeepsChestsSpaced(g: Game, command: string, args: seq<string>)
    requires Valid(g)
    ensures NoNewChest(g, Dispatch(g, command, args).game)
    ensures ChestsSpaced(g) ==> ChestsSpaced(Dispatch(g, command, args).game)
  {
    var h := Dispatch(g, command, args).game;
    if command == "cd" {
      MoveKeepsChestsSpaced(g, args);
      assert h == ChangeRoom(g, args).game;
    } else if command == "unrar" {
      UnrarKeepsChestsSpaced(g, args);
      assert h == OpenChestAsWritten(g, args).game;
    } else if command == "cp" {
      assert h.rooms == CopyItem(g, args).game.rooms == g.rooms;
    } else {
      assert ReadOnly(command);
    }
  }

  /** No command creates a chest: opening one leaves a normal item behind,
      and every other command leaves the items of the rooms alone. */
  lemma CommandKeepsChestsSpaced(g: Game, line: string)
    requires Valid(g)
    ensures NoNewChest(g, ProcessCommand(g, line).game)
    ensures ChestsSpaced(g) ==> ChestsSpaced(ProcessCommand(g, line).game)
  {
    var parts := Fields(line);
    if |parts| > 0 {
      DispatchKeepsChestsSpaced(g, Lower(parts[0]), parts[1..]);
    }
  }

  /** No session creates a chest. */
  lemma {:induction false} SessionKeepsChestsSpaced(g: Game, lines: seq<string>)
    requires Valid(g)
    ensures NoNewChest(g, Session(g, lines))
    ensures ChestsSpaced(g) ==> ChestsSpaced(Session(g, lines))
    decreases |lines|
  {
    var h := Session(g, lines);
    if lines != [] {
      var r := ProcessCommand(g, lines[0]);
      CommandKeepsChestsSpaced(g, lines[0]);
      if !r.terminate {
        SessionKeepsChestsSpaced(r.game, lines[1..]);
        NoNewChestTransitive(g, r.game, h);
      }
    }
    if ChestsSpaced(g) {
      NoNewChestKeepsSpaced(g, h);
    }
  }

  lemma TokenHasNoSpace(w: string)
    requires IsToken(w)
    ensures ' ' !in w
  {
  }

  /** As written, `unrar` looks the chest up by its first argument field, which
      never contains a space, so it never opens a chest whose name has one. */
  lemma SpacedChestNeverOpens(g: Game, args: seq<string>)
    requires Valid(g) && ChestsSpaced(g) && AllTokens(args)
    ensures !OpenChestAsWritten(g, args).outcome.ChestOpened?
  {
    if |args| > 0 {
      TokenHasNoSpace(args[0]);
    }
  }

  /** However a session of the interpreter as written goes, no chest of the
      ship is opened by any `unrar` that follows. */
  lemma UnrarAsWrittenNeverOpens(lines: seq<string>, args: seq<string>)
    requires AllTokens(args)
    ensures Valid(InitialGame()) && !OpenChestAsWritten(Session(InitialGame(), lines), args).outcome.ChestOpened?
  {
    InitialStarted();
    InitialValid();
    StartedChestsSpaced(InitialGame());
    SessionKeepsChestsSpaced(InitialGame(), lines);
    SpacedChestNeverOpens(Session(InitialGame(), lines), args);
  }
}
