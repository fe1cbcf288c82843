/** Short walks through the ship from the starting position. Each walk is
    proved for any game with the few facts it relies on, and then for the
    game initialisation leaves, which has those facts. */
module Scenarios {
  import opened Text
  import opened State
  import opened World
  import opened InitialWorld
  import opened Commands
  import opened Properties

  const Reachable: set<string> := {"Communications", "Observatory", "Crew Quarters"}

  // ---------------------------------------------------------------- a closed door

  lemma BlockedCorridorFrom(g: Game)
    requires Valid(g) && CurrentRoom(g).connections == Reachable
    ensures Dispatch(g, "cd", ["Engine", "Room"]) == Reply(g, CannotMove("Engine Room", Reachable), false)
  {
    assert Join(["Engine", "Room"]) == "Engine Room";
  }

  /** The Engine Room is not next to the Bridge: `cd Engine Room` is refused,
      the three reachable rooms are offered and nothing changes. */
  lemma BlockedCorridor(g: Game)
    requires Started(g)
    ensures Valid(g) && Dispatch(g, "cd", ["Engine", "Room"]) == Reply(g, CannotMove("Engine Room", Reachable), false)
  {
    StartedValid(g);
    BridgeNeighbours(g);
    BlockedCorridorFrom(g);
  }

  /** The same refusal for the line as typed: the line is split into fields
      and the lower-cased first field selects `cd`. */
  lemma TypedBlockedCorridor(g: Game)
    requires Started(g)
    ensures Valid(g) && ProcessCommand(g, "CD Engine Room") == Reply(g, CannotMove("Engine Room", Reachable), false)
  {
    StartedValid(g);
    TypedCd(g);
    BlockedCorridor(g);
  }

  lemma TypedCd(g: Game)
    requires Valid(g)
    ensures ProcessCommand(g, "CD Engine Room") == Dispatch(g, "cd", ["Engine", "Room"])
  {
    var ts := ["CD", "Engine", "Room"];
    assert AllTokens(ts);
    assert Join(ts) == "CD Engine Room";
    ProcessJoined(g, ts);
    assert Lower("CD") == "cd";
    assert ts[1..] == ["Engine", "Room"];
  }

  /** `exit` ends the session at once and changes nothing. */
  lemma ExitEnds(g: Game)
    requires Started(g)
    ensures Valid(g) && Dispatch(g, "exit", []) == Reply(g, Goodbye, true)
  {
    StartedValid(g);
  }

  // ---------------------------------------------------------------- the flag

  lemma FlagWalkFrom(g: Game)
    requires Valid(g) && g.current == "Bridge" && !g.rooms["Bridge"].visited
    requires "Communications" in CurrentRoom(g).connections
    requires "Flag" in g.rooms["Communications"].items && g.rooms["Communications"].items["Flag"] == FlagPlacement.item
    ensures var r := Dispatch(g, "cd", ["Communications"]); var h := r.game;
      && r.outcome == Moved("Communications", g.rooms["Communications"].description)
      && h.current == "Communications"
      && Dispatch(h, "cp", ["Flag"]) == Reply(h.(inventory := g.inventory["Flag" := FlagPlacement.item]), FlagCaptured("Flag"), false)
      && Dispatch(h, "ls", ["Bridge"]).outcome == NotVisitedYet("Bridge")
  {
  }

  /** The facts of the start the flag walk relies on. */
  lemma FlagWalkFacts(g: Game)
    requires Started(g)
    ensures Valid(g) && g.current == "Bridge" && !g.rooms["Bridge"].visited
    ensures "Communications" in CurrentRoom(g).connections
    ensures "Flag" in g.rooms["Communications"].items && g.rooms["Communications"].items["Flag"] == FlagPlacement.item
    ensures g.rooms["Communications"].description == RoomDescription("Communications")
  {
    StartedValid(g);
    BridgeNeighbours(g);
    PlacementFlag();
  }

  /** One step from the start the flag is captured: `cd Communications`, then
      `cp Flag` reports the capture and puts the flag into the inventory, but
      does not end the session. Having left the Bridge, `ls Bridge` is
      refused, because the starting room was never marked visited. */
  lemma FlagWalk(g: Game)
    requires Started(g)
    ensures Valid(g)
    ensures var r := Dispatch(g, "cd", ["Communications"]); var h := r.game;
      && r.outcome == Moved("Communications", RoomDescription("Communications"))
      && Dispatch(h, "cp", ["Flag"]) == Reply(h.(inventory := map["Flag" := FlagPlacement.item]), FlagCaptured("Flag"), false)
      && Dispatch(h, "ls", ["Bridge"]).outcome == NotVisitedYet("Bridge")
  {
    FlagWalkFacts(g);
    FlagWalkFrom(g);
  }

  // ---------------------------------------------------------------- a chest

  const ChestLine: seq<string> := ["Engineering", "Chest", "Epsilon", "Key"]

  /** `cd` to a neighbour named by the joined fields moves there and changes
      no room's items. */
  lemma CdStep(g: Game, args: seq<string>)
    requires Valid(g) && |args| > 0 && Join(args) in CurrentRoom(g).connections
    ensures var h := Dispatch(g, "cd", args).game;
      && h.current == Join(args) && h.inventory == g.inventory && h.rooms.Keys == g.rooms.Keys
      && forall n :: n in g.rooms ==> h.rooms[n].items == g.rooms[n].items && h.rooms[n].connections == g.rooms[n].connections
  {
    var s := ChangeRoom(g, args);
    assert Dispatch(g, "cd", args).game == s.game;
    assert Resolve(args, CurrentRoom(g).connections) == Some(Join(args));
    assert s.outcome.Moved?;
    var h := s.game;
    forall n | n in g.rooms
      ensures h.rooms[n].items == g.rooms[n].items && h.rooms[n].connections == g.rooms[n].connections
    {
      if n == h.current {
        assert h.rooms[n] == g.rooms[n].(visited := true);
      } else {
        assert h.rooms[n] == g.rooms[n];
      }
    }
  }

  /** `cp` of a copyable item named by the joined fields adds it to the
      inventory and changes no room. */
  lemma CpStep(g: Game, args: seq<string>)
    requires Valid(g) && |args| > 0 && Copyable(g, Join(args))
    ensures var h := Dispatch(g, "cp", args).game;
      h == g.(inventory := g.inventory[Join(args) := CurrentRoom(g).items[Join(args)]])
  {
    var h := CopyItem(g, args).game;
    assert Dispatch(g, "cp", args).game == h;
    assert h.rooms == g.rooms && h.current == g.current;
    assert h.inventory == g.inventory[Join(args) := CurrentRoom(g).items[Join(args)]];
  }

  /** From the Bridge, `cd Observatory` and `cd Storage` lead to the Storage
      room without touching any item. */
  lemma WalkToStorage(g: Game)
    requires Valid(g) && g.current == "Bridge"
    requires "Observatory" in g.rooms["Bridge"].connections
    requires "Storage" in g.rooms["Observatory"].connections
    ensures var g2 := Dispatch(Dispatch(g, "cd", ["Observatory"]).game, "cd", ["Storage"]).game;
      && Valid(g2) && g2.current == "Storage" && g2.inventory == g.inventory && g2.rooms.Keys == g.rooms.Keys
      && forall n :: n in g.rooms ==> g2.rooms[n].items == g.rooms[n].items && g2.rooms[n].connections == g.rooms[n].connections
  {
    assert Join(["Observatory"]) == "Observatory";
    CdStep(g, ["Observatory"]);
    assert Join(["Storage"]) == "Storage";
    CdStep(Dispatch(g, "cd", ["Observatory"]).game, ["Storage"]);
  }

  /** In the Storage room, `cp Epsilon Key` and `cd Engine Room` lead to the
      Engine Room carrying the key, without touching any room's items. */
  lemma TakeKeyToEngineRoom(g: Game)
    requires Valid(g) && g.current == "Storage"
    requires "Engine Room" in g.rooms["Storage"].connections
    requires "Epsilon Key" in g.rooms["Storage"].items && g.rooms["Storage"].items["Epsilon Key"] == Placements[4].item
    ensures var g4 := Dispatch(Dispatch(g, "cp", ["Epsilon", "Key"]).game, "cd", ["Engine", "Room"]).game;
      && Valid(g4) && g4.current == "Engine Room"
      && "Epsilon Key" in g4.inventory && g4.inventory["Epsilon Key"] == Placements[4].item
      && CurrentRoom(g4).items == g.rooms["Engine Room"].items
  {
    assert Join(["Epsilon", "Key"]) == "Epsilon Key";
    CpStep(g, ["Epsilon", "Key"]);
    assert Join(["Engine", "Room"]) == "Engine Room";
    CdStep(Dispatch(g, "cp", ["Epsilon", "Key"]).game, ["Engine", "Room"]);
  }

  /** The Epsilon Key opens the Engineering Chest, which holds the quantum
      fusion core. */
  lemma EpsilonFitsEngineering()
    ensures Placements[4].item.kind == Key && Placements[9].item.kind == Chest
    ensures Placements[4].item.keyId == Placements[9].item.keyId
    ensures Placements[4].item.name == "Epsilon Key" && Placements[9].item.name == "Engineering Chest"
    ensures Placements[9].item.content == "Quantum fusion core"
  {
  }

  /** In the Engine Room with the Epsilon Key, the corrected `unrar
      Engineering Chest Epsilon Key` opens the chest. */
  lemma OpenInEngineRoom(g: Game)
    requires Valid(g) && "Epsilon Key" in g.inventory && g.inventory["Epsilon Key"] == Placements[4].item
    requires "Engineering Chest" in CurrentRoom(g).items
    requires CurrentRoom(g).items["Engineering Chest"] == Placements[9].item
    requires "Engineering" !in CurrentRoom(g).items
    ensures DispatchCorrected(g, "unrar", ChestLine).outcome == ChestOpened("Epsilon Key", "Engineering Chest", "Quantum fusion core")
  {
    EpsilonFitsEngineering();
    var cs, ks := ["Engineering", "Chest"], ["Epsilon", "Key"];
    assert ChestLine == cs + ks;
    assert cs[..1] == ["Engineering"];
    assert Join(cs) == "Engineering Chest";
    assert Join(ks) == "Epsilon Key";
    OpenChestSplitsAtChest(g, cs, ks);
  }

  /** As written, the same line looks for a chest named "Engineering" and
      finds none. */
  lemma OpenInEngineRoomAsWritten(g: Game)
    requires Valid(g) && "Engineering" !in CurrentRoom(g).items
    ensures Dispatch(g, "unrar", ChestLine) == Reply(g, ChestNotFound("Engineering"), false)
  {
    assert ChestLine[0] == "Engineering";
  }

  /** Every listed corridor joins its two rooms, both ways. */
  lemma Corridor(g: Game, i: int)
    requires Started(g) && 0 <= i < |Edges|
    ensures Edges[i].from in g.rooms && Edges[i].to in g.rooms
    ensures Edges[i].to in g.rooms[Edges[i].from].connections
    ensures Edges[i].from in g.rooms[Edges[i].to].connections
  {
    EdgesJoinListedRooms();
    var e := Edges[i];
    assert e.to in Neighbours(Edges, e.from);
    assert e.from in Neighbours(Edges, e.to);
  }

  /** Each placement lies in its room under its name. */
  lemma PlacementInRoom(g: Game, i: int)
    requires Started(g) && 0 <= i < |Placements|
    ensures Placements[i].room in g.rooms
    ensures Placements[i].item.name in g.rooms[Placements[i].room].items
    ensures g.rooms[Placements[i].room].items[Placements[i].item.name] == Placements[i].item
  {
  }

  /** A name no placement uses is not an item of any room. */
  lemma NotPlaced(g: Game, r: string, n: string)
    requires Started(g) && r in g.rooms
    requires forall i :: 0 <= i < |Placements| ==> Placements[i].item.name != n
    ensures n !in g.rooms[r].items
  {
  }

  /** No item of the ship is called "Engineering". */
  lemma EngineeringUnplaced()
    ensures forall i :: 0 <= i < |Placements| ==> Placements[i].item.name != "Engineering"
  {
  }

  /** The corridors and placements the chest walk uses, by their positions in
      the ship's tables. */
  lemma ChestRoute()
    ensures Edges[1] == Edge("Bridge", "Observatory")
    ensures Edges[11] == Edge("Storage", "Observatory")
    ensures Edges[4] == Edge("Engine Room", "Storage")
    ensures Placements[4].room == "Storage" && Placements[4].item.name == "Epsilon Key"
    ensures Placements[9].room == "Engine Room" && Placements[9].item.name == "Engineering Chest"
  {
  }

  /** The chest walk for any game that has the corridors and placements it
      uses, stated through the ship's tables (`ChestRoute` spells them out):
      the player is on the Bridge, the Bridge leads to the Observatory, the
      Observatory to Storage and Storage to the Engine Room; the Epsilon Key
      lies in Storage and the Engineering Chest in the Engine Room, which
      holds nothing called "Engineering". */
  lemma ChestWalkFrom(g: Game)
    requires Valid(g) && g.current == Edges[1].from                       // Bridge
    requires Edges[1].to in g.rooms[Edges[1].from].connections            // Bridge to Observatory
    requires Edges[11].from in g.rooms[Edges[11].to].connections          // Observatory to Storage
    requires Edges[4].from in g.rooms[Edges[4].to].connections            // Storage to Engine Room
    requires Placements[4].room in g.rooms && Placements[4].item.name in g.rooms[Placements[4].room].items
    requires g.rooms[Placements[4].room].items[Placements[4].item.name] == Placements[4].item    // Epsilon Key
    requires Placements[9].room in g.rooms && Placements[9].item.name in g.rooms[Placements[9].room].items
    requires g.rooms[Placements[9].room].items[Placements[9].item.name] == Placements[9].item    // Engineering Chest
    requires "Engineering" !in g.rooms[Placements[9].room].items
    ensures var g1 := Dispatch(g, "cd", ["Observatory"]).game;
      var g2 := Dispatch(g1, "cd", ["Storage"]).game;
      var g3 := Dispatch(g2, "cp", ["Epsilon", "Key"]).game;
      var g4 := Dispatch(g3, "cd", ["Engine", "Room"]).game;
      && Valid(g4)
      && DispatchCorrected(g4, "unrar", ChestLine).outcome == ChestOpened("Epsilon Key", "Engineering Chest", "Quantum fusion core")
      && Dispatch(g4, "unrar", ChestLine) == Reply(g4, ChestNotFound("Engineering"), false)
  {
    ChestRoute();
    WalkToStorage(g);
    var g1 := Dispatch(g, "cd", ["Observatory"]).game;
    var g2 := Dispatch(g1, "cd", ["Storage"]).game;
    TakeKeyToEngineRoom(g2);
    var g3 := Dispatch(g2, "cp", ["Epsilon", "Key"]).game;
    var g4 := Dispatch(g3, "cd", ["Engine", "Room"]).game;
    OpenInEngineRoom(g4);
    OpenInEngineRoomAsWritten(g4);
  }

  /** From the start, `cd Observatory`, `cd Storage`, `cp Epsilon Key` and
      `cd Engine Room` bring the Epsilon Key to the Engineering Chest. The
      interpreter as written then answers `unrar Engineering Chest Epsilon
      Key` with "no chest Engineering" and changes nothing; the corrected
      `unrar` opens the chest and finds the quantum fusion core. */
  lemma ChestWalk(g: Game)
    requires Started(g)
    ensures Valid(g)
    ensures var g1 := Dispatch(g, "cd", ["Observatory"]).game;
      var g2 := Dispatch(g1, "cd", ["Storage"]).game;
      var g3 := Dispatch(g2, "cp", ["Epsilon", "Key"]).game;
      var g4 := Dispatch(g3, "cd", ["Engine", "Room"]).game;
      && Valid(g4)
      && DispatchCorrected(g4, "unrar", ChestLine).outcome == ChestOpened("Epsilon Key", "Engineering Chest", "Quantum fusion core")
      && Dispatch(g4, "unrar", ChestLine) == Reply(g4, ChestNotFound("Engineering"), false)
  {
    StartedValid(g);
    StartEdge();
    Corridor(g, 1);
    Corridor(g, 11);
    Corridor(g, 4);
    PlacementInRoom(g, 4);
    PlacementInRoom(g, 9);
    EngineeringUnplaced();
    NotPlaced(g, Placements[9].room, "Engineering");
    ChestWalkFrom(g);
  }

  /** The walk starts where the player starts. */
  lemma StartEdge()
    ensures Edges[1].from == "Bridge"
  {
  }
}
