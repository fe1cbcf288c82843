/** Facts about the world right after initialisation: where the player starts,
    the shape of the room graph, and how the items are laid out. */
module InitialWorld {
  import opened State
  import opened World

  /** The rooms as the builder produces them: exactly the ten listed rooms,
      each unvisited, carrying its own description, joined to the rooms the
      corridor list names for it and holding the items placed in it. */
  ghost predicate Built(rooms: map<string, Room>) {
    && (forall n :: n in rooms <==> n in RoomNames)
    && (forall n :: n in rooms ==>
          rooms[n] == Room(n, RoomDescription(n), Neighbours(Edges, n), ItemsAt(Placements, n), false))
  }

  /** The same ship described by what a player can observe: the ten listed
      rooms under their names with their descriptions and corridors, none
      visited, every placed item in its room under its name, and no other
      item anywhere. */
  ghost predicate ShipRooms(rooms: map<string, Room>) {
    && (forall n :: n in rooms <==> n in RoomNames)
    && (forall n :: n in rooms ==>
          && rooms[n].name == n && rooms[n].description == RoomDescription(n)
          && rooms[n].connections == Neighbours(Edges, n) && !rooms[n].visited)
    && (forall i :: 0 <= i < |Placements| ==>
          && Placements[i].room in rooms
          && Placements[i].item.name in rooms[Placements[i].room].items
          && rooms[Placements[i].room].items[Placements[i].item.name] == Placements[i].item)
    && (forall r, n :: r in rooms && n in rooms[r].items ==>
          exists i :: 0 <= i < |Placements| && Placements[i].room == r && Placements[i].item.name == n
            && Placements[i].item == rooms[r].items[n])
  }

  /** A session as initialisation leaves it: on the Bridge, empty-handed,
      in the freshly built ship. */
  ghost predicate Started(g: Game) {
    && g.current == "Bridge"
    && g.inventory == map[]
    && ShipRooms(g.rooms)
  }

  /** The item stored under `name` in room `room` has the given type and key
      identifier. */
  predicate HasItem(g: Game, room: string, name: string, kind: Kind, id: int) {
    && room in g.rooms && name in g.rooms[room].items
    && g.rooms[room].items[name].kind == kind && g.rooms[room].items[name].keyId == id
  }

  /** Some item of the given type carries identifier `id`. */
  ghost predicate IdUsed(g: Game, kind: Kind, id: int) {
    exists r, n :: HasItem(g, r, n, kind, id)
  }

  // ---------------------------------------------------------------- tables

  /** The Bridge's corridors lead to Communications, the Observatory and the
      Crew Quarters, and nowhere else. */
  lemma BridgeCorridors()
    ensures Neighbours(Edges, "Bridge") == {"Communications", "Observatory", "Crew Quarters"}
  {
    assert Edges[0].to in Neighbours(Edges, "Bridge");
    assert Edges[1].to in Neighbours(Edges, "Bridge");
    assert Edges[2].to in Neighbours(Edges, "Bridge");
  }

  /** No item name is placed twice. */
  lemma PlacementNamesDistinct()
    ensures forall i, j :: 0 <= i < j < |Placements| ==> Placements[i].item.name != Placements[j].item.name
  {
  }

  /** The key and chest tables: keys come first with identifiers 1 to 5, then
      chests with identifiers 1 to 5, then items that are neither. */
  lemma PlacementKinds()
    ensures forall i :: 0 <= i < 5 ==> Placements[i].item.kind == Key && Placements[i].item.keyId == i + 1
    ensures forall i :: 5 <= i < 10 ==> Placements[i].item.kind == Chest && Placements[i].item.keyId == i - 4
    ensures forall i :: 10 <= i < |Placements| ==> Placements[i].item.kind != Key && Placements[i].item.kind != Chest
    ensures |Placements| == 14
  {
  }

  /** Every chest name has two words. */
  lemma ChestNamesSpaced()
    ensures forall i :: 5 <= i < 10 ==> ' ' in Placements[i].item.name
  {
    assert Placements[5].item.name[6] == ' ';
    assert Placements[6].item.name[7] == ' ';
    assert Placements[7].item.name[7] == ' ';
    assert Placements[8].item.name[11] == ' ';
    assert Placements[9].item.name[11] == ' ';
  }

  /** The flag is the last placement and the only one of its type. */
  lemma PlacementFlag()
    ensures Placements[13] == FlagPlacement
    ensures forall i :: 0 <= i < |Placements| && Placements[i].item.kind == Flag ==> i == 13
  {
  }

  /** A room has a description exactly when it is one of the ten listed
      rooms; any other name gets the empty string. */
  lemma DescriptionsCoverListedRooms()
    ensures forall n :: RoomDescription(n) != "" <==> n in RoomNames
  {
    assert forall i :: 0 <= i < |Descriptions| ==> Descriptions[i].1 != "" && Descriptions[i].0 == RoomNames[i];
    assert |Descriptions| == |RoomNames|;
    forall n ensures RoomDescription(n) != "" <==> n in RoomNames {
      LookupFinds(Descriptions, n);
    }
  }

  // ---------------------------------------------------------------- initialisation

  /** Initialisation runs the builder on the ship's tables, puts the player
      on the Bridge and leaves the inventory empty. */
  lemma InitialBuilt()
    ensures InitialGame().current == "Bridge" && InitialGame().inventory == map[]
    ensures Built(InitialGame().rooms)
  {
    EdgesJoinListedRooms();
    PlacementsInListedRooms();
    BuiltRoomNames(RoomNames, Edges, Placements);
    BuiltRooms(RoomNames, Edges, Placements);
  }

  /** The built rooms hold every placed item under its name, and nothing
      else. */
  lemma BuiltLayout(rooms: map<string, Room>)
    requires Built(rooms)
    ensures ShipRooms(rooms)
  {
    PlacementsInListedRooms();
    PlacementNamesDistinct();
    forall i | 0 <= i < |Placements|
      ensures Placements[i].item.name in ItemsAt(Placements, Placements[i].room)
      ensures ItemsAt(Placements, Placements[i].room)[Placements[i].item.name] == Placements[i].item
    {
      ItemsAtHas(Placements, i);
    }
    forall r | r in rooms {
      ItemsAtFrom(Placements, r);
    }
  }

  /** Initialisation leaves the session in the started state. */
  lemma InitialStarted()
    ensures Started(InitialGame())
  {
    InitialBuilt();
    BuiltLayout(InitialGame().rooms);
  }

  /** No room has been visited yet, and the starting room exists. */
  lemma StartedUnvisited(g: Game)
    requires Started(g)
    ensures g.current in g.rooms
    ensures forall n :: n in g.rooms ==> !g.rooms[n].visited
  {
  }

  /** Every corridor leads to one of the ten listed rooms. */
  lemma StartedConnectionsListed(g: Game)
    requires Started(g)
    ensures forall a, b :: a in g.rooms && b in g.rooms[a].connections ==> b in g.rooms
  {
    EdgesJoinListedRooms();
  }

  /** The freshly built ship satisfies the invariant the commands rely on. */
  lemma StartedValid(g: Game)
    requires Started(g)
    ensures Valid(g)
  {
    StartedConnectionsListed(g);
  }

  /** Corridors work both ways: B is a neighbour of A exactly when A is a
      neighbour of B. */
  lemma StartedSymmetric(g: Game)
    requires Started(g)
    ensures Symmetric(g.rooms)
  {
    forall a, b | a in g.rooms && b in g.rooms
      ensures b in g.rooms[a].connections <==> a in g.rooms[b].connections
    {
      NeighboursSymmetric(Edges, a, b);
    }
  }

  /** The initial session is valid and its corridors are symmetric. */
  lemma InitialValid()
    ensures Valid(InitialGame())
    ensures Symmetric(InitialGame().rooms)
  {
    InitialStarted();
    StartedValid(InitialGame());
    StartedSymmetric(InitialGame());
  }

  /** From the Bridge one reaches Communications, the Observatory and the
      Crew Quarters; in particular the Engine Room is not next to it. */
  lemma BridgeNeighbours(g: Game)
    requires Started(g)
    ensures g.rooms[g.current].connections == {"Communications", "Observatory", "Crew Quarters"}
    ensures "Engine Room" in g.rooms && "Engine Room" !in g.rooms[g.current].connections
  {
    BridgeCorridors();
    assert "Bridge" in RoomNames && "Engine Room" in RoomNames;
    var here := g.rooms[g.current];
    assert here.connections == Neighbours(Edges, "Bridge");
  }

  /** Every key and every chest of the freshly built ship carries an
      identifier from 1 to 5, and each of those identifiers is carried by
      some key and by some chest. */
  lemma KeyIdsUsed(g: Game)
    requires Started(g)
    ensures forall r, n, id :: HasItem(g, r, n, Key, id) ==> 1 <= id <= 5
    ensures forall r, n, id :: HasItem(g, r, n, Chest, id) ==> 1 <= id <= 5
    ensures forall id :: 1 <= id <= 5 ==> IdUsed(g, Key, id)
    ensures forall id :: 1 <= id <= 5 ==> IdUsed(g, Chest, id)
  {
    PlacementKinds();
    forall id | 1 <= id <= 5 ensures IdUsed(g, Key, id) {
      var p := Placements[id - 1];
      assert HasItem(g, p.room, p.item.name, Key, id);
    }
    forall id | 1 <= id <= 5 ensures IdUsed(g, Chest, id) {
      var p := Placements[id + 4];
      assert HasItem(g, p.room, p.item.name, Chest, id);
    }
  }

  /** No two keys, and no two chests, share an identifier: together with
      `KeyIdsUsed`, every chest of the ship is opened by exactly one key. */
  lemma KeyIdsUnique(g: Game)
    requires Started(g)
    ensures forall r1, n1, r2, n2, id ::
      HasItem(g, r1, n1, Key, id) && HasItem(g, r2, n2, Key, id) ==> r1 == r2 && n1 == n2
    ensures forall r1, n1, r2, n2, id ::
      HasItem(g, r1, n1, Chest, id) && HasItem(g, r2, n2, Chest, id) ==> r1 == r2 && n1 == n2
  {
    PlacementKinds();
    forall r1, n1, r2, n2, id, kind | kind in {Key, Chest} && HasItem(g, r1, n1, kind, id) && HasItem(g, r2, n2, kind, id)
      ensures r1 == r2 && n1 == n2
    {
      var i1 :| 0 <= i1 < |Placements| && Placements[i1].room == r1 && Placements[i1].item.name == n1
        && Placements[i1].item == g.rooms[r1].items[n1];
      var i2 :| 0 <= i2 < |Placements| && Placements[i2].room == r2 && Placements[i2].item.name == n2
        && Placements[i2].item == g.rooms[r2].items[n2];
      assert i1 == i2;
    }
  }

  /** The only flag of the ship is the item "Flag" in Communications. */
  lemma SingleFlag(g: Game)
    requires Started(g)
    ensures HasItem(g, "Communications", "Flag", Flag, 0)
    ensures forall r, n, id :: HasItem(g, r, n, Flag, id) ==> r == "Communications" && n == "Flag"
  {
    PlacementFlag();
  }
}
