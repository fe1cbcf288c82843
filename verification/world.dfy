/** The world builder: the fixed ship of ten rooms, the fifteen corridors
    between them (each usable in both directions) and the placement of five
    keys, five chests, three notes and the flag. */
module World {
  import opened State

  datatype Edge = Edge(from: string, to: string)

  /** An item to be put into the named room. */
  datatype Placement = Placement(room: string, item: Item)

  const RoomNames: seq<string> := [
    "Bridge", "Engine Room", "Cargo Bay", "Medical Bay",
    "Armory", "Crew Quarters", "Storage", "Observatory",
    "Communications", "Airlock"]

  const Edges: seq<Edge> := [
    Edge("Bridge", "Communications"),
    Edge("Bridge", "Observatory"),
    Edge("Bridge", "Crew Quarters"),
    Edge("Engine Room", "Cargo Bay"),
    Edge("Engine Room", "Storage"),
    Edge("Cargo Bay", "Medical Bay"),
    Edge("Cargo Bay", "Armory"),
    Edge("Medical Bay", "Crew Quarters"),
    Edge("Armory", "Storage"),
    Edge("Armory", "Airlock"),
    Edge("Crew Quarters", "Communications"),
    Edge("Storage", "Observatory"),
    Edge("Observatory", "Communications"),
    Edge("Communications", "Airlock"),
    Edge("Airlock", "Cargo Bay")]

  /** The description of each room, as (room name, description) pairs. */
  const Descriptions: seq<(string, string)> := [
    ("Bridge", "The command center of the ship. Control panels flicker with emergency lighting."),
    ("Engine Room", "Massive reactors hum with residual energy. Pipes and conduits line the walls."),
    ("Cargo Bay", "Crates and containers are stacked haphazardly. The air smells of metal and oil."),
    ("Medical Bay", "Sterile environment with medical equipment. Emergency lights create eerie shadows."),
    ("Armory", "Weapon racks line the walls. Ammo containers are scattered about."),
    ("Crew Quarters", "Personal belongings float in zero gravity. Some signs of a struggle are evident."),
    ("Storage", "Various supplies and equipment are stored here. It's dimly lit and cluttered."),
    ("Observatory", "Large windows show the vastness of space. Star charts cover the walls."),
    ("Communications", "Radio equipment and long-range transmitters. Control panels show incoming signals."),
    ("Airlock", "The gateway to the void of space. Heavy doors with security protocols.")]

  /** The keys, each in its room, in creation order. */
  const KeyPlacements: seq<Placement> := [
    Placement("Engine Room", Item("Alpha Key", "A small key with an alpha symbol etched on it.", Key, 1, "")),
    Placement("Cargo Bay", Item("Beta Key", "A metallic key with a beta marking.", Key, 2, "")),
    Placement("Medical Bay", Item("Gamma Key", "A crystalline key pulsing with energy. Marked gamma.", Key, 3, "")),
    Placement("Armory", Item("Delta Key", "A heavy key with delta inscribed on its surface.", Key, 4, "")),
    Placement("Storage", Item("Epsilon Key", "A tiny key with epsilon written in alien script.", Key, 5, ""))]

  /** The chests, each in its room, in creation order. */
  const ChestPlacements: seq<Placement> := [
    Placement("Armory", Item("Armory Chest", "A heavily reinforced chest requiring a specific key.", Chest, 1, "Military-grade plasma rifle")),
    Placement("Storage", Item("Storage Chest", "A sealed container with an electronic lock.", Chest, 2, "Emergency beacon device")),
    Placement("Medical Bay", Item("Medical Chest", "A bio-secured container for medical supplies.", Chest, 3, "Antidote for alien pathogen")),
    Placement("Observatory", Item("Observatory Chest", "A crystalline container that resonates softly.", Chest, 4, "Ancient star map")),
    Placement("Engine Room", Item("Engineering Chest", "A heavy chest with multiple locking mechanisms.", Chest, 5, "Quantum fusion core"))]

  /** The notes, each in its room, in creation order. */
  const NotePlacements: seq<Placement> := [
    Placement("Engine Room", Item("Engine Log", "A partially damaged engineering log", Normal, 0,
      "Engine failure caused by quantum instability. Key system malfunctioning.")),
    Placement("Bridge", Item("Captain's Note", "Personal note from the captain", Normal, 0,
      "The flag is hidden in the room most connected to our journey.")),
    Placement("Observatory", Item("Scientist's Journal", "Research notes from the science team", Normal, 0,
      "Pattern analysis shows the observatory connects to everything."))]

  const FlagPlacement: Placement :=
    Placement("Communications", Item("Flag",
      "The escape flag! This marks your successful escape from the derelict ship.", Flag, 0, ""))

  const Placements: seq<Placement> := KeyPlacements + ChestPlacements + NotePlacements + [FlagPlacement]

  // ---------------------------------------------------------------- rooms

  /** The description paired with `name` in `table`; the empty string for a
      name the table does not know. */
  function Lookup(table: seq<(string, string)>, name: string): string {
    if table == [] then ""
    else if table[0].0 == name then table[0].1
    else Lookup(table[1..], name)
  }

  /** The description the table pairs with `name`, or the empty string for a
      name it does not list. */
  function RoomDescription(name: string): string {
    Lookup(Descriptions, name)
  }

  function NewRoom(name: string): (r: Room)
    ensures r.name == name && r.description == RoomDescription(name)
    ensures r.connections == {} && r.items == map[] && !r.visited
  {
    Room(name, RoomDescription(name), {}, map[], false)
  }

  /** Adds a fresh, unconnected, empty, unvisited room for each name. */
  function AddRooms(rooms: map<string, Room>, names: seq<string>): (r: map<string, Room>)
    ensures forall n :: n in r <==> n in rooms || n in names
    ensures forall n :: n in names ==> r[n] == NewRoom(n)
    ensures forall n :: n in rooms && n !in names ==> r[n] == rooms[n]
    decreases |names|
  {
    if names == [] then rooms
    else AddRooms(rooms[names[0] := NewRoom(names[0])], names[1..])
  }

  predicate EndpointsIn(edges: seq<Edge>, rooms: map<string, Room>) {
    forall i :: 0 <= i < |edges| ==> edges[i].from in rooms && edges[i].to in rooms
  }

  /** Connects `e.from` to `e.to` and then `e.to` to `e.from`. */
  function AddEdge(rooms: map<string, Room>, e: Edge): (r: map<string, Room>)
    requires e.from in rooms && e.to in rooms
    ensures r.Keys == rooms.Keys
    ensures forall n :: n in rooms ==>
      r[n] == rooms[n].(connections := rooms[n].connections + Neighbours([e], n))
  {
    NeighboursOfOne(e);
    var a := rooms[e.from];
    var rooms1 := rooms[e.from := a.(connections := a.connections + {e.to})];
    var b := rooms1[e.to];
    rooms1[e.to := b.(connections := b.connections + {e.from})]
  }

  /** Adds every corridor of `edges` in both directions. Connecting only ever
      adds connections; `ConnectAddsNeighbours` says exactly which. */
  function Connect(rooms: map<string, Room>, edges: seq<Edge>): (r: map<string, Room>)
    requires EndpointsIn(edges, rooms)
    ensures r.Keys == rooms.Keys
    ensures forall n :: n in rooms ==>
      r[n] == rooms[n].(connections := r[n].connections) && rooms[n].connections <= r[n].connections
  {
    if edges == [] then rooms
    else Connect(AddEdge(rooms, edges[0]), edges[1..])
  }

  /** The rooms an edge list joins to `a`, in either direction. */
  function Neighbours(edges: seq<Edge>, a: string): set<string> {
    (set i | 0 <= i < |edges| && edges[i].from == a :: edges[i].to)
    + (set i | 0 <= i < |edges| && edges[i].to == a :: edges[i].from)
  }

  predicate EdgesWithin(edges: seq<Edge>, names: seq<string>) {
    forall i :: 0 <= i < |edges| ==> edges[i].from in names && edges[i].to in names
  }

  /** A fresh room for each name, then every edge in both directions. */
  function CreateRooms(rooms: map<string, Room>, names: seq<string>, edges: seq<Edge>): (r: map<string, Room>)
    requires EdgesWithin(edges, names)
    ensures forall n :: n in r <==> n in rooms || n in names
    ensures forall n :: n in names ==>
      r[n].name == n && r[n].description == RoomDescription(n) && r[n].items == map[] && !r[n].visited
  {
    Connect(AddRooms(rooms, names), edges)
  }

  // ---------------------------------------------------------------- items

  /** The items a placement list puts into room `room`, later placements of
      the same name replacing earlier ones. */
  function ItemsAt(ps: seq<Placement>, room: string): map<string, Item> {
    if ps == [] then map[]
    else
      Placed(ps[0], room) + ItemsAt(ps[1..], room)
  }

  predicate PlacedIn(ps: seq<Placement>, rooms: map<string, Room>) {
    forall i :: 0 <= i < |ps| ==> ps[i].room in rooms
  }

  /** The items a single placement puts into room `room`. */
  function Placed(p: Placement, room: string): map<string, Item> {
    if p.room == room then map[p.item.name := p.item] else map[]
  }

  /** Puts `p.item` into room `p.room` under the item's name. */
  function PlaceItem(rooms: map<string, Room>, p: Placement): (r: map<string, Room>)
    requires p.room in rooms
    ensures r.Keys == rooms.Keys
    ensures forall n :: n in rooms ==> r[n] == rooms[n].(items := rooms[n].items + Placed(p, n))
  {
    var room := rooms[p.room];
    rooms[p.room := room.(items := room.items[p.item.name := p.item])]
  }

  /** Places every item of `ps` in turn. Placing only ever adds items;
      `PlaceItemsAdds` says exactly which. */
  function PlaceItems(rooms: map<string, Room>, ps: seq<Placement>): (r: map<string, Room>)
    requires PlacedIn(ps, rooms)
    ensures r.Keys == rooms.Keys
    ensures forall n :: n in rooms ==>
      r[n] == rooms[n].(items := r[n].items) && rooms[n].items.Keys <= r[n].items.Keys
  {
    if ps == [] then rooms
    else PlaceItems(PlaceItem(rooms, ps[0]), ps[1..])
  }

  // ---------------------------------------------------------------- game

  /** A session before initialisation: no rooms, an empty inventory and no
      current room (no room has the empty name). */
  function NewGame(): (g: Game)
    ensures g.rooms == map[] && g.inventory == map[]
    ensures !Valid(g)
  {
    Game("", map[], map[])
  }

  /** Fills `g` with the ship's rooms, corridors and items and puts the
      player on the Bridge. */
  function Initialize(g: Game): Game {
    EdgesJoinListedRooms();
    var rooms := CreateRooms(g.rooms, RoomNames, Edges);
    PlacementsInListedRooms();
    Game("Bridge", g.inventory, PlaceItems(rooms, Placements))
  }

  function InitialGame(): Game {
    Initialize(NewGame())
  }

  // ---------------------------------------------------------------- tables

  /** Every corridor joins two of the ten listed rooms. */
  lemma EdgesJoinListedRooms()
    ensures EdgesWithin(Edges, RoomNames)
  {
  }

  /** Every item goes into one of the ten listed rooms. */
  lemma PlacementsInListedRooms()
    ensures forall i :: 0 <= i < |Placements| ==> Placements[i].room in RoomNames
  {
  }

  // ---------------------------------------------------------------- builder lemmas

  lemma NeighboursOfOne(e: Edge)
    ensures forall n :: (Neighbours([e], n)
      == (if e.from == n then {e.to} else {}) + (if e.to == n then {e.from} else {}))
  {
    forall n ensures Neighbours([e], n) ==
      (if e.from == n then {e.to} else {}) + (if e.to == n then {e.from} else {})
    {
      assert [e][0] == e;
    }
  }

  lemma NeighboursSymmetric(edges: seq<Edge>, a: string, b: string)
    ensures b in Neighbours(edges, a) <==> a in Neighbours(edges, b)
  {
    if b in Neighbours(edges, a) {
      var i :| 0 <= i < |edges| && ((edges[i].from == a && edges[i].to == b) || (edges[i].to == a && edges[i].from == b));
      if edges[i].from == a { assert a == edges[i].from; } else { assert a == edges[i].to; }
    }
    if a in Neighbours(edges, b) {
      var i :| 0 <= i < |edges| && ((edges[i].from == b && edges[i].to == a) || (edges[i].to == b && edges[i].from == a));
      if edges[i].from == b { assert b == edges[i].from; } else { assert b == edges[i].to; }
    }
  }

  /** Splits the neighbours contributed by the first edge off the rest. */
  lemma NeighboursCons(edges: seq<Edge>, a: string)
    requires |edges| > 0
    ensures Neighbours(edges, a) == Neighbours([edges[0]], a) + Neighbours(edges[1..], a)
  {
    var whole := Neighbours(edges, a);
    var split := Neighbours([edges[0]], a) + Neighbours(edges[1..], a);
    forall b | b in whole ensures b in split {
      var i :| 0 <= i < |edges| && ((edges[i].from == a && edges[i].to == b) || (edges[i].to == a && edges[i].from == b));
      if i == 0 {
        assert [edges[0]][0] == edges[0];
      } else {
        assert edges[1..][i - 1] == edges[i];
      }
    }
    forall b | b in split ensures b in whole {
      if b in Neighbours([edges[0]], a) {
        assert [edges[0]][0] == edges[0];
      } else {
        var i :| 0 <= i < |edges[1..]| && ((edges[1..][i].from == a && edges[1..][i].to == b) || (edges[1..][i].to == a && edges[1..][i].from == b));
        assert edges[1..][i] == edges[i + 1];
      }
    }
  }

  /** Connecting along an edge list gives every room exactly the neighbours
      the list names for it, in addition to the connections it had. */
  lemma {:induction false} ConnectAddsNeighbours(rooms: map<string, Room>, edges: seq<Edge>)
    requires EndpointsIn(edges, rooms)
    ensures forall n :: n in rooms ==>
      Connect(rooms, edges)[n] == rooms[n].(connections := rooms[n].connections + Neighbours(edges, n))
    decreases |edges|
  {
    if edges == [] {
      forall n | n in rooms ensures Neighbours(edges, n) == {} { }
    } else {
      var r1 := AddEdge(rooms, edges[0]);
      assert EndpointsIn(edges[1..], r1) by {
        forall i | 0 <= i < |edges[1..]| ensures edges[1..][i].from in r1 && edges[1..][i].to in r1 {
          assert edges[1..][i] == edges[i + 1];
        }
      }
      ConnectAddsNeighbours(r1, edges[1..]);
      forall n | n in rooms
        ensures Connect(rooms, edges)[n] == rooms[n].(connections := rooms[n].connections + Neighbours(edges, n))
      {
        NeighboursCons(edges, n);
      }
    }
  }

  /** Every key of `ItemsAt` comes from a placement into that room of an item
      with that name, and maps to that item. */
  lemma {:induction false} ItemsAtFrom(ps: seq<Placement>, room: string)
    ensures forall n :: n in ItemsAt(ps, room) ==>
      exists i :: 0 <= i < |ps| && ps[i].room == room && ps[i].item.name == n && ps[i].item == ItemsAt(ps, room)[n]
    decreases |ps|
  {
    if ps != [] {
      ItemsAtFrom(ps[1..], room);
      var tail := ItemsAt(ps[1..], room);
      forall n | n in ItemsAt(ps, room)
        ensures exists i :: 0 <= i < |ps| && ps[i].room == room && ps[i].item.name == n && ps[i].item == ItemsAt(ps, room)[n]
      {
        if n in tail {
          var j :| 0 <= j < |ps[1..]| && ps[1..][j].room == room && ps[1..][j].item.name == n && ps[1..][j].item == tail[n];
          assert ps[j + 1] == ps[1..][j];
        } else {
          assert ps[0].room == room && ps[0].item.name == n;
        }
      }
    }
  }

  /** A placement that no later placement overrides is found in its room. */
  lemma {:induction false} ItemsAtHas(ps: seq<Placement>, i: nat)
    requires i < |ps|
    requires forall j :: i < j < |ps| ==> ps[j].item.name != ps[i].item.name
    ensures ps[i].item.name in ItemsAt(ps, ps[i].room)
    ensures ItemsAt(ps, ps[i].room)[ps[i].item.name] == ps[i].item
    decreases i
  {
    var p := ps[i];
    var tail := ItemsAt(ps[1..], p.room);
    if i == 0 {
      ItemsAtFrom(ps[1..], p.room);
      forall j | 0 <= j < |ps[1..]| ensures ps[1..][j].item.name != p.item.name {
        assert ps[1..][j] == ps[j + 1];
      }
      assert p.item.name !in tail;
    } else {
      assert ps[1..][i - 1] == p;
      forall j | i - 1 < j < |ps[1..]| ensures ps[1..][j].item.name != ps[1..][i - 1].item.name {
        assert ps[1..][j] == ps[j + 1];
      }
      ItemsAtHas(ps[1..], i - 1);
    }
  }

  /** `Lookup` finds a name exactly when the table pairs it with something,
      provided the table pairs no name with the empty string. */
  lemma {:induction false} LookupFinds(table: seq<(string, string)>, name: string)
    requires forall i :: 0 <= i < |table| ==> table[i].1 != ""
    ensures Lookup(table, name) != "" <==> exists i :: 0 <= i < |table| && table[i].0 == name
    decreases |table|
  {
    if table != [] {
      LookupFinds(table[1..], name);
      if table[0].0 != name {
        if exists i :: 0 <= i < |table| && table[i].0 == name {
          var i :| 0 <= i < |table| && table[i].0 == name;
          assert table[1..][i - 1] == table[i];
        }
        if exists i :: 0 <= i < |table[1..]| && table[1..][i].0 == name {
          var i :| 0 <= i < |table[1..]| && table[1..][i].0 == name;
          assert table[i + 1] == table[1..][i];
        }
      }
    }
  }

  lemma UnionAssociative<K, V>(a: map<K, V>, b: map<K, V>, c: map<K, V>)
    ensures a + b + c == a + (b + c)
  {
  }

  /** Placing items adds to every room exactly the items the placement list
      names for it. */
  lemma {:induction false} PlaceItemsAdds(rooms: map<string, Room>, ps: seq<Placement>)
    requires PlacedIn(ps, rooms)
    ensures forall n :: n in rooms ==>
      PlaceItems(rooms, ps)[n] == rooms[n].(items := rooms[n].items + ItemsAt(ps, n))
    decreases |ps|
  {
    if ps == [] {
      forall n | n in rooms ensures rooms[n].items + ItemsAt(ps, n) == rooms[n].items { }
    } else {
      var r1 := PlaceItem(rooms, ps[0]);
      assert PlacedIn(ps[1..], r1) by {
        forall i | 0 <= i < |ps[1..]| ensures ps[1..][i].room in r1 {
          assert ps[1..][i] == ps[i + 1];
        }
      }
      PlaceItemsAdds(r1, ps[1..]);
      forall n | n in rooms
        ensures PlaceItems(rooms, ps)[n] == rooms[n].(items := rooms[n].items + ItemsAt(ps, n))
      {
        UnionAssociative(rooms[n].items, Placed(ps[0], n), ItemsAt(ps[1..], n));
      }
    }
  }

  /** Creating rooms from nothing: exactly the named rooms, each the fresh
      room of its name joined to exactly the rooms the edge list names for it. */
  lemma CreatedRooms(names: seq<string>, edges: seq<Edge>)
    requires EdgesWithin(edges, names)
    ensures forall n :: n in CreateRooms(map[], names, edges) <==> n in names
    ensures forall n :: n in CreateRooms(map[], names, edges) ==>
      CreateRooms(map[], names, edges)[n] == Room(n, RoomDescription(n), Neighbours(edges, n), map[], false)
  {
    var blank := AddRooms(map[], names);
    ConnectAddsNeighbours(blank, edges);
  }

  /** Building rooms from nothing yields exactly the named rooms, and every
      placement lands in one of them. */
  lemma BuiltRoomNames(names: seq<string>, edges: seq<Edge>, ps: seq<Placement>)
    requires EdgesWithin(edges, names)
    requires forall i :: 0 <= i < |ps| ==> ps[i].room in names
    ensures PlacedIn(ps, CreateRooms(map[], names, edges))
    ensures forall n :: n in PlaceItems(CreateRooms(map[], names, edges), ps) <==> n in names
  {
    CreatedRooms(names, edges);
  }

  /** Building rooms from nothing: every named room is the fresh room of its
      name, joined to exactly the rooms the edge list names for it and holding
      exactly the items placed in it. */
  lemma BuiltRooms(names: seq<string>, edges: seq<Edge>, ps: seq<Placement>)
    requires EdgesWithin(edges, names)
    requires forall i :: 0 <= i < |ps| ==> ps[i].room in names
    ensures PlacedIn(ps, CreateRooms(map[], names, edges))
    ensures forall n :: n in PlaceItems(CreateRooms(map[], names, edges), ps) ==>
      PlaceItems(CreateRooms(map[], names, edges), ps)[n]
        == Room(n, RoomDescription(n), Neighbours(edges, n), ItemsAt(ps, n), false)
  {
    BuiltRoomNames(names, edges, ps);
    CreatedRooms(names, edges);
    var connected := CreateRooms(map[], names, edges);
    PlaceItemsAdds(connected, ps);
  }
}
