/** The entity store: items, rooms and the game session. Rooms are identified by
    their unique name, so a room's connections are a set of room names and the
    current room is a name rather than a reference. Items are never changed
    after they are created, so the inventory holds copies of room items. */
module State {

  datatype Option<T> = None | Some(value: T)

  /** The four item types the game knows. */
  datatype Kind = Key | Chest | Flag | Normal

  /** `keyId` pairs a key with the chest it opens (0 for other items);
      `content` is the text inside a chest or written on a note. */
  datatype Item = Item(name: string, description: string, kind: Kind, keyId: int, content: string)

  datatype Room = Room(
    name: string,
    description: string,
    connections: set<string>,
    items: map<string, Item>,
    visited: bool)

  datatype Game = Game(current: string, inventory: map<string, Item>, rooms: map<string, Room>)

  /** Every item of the collection is stored under its own name. */
  predicate KeyedByName(items: map<string, Item>) {
    forall n :: n in items ==> items[n].name == n
  }

  /** What the object graph guarantees by construction: the current room and
      every connection refer to an existing room, every room is stored under its
      own name, and every item under its own name. */
  predicate Valid(g: Game) {
    && g.current in g.rooms
    && (forall n :: n in g.rooms ==> g.rooms[n].name == n)
    && (forall n, c :: n in g.rooms && c in g.rooms[n].connections ==> c in g.rooms)
    && (forall n :: n in g.rooms ==> KeyedByName(g.rooms[n].items))
    && KeyedByName(g.inventory)
  }

  function CurrentRoom(g: Game): Room
    requires Valid(g)
  {
    g.rooms[g.current]
  }

  /** Connections are symmetric: B is a neighbour of A exactly when A is a
      neighbour of B. */
  predicate Symmetric(rooms: map<string, Room>) {
    forall a, b :: a in rooms && b in rooms ==>
      (b in rooms[a].connections <==> a in rooms[b].connections)
  }

  /** The room graph of `h` is the one of `g`: same room names, same connections. */
  predicate SameGraph(g: Game, h: Game) {
    && g.rooms.Keys == h.rooms.Keys
    && forall n :: n in g.rooms ==> h.rooms[n].connections == g.rooms[n].connections
  }
}
