/** Rooms, the nodes of the world graph (Objects/Rooms/room.py), with the
    compass directions and their opposite and unit-vector tables.
    Objects/room.py is an older copy of the same definitions (without the
    present-player list) and is covered by the same members. */
module Rooms {
  import opened Common
  import opened Characters
  import GameObjects

  datatype Direction = North | NorthEast | East | SouthEast | South | SouthWest | West | NorthWest

  /** `OPPOSITE`: the 180-degree opposite of each direction. */
  function Opposite(d: Direction): Direction {
    match d
    case North => South
    case NorthEast => SouthWest
    case East => West
    case SouthEast => NorthWest
    case South => North
    case SouthWest => NorthEast
    case West => East
    case NorthWest => SouthEast
  }

  /** `DIR_VECTOR`: +x is east, +y is south (screen convention). */
  function DirVector(d: Direction): (int, int) {
    match d
    case North => (0, -1)
    case NorthEast => (1, -1)
    case East => (1, 0)
    case SouthEast => (1, 1)
    case South => (0, 1)
    case SouthWest => (-1, 1)
    case West => (-1, 0)
    case NorthWest => (-1, -1)
  }

  /** `d.name.lower().replace("_", " ")`, as used in messages and in the
      movement shortcuts. */
  function DirectionKey(d: Direction): string {
    match d
    case North => "north"
    case NorthEast => "north east"
    case East => "east"
    case SouthEast => "south east"
    case South => "south"
    case SouthWest => "south west"
    case West => "west"
    case NorthWest => "north west"
  }

  /** OPPOSITE is an involution without fixed points. */
  lemma OppositeInvolution(d: Direction)
    ensures Opposite(Opposite(d)) == d
    ensures Opposite(d) != d
  {
  }

  /** The vector of the opposite direction is the negated vector, and every
      vector is a non-zero step of at most one cell on each axis. */
  lemma DirVectorOpposite(d: Direction)
    ensures DirVector(Opposite(d)).0 == -DirVector(d).0
    ensures DirVector(Opposite(d)).1 == -DirVector(d).1
    ensures -1 <= DirVector(d).0 <= 1 && -1 <= DirVector(d).1 <= 1
    ensures DirVector(d) != (0, 0)
  {
  }

  /** Distinct directions have distinct vectors. */
  lemma DirVectorInjective(d: Direction, e: Direction)
    ensures DirVector(d) == DirVector(e) ==> d == e
  {
  }

  /** A Python dict of exits: the keys of `connected` listed once each, in
      insertion order. */
  ghost predicate ExitsValid(connected: map<Direction, Room>, order: seq<Direction>) {
    && (forall i, j :: 0 <= i < j < |order| ==> order[i] != order[j])
    && (forall d :: d in connected <==> d in order)
  }

  datatype ConnectError = ForwardOccupied | ReverseOccupied

  class Room {
    const uid: Uid
    const name: string
    var description: Option<Description>
    var connected: map<Direction, Room>
    var exitOrder: seq<Direction>
    var presentItems: seq<Item>
    var presentCharacters: seq<Character>
    var presentPlayers: seq<Character>

    ghost predicate Valid()
      reads this
    {
      ExitsValid(connected, exitOrder)
    }

    constructor (gen: GameObjects.UidGenerator, name: string)
      requires gen.Valid()
      modifies gen
      ensures gen.Valid() && uid !in old(gen.issued) && gen.issued == old(gen.issued) + {uid}
      ensures Valid() && this.name == name && description == None
      ensures connected == map[] && exitOrder == []
      ensures presentItems == [] && presentCharacters == [] && presentPlayers == []
    {
      var u := gen.Fresh();
      uid := u;
      this.name := name;
      description := None;
      connected := map[];
      exitOrder := [];
      presentItems := [];
      presentCharacters := [];
      presentPlayers := [];
    }

    /** `add_connection`: link `this` to `room` in direction `d` and `room`
        back to `this` in the opposite direction.  An occupied slot on
        either side is an error (ValueError) and nothing is written. */
    method AddConnection(room: Room, d: Direction) returns (err: Option<ConnectError>)
      requires Valid() && room.Valid()
      modifies this`connected, this`exitOrder, room`connected, room`exitOrder
      ensures Valid() && room.Valid()
      ensures err == Some(ForwardOccupied) <==> d in old(connected)
      ensures err == Some(ReverseOccupied) <==> d !in old(connected) && Opposite(d) in old(room.connected)
      ensures err.Some? ==> connected == old(connected) && room.connected == old(room.connected)
      ensures err.Some? ==> exitOrder == old(exitOrder) && room.exitOrder == old(room.exitOrder)
      ensures err.None? && room != this ==>
        && connected == old(connected)[d := room]
        && room.connected == old(room.connected)[Opposite(d) := this]
        && exitOrder == old(exitOrder) + [d]
        && room.exitOrder == old(room.exitOrder) + [Opposite(d)]
      ensures err.None? && room == this ==>
        && connected == old(connected)[d := this][Opposite(d) := this]
        && exitOrder == old(exitOrder) + [d, Opposite(d)]
    {
      var opposite := Opposite(d);
      if d in connected {
        return Some(ForwardOccupied);
      }
      if opposite in room.connected {
        return Some(ReverseOccupied);
      }
      connected := connected[d := room];
      exitOrder := exitOrder + [d];
      room.connected := room.connected[opposite := this];
      room.exitOrder := room.exitOrder + [opposite];
      err := None;
    }

    /** `add_item`: append, keeping existing entries. */
    method AddItem(item: Item)
      modifies this`presentItems
      ensures presentItems == old(presentItems) + [item]
    {
      presentItems := presentItems + [item];
    }

    /** `add_character`: append, keeping existing entries. */
    method AddCharacter(c: Character)
      modifies this`presentCharacters
      ensures presentCharacters == old(presentCharacters) + [c]
    {
      presentCharacters := presentCharacters + [c];
    }
  }

  /** Every exit inside `rooms` has its reverse exit: the graph invariant
      that `add_connection` exists to keep. */
  ghost predicate Symmetric(rooms: set<Room>)
    reads rooms
  {
    forall r, d :: r in rooms && d in r.connected && r.connected[d] in rooms ==>
      Opposite(d) in r.connected[d].connected && r.connected[d].connected[Opposite(d)] == r
  }

  /** Connecting two rooms of a symmetric graph keeps it symmetric, whether
      the call succeeds or is refused. */
  method ConnectKeepsSymmetry(world: set<Room>, a: Room, b: Room, d: Direction) returns (err: Option<ConnectError>)
    requires a in world && b in world && a.Valid() && b.Valid()
    requires Symmetric(world)
    modifies a`connected, a`exitOrder, b`connected, b`exitOrder
    ensures Symmetric(world)
    ensures err.None? ==> d in a.connected && a.connected[d] == b
  {
    err := a.AddConnection(b, d);
    OppositeInvolution(d);
    forall r, e | r in world && e in r.connected && r.connected[e] in world
      ensures Opposite(e) in r.connected[e].connected && r.connected[e].connected[Opposite(e)] == r
    {
      OppositeInvolution(e);
      if e in old(r.connected) {
        // an old exit: neither end has lost or overwritten a slot
        var s := old(r.connected[e]);
        assert r.connected[e] == s;
        assert Opposite(e) in old(s.connected) && old(s.connected[Opposite(e)]) == r;
      } else {
        // one of the two exits written by this call
        assert err.None? && (r == a || r == b);
      }
    }
  }
}
