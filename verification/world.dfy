/** The shared world state (server/world_manager.py): the room registry, the
    session of every connected player, per-room presence lists and
    room-scoped broadcasts.  A session's event callback is modelled by
    appending a `Notice` to `outbox`; the database save hook by appending a
    `SaveRecord` to `saved`. */
module World {
  import opened Common
  import opened Characters
  import opened Rooms

  /** `GameSession` without its callback (the callback is `outbox`). */
  datatype Session = Session(characterId: CharId, player: Character, room: Room)

  /** One call of a session's event callback. */
  datatype Notice = Notice(recipient: CharId, message: string)

  /** One call of `save_character(character_id, hp, stamina)`. */
  datatype SaveRecord = SaveRecord(characterId: CharId, hp: int, stamina: int)

  /** Result of `pickup_item`: False, True, or the KeyError raised when the
      picker has no session (after the item was already taken off the floor). */
  datatype PickupOutcome = NotInRoom | PickedUp | NoSession

  /** The message texts of the registry. */
  function EnteredMessage(name: string): string { "[dim]" + name + " has entered the world.[/dim]" }
  function LeftWorldMessage(name: string): string { "[dim]" + name + " has left the world.[/dim]" }
  function LeftMessage(name: string): string { "[dim]" + name + " has left.[/dim]" }
  function ArrivedMessage(name: string): string { "[dim]" + name + " has arrived.[/dim]" }
  function PicksUpMessage(name: string, item: string): string { "[dim]" + name + " picks up " + item + ".[/dim]" }
  function DropsMessage(name: string, item: string): string { "[dim]" + name + " drops " + item + ".[/dim]" }

  /** The session `s` hears a broadcast to `room` that excludes `exclude`. */
  predicate Receives(s: Session, room: Room, exclude: Option<CharId>) {
    s.room == room && Some(s.characterId) != exclude
  }

  /** The callbacks `broadcast_to_room` makes, in session insertion order. */
  function RoomNotices(order: seq<CharId>, sessions: map<CharId, Session>, room: Room,
                       exclude: Option<CharId>, message: string): seq<Notice>
    requires forall i :: 0 <= i < |order| ==> order[i] in sessions
  {
    if order == [] then []
    else
      var last := order[|order| - 1];
      var rest := RoomNotices(order[..|order| - 1], sessions, room, exclude, message);
      if Receives(sessions[last], room, exclude) then rest + [Notice(last, message)] else rest
  }

  /** A broadcast reaches exactly the sessions in `room` other than the
      excluded one, each once, all with the same message. */
  lemma {:induction false} RoomNoticesExact(order: seq<CharId>, sessions: map<CharId, Session>, room: Room,
                                            exclude: Option<CharId>, message: string)
    requires forall i :: 0 <= i < |order| ==> order[i] in sessions
    requires forall i, j :: 0 <= i < j < |order| ==> order[i] != order[j]
    ensures var ns := RoomNotices(order, sessions, room, exclude, message);
      && |ns| <= |order|
      && (forall k :: 0 <= k < |ns| ==> ns[k].message == message)
      && (forall id :: Notice(id, message) in ns <==> id in order && Receives(sessions[id], room, exclude))
      && (forall k, l :: 0 <= k < l < |ns| ==> ns[k].recipient != ns[l].recipient)
  {
    if order != [] {
      var init := order[..|order| - 1];
      var last := order[|order| - 1];
      RoomNoticesExact(init, sessions, room, exclude, message);
      var rest := RoomNotices(init, sessions, room, exclude, message);
      assert last !in init;
      forall id
        ensures id in order <==> id in init || id == last
      {
        assert order == init + [last];
      }
      forall k | 0 <= k < |rest|
        ensures rest[k].recipient in init
      {
        assert Notice(rest[k].recipient, message) in rest;
      }
    }
  }

  /** The session dict: its insertion order lists every key once, and each
      session is filed under its own character id. */
  ghost predicate SessionsValid(order: seq<CharId>, sessions: map<CharId, Session>) {
    && DictOrder(order, sessions)
    && (forall id :: id in sessions ==> sessions[id].characterId == id)
  }

  // ---------------------------------------------------------------------
  // The room graph as seen from a start room
  // ---------------------------------------------------------------------

  /** Every exit of a room in `world` leads to a room in `world`. */
  ghost predicate Closed(world: set<Room>)
    reads world
  {
    forall r, d :: r in world && d in r.connected ==> r.connected[d] in world
  }

  /** Rooms are told apart by uid (uuid4 values never repeat). */
  ghost predicate UidsDistinct(world: set<Room>) {
    forall a, b :: a in world && b in world && a.uid == b.uid ==> a == b
  }

  /** `to` is `n` exits away from `from`, through rooms of `world`. */
  ghost predicate ReachableIn(world: set<Room>, from: Room, to: Room, n: nat)
    reads world
    decreases n
  {
    if n == 0 then from == to && to in world
    else exists r :: r in world && to in r.connected.Values && ReachableIn(world, from, r, n - 1)
  }

  ghost predicate Reachable(world: set<Room>, from: Room, to: Room)
    reads world
  {
    exists n: nat :: ReachableIn(world, from, to, n)
  }

  lemma ReachableStep(world: set<Room>, start: Room, r: Room, next: Room)
    requires Reachable(world, start, r) && r in world && next in r.connected.Values
    ensures Reachable(world, start, next)
  {
    var n: nat :| ReachableIn(world, start, r, n);
    assert ReachableIn(world, start, next, n + 1);
  }

  lemma ReachableStart(world: set<Room>, start: Room)
    requires start in world
    ensures Reachable(world, start, start)
  {
    assert ReachableIn(world, start, start, 0);
  }

  /** A set that holds the start room and is closed under exits holds every
      room reachable from the start. */
  lemma ClosedHoldsReachable(world: set<Room>, seen: set<Room>, start: Room, r: Room)
    requires start in seen
    requires forall x, d :: x in seen && d in x.connected ==> x.connected[d] in seen
    requires Reachable(world, start, r)
    ensures r in seen
  {
    var n: nat :| ReachableIn(world, start, r, n);
    ReachableInStaysInside(world, seen, start, r, n);
  }

  lemma {:induction false} ReachableInStaysInside(world: set<Room>, seen: set<Room>, start: Room, r: Room, n: nat)
    requires start in seen
    requires forall x, d :: x in seen && d in x.connected ==> x.connected[d] in seen
    requires ReachableIn(world, start, r, n)
    ensures r in seen
    decreases n
  {
    if n > 0 {
      var x :| x in world && r in x.connected.Values && ReachableIn(world, start, x, n - 1);
      ReachableInStaysInside(world, seen, start, x, n - 1);
      var d :| d in x.connected && x.connected[d] == r;
    }
  }

  /** The inner loop of `_collect_rooms`: append every exit of `room`
      whose uid is not yet visited, in exit order. */
  method EnqueueExits(room: Room, queue: seq<Room>, visited: set<Uid>, ghost world: set<Room>, ghost start: Room)
    returns (q: seq<Room>)
    requires room in world && Closed(world) && room.Valid() && Reachable(world, start, room)
    requires forall i :: 0 <= i < |queue| ==> queue[i] in world && Reachable(world, start, queue[i])
    ensures |queue| <= |q| && q[..|queue|] == queue
    ensures forall i :: 0 <= i < |q| ==> q[i] in world && Reachable(world, start, q[i])
    ensures forall i :: |queue| <= i < |q| ==> q[i].uid !in visited && q[i] in room.connected.Values
    ensures forall d :: d in room.connected ==> room.connected[d].uid in visited || room.connected[d] in q
  {
    var exits := room.exitOrder;
    q := queue;
    var i := 0;
    while i < |exits|
      invariant 0 <= i <= |exits|
      invariant |queue| <= |q| && q[..|queue|] == queue
      invariant forall k :: 0 <= k < |q| ==> q[k] in world && Reachable(world, start, q[k])
      invariant forall k :: |queue| <= k < |q| ==> q[k].uid !in visited && q[k] in room.connected.Values
      invariant forall k :: 0 <= k < i ==> room.connected[exits[k]].uid in visited || room.connected[exits[k]] in q
    {
      var next := room.connected[exits[i]];
      if next.uid !in visited {
        ReachableStep(world, start, room, next);
        q := q + [next];
      }
      i := i + 1;
    }
    forall d | d in room.connected
      ensures room.connected[d].uid in visited || room.connected[d] in q
    {
      var k :| 0 <= k < |exits| && exits[k] == d;
    }
  }

  /** Popping the head of the BFS queue keeps every other queued room. */
  lemma QueueTail(queue: seq<Room>, n: Room, head: Room, seen: set<Room>)
    requires |queue| > 0 && queue[0] == head
    requires n in seen || n in queue
    ensures n in seen || n == head || n in queue[1..]
  {
    if n !in seen && n != head {
      var k :| 0 <= k < |queue| && queue[k] == n;
      assert queue[1..][k - 1] == n;
    }
  }

  /** The loop invariant of the breadth-first walk: `seen` are the rooms
      taken off the queue so far, `visited` their uids, `rooms` files each
      under its uid, everything seen or queued is reachable, and every exit
      of a seen room is seen or still queued. */
  ghost predicate BfsInv(world: set<Room>, start: Room, seen: set<Room>, visited: set<Uid>,
                         rooms: map<Uid, Room>, queue: seq<Room>)
    reads world
  {
    && seen <= world && (forall i :: 0 <= i < |queue| ==> queue[i] in world)
    && (forall r :: r in seen ==> r.uid in visited && r.uid in rooms && rooms[r.uid] == r)
    && (forall u :: u in visited ==> u in rooms && rooms[u] in seen && rooms[u].uid == u)
    && (forall u :: u in rooms ==> u in visited)
    && (forall r :: r in seen ==> Reachable(world, start, r))
    && (forall i :: 0 <= i < |queue| ==> Reachable(world, start, queue[i]))
    && (start in seen || start in queue)
    && (forall r, d :: r in seen && d in r.connected ==> r.connected[d] in seen || r.connected[d] in queue)
  }

  /** Dropping a queued room whose uid is already visited keeps the invariant. */
  lemma BfsSkip(world: set<Room>, start: Room, seen: set<Room>, visited: set<Uid>,
                rooms: map<Uid, Room>, queue: seq<Room>)
    requires UidsDistinct(world) && |queue| > 0 && queue[0].uid in visited
    requires BfsInv(world, start, seen, visited, rooms, queue)
    ensures queue[0] in seen
    ensures BfsInv(world, start, seen, visited, rooms, queue[1..])
  {
    var room := queue[0];
    assert rooms[room.uid] == room;
    forall r, d | r in seen && d in r.connected
      ensures r.connected[d] in seen || r.connected[d] in queue[1..]
    {
      QueueTail(queue, r.connected[d], room, seen);
    }
  }

  /** Filing a new room and queueing its unvisited exits keeps the invariant. */
  lemma BfsVisit(world: set<Room>, start: Room, seen: set<Room>, visited: set<Uid>,
                 rooms: map<Uid, Room>, queue: seq<Room>, q: seq<Room>)
    requires Closed(world) && UidsDistinct(world) && |queue| > 0 && queue[0].uid !in visited
    requires BfsInv(world, start, seen, visited, rooms, queue)
    requires |queue| - 1 <= |q| && q[..|queue| - 1] == queue[1..]
    requires forall i :: 0 <= i < |q| ==> q[i] in world && Reachable(world, start, q[i])
    requires forall d :: d in queue[0].connected ==>
      queue[0].connected[d].uid in visited + {queue[0].uid} || queue[0].connected[d] in q
    ensures queue[0] !in seen
    ensures BfsInv(world, start, seen + {queue[0]}, visited + {queue[0].uid}, rooms[queue[0].uid := queue[0]], q)
  {
    var room := queue[0];
    var seen' := seen + {room};
    var rooms' := rooms[room.uid := room];
    forall r, d | r in seen' && d in r.connected
      ensures r.connected[d] in seen' || r.connected[d] in q
    {
      var n := r.connected[d];
      if r == room {
        if n.uid in visited {
          assert rooms[n.uid] in seen && rooms[n.uid].uid == n.uid;
        } else if n.uid == room.uid {
          assert n in world;
        }
      } else {
        QueueTail(queue, n, room, seen);
        if n in queue[1..] {
          var k :| 0 <= k < |queue| - 1 && queue[1..][k] == n;
          assert q[k] == n;
        }
      }
    }
    forall u | u in visited + {room.uid}
      ensures u in rooms' && rooms'[u] in seen' && rooms'[u].uid == u
    {
    }
  }

  /** The breadth-first walk of `_collect_rooms`: every room reachable from
      `start`, each filed once under its uid, and nothing else.  `world` is
      any closed set of rooms holding `start`. */
  method BfsRooms(start: Room, ghost world: set<Room>) returns (rooms: map<Uid, Room>)
    requires start in world && Closed(world) && UidsDistinct(world)
    requires forall r :: r in world ==> r.Valid()
    ensures forall r :: r in world && Reachable(world, start, r) ==> r.uid in rooms && rooms[r.uid] == r
    ensures forall u :: u in rooms ==> rooms[u].uid == u && Reachable(world, start, rooms[u])
  {
    rooms := map[];
    var visited: set<Uid> := {};
    var queue: seq<Room> := [start];
    ghost var seen: set<Room> := {};
    ReachableStart(world, start);
    while queue != []
      invariant BfsInv(world, start, seen, visited, rooms, queue)
      decreases world - seen, |queue|
    {
      var room := queue[0];
      if room.uid in visited {
        // the room was filed when an earlier copy left the queue
        BfsSkip(world, start, seen, visited, rooms, queue);
        queue := queue[1..];
        continue;
      }
      var next := EnqueueExits(room, queue[1..], visited + {room.uid}, world, start);
      BfsVisit(world, start, seen, visited, rooms, queue, next);
      visited := visited + {room.uid};
      seen := seen + {room};
      rooms := rooms[room.uid := room];
      queue := next;
    }
    forall r | r in world && Reachable(world, start, r)
      ensures r.uid in rooms && rooms[r.uid] == r
    {
      ClosedHoldsReachable(world, seen, start, r);
    }
  }

  /** Every session has its own player, and that player is listed in the
      session's room. */
  ghost predicate Present(sessions: map<CharId, Session>)
    reads set id | id in sessions :: sessions[id].room
  {
    && (forall a, b :: a in sessions && b in sessions && a != b ==> sessions[a].player != sessions[b].player)
    && (forall id :: id in sessions ==> sessions[id].player in sessions[id].room.presentPlayers)
  }

  /** Every session has its own player, and every player but the one of
      session `except` is listed in its session's room. */
  ghost predicate ListedExcept(sessions: map<CharId, Session>, except: CharId)
    reads set id | id in sessions :: sessions[id].room
  {
    && (forall a, b :: a in sessions && b in sessions && a != b ==> sessions[a].player != sessions[b].player)
    && (forall id :: id in sessions && id != except ==> sessions[id].player in sessions[id].room.presentPlayers)
  }

  class WorldManager {
    var rooms: map<Uid, Room>
    var startRoom: Option<Room>
    var sessions: map<CharId, Session>
    /** Insertion order of `sessions` (a Python dict iterates in this order). */
    var sessionOrder: seq<CharId>
    var outbox: seq<Notice>
    var saved: seq<SaveRecord>

    ghost predicate Valid()
      reads this
    {
      SessionsValid(sessionOrder, sessions)
    }

    /** The rooms that currently hold a session. */
    function SessionRooms(): set<Room>
      reads this
    {
      set id | id in sessions :: sessions[id].room
    }

    /** Presence is consistent with the sessions. */
    ghost predicate Tracked()
      reads this, SessionRooms()
    {
      Present(sessions)
    }

    constructor ()
      ensures Valid() && Tracked()
      ensures rooms == map[] && startRoom == None && sessions == map[] && sessionOrder == []
      ensures outbox == [] && saved == []
    {
      rooms := map[];
      startRoom := None;
      sessions := map[];
      sessionOrder := [];
      outbox := [];
      saved := [];
    }

    /** `_collect_rooms`: file every room reachable from `start` under its
        uid; entries for other uids are kept. */
    method CollectRooms(start: Room, ghost world: set<Room>)
      requires start in world && Closed(world) && UidsDistinct(world)
      requires forall r :: r in world ==> r.Valid()
      modifies this`rooms
      ensures forall r :: r in world && Reachable(world, start, r) ==> r.uid in rooms && rooms[r.uid] == r
      ensures forall u :: u in rooms ==>
        (u in old(rooms) && rooms[u] == old(rooms)[u]) || (rooms[u].uid == u && Reachable(world, start, rooms[u]))
      ensures old(rooms).Keys <= rooms.Keys
    {
      var found := BfsRooms(start, world);
      rooms := rooms + found;
    }

    /** `broadcast_to_room`: one callback per session in `room` whose id is
        not `exclude`, in session order. */
    method BroadcastToRoom(room: Room, message: string, exclude: Option<CharId>)
      requires Valid()
      modifies this`outbox
      ensures outbox == old(outbox) + RoomNotices(sessionOrder, sessions, room, exclude, message)
    {
      var i := 0;
      while i < |sessionOrder|
        invariant 0 <= i <= |sessionOrder|
        invariant outbox == old(outbox) + RoomNotices(sessionOrder[..i], sessions, room, exclude, message)
      {
        var id := sessionOrder[i];
        assert sessionOrder[..i + 1][..i] == sessionOrder[..i];
        var s := sessions[id];
        if s.room == room && Some(s.characterId) != exclude {
          outbox := outbox + [Notice(id, message)];
        }
        i := i + 1;
      }
      assert sessionOrder[..i] == sessionOrder;
    }

    /** `join`: bind the session, list the player in the room, tell the
        others in the room (not the joiner). */
    method Join(id: CharId, player: Character, room: Room)
      requires Valid()
      modifies this`sessions, this`sessionOrder, this`outbox, room`presentPlayers
      ensures Valid()
      ensures sessions == old(sessions)[id := Session(id, player, room)]
      ensures sessionOrder == if id in old(sessions) then old(sessionOrder) else old(sessionOrder) + [id]
      ensures room.presentPlayers == old(room.presentPlayers) + [player]
      ensures outbox == old(outbox) + RoomNotices(sessionOrder, sessions, room, Some(id), EnteredMessage(player.name))
    {
      if id !in sessions {
        sessionOrder := sessionOrder + [id];
      }
      sessions := sessions[id := Session(id, player, room)];
      room.presentPlayers := room.presentPlayers + [player];
      BroadcastToRoom(room, EnteredMessage(player.name), Some(id));
    }

    /** `leave`: nothing for an unknown id; otherwise drop the session, take
        the player off its room's list, tell the room and save hp and
        stamina. */
    method Leave(id: CharId)
      requires Valid()
      modifies this`sessions, this`sessionOrder, this`outbox, this`saved, SessionRooms()`presentPlayers
      ensures Valid()
      ensures id !in old(sessions) ==>
        sessions == old(sessions) && sessionOrder == old(sessionOrder) && outbox == old(outbox) && saved == old(saved)
      ensures id in old(sessions) ==>
        var s := old(sessions[id]);
        && sessions == old(sessions) - {id}
        && sessionOrder == RemoveFirst(old(sessionOrder), id)
        && s.room.presentPlayers == RemoveFirst(old(s.room.presentPlayers), s.player)
        && outbox == old(outbox) + RoomNotices(sessionOrder, sessions, s.room, Some(id), LeftWorldMessage(s.player.name))
        && saved == old(saved) + [SaveRecord(id, s.player.hp, s.player.stamina)]
      ensures id !in old(sessions) ==> forall r :: r in old(SessionRooms()) ==> r.presentPlayers == old(r.presentPlayers)
      ensures id in old(sessions) ==>
        forall r :: r in old(SessionRooms()) && r != old(sessions[id].room) ==> r.presentPlayers == old(r.presentPlayers)
      ensures old(Tracked()) ==> Tracked()
    {
      if id !in sessions {
        return;
      }
      var s := sessions[id];
      DictOrderDelete(sessionOrder, sessions, id);
      sessions := sessions - {id};
      sessionOrder := RemoveFirst(sessionOrder, id);
      var room := s.room;
      var player := s.player;
      room.presentPlayers := RemoveFirst(room.presentPlayers, player);
      BroadcastToRoom(room, LeftWorldMessage(player.name), Some(id));
      saved := saved + [SaveRecord(id, player.hp, player.stamina)];
      if old(Tracked()) {
        forall other | other in sessions
          ensures sessions[other].player in sessions[other].room.presentPlayers
        {
          var o := sessions[other];
          assert o == old(sessions[other]);
          if o.room == room {
            RemoveFirstKeepsOthers(old(room.presentPlayers), player, o.player);
          }
        }
      }
    }

    /** `move_player`: nothing without a session; otherwise leave the old
        room's list, join the target's, rebind the session and tell both
        rooms.  There is no combat check and no result. */
    method MovePlayer(id: CharId, target: Room)
      requires Valid()
      modifies this`sessions, this`outbox, SessionRooms()`presentPlayers, target`presentPlayers
      ensures Valid() && sessionOrder == old(sessionOrder)
      ensures id !in old(sessions) ==> sessions == old(sessions) && outbox == old(outbox)
      ensures id in old(sessions) ==>
        var s := old(sessions[id]);
        && sessions == old(sessions)[id := s.(room := target)]
        && (target != s.room ==>
              && s.room.presentPlayers == RemoveFirst(old(s.room.presentPlayers), s.player)
              && target.presentPlayers == old(target.presentPlayers) + [s.player])
        && (target == s.room ==>
              target.presentPlayers == RemoveFirst(old(target.presentPlayers), s.player) + [s.player])
        && outbox == old(outbox)
             + RoomNotices(sessionOrder, old(sessions), s.room, Some(id), LeftMessage(s.player.name))
             + RoomNotices(sessionOrder, sessions, target, Some(id), ArrivedMessage(s.player.name))
      ensures id !in old(sessions) ==>
        && target.presentPlayers == old(target.presentPlayers)
        && forall r :: r in old(SessionRooms()) ==> r.presentPlayers == old(r.presentPlayers)
      ensures id in old(sessions) ==>
        forall r :: r in old(SessionRooms()) && r != old(sessions[id].room) && r != target ==> r.presentPlayers == old(r.presentPlayers)
      ensures old(Tracked()) ==> Tracked()
    {
      if id !in sessions {
        return;
      }
      LeaveRoom(id);
      EnterRoom(id, target);
    }

    /** The first half of `move_player`: the player leaves the list of its
        session's room, which is told; every other session stays listed. */
    method LeaveRoom(id: CharId)
      requires Valid() && id in sessions
      modifies sessions[id].room`presentPlayers, this`outbox
      ensures var s := sessions[id];
        && s.room.presentPlayers == RemoveFirst(old(s.room.presentPlayers), s.player)
        && outbox == old(outbox) + RoomNotices(sessionOrder, sessions, s.room, Some(id), LeftMessage(s.player.name))
      ensures old(Tracked()) ==> ListedExcept(sessions, id)
    {
      var s := sessions[id];
      var room := s.room;
      var player := s.player;
      room.presentPlayers := RemoveFirst(room.presentPlayers, player);
      BroadcastToRoom(room, LeftMessage(player.name), Some(id));
      if old(Tracked()) {
        forall other | other in sessions && other != id
          ensures sessions[other].player in sessions[other].room.presentPlayers
        {
          var o := sessions[other];
          if o.room == room {
            RemoveFirstKeepsOthers(old(room.presentPlayers), player, o.player);
          }
        }
      }
    }

    /** The second half of `move_player`: the player joins the target's
        list, the session is rebound to the target, and the target is told. */
    method EnterRoom(id: CharId, target: Room)
      requires Valid() && id in sessions
      modifies this`sessions, target`presentPlayers, this`outbox
      ensures Valid() && sessionOrder == old(sessionOrder)
      ensures sessions == old(sessions)[id := old(sessions[id]).(room := target)]
      ensures target.presentPlayers == old(target.presentPlayers) + [old(sessions[id]).player]
      ensures outbox == old(outbox) + RoomNotices(sessionOrder, sessions, target, Some(id), ArrivedMessage(old(sessions[id]).player.name))
      ensures old(ListedExcept(sessions, id)) ==> Tracked()
    {
      var s := sessions[id];
      var player := s.player;
      ghost var listed := ListedExcept(sessions, id);
      target.presentPlayers := target.presentPlayers + [player];
      sessions := sessions[id := s.(room := target)];
      if listed {
        forall other | other in sessions
          ensures sessions[other].player in sessions[other].room.presentPlayers
        {
          if other != id {
            assert sessions[other] == old(sessions[other]);
          }
        }
      }
      BroadcastToRoom(target, ArrivedMessage(player.name), Some(id));
    }

    /** `pickup_item`: False when the item is not on the floor; otherwise it
        leaves the floor and joins the picker's inventory.  An unknown
        picker raises KeyError after the item was taken off the floor. */
    method PickupItem(id: CharId, item: Item, room: Room) returns (r: PickupOutcome)
      requires Valid()
      modifies room`presentItems, this`outbox,
        (if id in sessions then {sessions[id].player} else {})`inventory
      ensures item !in old(room.presentItems) ==>
        r == NotInRoom && room.presentItems == old(room.presentItems) && outbox == old(outbox)
      ensures item in old(room.presentItems) ==> room.presentItems == RemoveFirst(old(room.presentItems), item)
      ensures item in old(room.presentItems) && id !in sessions ==> r == NoSession && outbox == old(outbox)
      ensures item in old(room.presentItems) && id in sessions ==>
        var p := sessions[id].player;
        && r == PickedUp
        && p.inventory == old(p.inventory) + [item]
        && outbox == old(outbox) + RoomNotices(sessionOrder, sessions, room, Some(id), PicksUpMessage(p.name, item.name))
    {
      if item !in room.presentItems {
        return NotInRoom;
      }
      room.presentItems := RemoveFirst(room.presentItems, item);
      if id !in sessions {
        return NoSession;
      }
      var player := sessions[id].player;
      player.inventory := player.inventory + [item];
      BroadcastToRoom(room, PicksUpMessage(player.name, item.name), Some(id));
      r := PickedUp;
    }

    /** `drop_item`: False without a session or when the item is not carried;
        otherwise it moves from the inventory to the end of the floor list. */
    method DropItem(id: CharId, item: Item, room: Room) returns (ok: bool)
      requires Valid()
      modifies room`presentItems, this`outbox,
        (if id in sessions then {sessions[id].player} else {})`inventory
      ensures ok <==> id in sessions && item in old(sessions[id].player.inventory)
      ensures !ok ==> room.presentItems == old(room.presentItems) && outbox == old(outbox)
      ensures !ok && id in sessions ==> sessions[id].player.inventory == old(sessions[id].player.inventory)
      ensures ok ==>
        var p := sessions[id].player;
        && p.inventory == RemoveFirst(old(p.inventory), item)
        && room.presentItems == old(room.presentItems) + [item]
        && outbox == old(outbox) + RoomNotices(sessionOrder, sessions, room, Some(id), DropsMessage(p.name, item.name))
    {
      if id !in sessions || item !in sessions[id].player.inventory {
        return false;
      }
      var player := sessions[id].player;
      player.inventory := RemoveFirst(player.inventory, item);
      room.presentItems := room.presentItems + [item];
      BroadcastToRoom(room, DropsMessage(player.name, item.name), Some(id));
      ok := true;
    }

    /** `get_players_in_room`: a copy of the room's presence list. */
    method GetPlayersInRoom(room: Room) returns (players: seq<Character>)
      ensures players == room.presentPlayers
    {
      players := room.presentPlayers;
    }
  }

  /** `list.remove(x)` keeps every other element. */
  lemma RemoveFirstKeepsOthers(s: seq<Character>, x: Character, y: Character)
    requires y in s && y != x
    ensures y in RemoveFirst(s, x)
  {
    if x in s {
      RemoveFirstSplit(s, x);
      var i := IndexOf(s, x);
      var j :| 0 <= j < |s| && s[j] == y;
      if j < i {
        assert RemoveFirst(s, x)[j] == y;
      } else {
        assert RemoveFirst(s, x)[j - 1] == y;
      }
    }
  }
}
