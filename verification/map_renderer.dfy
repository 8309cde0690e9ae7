/** The ASCII map (UI/map_renderer.py): a breadth-first walk lays the rooms
    around the current one out on a 5 x 5 grid of positions, and the boxes
    and connecting paths are written into a 30 x 19 character grid. */
module MapRenderer {
  import opened Common
  import opened Rooms
  import World

  /** A grid position `(x, y)`: +x is east, +y is south, the current room
      at `(0, 0)`. */
  type Pos = (int, int)

  /** The position one step in direction `d`, by `DIR_VECTOR`. */
  function Shift(p: Pos, d: Direction): Pos {
    (p.0 + DirVector(d).0, p.1 + DirVector(d).1)
  }

  /** `abs(x) <= 2 and abs(y) <= 2`. */
  predicate InRange(p: Pos) {
    -2 <= p.0 <= 2 && -2 <= p.1 <= 2
  }

  /** The 25 positions a room may take. */
  ghost const Cells: set<Pos> := set x: int, y: int | -2 <= x <= 2 && -2 <= y <= 2 :: (x, y)

  // -----------------------------------------------------------------------
  // The layout invariant of _bfs_rooms
  // -----------------------------------------------------------------------

  /** `r` was placed from a room `q` that was expanded (its depth below
      `maxDepth`), through exit `d`, one step further and one hop deeper. */
  ghost predicate HasParent(r: Room, positions: map<Room, Pos>, depth: map<Room, nat>, maxDepth: nat)
    reads positions.Keys
  {
    exists q, d ::
      && q in positions && q in depth && r in positions && r in depth
      && d in q.connected && q.connected[d] == r
      && depth[q] < maxDepth && depth[r] == depth[q] + 1
      && positions[r] == Shift(positions[q], d)
  }

  /** The layout: the current room at the origin at depth 0, every position
      within two steps of it on both axes, no position shared, and every
      other room placed from a parent. */
  ghost predicate Placement(current: Room, maxDepth: nat, positions: map<Room, Pos>, depth: map<Room, nat>)
    reads positions.Keys
  {
    && current in positions && current in depth
    && positions[current] == (0, 0) && depth[current] == 0
    && depth.Keys == positions.Keys
    && (forall r :: r in positions ==> InRange(positions[r]))
    && (forall a, b :: a in positions && b in positions && positions[a] == positions[b] ==> a == b)
    && (forall r :: r in positions && r != current ==> HasParent(r, positions, depth, maxDepth))
  }

  /** `occupied` is the inverse of `positions`. */
  ghost predicate Inverse(positions: map<Room, Pos>, occupied: map<Pos, Room>) {
    && (forall r :: r in positions ==> positions[r] in occupied && occupied[positions[r]] == r)
    && (forall p :: p in occupied ==> occupied[p] in positions && positions[occupied[p]] == p)
  }

  /** An edge joins the position of an expanded room and the position of
      the room behind one of its exits. */
  ghost predicate EdgeOf(e: set<Pos>, positions: map<Room, Pos>, depth: map<Room, nat>, maxDepth: nat)
    reads positions.Keys
  {
    exists q, d ::
      && q in positions && q in depth && depth[q] < maxDepth
      && d in q.connected && q.connected[d] in positions
      && e == {positions[q], positions[q.connected[d]]}
  }

  /** Every expanded room with an exit back to itself left a one-position
      edge. */
  ghost predicate SelfLoopsKept(done: set<Room>, positions: map<Room, Pos>, depth: map<Room, nat>,
                                edges: set<set<Pos>>, maxDepth: nat)
    reads done
  {
    forall q, d :: q in done && q in depth && depth[q] < maxDepth && d in q.connected && q.connected[d] == q ==>
      q in positions && {positions[q]} in edges
  }

  /** What the inner loop leaves behind for exit `d` of the expanded room
      `q`: the room behind it placed and the edge to it recorded, unless
      the step from `q` through `d` leaves the grid or lands on a position
      another room holds. */
  ghost predicate ExitSeen(q: Room, d: Direction, positions: map<Room, Pos>, edges: set<set<Pos>>)
    requires q in positions
    reads q
  {
    d in q.connected ==>
      var n, npos := q.connected[d], Shift(positions[q], d);
      || (n in positions && {positions[q], positions[n]} in edges)
      || !InRange(npos)
      || exists r :: r in positions && r != n && positions[r] == npos
  }

  /** Every exit of every expanded room among `done` was seen. */
  ghost predicate ExitsSeen(done: set<Room>, positions: map<Room, Pos>, depth: map<Room, nat>,
                            edges: set<set<Pos>>, maxDepth: nat)
    reads done
  {
    forall q, d :: q in done && q in positions && q in depth && depth[q] < maxDepth ==> ExitSeen(q, d, positions, edges)
  }

  predicate Queued(r: Room, queue: seq<(Room, nat)>) {
    exists i :: 0 <= i < |queue| && queue[i].0 == r
  }

  /** The local state of `_bfs_rooms`. */
  datatype Walk = Walk(positions: map<Room, Pos>, occupied: map<Pos, Room>, edges: set<set<Pos>>,
                       visited: set<Room>, queue: seq<(Room, nat)>)

  /** The invariant of the walk: the layout so far, and its bookkeeping. */
  ghost predicate WalkInv(world: set<Room>, current: Room, maxDepth: nat, w: Walk, depth: map<Room, nat>,
                          done: set<Room>, pending: set<Room>)
    reads world
  {
    && Laid(world, current, maxDepth, w, depth)
    && Booked(maxDepth, w, depth, done, pending)
  }

  /** The placed rooms lie in `world`, their layout holds, `occupied` is its
      inverse, and `visited` is exactly the placed rooms. */
  ghost predicate Laid(world: set<Room>, current: Room, maxDepth: nat, w: Walk, depth: map<Room, nat>)
    reads world
  {
    && w.positions.Keys <= world
    && Placement(current, maxDepth, w.positions, depth)
    && Inverse(w.positions, w.occupied)
    && |w.positions| == |w.occupied|
    && w.visited == w.positions.Keys
  }

  /** `done` rooms have been taken off the queue, `pending` is being
      expanded, every other placed room is still queued with its depth;
      every edge joins placed positions and every expanded self-exit left
      its edge. */
  ghost predicate Booked(maxDepth: nat, w: Walk, depth: map<Room, nat>, done: set<Room>, pending: set<Room>)
    reads w.positions.Keys
  {
    && QueueDepths(w.positions, depth, w.queue)
    && EdgesJoin(w.edges, w.positions, depth, maxDepth)
    && done <= w.positions.Keys
    && Covered(w.positions.Keys, done, pending, w.queue)
    && SelfLoopsKept(done, w.positions, depth, w.edges, maxDepth)
  }

  /** Every queued room is placed and queued with its depth. */
  ghost predicate QueueDepths(positions: map<Room, Pos>, depth: map<Room, nat>, queue: seq<(Room, nat)>) {
    forall i :: 0 <= i < |queue| ==> queue[i].0 in positions && queue[i].0 in depth && queue[i].1 == depth[queue[i].0]
  }

  ghost predicate EdgesJoin(edges: set<set<Pos>>, positions: map<Room, Pos>, depth: map<Room, nat>, maxDepth: nat)
    reads positions.Keys
  {
    forall e :: e in edges ==> EdgeOf(e, positions, depth, maxDepth)
  }

  /** Every placed room is done, pending or still queued. */
  ghost predicate Covered(placed: set<Room>, done: set<Room>, pending: set<Room>, queue: seq<(Room, nat)>) {
    forall r :: r in placed ==> r in done || r in pending || Queued(r, queue)
  }

  lemma QueueAppend(positions: map<Room, Pos>, depth: map<Room, nat>, queue: seq<(Room, nat)>, n: Room, npos: Pos, k: nat)
    requires QueueDepths(positions, depth, queue) && positions.Keys == depth.Keys && n !in positions
    ensures QueueDepths(positions[n := npos], depth[n := k], queue + [(n, k)])
  {
  }

  lemma CoverAppend(placed: set<Room>, done: set<Room>, pending: set<Room>, queue: seq<(Room, nat)>, n: Room, k: nat)
    requires Covered(placed, done, pending, queue)
    ensures Covered(placed + {n}, done, pending, queue + [(n, k)])
  {
    var queue' := queue + [(n, k)];
    forall r | r in placed + {n}
      ensures r in done || r in pending || Queued(r, queue')
    {
      if r == n {
        assert queue'[|queue|].0 == r;
      } else if r !in done && r !in pending {
        var i :| 0 <= i < |queue| && queue[i].0 == r;
        assert queue'[i].0 == r;
      }
    }
  }

  lemma SelfLoopsGrown(done: set<Room>, positions: map<Room, Pos>, depth: map<Room, nat>, edges: set<set<Pos>>,
                       maxDepth: nat, n: Room, npos: Pos, k: nat)
    requires SelfLoopsKept(done, positions, depth, edges, maxDepth) && n !in positions && done <= positions.Keys
    ensures SelfLoopsKept(done, positions[n := npos], depth[n := k], edges, maxDepth)
  {
  }

  /** A seen exit stays seen as the layout grows. */
  lemma ExitSeenGrown(q: Room, d: Direction, positions: map<Room, Pos>, edges: set<set<Pos>>,
                      positions': map<Room, Pos>, edges': set<set<Pos>>)
    requires q in positions && ExitSeen(q, d, positions, edges)
    requires forall r :: r in positions ==> r in positions' && positions'[r] == positions[r]
    requires edges <= edges'
    ensures q in positions' && ExitSeen(q, d, positions', edges')
  {
    if d in q.connected {
      var npos := Shift(positions[q], d);
      if exists r :: r in positions && r != q.connected[d] && positions[r] == npos {
        var r :| r in positions && r != q.connected[d] && positions[r] == npos;
        assert r in positions' && positions'[r] == npos;
      }
    }
  }

  lemma ExitsSeenGrown(done: set<Room>, w: Walk, depth: map<Room, nat>, w': Walk, depth': map<Room, nat>, maxDepth: nat)
    requires ExitsSeen(done, w.positions, depth, w.edges, maxDepth)
    requires done <= w.positions.Keys && done <= depth.Keys
    requires Extends(w, depth, w', depth')
    ensures ExitsSeen(done, w'.positions, depth', w'.edges, maxDepth)
  {
    forall q, d | q in done && q in w'.positions && q in depth' && depth'[q] < maxDepth
      ensures ExitSeen(q, d, w'.positions, w'.edges)
    {
      ExitSeenGrown(q, d, w.positions, w.edges, w'.positions, w'.edges);
    }
  }

  /** Growing the maps keeps every parent and every edge. */
  lemma Grown(positions: map<Room, Pos>, depth: map<Room, nat>, positions': map<Room, Pos>, depth': map<Room, nat>,
              maxDepth: nat)
    requires forall r :: r in positions ==> r in positions' && positions'[r] == positions[r]
    requires forall r :: r in depth ==> r in depth' && depth'[r] == depth[r]
    ensures forall r :: r in positions && HasParent(r, positions, depth, maxDepth) ==> HasParent(r, positions', depth', maxDepth)
    ensures forall e :: EdgeOf(e, positions, depth, maxDepth) ==> EdgeOf(e, positions', depth', maxDepth)
  {
    forall r | r in positions && HasParent(r, positions, depth, maxDepth)
      ensures HasParent(r, positions', depth', maxDepth)
    {
      var q, d :| q in positions && q in depth && r in positions && r in depth
        && d in q.connected && q.connected[d] == r
        && depth[q] < maxDepth && depth[r] == depth[q] + 1
        && positions[r] == Shift(positions[q], d);
      assert q in positions';
    }
    forall e | EdgeOf(e, positions, depth, maxDepth)
      ensures EdgeOf(e, positions', depth', maxDepth)
    {
      var q, d :| q in positions && q in depth && depth[q] < maxDepth
        && d in q.connected && q.connected[d] in positions
        && e == {positions[q], positions[q.connected[d]]};
      assert q in positions';
    }
  }

  /** A map onto positions within range has at most 25 entries. */
  lemma VisitedBound(positions: map<Room, Pos>, occupied: map<Pos, Room>)
    requires |positions| == |occupied|
    requires forall p :: p in occupied ==> InRange(p)
    ensures |positions| <= |Cells|
  {
    forall p | p in occupied
      ensures p in Cells
    {
      var x, y := p.0, p.1;
      assert (x, y) == p;
    }
    assert occupied.Keys <= Cells;
    SubsetCard(occupied.Keys, Cells);
  }

  lemma SubsetCard<T>(a: set<T>, b: set<T>)
    requires a <= b
    ensures |a| <= |b|
  {
    assert b == a + (b - a);
  }

  // -----------------------------------------------------------------------
  // _bfs_rooms
  // -----------------------------------------------------------------------

  /** `positions[n] = npos; occupied[npos] = n` */
  function Put(w: Walk, n: Room, npos: Pos): Walk {
    w.(positions := w.positions[n := npos], occupied := w.occupied[npos := n])
  }

  /** `edges.add(frozenset((p1, p2)))` */
  function Link(w: Walk, p1: Pos, p2: Pos): Walk {
    w.(edges := w.edges + {{p1, p2}})
  }

  /** `visited.add(n); queue.append((n, k))` */
  function Enqueue(w: Walk, n: Room, k: nat): Walk {
    w.(visited := w.visited + {n}, queue := w.queue + [(n, k)])
  }

  /** One pass of the inner loop, for exit `d` of `room` at depth `d0`: a
      neighbour not yet placed is placed one step away unless that is out
      of range or taken (then the exit is skipped); an edge joins the two
      positions; a neighbour not yet visited is queued one hop deeper. */
  function ExitStep(w: Walk, room: Room, d: Direction, d0: nat): Walk
    requires room in w.positions && d in room.connected
    reads room
  {
    var neighbor := room.connected[d];
    var npos := Shift(w.positions[room], d);
    if neighbor !in w.positions && (!InRange(npos) || npos in w.occupied) then w
    else
      var placed := if neighbor in w.positions then w else Put(w, neighbor, npos);
      var linked := if neighbor in placed.positions
        then Link(placed, placed.positions[room], placed.positions[neighbor])
        else placed;
      if neighbor in linked.visited then linked else Enqueue(linked, neighbor, d0 + 1)
  }

  /** The depth recorded by `ExitStep`. */
  ghost function ExitDepth(w: Walk, depth: map<Room, nat>, room: Room, d: Direction, d0: nat): map<Room, nat>
    requires room in w.positions && d in room.connected
    reads room
  {
    var neighbor := room.connected[d];
    var npos := Shift(w.positions[room], d);
    if neighbor !in w.positions && InRange(npos) && npos !in w.occupied then depth[neighbor := d0 + 1] else depth
  }

  /** `w'` extends `w`: nothing placed moves, no edge or visit is lost, and
      the queue only grows at its end, by one entry per newly visited room. */
  ghost predicate Extends(w: Walk, depth: map<Room, nat>, w': Walk, depth': map<Room, nat>) {
    && (forall r :: r in w.positions ==> r in w'.positions && w'.positions[r] == w.positions[r])
    && (forall r :: r in depth ==> r in depth' && depth'[r] == depth[r])
    && w.edges <= w'.edges && w.visited <= w'.visited
    && |w.queue| <= |w'.queue| && w'.queue[..|w.queue|] == w.queue
    && |w'.queue| - |w.queue| == |w'.visited| - |w.visited|
  }

  /** Adding the edge from an expanded room to a placed neighbour keeps the
      bookkeeping. */
  lemma AddEdge(maxDepth: nat, w: Walk, depth: map<Room, nat>, done: set<Room>, pending: set<Room>,
                room: Room, d: Direction, p1: Pos, p2: Pos)
    requires Booked(maxDepth, w, depth, done, pending)
    requires room in w.positions && room in depth && depth[room] < maxDepth
    requires d in room.connected && room.connected[d] in w.positions
    requires p1 == w.positions[room] && p2 == w.positions[room.connected[d]]
    ensures Booked(maxDepth, Link(w, p1, p2), depth, done, pending)
  {
    assert EdgeOf({p1, p2}, w.positions, depth, maxDepth);
  }

  /** Placing room `n` on the free position `npos` one step from its
      expanded parent `room` keeps the layout and the inverse map. */
  lemma PlaceLayout(current: Room, maxDepth: nat, positions: map<Room, Pos>, occupied: map<Pos, Room>,
                    depth: map<Room, nat>, room: Room, d: Direction, n: Room, npos: Pos, k: nat)
    requires Placement(current, maxDepth, positions, depth) && Inverse(positions, occupied)
    requires room in positions && depth[room] < maxDepth && d in room.connected
    requires n == room.connected[d] && n !in positions
    requires npos == Shift(positions[room], d) && InRange(npos) && npos !in occupied
    requires k == depth[room] + 1
    ensures Placement(current, maxDepth, positions[n := npos], depth[n := k])
    ensures Inverse(positions[n := npos], occupied[npos := n])
  {
    var positions' := positions[n := npos];
    var depth' := depth[n := k];
    Grown(positions, depth, positions', depth', maxDepth);
    assert HasParent(n, positions', depth', maxDepth);
  }

  lemma PlaceLaid(world: set<Room>, current: Room, maxDepth: nat, w: Walk, depth: map<Room, nat>,
                  room: Room, d: Direction, n: Room, npos: Pos, k: nat, p1: Pos)
    requires World.Closed(world) && room in world
    requires Laid(world, current, maxDepth, w, depth)
    requires room in w.positions && depth[room] < maxDepth && d in room.connected
    requires n == room.connected[d] && n !in w.positions
    requires npos == Shift(w.positions[room], d) && InRange(npos) && npos !in w.occupied
    requires k == depth[room] + 1
    ensures Laid(world, current, maxDepth, Link(Enqueue(Put(w, n, npos), n, k), p1, npos), depth[n := k])
  {
    PlaceLayout(current, maxDepth, w.positions, w.occupied, depth, room, d, n, npos, k);
  }

  /** Placing and queueing the neighbour `n` keeps the bookkeeping, and so
      does the edge to it. */
  lemma PlaceBooked(maxDepth: nat, w: Walk, depth: map<Room, nat>, done: set<Room>, room: Room,
                    d: Direction, n: Room, npos: Pos, k: nat, p1: Pos)
    requires Booked(maxDepth, w, depth, done, {room}) && w.positions.Keys == depth.Keys
    requires room in w.positions && depth[room] < maxDepth && d in room.connected
    requires n == room.connected[d] && n !in w.positions && p1 == w.positions[room]
    ensures Booked(maxDepth, Link(Enqueue(Put(w, n, npos), n, k), p1, npos), depth[n := k], done, {room})
  {
    var q := Enqueue(Put(w, n, npos), n, k);
    var depth' := depth[n := k];
    Grown(w.positions, depth, q.positions, depth', maxDepth);
    QueueAppend(w.positions, depth, w.queue, n, npos, k);
    CoverAppend(w.positions.Keys, done, {room}, w.queue, n, k);
    assert q.positions.Keys == w.positions.Keys + {n};
    SelfLoopsGrown(done, w.positions, depth, w.edges, maxDepth, n, npos, k);
    AddEdge(maxDepth, q, depth', done, {room}, room, d, p1, npos);
  }

  /** `ExitStep` keeps the invariant, only extends the walk, and records
      the edge of a self-exit. */
  lemma ExitStepKeeps(w: Walk, room: Room, d: Direction, d0: nat, depth: map<Room, nat>,
                      world: set<Room>, current: Room, maxDepth: nat, done: set<Room>)
    requires World.Closed(world) && room in world && d in room.connected
    requires WalkInv(world, current, maxDepth, w, depth, done, {room})
    requires room in w.positions && depth[room] == d0 && d0 < maxDepth
    ensures var w', depth' := ExitStep(w, room, d, d0), ExitDepth(w, depth, room, d, d0);
      && WalkInv(world, current, maxDepth, w', depth', done, {room})
      && Extends(w, depth, w', depth')
      && (room.connected[d] == room ==> {w.positions[room]} in w'.edges)
  {
    var neighbor := room.connected[d];
    var npos := Shift(w.positions[room], d);
    if neighbor !in w.positions && (!InRange(npos) || npos in w.occupied) {
    } else if neighbor in w.positions {
      ExitLinked(w, room, d, d0, depth, world, current, maxDepth, done);
    } else {
      ExitPlaced(w, room, d, d0, depth, world, current, maxDepth, done);
    }
  }

  /** An exit to a room already placed only adds the edge. */
  lemma ExitLinked(w: Walk, room: Room, d: Direction, d0: nat, depth: map<Room, nat>,
                   world: set<Room>, current: Room, maxDepth: nat, done: set<Room>)
    requires d in room.connected
    requires WalkInv(world, current, maxDepth, w, depth, done, {room})
    requires room in w.positions && depth[room] == d0 && d0 < maxDepth
    requires room.connected[d] in w.positions
    ensures var w' := ExitStep(w, room, d, d0);
      && WalkInv(world, current, maxDepth, w', depth, done, {room})
      && Extends(w, depth, w', depth)
      && (room.connected[d] == room ==> {w.positions[room]} in w'.edges)
  {
    var neighbor := room.connected[d];
    var p1, p2 := w.positions[room], w.positions[neighbor];
    AddEdge(maxDepth, w, depth, done, {room}, room, d, p1, p2);
    assert neighbor == room ==> {p1, p2} == {p1};
    assert ExitStep(w, room, d, d0) == Link(w, p1, p2);
  }

  /** An exit to a room not yet placed, whose position is free and in
      range, places, links and queues it. */
  lemma ExitPlaced(w: Walk, room: Room, d: Direction, d0: nat, depth: map<Room, nat>,
                   world: set<Room>, current: Room, maxDepth: nat, done: set<Room>)
    requires World.Closed(world) && room in world && d in room.connected
    requires WalkInv(world, current, maxDepth, w, depth, done, {room})
    requires room in w.positions && depth[room] == d0 && d0 < maxDepth
    requires room.connected[d] !in w.positions
    requires InRange(Shift(w.positions[room], d)) && Shift(w.positions[room], d) !in w.occupied
    ensures var w', depth' := ExitStep(w, room, d, d0), depth[room.connected[d] := d0 + 1];
      && WalkInv(world, current, maxDepth, w', depth', done, {room})
      && Extends(w, depth, w', depth')
  {
    var n := room.connected[d];
    var npos := Shift(w.positions[room], d);
    var p1 := w.positions[room];
    PlaceLaid(world, current, maxDepth, w, depth, room, d, n, npos, d0 + 1, p1);
    PlaceBooked(maxDepth, w, depth, done, room, d, n, npos, d0 + 1, p1);
    ExitStepPlaces(w, room, d, d0, n, npos, p1);
    PlacedExtends(w, depth, n, npos, p1, d0 + 1);
  }

  lemma ExitStepPlaces(w: Walk, room: Room, d: Direction, d0: nat, n: Room, npos: Pos, p1: Pos)
    requires room in w.positions && d in room.connected
    requires n == room.connected[d] && n !in w.positions && n !in w.visited
    requires p1 == w.positions[room] && npos == Shift(p1, d) && InRange(npos) && npos !in w.occupied
    ensures ExitStep(w, room, d, d0) == Link(Enqueue(Put(w, n, npos), n, d0 + 1), p1, npos)
  {
  }

  lemma PlacedExtends(w: Walk, depth: map<Room, nat>, n: Room, npos: Pos, p1: Pos, k: nat)
    requires n !in w.positions && n !in w.visited && n !in depth
    ensures Extends(w, depth, Link(Enqueue(Put(w, n, npos), n, k), p1, npos), depth[n := k])
  {
  }

  lemma ExtendsTrans(w1: Walk, d1: map<Room, nat>, w2: Walk, d2: map<Room, nat>, w3: Walk, d3: map<Room, nat>)
    requires Extends(w1, d1, w2, d2) && Extends(w2, d2, w3, d3)
    ensures Extends(w1, d1, w3, d3)
  {
    assert w3.queue[..|w1.queue|] == w3.queue[..|w2.queue|][..|w1.queue|];
  }

  /** Once every exit of `room` has been seen, it joins the done rooms. */
  lemma FinishRoom(world: set<Room>, current: Room, maxDepth: nat, w: Walk, depth: map<Room, nat>,
                   done: set<Room>, room: Room, p: Pos)
    requires WalkInv(world, current, maxDepth, w, depth, done, {room})
    requires room in w.positions && w.positions[room] == p
    requires forall d :: d in room.connected && room.connected[d] == room ==> {p} in w.edges
    ensures WalkInv(world, current, maxDepth, w, depth, done + {room}, {})
  {
  }

  /** A room taken off the queue at or beyond `max_depth` is not expanded. */
  lemma SkipRoom(world: set<Room>, current: Room, maxDepth: nat, w: Walk, depth: map<Room, nat>,
                 done: set<Room>, room: Room)
    requires WalkInv(world, current, maxDepth, w, depth, done, {room})
    requires room in w.positions && depth[room] >= maxDepth
    ensures WalkInv(world, current, maxDepth, w, depth, done + {room}, {})
  {
  }

  /** Taking the head off the queue leaves it pending. */
  lemma PopRoom(world: set<Room>, current: Room, maxDepth: nat, w: Walk, depth: map<Room, nat>, done: set<Room>)
    requires WalkInv(world, current, maxDepth, w, depth, done, {}) && w.queue != []
    ensures WalkInv(world, current, maxDepth, w.(queue := w.queue[1..]), depth, done, {w.queue[0].0})
    ensures w.queue[0].0 in w.positions && w.queue[0].1 == depth[w.queue[0].0]
  {
    var room := w.queue[0].0;
    var rest := w.queue[1..];
    forall r | r in w.positions
      ensures r in done || r in {room} || Queued(r, rest)
    {
      if r !in done && r != room {
        var i :| 0 <= i < |w.queue| && w.queue[i].0 == r;
        assert rest[i - 1].0 == r;
      }
    }
  }

  /** At most 25 rooms are ever visited. */
  lemma WalkBound(world: set<Room>, current: Room, maxDepth: nat, w: Walk, depth: map<Room, nat>)
    requires Laid(world, current, maxDepth, w, depth)
    ensures |w.visited| <= |Cells|
  {
    VisitedBound(w.positions, w.occupied);
  }

  /** Each of the first `i` exits of `room` that leads back to it left the
      one-position edge at `p`. */
  ghost predicate SelfEdges(room: Room, exits: seq<Direction>, i: nat, p: Pos, edges: set<set<Pos>>)
    reads room
  {
    forall k :: 0 <= k < i && k < |exits| && exits[k] in room.connected && room.connected[exits[k]] == room ==>
      {p} in edges
  }

  lemma SelfEdgesStep(room: Room, exits: seq<Direction>, i: nat, p: Pos, edges: set<set<Pos>>, edges': set<set<Pos>>)
    requires SelfEdges(room, exits, i, p, edges) && edges <= edges' && i < |exits|
    requires exits[i] in room.connected && room.connected[exits[i]] == room ==> {p} in edges'
    ensures SelfEdges(room, exits, i + 1, p, edges')
  {
  }

  lemma SelfEdgesAll(room: Room, p: Pos, edges: set<set<Pos>>)
    requires room.Valid() && SelfEdges(room, room.exitOrder, |room.exitOrder|, p, edges)
    ensures forall d :: d in room.connected && room.connected[d] == room ==> {p} in edges
  {
    forall d | d in room.connected && room.connected[d] == room
      ensures {p} in edges
    {
      var k :| 0 <= k < |room.exitOrder| && room.exitOrder[k] == d;
    }
  }

  /** The `for` loop of `_bfs_rooms` over the exits of `room`, in insertion
      order. */
  method ExpandRoom(w: Walk, room: Room, d0: nat, ghost depth: map<Room, nat>,
                    ghost world: set<Room>, ghost current: Room, ghost maxDepth: nat, ghost done: set<Room>)
    returns (w': Walk, ghost depth': map<Room, nat>)
    requires World.Closed(world) && room in world && room.Valid()
    requires WalkInv(world, current, maxDepth, w, depth, done, {room})
    requires room in w.positions && depth[room] == d0 && d0 < maxDepth
    requires ExitsSeen(done, w.positions, depth, w.edges, maxDepth)
    ensures WalkInv(world, current, maxDepth, w', depth', done + {room}, {})
    ensures Extends(w, depth, w', depth')
    ensures ExitsSeen(done + {room}, w'.positions, depth', w'.edges, maxDepth)
  {
    w', depth' := w, depth;
    var exits := room.exitOrder;
    ghost var p := w.positions[room];
    var i := 0;
    while i < |exits|
      invariant 0 <= i <= |exits|
      invariant WalkInv(world, current, maxDepth, w', depth', done, {room})
      invariant room in w'.positions && w'.positions[room] == p && depth'[room] == d0
      invariant Extends(w, depth, w', depth')
      invariant SelfEdges(room, exits, i, p, w'.edges)
      invariant forall k :: 0 <= k < i ==> ExitSeen(room, exits[k], w'.positions, w'.edges)
    {
      var d := exits[i];
      ExpandStep(w, depth, w', depth', room, exits, i, p, d0, world, current, maxDepth, done);
      SeenStep(w', room, exits, i, d0);
      w', depth' := ExitStep(w', room, d, d0), ExitDepth(w', depth', room, d, d0);
      i := i + 1;
    }
    SelfEdgesAll(room, p, w'.edges);
    FinishRoom(world, current, maxDepth, w', depth', done, room, p);
    ExitsSeenGrown(done, w, depth, w', depth', maxDepth);
    RoomSeen(done, room, w'.positions, depth', w'.edges, maxDepth);
  }

  /** After its pass of the inner loop, exit `d` of `room` is seen, and
      nothing placed has moved. */
  lemma ExitStepSeen(w: Walk, room: Room, d: Direction, d0: nat)
    requires room in w.positions && d in room.connected && Inverse(w.positions, w.occupied)
    ensures var w' := ExitStep(w, room, d, d0);
      && (forall r :: r in w.positions ==> r in w'.positions && w'.positions[r] == w.positions[r])
      && w.edges <= w'.edges
      && ExitSeen(room, d, w'.positions, w'.edges)
  {
    var n, npos := room.connected[d], Shift(w.positions[room], d);
    if n !in w.positions && InRange(npos) && npos in w.occupied {
      var r := w.occupied[npos];
      assert r in w.positions && w.positions[r] == npos;
    }
  }

  /** One pass of the exit loop of `ExpandRoom` sees one more exit and
      keeps the exits seen before. */
  lemma SeenStep(w: Walk, room: Room, exits: seq<Direction>, i: nat, d0: nat)
    requires room.Valid() && exits == room.exitOrder && i < |exits|
    requires room in w.positions && Inverse(w.positions, w.occupied)
    requires forall k :: 0 <= k < i ==> ExitSeen(room, exits[k], w.positions, w.edges)
    ensures var w' := ExitStep(w, room, exits[i], d0);
      room in w'.positions && forall k :: 0 <= k < i + 1 ==> ExitSeen(room, exits[k], w'.positions, w'.edges)
  {
    var w' := ExitStep(w, room, exits[i], d0);
    ExitStepSeen(w, room, exits[i], d0);
    forall k | 0 <= k < i
      ensures ExitSeen(room, exits[k], w'.positions, w'.edges)
    {
      ExitSeenGrown(room, exits[k], w.positions, w.edges, w'.positions, w'.edges);
    }
  }

  /** Once every exit in `exitOrder` is seen, the room joins the rooms
      whose exits are all seen. */
  lemma RoomSeen(done: set<Room>, room: Room, positions: map<Room, Pos>, depth: map<Room, nat>,
                 edges: set<set<Pos>>, maxDepth: nat)
    requires room.Valid() && room in positions
    requires forall k :: 0 <= k < |room.exitOrder| ==> ExitSeen(room, room.exitOrder[k], positions, edges)
    requires ExitsSeen(done, positions, depth, edges, maxDepth)
    ensures ExitsSeen(done + {room}, positions, depth, edges, maxDepth)
  {
    forall d | d in room.connected
      ensures ExitSeen(room, d, positions, edges)
    {
      var k :| 0 <= k < |room.exitOrder| && room.exitOrder[k] == d;
    }
  }

  /** One pass of the exit loop of `ExpandRoom` keeps its invariant. */
  lemma ExpandStep(w0: Walk, depth0: map<Room, nat>, w: Walk, depth: map<Room, nat>, room: Room,
                   exits: seq<Direction>, i: nat, p: Pos, d0: nat,
                   world: set<Room>, current: Room, maxDepth: nat, done: set<Room>)
    requires World.Closed(world) && room in world && room.Valid() && exits == room.exitOrder && i < |exits|
    requires WalkInv(world, current, maxDepth, w, depth, done, {room})
    requires room in w.positions && w.positions[room] == p && depth[room] == d0 && d0 < maxDepth
    requires Extends(w0, depth0, w, depth) && SelfEdges(room, exits, i, p, w.edges)
    ensures var w', depth' := ExitStep(w, room, exits[i], d0), ExitDepth(w, depth, room, exits[i], d0);
      && WalkInv(world, current, maxDepth, w', depth', done, {room})
      && room in w'.positions && w'.positions[room] == p && depth'[room] == d0
      && Extends(w0, depth0, w', depth')
      && SelfEdges(room, exits, i + 1, p, w'.edges)
  {
    var d := exits[i];
    ExitStepKeeps(w, room, d, d0, depth, world, current, maxDepth, done);
    var next, nextDepth := ExitStep(w, room, d, d0), ExitDepth(w, depth, room, d, d0);
    ExtendsTrans(w0, depth0, w, depth, next, nextDepth);
    SelfEdgesStep(room, exits, i, p, w.edges, next.edges);
  }

  /** `_bfs_rooms`: the layout of the rooms around `current`, breadth
      first, expanding rooms less than `maxDepth` hops away. `world` is any
      closed set of rooms holding `current`. */
  method LayoutWalk(current: Room, maxDepth: nat, ghost world: set<Room>)
    returns (positions: map<Room, Pos>, edges: set<set<Pos>>, ghost depth: map<Room, nat>)
    requires current in world && World.Closed(world)
    requires forall r :: r in world ==> r.Valid()
    ensures positions.Keys <= world && depth.Keys == positions.Keys
    ensures current in positions && positions[current] == (0, 0) && depth[current] == 0
    ensures forall r :: r in positions ==> InRange(positions[r])
    ensures forall a, b :: a in positions && b in positions && positions[a] == positions[b] ==> a == b
    ensures forall r :: r in positions && r != current ==> HasParent(r, positions, depth, maxDepth)
    ensures forall e :: e in edges ==> EdgeOf(e, positions, depth, maxDepth)
    ensures forall q, d :: q in positions && depth[q] < maxDepth && d in q.connected && q.connected[d] == q ==>
      {positions[q]} in edges
    ensures ExitsSeen(positions.Keys, positions, depth, edges, maxDepth)
  {
    var w := Walk(map[current := (0, 0)], map[(0, 0) := current], {}, {current}, [(current, 0)]);
    depth := map[current := 0];
    ghost var done: set<Room> := {};
    WalkStart(world, current, maxDepth);
    WalkBound(world, current, maxDepth, w, depth);
    while w.queue != []
      invariant WalkInv(world, current, maxDepth, w, depth, done, {})
      invariant ExitsSeen(done, w.positions, depth, w.edges, maxDepth)
      invariant |w.visited| <= |Cells|
      decreases |Cells| - |w.visited|, |w.queue|
    {
      w, depth, done := VisitHead(w, depth, world, current, maxDepth, done);
    }
    WalkEnd(world, current, maxDepth, w, depth, done);
    positions, edges := w.positions, w.edges;
  }

  /** One pass of the `while queue` loop of `_bfs_rooms`: take the head
      off the queue and expand it unless it lies at `maxDepth` or beyond. */
  method VisitHead(w: Walk, ghost depth: map<Room, nat>, ghost world: set<Room>, ghost current: Room,
                   maxDepth: nat, ghost done: set<Room>)
    returns (w': Walk, ghost depth': map<Room, nat>, ghost done': set<Room>)
    requires World.Closed(world) && forall r :: r in world ==> r.Valid()
    requires WalkInv(world, current, maxDepth, w, depth, done, {}) && w.queue != []
    requires ExitsSeen(done, w.positions, depth, w.edges, maxDepth)
    ensures WalkInv(world, current, maxDepth, w', depth', done', {})
    ensures ExitsSeen(done', w'.positions, depth', w'.edges, maxDepth)
    ensures |w.visited| <= |w'.visited| <= |Cells|
    ensures |w'.visited| == |w.visited| ==> |w'.queue| < |w.queue|
  {
    PopRoom(world, current, maxDepth, w, depth, done);
    var room, d0 := w.queue[0].0, w.queue[0].1;
    w' := w.(queue := w.queue[1..]);
    depth', done' := depth, done + {room};
    if d0 >= maxDepth {
      SkipRoom(world, current, maxDepth, w', depth, done, room);
      WalkBound(world, current, maxDepth, w', depth');
      return;
    }
    ghost var popped := w';
    w', depth' := ExpandRoom(w', room, d0, depth, world, current, maxDepth, done);
    WalkBound(world, current, maxDepth, w', depth');
    SubsetCard(popped.visited, w'.visited);
  }

  lemma WalkStart(world: set<Room>, current: Room, maxDepth: nat)
    requires current in world
    ensures WalkInv(world, current, maxDepth, Walk(map[current := (0, 0)], map[(0, 0) := current], {}, {current}, [(current, 0)]),
                    map[current := 0], {}, {})
  {
    assert [(current, 0)][0].0 == current;
  }

  /** With the queue empty, every placed room has been taken off it. */
  lemma WalkEnd(world: set<Room>, current: Room, maxDepth: nat, w: Walk, depth: map<Room, nat>, done: set<Room>)
    requires WalkInv(world, current, maxDepth, w, depth, done, {}) && w.queue == []
    ensures done == w.positions.Keys
    ensures w.positions.Keys <= world && depth.Keys == w.positions.Keys
    ensures Placement(current, maxDepth, w.positions, depth)
    ensures forall e :: e in w.edges ==> EdgeOf(e, w.positions, depth, maxDepth)
    ensures forall q, d :: q in w.positions && depth[q] < maxDepth && d in q.connected && q.connected[d] == q ==>
      {w.positions[q]} in w.edges
  {
    assert done == w.positions.Keys;
  }

  /** The completeness of the layout: when an expanded room's step through
      exit `d` is in range and no other room holds it, the room behind the
      exit is placed there and the edge to it is recorded. */
  lemma PlaceableNeighbourPlaced(positions: map<Room, Pos>, depth: map<Room, nat>, edges: set<set<Pos>>,
                                 maxDepth: nat, q: Room, d: Direction)
    requires ExitsSeen(positions.Keys, positions, depth, edges, maxDepth)
    requires q in positions && q in depth && depth[q] < maxDepth && d in q.connected
    requires InRange(Shift(positions[q], d))
    requires forall r :: r in positions && r != q.connected[d] ==> positions[r] != Shift(positions[q], d)
    ensures q.connected[d] in positions && {positions[q], positions[q.connected[d]]} in edges
  {
    assert ExitSeen(q, d, positions, edges);
  }

  /** A placed room was reached from `current` in exactly its depth of hops
      through `world`, no deeper than `maxDepth`, and lies at most that many
      steps away on each axis. */
  lemma {:induction false} PlacedReachable(world: set<Room>, current: Room, maxDepth: nat,
                                           positions: map<Room, Pos>, depth: map<Room, nat>, r: Room)
    requires positions.Keys <= world && Placement(current, maxDepth, positions, depth)
    requires r in positions
    ensures World.ReachableIn(world, current, r, depth[r]) && depth[r] <= maxDepth
    ensures -depth[r] <= positions[r].0 <= depth[r] && -depth[r] <= positions[r].1 <= depth[r]
    decreases depth[r]
  {
    if r == current {
      assert World.ReachableIn(world, current, r, 0);
    } else {
      var q, d := ParentOf(r, positions, depth, maxDepth);
      PlacedReachable(world, current, maxDepth, positions, depth, q);
      ParentStep(world, current, q, r, d, depth[q]);
      DirVectorOpposite(d);
    }
  }

  lemma ParentOf(r: Room, positions: map<Room, Pos>, depth: map<Room, nat>, maxDepth: nat) returns (q: Room, d: Direction)
    requires HasParent(r, positions, depth, maxDepth)
    ensures && q in positions && q in depth && r in positions && r in depth
            && d in q.connected && q.connected[d] == r
            && depth[q] < maxDepth && depth[r] == depth[q] + 1
            && positions[r] == Shift(positions[q], d)
  {
    q, d :| && q in positions && q in depth && r in positions && r in depth
            && d in q.connected && q.connected[d] == r
            && depth[q] < maxDepth && depth[r] == depth[q] + 1
            && positions[r] == Shift(positions[q], d);
  }

  lemma ParentStep(world: set<Room>, current: Room, q: Room, r: Room, d: Direction, n: nat)
    requires q in world && d in q.connected && q.connected[d] == r
    requires World.ReachableIn(world, current, q, n)
    ensures World.ReachableIn(world, current, r, n + 1)
  {
    assert r in q.connected.Values;
  }

  // -----------------------------------------------------------------------
  // The character grid of make_map
  // -----------------------------------------------------------------------

  const GW: int := 30
  const GH: int := 19

  /** The two box styles: `bold yellow` for the current room, `cyan` for
      the others. */
  datatype Style = BoldYellow | Cyan

  /** The path strings: `|`, `--`, `/` and `\`. */
  datatype Glyph = Pipe | Dash | Slash | Backslash

  /** One grid cell: `" "` as created, `""` once a box has cleared it, the
      box rim `+--+`, the box side `|..|` holding a label, or a path. */
  datatype Cell = Blank | Cleared | Rim(style: Style) | Side(style: Style, text: string) | Path(glyph: Glyph)

  /** What `_draw_path` writes: a glyph at a row and column. */
  datatype Mark = Mark(row: int, col: int, glyph: Glyph)

  /** The label and style of one room's box. */
  datatype Tile = Tile(name: string, style: Style)

  predicate Straight(g: Glyph) {
    g == Pipe || g == Dash
  }

  /** `_grid_pos`: the top-left (column, row) of the box of a position; the
      box of an in-range position fits the grid. */
  function GridPos(p: Pos): (cr: (int, int))
    ensures InRange(p) ==> 0 <= cr.0 && cr.0 + 3 < GW && 0 <= cr.1 && cr.1 + 2 < GH
  {
    ((p.0 + 2) * 6, (p.1 + 2) * 4)
  }

  /** The cells `_place_box` writes for a box at (`col`, `row`): three rows
      and four columns. */
  predicate InBox(col: int, row: int, i: int, j: int) {
    row <= i <= row + 2 && col <= j <= col + 3
  }

  predicate Footprint(p: Pos, i: int, j: int) {
    InBox(GridPos(p).0, GridPos(p).1, i, j)
  }

  /** `label[:2]`. */
  function Prefix2(s: string): (r: string)
    ensures |r| <= 2 && r <= s
    ensures |s| >= 2 ==> |r| == 2
  {
    if |s| <= 2 then s else s[..2]
  }

  /** The content `_place_box` gives cell (`i`, `j`) of its box: the rim
      above and below, the side with the label in the middle, both in the
      left column; the three columns to its right cleared. */
  function BoxCell(col: int, row: int, t: Tile, i: int, j: int): Cell {
    if j == col then (if i == row + 1 then Side(t.style, Prefix2(t.name)) else Rim(t.style))
    else Cleared
  }

  function TileCell(p: Pos, t: Tile, i: int, j: int): Cell {
    BoxCell(GridPos(p).0, GridPos(p).1, t, i, j)
  }

  /** Boxes of distinct in-range positions share no cell. */
  lemma BoxesDisjoint(p: Pos, q: Pos, i: int, j: int)
    requires InRange(p) && InRange(q)
    requires Footprint(p, i, j) && Footprint(q, i, j)
    ensures p == q
  {
  }

  /** `_place_box`: the box of `t` at (`col`, `row`), every other cell kept.
      The clearing loop skips columns past the right edge of the grid. */
  method PlaceBox(g: array2<Cell>, col: int, row: int, t: Tile)
    requires 0 <= row && row + 2 < g.Length0 && 0 <= col < g.Length1
    modifies g
    ensures forall i, j :: 0 <= i < g.Length0 && 0 <= j < g.Length1 ==>
      g[i, j] == if InBox(col, row, i, j) then BoxCell(col, row, t, i, j) else old(g[i, j])
  {
    g[row, col] := Rim(t.style);
    g[row + 1, col] := Side(t.style, Prefix2(t.name));
    g[row + 2, col] := Rim(t.style);
    for r := row to row + 3
      invariant forall i, j :: 0 <= i < g.Length0 && 0 <= j < g.Length1 ==>
        g[i, j] == if InBox(col, row, i, j) && (j == col || i < r) then BoxCell(col, row, t, i, j) else old(g[i, j])
    {
      for c := col + 1 to col + 4
        invariant forall i, j :: 0 <= i < g.Length0 && 0 <= j < g.Length1 ==>
          g[i, j] == if InBox(col, row, i, j) && (j == col || i < r || (i == r && j < c))
                     then BoxCell(col, row, t, i, j) else old(g[i, j])
      {
        if c < g.Length1 {
          g[r, c] := Cleared;
        }
      }
    }
  }

  /** The one cell `_draw_path` writes for a path from `p1` to `p2`, by the
      step between them: none when they are further apart than one step on
      either axis or are the same position. */
  function PathMark(p1: Pos, p2: Pos): Option<Mark> {
    var ddx, ddy := p2.0 - p1.0, p2.1 - p1.1;
    var c1, r1 := GridPos(p1).0, GridPos(p1).1;
    if ddx < -1 || ddx > 1 || ddy < -1 || ddy > 1 then None
    else if ddx == 0 && ddy == -1 then Some(Mark(r1 - 1, c1 + 1, Pipe))
    else if ddx == 0 && ddy == 1 then Some(Mark(r1 + 3, c1 + 1, Pipe))
    else if ddx == 1 && ddy == 0 then Some(Mark(r1 + 1, c1 + 4, Dash))
    else if ddx == -1 && ddy == 0 then Some(Mark(r1 + 1, c1 - 2, Dash))
    else if ddx == 1 && ddy == -1 then Some(Mark(r1 - 1, c1 + 4, Slash))
    else if ddx == -1 && ddy == -1 then Some(Mark(r1 - 1, c1 - 1, Backslash))
    else if ddx == 1 && ddy == 1 then Some(Mark(r1 + 3, c1 + 4, Backslash))
    else if ddx == -1 && ddy == 1 then Some(Mark(r1 + 3, c1 - 1, Slash))
    else None
  }

  /** A path is drawn exactly between distinct positions one step apart. */
  lemma PathMarkDrawn(p1: Pos, p2: Pos)
    ensures PathMark(p1, p2).Some? <==> p1 != p2 && -1 <= p2.0 - p1.0 <= 1 && -1 <= p2.1 - p1.1 <= 1
  {
  }

  /** The cell of a path between in-range positions lies on the grid and in
      the gap between boxes, never inside a box. */
  lemma PathMarkPlaced(p1: Pos, p2: Pos, q: Pos)
    requires InRange(p1) && InRange(p2) && InRange(q) && PathMark(p1, p2).Some?
    ensures 0 <= PathMark(p1, p2).value.row < GH && 0 <= PathMark(p1, p2).value.col < GW
    ensures !Footprint(q, PathMark(p1, p2).value.row, PathMark(p1, p2).value.col)
  {
  }

  /** Drawn from either end, a straight path marks the same cell; a
      diagonal one keeps its row and glyph but moves one column, towards the
      end it is drawn from. */
  lemma PathMarkReversed(p1: Pos, p2: Pos)
    requires PathMark(p1, p2).Some?
    ensures PathMark(p2, p1).Some?
    ensures Straight(PathMark(p1, p2).value.glyph) ==> PathMark(p2, p1) == PathMark(p1, p2)
    ensures !Straight(PathMark(p1, p2).value.glyph) ==>
      PathMark(p2, p1) == Some(PathMark(p1, p2).value.(col := PathMark(p1, p2).value.col + p2.0 - p1.0))
  {
  }

  /** The cell of a straight path tells its glyph: a `|` lies in a gap
      row, under the second column of a box; a `--` lies in the middle row
      of a box, in a gap column.  Diagonals lie in gap rows and gap
      columns. */
  lemma PathMarkCell(p1: Pos, p2: Pos)
    requires InRange(p1) && InRange(p2) && PathMark(p1, p2).Some?
    ensures var m := PathMark(p1, p2).value;
      && (m.glyph == Pipe <==> m.row % 4 == 3 && m.col % 6 == 1)
      && (m.glyph == Dash <==> m.row % 4 == 1 && m.col % 6 == 4)
  {
  }

  /** Two paths between in-range positions that mark the same cell, one
      with a straight glyph, mark it with the same glyph: only crossing
      diagonals can overwrite each other. */
  lemma StraightMarksKept(p1: Pos, p2: Pos, p3: Pos, p4: Pos)
    requires InRange(p1) && InRange(p2) && InRange(p3) && InRange(p4)
    requires PathMark(p1, p2).Some? && PathMark(p3, p4).Some?
    requires PathMark(p1, p2).value.row == PathMark(p3, p4).value.row
    requires PathMark(p1, p2).value.col == PathMark(p3, p4).value.col
    requires Straight(PathMark(p1, p2).value.glyph)
    ensures PathMark(p3, p4).value.glyph == PathMark(p1, p2).value.glyph
  {
    PathMarkCell(p1, p2);
    PathMarkCell(p3, p4);
  }

  /** `_draw_path`: write the path cell between `p1` and `p2`, if any;
      every other cell is kept. */
  method DrawPath(g: array2<Cell>, p1: Pos, p2: Pos)
    requires g.Length0 == GH && g.Length1 == GW && InRange(p1) && InRange(p2)
    modifies g
    ensures forall i, j :: 0 <= i < GH && 0 <= j < GW ==>
      g[i, j] == if PathMark(p1, p2).Some? && PathMark(p1, p2).value.row == i && PathMark(p1, p2).value.col == j
                 then Path(PathMark(p1, p2).value.glyph) else old(g[i, j])
  {
    var m := PathMark(p1, p2);
    if m.Some? {
      PathMarkPlaced(p1, p2, p1);
      g[m.value.row, m.value.col] := Path(m.value.glyph);
    }
  }

  /** The box of a room: `@@` in bold yellow for the current room, its
      name in cyan for the others. */
  function TileOf(r: Room, current: Room): Tile {
    if r == current then Tile("@@", BoldYellow) else Tile(r.name, Cyan)
  }

  /** The loop of `make_map` over `positions`: every room's box on an
      all-blank grid (boxes of distinct positions do not overlap, so the
      order of the rooms does not matter). */
  method PlaceBoxes(g: array2<Cell>, positions: map<Room, Pos>, current: Room)
    requires g.Length0 == GH && g.Length1 == GW
    requires forall i, j :: 0 <= i < GH && 0 <= j < GW ==> g[i, j] == Blank
    requires forall r :: r in positions ==> InRange(positions[r])
    requires forall a, b :: a in positions && b in positions && positions[a] == positions[b] ==> a == b
    modifies g
    ensures forall r, i, j :: r in positions && 0 <= i < GH && 0 <= j < GW && Footprint(positions[r], i, j) ==>
      g[i, j] == TileCell(positions[r], TileOf(r, current), i, j)
    ensures forall i, j :: 0 <= i < GH && 0 <= j < GW && (forall r :: r in positions ==> !Footprint(positions[r], i, j)) ==>
      g[i, j] == Blank
  {
    var todo := positions.Keys;
    ghost var placed: set<Room> := {};
    while todo != {}
      invariant placed == positions.Keys - todo && todo <= positions.Keys
      invariant forall r, i, j :: r in placed && 0 <= i < GH && 0 <= j < GW && Footprint(positions[r], i, j) ==>
        g[i, j] == TileCell(positions[r], TileOf(r, current), i, j)
      invariant forall i, j :: 0 <= i < GH && 0 <= j < GW && (forall r :: r in placed ==> !Footprint(positions[r], i, j)) ==>
        g[i, j] == Blank
      decreases todo
    {
      var room :| room in todo;
      var col, row := GridPos(positions[room]).0, GridPos(positions[room]).1;
      PlaceBox(g, col, row, TileOf(room, current));
      forall r, i, j | r in placed && 0 <= i < GH && 0 <= j < GW && Footprint(positions[r], i, j)
        ensures !InBox(col, row, i, j)
      {
        if InBox(col, row, i, j) {
          BoxesDisjoint(positions[r], positions[room], i, j);
        }
      }
      placed := placed + {room};
      todo := todo - {room};
    }
  }

  /** The loop of `make_map` over `edges`: `tuple(edge)` unpacks each edge
      into its two ends (in either order) and draws the path between them;
      an edge that does not hold exactly two positions raises, and the map
      is not made (`ok` is false).  The result holds exactly the marks
      `marks`, each of an edge of `edges`; every other cell is kept, and
      every straight path stays drawn. */
  method DrawPaths(g: array2<Cell>, edges: set<set<Pos>>) returns (ok: bool, ghost marks: set<Mark>)
    requires g.Length0 == GH && g.Length1 == GW
    requires forall e, p :: e in edges && p in e ==> InRange(p)
    modifies g
    ensures ok <==> forall e :: e in edges ==> |e| == 2
    ensures ok ==> MarksFrom(marks, edges)
    ensures ok ==> forall i, j :: 0 <= i < GH && 0 <= j < GW ==>
      g[i, j] == old(g[i, j]) || (g[i, j].Path? && Mark(i, j, g[i, j].glyph) in marks)
    ensures ok ==> forall i, j :: 0 <= i < GH && 0 <= j < GW && (forall m :: m in marks ==> m.row != i || m.col != j) ==>
      g[i, j] == old(g[i, j])
    ensures ok ==> forall m :: m in marks && Straight(m.glyph) ==> g[m.row, m.col] == Path(m.glyph)
    ensures ok ==> forall e :: e in edges ==> StraightDrawn(e, marks)
  {
    var todo := edges;
    marks := {};
    while todo != {}
      invariant todo <= edges
      invariant forall e :: e in edges - todo ==> |e| == 2
      invariant MarksFrom(marks, edges)
      invariant forall i, j :: 0 <= i < GH && 0 <= j < GW ==>
        g[i, j] == old(g[i, j]) || (g[i, j].Path? && Mark(i, j, g[i, j].glyph) in marks)
      invariant forall i, j :: 0 <= i < GH && 0 <= j < GW && (forall m :: m in marks ==> m.row != i || m.col != j) ==>
        g[i, j] == old(g[i, j])
      invariant forall m :: m in marks && Straight(m.glyph) ==> g[m.row, m.col] == Path(m.glyph)
      invariant forall e :: e in edges - todo ==> StraightDrawn(e, marks)
      decreases todo
    {
      var e :| e in todo;
      if |e| != 2 {
        return false, marks;
      }
      var p1 :| p1 in e;
      var rest := e - {p1};
      assert |rest| == 1;
      var p2 :| p2 in rest;
      TwoEnds(e, p1, p2);
      DrawPath(g, p1, p2);
      var mark := PathMark(p1, p2);
      ghost var marks' := if mark.Some? then marks + {mark.value} else marks;
      if mark.Some? {
        MarksAdd(marks, edges, p1, p2);
      }
      EdgeDrawn(edges - todo, marks, marks', e, p1, p2);
      marks := marks';
      todo := todo - {e};
    }
    ok := true;
  }

  /** Every mark lies on the grid, was made by an edge of `edges`, and
      sits in the cell kind of its glyph. */
  ghost predicate MarksFrom(marks: set<Mark>, edges: set<set<Pos>>) {
    forall m :: m in marks ==>
      && 0 <= m.row < GH && 0 <= m.col < GW
      && (exists a, b :: {a, b} in edges && a != b && PathMark(a, b) == Some(m))
      && (m.glyph == Pipe <==> m.row % 4 == 3 && m.col % 6 == 1)
      && (m.glyph == Dash <==> m.row % 4 == 1 && m.col % 6 == 4)
  }

  lemma MarksAdd(marks: set<Mark>, edges: set<set<Pos>>, p1: Pos, p2: Pos)
    requires MarksFrom(marks, edges) && {p1, p2} in edges && p1 != p2
    requires InRange(p1) && InRange(p2) && PathMark(p1, p2).Some?
    ensures MarksFrom(marks + {PathMark(p1, p2).value}, edges)
    ensures forall m :: m in marks && Straight(m.glyph) && m.row == PathMark(p1, p2).value.row && m.col == PathMark(p1, p2).value.col ==>
      m.glyph == PathMark(p1, p2).value.glyph
  {
    PathMarkPlaced(p1, p2, p1);
    PathMarkCell(p1, p2);
  }

  /** The straight path of edge `e`, if it has one, is among `marks`,
      whichever end it is drawn from. */
  ghost predicate StraightDrawn(e: set<Pos>, marks: set<Mark>) {
    forall a, b :: {a, b} == e && a != b && PathMark(a, b).Some? && Straight(PathMark(a, b).value.glyph) ==>
      PathMark(a, b).value in marks
  }

  lemma EdgeDrawn(done: set<set<Pos>>, marks: set<Mark>, marks': set<Mark>, e: set<Pos>, p1: Pos, p2: Pos)
    requires forall d :: d in done ==> StraightDrawn(d, marks)
    requires e == {p1, p2} && p1 != p2
    requires marks' == if PathMark(p1, p2).Some? then marks + {PathMark(p1, p2).value} else marks
    ensures forall d :: d in done + {e} ==> StraightDrawn(d, marks')
  {
    TwoEnds(e, p1, p2);
    if PathMark(p1, p2).Some? {
      PathMarkReversed(p1, p2);
    } else {
      PathMarkDrawn(p1, p2);
      PathMarkDrawn(p2, p1);
    }
  }

  /** A two-element set is the pair of any two distinct members. */
  lemma TwoEnds(e: set<Pos>, p1: Pos, p2: Pos)
    requires |e| == 2 && p1 in e && p2 in e && p1 != p2
    ensures e == {p1, p2}
    ensures forall a, b :: {a, b} == e && a != b ==> (a == p1 && b == p2) || (a == p2 && b == p1)
  {
    var rest := e - {p1, p2};
    assert e == {p1, p2} + rest;
    assert |rest| == 0;
  }

  /** The finished map: every placed room's box; outside the boxes a cell
      is blank or holds the path of an edge between two distinct positions;
      the cell of every straight path holds it. */
  ghost predicate Rendered(g: array2<Cell>, current: Room, positions: map<Room, Pos>, edges: set<set<Pos>>)
    reads g
  {
    && g.Length0 == GH && g.Length1 == GW
    && (forall r, i, j :: r in positions && 0 <= i < GH && 0 <= j < GW && Footprint(positions[r], i, j) ==>
          g[i, j] == TileCell(positions[r], TileOf(r, current), i, j))
    && (forall i, j :: 0 <= i < GH && 0 <= j < GW && (forall r :: r in positions ==> !Footprint(positions[r], i, j)) ==>
          || g[i, j] == Blank
          || (g[i, j].Path? && exists a, b :: {a, b} in edges && a != b && PathMark(a, b) == Some(Mark(i, j, g[i, j].glyph))))
    && (forall a, b :: {a, b} in edges && a != b && PathMark(a, b).Some? && Straight(PathMark(a, b).value.glyph) ==>
          var m := PathMark(a, b).value;
          0 <= m.row < GH && 0 <= m.col < GW && g[m.row, m.col] == Path(m.glyph))
  }

  /** `make_map`: lay out the rooms within two hops of `current`, draw
      their boxes on a blank 19 x 30 grid, then the paths between them.  No
      map is made (`None`, where the source raises) exactly when an
      expanded room has an exit back to itself: its one-position edge
      cannot be unpacked into two ends. */
  method MakeMap(current: Room, ghost world: set<Room>)
    returns (grid: Option<array2<Cell>>, ghost positions: map<Room, Pos>, ghost edges: set<set<Pos>>,
             ghost depth: map<Room, nat>)
    requires current in world && World.Closed(world)
    requires forall r :: r in world ==> r.Valid()
    ensures positions.Keys <= world && Placement(current, 2, positions, depth)
    ensures forall e :: e in edges ==> EdgeOf(e, positions, depth, 2)
    ensures ExitsSeen(positions.Keys, positions, depth, edges, 2)
    ensures grid.None? <==> exists q, d :: q in positions && depth[q] < 2 && d in q.connected && q.connected[d] == q
    ensures grid.Some? ==> Rendered(grid.value, current, positions, edges)
  {
    var pos, es;
    pos, es, depth := LayoutWalk(current, 2, world);
    positions, edges := pos, es;
    assert Placement(current, 2, positions, depth);
    assert EdgesJoin(edges, positions, depth, 2);
    EdgesInRange(pos, depth, es);
    SelfLoopEdges(current, pos, depth, es);
    var ok, g := DrawMap(current, pos, es);
    grid := if ok then Some(g) else None;
  }

  /** The grid part of `make_map`: a blank grid, the boxes of `positions`,
      then the paths of `edges`; `ok` is false where unpacking an edge
      raises. */
  method DrawMap(current: Room, positions: map<Room, Pos>, edges: set<set<Pos>>) returns (ok: bool, g: array2<Cell>)
    requires forall r :: r in positions ==> InRange(positions[r])
    requires forall a, b :: a in positions && b in positions && positions[a] == positions[b] ==> a == b
    requires forall e, p :: e in edges && p in e ==> InRange(p)
    ensures ok <==> forall e :: e in edges ==> |e| == 2
    ensures ok ==> Rendered(g, current, positions, edges)
  {
    g := new Cell[GH, GW]((i, j) => Blank);
    PlaceBoxes(g, positions, current);
    label Boxed:
    ghost var marks;
    ok, marks := DrawPaths(g, edges);
    if !ok {
      return;
    }
    MarksOutsideBoxes(marks, edges);
    forall r, i, j | r in positions && 0 <= i < GH && 0 <= j < GW && Footprint(positions[r], i, j)
      ensures g[i, j] == old@Boxed(g[i, j])
    {
      assert forall m :: m in marks ==> m.row != i || m.col != j;
    }
  }

  /** Both ends of every edge are in range. */
  lemma EdgesInRange(positions: map<Room, Pos>, depth: map<Room, nat>, edges: set<set<Pos>>)
    requires forall r :: r in positions ==> InRange(positions[r])
    requires forall e :: e in edges ==> EdgeOf(e, positions, depth, 2)
    ensures forall e, p :: e in edges && p in e ==> InRange(p)
  {
    forall e, p | e in edges && p in e
      ensures InRange(p)
    {
      var q, d :| && q in positions && q in depth && depth[q] < 2
                  && d in q.connected && q.connected[d] in positions
                  && e == {positions[q], positions[q.connected[d]]};
    }
  }

  /** An edge fails to be a pair exactly when an expanded room has an exit
      back to itself. */
  lemma SelfLoopEdges(current: Room, positions: map<Room, Pos>, depth: map<Room, nat>, edges: set<set<Pos>>)
    requires depth.Keys == positions.Keys
    requires forall a, b :: a in positions && b in positions && positions[a] == positions[b] ==> a == b
    requires forall e :: e in edges ==> EdgeOf(e, positions, depth, 2)
    requires forall q, d :: q in positions && depth[q] < 2 && d in q.connected && q.connected[d] == q ==>
      {positions[q]} in edges
    ensures (forall e :: e in edges ==> |e| == 2) <==>
      !exists q, d :: q in positions && depth[q] < 2 && d in q.connected && q.connected[d] == q
  {
    if exists q, d :: q in positions && depth[q] < 2 && d in q.connected && q.connected[d] == q {
      var q, d :| q in positions && depth[q] < 2 && d in q.connected && q.connected[d] == q;
      assert |{positions[q]}| == 1;
    } else {
      forall e | e in edges
        ensures |e| == 2
      {
        var q, d :| && q in positions && q in depth && depth[q] < 2
                    && d in q.connected && q.connected[d] in positions
                    && e == {positions[q], positions[q.connected[d]]};
        assert positions[q] != positions[q.connected[d]];
      }
    }
  }

  /** No mark made by an edge of in-range positions falls inside a box. */
  lemma MarksOutsideBoxes(marks: set<Mark>, edges: set<set<Pos>>)
    requires MarksFrom(marks, edges)
    requires forall e, p :: e in edges && p in e ==> InRange(p)
    ensures forall m, q :: m in marks && InRange(q) ==> !Footprint(q, m.row, m.col)
  {
    forall m, q | m in marks && InRange(q)
      ensures !Footprint(q, m.row, m.col)
    {
      var a, b :| {a, b} in edges && a != b && PathMark(a, b) == Some(m);
      assert a in {a, b} && b in {a, b};
      PathMarkPlaced(a, b, q);
    }
  }
}
