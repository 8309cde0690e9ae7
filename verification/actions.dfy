/** The command parser, target resolver and action handlers of the game
    loop (logic/actions.py).  All of it only reads the current room and
    builds a fresh result, so it is modelled by functions. */
module Actions {
  import opened Common
  import opened Rooms

  datatype Action = Look | Move | Inventory | Help | Quit

  /** What an input resolved to: a room, an item, or the unresolved text. */
  datatype Target = RoomTarget(room: Room) | ItemTarget(item: Item) | Unresolved(text: string)

  datatype Parsed = Parsed(action: Action, inputs: seq<Target>)

  /** The messages an action produces, without their Rich markup. */
  datatype ActionMessage =
    | RoomText(text: string)                     // a room's long or short description
    | ObjectName(name: string)                   // looking at an item
    | NotSeen(text: string)                      // "You don't see '...' here."
    | MoveWhere                                  // "Move where?"
    | Moved(direction: string, roomName: string) // "You move <dir> to <room>."
    | UnknownCommand(target: Target)             // "Unknown command: ... Type help ..."
    | NothingHere                                // "Nothing here."
    | ItemLine(name: string)                     // "  - <item>"
    | CommandsHelp                               // the action handler's command summary
    | ScreenCommandsHelp                         // the simple game screen's shorter command summary
    | GoTo(exits: seq<(string, string)>)         // "Go to: <room> (<dir>), ..."
    | Welcome                                    // the greeting a game screen's log starts with

  datatype ActionResult = ActionResult(messages: seq<ActionMessage>, newRoom: Option<Room>, quit: bool)

  // -----------------------------------------------------------------------
  // Direction names
  // -----------------------------------------------------------------------

  /** `_DIRECTION_NAMES.get(s)`: the direction whose lower-cased name, with
      `_` replaced by a space, is `s`. */
  function DirectionNamed(s: string): (r: Option<Direction>) {
    if s == "north" then Some(North)
    else if s == "north east" then Some(NorthEast)
    else if s == "east" then Some(East)
    else if s == "south east" then Some(SouthEast)
    else if s == "south" then Some(South)
    else if s == "south west" then Some(SouthWest)
    else if s == "west" then Some(West)
    else if s == "north west" then Some(NorthWest)
    else None
  }

  /** The direction-name table is exactly the inverse of the naming rule. */
  lemma DirectionNamedInverse(s: string, d: Direction)
    ensures DirectionNamed(DirectionKey(d)) == Some(d)
    ensures DirectionNamed(s) == Some(d) <==> s == DirectionKey(d)
  {
  }

  // -----------------------------------------------------------------------
  // First-match searches
  // -----------------------------------------------------------------------

  /** Whether exit `d` leads to a room whose lower-cased name is `name`. */
  predicate ExitNamed(connected: map<Direction, Room>, d: Direction, name: string) {
    d in connected && Lower(connected[d].name) == name
  }

  /** Position, in insertion order, of the first exit whose room is called
      `name`; `|order|` when there is none. */
  function FirstExitNamed(connected: map<Direction, Room>, order: seq<Direction>, name: string): (k: nat)
    ensures k <= |order|
    ensures k < |order| ==> ExitNamed(connected, order[k], name)
    ensures forall j :: 0 <= j < k ==> !ExitNamed(connected, order[j], name)
  {
    if order == [] then 0
    else if ExitNamed(connected, order[0], name) then 0
    else 1 + FirstExitNamed(connected, order[1..], name)
  }

  /** Position of the first item whose lower-cased name is `name`; `|items|`
      when there is none. */
  function FirstItemNamed(items: seq<Item>, name: string): (k: nat)
    ensures k <= |items|
    ensures k < |items| ==> Lower(items[k].name) == name
    ensures forall j :: 0 <= j < k ==> Lower(items[j].name) != name
  {
    if items == [] then 0
    else if Lower(items[0].name) == name then 0
    else 1 + FirstItemNamed(items[1..], name)
  }

  /** Position of the first exit leading to exactly the room `target`. */
  function FirstExitTo(connected: map<Direction, Room>, order: seq<Direction>, target: Room): (k: nat)
    ensures k <= |order|
    ensures k < |order| ==> order[k] in connected && connected[order[k]] == target
    ensures forall j :: 0 <= j < k ==> !(order[j] in connected && connected[order[j]] == target)
  {
    if order == [] then 0
    else if order[0] in connected && connected[order[0]] == target then 0
    else 1 + FirstExitTo(connected, order[1..], target)
  }

  /** `t` is the room itself or one of its neighbours. */
  predicate Nearby(room: Room, t: Room)
    reads room
  {
    t == room || exists d :: d in room.connected && room.connected[d] == t
  }

  /** Some connected room is called `name`. */
  predicate SomeExitNamed(room: Room, name: string)
    reads room
  {
    exists d :: ExitNamed(room.connected, d, name)
  }

  /** In a well-formed room, the first-match search misses only when no
      exit matches at all. */
  lemma FirstExitNamedMisses(room: Room, name: string)
    requires room.Valid()
    ensures FirstExitNamed(room.connected, room.exitOrder, name) == |room.exitOrder| <==> !SomeExitNamed(room, name)
  {
    if SomeExitNamed(room, name) {
      var d :| ExitNamed(room.connected, d, name);
      var j :| 0 <= j < |room.exitOrder| && room.exitOrder[j] == d;
      assert ExitNamed(room.connected, room.exitOrder[j], name);
    }
  }

  /** Likewise, the search for an exit into `t` misses only when no exit
      leads to `t`. */
  lemma FirstExitToMisses(room: Room, t: Room)
    requires room.Valid()
    ensures FirstExitTo(room.connected, room.exitOrder, t) == |room.exitOrder|
            <==> !exists d :: d in room.connected && room.connected[d] == t
  {
    if exists d :: d in room.connected && room.connected[d] == t {
      var d :| d in room.connected && room.connected[d] == t;
      var j :| 0 <= j < |room.exitOrder| && room.exitOrder[j] == d;
      assert room.exitOrder[j] in room.connected && room.connected[room.exitOrder[j]] == t;
    }
  }

  /** Moving to a room announces a direction exactly when an exit of the
      current room leads there. */
  lemma MoveAnnouncedIffExit(t: Room, rest: seq<Target>, room: Room)
    requires room.Valid()
    ensures |ExecMove([RoomTarget(t)] + rest, room).messages| == |RoomLook(t)| + 1
            <==> exists d :: d in room.connected && room.connected[d] == t
  {
    ExecMoveAnnounces(t, rest, room);
    FirstExitToMisses(room, t);
  }

  // -----------------------------------------------------------------------
  // Resolution
  // -----------------------------------------------------------------------

  /** `_resolve_move_target`: a connected direction name, else the first
      connected room with that (lower-cased) name, else the text itself. */
  function ResolveMoveTarget(arg: string, room: Room): (t: Target)
    requires room.Valid()
    reads room
    ensures t.RoomTarget? ==> exists d :: d in room.connected && room.connected[d] == t.room
    ensures !t.ItemTarget?
    ensures t.Unresolved? ==> t.text == arg
  {
    var dir := DirectionNamed(arg);
    if dir.Some? && dir.value in room.connected then RoomTarget(room.connected[dir.value])
    else
      var k := FirstExitNamed(room.connected, room.exitOrder, arg);
      if k < |room.exitOrder| then RoomTarget(room.connected[room.exitOrder[k]])
      else Unresolved(arg)
  }

  /** A direction name wins over a room name, and the text stays unresolved
      exactly when it names neither a connected direction nor a connected
      room. */
  lemma ResolveMoveTargetCases(arg: string, room: Room, d: Direction)
    requires room.Valid()
    ensures d in room.connected && arg == DirectionKey(d) ==>
      ResolveMoveTarget(arg, room) == RoomTarget(room.connected[d])
    ensures ResolveMoveTarget(arg, room).Unresolved? <==>
      (DirectionNamed(arg).None? || DirectionNamed(arg).value !in room.connected) && !SomeExitNamed(room, arg)
  {
    DirectionNamedInverse(arg, d);
    FirstExitNamedMisses(room, arg);
  }

  /** `_resolve_look_target`: the room itself for an empty argument, then
      the first item with that name, then the first connected room, else the
      text itself. */
  function ResolveLookTarget(arg: string, room: Room): (t: Target)
    requires room.Valid()
    reads room
    ensures arg == "" ==> t == RoomTarget(room)
    ensures t.RoomTarget? ==> Nearby(room, t.room)
    ensures t.ItemTarget? ==> t.item in room.presentItems && Lower(t.item.name) == arg
    ensures t.Unresolved? ==> t.text == arg
  {
    if arg == "" then RoomTarget(room)
    else
      var i := FirstItemNamed(room.presentItems, arg);
      if i < |room.presentItems| then ItemTarget(room.presentItems[i])
      else
        var k := FirstExitNamed(room.connected, room.exitOrder, arg);
        if k < |room.exitOrder| then RoomTarget(room.connected[room.exitOrder[k]])
        else Unresolved(arg)
  }

  /** Items are searched before rooms: a matching item always wins; a
      non-empty argument stays unresolved exactly when neither an item nor a
      connected room matches. */
  lemma ResolveLookTargetOrder(arg: string, room: Room, i: nat)
    requires room.Valid()
    requires arg != ""
    ensures i < |room.presentItems| && Lower(room.presentItems[i].name) == arg ==>
      ResolveLookTarget(arg, room).ItemTarget?
    ensures ResolveLookTarget(arg, room).Unresolved? <==>
      (forall j :: 0 <= j < |room.presentItems| ==> Lower(room.presentItems[j].name) != arg) && !SomeExitNamed(room, arg)
  {
    FirstExitNamedMisses(room, arg);
    var k := FirstItemNamed(room.presentItems, arg);
    if i < |room.presentItems| && Lower(room.presentItems[i].name) == arg {
      assert k <= i;
    }
  }

  // -----------------------------------------------------------------------
  // Parsing
  // -----------------------------------------------------------------------

  /** `raw.strip().lower()` */
  function Normalise(raw: string): string {
    Lower(Strip(raw))
  }

  /** The verbs that name an action by themselves. */
  function Keyword(verb: string): (a: Option<Action>)
    ensures a != Some(Move)
  {
    if verb == "look" then Some(Look)
    else if verb == "inventory" || verb == "inv" then Some(Inventory)
    else if verb == "help" then Some(Help)
    else if verb == "quit" || verb == "exit" then Some(Quit)
    else None
  }

  /** `parse` on a line already stripped and lower-cased: the first word
      picks the action; `look` resolves its argument as a look target,
      `move <arg>` resolves `<arg>`, and every other line (a bare `move`
      included) is resolved whole as a move target. */
  function ParseLine(line: string, room: Room): (p: Parsed)
    requires room.Valid()
    reads room
    ensures p.action == Look || p.action == Move <==> |p.inputs| == 1
    ensures p.action != Look && p.action != Move ==> p.inputs == []
    ensures p.action == Move ==> p.inputs[0].RoomTarget? || p.inputs[0].Unresolved?
    ensures |p.inputs| == 1 && p.inputs[0].RoomTarget? ==> Nearby(room, p.inputs[0].room)
  {
    var parts := Split1(line);
    if parts == [] then Parsed(Look, [RoomTarget(room)])
    else
      var verb := parts[0];
      var arg := if |parts| > 1 then parts[1] else "";
      match Keyword(verb)
      case Some(Look) => Parsed(Look, [ResolveLookTarget(arg, room)])
      case Some(action) => Parsed(action, [])
      case None =>
        if verb == "move" && arg != "" then Parsed(Move, [ResolveMoveTarget(arg, room)])
        else Parsed(Move, [ResolveMoveTarget(line, room)])
  }

  /** `parse`: the raw line is stripped and lower-cased first. */
  function Parse(raw: string, room: Room): (p: Parsed)
    requires room.Valid()
    reads room
    ensures p.action == Look || p.action == Move <==> |p.inputs| == 1
    ensures p.action != Look && p.action != Move ==> p.inputs == []
    ensures p.action == Move ==> p.inputs[0].RoomTarget? || p.inputs[0].Unresolved?
    ensures |p.inputs| == 1 && p.inputs[0].RoomTarget? ==> Nearby(room, p.inputs[0].room)
  {
    ParseLine(Normalise(raw), room)
  }

  /** Empty or whitespace-only input looks at the current room. */
  lemma ParseBlank(raw: string, room: Room)
    requires room.Valid()
    requires IsBlank(raw)
    ensures Parse(raw, room) == Parsed(Look, [RoomTarget(room)])
  {
  }

  /** Parsing sees the input only after stripping and lower-casing it. */
  lemma ParseNormalised(raw: string, room: Room)
    requires room.Valid()
    ensures Parse(Normalise(raw), room) == Parse(raw, room)
  {
    NormalisedIsFixed(raw);
    assert Normalise(Normalise(raw)) == Normalise(raw);
  }

  /** Every keyword is a single word. */
  lemma KeywordIsWord(w: string)
    requires Keyword(w).Some?
    ensures Split1(w) == [w]
  {
    if w == "look" { Split1Word("look"); }
    else if w == "inventory" { Split1Word("inventory"); }
    else if w == "inv" { Split1Word("inv"); }
    else if w == "help" { Split1Word("help"); }
    else if w == "quit" { Split1Word("quit"); }
    else { Split1Word("exit"); }
  }

  /** A keyword on its own, in any case and with any surrounding blanks,
      is that action; `look` alone looks at the current room. */
  lemma ParseKeywords(raw: string, room: Room)
    requires room.Valid()
    requires Keyword(Normalise(raw)).Some?
    ensures var a := Keyword(Normalise(raw)).value;
      Parse(raw, room) == Parsed(a, if a == Look then [RoomTarget(room)] else [])
  {
    KeywordIsWord(Normalise(raw));
  }

  /** `move <arg>` resolves `<arg>` as a move target. */
  lemma ParseMoveArg(raw: string, room: Room, arg: string)
    requires room.Valid()
    requires Split1(Normalise(raw)) == ["move", arg]
    ensures Parse(raw, room) == Parsed(Move, [ResolveMoveTarget(arg, room)])
  {
    MoveIsNoKeyword();
  }

  /** Any other line, a bare `move` included, is resolved whole as a move
      target. */
  lemma ParseOther(raw: string, room: Room)
    requires room.Valid()
    requires var parts := Split1(Normalise(raw));
      parts != [] && Keyword(parts[0]).None? && (parts[0] != "move" || |parts| == 1)
    ensures Parse(raw, room) == Parsed(Move, [ResolveMoveTarget(Normalise(raw), room)])
  {
  }

  /** A bare `move` has no argument, so the word itself is resolved. */
  lemma ParseBareMove(raw: string, room: Room)
    requires room.Valid()
    requires Normalise(raw) == "move"
    ensures Parse(raw, room) == Parsed(Move, [ResolveMoveTarget("move", room)])
  {
    Split1Word("move");
    MoveIsNoKeyword();
    ParseOther(raw, room);
  }

  lemma MoveIsNoKeyword()
    ensures Keyword("move").None?
  {
  }

  // -----------------------------------------------------------------------
  // Execution
  // -----------------------------------------------------------------------

  /** The rooms an input list may refer to (read by the look handler). */
  function TargetRooms(inputs: seq<Target>): set<Room> {
    set i | 0 <= i < |inputs| && inputs[i].RoomTarget? :: inputs[i].room
  }

  /** What looking at a room shows: its long description when it has a
      non-empty one, else its short description, else nothing. */
  function RoomLook(target: Room): (m: seq<ActionMessage>)
    reads target
    ensures |m| <= 1
    ensures m == [] <==> target.description.None?
  {
    match target.description
    case None => []
    case Some(desc) => if desc.long != "" then [RoomText(desc.long)] else [RoomText(desc.short)]
  }

  /** `_exec_look`: describe the first input, or the current room when
      there is none. */
  function ExecLook(inputs: seq<Target>, room: Room): (r: ActionResult)
    reads room, TargetRooms(inputs)
    ensures r.newRoom == None && !r.quit
    ensures inputs == [] ==> r.messages == RoomLook(room)
    ensures inputs != [] && inputs[0].ItemTarget? ==> r.messages == [ObjectName(inputs[0].item.name)]
    ensures inputs != [] && inputs[0].Unresolved? ==> r.messages == [NotSeen(inputs[0].text)]
  {
    var target := if inputs != [] then inputs[0] else RoomTarget(room);
    match target
    case RoomTarget(t) =>
      assert inputs != [] ==> t in TargetRooms(inputs);
      ActionResult(RoomLook(t), None, false)
    case ItemTarget(item) => ActionResult([ObjectName(item.name)], None, false)
    case Unresolved(text) => ActionResult([NotSeen(text)], None, false)
  }

  /** `_exec_move`: a room target becomes the new room, announced with the
      direction that leads there (when one does) and followed by a look at
      it; anything else is an unknown command; no input asks where. */
  function ExecMove(inputs: seq<Target>, room: Room): (r: ActionResult)
    reads TargetRooms(inputs)
    reads room
    ensures !r.quit
    ensures r.newRoom.Some? <==> inputs != [] && inputs[0].RoomTarget?
    ensures r.newRoom.Some? ==> r.newRoom.value == inputs[0].room
    ensures inputs == [] ==> r.messages == [MoveWhere]
    ensures inputs != [] && !inputs[0].RoomTarget? ==> r.messages == [UnknownCommand(inputs[0])]
    ensures inputs != [] && inputs[0].RoomTarget? ==>
      && |RoomLook(inputs[0].room)| <= |r.messages| <= |RoomLook(inputs[0].room)| + 1
      && r.messages[|r.messages| - |RoomLook(inputs[0].room)|..] == RoomLook(inputs[0].room)
  {
    if inputs == [] then ActionResult([MoveWhere], None, false)
    else match inputs[0]
      case RoomTarget(t) =>
        assert t in TargetRooms(inputs);
        var k := FirstExitTo(room.connected, room.exitOrder, t);
        var moved := if k < |room.exitOrder| then [Moved(DirectionKey(room.exitOrder[k]), t.name)] else [];
        ActionResult(moved + ExecLook([RoomTarget(t)], t).messages, Some(t), false)
      case _ => ActionResult([UnknownCommand(inputs[0])], None, false)
  }

  /** A move to a room is announced exactly when the search finds an exit
      leading there, and the announcement names the first such exit's
      direction. */
  lemma ExecMoveAnnounces(t: Room, rest: seq<Target>, room: Room)
    ensures var r := ExecMove([RoomTarget(t)] + rest, room);
      var k := FirstExitTo(room.connected, room.exitOrder, t);
      && (|r.messages| == |RoomLook(t)| + 1 <==> k < |room.exitOrder|)
      && (k < |room.exitOrder| ==> r.messages[0] == Moved(DirectionKey(room.exitOrder[k]), t.name))
  {
  }

  /** `_exec_inventory`: one line per item on the floor, in order, or
      "Nothing here." */
  function ExecInventory(room: Room): (r: ActionResult)
    reads room
    ensures r.newRoom == None && !r.quit
    ensures room.presentItems == [] ==> r.messages == [NothingHere]
    ensures room.presentItems != [] ==>
      |r.messages| == |room.presentItems| &&
      forall i :: 0 <= i < |r.messages| ==> r.messages[i] == ItemLine(room.presentItems[i].name)
  {
    if room.presentItems == [] then ActionResult([NothingHere], None, false)
    else ActionResult(ItemLines(room.presentItems), None, false)
  }

  function ItemLines(items: seq<Item>): (m: seq<ActionMessage>)
    ensures |m| == |items|
    ensures forall i :: 0 <= i < |m| ==> m[i] == ItemLine(items[i].name)
  {
    if items == [] then [] else [ItemLine(items[0].name)] + ItemLines(items[1..])
  }

  /** The exits of a room as (room name, direction name) pairs, in
      insertion order. */
  function ExitList(connected: map<Direction, Room>, order: seq<Direction>): (e: seq<(string, string)>)
    requires forall i :: 0 <= i < |order| ==> order[i] in connected
    ensures |e| == |order|
    ensures forall i :: 0 <= i < |e| ==> e[i] == (connected[order[i]].name, DirectionKey(order[i]))
  {
    if order == [] then [] else [(connected[order[0]].name, DirectionKey(order[0]))] + ExitList(connected, order[1..])
  }

  /** `_exec_help`: the command summary, then the exits when there are any. */
  function ExecHelp(room: Room): (r: ActionResult)
    requires room.Valid()
    reads room
    ensures r.newRoom == None && !r.quit
    ensures 1 <= |r.messages| <= 2 && r.messages[0] == CommandsHelp
    ensures |r.messages| == 1 <==> room.connected == map[]
    ensures |r.messages| == 2 ==> r.messages[1] == GoTo(ExitList(room.connected, room.exitOrder))
  {
    if room.exitOrder == [] then
      assert forall d :: d !in room.connected;
      ActionResult([CommandsHelp], None, false)
    else
      assert room.exitOrder[0] in room.connected;
      ActionResult([CommandsHelp, GoTo(ExitList(room.connected, room.exitOrder))], None, false)
  }

  /** `_exec_quit`: stop, without a message. */
  function ExecQuit(): (r: ActionResult)
    ensures r.quit && r.messages == [] && r.newRoom == None
  {
    ActionResult([], None, true)
  }

  /** `execute`: dispatch to the handler of the action. */
  function Execute(action: Action, inputs: seq<Target>, room: Room): (r: ActionResult)
    requires room.Valid()
    reads room, TargetRooms(inputs)
    ensures r.quit <==> action == Quit
    ensures r.newRoom.Some? ==> action == Move
  {
    match action
    case Look => ExecLook(inputs, room)
    case Move => ExecMove(inputs, room)
    case Inventory => ExecInventory(room)
    case Help => ExecHelp(room)
    case Quit => ExecQuit()
  }

  /** A line that names a connected direction and is not a command of its
      own moves the player into the room that lies that way. */
  lemma DirectionMovesThere(raw: string, room: Room, d: Direction)
    requires room.Valid() && d in room.connected
    requires Normalise(raw) == DirectionKey(d)
    requires var parts := Split1(Normalise(raw));
      parts != [] && Keyword(parts[0]).None? && parts[0] != "move"
    ensures var p := Parse(raw, room);
      Execute(p.action, p.inputs, room).newRoom == Some(room.connected[d])
  {
    DirectionParses(raw, room, d);
    MoveToRoom(room.connected[d], room);
  }

  /** Executing a move to a room target moves there. */
  lemma MoveToRoom(t: Room, room: Room)
    requires room.Valid()
    ensures Execute(Move, [RoomTarget(t)], room).newRoom == Some(t)
  {
  }

  lemma DirectionParses(raw: string, room: Room, d: Direction)
    requires room.Valid() && d in room.connected
    requires Normalise(raw) == DirectionKey(d)
    requires var parts := Split1(Normalise(raw));
      parts != [] && Keyword(parts[0]).None? && parts[0] != "move"
    ensures Parse(raw, room) == Parsed(Move, [RoomTarget(room.connected[d])])
  {
    ParseOther(raw, room);
    ResolveMoveTargetCases(DirectionKey(d), room, d);
  }

  /** `move <direction>` moves the player into the room that lies that way. */
  lemma MoveDirectionMovesThere(raw: string, room: Room, d: Direction)
    requires room.Valid() && d in room.connected
    requires Split1(Normalise(raw)) == ["move", DirectionKey(d)]
    ensures var p := Parse(raw, room);
      Execute(p.action, p.inputs, room).newRoom == Some(room.connected[d])
  {
    ParseMoveArg(raw, room, DirectionKey(d));
    ResolveMoveTargetCases(DirectionKey(d), room, d);
  }

  /** A move the game cannot resolve changes no room and says so. */
  lemma UnresolvedMoveStays(raw: string, room: Room)
    requires room.Valid()
    requires Parse(raw, room).action == Move && Parse(raw, room).inputs[0].Unresolved?
    ensures var p := Parse(raw, room);
      var r := Execute(p.action, p.inputs, room);
      r.newRoom == None && r.messages == [UnknownCommand(p.inputs[0])] && !r.quit
  {
  }
}
