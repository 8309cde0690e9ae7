/** The command dispatcher of the simple game screen (UI/commands.py) and
    the screen state it works on (the GameUI class of UI/game_ui.py): a
    current room, a running flag and an event log trimmed to its fifty most
    recent lines after every command. */
module Commands {
  import opened Common
  import opened Rooms
  import opened Actions
  import World

  const MAX_HISTORY: nat := 50

  /** The command the screen runs when it opens. */
  const LOOK: string := "look"

  /** What one command does: the lines it logs, the room it moves to, and
      whether it stops the game loop. */
  datatype Effect = Effect(messages: seq<ActionMessage>, moveTo: Option<Room>, stop: bool)

  /** The rooms one exit away. */
  function Neighbours(room: Room): set<Room>
    reads room
  {
    set d | d in room.connected :: room.connected[d]
  }

  /** The command words (the command is already stripped and lower-cased). */
  predicate LookCommand(cmd: string) { cmd == LOOK }
  predicate InventoryCommand(cmd: string) { cmd == "inventory" || cmd == "inv" }
  predicate HelpCommand(cmd: string) { cmd == "help" }
  predicate QuitCommand(cmd: string) { cmd == "quit" || cmd == "exit" }

  /** `_cmd_go`: move to the first connected room, in insertion order,
      whose lower-cased name is the lower-cased target, announcing the
      direction and then looking around; otherwise stay and report an
      unknown command. */
  function GoEffect(target: string, room: Room): (e: Effect)
    requires room.Valid()
    reads room, Neighbours(room)
    ensures !e.stop
    ensures e.moveTo.Some? <==> SomeExitNamed(room, Lower(target))
    ensures e.moveTo.Some? ==>
      var k := FirstExitNamed(room.connected, room.exitOrder, Lower(target));
      && k < |room.exitOrder|
      && e.moveTo.value == room.connected[room.exitOrder[k]]
      && Lower(e.moveTo.value.name) == Lower(target)
      && e.messages == [Moved(DirectionKey(room.exitOrder[k]), e.moveTo.value.name)] + RoomLook(e.moveTo.value)
    ensures e.moveTo.None? ==> e.messages == [UnknownCommand(Unresolved(target))]
  {
    FirstExitNamedMisses(room, Lower(target));
    var k := FirstExitNamed(room.connected, room.exitOrder, Lower(target));
    if k < |room.exitOrder| then
      var d := room.exitOrder[k];
      var next := room.connected[d];
      assert next in Neighbours(room);
      Effect([Moved(DirectionKey(d), next.name)] + RoomLook(next), Some(next), false)
    else
      Effect([UnknownCommand(Unresolved(target))], None, false)
  }

  /** `_cmd_help`: the screen's own command summary (it names neither
      `look [target]` nor `move`), then the exits when there are any. */
  function ScreenHelp(room: Room): (m: seq<ActionMessage>)
    requires room.Valid()
    reads room
    ensures 1 <= |m| <= 2 && m[0] == ScreenCommandsHelp
    ensures |m| == 1 <==> room.connected == map[]
    ensures |m| == 2 ==> m[1] == GoTo(ExitList(room.connected, room.exitOrder))
  {
    if room.exitOrder == [] then
      assert forall d :: d !in room.connected;
      [ScreenCommandsHelp]
    else
      assert room.exitOrder[0] in room.connected;
      [ScreenCommandsHelp, GoTo(ExitList(room.connected, room.exitOrder))]
  }

  /** The screen's help lists the same exits as the action handler's, under
      a different command summary. */
  lemma ScreenHelpMatchesExecHelp(room: Room)
    requires room.Valid()
    ensures |ScreenHelp(room)| == |ExecHelp(room).messages|
    ensures ScreenHelp(room)[1..] == ExecHelp(room).messages[1..]
    ensures ScreenHelp(room)[0] != ExecHelp(room).messages[0]
  {
  }

  /** What `dispatch` does with a non-blank command `cmd`, before trimming. */
  function CommandEffect(cmd: string, room: Room): (e: Effect)
    requires room.Valid()
    reads room, Neighbours(room)
    ensures e.stop <==> QuitCommand(cmd)
    ensures e.moveTo.Some? ==> e.moveTo.value in Neighbours(room)
  {
    if LookCommand(cmd) then Effect(RoomLook(room), None, false)
    else if InventoryCommand(cmd) then Effect(ExecInventory(room).messages, None, false)
    else if HelpCommand(cmd) then Effect(ScreenHelp(room), None, false)
    else if QuitCommand(cmd) then Effect([], None, true)
    else GoEffect(cmd, room)
  }

  /** Only an unrecognised word moves, and never to a room that is not one
      exit away; inventory in an empty room logs "Nothing here." alone. */
  lemma CommandCases(cmd: string, room: Room)
    requires room.Valid()
    ensures CommandEffect(cmd, room).moveTo.Some? ==>
      !LookCommand(cmd) && !InventoryCommand(cmd) && !HelpCommand(cmd) && !QuitCommand(cmd)
      && SomeExitNamed(room, Lower(cmd))
    ensures InventoryCommand(cmd) && room.presentItems == [] ==> CommandEffect(cmd, room).messages == [NothingHere]
    ensures QuitCommand(cmd) ==> CommandEffect(cmd, room).messages == [] && CommandEffect(cmd, room).moveTo.None?
    ensures HelpCommand(cmd) ==> CommandEffect(cmd, room).messages[0] == ScreenCommandsHelp
  {
  }

  /** "look", typed in any case and with surrounding blanks, is the look
      command. */
  lemma LookNormalised()
    ensures Lower(Strip(LOOK)) == LOOK
  {
    StripTrimmed(LOOK);
    assert Lower(LOOK) == LOOK;
  }

  /** The rooms the game can reach: closed under exits, each one well
      formed. */
  ghost predicate WorldOk(world: set<Room>)
    reads world
  {
    World.Closed(world) && forall r :: r in world ==> r.Valid()
  }

  class GameUI {
    var running: bool
    var inputBuffer: string
    var currentRoom: Room
    var eventHistory: seq<ActionMessage>
    /** Every line ever logged, in order. */
    ghost var log: seq<ActionMessage>
    /** The rooms the game can reach. */
    ghost const world: set<Room>

    /** The current room is a well-formed room of the world, and the event
        log holds the most recent fifty lines of everything logged. */
    ghost predicate Valid()
      reads this, world
    {
      && currentRoom in world && WorldOk(world)
      && eventHistory == KeepLast(log, MAX_HISTORY)
    }

    /** A new screen runs in the start room, with the greeting logged and
        then the start room looked at. */
    constructor (start: Room, ghost world: set<Room>)
      requires start in world && WorldOk(world)
      ensures Valid() && this.world == world
      ensures running && inputBuffer == "" && currentRoom == start
      ensures eventHistory == [Welcome] + RoomLook(start)
    {
      running := true;
      inputBuffer := "";
      currentRoom := start;
      eventHistory := [Welcome];
      log := [Welcome];
      this.world := world;
      new;
      assert KeepLast(log, MAX_HISTORY) == log;
      assert WorldOk(this.world);
      LookNormalised();
      assert CommandEffect(LOOK, start).messages == RoomLook(start);
      Dispatch(LOOK);
      assert |[Welcome] + RoomLook(start)| <= MAX_HISTORY;
    }

    /** `ui.event_history.append(message)`. */
    method Record(message: ActionMessage)
      modifies this`eventHistory, this`log
      ensures eventHistory == old(eventHistory) + [message] && log == old(log) + [message]
    {
      eventHistory := eventHistory + [message];
      log := log + [message];
    }

    /** `dispatch`: a blank line does nothing, not even trimming; any other
        line runs its command and then trims the log to the most recent
        fifty lines. */
    method Dispatch(raw: string)
      requires Valid()
      modifies this`currentRoom, this`eventHistory, this`log, this`running
      ensures Valid()
      ensures Lower(Strip(raw)) == [] ==>
        eventHistory == old(eventHistory) && log == old(log) && currentRoom == old(currentRoom) && running == old(running)
      ensures Lower(Strip(raw)) != [] ==>
        var e := old(CommandEffect(Lower(Strip(raw)), currentRoom));
        && log == old(log) + e.messages
        && eventHistory == KeepLast(old(eventHistory) + e.messages, MAX_HISTORY)
        && currentRoom == (if e.moveTo.Some? then e.moveTo.value else old(currentRoom))
        && running == (old(running) && !e.stop)
    {
      var cmd := Lower(Strip(raw));
      if cmd == [] {
        return;
      }
      ghost var e := CommandEffect(cmd, currentRoom);
      assert e.moveTo.Some? ==> e.moveTo.value in world;
      RunCommand(cmd);
      assert log == old(log) + e.messages && eventHistory == old(eventHistory) + e.messages;
      KeepLastAppend(old(log), e.messages, MAX_HISTORY);
      TrimHistory();
      assert eventHistory == KeepLast(log, MAX_HISTORY);
      assert currentRoom in world;
    }

    /** The command branch of `dispatch`, on a non-blank command. */
    method RunCommand(cmd: string)
      requires currentRoom.Valid()
      modifies this`currentRoom, this`eventHistory, this`log, this`running
      ensures var e := old(CommandEffect(cmd, currentRoom));
        && log == old(log) + e.messages && eventHistory == old(eventHistory) + e.messages
        && currentRoom == (if e.moveTo.Some? then e.moveTo.value else old(currentRoom))
        && running == (old(running) && !e.stop)
    {
      if LookCommand(cmd) {
        Look();
      } else if InventoryCommand(cmd) {
        Inventory();
      } else if HelpCommand(cmd) {
        Help();
      } else if QuitCommand(cmd) {
        running := false;
      } else {
        Go(cmd);
      }
    }

    /** `_cmd_go`. */
    method Go(target: string)
      requires currentRoom.Valid()
      modifies this`currentRoom, this`eventHistory, this`log
      ensures var e := old(GoEffect(target, currentRoom));
        && eventHistory == old(eventHistory) + e.messages && log == old(log) + e.messages
        && currentRoom == (if e.moveTo.Some? then e.moveTo.value else old(currentRoom))
    {
      var targetLower := Lower(target);
      var connections := currentRoom.connected;
      var order := currentRoom.exitOrder;
      var i := 0;
      while i < |order|
        invariant 0 <= i <= |order| && currentRoom == old(currentRoom)
        invariant eventHistory == old(eventHistory) && log == old(log)
        invariant forall j :: 0 <= j < i ==> !ExitNamed(connections, order[j], targetLower)
      {
        var d := order[i];
        var room := connections[d];
        if Lower(room.name) == targetLower {
          ghost var e := GoEffect(target, currentRoom);
          assert i == FirstExitNamed(connections, order, targetLower);
          assert e.moveTo == Some(room) && e.messages == [Moved(DirectionKey(d), room.name)] + RoomLook(room);
          currentRoom := room;
          Record(Moved(DirectionKey(d), room.name));
          Look();
          return;
        }
        i := i + 1;
      }
      assert FirstExitNamed(connections, order, targetLower) == |order|;
      Record(UnknownCommand(Unresolved(target)));
    }

    /** `_cmd_look`. */
    method Look()
      modifies this`eventHistory, this`log
      ensures eventHistory == old(eventHistory) + RoomLook(currentRoom) && log == old(log) + RoomLook(currentRoom)
    {
      var desc := currentRoom.description;
      if desc.Some? && desc.value.long != "" {
        Record(RoomText(desc.value.long));
      } else if desc.Some? {
        Record(RoomText(desc.value.short));
      }
    }

    /** `_cmd_inventory`: one line per item on the floor, or "Nothing here." */
    method Inventory()
      modifies this`eventHistory, this`log
      ensures var m := ExecInventory(currentRoom).messages;
        eventHistory == old(eventHistory) + m && log == old(log) + m
    {
      var items := currentRoom.presentItems;
      if items == [] {
        Record(NothingHere);
        return;
      }
      for i := 0 to |items|
        invariant eventHistory == old(eventHistory) + ItemLines(items[..i])
        invariant log == old(log) + ItemLines(items[..i])
      {
        ItemLinesSnoc(items, i);
        Record(ItemLine(items[i].name));
      }
      assert items[..|items|] == items;
    }

    /** One more item on the floor adds one line at the end. */
    static lemma ItemLinesSnoc(items: seq<Item>, i: nat)
      requires i < |items|
      ensures ItemLines(items[..i + 1]) == ItemLines(items[..i]) + [ItemLine(items[i].name)]
    {
    }

    /** `_cmd_help`: the command summary, then the exits when there are any. */
    method Help()
      requires currentRoom.Valid()
      modifies this`eventHistory, this`log
      ensures var m := ScreenHelp(currentRoom);
        eventHistory == old(eventHistory) + m && log == old(log) + m
    {
      Record(ScreenCommandsHelp);
      if currentRoom.exitOrder != [] {
        Record(GoTo(ExitList(currentRoom.connected, currentRoom.exitOrder)));
      }
    }

    /** `_trim_history`: keep the most recent fifty lines. */
    method TrimHistory()
      modifies this`eventHistory
      ensures eventHistory == KeepLast(old(eventHistory), MAX_HISTORY)
    {
      if |eventHistory| > MAX_HISTORY {
        eventHistory := eventHistory[|eventHistory| - MAX_HISTORY..];
      }
    }
  }
}
