/** The in-game screen's message buffers (UI/in_game_ui/gameUI.py): the
    event log the world pushes into, the room chat, and the "current
    events" panel with its bounded, scrollable history. */
module GameScreen {
  import opened Common

  /** Declared on the screen; no method of the screen trims to it. */
  const MAX_HISTORY: nat := 60
  const MAX_CURRENT_EVENTS_HISTORY: nat := 100

  /** The greeting the event log starts with (without its markup). */
  const WELCOME: string := "Welcome to the MUD! Type help for commands."

  /** `max(0, n - 1)`: the furthest the current-events panel scrolls back
      over a history of `n` lines. */
  function MaxOffset(n: nat): nat {
    if n == 0 then 0 else n - 1
  }

  /** The offset after `scroll_events_up`: one line further back, but never
      past the oldest line. */
  function ScrolledUp(offset: int, n: nat): (r: int)
    ensures r <= MaxOffset(n)
    ensures r == offset + 1 || r == MaxOffset(n)
    ensures offset < MaxOffset(n) ==> r == offset + 1
    ensures 0 <= offset <= MaxOffset(n) ==> offset <= r && 0 <= r
  {
    if offset + 1 < MaxOffset(n) then offset + 1 else MaxOffset(n)
  }

  /** The offset after `scroll_events_down`: one line nearer the newest,
      never below 0. */
  function ScrolledDown(offset: int): (r: int)
    ensures r >= 0
    ensures offset >= 1 ==> r == offset - 1
    ensures offset <= 1 ==> r == 0
  {
    if offset - 1 > 0 then offset - 1 else 0
  }

  /** Scrolling up and then down returns to where the panel was, unless it
      was already at the oldest line. */
  lemma ScrollUpThenDown(offset: int, n: nat)
    requires 0 <= offset < MaxOffset(n)
    ensures ScrolledDown(ScrolledUp(offset, n)) == offset
  {
  }

  /** The offset after `k` presses of scroll-up. */
  function ScrolledUpTimes(offset: int, n: nat, k: nat): int
    decreases k
  {
    if k == 0 then offset else ScrolledUpTimes(ScrolledUp(offset, n), n, k - 1)
  }

  /** From the newest line, `k` presses of scroll-up go `k` lines back,
      stopping at the oldest line. */
  lemma {:induction false} ScrollUpRepeatedly(offset: int, n: nat, k: nat)
    requires 0 <= offset <= MaxOffset(n)
    ensures ScrolledUpTimes(offset, n, k) == if offset + k < MaxOffset(n) then offset + k else MaxOffset(n)
    decreases k
  {
    if k > 0 {
      ScrollUpRepeatedly(ScrolledUp(offset, n), n, k - 1);
    }
  }

  class GameUI {
    var eventHistory: seq<string>
    var roomChat: seq<string>
    var currentEvents: seq<string>
    var currentEventsHistory: seq<string>
    var currentEventsOffset: int
    /** Every message ever passed to `append_current_events`, in order. */
    ghost var appended: seq<string>

    /** The history holds the most recent hundred appended messages, and
        the offset stays within it. */
    ghost predicate Valid()
      reads this
    {
      && currentEventsHistory == KeepLast(appended, MAX_CURRENT_EVENTS_HISTORY)
      && 0 <= currentEventsOffset <= MaxOffset(|currentEventsHistory|)
    }

    /** The buffers of a new screen: the greeting in the event log, the
        rest empty, the panel at the newest line. */
    constructor ()
      ensures Valid()
      ensures eventHistory == [WELCOME] && roomChat == [] && currentEvents == []
      ensures currentEventsHistory == [] && currentEventsOffset == 0
    {
      eventHistory := [WELCOME];
      roomChat := [];
      currentEvents := [];
      currentEventsHistory := [];
      currentEventsOffset := 0;
      appended := [];
      new;
      assert KeepLast(appended, MAX_CURRENT_EVENTS_HISTORY) == [];
    }

    /** `_receive_event`: an event from the world goes to the end of the
        event log (which this screen never trims). */
    method ReceiveEvent(message: string)
      modifies this`eventHistory
      ensures eventHistory == old(eventHistory) + [message]
    {
      eventHistory := eventHistory + [message];
    }

    /** `_receive_chat`: a chat line goes to the end of the room chat. */
    method ReceiveChat(message: string)
      modifies this`roomChat
      ensures roomChat == old(roomChat) + [message]
    {
      roomChat := roomChat + [message];
    }

    /** `append_current_events`: the panel gets an empty separator line
        when it already shows something (even when no message comes), then
        the messages; the history gets the messages and keeps the most
        recent hundred; the panel scrolls back to the newest line. */
    method AppendCurrentEvents(messages: seq<string>)
      requires Valid()
      modifies this`currentEvents, this`currentEventsHistory, this`currentEventsOffset, this`appended
      ensures Valid()
      ensures old(currentEvents) == [] ==> currentEvents == messages
      ensures old(currentEvents) != [] ==> currentEvents == old(currentEvents) + [""] + messages
      ensures appended == old(appended) + messages
      ensures currentEventsHistory == KeepLast(old(currentEventsHistory) + messages, MAX_CURRENT_EVENTS_HISTORY)
      ensures currentEventsOffset == 0
    {
      var events := currentEvents;
      if events != [] {
        events := events + [""];
      }
      events := events + messages;
      var history := currentEventsHistory + messages;
      if |history| > MAX_CURRENT_EVENTS_HISTORY {
        history := history[|history| - MAX_CURRENT_EVENTS_HISTORY..];
      }
      KeepLastAppend(appended, messages, MAX_CURRENT_EVENTS_HISTORY);
      currentEvents := events;
      currentEventsHistory := history;
      currentEventsOffset := 0;
      appended := appended + messages;
    }

    /** `scroll_events_up`. */
    method ScrollEventsUp()
      modifies this`currentEventsOffset
      ensures currentEventsOffset == ScrolledUp(old(currentEventsOffset), |currentEventsHistory|)
      ensures old(Valid()) ==> Valid()
    {
      var maxOffset := if |currentEventsHistory| - 1 > 0 then |currentEventsHistory| - 1 else 0;
      currentEventsOffset := if currentEventsOffset + 1 < maxOffset then currentEventsOffset + 1 else maxOffset;
    }

    /** `scroll_events_down`. */
    method ScrollEventsDown()
      modifies this`currentEventsOffset
      ensures currentEventsOffset == ScrolledDown(old(currentEventsOffset))
      ensures old(Valid()) ==> Valid()
    {
      currentEventsOffset := if currentEventsOffset - 1 > 0 then currentEventsOffset - 1 else 0;
    }
  }
}
