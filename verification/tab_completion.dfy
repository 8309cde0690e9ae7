/** Bash-style tab completion (UI/tab_completion.py): the first Tab fills a
    single match or the longest common prefix, the second lists the
    candidates, later ones cycle through them. */
module TabCompletion {
  import opened Common

  /** What is remembered between consecutive Tab presses. */
  datatype CompletionState = CompletionState(candidates: seq<string>, cycleIndex: int, originalBuffer: string, tabCount: int)

  /** A state is only created for two or more candidates, and its cycle
      index always points at one of them. */
  predicate StateValid(st: CompletionState) {
    |st.candidates| >= 2 && 0 <= st.cycleIndex < |st.candidates| && st.tabCount >= 1
  }

  // -----------------------------------------------------------------------
  // common_prefix
  // -----------------------------------------------------------------------

  /** All candidates have a character at position `i`, equal up to case. */
  predicate AgreeAt(cands: seq<string>, i: nat) {
    && cands != []
    && (forall j :: 0 <= j < |cands| ==> i < |cands[j]|)
    && (forall j :: 0 <= j < |cands| ==> LowerChar(cands[j][i]) == LowerChar(cands[0][i]))
  }

  /** `min(len(c) for c in candidates)` */
  function MinLen(cands: seq<string>): (m: nat)
    requires cands != []
    ensures forall j :: 0 <= j < |cands| ==> m <= |cands[j]|
    ensures exists j :: 0 <= j < |cands| && |cands[j]| == m
  {
    if |cands| == 1 then |cands[0]|
    else
      var rest := MinLen(cands[1..]);
      assert forall j :: 1 <= j < |cands| ==> cands[1..][j - 1] == cands[j];
      if |cands[0]| <= rest then |cands[0]| else rest
  }

  /** The first position, from `i` on, where the candidates disagree. */
  function PrefixLen(cands: seq<string>, i: nat): (p: nat)
    requires cands != []
    ensures i <= p
    ensures i <= |cands[0]| ==> p <= |cands[0]|
    decreases |cands[0]| - i
  {
    if AgreeAt(cands, i) then PrefixLen(cands, i + 1) else i
  }

  /** The longest case-insensitive common prefix, spelled as in the first
      candidate; a single candidate is its own prefix. */
  function CommonPrefixOf(cands: seq<string>): string {
    if cands == [] then ""
    else if |cands| == 1 then cands[0]
    else cands[0][..PrefixLen(cands, 0)]
  }

  lemma {:induction false} PrefixLenSpec(cands: seq<string>, i: nat)
    requires cands != []
    requires forall k :: 0 <= k < i ==> AgreeAt(cands, k)
    ensures var p := PrefixLen(cands, i);
      && i <= p <= |cands[0]|
      && (forall k :: 0 <= k < p ==> AgreeAt(cands, k))
      && !AgreeAt(cands, p)
    decreases |cands[0]| - i
  {
    if AgreeAt(cands, i) {
      PrefixLenSpec(cands, i + 1);
    } else if i > 0 {
      assert AgreeAt(cands, i - 1);
    }
  }

  /** The common prefix of two or more candidates is, up to case, a prefix
      of every candidate, and it is the longest such prefix: the next
      position is missing from or differs in some candidate. */
  lemma CommonPrefixIsLongest(cands: seq<string>)
    requires |cands| >= 2
    ensures CommonPrefixOf(cands) <= cands[0]
    ensures forall j :: 0 <= j < |cands| ==> |CommonPrefixOf(cands)| <= |cands[j]|
    ensures forall j, k :: 0 <= j < |cands| && 0 <= k < |CommonPrefixOf(cands)| ==>
      LowerChar(cands[j][k]) == LowerChar(CommonPrefixOf(cands)[k])
    ensures !AgreeAt(cands, |CommonPrefixOf(cands)|)
  {
    PrefixLenSpec(cands, 0);
    var r := CommonPrefixOf(cands);
    var p := PrefixLen(cands, 0);
    assert r == cands[0][..p];
    if p > 0 {
      assert AgreeAt(cands, p - 1);
    }
    forall j, k | 0 <= j < |cands| && 0 <= k < |r|
      ensures LowerChar(cands[j][k]) == LowerChar(r[k])
    {
      assert AgreeAt(cands, k);
      assert r[k] == cands[0][k];
    }
  }

  /** `common_prefix`: scan positions up to the shortest candidate and stop
      at the first one where the lower-cased characters differ. */
  method CommonPrefix(cands: seq<string>) returns (r: string)
    ensures r == CommonPrefixOf(cands)
  {
    if cands == [] {
      return "";
    }
    if |cands| == 1 {
      return cands[0];
    }
    var length := MinLen(cands);
    var end := 0;
    var i := 0;
    while i < length
      invariant 0 <= i <= length && end == i
      invariant PrefixLen(cands, 0) == PrefixLen(cands, i)
    {
      if AgreeAt(cands, i) {
        end := i + 1;
      } else {
        break;
      }
      i := i + 1;
    }
    if i == length {
      var j :| 0 <= j < |cands| && |cands[j]| == length;
      assert !AgreeAt(cands, i);
    }
    return cands[0][..end];
  }

  // -----------------------------------------------------------------------
  // run_completion
  // -----------------------------------------------------------------------

  /** The part of a view that completion reads and writes. */
  datatype Completion = Completion(buffer: string, state: Option<CompletionState>, history: seq<string>)

  predicate CompletionValid(c: Completion) {
    c.state.Some? ==> StateValid(c.state.value)
  }

  const CompletionsLabel := "Completions: "

  /** The line that lists the candidates on the second Tab. */
  function CompletionsLine(cands: seq<string>): string {
    CompletionsLabel + Join(cands, "  ")
  }

  /** A remembered state survives only while the buffer is what the last
      Tab left in it. */
  function Survivor(c: Completion): Option<CompletionState> {
    if c.state.Some? && c.state.value.originalBuffer != c.buffer then None else c.state
  }

  /** The first Tab (no remembered state): a single candidate replaces the
      buffer; several are remembered, and their common prefix replaces the
      buffer when it is non-empty and differs, up to case, from what was
      typed. */
  function FirstPress(c: Completion, cands: seq<string>): (r: Completion)
    requires cands != []
    ensures CompletionValid(r) && r.history == c.history
    ensures r.state.Some? ==> r.state.value.originalBuffer == r.buffer
  {
    if |cands| == 1 then c.(buffer := cands[0], state := None)
    else
      var prefix := CommonPrefixOf(cands);
      var buffer := if prefix != "" && Lower(prefix) != Lower(Strip(c.buffer)) then prefix else c.buffer;
      c.(buffer := buffer, state := Some(CompletionState(cands, 0, buffer, 1)))
  }

  /** A later Tab: the second lists the candidates, the ones after that put
      the candidate at the cycle index into the buffer and step the index. */
  function LaterPress(c: Completion, st: CompletionState, hasHistory: bool): (r: Completion)
    requires StateValid(st)
    ensures CompletionValid(r)
    ensures r.state.Some? ==> r.state.value.originalBuffer == r.buffer
    ensures r.history == c.history || (hasHistory && r.history == c.history + [CompletionsLine(st.candidates)])
  {
    if st.tabCount + 1 == 2 then
      var history := if hasHistory then c.history + [CompletionsLine(st.candidates)] else c.history;
      Completion(c.buffer, Some(st.(tabCount := 2, originalBuffer := c.buffer)), history)
    else
      var candidate := st.candidates[st.cycleIndex];
      var next := (st.cycleIndex + 1) % |st.candidates|;
      Completion(candidate, Some(st.(tabCount := st.tabCount + 1, cycleIndex := next, originalBuffer := candidate)), c.history)
  }

  /** One Tab press, given the candidates the view offers for the stripped,
      lower-cased buffer; no candidates changes nothing but the reset. */
  function TabPress(c: Completion, cands: seq<string>, hasHistory: bool): (r: Completion)
    requires CompletionValid(c)
    ensures CompletionValid(r)
    ensures r.state.Some? ==> r.state.value.originalBuffer == r.buffer
    ensures cands == [] ==> r == c.(state := Survivor(c))
    ensures r.history == c.history || (hasHistory && c.state.Some? && r.history == c.history + [CompletionsLine(c.state.value.candidates)])
  {
    if cands == [] then c.(state := Survivor(c))
    else match Survivor(c)
      case None => FirstPress(c, cands)
      case Some(st) => LaterPress(c, st, hasHistory)
  }

  /** First Tab with one candidate: the buffer becomes it, nothing is
      remembered. */
  lemma FirstPressSingle(c: Completion, x: string, hasHistory: bool)
    requires CompletionValid(c) && Survivor(c).None?
    ensures TabPress(c, [x], hasHistory) == Completion(x, None, c.history)
  {
  }

  /** First Tab with several candidates: the candidates are remembered with
      the index at the first and one press counted; the buffer stays, or
      becomes a non-empty text that differs up to case from what was typed
      and is, up to case, a prefix of every candidate. */
  lemma FirstPressMany(c: Completion, cands: seq<string>, hasHistory: bool)
    requires CompletionValid(c) && Survivor(c).None? && |cands| >= 2
    ensures var r := TabPress(c, cands, hasHistory);
      && r.state == Some(CompletionState(cands, 0, r.buffer, 1))
      && r.history == c.history
      && (r.buffer == c.buffer || (r.buffer != "" && Lower(r.buffer) != Lower(Strip(c.buffer))))
      && (r.buffer != c.buffer ==> forall j :: 0 <= j < |cands| ==> |r.buffer| <= |cands[j]|)
      && (r.buffer != c.buffer ==>
            forall j, k :: 0 <= j < |cands| && 0 <= k < |r.buffer| ==>
              LowerChar(cands[j][k]) == LowerChar(r.buffer[k]))
  {
    var r := FirstPress(c, cands);
    assert TabPress(c, cands, hasHistory) == r;
    CommonPrefixIsLongest(cands);
    assert r.buffer == c.buffer || r.buffer == CommonPrefixOf(cands);
  }

  /** Second Tab on an untouched buffer: the candidates are listed when the
      view keeps a history, and the buffer is left alone. */
  lemma SecondPressLists(c: Completion, cands: seq<string>, hasHistory: bool)
    requires CompletionValid(c) && cands != []
    requires c.state.Some? && c.state.value.originalBuffer == c.buffer && c.state.value.tabCount == 1
    ensures var r := TabPress(c, cands, hasHistory);
      && r.buffer == c.buffer
      && r.state == Some(c.state.value.(tabCount := 2))
      && r.history == (if hasHistory then c.history + [CompletionsLine(c.state.value.candidates)] else c.history)
  {
  }

  /** Tab pressed `k` times in a row, the view offering the same non-empty
      candidates each time. */
  function Presses(c: Completion, cands: seq<string>, hasHistory: bool, k: nat): (r: Completion)
    requires CompletionValid(c)
    ensures CompletionValid(r)
    decreases k
  {
    if k == 0 then c else TabPress(Presses(c, cands, hasHistory, k - 1), cands, hasHistory)
  }

  /** From the third Tab on, each press puts the candidate at the cycle
      index into the buffer and moves the index on by one, wrapping round:
      `k` presses starting at index `i` end on candidate `(i + k - 1) mod n`
      with the index at `(i + k) mod n`. */
  lemma {:induction false} PressesCycle(c: Completion, cands: seq<string>, hasHistory: bool, k: nat)
    requires CompletionValid(c) && cands != [] && k >= 1
    requires c.state.Some? && c.state.value.originalBuffer == c.buffer && c.state.value.tabCount >= 2
    ensures var st := c.state.value;
      var n := |st.candidates|;
      var r := Presses(c, cands, hasHistory, k);
      && r.state.Some?
      && r.state.value.candidates == st.candidates
      && r.state.value.tabCount == st.tabCount + k
      && r.state.value.cycleIndex == (st.cycleIndex + k) % n
      && r.buffer == st.candidates[(st.cycleIndex + k - 1) % n]
      && r.history == c.history
    decreases k
  {
    var st := c.state.value;
    var n := |st.candidates|;
    if k == 1 {
      ModSmall(st.cycleIndex, n);
    } else {
      PressesCycle(c, cands, hasHistory, k - 1);
      var prev := Presses(c, cands, hasHistory, k - 1);
      assert Survivor(prev) == prev.state;
      ModInc(st.cycleIndex + k - 1, n);
    }
  }

  // -----------------------------------------------------------------------
  // The view
  // -----------------------------------------------------------------------

  /** A view that supports completion: its input buffer, the remembered
      state, and (for views that have one) the event history. */
  class CompletionView {
    var inputBuffer: string
    var completionState: Option<CompletionState>
    var eventHistory: seq<string>
    const hasEventHistory: bool

    function Snapshot(): Completion
      reads this
    {
      Completion(inputBuffer, completionState, eventHistory)
    }

    ghost predicate Valid()
      reads this
    {
      CompletionValid(Snapshot())
    }

    constructor (hasEventHistory: bool)
      ensures Valid() && this.hasEventHistory == hasEventHistory
      ensures inputBuffer == "" && completionState == None && eventHistory == []
    {
      this.hasEventHistory := hasEventHistory;
      inputBuffer := "";
      completionState := None;
      eventHistory := [];
    }

    /** `run_completion`: one Tab press; `candidatesFor` is the view's
        `_get_tab_candidates`. */
    method RunCompletion(candidatesFor: string -> seq<string>)
      requires Valid()
      modifies this`inputBuffer, this`completionState, this`eventHistory
      ensures Valid()
      ensures Snapshot() == TabPress(old(Snapshot()), candidatesFor(Lower(Strip(old(inputBuffer)))), hasEventHistory)
    {
      ghost var c := Snapshot();
      if completionState.Some? && completionState.value.originalBuffer != inputBuffer {
        completionState := None;
      }
      assert Snapshot() == c.(state := Survivor(c));
      var partial := Lower(Strip(inputBuffer));
      var candidates := candidatesFor(partial);
      if candidates == [] {
        return;
      }
      if completionState.None? {
        FirstTab(candidates, partial);
      } else {
        LaterTab();
      }
    }

    /** The first-Tab branch of `run_completion`. */
    method FirstTab(candidates: seq<string>, partial: string)
      requires candidates != [] && partial == Lower(Strip(inputBuffer))
      modifies this`inputBuffer, this`completionState
      ensures Snapshot() == FirstPress(old(Snapshot()), candidates)
    {
      ghost var r := FirstPress(Snapshot(), candidates);
      if |candidates| == 1 {
        inputBuffer := candidates[0];
        completionState := None;
        return;
      }
      var prefix := CommonPrefix(candidates);
      var buffer := inputBuffer;
      if prefix != [] && Lower(prefix) != partial {
        buffer := prefix;
      }
      assert buffer == r.buffer;
      inputBuffer := buffer;
      completionState := Some(CompletionState(candidates, 0, buffer, 1));
    }

    /** The later-Tab branch of `run_completion`, on a state that survived
        the reset. */
    method LaterTab()
      requires completionState.Some? && StateValid(completionState.value)
      modifies this`inputBuffer, this`completionState, this`eventHistory
      ensures Snapshot() == LaterPress(old(Snapshot()), old(completionState.value), hasEventHistory)
    {
      var st := completionState.value.(tabCount := completionState.value.tabCount + 1);
      if st.tabCount == 2 {
        if hasEventHistory {
          eventHistory := eventHistory + [CompletionsLine(st.candidates)];
        }
        st := st.(originalBuffer := inputBuffer);
      } else {
        var candidate := st.candidates[st.cycleIndex];
        inputBuffer := candidate;
        st := st.(cycleIndex := (st.cycleIndex + 1) % |st.candidates|);
        st := st.(originalBuffer := inputBuffer);
      }
      completionState := Some(st);
    }
  }
}
