/** Value model of the stack-based line editor: its state as a datatype and
    every public operation as a function from the state before the call to
    the state after it together with the call's outcome.

    Both history stacks are sequences whose LAST element is the top of the
    stack, so a push appends and a pop drops the last element. */
module EditorSpec {

  type Text = seq<char>

  /** The two kinds of failure the editor reports instead of changing state. */
  datatype ErrorKind = InvalidCursor | NoHistory

  datatype Outcome = Done | Failed(kind: ErrorKind)

  /** The undo-stack size above which undo and redo pop one more entry. */
  const Depth: nat := 5

  /** The editor's four fields: the text, the cursor, and the two snapshot stacks. */
  datatype Editor = Editor(text: Text, cursor: int, undoStack: seq<Text>, redoStack: seq<Text>)

  /** The state after a call and what the call reported. */
  datatype Step = Step(after: Editor, outcome: Outcome)

  /** The object invariant: the cursor is an insertion point of the text. */
  predicate CursorInRange(e: Editor) {
    0 <= e.cursor <= |e.text|
  }

  /** The state a freshly constructed editor starts in. */
  function Initial(): Editor {
    Editor([], 0, [], [])
  }

  // Stack operations on sequences, top at the end.

  function Top<T>(s: seq<T>): T
    requires s != []
  {
    s[|s| - 1]
  }

  function Pop<T>(s: seq<T>): (r: seq<T>)
    requires s != []
    ensures |r| == |s| - 1 && r <= s
  {
    s[..|s| - 1]
  }

  function Push<T>(s: seq<T>, x: T): (r: seq<T>)
    ensures r != [] && Top(r) == x && Pop(r) == s
  {
    s + [x]
  }

  /** Inserts `c` at the cursor, records the new text as an undo snapshot and
      moves the cursor past the new character. Never fails; leaves the redo
      stack alone. */
  function Insert(e: Editor, c: char): (r: Step)
    requires CursorInRange(e)
    ensures r.outcome == Done && CursorInRange(r.after)
    ensures |r.after.text| == |e.text| + 1 && r.after.text[e.cursor] == c
    ensures forall i :: 0 <= i < e.cursor ==> r.after.text[i] == e.text[i]
    ensures forall i :: e.cursor <= i < |e.text| ==> r.after.text[i + 1] == e.text[i]
    ensures r.after.cursor == e.cursor + 1
    ensures r.after.undoStack == Push(e.undoStack, r.after.text)
    ensures r.after.redoStack == e.redoStack
  {
    var t := e.text[..e.cursor] + [c] + e.text[e.cursor..];
    Step(Editor(t, e.cursor + 1, Push(e.undoStack, t), e.redoStack), Done)
  }

  /** Backspace: removes the character just before the cursor and moves the
      cursor back onto its place, recording the new text as an undo snapshot.
      At the start of the text it fails and changes nothing. */
  function DeleteChar(e: Editor): (r: Step)
    requires CursorInRange(e)
    ensures CursorInRange(r.after)
    ensures r.outcome != Done <==> e.cursor == 0
    ensures r.outcome != Done ==> r == Step(e, Failed(InvalidCursor))
    ensures r.outcome == Done ==>
              && |r.after.text| == |e.text| - 1
              && (forall i :: 0 <= i < e.cursor - 1 ==> r.after.text[i] == e.text[i])
              && (forall i :: e.cursor <= i < |e.text| ==> r.after.text[i - 1] == e.text[i])
              && r.after.cursor == e.cursor - 1
              && r.after.undoStack == Push(e.undoStack, r.after.text)
              && r.after.redoStack == e.redoStack
  {
    if 0 < e.cursor && e.cursor <= |e.text| then
      var t := e.text[..e.cursor - 1] + e.text[e.cursor..];
      Step(Editor(t, e.cursor - 1, Push(e.undoStack, t), e.redoStack), Done)
    else
      Step(e, Failed(InvalidCursor))
  }

  /** Moves the cursor one place right; fails at the end of the text. */
  function Next(e: Editor): (r: Step)
    requires CursorInRange(e)
    ensures CursorInRange(r.after)
    ensures r.outcome != Done <==> e.cursor == |e.text|
    ensures r.outcome != Done ==> r == Step(e, Failed(InvalidCursor))
    ensures r.outcome == Done ==> r.after.cursor == e.cursor + 1
    ensures r.after.text == e.text
    ensures r.after.undoStack == e.undoStack && r.after.redoStack == e.redoStack
  {
    if e.cursor < |e.text| then Step(e.(cursor := e.cursor + 1), Done)
    else Step(e, Failed(InvalidCursor))
  }

  /** Moves the cursor one place left; fails at the start of the text. */
  function Previous(e: Editor): (r: Step)
    requires CursorInRange(e)
    ensures CursorInRange(r.after)
    ensures r.outcome != Done <==> e.cursor == 0
    ensures r.outcome != Done ==> r == Step(e, Failed(InvalidCursor))
    ensures r.outcome == Done ==> r.after.cursor == e.cursor - 1
    ensures r.after.text == e.text
    ensures r.after.undoStack == e.undoStack && r.after.redoStack == e.redoStack
  {
    if e.cursor > 0 then Step(e.(cursor := e.cursor - 1), Done)
    else Step(e, Failed(InvalidCursor))
  }

  /** Moves the cursor before the first character; never fails. */
  function Start(e: Editor): (r: Step)
    requires CursorInRange(e)
    ensures r.outcome == Done && CursorInRange(r.after)
    ensures r.after.cursor == 0 && r.after.text == e.text
    ensures r.after.undoStack == e.undoStack && r.after.redoStack == e.redoStack
  {
    Step(e.(cursor := 0), Done)
  }

  /** Moves the cursor after the last character; never fails. */
  function End(e: Editor): (r: Step)
    requires CursorInRange(e)
    ensures r.outcome == Done && CursorInRange(r.after)
    ensures r.after.cursor == |e.text| && r.after.text == e.text
    ensures r.after.undoStack == e.undoStack && r.after.redoStack == e.redoStack
  {
    Step(e.(cursor := |e.text|), Done)
  }

  /** The cursor position, as the position query reports it. */
  function CurrPosition(e: Editor): (p: int)
    requires CursorInRange(e)
    ensures 0 <= p <= |e.text|
  {
    e.cursor
  }

  /** Undo: moves the top undo snapshot onto the redo stack; if more than
      `Depth` snapshots are then left, throws away the newest of those too;
      shows the snapshot now on top (or the empty text when none is left) and
      puts the cursor at its end. With an empty undo stack it fails and
      changes nothing. */
  function Undo(e: Editor): (r: Step)
    requires CursorInRange(e)
    ensures CursorInRange(r.after)
    ensures r.outcome != Done <==> e.undoStack == []
    ensures r.outcome != Done ==> r == Step(e, Failed(NoHistory))
    ensures r.outcome == Done ==>
              && r.after.redoStack == Push(e.redoStack, Top(e.undoStack))
              && r.after.undoStack < e.undoStack
              && |e.undoStack| - |r.after.undoStack| == (if |e.undoStack| > Depth + 1 then 2 else 1)
              && r.after.text == (if r.after.undoStack == [] then [] else Top(r.after.undoStack))
              && r.after.cursor == |r.after.text|
  {
    if e.undoStack == [] then
      Step(e, Failed(NoHistory))
    else
      var undone := Top(e.undoStack);
      var kept := Pop(e.undoStack);
      var kept := if |kept| > Depth then Pop(kept) else kept;
      var t := if kept == [] then [] else Top(kept);
      Step(Editor(t, |t|, kept, Push(e.redoStack, undone)), Done)
  }

  /** Redo: shows the top redo snapshot, pops it off the redo stack and
      pushes it onto the undo stack, then pops the undo stack again if that
      push took it past `Depth` snapshots; the cursor goes to the end of the
      text. With an empty redo stack it fails and changes nothing. */
  function Redo(e: Editor): (r: Step)
    requires CursorInRange(e)
    ensures CursorInRange(r.after)
    ensures r.outcome != Done <==> e.redoStack == []
    ensures r.outcome != Done ==> r == Step(e, Failed(NoHistory))
    ensures r.outcome == Done ==>
              && r.after.text == Top(e.redoStack)
              && r.after.cursor == |r.after.text|
              && r.after.redoStack == Pop(e.redoStack)
              && r.after.undoStack ==
                 (if |e.undoStack| < Depth then Push(e.undoStack, r.after.text) else e.undoStack)
  {
    if e.redoStack == [] then
      Step(e, Failed(NoHistory))
    else
      var t := Top(e.redoStack);
      var pushed := Push(e.undoStack, t);
      var kept := if |pushed| > Depth then Pop(pushed) else pushed;
      Step(Editor(t, |t|, kept, Pop(e.redoStack)), Done)
  }
}
