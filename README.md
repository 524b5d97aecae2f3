# Stack-based text editor, modelled in Dafny

This project models the `TextEditor` class of a small console line editor.
The editor holds one line of text, a cursor (the insertion and deletion
point), and two stacks of full-text snapshots: the undo stack and the redo
stack. Its public operations are:

- insert a character at the cursor;
- backspace-style delete of the character before the cursor;
- four cursor moves: next, previous, start and end;
- a query for the cursor position;
- snapshot-based undo and redo.

A failing operation reports an error and changes nothing.

The model has three modules:

- `EditorSpec` (`editor_spec.dfy`) gives the editor's state as a value
  (`Editor`). Every operation is a function that returns the state after the
  call and the call's `Outcome`: `Done`, or `Failed(InvalidCursor)` /
  `Failed(NoHistory)` for the source's exceptions. Both stacks are sequences
  whose last element is the top.
- `StackBasedTextEditor` (`text_editor.dfy`) is the class itself. It has the
  source's four fields, which its methods update in place. Each method keeps
  the object invariant `Valid()` (`0 <= cursorPosition <= |text|`). Each is
  proved to move the object from its old state to the state that the
  matching `EditorSpec` function gives.
- `EditorSession` (`editor_session.dfy`) covers sequences of calls. It holds
  the cursor invariant over every reachable state and the round trips. It
  also holds the lemmas that show how the history checks actually behave,
  and concrete scenarios.

The history code behaves as follows, and the model states it as written:

- Insert and delete always push the new text, so the undo stack has no size
  bound (`TypingGrowsUndoStack`).
- The `size() > 5` checks in undo and redo pop the top of the stack. In undo,
  once more than 5 snapshots remain, this discards the newest remaining
  snapshot as well (`UndoDiscardsNewestRemaining`). In redo, once the undo
  stack holds 5 or more snapshots, it removes the snapshot that redo has just
  pushed (`RedoAtDepthKeepsUndoStack`).
- Seven inserts into a fresh editor leave seven snapshots. Six undos succeed
  before undo reports that no history is left (`SevenInsertsAllowSixUndos`).
- Insert and delete never clear the redo stack.
- After typing "hi" and moving back one place, backspace deletes the 'h'
  (`HiScenario`).

## Model

| member | source | states |
|---|---|---|
| `EditorSpec.Insert` | StackBasedTextEditor.cpp:22-35 | never fails; the new text is the old one with `c` at the cursor (same characters before it, the rest shifted one place right); the cursor moves one place right; the new text is pushed on the undo stack; the redo stack is unchanged; the cursor stays within the text |
| `EditorSpec.DeleteChar` | StackBasedTextEditor.cpp:37-57 | fails with `InvalidCursor` and no change exactly when the cursor is 0; otherwise the character before the cursor is removed (prefix kept, the rest shifted one place left), the cursor moves back one, the new text is pushed on the undo stack and the redo stack is unchanged; the cursor stays within the text |
| `EditorSpec.Next` | StackBasedTextEditor.cpp:59-77 | fails with `InvalidCursor` and no change exactly when the cursor is at the end of the text; otherwise the cursor moves right by one; text and both stacks are never touched |
| `EditorSpec.Previous` | StackBasedTextEditor.cpp:79-97 | fails with `InvalidCursor` and no change exactly when the cursor is 0; otherwise the cursor moves left by one; text and both stacks are never touched |
| `EditorSpec.Start` | StackBasedTextEditor.cpp:99-110 | never fails; the cursor becomes 0; text and stacks unchanged |
| `EditorSpec.End` | StackBasedTextEditor.cpp:112-123 | never fails; the cursor becomes the text length; text and stacks unchanged |
| `EditorSpec.CurrPosition` | StackBasedTextEditor.cpp:125-128 | the reported position lies within the text |
| `EditorSpec.Undo` | StackBasedTextEditor.cpp:130-165 | fails with `NoHistory` and no change exactly when the undo stack is empty; otherwise the old top goes onto the redo stack, the undo stack becomes a proper prefix of itself that is two entries shorter when it held more than 6 and one shorter otherwise, the text is the new top (empty when none is left) and the cursor is at its end |
| `EditorSpec.Redo` | StackBasedTextEditor.cpp:167-194 | fails with `NoHistory` and no change exactly when the redo stack is empty; otherwise the text is the old redo top, the redo stack loses its top, the cursor is at the end of the text, and the undo stack gains that snapshot only when it held fewer than 5 entries (otherwise it is left as it was) |
| `StackBasedTextEditor.TextEditor.constructor` | StackBasedTextEditor.cpp:17-20 | a new editor has empty text, cursor 0 and two empty stacks, and satisfies the cursor invariant |
| `StackBasedTextEditor.TextEditor.Insert` | StackBasedTextEditor.cpp:22-35 | keeps the cursor invariant; the fields afterwards are exactly `EditorSpec.Insert` of the fields before |
| `StackBasedTextEditor.TextEditor.DeleteChar` | StackBasedTextEditor.cpp:37-57 | keeps the cursor invariant; fields and returned outcome are exactly those of `EditorSpec.DeleteChar` |
| `StackBasedTextEditor.TextEditor.Next` | StackBasedTextEditor.cpp:59-77 | keeps the cursor invariant; fields and outcome are exactly those of `EditorSpec.Next` |
| `StackBasedTextEditor.TextEditor.Previous` | StackBasedTextEditor.cpp:79-97 | keeps the cursor invariant; fields and outcome are exactly those of `EditorSpec.Previous` |
| `StackBasedTextEditor.TextEditor.Start` | StackBasedTextEditor.cpp:99-110 | keeps the cursor invariant; fields are exactly those of `EditorSpec.Start` |
| `StackBasedTextEditor.TextEditor.End` | StackBasedTextEditor.cpp:112-123 | keeps the cursor invariant; fields are exactly those of `EditorSpec.End` |
| `StackBasedTextEditor.TextEditor.CurrPosition` | StackBasedTextEditor.cpp:125-128 | returns the cursor position of the object, which lies within the text, and changes nothing |
| `StackBasedTextEditor.TextEditor.Undo` | StackBasedTextEditor.cpp:130-165 | keeps the cursor invariant; fields and outcome are exactly those of `EditorSpec.Undo` |
| `StackBasedTextEditor.TextEditor.Redo` | StackBasedTextEditor.cpp:167-194 | keeps the cursor invariant; fields and outcome are exactly those of `EditorSpec.Redo` |
| `EditorSession.Apply` | StackBasedTextEditor.cpp:22-194 | every operation keeps the cursor within the text, and every failing operation leaves the whole state unchanged (all-or-nothing) |
| `EditorSession.Run` | StackBasedTextEditor.cpp:8-194 | cursor invariant for all reachable states: any sequence of calls from a state whose cursor is within the text, in particular from a fresh editor, ends in such a state |
| `EditorSession.MovesKeepTextAndHistory` | StackBasedTextEditor.cpp:59-123 | the four cursor moves never change the text or either stack |
| `EditorSession.InsertThenDeleteRestores` | StackBasedTextEditor.cpp:26-45 | insert then backspace succeeds and restores the text and the cursor exactly; the undo stack ends two entries longer (the two post-edit texts); the redo stack is unchanged |
| `EditorSession.UndoThenRedoRestores` | StackBasedTextEditor.cpp:134-182 | with 1 to 5 undo snapshots, undo then redo both succeed, restore both stacks exactly and show the old undo top with the cursor at its end; when that top was the current text, the whole state is restored except that the cursor is at the end |
| `EditorSession.UndoDiscardsNewestRemaining` | StackBasedTextEditor.cpp:134-151 | with more than 6 undo snapshots, undo removes the top two: the top goes to the redo stack, the second is lost, and the text shown is the third from the top |
| `EditorSession.RedoAtDepthKeepsUndoStack` | StackBasedTextEditor.cpp:171-182 | with 5 or more undo snapshots, redo shows the redo top but leaves the undo stack exactly as it was, so the next undo moves the older undo top, not the redone text, to the redo stack |
| `EditorSession.TypingGrowsUndoStack` | StackBasedTextEditor.cpp:26-28 | typing `n` characters adds exactly `n` undo snapshots whatever the stack's size (no bound) and keeps the redo stack |
| `EditorSession.SevenInsertsAllowSixUndos` | StackBasedTextEditor.cpp:26-157 | seven characters typed into a fresh editor leave 7 snapshots; the first undo drops to 5; six undos succeed, ending at empty text, and the seventh fails with `NoHistory` |
| `EditorSession.TypeAbc` | StackBasedTextEditor.cpp:17-28 | typing 'a', 'b', 'c' into a fresh editor gives text "abc", cursor 3, undo stack "a", "ab", "abc" and an empty redo stack |
| `EditorSession.UndoRedoAbc` | StackBasedTextEditor.cpp:134-182 | from that state, three undos give empty text with "abc", "ab", "a" on the redo stack, and three redos give back exactly the "abc" state (text "abc", cursor 3) |
| `EditorSession.FreshEditorBoundaries` | StackBasedTextEditor.cpp:41-89 | on a fresh editor, backspace, previous and next all fail with `InvalidCursor` |
| `EditorSession.HiScenario` | StackBasedTextEditor.cpp:22-153 | type "hi" (cursor 2), previous (cursor 1), backspace deletes the 'h' (text "i", cursor 0), undo shows "hi" with the position query reporting 2 |

## Left out

- `main` (StackBasedTextEditor.cpp:203-262) is not modelled. It is the interactive menu loop: console input parsing and exit. `EditorSession.Run` stands for any sequence of calls it could make.
- `printText` and the `cout << "Error: "` output in every handler are console output only. A failure is modelled as the returned `Outcome`. The error message text is dropped, and only its kind is kept.
- The library exceptions that `std::string::insert`/`erase` could throw are out of range under the cursor invariant, so they are not modelled. Every method and every spec function requires that invariant, and the object establishes and keeps it. The modelled failures are the explicit `throw`s, which happen before any field changes.
- The source compares the `int` cursor with the unsigned text length in `deleteChar` and `next`. Under the invariant the cursor is never negative, so the unsigned conversion makes no difference and is not modelled.
- The text is modelled as a sequence of `char`. No encoding or byte-level behaviour of `std::string` is modelled.
- The cursor is a 32-bit `int` in the source, and the unsigned `text.length()` is assigned to it in `end`, `undo` and `redo`. The model's cursor is an unbounded integer, so that narrowing is not modelled. It cannot matter in practice: every edit stores a full snapshot, so memory runs out long before the text reaches 2^31 characters.
