/** The editor object: a text buffer, a cursor and two snapshot stacks that
    every operation updates in place. Each method is proved to take the
    object from its old state to the state the matching function of
    `EditorSpec` describes, and to keep the cursor within the text. */
module StackBasedTextEditor {
  import opened EditorSpec

  class TextEditor {
    var text: Text
    var cursorPosition: int
    var undoStack: seq<Text>   // top at the end
    var redoStack: seq<Text>   // top at the end

    /** The object invariant: the cursor is an insertion point of the text. */
    ghost predicate Valid()
      reads this
    {
      CursorInRange(State())
    }

    /** The object's fields as a value of the specification's state type. */
    function State(): (e: Editor)
      reads this
    {
      Editor(text, cursorPosition, undoStack, redoStack)
    }

    constructor ()
      ensures Valid() && State() == Initial()
    {
      text := [];
      cursorPosition := 0;
      undoStack := [];
      redoStack := [];
    }

    method Insert(c: char)
      requires Valid()
      modifies this
      ensures Valid() && State() == EditorSpec.Insert(old(State()), c).after
    {
      text := text[..cursorPosition] + [c] + text[cursorPosition..];
      undoStack := undoStack + [text];
      cursorPosition := cursorPosition + 1;
    }

    method DeleteChar() returns (r: Outcome)
      requires Valid()
      modifies this
      ensures Valid() && Step(State(), r) == EditorSpec.DeleteChar(old(State()))
    {
      if cursorPosition > 0 && cursorPosition <= |text| {
        text := text[..cursorPosition - 1] + text[cursorPosition..];
        undoStack := undoStack + [text];
        cursorPosition := cursorPosition - 1;
        r := Done;
      } else {
        r := Failed(InvalidCursor);
      }
    }

    method Next() returns (r: Outcome)
      requires Valid()
      modifies this
      ensures Valid() && Step(State(), r) == EditorSpec.Next(old(State()))
    {
      if cursorPosition < |text| {
        cursorPosition := cursorPosition + 1;
        r := Done;
      } else {
        r := Failed(InvalidCursor);
      }
    }

    method Previous() returns (r: Outcome)
      requires Valid()
      modifies this
      ensures Valid() && Step(State(), r) == EditorSpec.Previous(old(State()))
    {
      if cursorPosition > 0 {
        cursorPosition := cursorPosition - 1;
        r := Done;
      } else {
        r := Failed(InvalidCursor);
      }
    }

    method Start()
      requires Valid()
      modifies this
      ensures Valid() && State() == EditorSpec.Start(old(State())).after
    {
      cursorPosition := 0;
    }

    method End()
      requires Valid()
      modifies this
      ensures Valid() && State() == EditorSpec.End(old(State())).after
    {
      cursorPosition := |text|;
    }

    /** The position query; reads the object and changes nothing. */
    method CurrPosition() returns (p: int)
      requires Valid()
      ensures p == EditorSpec.CurrPosition(State())
      ensures 0 <= p <= |text|
    {
      p := cursorPosition;
    }

    method Undo() returns (r: Outcome)
      requires Valid()
      modifies this
      ensures Valid() && Step(State(), r) == EditorSpec.Undo(old(State()))
    {
      if undoStack != [] {
        redoStack := redoStack + [undoStack[|undoStack| - 1]];
        undoStack := undoStack[..|undoStack| - 1];
        if |undoStack| > 5 {
          undoStack := undoStack[..|undoStack| - 1];
        }
        if undoStack != [] {
          text := undoStack[|undoStack| - 1];
        } else {
          text := [];
        }
        cursorPosition := |text|;
        r := Done;
      } else {
        r := Failed(NoHistory);
      }
    }

    method Redo() returns (r: Outcome)
      requires Valid()
      modifies this
      ensures Valid() && Step(State(), r) == EditorSpec.Redo(old(State()))
    {
      if redoStack != [] {
        text := redoStack[|redoStack| - 1];
        undoStack := undoStack + [redoStack[|redoStack| - 1]];
        redoStack := redoStack[..|redoStack| - 1];
        if |undoStack| > 5 {
          undoStack := undoStack[..|undoStack| - 1];
        }
        cursorPosition := |text|;
        r := Done;
      } else {
        r := Failed(NoHistory);
      }
    }
  }
}
