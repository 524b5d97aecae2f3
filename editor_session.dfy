/** Sequences of editor calls and the properties that relate several calls:
    the cursor invariant over every reachable state, the insert/delete and
    undo/redo round trips, the way the history checks really behave, and
    the concrete scenarios the editor is meant to support. */
module EditorSession {
  import opened EditorSpec

  /** One call on the editor's public interface that can change its state. */
  datatype Command =
    | Type(c: char)
    | Backspace
    | MoveNext
    | MovePrevious
    | MoveStart
    | MoveEnd
    | UndoLast
    | RedoLast
  {
    predicate IsMove() {
      MoveNext? || MovePrevious? || MoveStart? || MoveEnd?
    }
  }

  /** The effect of one call. */
  function Apply(e: Editor, cmd: Command): (r: Step)
    requires CursorInRange(e)
    ensures CursorInRange(r.after)
    ensures r.outcome != Done ==> r.after == e
  {
    match cmd
    case Type(c) => Insert(e, c)
    case Backspace => DeleteChar(e)
    case MoveNext => Next(e)
    case MovePrevious => Previous(e)
    case MoveStart => Start(e)
    case MoveEnd => End(e)
    case UndoLast => Undo(e)
    case RedoLast => Redo(e)
  }

  /** The state after the calls `cmds`, made one after the other from `e`.
      Its contract is the cursor invariant for every state an editor can
      reach: from `Initial()` every sequence of calls keeps the cursor in
      the text. */
  function Run(e: Editor, cmds: seq<Command>): (r: Editor)
    requires CursorInRange(e)
    ensures CursorInRange(r)
    decreases |cmds|
  {
    if cmds == [] then e else Run(Apply(e, cmds[0]).after, cmds[1..])
  }

  /** Typing the characters of `s` one after the other. */
  function Typing(s: Text): (cmds: seq<Command>)
    ensures |cmds| == |s|
    ensures forall i :: 0 <= i < |s| ==> cmds[i] == Type(s[i])
  {
    seq(|s|, i requires 0 <= i < |s| => Type(s[i]))
  }

  /** Cursor moves change the cursor and nothing else. */
  lemma MovesKeepTextAndHistory(e: Editor, cmd: Command)
    requires CursorInRange(e) && cmd.IsMove()
    ensures var r := Apply(e, cmd).after;
            r.text == e.text && r.undoStack == e.undoStack && r.redoStack == e.redoStack
  {
  }

  /** A character typed and then deleted with backspace leaves the text and
      the cursor exactly as they were; both edits stay on the undo stack and
      the redo stack is untouched. */
  lemma InsertThenDeleteRestores(e: Editor, c: char)
    requires CursorInRange(e)
    ensures var i := Insert(e, c).after;
            var d := DeleteChar(i);
            && d.outcome == Done
            && d.after.text == e.text
            && d.after.cursor == e.cursor
            && d.after.undoStack == e.undoStack + [i.text, e.text]
            && d.after.redoStack == e.redoStack
  {
  }

  /** While the undo stack holds between one and `Depth` snapshots, an undo
      followed by a redo puts both stacks back as they were and shows the
      snapshot that was on top of the undo stack, with the cursor at its end.
      When that snapshot is the current text, as it is after every edit, the
      round trip restores the whole state up to the cursor. */
  lemma UndoThenRedoRestores(e: Editor)
    requires CursorInRange(e)
    requires 1 <= |e.undoStack| <= Depth
    ensures var u := Undo(e);
            var r := Redo(u.after);
            && u.outcome == Done && r.outcome == Done
            && r.after.text == Top(e.undoStack)
            && r.after.cursor == |r.after.text|
            && r.after.undoStack == e.undoStack
            && r.after.redoStack == e.redoStack
            && (e.text == Top(e.undoStack) ==> r.after == e.(cursor := |e.text|))
  {
  }

  /** With more than `Depth + 1` snapshots, undo loses two of them: the top
      one goes to the redo stack, and the one below it, the newest left, is
      discarded outright, so the text shown is the third from the top. */
  lemma UndoDiscardsNewestRemaining(e: Editor)
    requires CursorInRange(e)
    requires |e.undoStack| > Depth + 1
    ensures var n := |e.undoStack|;
            var u := Undo(e).after;
            && u.undoStack + [e.undoStack[n - 2], e.undoStack[n - 1]] == e.undoStack
            && u.redoStack == e.redoStack + [e.undoStack[n - 1]]
            && u.text == e.undoStack[n - 3]
  {
  }

  /** With `Depth` or more snapshots on the undo stack, redo pushes the redone
      snapshot and at once pops it again: the undo stack is left as it was,
      so a following undo does not undo the redo but the older top. */
  lemma RedoAtDepthKeepsUndoStack(e: Editor)
    requires CursorInRange(e)
    requires |e.undoStack| >= Depth && e.redoStack != []
    ensures var r := Redo(e).after;
            var u := Undo(r);
            && r.text == Top(e.redoStack)
            && r.undoStack == e.undoStack
            && u.outcome == Done
            && Top(u.after.redoStack) == Top(e.undoStack)
  {
  }

  /** Typing never trims the undo stack: each character typed adds exactly
      one snapshot, however many there already are, and the redo stack is
      kept. */
  lemma {:induction false} TypingGrowsUndoStack(e: Editor, s: Text)
    requires CursorInRange(e)
    ensures |Run(e, Typing(s)).undoStack| == |e.undoStack| + |s|
    ensures Run(e, Typing(s)).redoStack == e.redoStack
    decreases |s|
  {
    if s != [] {
      var e1 := Insert(e, s[0]).after;
      assert Typing(s)[1..] == Typing(s[1..]);
      assert Run(e, Typing(s)) == Run(e1, Typing(s[1..]));
      TypingGrowsUndoStack(e1, s[1..]);
    }
  }

  /** Seven characters typed into a fresh editor leave seven snapshots, and from there six undos succeed before the seventh reports
      that no history is left. */
  lemma SevenInsertsAllowSixUndos(s: Text)
    requires |s| == 7
    ensures var e := Run(Initial(), Typing(s));
            && |e.undoStack| == 7
            && var u1 := Undo(e);
               var u2 := Undo(u1.after);
               var u3 := Undo(u2.after);
               var u4 := Undo(u3.after);
               var u5 := Undo(u4.after);
               var u6 := Undo(u5.after);
               var u7 := Undo(u6.after);
               && |u1.after.undoStack| == 5
               && u1.outcome == u2.outcome == u3.outcome == u4.outcome == u5.outcome == u6.outcome == Done
               && u6.after.text == []
               && u7.outcome == Failed(NoHistory)
  {
    TypingGrowsUndoStack(Initial(), s);
  }

  /** Typing "a", "b", "c" into a fresh editor. */
  lemma TypeAbc()
    ensures Insert(Insert(Insert(Initial(), 'a').after, 'b').after, 'c').after
            == Editor("abc", 3, ["a", "ab", "abc"], [])
  {
    var e1 := Insert(Initial(), 'a').after;
    assert e1.text == "a";
    assert e1.undoStack == ["a"];
    var e2 := Insert(e1, 'b').after;
    assert e2.text == "ab";
    assert e2.undoStack == ["a", "ab"];
    var e3 := Insert(e2, 'c').after;
    assert e3.text == "abc";
    assert e3.undoStack == ["a", "ab", "abc"];
  }

  /** Undoing the three edits of "abc" one by one, then redoing them, gives
      back "abc" with the cursor after the last character and the redo stack
      empty; in between, the text is empty and the redo stack holds the three
      snapshots, newest first. */
  lemma UndoRedoAbc()
    ensures var e3 := Editor("abc", 3, ["a", "ab", "abc"], []);
            var u3 := Undo(Undo(Undo(e3).after).after).after;
            && u3 == Editor([], 0, [], ["abc", "ab", "a"])
            && Redo(Redo(Redo(u3).after).after).after == e3
  {
    var e3 := Editor("abc", 3, ["a", "ab", "abc"], []);
    var u1 := Undo(e3).after;
    assert u1 == Editor("ab", 2, ["a", "ab"], ["abc"]);
    var u2 := Undo(u1).after;
    assert u2 == Editor("a", 1, ["a"], ["abc", "ab"]);
    var u3 := Undo(u2).after;
    assert u3 == Editor([], 0, [], ["abc", "ab", "a"]);
    var r1 := Redo(u3).after;
    assert r1 == Editor("a", 1, ["a"], ["abc", "ab"]);
    var r2 := Redo(r1).after;
    assert r2 == Editor("ab", 2, ["a", "ab"], ["abc"]);
  }

  /** On a fresh editor, backspace and both single-step moves report an
      invalid cursor. */
  lemma FreshEditorBoundaries()
    ensures DeleteChar(Initial()).outcome == Failed(InvalidCursor)
    ensures Previous(Initial()).outcome == Failed(InvalidCursor)
    ensures Next(Initial()).outcome == Failed(InvalidCursor)
  {
  }

  /** Type "hi", step left, backspace (which deletes the 'h'), then undo:
      the undo shows "hi" again with the cursor at its end. */
  lemma HiScenario()
    ensures var e2 := Run(Initial(), Typing("hi"));
            var p := Previous(e2).after;
            var d := DeleteChar(p).after;
            var u := Undo(d).after;
            && e2.text == "hi" && e2.cursor == 2
            && p.cursor == 1
            && d.text == "i" && d.cursor == 0
            && u.text == "hi" && CurrPosition(u) == 2
  {
    var e1 := Insert(Initial(), 'h').after;
    assert e1.text == "h";
    var e2 := Insert(e1, 'i').after;
    assert e2.text == "hi";
    assert Run(Initial(), Typing("hi")) == Run(e1, Typing("hi")[1..]);
    assert Run(e1, Typing("hi")[1..]) == e2;
    var d := DeleteChar(Previous(e2).after).after;
    assert d.text == "i";
    assert d.undoStack == ["h", "hi", "i"];
  }
}
