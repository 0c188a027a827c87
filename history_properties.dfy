/**
 * What the stroke history promises: the effect of each callback, the
 * conservation of strokes by the history buttons, undo/redo as inverses,
 * the effect of a whole drag gesture, and the invariant that no stroke is empty.
 */
module HistoryProperties {
  import opened Strokes
  import opened History

  /* ---------- single operations ---------- */

  /** Undo moves exactly the last committed stroke to the end of the redo
      buffer and touches nothing else; with nothing drawn it changes nothing. */
  lemma UndoMovesLastStroke(s: State)
    ensures CanUndo(s) ==>
      && Undo(s).paths + [Last(s.paths)] == s.paths
      && Undo(s).undoStack == s.undoStack + [Last(s.paths)]
      && Undo(s).currentPath == s.currentPath
      && Undo(s).brushSize == s.brushSize && Undo(s).brushColor == s.brushColor
    ensures Undo(s) == s <==> !CanUndo(s)
  {
  }

  /** Redo moves exactly the last stroke of the redo buffer to the end of the
      committed strokes; with an empty buffer it changes nothing. */
  lemma RedoMovesLastUndone(s: State)
    ensures CanRedo(s) ==>
      && Redo(s).undoStack + [Last(s.undoStack)] == s.undoStack
      && Redo(s).paths == s.paths + [Last(s.undoStack)]
      && Redo(s).currentPath == s.currentPath
      && Redo(s).brushSize == s.brushSize && Redo(s).brushColor == s.brushColor
    ensures Redo(s) == s <==> !CanRedo(s)
  {
  }

  /** Undo followed by Redo restores the state exactly, and so does Redo
      followed by Undo, whenever the first of the two did something. */
  lemma UndoRedoInverse(s: State)
    ensures CanUndo(s) ==> CanRedo(Undo(s)) && Redo(Undo(s)) == s
    ensures CanRedo(s) ==> CanUndo(Redo(s)) && Undo(Redo(s)) == s
  {
    if CanUndo(s) {
      assert DropLast(s.paths) + [Last(s.paths)] == s.paths;
    }
    if CanRedo(s) {
      assert DropLast(s.undoStack) + [Last(s.undoStack)] == s.undoStack;
    }
  }

  /** Clear empties the committed strokes, appends them in order to the redo
      buffer, keeps the live path and tools, and is idempotent; Undo right
      after Clear does nothing. */
  lemma ClearAppendsInOrder(s: State)
    ensures Clear(s).paths == [] && !CanUndo(Clear(s))
    ensures Clear(s).undoStack == s.undoStack + s.paths
    ensures Clear(s).currentPath == s.currentPath
    ensures Clear(s).brushSize == s.brushSize && Clear(s).brushColor == s.brushColor
    ensures Clear(Clear(s)) == Clear(s)
    ensures Undo(Clear(s)) == Clear(s)
  {
  }

  /** The history buttons neither create nor lose strokes. */
  lemma UndoConservesStrokes(s: State)
    ensures AllStrokes(Undo(s)) == AllStrokes(s)
    ensures |Undo(s).paths| + |Undo(s).undoStack| == |s.paths| + |s.undoStack|
  {
    if CanUndo(s) {
      assert s.paths == DropLast(s.paths) + [Last(s.paths)];
    }
  }

  lemma RedoConservesStrokes(s: State)
    ensures AllStrokes(Redo(s)) == AllStrokes(s)
    ensures |Redo(s).paths| + |Redo(s).undoStack| == |s.paths| + |s.undoStack|
  {
    if CanRedo(s) {
      assert s.undoStack == DropLast(s.undoStack) + [Last(s.undoStack)];
    }
  }

  lemma ClearConservesStrokes(s: State)
    ensures AllStrokes(Clear(s)) == AllStrokes(s)
    ensures |Clear(s).paths| + |Clear(s).undoStack| == |s.paths| + |s.undoStack|
  {
  }

  /** Drag start seeds the live path, empties the redo buffer and keeps the
      committed strokes. */
  lemma DrawStartDropsRedo(s: State, at: Offset)
    ensures DrawStart(s, at).currentPath == Some([at])
    ensures DrawStart(s, at).undoStack == [] && !CanRedo(DrawStart(s, at))
    ensures DrawStart(s, at).paths == s.paths
    ensures DrawStart(s, at).brushSize == s.brushSize && DrawStart(s, at).brushColor == s.brushColor
  {
  }

  /** Drag move appends to the live path when there is one, else does nothing. */
  lemma DrawExtendsLivePath(s: State, at: Offset)
    ensures s.currentPath.Some? ==>
      Draw(s, at) == s.(currentPath := Some(s.currentPath.value + [at]))
    ensures s.currentPath.None? ==> Draw(s, at) == s
  {
  }

  /** Drag end commits the live path with the tool state of that moment, or
      does nothing without one; afterwards there is no live path and the redo
      buffer is as it was. */
  lemma DrawEndCommits(s: State)
    ensures s.currentPath.Some? ==>
      DrawEnd(s).paths == s.paths + [DrawPath(s.currentPath.value, s.brushColor, s.brushSize)]
    ensures s.currentPath.None? ==> DrawEnd(s).paths == s.paths
    ensures DrawEnd(s).currentPath.None?
    ensures DrawEnd(s).undoStack == s.undoStack
    ensures DrawEnd(s).brushSize == s.brushSize && DrawEnd(s).brushColor == s.brushColor
  {
  }

  /** Changing the tool never alters strokes already drawn or undone. */
  lemma ToolChangeKeepsStrokes(s: State, size: real, color: Color)
    ensures SetBrushSize(s, size).brushSize == size
    ensures SetBrushColor(s, color).brushColor == color
    ensures SetBrushSize(s, size) == s.(brushSize := size)
    ensures SetBrushColor(s, color) == s.(brushColor := color)
  {
  }

  /* ---------- event sequences ---------- */

  lemma {:induction false} RunAppend(s: State, a: seq<Event>, b: seq<Event>)
    ensures Run(s, a + b) == Run(Run(s, a), b)
    decreases |a|
  {
    if a == [] {
      assert a + b == b;
    } else {
      assert (a + b)[1..] == a[1..] + b;
      RunAppend(Step(s, a[0]), a[1..], b);
    }
  }

  predicate IsHistoryEvent(e: Event) {
    e.ClearTap? || e.UndoTap? || e.RedoTap?
  }

  /** Any sequence of Clear, Undo and Redo taps keeps every stroke (as a
      multiset, and so their number), the live path and the tool state. */
  lemma {:induction false} HistoryButtonsConserveStrokes(s: State, events: seq<Event>)
    requires forall i :: 0 <= i < |events| ==> IsHistoryEvent(events[i])
    ensures AllStrokes(Run(s, events)) == AllStrokes(s)
    ensures |Run(s, events).paths| + |Run(s, events).undoStack| == |s.paths| + |s.undoStack|
    ensures Run(s, events).currentPath == s.currentPath
    ensures Run(s, events).brushSize == s.brushSize && Run(s, events).brushColor == s.brushColor
    decreases |events|
  {
    if events != [] {
      if events[0].ClearTap? {
        ClearConservesStrokes(s);
      } else if events[0].UndoTap? {
        UndoConservesStrokes(s);
      } else {
        RedoConservesStrokes(s);
      }
      HistoryButtonsConserveStrokes(Step(s, events[0]), events[1..]);
    }
  }

  /** n undos followed by n redos give back the starting state, when there
      were at least n strokes to undo. */
  lemma {:induction false} UndoTimesThenRedoTimes(s: State, n: nat)
    requires n <= |s.paths|
    ensures |UndoTimes(s, n).undoStack| == |s.undoStack| + n
    ensures RedoTimes(UndoTimes(s, n), n) == s
    decreases n
  {
    if n > 0 {
      UndoRedoInverse(s);
      var u := Undo(s);
      UndoTimesThenRedoTimes(u, n - 1);
      var w := UndoTimes(u, n - 1);
      assert UndoTimes(s, n) == w;
      assert RedoTimes(w, n - 1) == u;
      RedoTimesSplit(w, n - 1);
    }
  }

  /** Redo n times is the last of them after the first n - 1. */
  lemma {:induction false} RedoTimesSplit(s: State, n: nat)
    ensures RedoTimes(s, n + 1) == Redo(RedoTimes(s, n))
    decreases n
  {
    if n > 0 {
      RedoTimesSplit(Redo(s), n - 1);
    }
  }

  /** Redoing every stroke of the tail `t` of the redo buffer commits them in
      reverse order, the last-undone first. */
  lemma {:induction false} RedoTimesPops(s: State, rest: seq<DrawPath>, t: seq<DrawPath>)
    requires s.undoStack == rest + t
    ensures RedoTimes(s, |t|) == s.(paths := s.paths + Reverse(t), undoStack := rest)
    decreases |t|
  {
    if t == [] {
      assert rest + t == rest;
    } else {
      assert s.undoStack != [] && Last(s.undoStack) == Last(t);
      assert DropLast(s.undoStack) == rest + DropLast(t);
      var r := Redo(s);
      RedoTimesPops(r, rest, DropLast(t));
      assert s.paths + [Last(t)] + Reverse(DropLast(t)) == s.paths + Reverse(t);
    }
  }

  /** After Clear, redoing as often as there were strokes brings every stroke
      back but in reverse drawing order, and the older redo buffer survives. */
  lemma RedoAfterClearReversesOrder(s: State)
    ensures RedoTimes(Clear(s), |s.paths|) ==
      s.(paths := Reverse(s.paths), undoStack := s.undoStack)
  {
    RedoTimesPops(Clear(s), s.undoStack, s.paths);
  }

  /** While a live path exists, drag moves append their points to it. */
  lemma {:induction false} MovesExtendLivePath(s: State, points: seq<Offset>, moves: seq<Offset>)
    requires s.currentPath == Some(points)
    ensures Run(s, Moves(moves)) == s.(currentPath := Some(points + moves))
    decreases |moves|
  {
    if moves == [] {
      assert points + moves == points;
    } else {
      var t := Draw(s, moves[0]);
      assert Moves(moves)[1..] == Moves(moves[1..]);
      MovesExtendLivePath(t, points + [moves[0]], moves[1..]);
      assert points + [moves[0]] + moves[1..] == points + moves;
    }
  }

  /** A whole drag gesture adds exactly one stroke, the polyline through its
      start and move points in the colour and width selected, at the end of
      the committed strokes, and leaves the redo buffer empty. */
  lemma GestureCommitsOneStroke(s: State, start: Offset, moves: seq<Offset>)
    ensures Run(s, Gesture(start, moves)) ==
      s.(paths := s.paths + [DrawPath([start] + moves, s.brushColor, s.brushSize)],
         undoStack := [], currentPath := None)
    ensures |Run(s, Gesture(start, moves)).paths| == |s.paths| + 1
  {
    var started := DrawStart(s, start);
    assert Run(s, [DragStart(start)]) == started;
    MovesExtendLivePath(started, [start], moves);
    var moved := Run(started, Moves(moves));
    assert Run(moved, [DragEnd]) == DrawEnd(moved);
    RunAppend(s, [DragStart(start)], Moves(moves));
    RunAppend(s, [DragStart(start)] + Moves(moves), [DragEnd]);
  }

  /* ---------- the well-formedness invariant ---------- */

  lemma StepKeepsWellFormed(s: State, e: Event)
    requires WellFormed(s)
    ensures WellFormed(Step(s, e))
  {
    match e
    case UndoTap =>
      if CanUndo(s) {
        assert s.paths == DropLast(s.paths) + [Last(s.paths)];
      }
    case RedoTap =>
      if CanRedo(s) {
        assert s.undoStack == DropLast(s.undoStack) + [Last(s.undoStack)];
      }
    case _ =>
  }

  lemma {:induction false} RunKeepsWellFormed(s: State, events: seq<Event>)
    requires WellFormed(s)
    ensures WellFormed(Run(s, events))
    decreases |events|
  {
    if events != [] {
      StepKeepsWellFormed(s, events[0]);
      RunKeepsWellFormed(Step(s, events[0]), events[1..]);
    }
  }

  /** Every state reachable from the start screen is well formed. */
  lemma ReachableIsWellFormed(events: seq<Event>)
    ensures WellFormed(Run(Initial, events))
  {
    RunKeepsWellFormed(Initial, events);
  }

  /* ---------- scenarios ---------- */

  lemma NoMoves(at: Offset)
    ensures [at] + [] == [at]
  {
  }

  /** Draw A, draw B, undo, draw C: the redo buffer is emptied by C and the
      committed strokes are A then C. */
  lemma NewStrokeInvalidatesRedo(a: Offset, b: Offset, c: Offset)
    ensures Run(Initial, Gesture(a, []) + Gesture(b, []) + [UndoTap] + Gesture(c, [])).paths ==
      [DrawPath([a], Black, 10.0), DrawPath([c], Black, 10.0)]
    ensures Run(Initial, Gesture(a, []) + Gesture(b, []) + [UndoTap] + Gesture(c, [])).undoStack == []
  {
    var ga, gb, gc := Gesture(a, []), Gesture(b, []), Gesture(c, []);
    NoMoves(a);
    NoMoves(b);
    NoMoves(c);
    var sa := Run(Initial, ga);
    GestureCommitsOneStroke(Initial, a, []);
    assert sa.paths == [DrawPath([a], Black, 10.0)];
    var sb := Run(sa, gb);
    GestureCommitsOneStroke(sa, b, []);
    assert sb.paths == [DrawPath([a], Black, 10.0), DrawPath([b], Black, 10.0)];
    RunAppend(Initial, ga, gb);
    var su := Undo(sb);
    RunAppend(Initial, ga + gb, [UndoTap]);
    assert Run(sb, [UndoTap]) == su;
    assert su.paths == [DrawPath([a], Black, 10.0)];
    GestureCommitsOneStroke(su, c, []);
    RunAppend(Initial, ga + gb + [UndoTap], gc);
  }

  /** Strokes of width 10, 20, 30 in black, red, blue; Undo leaves the first two
      and puts the blue one in the redo buffer; Redo brings it back. */
  lemma ToolStateIsReadAtCommit(p: Offset, q: Offset, r: Offset)
    ensures
      var s3 := Run(Initial,
        [BrushSizeChange(10.0), BrushColorChange(Black)] + Gesture(p, []) +
        [BrushSizeChange(20.0), BrushColorChange(Red)] + Gesture(q, []) +
        [BrushSizeChange(30.0), BrushColorChange(Blue)] + Gesture(r, []));
      && Undo(s3).paths == [DrawPath([p], Black, 10.0), DrawPath([q], Red, 20.0)]
      && Undo(s3).undoStack == [DrawPath([r], Blue, 30.0)]
      && Redo(Undo(s3)).paths ==
           [DrawPath([p], Black, 10.0), DrawPath([q], Red, 20.0), DrawPath([r], Blue, 30.0)]
      && Redo(Undo(s3)).undoStack == []
  {
    var t1 := [BrushSizeChange(10.0), BrushColorChange(Black)];
    var t2 := [BrushSizeChange(20.0), BrushColorChange(Red)];
    var t3 := [BrushSizeChange(30.0), BrushColorChange(Blue)];
    var gp, gq, gr := Gesture(p, []), Gesture(q, []), Gesture(r, []);
    NoMoves(p);
    NoMoves(q);
    NoMoves(r);
    var s0 := Run(Initial, t1);
    assert s0 == Initial;
    GestureCommitsOneStroke(s0, p, []);
    var s1 := Run(s0, gp);
    RunAppend(Initial, t1, gp);
    var s1t := Run(s1, t2);
    assert s1t == s1.(brushSize := 20.0, brushColor := Red);
    RunAppend(Initial, t1 + gp, t2);
    GestureCommitsOneStroke(s1t, q, []);
    var s2 := Run(s1t, gq);
    RunAppend(Initial, t1 + gp + t2, gq);
    var s2t := Run(s2, t3);
    assert s2t == s2.(brushSize := 30.0, brushColor := Blue);
    RunAppend(Initial, t1 + gp + t2 + gq, t3);
    GestureCommitsOneStroke(s2t, r, []);
    RunAppend(Initial, t1 + gp + t2 + gq + t3, gr);
  }
}
