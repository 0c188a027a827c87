/**
 * The screen state as the app holds it: mutable fields that the tool panel
 * and canvas callbacks update in place. Each callback is a method proved to
 * make exactly the transition of the same name in module History.
 */
module Doodle {
  import opened Strokes
  import H = History

  class DoodleApp {
    var brushSize: real
    var brushColor: Color
    var paths: seq<DrawPath>
    var undoStack: seq<DrawPath>
    var currentPath: Option<seq<Offset>>

    /** The whole screen state as a value. */
    function Snapshot(): H.State
      reads this
    {
      H.State(brushSize, brushColor, paths, undoStack, currentPath)
    }

    /** No committed, undone or live polyline is empty. */
    predicate Valid()
      reads this
    {
      H.WellFormed(Snapshot())
    }

    constructor ()
      ensures Valid()
      ensures brushSize == 10.0 && brushColor == Black
      ensures paths == [] && undoStack == [] && currentPath == None
      ensures Snapshot() == H.Initial
    {
      brushSize := 10.0;
      brushColor := Black;
      paths := [];
      undoStack := [];
      currentPath := None;
    }

    method OnBrushSizeChange(size: real)
      requires Valid()
      modifies this
      ensures Valid()
      ensures brushSize == size
      ensures brushColor == old(brushColor) && paths == old(paths)
      ensures undoStack == old(undoStack) && currentPath == old(currentPath)
      ensures Snapshot() == H.SetBrushSize(old(Snapshot()), size)
    {
      brushSize := size;
    }

    method OnBrushColorChange(color: Color)
      requires Valid()
      modifies this
      ensures Valid()
      ensures brushColor == color
      ensures brushSize == old(brushSize) && paths == old(paths)
      ensures undoStack == old(undoStack) && currentPath == old(currentPath)
      ensures Snapshot() == H.SetBrushColor(old(Snapshot()), color)
    {
      brushColor := color;
    }

    method OnClear()
      requires Valid()
      modifies this
      ensures Valid()
      ensures undoStack == old(undoStack) + old(paths) && paths == []
      ensures currentPath == old(currentPath)
      ensures brushSize == old(brushSize) && brushColor == old(brushColor)
      ensures Snapshot() == H.Clear(old(Snapshot()))
    {
      undoStack := undoStack + paths;
      paths := [];
    }

    method OnUndo()
      requires Valid()
      modifies this
      ensures Valid()
      ensures old(paths) != [] ==>
        && paths + [old(paths)[|old(paths)| - 1]] == old(paths)
        && undoStack == old(undoStack) + [old(paths)[|old(paths)| - 1]]
      ensures old(paths) == [] ==> paths == old(paths) && undoStack == old(undoStack)
      ensures currentPath == old(currentPath)
      ensures brushSize == old(brushSize) && brushColor == old(brushColor)
      ensures Snapshot() == H.Undo(old(Snapshot()))
    {
      if paths != [] {
        var lastPath := paths[|paths| - 1];
        paths := paths[..|paths| - 1];
        undoStack := undoStack + [lastPath];
        assert paths + [lastPath] == old(paths);
      }
    }

    method OnRedo()
      requires Valid()
      modifies this
      ensures Valid()
      ensures old(undoStack) != [] ==>
        && undoStack + [old(undoStack)[|old(undoStack)| - 1]] == old(undoStack)
        && paths == old(paths) + [old(undoStack)[|old(undoStack)| - 1]]
      ensures old(undoStack) == [] ==> paths == old(paths) && undoStack == old(undoStack)
      ensures currentPath == old(currentPath)
      ensures brushSize == old(brushSize) && brushColor == old(brushColor)
      ensures Snapshot() == H.Redo(old(Snapshot()))
    {
      if undoStack != [] {
        var redoPath := undoStack[|undoStack| - 1];
        undoStack := undoStack[..|undoStack| - 1];
        paths := paths + [redoPath];
        assert undoStack + [redoPath] == old(undoStack);
      }
    }

    /** Whether the Undo button is enabled. */
    method CanUndo() returns (enabled: bool)
      ensures enabled <==> paths != []
      ensures enabled <==> H.CanUndo(Snapshot())
    {
      enabled := paths != [];
    }

    /** Whether the Redo button is enabled. */
    method CanRedo() returns (enabled: bool)
      ensures enabled <==> undoStack != []
      ensures enabled <==> H.CanRedo(Snapshot())
    {
      enabled := undoStack != [];
    }

    method OnDrawStart(at: Offset)
      requires Valid()
      modifies this
      ensures Valid()
      ensures currentPath == Some([at]) && undoStack == []
      ensures paths == old(paths)
      ensures brushSize == old(brushSize) && brushColor == old(brushColor)
      ensures Snapshot() == H.DrawStart(old(Snapshot()), at)
    {
      currentPath := Some([at]);
      undoStack := [];
    }

    method OnDraw(at: Offset)
      requires Valid()
      modifies this
      ensures Valid()
      ensures old(currentPath).Some? ==> currentPath == Some(old(currentPath).value + [at])
      ensures old(currentPath).None? ==> currentPath == None
      ensures paths == old(paths) && undoStack == old(undoStack)
      ensures brushSize == old(brushSize) && brushColor == old(brushColor)
      ensures Snapshot() == H.Draw(old(Snapshot()), at)
    {
      if currentPath.Some? {
        currentPath := Some(currentPath.value + [at]);
      }
    }

    method OnDrawEnd()
      requires Valid()
      modifies this
      ensures Valid()
      ensures old(currentPath).Some? ==>
        paths == old(paths) + [DrawPath(old(currentPath).value, old(brushColor), old(brushSize))]
      ensures old(currentPath).None? ==> paths == old(paths)
      ensures currentPath == None && undoStack == old(undoStack)
      ensures brushSize == old(brushSize) && brushColor == old(brushColor)
      ensures Snapshot() == H.DrawEnd(old(Snapshot()))
    {
      if currentPath.Some? {
        paths := paths + [DrawPath(currentPath.value, brushColor, brushSize)];
      }
      currentPath := None;
    }
  }

  /** One gesture on a fresh screen: the stroke is committed with the
      default tool state, and Undo then Redo brings the screen back to it. */
  method DrawUndoRedo(start: Offset, next: Offset) returns (app: DoodleApp)
    ensures app.paths == [DrawPath([start, next], Black, 10.0)]
    ensures app.undoStack == [] && app.currentPath == None
  {
    app := new DoodleApp();
    app.OnDrawStart(start);
    app.OnDraw(next);
    app.OnDrawEnd();
    assert [start] + [next] == [start, next];
    var enabled := app.CanUndo();
    assert enabled;
    app.OnUndo();
    assert app.paths == [] && app.undoStack == [DrawPath([start, next], Black, 10.0)];
    app.OnRedo();
  }
}
