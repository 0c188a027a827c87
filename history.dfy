/**
 * The stroke-history state machine of the doodle screen as pure values: the
 * whole screen state, one transition function per callback, and the replay
 * of a sequence of user events.
 */
module History {
  import opened Strokes

  /** Everything the screen remembers: the tool state, the committed strokes
      (`paths`, drawn in order), the redo buffer (`undoStack`, its last element
      is redone first) and the stroke being drawn, if any. */
  datatype State = State(
    brushSize: real,
    brushColor: Color,
    paths: seq<DrawPath>,
    undoStack: seq<DrawPath>,
    currentPath: Option<seq<Offset>>)

  /** The state the screen starts in: brush size 10, black, nothing drawn. */
  const Initial: State := State(10.0, Black, [], [], None)

  function Last<T>(q: seq<T>): T
    requires q != []
  {
    q[|q| - 1]
  }

  function DropLast<T>(q: seq<T>): seq<T>
    requires q != []
  {
    q[..|q| - 1]
  }

  /** Whether the Undo button is enabled. */
  predicate CanUndo(s: State) {
    s.paths != []
  }

  /** Whether the Redo button is enabled. */
  predicate CanRedo(s: State) {
    s.undoStack != []
  }

  /** The slider callback; the 5..50 range is the slider's, not checked here. */
  function SetBrushSize(s: State, size: real): State {
    s.(brushSize := size)
  }

  /** A palette button. */
  function SetBrushColor(s: State, color: Color): State {
    s.(brushColor := color)
  }

  /** Clear: all committed strokes, in order, go onto the end of the redo buffer. */
  function Clear(s: State): State {
    s.(undoStack := s.undoStack + s.paths, paths := [])
  }

  /** Undo: the last committed stroke moves to the end of the redo buffer. */
  function Undo(s: State): State {
    if CanUndo(s) then
      s.(paths := DropLast(s.paths), undoStack := s.undoStack + [Last(s.paths)])
    else
      s
  }

  /** Redo: the last stroke of the redo buffer is committed again, at the end. */
  function Redo(s: State): State {
    if CanRedo(s) then
      s.(undoStack := DropLast(s.undoStack), paths := s.paths + [Last(s.undoStack)])
    else
      s
  }

  /** Drag start: a new live path seeded with the start point; redo is lost. */
  function DrawStart(s: State, at: Offset): State {
    s.(currentPath := Some([at]), undoStack := [])
  }

  /** Drag move: extends the live path, if there is one. */
  function Draw(s: State, at: Offset): State {
    match s.currentPath
    case None => s
    case Some(points) => s.(currentPath := Some(points + [at]))
  }

  /** Drag end: commits the live path, if any, with the current tool state. */
  function DrawEnd(s: State): State {
    match s.currentPath
    case None => s
    case Some(points) =>
      s.(paths := s.paths + [DrawPath(points, s.brushColor, s.brushSize)], currentPath := None)
  }

  /** The user events the screen reacts to. */
  datatype Event =
    | BrushSizeChange(size: real)
    | BrushColorChange(color: Color)
    | ClearTap
    | UndoTap
    | RedoTap
    | DragStart(start: Offset)
    | DragMove(position: Offset)
    | DragEnd

  function Step(s: State, e: Event): State {
    match e
    case BrushSizeChange(size) => SetBrushSize(s, size)
    case BrushColorChange(color) => SetBrushColor(s, color)
    case ClearTap => Clear(s)
    case UndoTap => Undo(s)
    case RedoTap => Redo(s)
    case DragStart(at) => DrawStart(s, at)
    case DragMove(at) => Draw(s, at)
    case DragEnd => DrawEnd(s)
  }

  /** The state after handling the events in order. */
  function Run(s: State, events: seq<Event>): State
    decreases |events|
  {
    if events == [] then s else Run(Step(s, events[0]), events[1..])
  }

  /** The events one drag gesture delivers: a start, the moves, an end. */
  function Gesture(start: Offset, moves: seq<Offset>): seq<Event> {
    [DragStart(start)] + Moves(moves) + [DragEnd]
  }

  function Moves(points: seq<Offset>): (events: seq<Event>)
    ensures |events| == |points|
    ensures forall i :: 0 <= i < |points| ==> events[i] == DragMove(points[i])
  {
    if points == [] then [] else [DragMove(points[0])] + Moves(points[1..])
  }

  /** Applying Undo or Redo n times. */
  function UndoTimes(s: State, n: nat): State
    decreases n
  {
    if n == 0 then s else UndoTimes(Undo(s), n - 1)
  }

  function RedoTimes(s: State, n: nat): State
    decreases n
  {
    if n == 0 then s else RedoTimes(Redo(s), n - 1)
  }

  function Reverse<T>(q: seq<T>): seq<T> {
    if q == [] then [] else [Last(q)] + Reverse(DropLast(q))
  }

  /** Every stroke the screen still holds, drawn or undone. */
  function AllStrokes(s: State): multiset<DrawPath> {
    multiset(s.paths) + multiset(s.undoStack)
  }

  /** No stroke is an empty polyline: a live path starts with its start point
      and only grows, and only a live path is ever committed. */
  predicate WellFormed(s: State) {
    && (forall d :: d in s.paths ==> d.path != [])
    && (forall d :: d in s.undoStack ==> d.path != [])
    && (s.currentPath.Some? ==> s.currentPath.value != [])
  }
}
