# Doodle-App stroke history, modelled in Dafny

Doodle-App is a single-screen Android drawing app. The user paints freehand
strokes with a brush colour from an eight-colour palette and a brush size.
Undo, Redo and Clear buttons work on the stroke history. All of this state
lives in the `DoodleApp` composable in `MainActivity.kt`:

- `paths` holds the committed strokes, drawn in order.
- `undoStack` is the redo buffer.
- `currentPath` is the stroke being drawn, if any.
- `brushSize` and `brushColor` are the tool state.

The callbacks change this state in place. This project models it in four
modules:

- `Strokes` (`strokes.dfy`) holds the values: the pointer position `Offset`,
  the palette `Color`, and the committed stroke record `DrawPath`.
- `History` (`history.dfy`) is the state machine as pure values. It has a
  `State` datatype and one transition function per callback. It also replays
  sequences of user `Event`s (`Step`, `Run`).
- `HistoryProperties` (`history_properties.dfy`) proves what the history
  promises:
  - the exact effect of each callback;
  - Undo and Redo are inverses, also when repeated n times;
  - Clear appends in order and is idempotent;
  - Clear, Undo and Redo never create or lose a stroke;
  - a drag gesture commits exactly one stroke and empties the redo buffer;
  - no stroke is ever an empty polyline.
- `Doodle` (`doodle_app.dfy`) is the screen state as the app holds it. The
  class `DoodleApp` has mutable fields, and each callback is a method with a
  `modifies` frame. Each method states its new fields and is proved to make
  exactly the `History` transition of the same name.

Two behaviours of the original are proved as they are, not changed:

- Clear is not reversible by Undo: Undo right after Clear does nothing.
- Clear followed by one Redo per cleared stroke brings every stroke back in
  REVERSE drawing order (`RedoAfterClearReversesOrder`). Clear appends the
  strokes to the redo buffer in order, and Redo pops from its end. So the
  overlap order of the strokes on the canvas is inverted.

Abstractions:

- The Compose `Path` is modelled as the sequence of its points. `moveTo` gives
  the first point and each `lineTo` appends one.
- `Offset` coordinates and the brush size are Kotlin `Float`s. They are only
  stored and compared, never computed with, so here they are exact `real`s.
- `Color` is the eight palette entries: black, red, blue, green, yellow,
  magenta, cyan and orange (0xFFFF9800). The brush colour starts black and can
  only be set from the palette.

## Model

| member | source | states |
|---|---|---|
| Doodle.DoodleApp.constructor | app/src/main/java/com/example/doodle_app/MainActivity.kt:46-50 | the screen starts with brush size 10, black, no committed or undone strokes and no live path, a well-formed state equal to `History.Initial` |
| Doodle.DoodleApp.OnBrushSizeChange | app/src/main/java/com/example/doodle_app/MainActivity.kt:62 | only the brush size changes, to the given value, with no clamping; strokes and colour are untouched |
| Doodle.DoodleApp.OnBrushColorChange | app/src/main/java/com/example/doodle_app/MainActivity.kt:64 | only the brush colour changes, to the given palette colour |
| Doodle.DoodleApp.OnClear | app/src/main/java/com/example/doodle_app/MainActivity.kt:65-68 | the new redo buffer is the old one followed by all old committed strokes in order; no committed strokes remain; live path and tools unchanged |
| Doodle.DoodleApp.OnUndo | app/src/main/java/com/example/doodle_app/MainActivity.kt:69-74 | with strokes, the committed list loses exactly its last stroke, which goes to the end of the redo buffer; with none, both lists are unchanged; live path and tools unchanged |
| Doodle.DoodleApp.OnRedo | app/src/main/java/com/example/doodle_app/MainActivity.kt:75-80 | with a non-empty redo buffer, its last stroke moves to the end of the committed list; otherwise nothing changes; live path and tools unchanged |
| Doodle.DoodleApp.CanUndo | app/src/main/java/com/example/doodle_app/MainActivity.kt:81 | the Undo button is enabled exactly when there is a committed stroke |
| Doodle.DoodleApp.CanRedo | app/src/main/java/com/example/doodle_app/MainActivity.kt:82 | the Redo button is enabled exactly when the redo buffer is non-empty |
| Doodle.DoodleApp.OnDrawStart | app/src/main/java/com/example/doodle_app/MainActivity.kt:91-94 | the live path becomes the single start point, the redo buffer is emptied, committed strokes and tools unchanged |
| Doodle.DoodleApp.OnDraw | app/src/main/java/com/example/doodle_app/MainActivity.kt:95-97 | the point is appended to the live path if there is one, otherwise nothing changes |
| Doodle.DoodleApp.OnDrawEnd | app/src/main/java/com/example/doodle_app/MainActivity.kt:98-103 | a live path is committed at the end with the brush colour and size of that moment; the live path becomes absent; the redo buffer is unchanged |
| Doodle.DrawUndoRedo | app/src/main/java/com/example/doodle_app/MainActivity.kt:69-103 | drawing one stroke on a fresh screen, then Undo and Redo, leaves exactly that black width-10 stroke committed and an empty redo buffer |
| Strokes.PaletteListsEveryColorOnce | app/src/main/java/com/example/doodle_app/MainActivity.kt:164-167 | every brush colour has exactly one palette entry |
| History.Moves | app/src/main/java/com/example/doodle_app/MainActivity.kt:95-97 | the drag-move events of a gesture are one per point, in order |
| HistoryProperties.UndoMovesLastStroke | app/src/main/java/com/example/doodle_app/MainActivity.kt:69-74 | Undo moves exactly the last committed stroke to the end of the redo buffer and changes nothing else; Undo is a no-op if and only if `canUndo` is false |
| HistoryProperties.RedoMovesLastUndone | app/src/main/java/com/example/doodle_app/MainActivity.kt:75-80 | Redo moves exactly the last undone stroke to the end of the committed strokes; Redo is a no-op if and only if `canRedo` is false |
| HistoryProperties.UndoRedoInverse | app/src/main/java/com/example/doodle_app/MainActivity.kt:69-80 | an effective Undo followed by Redo restores the whole state, and so does an effective Redo followed by Undo |
| HistoryProperties.ClearAppendsInOrder | app/src/main/java/com/example/doodle_app/MainActivity.kt:65-68 | Clear empties the committed strokes, appends them in order to the redo buffer, is idempotent, and Undo right after it does nothing |
| HistoryProperties.UndoConservesStrokes | app/src/main/java/com/example/doodle_app/MainActivity.kt:69-74 | Undo keeps the multiset of all held strokes and their total count |
| HistoryProperties.RedoConservesStrokes | app/src/main/java/com/example/doodle_app/MainActivity.kt:75-80 | Redo keeps the multiset of all held strokes and their total count |
| HistoryProperties.ClearConservesStrokes | app/src/main/java/com/example/doodle_app/MainActivity.kt:65-68 | Clear keeps the multiset of all held strokes and their total count |
| HistoryProperties.HistoryButtonsConserveStrokes | app/src/main/java/com/example/doodle_app/MainActivity.kt:65-80 | any sequence of Clear, Undo and Redo taps keeps the multiset and number of strokes, the live path and the tool state |
| HistoryProperties.DrawStartDropsRedo | app/src/main/java/com/example/doodle_app/MainActivity.kt:91-94 | drag start seeds the live path with the start point, empties the redo buffer and keeps the committed strokes |
| HistoryProperties.DrawExtendsLivePath | app/src/main/java/com/example/doodle_app/MainActivity.kt:95-97 | drag move appends to an existing live path and is a no-op without one |
| HistoryProperties.DrawEndCommits | app/src/main/java/com/example/doodle_app/MainActivity.kt:98-103 | drag end commits the live path with the current tool state, or keeps the strokes without one; the live path is then absent and the redo buffer unchanged |
| HistoryProperties.ToolChangeKeepsStrokes | app/src/main/java/com/example/doodle_app/MainActivity.kt:62-64 | the tool setters change only the tool state |
| HistoryProperties.RunAppend | app/src/main/java/com/example/doodle_app/MainActivity.kt:60-104 | handling two event sequences one after the other equals handling their concatenation |
| HistoryProperties.UndoTimesThenRedoTimes | app/src/main/java/com/example/doodle_app/MainActivity.kt:69-80 | n undos then n redos restore the state when at least n strokes are committed |
| HistoryProperties.RedoTimesSplit | app/src/main/java/com/example/doodle_app/MainActivity.kt:75-80 | n + 1 redos are one redo after n redos |
| HistoryProperties.RedoTimesPops | app/src/main/java/com/example/doodle_app/MainActivity.kt:75-80 | redoing all of a tail of the redo buffer commits it in reverse order and leaves the rest of the buffer |
| HistoryProperties.RedoAfterClearReversesOrder | app/src/main/java/com/example/doodle_app/MainActivity.kt:65-80 | Clear then one Redo per cleared stroke restores all strokes in reverse drawing order and keeps the older redo buffer |
| HistoryProperties.MovesExtendLivePath | app/src/main/java/com/example/doodle_app/MainActivity.kt:95-97 | a run of drag moves appends all its points, in order, to the live path |
| HistoryProperties.GestureCommitsOneStroke | app/src/main/java/com/example/doodle_app/MainActivity.kt:91-103 | a whole gesture adds exactly one stroke at the end: its start and move points, in the current colour and size; the redo buffer ends empty and no live path remains |
| HistoryProperties.StepKeepsWellFormed | app/src/main/java/com/example/doodle_app/MainActivity.kt:60-104 | no callback creates an empty live or committed polyline |
| HistoryProperties.RunKeepsWellFormed | app/src/main/java/com/example/doodle_app/MainActivity.kt:60-104 | well-formedness is kept along any event sequence |
| HistoryProperties.ReachableIsWellFormed | app/src/main/java/com/example/doodle_app/MainActivity.kt:46-50 | every state reachable from the start screen is well formed |
| HistoryProperties.NewStrokeInvalidatesRedo | app/src/main/java/com/example/doodle_app/MainActivity.kt:69-103 | draw A, draw B, Undo, draw C leaves committed strokes A then C and an empty redo buffer |
| HistoryProperties.ToolStateIsReadAtCommit | app/src/main/java/com/example/doodle_app/MainActivity.kt:62-103 | strokes committed at widths 10, 20, 30 in black, red, blue keep their own tool state; Undo moves only the blue one to the redo buffer, Redo restores all three |

## Left out

- Activity lifecycle, edge-to-edge and theming (`MainActivity.onCreate`): Android plumbing with no state logic.
- Tool panel and colour button layout, and canvas rendering: pure presentation. The renderer only reads the state.
- The slider's 5..50 range belongs to the Compose `Slider` widget, not to the state code. So the brush size is not claimed to stay in that range.
- The gesture detector itself is an external library. Its callbacks are modelled as the three method calls. The app passes no drag-cancel callback, so a cancelled drag leaves the live path in place until the next drag start.
- Compose `Path` curve geometry and the ARGB bits of `Color` are foreign library types. A path is its point sequence, and a colour is its palette entry.
- Compose state observation and recomposition (`remember`, `mutableStateListOf`) is a framework mechanism, not behaviour.
- The live `Path` object is mutated in place and handed to the committed `DrawPath` by reference. The model copies it as a value. This is the same because `currentPath` is set to null right after the commit, so the object is never changed again.
- Committed and undone strokes are values here. "The two lists never share a stroke" is an object-identity property and is not stated. Conservation of the multiset of strokes is stated instead.
