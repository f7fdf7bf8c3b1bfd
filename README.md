# Paintbrush command history: a Dafny model

This project models the command history and replay engine of the paintbrush
editor, together with the pieces that engine depends on. It has six modules.

- `Editors` (editor.dfy) is the `Editor` class.
  - It keeps a linear stack of performed commands and a cursor into that stack.
  - The current buffer is always the baseline buffer with the applied commands
    replayed on it, oldest first. The applied commands are those below the
    cursor.
  - At most one command is in progress, created by a click or a drag.
  - It has the undo and redo handlers, the cut, copy and paste handlers, the
    selection handlers and the tool settings handlers.
  - It has the document operations (new, load, save), which start a new
    baseline and clear the history.
- `Commands` (command.dfy) is the command family.
  - There is one `Command` class whose `kind` never changes. Each variant has
    fixed capability flags (modifying, clickable, draggable).
  - Commands have setters. A Draw or Erase stroke grows one segment per drag
    step.
  - Commands can be copied.
  - `Performed` gives the effect of performing a command on a buffer.
- `ToolConfigs` (tool_config.dfy) is the tool registry: one template command
  per configurable tool. New commands are copies of a template. The template
  itself is handed out, so settings changes reach every later command.
- `Algorithms` (algorithms.dfy) is the flood fill of the Fill tool. It is a
  breadth-first traversal over an `array2<Color>` with a `visited` matrix and a
  queue, bounded by a per-channel threshold of 1.
- `Canvas` (canvas.dfy) is the canvas's drag tracker. It turns the mouse
  positions sampled while the left button is held into chained line segments.
- `Graphics` (graphics.dfy) holds the value types: points, segments,
  rectangles, colours and pixmaps. It also has `Painter`, a record of the
  painting primitives.

Rasterisation is not modelled. A pixmap is a value, and the painting
primitives (drawing one line, the Fill, Cut and Paste effects, copying an area)
are function values in a `Painter`. Every property about buffers therefore
holds whatever those primitives do.

The most important invariant is `Editors.Editor.Valid`:

- The cursor lies within the stack.
- `currBuffer == Replay(painter, initialBuffer, cmdStack[..cmdStackPos])`.
- `isModified` holds exactly when `cmdStackPos > 0`.
- The history holds only modifying commands, and none of them is a tool
  template.
- A command in progress is draggable and is neither in the history nor a
  template.

Every handler states its effect on the editor's fields as an update of the
snapshot `State()`, and every handler except `LoadFileAsWritten` keeps
`Valid`. `LoadFileAsWritten` models a defect of the loader and breaks the
invariant on purpose (see "## Findings").

## Model

| member | source | states |
|---|---|---|
| `Graphics.FilledPixmap` | editor.cpp:23-27 | a fresh buffer has the requested size and every pixel is the given colour |
| `Commands.IsModifying` | command.h:94-287 | true exactly for Draw, Fill, Erase, Cut and Paste; false for Select, Copy, Zoom and Scroll |
| `Commands.IsClickable` | command.h:49-288 | true exactly for Fill and Zoom; every other variant keeps the base default false |
| `Commands.IsDraggable` | command.h:52-194 | true exactly for Draw, Erase and Select; no draggable command is clickable |
| `Commands.UsesCustomCursor` | command.h:59-173 | true exactly for Draw and Erase, which are both draggable and modifying |
| `Commands.HalfTowardZero` | command.cpp:22 | the radius `width / 2` truncates toward zero, so 2*radius is within 1 of width on the side of zero |
| `Commands.CursorSquare` | command.cpp:21-25 | the cursor is painted in a square centred on the pointer. Its side is even, and for a non-negative width it is the width or one less |
| `Commands.Command.CustomCursor` | command.cpp:41-44 | only Draw and Erase paint a custom cursor, and it is centred on the pointer |
| `Commands.StrokeConcat` | command.cpp:16-18 | stroking a list of segments strokes a prefix, then the rest on top of it: the segments are drawn in list order |
| `Commands.StrokeFirst` | command.cpp:16-18 | the first stored segment is drawn first, on the original buffer |
| `Commands.Command.NewDraw` | command.h:70-72 | a new Draw has the given colour and width and no segments |
| `Commands.Command.NewFill` | command.h:116 | a new Fill has the given colour and target, and no segments |
| `Commands.Command.NewErase` | command.h:145-147 | a new Erase has the given width and no segments |
| `Commands.Command.NewCut` | command.h:210 | a new Cut has the given target area, and no segments |
| `Commands.Command.NewCopy` | command.h:231-233 | a new Copy holds the given pixmap, and no segments |
| `Commands.Command.NewPaste` | command.h:254-256 | a new Paste has the given target area and pixmap, and no segments |
| `Commands.Command.NewSelect` | command.h:185 | the new command's kind is Select, with no segments |
| `Commands.Command.NewZoom` | command.h:280 | the new command's kind is Zoom, with no segments |
| `Commands.Command.NewScroll` | tool_config.cpp:41 | the new command's kind is Scroll, with no segments |
| `Commands.Command.SetMode` | command.h:40 | only the mode changes |
| `Commands.Command.SetWidth` | command.h:82-84 | only the width changes (Draw and Erase; Erase's setter is at command.h:157-159) |
| `Commands.Command.SetColor` | command.h:86-88 | only the colour changes (Draw and Fill; Fill's setter is at command.h:118-120) |
| `Commands.Command.SetTargetPos` | command.h:50-129 | Fill (and Zoom, command.h:290) change only their target; other variants keep the base no-op |
| `Commands.Command.SetTargetArea` | command.h:212 | only Cut's target area changes |
| `Commands.Command.StartDrag` | command.h:53-195 | Select anchors its rectangle at the start point; every other variant keeps the base no-op |
| `Commands.Command.ContinueDrag` | command.cpp:10-50 | Draw and Erase append exactly one segment (from, to) and keep the earlier ones; Select only moves its far corner to `to`; others are unchanged |
| `Commands.Command.Clone` | command.h:74-263 | the copy is a fresh object of the same variant. Draw copies the width, the colour and the segments, and Erase the width and the segments. Neither copies the mode. Copy and Paste copy only the pixmap, so a copied Paste has an empty target area. The other variants copy every field |
| `Commands.Command.CopyLines` | command.h:74-80 | the copy's segment list becomes the source's segments, appended one by one, in order |
| `Commands.Command.Perform` | command.cpp:14-38 | performing yields `Performed`. Draw strokes its segments with its own pen, and Erase with the background colour. A command that does not modify the document leaves the buffer alone |
| `Commands.Command.Performed` | command.cpp:14-38 | a command that does not modify the document leaves the buffer alone |
| `Commands.Command.StrokeLines` | command.cpp:14-19 | the loop draws every stored segment, in order, with the pen |
| `Commands.CloneActsAlike` | command.h:90-92 | a copy performs exactly like its original, for every variant except Paste |
| `Commands.DragCopy` | command.h:74-80 | a drag step on a copy extends only the copy: the original's segments and settings are unchanged |
| `ToolConfigs.ConfigOrderIndex` | tool_config.cpp:14-21 | every registered tool occurs in the registration order |
| `ToolConfigs.ToolConfig.constructor` | tool_config.cpp:11-54 | exactly Select, Draw, Fill, Erase, Scroll and Zoom have a template, each of its own variant, and no template has segments. Draw is black with the default width. Fill is black and aimed at the origin. Erase is four times as wide |
| `ToolConfigs.ToolConfig.CreateCommand` | tool_config.cpp:57-59 | the result is a fresh copy of the registered template, and the registry does not change |
| `ToolConfigs.ToolConfig.GetConfig` | tool_config.cpp:61-63 | the result is the template object itself for a registered tool, and null otherwise |
| `Algorithms.SeedInRegion` | algorithms.cpp:26-51 | the seed is in its own region, since its colour is compared with itself |
| `Algorithms.ExtendRegion` | algorithms.cpp:43-60 | an in-bounds, in-threshold 4-neighbour of a region pixel is in the region |
| `Algorithms.RegionIsInside` | algorithms.cpp:43-51 | every region pixel is in bounds, and each of its four channels is within 1 of the seed's original colour |
| `Algorithms.ClosedSetCoversRegion` | algorithms.cpp:31-61 | a filled set closed under visiting neighbours contains every pixel of the region |
| `Algorithms.PushNeighbours` | algorithms.cpp:53-60 | the existing queue is kept as a prefix. Every pixel of the result was already queued or is an in-bounds 4-neighbour, and every in-bounds 4-neighbour is in the result |
| `Algorithms.FrontierInit` | algorithms.cpp:26-29 | the traversal invariant holds with only the seed queued |
| `Algorithms.FrontierSkip` | algorithms.cpp:37-38 | popping a visited pixel keeps the invariant |
| `Algorithms.FrontierPop` | algorithms.cpp:32-40 | after a pop, every neighbour of a filled pixel is still visited or queued |
| `Algorithms.FrontierBoundary` | algorithms.cpp:40-48 | an unvisited pixel outside the threshold is marked visited and is never filled or expanded |
| `Algorithms.PoppedInRegion` | algorithms.cpp:41-51 | a popped in-threshold pixel lies in the seed's region |
| `Algorithms.FrontierFill` | algorithms.cpp:40-60 | filling an unvisited in-threshold pixel and queueing its neighbours keeps the invariant |
| `Algorithms.FrontierExhausted` | algorithms.cpp:31-61 | when the queue is empty, the filled set is exactly the seed's 4-connected in-threshold region |
| `Algorithms.CellsContain` | algorithms.cpp:20-24 | the image's cells are exactly the in-bounds points |
| `Algorithms.RowCellsContain` | algorithms.cpp:20-24 | a row of the image holds exactly the in-bounds points of that row |
| `Algorithms.UnseenShrinks` | algorithms.cpp:37-40 | visiting a new pixel shrinks the unvisited set, so the loop terminates |
| `Algorithms.EnumeratesExtend` | algorithms.cpp:37-40 | appending a pixel not visited before keeps the processing log free of repeats |
| `Algorithms.MarkVisited` | algorithms.cpp:40 | the visited matrix marks exactly the seen pixels plus the new one |
| `Algorithms.PaintPixel` | algorithms.cpp:51 | the image shows the fill colour on the filled pixels plus the new one, and the original colours elsewhere |
| `Algorithms.Visit` | algorithms.cpp:32-60 | one loop turn keeps the traversal invariant, including that the image still shows every unfilled pixel's original colour. Either the popped pixel is newly visited, or nothing new is visited and the queue shrinks |
| `Algorithms.FloodFill` | algorithms.cpp:14-61 | a pixel is recoloured exactly when it is in the seed's 4-connected in-threshold region, and every other pixel keeps its colour. The seed is always recoloured. Every region pixel is processed, no pixel is processed twice, and every processed pixel is in bounds |
| `Canvas.ChainIsChained` | paintbrush_canvas.cpp:34-42 | the segments of a drag join up: the first starts at the entry point, each later one starts where the previous ended, and the i-th ends at the i-th position |
| `Canvas.Chain` | paintbrush_canvas.cpp:38-42 | a drag emits exactly one segment per reported move |
| `Canvas.ChainExtends` | paintbrush_canvas.cpp:38-42 | each further move extends the chain by exactly the segment from the point reached to the new position |
| `Canvas.DragTracker.constructor` | paintbrush_canvas.h:23 | the tracker starts outside any drag |
| `Canvas.DragTracker.MouseMove` | paintbrush_canvas.cpp:26-44 | without the left button the drag ends and nothing is emitted. The first move with it enters a drag at the position and emits nothing. A later move emits (lineStart, pos), moves lineStart to pos, and extends the drag's chain |
| `Editors.History.Push` | editor.cpp:367-380 | a push keeps 0 <= pos <= size |
| `Editors.History.Undo` | editor.cpp:92-97 | undo keeps 0 <= pos <= size |
| `Editors.History.Redo` | editor.cpp:104-109 | redo keeps 0 <= pos <= size |
| `Editors.UndoWithdrawsNewest` | editor.cpp:92-97 | at position 0 undo changes nothing. Otherwise it keeps the stack and withdraws exactly the newest applied command |
| `Editors.RedoReappliesOldest` | editor.cpp:104-109 | at the top of the stack redo changes nothing. Otherwise it keeps the stack and reapplies exactly the oldest undone command |
| `Editors.UndoRedoInverse` | editor.cpp:88-114 | undo then redo, and redo then undo, give back the history |
| `Editors.PushTruncatesThenAppends` | editor.cpp:371-380 | the applied prefix is kept, everything above the cursor is dropped, the command is appended, size = pos = old pos + 1, nothing is left to redo, and undo gives back the old applied commands |
| `Editors.ReplayStep` | editor.cpp:396-400 | replaying one more command performs it on the replay of the earlier ones |
| `Editors.ReplayPrefixStep` | editor.cpp:396-400 | replaying the first i+1 commands performs command i on the replay of the first i |
| `Editors.ReplayPush` | editor.cpp:367-388 | after a push, the replay of the applied commands is the pushed command performed on the replay before the push |
| `Editors.ReplayConcat` | editor.cpp:391-404 | replaying a history in two parts replays the first part, then the second on top of it |
| `Editors.Launch` | tool_config.h:12-15 | the registry built with its default templates and an editor built over it together give an editor that satisfies its invariant, with a blank document and the Draw tool active |
| `Editors.Editor.constructor` | editor.cpp:21-31 | a new document has both buffers filled with the background colour, an empty history, no selection, the Draw tool active (the member default at editor.h:51), and is unmodified |
| `Editors.Editor.RestoreCommandsFromStack` | editor.cpp:391-404 | the buffer becomes the baseline with the first min(pos, size) commands performed in index order. The document is modified exactly when at least one was performed. Nothing else changes |
| `Editors.Editor.OnUndo` | editor.cpp:88-100 | the history becomes its undo. At position 0 nothing changes. Otherwise only the cursor moves back by one, and the buffer and flag are rebuilt |
| `Editors.Editor.OnRedo` | editor.cpp:102-114 | the history becomes its redo. At the top of the stack nothing changes. Otherwise only the cursor moves forward by one, and the buffer and flag are rebuilt |
| `Editors.Editor.PushCurrentCommand` | editor.cpp:367-388 | the history becomes its push of the command in progress. No command is in progress afterwards, and the document is modified |
| `Editors.Editor.PerformCompleteCommand` | editor.cpp:318-340 | a modifying command in progress is performed on the buffer; otherwise the buffer is unchanged |
| `Editors.Editor.Complete` | editor.cpp:180-188 | a modifying command is performed and pushed, and its effect is the newest in the history. Any other command is dropped with nothing else changed. In both cases no command is left in progress and the invariant holds |
| `Editors.Editor.Commit` | editor.cpp:180-183 | after perform and push, the buffer is the replay of the new history: the invariant is re-established |
| `Editors.Editor.CommitKeepsConsistent` | editor.cpp:318-388 | performing a modifying command that is not a template on the buffer and pushing it keeps the invariant: the buffer is again the replay of the new history, and the document is modified |
| `Editors.Editor.OnClicked` | editor.cpp:169-192 | a non-clickable tool changes nothing. Otherwise a fresh copy of the tool's template is made, with the mode from the button and aimed at the click. A Fill is performed and pushed, and only the history, the buffer and the modified flag change. A Zoom is dropped, and only the command in progress is cleared. No command is in progress afterwards |
| `Editors.Editor.NewClickCommand` | editor.cpp:176-179 | the click command is a fresh copy of the active template, with the mode from the button and aimed at the click |
| `Editors.Editor.OnDragStarted` | editor.cpp:194-204 | a non-draggable tool changes nothing. Otherwise a fresh copy of the tool's template, told where the drag starts, becomes the command in progress |
| `Editors.Editor.NewDragCommand` | editor.cpp:200-203 | a stroke copies the template's settings and starts with no segments; a selection is anchored at the start point |
| `Editors.Editor.OnDragContinued` | editor.cpp:206-211 | without a command in progress nothing happens. A stroke in progress gains exactly the segment (start, end), and a selection moves its far corner. The editor's own state is unchanged |
| `Editors.Editor.OnDragEnded` | editor.cpp:213-226 | without a command in progress nothing happens. Otherwise a modifying command is performed and pushed, and a selection is dropped. No command is in progress afterwards |
| `Editors.Editor.OnCut` | editor.cpp:116-129 | an empty selection changes nothing. Otherwise the clipboard gets the selection's pixels, and a fresh Cut over the selection is performed and pushed. Only the history, the buffer and the modified flag change |
| `Editors.Editor.OnCopy` | editor.cpp:131-139 | with a non-empty selection the clipboard gets exactly the selection's pixels; with an empty one it gets nothing. The editor does not change |
| `Editors.Editor.OnPaste` | editor.cpp:141-153 | an empty clipboard changes nothing. Otherwise a fresh Paste of the clipboard image into the selection is performed and pushed. Only the history, the buffer and the modified flag change |
| `Editors.Editor.OnSelectAll` | editor.cpp:156-160 | the selection becomes the whole document, and is non-empty exactly when the document is |
| `Editors.Editor.OnSelectNone` | editor.cpp:162-166 | the selection becomes the empty rectangle |
| `Editors.Editor.OnToolChosen` | editor.cpp:261-267 | only the active tool changes, and the new tool has a template |
| `Editors.Editor.OnToolColorChosen` | editor.cpp:269-275 | exactly the colours of the Draw and Fill templates change; the editor's state is unchanged |
| `Editors.Editor.OnToolWidthChosen` | editor.cpp:277-289 | the active template's width changes if it is Draw or Erase; any other template stays as it is |
| `Editors.Editor.DrawAfterColorChosen` | editor.cpp:269-275 | a Draw command created after a colour is chosen carries that colour, because the template was changed in place |
| `Editors.Editor.Reset` | editor.cpp:301-310 | the destination buffer becomes the source, the stack is emptied, the cursor is 0, and no command is in progress. Nothing else changes |
| `Editors.Editor.ResetDocument` | editor.cpp:291-299 | the document takes the baseline's size and shows the baseline, with an empty history, unmodified |
| `Editors.Editor.NewFile` | editor.cpp:46-51 | the baseline becomes a background-filled buffer of the current size, and the document is reset to it |
| `Editors.Editor.LoadFile` | editor.cpp:53-63 | a loaded image becomes the baseline and current buffer, with its size, an empty history and unmodified. A failed load returns false and changes nothing |
| `Editors.Editor.LoadFileAsWritten` | editor.cpp:53-63 | after a failed load the baseline is the null pixmap and the history is kept. Undoing to the start then shows the null pixmap; with nothing applied, the invariant is broken at once |
| `Editors.Editor.SaveFile` | editor.cpp:65-75 | a successful save makes the current buffer the baseline, with an empty history, unmodified. A failed save returns false and changes nothing |
| `Editors.Editor.UndoThenRedo` | editor.cpp:88-114 | undoing and then redoing restores the whole editor state |
| `Editors.Editor.CompleteThenUndo` | editor.cpp:88-100 | completing a modifying command and then undoing it gives back the buffer, the modified flag and the cursor, and leaves the command to redo |

## Left out

- Zoom level, `Editor::zoom` and the mouse-wheel handler are left out. They work on a floating-point zoom factor and rely on Scroll and Zoom members (the scroll amount, the zoom factor) that are not part of this model.
- The Zoom command's own `perform` is left out. It changes the view, not the document, so the model treats Zoom as leaving the buffer alone.
- Scroll's declaration is not part of this model. Scroll is registered as a template (tool_config.cpp:19), and the model treats it as non-modifying and neither clickable nor draggable, like the other view commands.
- Notifications (`emit`), cursor shapes, console output and painting to widgets (`paintCurrentBuffer`, `paintCustomCursor`, `paintCurrentSelection`, `performPartialCommand`) are left out. They only display state.
- Rasterisation is left out. Line drawing and the Fill, Cut and Paste effects are parameters of a `Painter`. The bodies of the Fill, Cut and Paste `perform` functions are not part of this model.
- The connection from a Fill command to `Algorithms.FloodFill` is left out, because the Fill `perform` body is not part of this model. The flood fill is modelled on its own.
- Algorithms.FloodFill works in place on an `array2<Color>` image indexed `[x, y]`. The source works on a `QImage` copy of the painter's pixmap and draws it back at the end. The copy and the draw back are not modelled.
- Algorithms.FloodFill requires the seed to lie inside the image. The source indexes the visited matrix and the image at the seed without a bounds check, so an out-of-bounds seed is undefined behaviour there.
- Algorithms.FloodFill: the source keeps the visited matrix as a variable-length array on the stack, which can overflow the stack for large images. The model's heap `array2<bool>` has no such limit.
- Algorithms.Visit: one turn of the flood fill loop is a method of its own. This keeps each proof small. The loop's statements, their order and their branches are unchanged.
- Clipboard and file I/O are inputs. `OnCut` and `OnCopy` return the clipboard image. `OnPaste` takes it as an `Option`. `LoadFile` takes the loaded image as an `Option`, and `SaveFile` takes the save result as a `bool`.
- Commands.Command.StartDrag: the body of Select's `startDrag` is not part of this model; it is taken to record the anchor in `m_from`.
- Commands.Command.Clone: the Draw, Erase, Copy and Paste copy constructors leave the mode uninitialised, so the contract says nothing about the copy's mode. The editor sets the mode of click commands itself.
- ToolConfigs.ToolConfig.GetConfig: on a missing key, `m_configs[t]` also inserts an empty entry into the map. The model returns null without changing the registry, and callers are required to pass a registered tool where the source would dereference null.
- ToolConfigs.ToolConfig.constructor: the `default` branch that throws cannot be reached from the fixed list of registered tools, so it is not modelled. `defaultDrawWidth` is a constructor parameter, because its value is not part of this model.
- Editors.Editor.constructor: the registry and the painter are parameters, where the source uses the process-wide registry instance. `Editors.Launch` builds both in that order. Commands keep no back pointer to the editor (`setEditor`).
- Editors.Editor.constructor: the editor.cpp constructor does not set the active tool. The Draw default comes from the member initialiser at editor.h:51, a header that still names the tool type `ToolType`.
- Editors.Editor.SaveFile follows the code. A successful save resets the baseline to the current buffer and clears the history, so earlier commands can no longer be undone.
- Editors.Editor.OnToolChosen requires a registered tool, since the source dereferences that tool's template to get the cursor.
- The window (menus, toolbars, dialogs), the scroll area and start-up code are left out.

## Findings

| source | as written | input that shows it | evidently intended | confidence | as-written member | corrected member |
|---|---|---|---|---|---|---|
| editor.cpp:53-63 | `loadFile` loads straight into `m_initialBuffer`. A failed `QPixmap::load` leaves that pixmap null, and the function returns false without resetting the history | a document with commands applied, then a load of an unreadable file, then undo back to the start: the buffer shows the null pixmap instead of the original picture. With no commands applied, the buffer no longer equals the replay of the history | a failed load returns false and leaves the document as it was | medium, not executed; relies on the host library nulling the pixmap on a failed load | `Editors.Editor.LoadFileAsWritten` | `Editors.Editor.LoadFile` |
