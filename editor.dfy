/** The document editor: a linear history of performed commands with an
    undo cursor, the buffer rebuilt by replaying the applied commands, the
    single command in progress during a click or a drag, and the document
    operations that start a new baseline. */
module Editors {
  import opened Graphics
  import opened Commands
  import opened ToolConfigs

  datatype MouseButton = LeftButton | RightButton | MiddleButton

  /** The two buffers a reset can copy between. */
  datatype BufferSlot = InitialSlot | CurrentSlot

  /** A command history: the stack of commands and the cursor `pos`; the
      first `pos` commands are applied, the rest can be redone. */
  datatype History<T> = History(stack: seq<T>, pos: int) {
    predicate Valid() {
      0 <= pos <= |stack|
    }

    /** The commands whose effect the buffer shows, oldest first. */
    function Applied(): seq<T>
      requires Valid()
    {
      stack[..pos]
    }

    function Undo(): (h: History<T>)
      ensures Valid() ==> h.Valid()
    {
      if pos == 0 then this else History(stack, pos - 1)
    }

    function Redo(): (h: History<T>)
      ensures Valid() ==> h.Valid()
    {
      if pos == |stack| then this else History(stack, pos + 1)
    }

    /** Drops every undone command, then appends `c` as the newest
        applied one. */
    function Push(c: T): (h: History<T>)
      requires Valid()
      ensures h.Valid()
    {
      History(stack[..pos] + [c], pos + 1)
    }
  }

  /** Undo withdraws exactly the newest applied command, and nothing
      can be undone at the start of the history. */
  lemma UndoWithdrawsNewest<T>(h: History<T>)
    requires h.Valid()
    ensures h.pos == 0 ==> h.Undo() == h
    ensures h.pos > 0 ==> h.Undo().stack == h.stack && h.Undo().Applied() + [h.stack[h.pos - 1]] == h.Applied()
  {
    if h.pos > 0 {
      assert h.stack[..h.pos - 1] + [h.stack[h.pos - 1]] == h.stack[..h.pos];
    }
  }

  /** Redo reapplies exactly the oldest undone command, and nothing can be
      redone once every command is applied. */
  lemma RedoReappliesOldest<T>(h: History<T>)
    requires h.Valid()
    ensures h.pos == |h.stack| ==> h.Redo() == h
    ensures h.pos < |h.stack| ==> h.Redo().stack == h.stack && h.Redo().Applied() == h.Applied() + [h.stack[h.pos]]
  {
    if h.pos < |h.stack| {
      assert h.stack[..h.pos + 1] == h.stack[..h.pos] + [h.stack[h.pos]];
    }
  }

  /** Undo and redo undo each other. */
  lemma UndoRedoInverse<T>(h: History<T>)
    requires h.Valid()
    ensures h.pos > 0 ==> h.Undo().Redo() == h
    ensures h.pos < |h.stack| ==> h.Redo().Undo() == h
  {
  }

  /** A push keeps the applied commands, appends the new one, leaves
      nothing to redo, and can itself be undone back to the applied
      commands it started from. */
  lemma PushTruncatesThenAppends<T>(h: History<T>, c: T)
    requires h.Valid()
    ensures h.Push(c).Applied() == h.Applied() + [c]
    ensures h.Push(c).stack[..h.pos] == h.Applied() && |h.Push(c).stack| == h.pos + 1
    ensures h.Push(c).Redo() == h.Push(c)
    ensures h.Push(c).Undo().Applied() == h.Applied()
  {
    var s := h.stack[..h.pos] + [c];
    assert s[..h.pos + 1] == s;
    assert s[..h.pos] == h.stack[..h.pos];
  }

  /** The buffer obtained by performing `cmds` on `b`, oldest first. */
  ghost function Replay(p: Painter, b: Pixmap, cmds: seq<Command>): Pixmap
    reads cmds
    decreases |cmds|
  {
    if cmds == [] then b
    else cmds[|cmds| - 1].Performed(p, Replay(p, b, cmds[..|cmds| - 1]))
  }

  /** Replaying one more command performs it on the replayed buffer. */
  lemma ReplayStep(p: Painter, b: Pixmap, cmds: seq<Command>, c: Command)
    ensures Replay(p, b, cmds + [c]) == c.Performed(p, Replay(p, b, cmds))
  {
    assert (cmds + [c])[..|cmds|] == cmds;
  }

  /** After a push, replaying the applied commands performs the pushed
      command on the replay of those applied before. */
  lemma ReplayPush(p: Painter, b: Pixmap, h: History<Command>, c: Command)
    requires h.Valid()
    ensures Replay(p, b, h.Push(c).Applied()) == c.Performed(p, Replay(p, b, h.Applied()))
  {
    PushTruncatesThenAppends(h, c);
    ReplayStep(p, b, h.Applied(), c);
  }

  /** Replaying one more command of `cmds` performs it on the replay of
      those before it. */
  lemma ReplayPrefixStep(p: Painter, b: Pixmap, cmds: seq<Command>, i: int)
    requires 0 <= i < |cmds|
    ensures Replay(p, b, cmds[..i + 1]) == cmds[i].Performed(p, Replay(p, b, cmds[..i]))
  {
    assert cmds[..i + 1] == cmds[..i] + [cmds[i]];
    ReplayStep(p, b, cmds[..i], cmds[i]);
  }

  /** Replaying a history in two parts replays the first part, then the
      second on top of it. */
  lemma {:induction false} ReplayConcat(p: Painter, b: Pixmap, xs: seq<Command>, ys: seq<Command>)
    ensures Replay(p, b, xs + ys) == Replay(p, Replay(p, b, xs), ys)
    decreases |ys|
  {
    if ys == [] {
      assert xs + ys == xs;
    } else {
      var ys' := ys[..|ys| - 1];
      assert (xs + ys)[..|xs + ys| - 1] == xs + ys';
      ReplayConcat(p, b, xs, ys');
    }
  }

  /** The editor's fields, as one value. */
  datatype EditorState = EditorState(
    width: nat, height: nat, initialBuffer: Pixmap, currBuffer: Pixmap,
    cmdStack: seq<Command>, cmdStackPos: int, currCommand: Command?,
    isModified: bool, currSelection: Rect, activeTool: CommandType)

  class Editor {
    const tools: ToolConfig
    const painter: Painter
    var width: nat
    var height: nat
    var initialBuffer: Pixmap
    var currBuffer: Pixmap
    var cmdStack: seq<Command>
    var cmdStackPos: int
    var currCommand: Command?
    var isModified: bool
    var currSelection: Rect
    var activeTool: CommandType

    ghost function State(): EditorState
      reads this
    {
      EditorState(width, height, initialBuffer, currBuffer, cmdStack, cmdStackPos,
                  currCommand, isModified, currSelection, activeTool)
    }

    ghost function CommandHistory(): History<Command>
      reads this
    {
      History(cmdStack, cmdStackPos)
    }

    /** The editor's invariant: the cursor lies within the stack; the
        buffer is the baseline with the applied commands replayed on it;
        the document counts as modified exactly when some command is
        applied; the history holds only modifying commands, none of them a
        tool template; a command in progress is a draggable one outside the
        history and the templates; the active tool has a template, and no
        template has a stroke of its own. */
    ghost predicate Valid()
      reads this, tools, tools.templates, cmdStack
    {
      && Settled()
      && (currCommand != null ==>
            && currCommand !in cmdStack
            && currCommand !in tools.templates
            && IsDraggable(currCommand.kind))
    }

    /** The invariant apart from the command in progress. */
    ghost predicate Settled()
      reads this, tools, tools.templates, cmdStack
    {
      Consistent(State())
    }

    /** The invariant apart from the command in progress, stated on a
        snapshot of the editor's fields. */
    ghost predicate Consistent(s: EditorState)
      reads tools, tools.templates, s.cmdStack
    {
      && ToolsReady(s.activeTool)
      && History(s.cmdStack, s.cmdStackPos).Valid()
      && s.currBuffer == Replay(painter, s.initialBuffer, History(s.cmdStack, s.cmdStackPos).Applied())
      && (s.isModified <==> s.cmdStackPos > 0)
      && (forall c :: c in s.cmdStack ==> IsModifying(c.kind) && c !in tools.templates)
    }

    /** The registry holds a template for every tool, `active` among them,
        and no template has a stroke of its own. */
    ghost predicate ToolsReady(active: CommandType)
      reads tools, tools.templates
    {
      && tools.Valid()
      && active in tools.configs
      && (forall t :: t in tools.configs ==> tools.configs[t].lines == [])
    }

    /** A `width` by `height` document filled with the background colour,
        with an empty history, nothing selected and the Draw tool active. */
    constructor (width: nat, height: nat, tools: ToolConfig, painter: Painter)
      requires tools.Valid() && forall t :: t in tools.configs ==> tools.configs[t].lines == []
      ensures Valid()
      ensures this.tools == tools && this.painter == painter
      ensures State() == EditorState(width, height, FilledPixmap(width, height, BkgColor),
                                     FilledPixmap(width, height, BkgColor), [], 0, null,
                                     false, EmptyRect, Draw)
    {
      this.tools := tools;
      this.painter := painter;
      this.width := width;
      this.height := height;
      initialBuffer := FilledPixmap(width, height, BkgColor);
      currBuffer := FilledPixmap(width, height, BkgColor);
      cmdStack := [];
      cmdStackPos := 0;
      currCommand := null;
      isModified := false;
      currSelection := EmptyRect;
      activeTool := Draw;
    }

    /** Rebuilds the buffer from the baseline by performing, in order, the
        commands below both the cursor and the top of the stack; the
        document is modified exactly when at least one was performed. */
    method RestoreCommandsFromStack()
      requires 0 <= cmdStackPos
      modifies this
      ensures State() == old(State()).(currBuffer := currBuffer, isModified := isModified)
      ensures var n := if cmdStackPos < |cmdStack| then cmdStackPos else |cmdStack|;
              && currBuffer == Replay(painter, initialBuffer, cmdStack[..n])
              && isModified == (n > 0)
    {
      var buffer := initialBuffer;
      var modified := false;
      var i := 0;
      while i < cmdStackPos && i < |cmdStack|
        invariant unchanged(this)
        invariant 0 <= i <= |cmdStack| && i <= cmdStackPos
        invariant buffer == Replay(painter, initialBuffer, cmdStack[..i])
        invariant modified == (i > 0)
      {
        modified := true;
        ReplayPrefixStep(painter, initialBuffer, cmdStack, i);
        buffer := cmdStack[i].Perform(painter, buffer);
        i := i + 1;
      }
      currBuffer, isModified := buffer, modified;
    }

    /** Moves the cursor one command back and rebuilds the buffer; at the
        start of the history nothing happens. */
    method OnUndo()
      requires Valid()
      modifies this
      ensures Valid()
      ensures CommandHistory() == old(CommandHistory()).Undo()
      ensures State() == old(State()).(cmdStackPos := cmdStackPos, currBuffer := currBuffer, isModified := isModified)
      ensures old(cmdStackPos) == 0 ==> State() == old(State())
    {
      if cmdStackPos == 0 {
        return;
      }
      cmdStackPos := cmdStackPos - 1;
      RestoreCommandsFromStack();
    }

    /** Moves the cursor one command forward and rebuilds the buffer; with
        nothing left to redo nothing happens. */
    method OnRedo()
      requires Valid()
      modifies this
      ensures Valid()
      ensures CommandHistory() == old(CommandHistory()).Redo()
      ensures State() == old(State()).(cmdStackPos := cmdStackPos, currBuffer := currBuffer, isModified := isModified)
      ensures old(cmdStackPos) == old(|cmdStack|) ==> State() == old(State())
    {
      if cmdStackPos == |cmdStack| {
        return;
      }
      cmdStackPos := cmdStackPos + 1;
      RestoreCommandsFromStack();
    }

    /** Discards the undone commands, from the top of the stack down to the
        cursor, then appends the command in progress, which becomes the
        newest applied one; the document is now modified. */
    method PushCurrentCommand()
      requires currCommand != null && 0 <= cmdStackPos <= |cmdStack|
      modifies this
      ensures CommandHistory() == old(CommandHistory()).Push(old(currCommand))
      ensures State() == old(State()).(cmdStack := cmdStack, cmdStackPos := cmdStackPos,
                                       currCommand := null, isModified := true)
    {
      var cmdDiscardPos := |cmdStack| - 1;
      while cmdDiscardPos >= cmdStackPos
        invariant State() == old(State()).(cmdStack := cmdStack)
        invariant cmdStackPos - 1 <= cmdDiscardPos < |old(cmdStack)|
        invariant cmdStack == old(cmdStack)[..cmdDiscardPos + 1]
      {
        cmdStack := cmdStack[..cmdDiscardPos] + cmdStack[cmdDiscardPos + 1..];
        cmdDiscardPos := cmdDiscardPos - 1;
      }
      cmdStack := cmdStack + [currCommand];
      cmdStackPos := cmdStackPos + 1;
      currCommand := null;
      isModified := true;
    }

    /** Performs the command in progress on the buffer if it modifies the
        document; any other command leaves the buffer alone. */
    method PerformCompleteCommand()
      modifies this
      ensures currCommand == old(currCommand)
      ensures State() == old(State()).(currBuffer := currBuffer)
      ensures currBuffer == if currCommand != null && IsModifying(currCommand.kind)
                            then currCommand.Performed(painter, old(currBuffer))
                            else old(currBuffer)
    {
      if currCommand == null {
        return;
      }
      if IsModifying(currCommand.kind) {
        currBuffer := currCommand.Perform(painter, currBuffer);
      }
    }

    /** Makes `c` the command in progress and performs it, then keeps it
        in the history if it modifies the document and drops it otherwise. */
    method Complete(c: Command)
      requires Settled() && c !in cmdStack && c !in tools.templates
      modifies this
      ensures Valid() && currCommand == null
      ensures IsModifying(c.kind) ==>
                && Committed(c, old(CommandHistory()), old(currBuffer))
                && State() == old(State()).(cmdStack := cmdStack, cmdStackPos := cmdStackPos,
                                            currBuffer := currBuffer, currCommand := null,
                                            isModified := true)
      ensures !IsModifying(c.kind) ==> State() == old(State()).(currCommand := null)
    {
      if IsModifying(c.kind) {
        Commit(c);
      } else {
        currCommand := c;
        PerformCompleteCommand();
        currCommand := null;
      }
    }

    /** Performs the modifying command `c` as the command in progress and
        pushes it: the buffer then equals the replay of the new history. */
    method Commit(c: Command)
      requires Settled() && c !in cmdStack && c !in tools.templates && IsModifying(c.kind)
      modifies this
      ensures Valid() && currCommand == null
      ensures Committed(c, old(CommandHistory()), old(currBuffer))
      ensures State() == old(State()).(cmdStack := cmdStack, cmdStackPos := cmdStackPos,
                                       currBuffer := currBuffer, currCommand := null,
                                       isModified := true)
    {
      CommitKeepsConsistent(State(), c);
      currCommand := c;
      PerformCompleteCommand();
      PushCurrentCommand();
    }

    /** Performing a modifying command that is not a template and pushing
        it keeps the invariant. */
    lemma CommitKeepsConsistent(s: EditorState, c: Command)
      requires Consistent(s) && c !in tools.templates && IsModifying(c.kind)
      ensures var h := History(s.cmdStack, s.cmdStackPos).Push(c);
              Consistent(s.(cmdStack := h.stack, cmdStackPos := h.pos,
                            currBuffer := c.Performed(painter, s.currBuffer), isModified := true))
    {
      var h := History(s.cmdStack, s.cmdStackPos);
      ReplayPush(painter, s.initialBuffer, h, c);
      PushTruncatesThenAppends(h, c);
    }

    /** `c` is a command made from `template` for a click at `pos` with
        `button`: primary mode for the left button and alternate mode
        otherwise, aimed at `pos` if the tool takes a target, and with the
        colour of the template if it has one. */
    static ghost predicate ClickCommand(c: Command, template: Command, pos: Point, button: MouseButton)
      reads c, template
    {
      && c.kind == template.kind
      && c.mode == (if button == LeftButton then Primary else Alternate)
      && (c.kind in {Fill, Zoom} ==> c.targetPos == pos)
      && (c.kind == Fill ==> c.color == template.color)
    }

    /** The editor shows `c` performed on `b`, and `c` is the newest
        applied command of `h` after a push. */
    ghost predicate Committed(c: Command, h: History<Command>, b: Pixmap)
      reads this, c
      requires h.Valid()
    {
      && CommandHistory() == h.Push(c)
      && currBuffer == c.Performed(painter, b)
    }

    /** A click with a clickable tool: a new command from the tool's
        template, in primary mode for the left button and alternate mode
        otherwise, aimed at `pos`, is performed and then kept in the history
        or dropped. Other tools ignore clicks. */
    method OnClicked(pos: Point, button: MouseButton)
      requires Valid()
      modifies this
      ensures Valid()
      ensures !IsClickable(old(activeTool)) ==> State() == old(State())
      ensures IsClickable(old(activeTool)) && !IsModifying(old(activeTool)) ==>
                State() == old(State()).(currCommand := null)
      ensures IsClickable(old(activeTool)) && IsModifying(old(activeTool)) ==>
                && State() == old(State()).(cmdStack := cmdStack, cmdStackPos := cmdStackPos,
                                            currBuffer := currBuffer, currCommand := null,
                                            isModified := true)
                && |cmdStack| > 0
                && fresh(cmdStack[|cmdStack| - 1])
                && ClickCommand(cmdStack[|cmdStack| - 1], tools.configs[old(activeTool)], pos, button)
                && Committed(cmdStack[|cmdStack| - 1], old(CommandHistory()), old(currBuffer))
    {
      var maybeCmd := tools.GetConfig(activeTool);
      if !IsClickable(maybeCmd.kind) {
        return;
      }
      var c := NewClickCommand(pos, button);
      Complete(c);
    }

    /** A new command of the active tool for a click at `pos`: a copy of the
        tool's template, in primary mode for the left button and alternate
        mode otherwise, aimed at `pos` if the tool takes a target. */
    method NewClickCommand(pos: Point, button: MouseButton) returns (c: Command)
      requires tools.Valid() && activeTool in tools.configs
      ensures fresh(c) && ClickCommand(c, tools.configs[activeTool], pos, button)
    {
      c := tools.CreateCommand(activeTool);
      c.SetMode(if button == LeftButton then Primary else Alternate);
      c.SetTargetPos(pos);
    }

    /** A drag start with a draggable tool: a new command from the tool's
        template becomes the command in progress, anchored at `pos`; it
        replaces any command still in progress. Other tools ignore drags. */
    method OnDragStarted(pos: Point)
      requires Valid()
      modifies this
      ensures Valid()
      ensures !IsDraggable(activeTool) ==> State() == old(State())
      ensures IsDraggable(activeTool) ==>
                && State() == old(State()).(currCommand := currCommand)
                && currCommand != null && fresh(currCommand)
                && DragCommand(currCommand, tools.configs[activeTool], pos)
    {
      var maybeCmd := tools.GetConfig(activeTool);
      if !IsDraggable(maybeCmd.kind) {
        return;
      }
      var c := NewDragCommand(pos);
      currCommand := c;
    }

    /** `c` is a command made from `template` for a drag starting at
        `pos`: a stroke copies the template's settings and starts with no
        segments, a selection is anchored at `pos`. */
    static ghost predicate DragCommand(c: Command, template: Command, pos: Point)
      reads c, template
    {
      && c.kind == template.kind
      && (c.kind != Select ==> c.IsCloneOf(template) && c.lines == [])
      && (c.kind == Select ==> c.dragFrom == pos)
    }

    /** A new command of the active draggable tool for a drag starting at
        `pos`: a copy of the tool's template, told where the drag starts. */
    method NewDragCommand(pos: Point) returns (c: Command)
      requires tools.Valid() && activeTool in tools.configs && IsDraggable(activeTool)
      requires forall t :: t in tools.configs ==> tools.configs[t].lines == []
      ensures fresh(c) && DragCommand(c, tools.configs[activeTool], pos)
    {
      c := tools.CreateCommand(activeTool);
      c.StartDrag(pos);
    }

    /** Extends the command in progress by the drag step from `start` to
        `end`: a stroke gains that segment, a selection moves its far
        corner. Without a command in progress nothing happens. */
    method OnDragContinued(start: Point, end: Point)
      requires Valid()
      modifies currCommand
      ensures Valid() && State() == old(State())
      ensures currCommand != null && currCommand.kind in {Draw, Erase} ==>
                currCommand.State() == old(currCommand.State()).(lines := old(currCommand.lines) + [Segment(start, end)])
      ensures currCommand != null && currCommand.kind == Select ==>
                currCommand.State() == old(currCommand.State()).(dragTo := end)
    {
      if currCommand == null || !IsDraggable(currCommand.kind) {
        return;
      }
      currCommand.ContinueDrag(start, end);
    }

    /** Ends the drag: the command in progress is performed, then kept in
        the history if it modifies the document and dropped otherwise.
        Without a command in progress nothing happens. */
    method OnDragEnded(pos: Point)
      requires Valid()
      modifies this
      ensures Valid() && currCommand == null
      ensures old(currCommand) == null ==> State() == old(State())
      ensures old(currCommand) != null && IsModifying(old(currCommand).kind) ==>
                && Committed(old(currCommand), old(CommandHistory()), old(currBuffer))
                && State() == old(State()).(cmdStack := cmdStack, cmdStackPos := cmdStackPos,
                                            currBuffer := currBuffer, currCommand := null,
                                            isModified := true)
      ensures old(currCommand) != null && !IsModifying(old(currCommand).kind) ==>
                State() == old(State()).(currCommand := null)
    {
      if currCommand == null || !IsDraggable(currCommand.kind) {
        return;
      }
      Complete(currCommand);
    }

    /** Cuts the selection: its pixels go to the clipboard and a Cut
        command over it is performed and pushed. With nothing selected
        nothing happens. */
    method OnCut() returns (clipboard: Option<Pixmap>)
      requires Valid() && (!currSelection.IsEmpty() ==> currCommand == null)
      modifies this
      ensures Valid()
      ensures old(currSelection).IsEmpty() ==> clipboard == None && State() == old(State())
      ensures !old(currSelection).IsEmpty() ==>
                && clipboard == Some(painter.copy(old(currBuffer), old(currSelection)))
                && State() == old(State()).(cmdStack := cmdStack, cmdStackPos := cmdStackPos,
                                            currBuffer := currBuffer, currCommand := null,
                                            isModified := true)
                && |cmdStack| > 0 && fresh(cmdStack[|cmdStack| - 1])
                && cmdStack[|cmdStack| - 1].kind == Cut
                && cmdStack[|cmdStack| - 1].targetArea == old(currSelection)
                && Committed(cmdStack[|cmdStack| - 1], old(CommandHistory()), old(currBuffer))
    {
      if currSelection.IsEmpty() {
        return None;
      }
      clipboard := Some(painter.copy(currBuffer, currSelection));
      var c := new Command.NewCut(currSelection);
      Complete(c);
    }

    /** The selection's pixels for the clipboard, or None with nothing
        selected; the editor does not change. */
    method OnCopy() returns (clipboard: Option<Pixmap>)
      ensures clipboard.None? <==> currSelection.IsEmpty()
      ensures clipboard.Some? ==> clipboard.value == painter.copy(currBuffer, currSelection)
    {
      if currSelection.IsEmpty() {
        return None;
      }
      clipboard := Some(painter.copy(currBuffer, currSelection));
    }

    /** Pastes the clipboard's image, if there is one, into the selection
        as a pushed Paste command. */
    method OnPaste(clipboard: Option<Pixmap>)
      requires Valid() && currCommand == null
      modifies this
      ensures Valid()
      ensures clipboard.None? ==> State() == old(State())
      ensures clipboard.Some? ==>
                && State() == old(State()).(cmdStack := cmdStack, cmdStackPos := cmdStackPos,
                                            currBuffer := currBuffer, currCommand := null,
                                            isModified := true)
                && |cmdStack| > 0 && fresh(cmdStack[|cmdStack| - 1])
                && cmdStack[|cmdStack| - 1].kind == Paste
                && cmdStack[|cmdStack| - 1].targetArea == old(currSelection)
                && cmdStack[|cmdStack| - 1].data == clipboard.value
                && Committed(cmdStack[|cmdStack| - 1], old(CommandHistory()), old(currBuffer))
    {
      if clipboard.None? {
        return;
      }
      var c := new Command.NewPaste(currSelection, clipboard.value);
      Complete(c);
    }

    /** Selects the whole document; the selection is non-empty exactly
        when the document is. */
    method OnSelectAll()
      requires Valid()
      modifies this
      ensures Valid()
      ensures State() == old(State()).(currSelection := Rect(0, 0, width, height))
      ensures !currSelection.IsEmpty() <==> width > 0 && height > 0
    {
      currSelection := Rect(0, 0, width, height);
    }

    /** Clears the selection. */
    method OnSelectNone()
      requires Valid()
      modifies this
      ensures Valid()
      ensures State() == old(State()).(currSelection := EmptyRect)
      ensures currSelection.IsEmpty()
    {
      currSelection := EmptyRect;
    }

    /** Makes `t` the active tool. Only a tool with a template can be
        chosen, since its template supplies the cursor. */
    method OnToolChosen(t: CommandType)
      requires Valid() && t in tools.configs
      modifies this
      ensures Valid()
      ensures State() == old(State()).(activeTool := t)
    {
      activeTool := t;
    }

    /** Sets the colour of the Draw and Fill templates, and so of every
        later Draw and Fill command; nothing else changes. */
    method OnToolColorChosen(color: Color)
      requires Valid()
      modifies tools.configs[Draw], tools.configs[Fill]
      ensures Valid() && State() == old(State())
      ensures tools.configs[Draw].State() == old(tools.configs[Draw].State()).(color := color)
      ensures tools.configs[Fill].State() == old(tools.configs[Fill].State()).(color := color)
    {
      var cmdDraw := tools.GetConfig(Draw);
      cmdDraw.SetColor(color);
      var cmdFill := tools.GetConfig(Fill);
      cmdFill.SetColor(color);
    }

    /** Sets the width of the active tool's template if it is Draw or
        Erase; other tools ignore it. */
    method OnToolWidthChosen(width: int)
      requires Valid()
      modifies tools.configs[activeTool]
      ensures Valid() && State() == old(State())
      ensures activeTool in {Draw, Erase} ==>
                tools.configs[activeTool].State() == old(tools.configs[activeTool].State()).(width := width)
      ensures activeTool !in {Draw, Erase} ==>
                tools.configs[activeTool].State() == old(tools.configs[activeTool].State())
    {
      var currCmd := tools.GetConfig(activeTool);
      if activeTool == Draw || activeTool == Erase {
        currCmd.SetWidth(width);
      }
    }

    /** Copies one buffer into the other (the current buffer into the
        baseline for `InitialSlot`, the baseline into the current buffer for
        `CurrentSlot`), then empties the history and drops the command in
        progress. The modified flag is left to the caller. */
    method Reset(dest: BufferSlot)
      modifies this
      ensures dest == CurrentSlot ==>
                State() == old(State()).(currBuffer := initialBuffer, cmdStack := [],
                                         cmdStackPos := 0, currCommand := null)
      ensures dest == InitialSlot ==>
                State() == old(State()).(initialBuffer := currBuffer, cmdStack := [],
                                         cmdStackPos := 0, currCommand := null)
    {
      if dest == CurrentSlot {
        currBuffer := initialBuffer;
      } else {
        initialBuffer := currBuffer;
      }
      cmdStack := [];
      cmdStackPos := 0;
      currCommand := null;
    }

    /** Starts over from the baseline: the document takes the baseline's
        size, shows the baseline, has an empty history and is unmodified. */
    method ResetDocument()
      requires ToolsReady(activeTool)
      modifies this
      ensures Valid()
      ensures State() == old(State()).(width := initialBuffer.width, height := initialBuffer.height,
                                       currBuffer := initialBuffer, cmdStack := [], cmdStackPos := 0,
                                       currCommand := null, isModified := false)
    {
      width := initialBuffer.width;
      height := initialBuffer.height;
      Reset(CurrentSlot);
      isModified := false;
    }

    /** A new document of the current size, filled with the background
        colour. */
    method NewFile()
      requires Valid()
      modifies this
      ensures Valid()
      ensures State() == old(State()).(initialBuffer := FilledPixmap(width, height, BkgColor),
                                       currBuffer := FilledPixmap(width, height, BkgColor),
                                       cmdStack := [], cmdStackPos := 0, currCommand := null,
                                       isModified := false)
    {
      initialBuffer := FilledPixmap(width, height, BkgColor);
      ResetDocument();
    }

    /** Opens a document: `loaded` is the image read from the file, or
        None if reading failed. A loaded image becomes the new baseline of
        an unmodified document with an empty history; a failed load reports
        false and leaves the editor as it was. */
    method LoadFile(loaded: Option<Pixmap>) returns (ok: bool)
      requires Valid()
      modifies this
      ensures Valid()
      ensures ok <==> loaded.Some?
      ensures !ok ==> State() == old(State())
      ensures ok ==> State() == old(State()).(width := loaded.value.width, height := loaded.value.height,
                                              initialBuffer := loaded.value, currBuffer := loaded.value,
                                              cmdStack := [], cmdStackPos := 0, currCommand := null,
                                              isModified := false)
    {
      if loaded.None? {
        return false;
      }
      initialBuffer := loaded.value;
      ResetDocument();
      ok := true;
    }

    /** The load as written: reading into the baseline clears the baseline
        to the null pixmap when reading fails, and the failure is reported
        without restoring it, so the history now replays onto nothing. */
    method LoadFileAsWritten(loaded: Option<Pixmap>) returns (ok: bool)
      requires Valid()
      modifies this
      ensures ok <==> loaded.Some?
      ensures ok ==> Valid()
      ensures !ok ==> State() == old(State()).(initialBuffer := NullPixmap)
      ensures !ok && old(initialBuffer) != NullPixmap ==>
                Replay(painter, initialBuffer, []) != Replay(painter, old(initialBuffer), [])
      ensures !ok && old(cmdStackPos) == 0 && old(currBuffer) != NullPixmap ==> !Valid()
    {
      if loaded.None? {
        initialBuffer := NullPixmap;
        return false;
      }
      initialBuffer := loaded.value;
      ResetDocument();
      ok := true;
    }

    /** Saves the document; `saveOk` tells whether writing the file
        succeeded. A saved document becomes the new baseline, with an empty
        history and unmodified; a failed save changes nothing. */
    method SaveFile(saveOk: bool) returns (ok: bool)
      requires Valid()
      modifies this
      ensures Valid()
      ensures ok == saveOk
      ensures !ok ==> State() == old(State())
      ensures ok ==> State() == old(State()).(initialBuffer := currBuffer, cmdStack := [], cmdStackPos := 0,
                                              currCommand := null, isModified := false)
    {
      if !saveOk {
        return false;
      }
      Reset(InitialSlot);
      isModified := false;
      ok := true;
    }

    /** Undoing and then redoing a command restores the editor. */
    method UndoThenRedo()
      requires Valid() && cmdStackPos > 0
      modifies this
      ensures Valid() && State() == old(State())
    {
      OnUndo();
      OnRedo();
      UndoRedoInverse(old(CommandHistory()));
    }

    /** Completing a modifying command and then undoing it brings back the
        buffer and the modified flag from before, and leaves the command
        available for redo. */
    method CompleteThenUndo(c: Command)
      requires Valid() && currCommand == null && c !in cmdStack && c !in tools.templates
      requires IsModifying(c.kind)
      modifies this
      ensures Valid()
      ensures currBuffer == old(currBuffer) && isModified == old(isModified)
      ensures cmdStackPos == old(cmdStackPos) && cmdStack == old(cmdStack[..cmdStackPos]) + [c]
    {
      Complete(c);
      OnUndo();
      PushTruncatesThenAppends(old(CommandHistory()), c);
    }

    /** A colour chosen for the tools reaches the next stroke: a Draw
        command created afterwards carries it. */
    method DrawAfterColorChosen(color: Color) returns (c: Command)
      requires Valid()
      modifies tools.configs[Draw], tools.configs[Fill]
      ensures Valid() && State() == old(State())
      ensures fresh(c) && c.kind == Draw && c.color == color && c.lines == []
    {
      OnToolColorChosen(color);
      c := tools.CreateCommand(Draw);
    }
  }

  /** Start-up: the tool registry with its default templates, then an
      editor over it for a `width` by `height` document. The editor starts
      out satisfying its invariant, with a blank document and the Draw tool
      active. */
  method Launch(width: nat, height: nat, defaultDrawWidth: int, painter: Painter) returns (e: Editor)
    ensures fresh(e) && fresh(e.tools) && e.Valid()
    ensures e.State() == EditorState(width, height, FilledPixmap(width, height, BkgColor),
                                     FilledPixmap(width, height, BkgColor), [], 0, null,
                                     false, EmptyRect, Draw)
  {
    var tools := new ToolConfig(defaultDrawWidth);
    e := new Editor(width, height, tools, painter);
  }
}
