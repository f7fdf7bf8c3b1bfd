/** The editing commands: a tagged family of variants with fixed capability
    flags, the settings each variant carries, the drag protocol that grows a
    stroke, copying, and the effect of performing a command on a buffer. */
module Commands {
  import opened Graphics

  datatype CommandType = Select | Draw | Fill | Erase | Cut | Copy | Paste | Scroll | Zoom

  datatype CommandMode = Primary | Alternate

  /** A modifying command changes the document and is kept in the history. */
  function IsModifying(t: CommandType): (r: bool)
    ensures r <==> t in {Draw, Fill, Erase, Cut, Paste}
    ensures r ==> t != Select && t != Copy && t != Zoom && t != Scroll
  {
    match t
    case Draw | Fill | Erase | Cut | Paste => true
    case Select | Copy | Zoom | Scroll => false
  }

  /** A clickable command runs to completion on a single click. */
  function IsClickable(t: CommandType): (r: bool)
    ensures r <==> t in {Fill, Zoom}
  {
    match t
    case Fill | Zoom => true
    case _ => false
  }

  /** A draggable command is built up by a drag and completes when it ends. */
  function IsDraggable(t: CommandType): (r: bool)
    ensures r <==> t in {Draw, Erase, Select}
    ensures r ==> !IsClickable(t)
  {
    match t
    case Draw | Erase | Select => true
    case _ => false
  }

  /** Whether the tool paints its own cursor, a square of the stroke width. */
  function UsesCustomCursor(t: CommandType): (r: bool)
    ensures r <==> t in {Draw, Erase}
    ensures r ==> IsDraggable(t) && IsModifying(t)
  {
    t == Draw || t == Erase
  }

  /** The C++ quotient `n / 2`, which truncates toward zero. */
  function HalfTowardZero(n: int): (r: int)
    ensures n >= 0 ==> 0 <= n - 2 * r <= 1
    ensures n < 0 ==> -1 <= n - 2 * r <= 0
  {
    if n >= 0 then n / 2 else -((-n) / 2)
  }

  /** The square the custom cursor is painted in: radius `width / 2`,
      centred on `pos`. */
  function CursorSquare(pos: Point, width: int): (sq: Rect)
    ensures sq.width == sq.height
    ensures sq.x + sq.width / 2 == pos.x && sq.y + sq.height / 2 == pos.y
    ensures width >= 0 ==> 0 <= width - sq.width <= 1
    ensures sq.width % 2 == 0
  {
    var radius := HalfTowardZero(width);
    Rect(pos.x - radius, pos.y - radius, radius * 2, radius * 2)
  }

  /** Strokes the segments one after the other, first to last, with `pen`. */
  function Stroke(p: Painter, b: Pixmap, pen: Pen, lines: seq<Segment>): Pixmap
    decreases |lines|
  {
    if lines == [] then b
    else p.drawLine(Stroke(p, b, pen, lines[..|lines| - 1]), pen, lines[|lines| - 1])
  }

  /** Stroking a list is stroking its first part, then its second part:
      the segments are drawn in list order. */
  lemma {:induction false} StrokeConcat(p: Painter, b: Pixmap, pen: Pen, xs: seq<Segment>, ys: seq<Segment>)
    ensures Stroke(p, b, pen, xs + ys) == Stroke(p, Stroke(p, b, pen, xs), pen, ys)
    decreases |ys|
  {
    if ys == [] {
      assert xs + ys == xs;
    } else {
      var ys' := ys[..|ys| - 1];
      assert (xs + ys)[..|xs + ys| - 1] == xs + ys';
      StrokeConcat(p, b, pen, xs, ys');
    }
  }

  /** The first segment of a stroke is drawn first, onto the original buffer. */
  lemma StrokeFirst(p: Painter, b: Pixmap, pen: Pen, s: Segment, rest: seq<Segment>)
    ensures Stroke(p, b, pen, [s] + rest) == Stroke(p, p.drawLine(b, pen, s), pen, rest)
  {
    StrokeConcat(p, b, pen, [s], rest);
    assert [s][..0] == [];
  }

  /** The settings of a command, as one value. */
  datatype CommandState = CommandState(
    mode: CommandMode, width: int, color: Color, lines: seq<Segment>,
    targetPos: Point, dragFrom: Point, dragTo: Point, targetArea: Rect, data: Pixmap)

  /** A command. Every variant is one object whose `kind` never changes;
      only the fields of its own variant mean anything:
      Draw: width, color, lines; Erase: width, lines; Fill: color, targetPos;
      Select: dragFrom, dragTo; Cut: targetArea; Copy: data; Paste: targetArea, data;
      Zoom: targetPos. */
  class Command {
    const kind: CommandType
    var mode: CommandMode
    var width: int
    var color: Color
    var lines: seq<Segment>
    var targetPos: Point
    var dragFrom: Point
    var dragTo: Point
    var targetArea: Rect
    var data: Pixmap

    ghost function State(): CommandState
      reads this
    {
      CommandState(mode, width, color, lines, targetPos, dragFrom, dragTo, targetArea, data)
    }

    constructor NewDraw(color: Color, width: int)
      ensures kind == Draw && this.color == color && this.width == width && lines == []
    {
      kind := Draw;
      this.color := color;
      this.width := width;
      lines := [];
    }

    constructor NewFill(color: Color, targetPos: Point)
      ensures kind == Fill && this.color == color && this.targetPos == targetPos && lines == []
    {
      kind := Fill;
      lines := [];
      this.color := color;
      this.targetPos := targetPos;
    }

    constructor NewErase(width: int)
      ensures kind == Erase && this.width == width && lines == []
    {
      kind := Erase;
      this.width := width;
      lines := [];
    }

    constructor NewSelect()
      ensures kind == Select && lines == []
    {
      kind := Select;
      lines := [];
    }

    constructor NewCut(targetArea: Rect)
      ensures kind == Cut && this.targetArea == targetArea && lines == []
    {
      kind := Cut;
      lines := [];
      this.targetArea := targetArea;
    }

    constructor NewCopy(data: Pixmap)
      ensures kind == Copy && this.data == data && lines == []
    {
      kind := Copy;
      lines := [];
      this.data := data;
    }

    constructor NewPaste(targetArea: Rect, data: Pixmap)
      ensures kind == Paste && this.targetArea == targetArea && this.data == data && lines == []
    {
      kind := Paste;
      lines := [];
      this.targetArea := targetArea;
      this.data := data;
    }

    constructor NewZoom()
      ensures kind == Zoom && lines == []
    {
      kind := Zoom;
      lines := [];
    }

    constructor NewScroll()
      ensures kind == Scroll && lines == []
    {
      kind := Scroll;
      lines := [];
    }

    method SetMode(mode: CommandMode)
      modifies this
      ensures State() == old(State()).(mode := mode)
    {
      this.mode := mode;
    }

    /** Only Draw and Erase have a width setting. */
    method SetWidth(width: int)
      requires kind == Draw || kind == Erase
      modifies this
      ensures State() == old(State()).(width := width)
    {
      this.width := width;
    }

    /** Only Draw and Fill have a colour setting. */
    method SetColor(color: Color)
      requires kind == Draw || kind == Fill
      modifies this
      ensures State() == old(State()).(color := color)
    {
      this.color := color;
    }

    /** Fill and Zoom record the target; every other command ignores it. */
    method SetTargetPos(pos: Point)
      modifies this
      ensures State() == if kind in {Fill, Zoom} then old(State()).(targetPos := pos) else old(State())
    {
      if kind == Fill || kind == Zoom {
        targetPos := pos;
      }
    }

    method SetTargetArea(targetArea: Rect)
      requires kind == Cut
      modifies this
      ensures State() == old(State()).(targetArea := targetArea)
    {
      this.targetArea := targetArea;
    }

    /** Begins a drag at `pos`: Select anchors its rectangle there; the
        other commands ignore it. */
    method StartDrag(pos: Point)
      modifies this
      ensures State() == if kind == Select then old(State()).(dragFrom := pos) else old(State())
    {
      if kind == Select {
        dragFrom := pos;
      }
    }

    /** One step of a drag from `from` to `to`: Draw and Erase append the
        segment to their stroke, Select moves the free corner of its
        rectangle, and the other commands ignore it. */
    method ContinueDrag(from: Point, to: Point)
      modifies this
      ensures kind in {Draw, Erase} ==> State() == old(State()).(lines := old(lines) + [Segment(from, to)])
      ensures kind == Select ==> State() == old(State()).(dragTo := to)
      ensures kind !in {Draw, Erase, Select} ==> State() == old(State())
    {
      match kind {
        case Draw | Erase =>
          lines := lines + [Segment(from, to)];
        case Select =>
          dragTo := to;
        case _ =>
      }
    }

    /** What a copy of `src` shares with it. The Draw and Erase copies take
        the settings and the segments but not the mode; Copy and Paste take
        only the pixmap, so a copied Paste has an empty target area; the
        other variants are copied field by field. */
    ghost predicate IsCloneOf(src: Command)
      reads this, src
    {
      && kind == src.kind
      && match kind
         case Draw => width == src.width && color == src.color && lines == src.lines
         case Erase => width == src.width && lines == src.lines
         case Fill => mode == src.mode && color == src.color && targetPos == src.targetPos
         case Select => mode == src.mode && dragFrom == src.dragFrom && dragTo == src.dragTo
         case Cut => mode == src.mode && targetArea == src.targetArea
         case Zoom => mode == src.mode && targetPos == src.targetPos
         case Scroll => mode == src.mode
         case Copy => data == src.data
         case Paste => data == src.data && targetArea == EmptyRect
    }

    /** A new command of the same variant, in storage of its own. */
    method Clone() returns (c: Command)
      ensures fresh(c) && c.IsCloneOf(this)
    {
      if kind == Draw {
        c := new Command.NewDraw(color, width);
        c.CopyLines(this);
      } else if kind == Erase {
        c := new Command.NewErase(width);
        c.CopyLines(this);
      } else if kind == Fill {
        c := new Command.NewFill(color, targetPos);
        c.mode := mode;
      } else if kind == Select {
        c := new Command.NewSelect();
        c.mode, c.dragFrom, c.dragTo := mode, dragFrom, dragTo;
      } else if kind == Cut {
        c := new Command.NewCut(targetArea);
        c.mode := mode;
      } else if kind == Zoom {
        c := new Command.NewZoom();
        c.mode, c.targetPos := mode, targetPos;
      } else if kind == Scroll {
        c := new Command.NewScroll();
        c.mode := mode;
      } else if kind == Copy {
        c := new Command.NewCopy(data);
      } else {
        c := new Command.NewPaste(EmptyRect, data);
      }
    }

    /** Appends the segments of `src`, one by one, to an empty stroke. */
    method CopyLines(src: Command)
      requires src != this && lines == []
      modifies this
      ensures State() == old(State()).(lines := src.lines)
    {
      for i := 0 to |src.lines|
        invariant lines == src.lines[..i]
        invariant State() == old(State()).(lines := lines)
      {
        lines := lines + [src.lines[i]];
      }
    }

    /** The buffer after performing this command on `b`. Draw strokes its
        segments with its own pen; Erase strokes them with the background
        colour, whatever its colour setting; the commands that do not modify
        the document leave the buffer as it is. */
    ghost function Performed(p: Painter, b: Pixmap): (r: Pixmap)
      reads this
      ensures !IsModifying(kind) ==> r == b
    {
      match kind
      case Draw => Stroke(p, b, Pen(color, width), lines)
      case Erase => Stroke(p, b, Pen(BkgColor, width), lines)
      case Fill => p.fill(b, color, targetPos)
      case Cut => p.cut(b, targetArea)
      case Paste => p.paste(b, targetArea, data)
      case Select | Copy | Zoom | Scroll => b
    }

    /** Performs the command on `b`; the command itself is not changed. */
    method Perform(p: Painter, b: Pixmap) returns (r: Pixmap)
      ensures r == Performed(p, b)
    {
      match kind {
        case Draw => r := StrokeLines(p, b, Pen(color, width));
        case Erase => r := StrokeLines(p, b, Pen(BkgColor, width));
        case Fill => r := p.fill(b, color, targetPos);
        case Cut => r := p.cut(b, targetArea);
        case Paste => r := p.paste(b, targetArea, data);
        case Select | Copy | Zoom | Scroll => r := b;
      }
    }

    /** Draws every stored segment, in order, with `pen`. */
    method StrokeLines(p: Painter, b: Pixmap, pen: Pen) returns (r: Pixmap)
      ensures r == Stroke(p, b, pen, lines)
    {
      r := b;
      for i := 0 to |lines|
        invariant r == Stroke(p, b, pen, lines[..i])
      {
        assert lines[..i + 1][..i] == lines[..i];
        r := p.drawLine(r, pen, lines[i]);
      }
      assert lines[..|lines|] == lines;
    }

    /** The square the tool's custom cursor is painted in at `pos`, for
        the tools that paint one. */
    function CustomCursor(pos: Point): (sq: Option<Rect>)
      reads this
      ensures sq.Some? <==> kind in {Draw, Erase}
      ensures sq.Some? ==> sq.value.x + sq.value.width / 2 == pos.x && sq.value.y + sq.value.height / 2 == pos.y
    {
      if UsesCustomCursor(kind) then Some(CursorSquare(pos, width)) else None
    }
  }

  /** A copy performs like its original, for every variant but Paste,
      whose copy loses its target area. */
  lemma CloneActsAlike(c: Command, src: Command, p: Painter, b: Pixmap)
    requires c.IsCloneOf(src) && src.kind != Paste
    ensures c.Performed(p, b) == src.Performed(p, b)
  {
  }

  /** A drag step on a copy leaves the original as it was: the copy owns
      its segments. */
  method DragCopy(src: Command, from: Point, to: Point) returns (c: Command)
    requires src.kind in {Draw, Erase}
    ensures fresh(c) && c.kind == src.kind
    ensures c.lines == src.lines + [Segment(from, to)]
    ensures src.State() == old(src.State())
  {
    c := src.Clone();
    c.ContinueDrag(from, to);
  }
}
