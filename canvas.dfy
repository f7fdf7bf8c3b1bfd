/** The canvas's drag tracker: it turns the mouse positions reported while
    the left button is held into a chain of line segments, each starting
    where the previous one ended. */
module Canvas {
  import opened Graphics

  /** The point a drag has reached: the last of `points`, or `anchor`
      before the first move. */
  function Reached(anchor: Point, points: seq<Point>): Point {
    if points == [] then anchor else points[|points| - 1]
  }

  /** The segments a drag entered at `anchor` emits when the pointer moves
      through `points`: one per move, from the point reached so far to the
      new one. */
  function Chain(anchor: Point, points: seq<Point>): (r: seq<Segment>)
    ensures |r| == |points|
    decreases |points|
  {
    if points == [] then []
    else [Segment(anchor, points[0])] + Chain(points[0], points[1..])
  }

  /** Consecutive segments join: the first leaves `anchor`, each later one
      leaves where the one before ended. */
  ghost predicate Chained(anchor: Point, segments: seq<Segment>) {
    && (segments != [] ==> segments[0].from == anchor)
    && forall i :: 0 < i < |segments| ==> segments[i].from == segments[i - 1].to
  }

  /** The chain of a drag joins up, its i-th segment ends at the i-th
      point, and its last segment ends at the point reached. */
  lemma {:induction false} ChainIsChained(anchor: Point, points: seq<Point>)
    ensures Chained(anchor, Chain(anchor, points))
    ensures forall i :: 0 <= i < |points| ==> Chain(anchor, points)[i].to == points[i]
    ensures points != [] ==> Chain(anchor, points)[|points| - 1].to == Reached(anchor, points)
    decreases |points|
  {
    if points != [] {
      ChainIsChained(points[0], points[1..]);
      var rest := Chain(points[0], points[1..]);
      assert Chain(anchor, points) == [Segment(anchor, points[0])] + rest;
      forall i | 0 < i < |points|
        ensures Chain(anchor, points)[i].to == points[i]
      {
        assert Chain(anchor, points)[i] == rest[i - 1];
      }
    }
  }

  /** One more move extends the chain by exactly the segment from the
      point reached so far to the new position. */
  lemma {:induction false} ChainExtends(anchor: Point, points: seq<Point>, pos: Point)
    ensures Chain(anchor, points + [pos]) == Chain(anchor, points) + [Segment(Reached(anchor, points), pos)]
    decreases |points|
  {
    if points == [] {
      assert Chain(pos, []) == [];
    } else {
      assert (points + [pos])[0] == points[0];
      assert (points + [pos])[1..] == points[1..] + [pos];
      ChainExtends(points[0], points[1..], pos);
      if points[1..] == [] {
        assert Reached(points[0], points[1..]) == Reached(anchor, points);
      } else {
        assert points[1..][|points[1..]| - 1] == points[|points| - 1];
      }
    }
  }

  /** The mouse-move handling of the canvas: whether a left-button drag
      is under way, and where the next segment starts. */
  class DragTracker {
    var isDragging: bool
    var lineStart: Point
    /** Where the current drag was entered. */
    ghost var anchor: Point
    /** The positions reported since then. */
    ghost var points: seq<Point>

    /** During a drag, the next segment starts at the point reached, so
        the segments emitted so far are the chain of the drag. */
    ghost predicate Valid()
      reads this
    {
      isDragging ==> lineStart == Reached(anchor, points)
    }

    /** A tracker starts outside any drag. */
    constructor ()
      ensures Valid() && !isDragging
    {
      isDragging := false;
      lineStart := Point(0, 0);
      anchor := Point(0, 0);
      points := [];
    }

    /** Handles a move to `pos`, with `leftButton` telling whether the left
        button is held. Without it the drag ends; the first move with it
        enters a drag at `pos`; each later move emits the segment from the
        previous position to `pos`, which extends the drag's chain. */
    method MouseMove(leftButton: bool, pos: Point) returns (segment: Option<Segment>)
      requires Valid()
      modifies this
      ensures Valid()
      ensures !leftButton ==> segment == None && !isDragging && lineStart == old(lineStart)
      ensures leftButton && !old(isDragging) ==>
                && segment == None && isDragging && lineStart == pos
                && anchor == pos && points == []
      ensures leftButton && old(isDragging) ==>
                && segment == Some(Segment(old(lineStart), pos))
                && isDragging && lineStart == pos
                && anchor == old(anchor) && points == old(points) + [pos]
                && Chain(anchor, points) == Chain(anchor, old(points)) + [segment.value]
    {
      if !leftButton {
        isDragging := false;
        return None;
      }
      if !isDragging {
        isDragging := true;
        lineStart := pos;
        anchor, points := pos, [];
        return None;
      }
      var lineEnd := pos;
      segment := Some(Segment(lineStart, lineEnd));
      ChainExtends(anchor, points, lineEnd);
      points := points + [lineEnd];
      lineStart := lineEnd;
    }
  }
}
